/** Every step of every thread keeps the invariant, so it holds in every state of every run. */
module TrackerInvariant {
  import opened Sums
  import opened Chains
  import opened Tracker
  import opened TrackerLaws
  import opened TrackerSafety

  /** Between the capacity check and the increment of entry_count. */
  predicate Passed(pc: Pc) {
    pc.Insert? && (pc.i.Number? || Numbered(pc.i))
  }

  function PassedWs(pcs: seq<Pc>): seq<int> {
    seq(|pcs|, i requires 0 <= i < |pcs| => Flag(Passed(pcs[i])))
  }

  /** entry_count together with the records that have passed the check. */
  ghost predicate CapacityOk(s: State) {
    s.ctr.entries + Sum(PassedWs(s.pcs)) <= MAX_ENTRIES + STRIPES - 1
  }

  /** A thread that will still raise the peak to at least `cur`. */
  predicate Covers(pc: Pc, cur: int) {
    && pc.Insert?
    && (pc.i.AddTotal? || pc.i.LoadCurrent? || ((pc.i.LoadPeak? || pc.i.Cas?) && cur <= pc.i.cur))
  }

  ghost predicate PeakOk(s: State) {
    && (s.ctr.current <= s.ctr.peak || exists t :: 0 <= t < |s.pcs| && Covers(s.pcs[t], s.ctr.current))
    && (forall t :: 0 <= t < |s.pcs| && s.pcs[t].Insert? && s.pcs[t].i.Cas? ==> s.pcs[t].i.seen <= s.ctr.peak)
  }

  ghost predicate Inv(s: State) {
    && Shape(s) && LocksOk(s) && ThreadsOk(s) && FoundOk(s) && ListsOk(s) && LawsOk(s)
    && CapacityOk(s) && PeakOk(s)
  }

  /** What Inv says about the thread that steps, in the terms of its own view. */
  lemma InvLocal(s: State, t: nat, x: Choice, s': State)
    requires Inv(s) && Step(s, t, x, s')
    ensures var f := FocusOf(s.c, s.pcs[t]); StepOk(s.c, t, s.pcs[t], Get(s, f), x)
    ensures var f := FocusOf(s.c, s.pcs[t]); var r := Act(s.c, t, s.pcs[t], Get(s, f), x).value;
            s'.pcs[t] == r.0 && Get(s', f) == r.1
  {}

  lemma BlocksKept(s: State, t: nat, x: Choice, s': State)
    requires Inv(s) && Step(s, t, x, s')
    ensures Shape(s') && BlocksOk(s')
  {
    InvLocal(s, t, x, s');
    var pc, f := s.pcs[t], FocusOf(s.c, s.pcs[t]);
    var v := Get(s, f);
    assert v.block == Some(t) <==> HoldsBlock(s.c, pc, f.l);
    StepBlock(s.c, t, pc, v, x);
    forall l: nat, u: nat | l < STRIPES && u < |s'.pcs|
      ensures s'.blocks[l] == Some(u) <==> HoldsBlock(s'.c, s'.pcs[u], l)
    {
      assert s.blocks[l] == Some(u) <==> HoldsBlock(s.c, s.pcs[u], l);
      if u == t && l != f.l { StepOtherBlock(s.c, t, pc, v, x, l); }
    }
  }

  lemma PoolLocksKept(s: State, t: nat, x: Choice, s': State)
    requires Inv(s) && Step(s, t, x, s')
    ensures Shape(s') && PoolLocksOk(s')
  {
    InvLocal(s, t, x, s');
    var pc, f := s.pcs[t], FocusOf(s.c, s.pcs[t]);
    var v := Get(s, f);
    assert v.plock == Some(t) <==> HoldsPool(s.c, pc, f.j);
    StepPlock(s.c, t, pc, v, x);
    forall j: nat, u: nat | j < STRIPES && u < |s'.pcs|
      ensures s'.plocks[j] == Some(u) <==> HoldsPool(s'.c, s'.pcs[u], j)
    {
      assert s.plocks[j] == Some(u) <==> HoldsPool(s.c, s.pcs[u], j);
      if u == t && j != f.j { StepOtherPlock(s.c, t, pc, v, x, j); }
    }
  }

  lemma FoundKept(s: State, t: nat, x: Choice, s': State)
    requires Inv(s) && Step(s, t, x, s')
    ensures Shape(s') && FoundOk(s')
  {
    InvLocal(s, t, x, s');
    var pc, f := s.pcs[t], FocusOf(s.c, s.pcs[t]);
    var v := Get(s, f);
    StepKeepsFound(s.c, t, pc, v, x);
    ChainGuarded(s.c, t, pc, v, x);
    forall u: nat | u < |s'.pcs| && (s'.pcs[u].Remove? || s'.pcs[u].Insert?)
      ensures FoundIn(s'.pcs[u], s'.chains[s'.c.bucketOf(s'.pcs[u].e.ptr)])
    {
      var p := s'.pcs[u].e.ptr;
      if u == t {
        FoundPlace(s.c, t, pc, v, x);
      } else if f.b == s.c.bucketOf(p) {
        assert s.pcs[u].Remove? || s.pcs[u].i.CountLink? ==> HoldsBlock(s.c, s.pcs[u], Stripe(s.c, p));
        assert HoldsBlock(s.c, pc, Stripe(s.c, p)) ==> s.blocks[Stripe(s.c, p)] == Some(t);
      }
    }
  }

  /** A thread that moves to a removal, or to counting a new link, stays at the chain it was at. */
  lemma FoundPlace(c: Params, t: nat, pc: Pc, v: View, x: Choice)
    requires Act(c, t, pc, v, x).Some?
    ensures var pc' := Act(c, t, pc, v, x).value.0;
            pc'.Remove? || (pc'.Insert? && pc'.i.CountLink?) ==> FocusOf(c, pc).b == c.bucketOf(pc'.e.ptr)
  {}

  lemma ListsKept(s: State, t: nat, x: Choice, s': State)
    requires Inv(s) && Step(s, t, x, s')
    ensures Shape(s') && ListsOk(s')
  {
    InvLocal(s, t, x, s');
    StepKeepsLists(s.c, t, s.pcs[t], Get(s, FocusOf(s.c, s.pcs[t])), x);
  }

  lemma LawsKept(s: State, t: nat, x: Choice, s': State)
    requires Inv(s) && Step(s, t, x, s')
    ensures LawsOk(s')
  {
    InvLocal(s, t, x, s');
    forall k | LawApplies(k, s'.c) ensures LawOk(k, s') {
      assert LawOk(k, s);
      TotalChange(k, s, t, x, s');
      StepBalances(k, s.c, t, s.pcs[t], Get(s, FocusOf(s.c, s.pcs[t])), x);
    }
  }

  // ---- current_bytes never goes below zero ---------------------------------------------------------

  function Sizes(chain: seq<Entry>): (n: nat)
    ensures n == 0 - ChainW(Bytes, chain)
  {
    if chain == [] then 0 else chain[0].size + Sizes(chain[1..])
  }

  lemma {:induction false} SizeInChain(chain: seq<Entry>, i: nat)
    requires i < |chain|
    ensures chain[i].size <= Sizes(chain)
  {
    if i > 0 { SizeInChain(chain[1..], i - 1); }
  }

  /** What a thread takes from current_bytes, counting the record that thread `t` is about to take. */
  function Claims(pcs: seq<Pc>, t: nat): seq<int>
    requires t < |pcs| && pcs[t].Remove?
  {
    seq(|pcs|, u requires 0 <= u < |pcs| => Taking(pcs[u]))[t := pcs[t].e.size]
  }

  ghost function Worth(s: State): seq<int> { seq(|s.chains|, b requires 0 <= b < |s.chains| => Sizes(s.chains[b])) }

  ghost function BucketOwners(s: State): seq<Option<nat>>
    requires Shape(s)
  {
    seq(|s.chains|, b requires 0 <= b < |s.chains| => s.blocks[b % STRIPES])
  }

  /** Records being removed are linked, each in a chain whose lock its remover holds; so together they
      are no larger than all the chains. */
  lemma ClaimsBound(s: State, t: nat)
    requires Inv(s) && t < |s.pcs| && s.pcs[t].Remove? && s.pcs[t].r.Test?
    ensures Sum(Claims(s.pcs, t)) <= Sum(Worth(s))
  {
    var claims, worth, owners := Claims(s.pcs, t), Worth(s), BucketOwners(s);
    forall u | 0 <= u < |claims| && !(claims[u] <= 0)
      ensures exists b :: 0 <= b < |owners| && owners[b] == Some(u) && claims[u] <= worth[b]
    {
      var pc := s.pcs[u];
      var b := s.c.bucketOf(pc.e.ptr);
      assert HoldsBlock(s.c, pc, Stripe(s.c, pc.e.ptr));
      SizeInChain(s.chains[b], First(s.chains[b], pc.e.ptr));
      assert owners[b] == Some(u) && claims[u] <= worth[b];
    }
    OwnersBound(claims, owners, worth);
  }

  /** The test before every subtraction succeeds: the record to be removed is covered by current_bytes. */
  lemma TestSucceeds(s: State, t: nat)
    requires Inv(s) && t < |s.pcs| && s.pcs[t].Remove? && s.pcs[t].r.Test?
    ensures s.pcs[t].e.size <= s.ctr.current
  {
    ClaimsBound(s, t);
    var taking := seq(|s.pcs|, u requires 0 <= u < |s.pcs| => Taking(s.pcs[u]) as int);
    SumUpdate(taking, t, s.pcs[t].e.size);
    assert Claims(s.pcs, t) == taking[t := s.pcs[t].e.size];
    SumMono(PcWs(Bytes, s.pcs), taking);
    var zeros, none := FreeWs(Bytes, s.frees), seq(|s.chains|, b => 0);
    SumConst(none, 0);
    SumDiff(none, Worth(s), ChainWs(Bytes, s.chains));
    forall j | 0 <= j < |zeros| ensures zeros[j] == 0 { FreeNoBytes(s.frees[j]); }
    SumConst(zeros, 0);
    assert LawOk(Bytes, s);
  }

  lemma {:induction false} FreeNoBytes(free: seq<nat>)
    ensures FreeW(Bytes, free) == 0
  {
    if free != [] { FreeNoBytes(free[1..]); }
  }

  lemma ThreadsKept(s: State, t: nat, x: Choice, s': State)
    requires Inv(s) && Step(s, t, x, s')
    ensures Shape(s') && ThreadsOk(s')
  {
    InvLocal(s, t, x, s');
    var pc := s.pcs[t];
    var v := Get(s, FocusOf(s.c, pc));
    StepKeepsPc(s.c, t, pc, v, x);
    if pc.Remove? && pc.r.Test? { TestSucceeds(s, t); }
    if Clamps(s'.pcs[t]) { ClampOrigin(s.c, t, pc, v, x); }
  }

  lemma ClampOrigin(c: Params, t: nat, pc: Pc, v: View, x: Choice)
    requires Act(c, t, pc, v, x).Some? && Clamps(Act(c, t, pc, v, x).value.0)
    ensures pc.Remove? && pc.r.Test? && v.ctr.current < pc.e.size
  {}

  // ---- capacity and peak ---------------------------------------------------------------------------

  /** At most one thread per bucket lock is past the capacity check. */
  lemma PassedBound(s: State)
    requires Shape(s) && LocksOk(s)
    ensures Sum(PassedWs(s.pcs)) <= STRIPES
  {
    var claims, ones := PassedWs(s.pcs), seq(STRIPES, l => 1);
    forall u | 0 <= u < |claims| && !(claims[u] <= 0)
      ensures exists l :: 0 <= l < |s.blocks| && s.blocks[l] == Some(u) && claims[u] <= ones[l]
    {
      var l := Stripe(s.c, s.pcs[u].e.ptr);
      assert HoldsBlock(s.c, s.pcs[u], l);
      assert s.blocks[l] == Some(u) && claims[u] <= ones[l];
    }
    OwnersBound(claims, s.blocks, ones);
    SumConst(ones, 1);
  }

  /** Only the step that passes the check, with entry_count below the limit, can raise the total. */
  lemma StepCapacity(c: Params, t: nat, pc: Pc, v: View, x: Choice)
    requires Act(c, t, pc, v, x).Some?
    ensures var (pc', v') := Act(c, t, pc, v, x).value;
            if pc.Insert? && pc.i.Check? then v'.ctr.entries == v.ctr.entries && (Passed(pc') ==> v.ctr.entries < MAX_ENTRIES)
            else v'.ctr.entries + Flag(Passed(pc')) <= v.ctr.entries + Flag(Passed(pc))
  {}

  lemma CapacityKept(s: State, t: nat, x: Choice, s': State)
    requires Inv(s) && Step(s, t, x, s')
    ensures CapacityOk(s')
  {
    InvLocal(s, t, x, s');
    StepCapacity(s.c, t, s.pcs[t], Get(s, FocusOf(s.c, s.pcs[t])), x);
    assert PassedWs(s'.pcs) == PassedWs(s.pcs)[t := Flag(Passed(s'.pcs[t]))];
    SumUpdate(PassedWs(s.pcs), t, Flag(Passed(s'.pcs[t])));
    BlocksKept(s, t, x, s');
    PoolLocksKept(s, t, x, s');
    PassedBound(s');
  }

  lemma StepPeak(c: Params, t: nat, pc: Pc, v: View, x: Choice)
    requires Act(c, t, pc, v, x).Some? && !Clamps(pc)
    requires pc.Insert? && pc.i.Cas? ==> pc.i.seen <= v.ctr.peak
    ensures var (pc', v') := Act(c, t, pc, v, x).value;
            && v.ctr.peak <= v'.ctr.peak
            && (v'.ctr.current <= v.ctr.current || Covers(pc', v'.ctr.current))
            && (Covers(pc, v.ctr.current) ==> Covers(pc', v'.ctr.current) || v'.ctr.current <= v'.ctr.peak)
            && (pc'.Insert? && pc'.i.Cas? ==> pc'.i.seen <= v'.ctr.peak)
  {}

  lemma PeakKept(s: State, t: nat, x: Choice, s': State)
    requires Inv(s) && Step(s, t, x, s')
    ensures PeakOk(s') && s.ctr.peak <= s'.ctr.peak
  {
    InvLocal(s, t, x, s');
    StepPeak(s.c, t, s.pcs[t], Get(s, FocusOf(s.c, s.pcs[t])), x);
    if !(s'.ctr.current <= s'.ctr.peak) {
      if !Covers(s'.pcs[t], s'.ctr.current) {
        var u :| 0 <= u < |s.pcs| && Covers(s.pcs[u], s.ctr.current);
        assert Covers(s'.pcs[u], s'.ctr.current);
      }
    }
  }

  lemma StepInv(s: State, t: nat, x: Choice, s': State)
    requires Inv(s) && Step(s, t, x, s')
    ensures Inv(s') && s.ctr.peak <= s'.ctr.peak
  {
    BlocksKept(s, t, x, s');
    PoolLocksKept(s, t, x, s');
    ThreadsKept(s, t, x, s');
    FoundKept(s, t, x, s');
    ListsKept(s, t, x, s');
    LawsKept(s, t, x, s');
    CapacityKept(s, t, x, s');
    PeakKept(s, t, x, s');
  }
}
