/** What one undisturbed call does from start to end: malloc, free and realloc of a single thread, as
    changes of the table, the free lists and the counters, whatever the raw allocator, the clock and the
    stack capture answer at each step and however often a weak compare-and-swap fails. */
module TrackerCalls {
  import opened Sums
  import opened Chains
  import opened Paths
  import opened Tracker
  import opened TrackerSafety
  import opened TrackerInvariant
  import opened TrackerTheorems
  import opened TrackerStacks

  // ---- runs of one thread alone ---------------------------------------------------------------------

  /** Where a call is over: outside the tracker, with a scan's rows in hand, or about to fork. */
  predicate Halts(pc: Pc) { pc.Idle? || pc.Report? || pc == Fork(Raw) }

  /** Thread `t`, inside a call, takes a step, with any choice; nobody else does anything. */
  ghost function Busy(t: nat): (State, State) -> bool {
    (s: State, s': State) => t < |s.pcs| && !Halts(s.pcs[t]) && exists x :: Step(s, t, x, s')
  }

  ghost function Back(t: nat): State -> bool { (s: State) => t < |s.pcs| && Halts(s.pcs[t]) }

  /** The states from which the call returns, always with `q`. */
  ghost function Returning(t: nat, q: State -> bool): State -> bool { Coming(Busy(t), Back(t), q) }

  /** Left alone, the call of thread `t` can return, and every way it returns ends in a state with `q`. */
  ghost predicate Returns(t: nat, s: State, q: State -> bool) { Returning(t, q)(s) }

  function With(r: State, t: nat, pc: Pc): State
    requires t < |r.pcs|
  {
    r.(pcs := r.pcs[t := pc])
  }

  /** A set of states closed under going back over the steps of the call. */
  ghost predicate Closed(t: nat, good: State -> bool) { BackClosed(Busy(t), Back(t), good) }

  lemma Returned(r: State, t: nat, q: State -> bool)
    requires t < |r.pcs| && q(With(r, t, Idle))
    ensures Returning(t, q)(With(r, t, Idle))
  {
    ComesNow(Busy(t), Back(t), With(r, t, Idle), q);
  }

  lemma Halted(s: State, t: nat, q: State -> bool)
    requires t < |s.pcs| && Halts(s.pcs[t]) && q(s)
    ensures Returning(t, q)(s)
  {
    ComesNow(Busy(t), Back(t), s, q);
  }

  ghost function Updated(r: State, f: Focus, v: View): State
    requires Shape(r) && FocusOk(f)
  {
    State(r.c, r.pcs, r.chains[f.b := v.chain], r.frees[f.j := v.free], r.blocks[f.l := v.block], r.plocks[f.j := v.plock], v.ctr)
  }

  lemma UpdatedTwice(r: State, f: Focus, v: View, w: View)
    requires Shape(r) && FocusOk(f)
    ensures Shape(Updated(r, f, v)) && Get(Updated(r, f, v), f) == v
    ensures Updated(Updated(r, f, v), f, w) == Updated(r, f, w) && Updated(r, f, Get(r, f)) == r
  {}

  /** A step of the call, seen from its view. */
  lemma StepFrom(r: State, t: nat, x: Choice, pc: Pc, s': State)
    requires Shape(r) && t < |r.pcs| && FocusOk(FocusOf(r.c, pc))
    ensures var f := FocusOf(r.c, pc); var a := Act(r.c, t, pc, Get(r, f), x);
            Step(With(r, t, pc), t, x, s') <==> a.Some? && s' == With(Updated(r, f, a.value.1), t, a.value.0)
  {
    var f, s := FocusOf(r.c, pc), With(r, t, pc);
    assert Get(s, f) == Get(r, f);
    var a := Act(r.c, t, pc, Get(r, f), x);
    if a.Some? { assert Put(s, f, t, a.value.0, a.value.1) == With(Updated(r, f, a.value.1), t, a.value.0); }
  }

  /** The positions from which a thread's next step does not depend on any choice. */
  predicate Fixed(c: Params, pc: Pc) {
    match pc
    case Idle | Unlock(_, _) | ScanStart | Report(_, _) => false
    case Fork(f) => !f.Raw?
    case Make(_, _, _, m) => !m.Fill? && (m.Start? ==> c.pooled)
    case Insert(_, _, i) => !i.Cas?
    case _ => true
  }

  const ANY := Choice(Pass, true, 0, 0, [], 0)

  lemma FixedAct(c: Params, t: nat, pc: Pc, v: View, x: Choice)
    requires Fixed(c, pc)
    ensures Act(c, t, pc, v, x) == Act(c, t, pc, v, ANY)
  {}

  /** Going back over one step without a choice. */
  lemma SureStep(r: State, t: nat, pc: Pc, pc1: Pc, v1: View, good: State -> bool)
    requires Closed(t, good)
    requires Shape(r) && t < |r.pcs| && FocusOk(FocusOf(r.c, pc)) && Fixed(r.c, pc)
    requires Act(r.c, t, pc, Get(r, FocusOf(r.c, pc)), ANY) == Some((pc1, v1))
    requires good(With(Updated(r, FocusOf(r.c, pc), v1), t, pc1))
    ensures good(With(r, t, pc))
  {
    var f, s := FocusOf(r.c, pc), With(r, t, pc);
    var s1 := With(Updated(r, f, v1), t, pc1);
    forall x, b ensures Step(s, t, x, b) <==> b == s1 {
      FixedAct(r.c, t, pc, Get(r, f), x);
      StepFrom(r, t, x, pc, b);
    }
    assert Step(s, t, ANY, s1) && Busy(t)(s, s1);
  }

  /** `n` steps without a choice on one view, as long as the thread stays at the same chain, locks and
      free list. */
  function Runs(c: Params, t: nat, pc: Pc, v: View, n: nat): Option<(Pc, View)>
    decreases n
  {
    if n == 0 then Some((pc, v))
    else
      var r := Act(c, t, pc, v, ANY);
      if !Fixed(c, pc) || r.None? || (n > 1 && FocusOf(c, r.value.0) != FocusOf(c, pc)) then None
      else Runs(c, t, r.value.0, r.value.1, n - 1)
  }

  lemma {:induction false} RunReturns(r: State, t: nat, pc: Pc, n: nat, pc': Pc, v': View, good: State -> bool)
    requires Closed(t, good)
    requires Shape(r) && t < |r.pcs| && FocusOk(FocusOf(r.c, pc))
    requires Runs(r.c, t, pc, Get(r, FocusOf(r.c, pc)), n) == Some((pc', v'))
    requires good(With(Updated(r, FocusOf(r.c, pc), v'), t, pc'))
    ensures good(With(r, t, pc))
    decreases n
  {
    var f := FocusOf(r.c, pc);
    UpdatedTwice(r, f, v', v');
    if n > 0 {
      var (pc1, v1) := Act(r.c, t, pc, Get(r, f), ANY).value;
      UpdatedTwice(r, f, v1, v');
      if n > 1 { RunReturns(Updated(r, f, v1), t, pc1, n - 1, pc', v', good); }
      SureStep(r, t, pc, pc1, v1, good);
    }
  }

  /** Some steps on one view. */
  ghost predicate RunsTo(c: Params, t: nat, pc: Pc, v: View, pc': Pc, v': View) {
    exists n: nat :: n > 0 && Runs(c, t, pc, v, n) == Some((pc', v'))
  }

  lemma Leap(r: State, t: nat, pc: Pc, pc': Pc, v': View, good: State -> bool)
    requires Closed(t, good)
    requires Shape(r) && t < |r.pcs| && FocusOk(FocusOf(r.c, pc))
    requires RunsTo(r.c, t, pc, Get(r, FocusOf(r.c, pc)), pc', v')
    requires good(With(Updated(r, FocusOf(r.c, pc), v'), t, pc'))
    ensures good(With(r, t, pc))
  {
    var n: nat :| n > 0 && Runs(r.c, t, pc, Get(r, FocusOf(r.c, pc)), n) == Some((pc', v'));
    RunReturns(r, t, pc, n, pc', v', good);
  }

  lemma {:induction false} RunsJoin(c: Params, t: nat, pc: Pc, v: View, m: nat, pc1: Pc, v1: View, n: nat)
    requires n > 0 && Runs(c, t, pc, v, m) == Some((pc1, v1)) && FocusOf(c, pc1) == FocusOf(c, pc)
    ensures Runs(c, t, pc, v, m + n) == Runs(c, t, pc1, v1, n)
    decreases m
  {
    if m > 0 {
      var r := Act(c, t, pc, v, ANY).value;
      assert Runs(c, t, pc, v, m) == Runs(c, t, r.0, r.1, m - 1);
      if m == 1 {
        assert r == (pc1, v1);
      } else {
        RunsJoin(c, t, r.0, r.1, m - 1, pc1, v1, n);
        assert Runs(c, t, pc, v, m + n) == Runs(c, t, r.0, r.1, m + n - 1);
      }
    }
  }

  lemma RunsOn(c: Params, t: nat, pc: Pc, v: View, pc1: Pc, v1: View, pc2: Pc, v2: View)
    requires RunsTo(c, t, pc, v, pc1, v1) && RunsTo(c, t, pc1, v1, pc2, v2) && FocusOf(c, pc1) == FocusOf(c, pc)
    ensures RunsTo(c, t, pc, v, pc2, v2)
  {
    var m: nat :| m > 0 && Runs(c, t, pc, v, m) == Some((pc1, v1));
    var n: nat :| n > 0 && Runs(c, t, pc1, v1, n) == Some((pc2, v2));
    RunsJoin(c, t, pc, v, m, pc1, v1, n);
  }

  /** Going back over one step that changes nothing but the thread's position, whatever the choice. */
  lemma Turn(r: State, t: nat, pc: Pc, good: State -> bool)
    requires Closed(t, good)
    requires Shape(r) && t < |r.pcs| && FocusOk(FocusOf(r.c, pc)) && !Halts(pc)
    requires forall x :: var a := Act(r.c, t, pc, Get(r, FocusOf(r.c, pc)), x);
                         a.Some? && a.value.1 == Get(r, FocusOf(r.c, pc)) && good(With(r, t, a.value.0))
    ensures good(With(r, t, pc))
  {
    var f, s := FocusOf(r.c, pc), With(r, t, pc);
    UpdatedTwice(r, f, Get(r, f), Get(r, f));
    forall b | Busy(t)(s, b) ensures good(b) {
      var x :| Step(s, t, x, b);
      StepFrom(r, t, x, pc, b);
    }
    var b0 := With(r, t, Act(r.c, t, pc, Get(r, f), ANY).value.0);
    StepFrom(r, t, ANY, pc, b0);
    assert Busy(t)(s, b0);
  }

  // ---- what the parts of a call do ------------------------------------------------------------------

  /** A record joins the table: numbered, counted, and in front of its bucket's chain. */
  ghost function Recorded(r: State, e: Entry): State
    requires Shape(r)
  {
    var b, k := r.c.bucketOf(e.ptr), r.ctr;
    r.(chains := r.chains[b := [WithNumber(e, k)] + r.chains[b]], ctr := Charged(k, e.size))
  }

  function Charged(k: Counters, z: nat): Counters {
    k.(seqNo := k.seqNo + 1, allocs := k.allocs + 1, current := k.current + z, total := k.total + z, entries := k.entries + 1,
       peak := if k.current + z > k.peak then k.current + z else k.peak)
  }

  /** The newest record of `p` leaves the table, and its slot heads its home free list. */
  ghost function Freed(r: State, p: Ptr): State
    requires Shape(r) && First(r.chains[r.c.bucketOf(p)], p) < |r.chains[r.c.bucketOf(p)]|
  {
    var b := r.c.bucketOf(p);
    var i := First(r.chains[b], p);
    var e := r.chains[b][i];
    var j := HomeStripe(r.c, e.slot);
    r.(chains := r.chains[b := Without(r.chains[b], i)],
       frees := if r.c.pooled then r.frees[j := [e.slot] + r.frees[j]] else r.frees,
       ctr := r.ctr.(current := r.ctr.current - e.size, frees := r.ctr.frees + 1, entries := r.ctr.entries - 1,
                     used := if r.c.pooled then r.ctr.used - 1 else r.ctr.used))
  }

  /** The first probe, from the i-th on, whose free list has a slot; 64 if there is none. */
  ghost function FirstFull(r: State, p: Ptr, i: nat): (k: nat)
    requires Shape(r) && i <= STRIPES
    ensures i <= k <= STRIPES && (k < STRIPES ==> r.frees[ProbeStripe(r.c, p, k)] != [])
    ensures forall h :: i <= h < k ==> r.frees[ProbeStripe(r.c, p, h)] == []
    decreases STRIPES - i
  {
    if i == STRIPES || r.frees[ProbeStripe(r.c, p, i)] != [] then i else FirstFull(r, p, i + 1)
  }

  ghost function Popped(r: State, j: nat): State
    requires Shape(r) && j < STRIPES && r.frees[j] != []
  {
    r.(frees := r.frees[j := r.frees[j][1..]], ctr := r.ctr.(used := r.ctr.used + 1))
  }

  /** A tracked allocation: skipped if the table is full, dropped if no slot or no memory for a record can
      be had, else recorded with the time and the stack that `x` gives. */
  ghost function Malloced(r: State, p: Ptr, z: nat, x: Choice): State
    requires Shape(r)
  {
    if r.ctr.entries >= MAX_ENTRIES then Skipped(r)
    else if !r.c.pooled then if x.ok then Recorded(r, Filled(0, p, z, x)) else r
    else
      var k := FirstFull(r, p, 0);
      if k == STRIPES then r
      else
        var j := ProbeStripe(r.c, p, k);
        Recorded(Popped(r, j), Filled(r.frees[j][0], p, z, x))
  }

  ghost function Skipped(r: State): State { r.(ctr := r.ctr.(skipped := r.ctr.skipped + 1)) }

  // ---- inserting ------------------------------------------------------------------------------------

  ghost predicate LocksFree(r: State)
    requires Shape(r)
  {
    (forall l :: 0 <= l < STRIPES ==> r.blocks[l] == None) && (forall j :: 0 <= j < STRIPES ==> r.plocks[j] == None)
  }

  /** Releasing a bucket lock and going on as the choice has it. */
  lemma Release(r: State, t: nat, l: nat, k: Then, good: State -> bool)
    requires Closed(t, good)
    requires Shape(r) && LocksFree(r) && t < |r.pcs| && l < STRIPES
    requires forall x :: good(With(r, t, Resume(k, x)))
    ensures good(With(r.(blocks := r.blocks[l := Some(t)]), t, Unlock(l, k)))
  {
    var held, pc, f := r.(blocks := r.blocks[l := Some(t)]), Unlock(l, k), Focus(0, l, 0);
    var s := With(held, t, pc);
    assert Updated(held, f, Get(held, f).(block := None)) == r;
    forall b | Busy(t)(s, b) ensures good(b) {
      var x :| Step(s, t, x, b);
      StepFrom(held, t, x, pc, b);
    }
    var b0 := With(r, t, Resume(k, ANY));
    StepFrom(held, t, ANY, pc, b0);
    assert Busy(t)(s, b0);
  }

  lemma InsertOpens(c: Params, t: nat, e: Entry, w: Origin, v: View)
    requires v.block.None? && v.ctr.entries < MAX_ENTRIES
    ensures RunsTo(c, t, Insert(e, w, Join), v, Insert(e, w, Number), v.(block := Some(t)))
  {
    assert Runs(c, t, Insert(e, w, Join), v, 2).Some?;
  }

  function WithNumber(e: Entry, k: Counters): Entry { e.(num := k.seqNo + 1) }

  function Entered(k: Counters, z: nat): Counters {
    k.(seqNo := k.seqNo + 1, allocs := k.allocs + 1, current := k.current + z, total := k.total + z)
  }

  lemma InsertCounts(c: Params, t: nat, e: Entry, w: Origin, v: View)
    ensures RunsTo(c, t, Insert(e, w, Number), v, Insert(WithNumber(e, v.ctr), w, LoadCurrent), v.(ctr := Entered(v.ctr, e.size)))
  {
    assert Runs(c, t, Insert(e, w, Number), v, 4).Some?;
  }

  lemma InsertLoads(c: Params, t: nat, e: Entry, w: Origin, v: View)
    ensures RunsTo(c, t, Insert(e, w, LoadCurrent), v, Insert(e, w, Cas(v.ctr.current, v.ctr.peak)), v)
  {
    assert Runs(c, t, Insert(e, w, LoadCurrent), v, 2).Some?;
  }

  lemma InsertLinks(c: Params, t: nat, e: Entry, w: Origin, v: View)
    ensures RunsTo(c, t, Insert(e, w, Link), v, Unlock(Stripe(c, e.ptr), Done),
                   v.(chain := [e] + v.chain, ctr := v.ctr.(entries := v.ctr.entries + 1)))
  {
    assert Runs(c, t, Insert(e, w, Link), v, 2).Some?;
  }

  /** From the lock to the compare-and-swap. */
  lemma InsertRuns(c: Params, t: nat, e: Entry, w: Origin, v: View)
    requires v.block.None? && v.ctr.entries < MAX_ENTRIES
    ensures var k := Entered(v.ctr, e.size);
            RunsTo(c, t, Insert(e, w, Join), v, Insert(WithNumber(e, v.ctr), w, Cas(k.current, k.peak)), v.(block := Some(t), ctr := k))
  {
    var e', k := WithNumber(e, v.ctr), Entered(v.ctr, e.size);
    var v1 := v.(block := Some(t));
    var v2, cas := v1.(ctr := k), Insert(e', w, Cas(k.current, k.peak));
    InsertOpens(c, t, e, w, v);
    InsertCounts(c, t, e, w, v1);
    InsertLoads(c, t, e', w, v2);
    RunsOn(c, t, Insert(e, w, Number), v1, Insert(e', w, LoadCurrent), v2, cas, v2);
    RunsOn(c, t, Insert(e, w, Join), v, Insert(e, w, Number), v1, cas, v2);
  }

  function Raised(k: Counters): Counters { k.(peak := if k.current > k.peak then k.current else k.peak) }

  /** The compare-and-swap loop, which may fail without a reason and then tries again. */
  lemma CasReturns(r: State, t: nat, e: Entry, w: Origin, good: State -> bool)
    requires Closed(t, good)
    requires Shape(r) && t < |r.pcs| && good(With(r.(ctr := Raised(r.ctr)), t, Insert(e, w, Link)))
    ensures good(With(r, t, Insert(e, w, Cas(r.ctr.current, r.ctr.peak))))
  {
    var pc, f := Insert(e, w, Cas(r.ctr.current, r.ctr.peak)), At(r.c, e.ptr);
    var s, v, b0 := With(r, t, pc), Get(r, f), With(r.(ctr := Raised(r.ctr)), t, Insert(e, w, Link));
    UpdatedTwice(r, f, v, v);
    assert Updated(r, f, v.(ctr := Raised(r.ctr))) == r.(ctr := Raised(r.ctr));
    forall b | Busy(t)(s, b) ensures b == s || b == b0 {
      var x :| Step(s, t, x, b);
      StepFrom(r, t, x, pc, b);
    }
    StepFrom(r, t, ANY, pc, b0);
    assert Busy(t)(s, b0);
  }

  /** The states at the compare-and-swap, before and after it, and before the lock is released. */
  lemma InsertStates(r: State, t: nat, e: Entry)
    requires Shape(r) && LocksFree(r)
    ensures var f, e', k := At(r.c, e.ptr), WithNumber(e, r.ctr), Entered(r.ctr, e.size);
            var v := Get(r, f);
            var v1, vC := v.(block := Some(t), ctr := k), v.(block := Some(t), ctr := Raised(k));
            var v2 := vC.(chain := [e'] + v.chain, ctr := vC.ctr.(entries := vC.ctr.entries + 1));
            && Shape(Updated(r, f, v1)) && Shape(Updated(r, f, vC)) && Get(Updated(r, f, vC), f) == vC
            && Updated(r, f, vC) == Updated(r, f, v1).(ctr := Raised(k))
            && Updated(Updated(r, f, vC), f, v2) == Recorded(r, e).(blocks := r.blocks[Stripe(r.c, e.ptr) := Some(t)])
            && Shape(Recorded(r, e)) && LocksFree(Recorded(r, e)) && Recorded(r, e).blocks == r.blocks
  {}

  lemma InsertCall(r: State, t: nat, e: Entry, w: Origin, good: State -> bool)
    requires Closed(t, good)
    requires Shape(r) && LocksFree(r) && t < |r.pcs| && r.ctr.entries < MAX_ENTRIES
    requires good(With(Recorded(r, e), t, Idle))
    ensures good(With(r, t, Insert(e, w, Join)))
  {
    var l, f, e' := Stripe(r.c, e.ptr), At(r.c, e.ptr), WithNumber(e, r.ctr);
    var v, done := Get(r, f), Recorded(r, e);
    var k := Entered(v.ctr, e.size);
    var v1, vC := v.(block := Some(t), ctr := k), v.(block := Some(t), ctr := Raised(k));
    var v2 := vC.(chain := [e'] + v.chain, ctr := vC.ctr.(entries := vC.ctr.entries + 1));
    var r1, rC := Updated(r, f, v1), Updated(r, f, vC);
    InsertStates(r, t, e);
    Release(done, t, l, Done, good);
    InsertLinks(r.c, t, e', w, vC);
    Leap(rC, t, Insert(e', w, Link), Unlock(l, Done), v2, good);
    CasReturns(r1, t, e', w, good);
    InsertRuns(r.c, t, e, w, v);
    Leap(r, t, Insert(e, w, Join), Insert(e', w, Cas(k.current, k.peak)), v1, good);
  }

  // ---- removing -------------------------------------------------------------------------------------

  lemma RemoveFinds(c: Params, t: nat, p: Ptr, k: Then, v: View)
    requires v.block.None? && First(v.chain, p) < |v.chain|
    ensures RunsTo(c, t, Seek(p, k, false), v, Remove(v.chain[First(v.chain, p)], k, Test), v.(block := Some(t)))
  {
    assert Runs(c, t, Seek(p, k, false), v, 2).Some?;
  }

  function Credited(k: Counters, z: nat): Counters { k.(current := k.current - z, frees := k.frees + 1) }

  lemma RemoveCounts(c: Params, t: nat, e: Entry, k: Then, v: View)
    requires e.size <= v.ctr.current
    ensures RunsTo(c, t, Remove(e, k, Test), v, Remove(e, k, Removing.Unlink), v.(ctr := Credited(v.ctr, e.size)))
  {
    assert Runs(c, t, Remove(e, k, Test), v, 3).Some?;
  }

  lemma RemoveUnlinks(c: Params, t: nat, e: Entry, k: Then, v: View)
    requires First(v.chain, e.ptr) < |v.chain| && e == v.chain[First(v.chain, e.ptr)]
    ensures RunsTo(c, t, Remove(e, k, Removing.Unlink), v, Dispose(c, e.slot, Unlocked(Stripe(c, e.ptr), k)),
                   v.(chain := Without(v.chain, First(v.chain, e.ptr)), ctr := v.ctr.(entries := v.ctr.entries - 1)))
  {
    assert Runs(c, t, Remove(e, k, Removing.Unlink), v, 2).Some?;
  }

  lemma RemoveRuns(c: Params, t: nat, p: Ptr, k: Then, v: View)
    requires v.block.None? && First(v.chain, p) < |v.chain| && v.chain[First(v.chain, p)].size <= v.ctr.current
    ensures var i := First(v.chain, p);
            var e := v.chain[i];
            var k' := Credited(v.ctr, e.size);
            RunsTo(c, t, Seek(p, k, false), v, Dispose(c, e.slot, Unlocked(Stripe(c, p), k)),
                   v.(chain := Without(v.chain, i), block := Some(t), ctr := k'.(entries := k'.entries - 1)))
  {
    var e := v.chain[First(v.chain, p)];
    var v1 := v.(block := Some(t));
    var v2 := v1.(ctr := Credited(v.ctr, e.size));
    var v3 := v2.(chain := Without(v.chain, First(v.chain, p)), ctr := v2.ctr.(entries := v2.ctr.entries - 1));
    var done := Dispose(c, e.slot, Unlocked(Stripe(c, p), k));
    RemoveFinds(c, t, p, k, v);
    RemoveCounts(c, t, e, k, v1);
    RemoveUnlinks(c, t, e, k, v2);
    RunsOn(c, t, Remove(e, k, Test), v1, Remove(e, k, Removing.Unlink), v2, done, v3);
    RunsOn(c, t, Seek(p, k, false), v, Remove(e, k, Test), v1, done, v3);
  }

  /** A slot goes back to the pool, if there is one. */
  ghost function Given(r: State, slot: nat): State
    requires Shape(r)
  {
    var j := HomeStripe(r.c, slot);
    if r.c.pooled then r.(frees := r.frees[j := [slot] + r.frees[j]], ctr := r.ctr.(used := r.ctr.used - 1)) else r
  }

  lemma GiveRuns(r: State, t: nat, slot: nat, a: After)
    requires Shape(r) && r.c.pooled && r.plocks[HomeStripe(r.c, slot)] == None
    ensures var f := Focus(0, 0, HomeStripe(r.c, slot));
            var v := Get(r, f);
            var v' := v.(free := [slot] + v.free, ctr := v.ctr.(used := v.ctr.used - 1));
            RunsTo(r.c, t, Give(slot, a, Want), v, AfterGive(a), v') && Updated(r, f, v') == Given(r, slot)
  {
    assert Runs(r.c, t, Give(slot, a, Want), Get(r, Focus(0, 0, HomeStripe(r.c, slot))), 4).Some?;
  }

  lemma GiveCall(r: State, t: nat, slot: nat, a: After, good: State -> bool)
    requires Closed(t, good)
    requires Shape(r) && t < |r.pcs| && r.plocks[HomeStripe(r.c, slot)] == None
    requires good(With(Given(r, slot), t, AfterGive(a)))
    ensures good(With(r, t, Dispose(r.c, slot, a)))
  {
    if r.c.pooled {
      var f := Focus(0, 0, HomeStripe(r.c, slot));
      var v := Get(r, f);
      var v' := v.(free := [slot] + v.free, ctr := v.ctr.(used := v.ctr.used - 1));
      GiveRuns(r, t, slot, a);
      Leap(r, t, Give(slot, a, Want), AfterGive(a), v', good);
    }
  }

  ghost predicate Holds(r: State, p: Ptr)
    requires Shape(r)
  {
    First(r.chains[r.c.bucketOf(p)], p) < |r.chains[r.c.bucketOf(p)]|
  }

  ghost function Newest(r: State, p: Ptr): Entry
    requires Shape(r) && Holds(r, p)
  {
    r.chains[r.c.bucketOf(p)][First(r.chains[r.c.bucketOf(p)], p)]
  }

  /** The newest record of `p` has been unlinked by thread `t`, which still holds its bucket lock and has
      not given its slot back. */
  ghost function Unlinked(r: State, t: nat, p: Ptr): State
    requires Shape(r) && Holds(r, p)
  {
    var f, e := At(r.c, p), Newest(r, p);
    var v := Get(r, f);
    var k := Credited(v.ctr, e.size);
    Updated(r, f, v.(chain := Without(v.chain, First(v.chain, p)), block := Some(t), ctr := k.(entries := k.entries - 1)))
  }

  lemma GivenIsFreed(r: State, t: nat, p: Ptr)
    requires Shape(r) && LocksFree(r) && Holds(r, p)
    ensures Shape(Unlinked(r, t, p)) && Shape(Freed(r, p)) && LocksFree(Freed(r, p))
    ensures Unlinked(r, t, p).plocks == r.plocks
    ensures Given(Unlinked(r, t, p), Newest(r, p).slot) == Freed(r, p).(blocks := r.blocks[Stripe(r.c, p) := Some(t)])
  {}

  lemma RemoveEnds(r: State, t: nat, p: Ptr, k: Then, good: State -> bool)
    requires Closed(t, good)
    requires Shape(r) && LocksFree(r) && t < |r.pcs| && Holds(r, p)
    requires forall x :: good(With(Freed(r, p), t, Resume(k, x)))
    ensures good(With(Unlinked(r, t, p), t, Dispose(r.c, Newest(r, p).slot, Unlocked(Stripe(r.c, p), k))))
  {
    var l, r1, r2 := Stripe(r.c, p), Unlinked(r, t, p), Freed(r, p);
    GivenIsFreed(r, t, p);
    Release(r2, t, l, k, good);
    GiveCall(r1, t, Newest(r, p).slot, Unlocked(l, k), good);
  }

  /** From the search under the bucket lock to the release of that lock. */
  lemma RemoveCall(r: State, t: nat, p: Ptr, k: Then, good: State -> bool)
    requires Closed(t, good)
    requires Shape(r) && LocksFree(r) && t < |r.pcs|
    requires Holds(r, p) && Newest(r, p).size <= r.ctr.current
    requires forall x :: good(With(Freed(r, p), t, Resume(k, x)))
    ensures good(With(r, t, Seek(p, k, false)))
  {
    var e, v := Newest(r, p), Get(r, At(r.c, p));
    var k' := Credited(v.ctr, e.size);
    var v' := v.(chain := Without(v.chain, First(v.chain, p)), block := Some(t), ctr := k'.(entries := k'.entries - 1));
    RemoveEnds(r, t, p, k, good);
    RemoveRuns(r.c, t, p, k, v);
    Leap(r, t, Seek(p, k, false), Dispose(r.c, e.slot, Unlocked(Stripe(r.c, p), k)), v', good);
  }

  /** A walk under the bucket lock that finds what it finds and changes nothing. */
  lemma LookCall(r: State, t: nat, p: Ptr, pc: Pc, k: Then, good: State -> bool)
    requires Closed(t, good)
    requires Shape(r) && LocksFree(r) && t < |r.pcs| && FocusOf(r.c, pc) == At(r.c, p)
    requires RunsTo(r.c, t, pc, Get(r, At(r.c, p)), Unlock(Stripe(r.c, p), k), Get(r, At(r.c, p)).(block := Some(t)))
    requires forall x :: good(With(r, t, Resume(k, x)))
    ensures good(With(r, t, pc))
  {
    var l, f := Stripe(r.c, p), At(r.c, p);
    var v' := Get(r, f).(block := Some(t));
    Release(r, t, l, k, good);
    assert Updated(r, f, v') == r.(blocks := r.blocks[l := Some(t)]);
    Leap(r, t, pc, Unlock(l, k), v', good);
  }

  lemma MissCall(r: State, t: nat, p: Ptr, k: Then, good: State -> bool)
    requires Closed(t, good)
    requires Shape(r) && LocksFree(r) && t < |r.pcs| && !Holds(r, p)
    requires forall x :: good(With(r, t, Resume(k, x)))
    ensures good(With(r, t, Seek(p, k, false)))
  {
    assert Runs(r.c, t, Seek(p, k, false), Get(r, At(r.c, p)), 2).Some?;
    LookCall(r, t, p, Seek(p, k, false), k, good);
  }

  /** The search with or without a record to remove. */
  lemma SeekCall(r: State, t: nat, p: Ptr, k: Then, good: State -> bool)
    requires Closed(t, good)
    requires Shape(r) && LocksFree(r) && t < |r.pcs| && (Holds(r, p) ==> Newest(r, p).size <= r.ctr.current)
    requires forall x :: good(With(FreedIfHeld(r, p), t, Resume(k, x)))
    ensures good(With(r, t, Seek(p, k, false)))
  {
    if Holds(r, p) { RemoveCall(r, t, p, k, good); } else { MissCall(r, t, p, k, good); }
  }

  ghost function FreedIfHeld(s: State, p: Ptr): State
    requires Shape(s)
  {
    if Holds(s, p) then Freed(s, p) else s
  }

  // ---- making a record ------------------------------------------------------------------------------

  ghost function PoolHeld(r: State, t: nat, j: nat): State
    requires Shape(r) && j < STRIPES
  {
    r.(plocks := r.plocks[j := Some(t)])
  }

  /** Taking the lock of the i-th probe's stripe, from the start or from a probe. */
  lemma LockStripe(r: State, t: nat, p: Ptr, z: nat, w: Origin, m: Making, i: nat, good: State -> bool)
    requires Closed(t, good)
    requires Shape(r) && LocksFree(r) && t < |r.pcs| && r.c.pooled && ((m == Start && i == 0) || m == Probe(i))
    requires good(Popping(r, t, p, z, w, i))
    ensures good(With(r, t, Make(p, z, w, m)))
  {
    var j := ProbeStripe(r.c, p, i);
    var f := Focus(0, 0, j);
    var v' := Get(r, f).(plock := Some(t));
    assert Runs(r.c, t, Make(p, z, w, m), Get(r, f), 1).Some?;
    assert RunsTo(r.c, t, Make(p, z, w, m), Get(r, f), Make(p, z, w, Pop(i)), v');
    assert Updated(r, f, v') == PoolHeld(r, t, j);
    Leap(r, t, Make(p, z, w, m), Make(p, z, w, Pop(i)), v', good);
  }

  lemma PassRuns(r: State, t: nat, p: Ptr, z: nat, w: Origin, i: nat)
    requires Shape(r) && LocksFree(r) && r.frees[ProbeStripe(r.c, p, i)] == []
    ensures var j := ProbeStripe(r.c, p, i);
            var f, held := Focus(0, 0, j), PoolHeld(r, t, j);
            var v' := Get(held, f).(plock := None);
            RunsTo(r.c, t, Make(p, z, w, Pop(i)), Get(held, f), NextProbe(p, z, w, i), v') && Updated(held, f, v') == r
  {
    var j := ProbeStripe(r.c, p, i);
    assert Runs(r.c, t, Make(p, z, w, Pop(i)), Get(PoolHeld(r, t, j), Focus(0, 0, j)), 2).Some?;
  }

  lemma PopRuns(r: State, t: nat, p: Ptr, z: nat, w: Origin, i: nat)
    requires Shape(r) && LocksFree(r) && r.frees[ProbeStripe(r.c, p, i)] != []
    ensures var j := ProbeStripe(r.c, p, i);
            var f, held := Focus(0, 0, j), PoolHeld(r, t, j);
            var v := Get(held, f);
            var v' := v.(free := v.free[1..], plock := None, ctr := v.ctr.(used := v.ctr.used + 1));
            RunsTo(r.c, t, Make(p, z, w, Pop(i)), v, Make(p, z, w, Fill(r.frees[j][0])), v') && Updated(held, f, v') == Popped(r, j)
  {
    var j := ProbeStripe(r.c, p, i);
    assert Runs(r.c, t, Make(p, z, w, Pop(i)), Get(PoolHeld(r, t, j), Focus(0, 0, j)), 3).Some?;
  }

  lemma PassStripe(r: State, t: nat, p: Ptr, z: nat, w: Origin, i: nat, good: State -> bool)
    requires Closed(t, good)
    requires Shape(r) && LocksFree(r) && t < |r.pcs| && r.frees[ProbeStripe(r.c, p, i)] == []
    requires good(With(r, t, NextProbe(p, z, w, i)))
    ensures good(Popping(r, t, p, z, w, i))
  {
    var j := ProbeStripe(r.c, p, i);
    var f, held := Focus(0, 0, j), PoolHeld(r, t, j);
    var v' := Get(held, f).(plock := None);
    PassRuns(r, t, p, z, w, i);
    Leap(held, t, Make(p, z, w, Pop(i)), NextProbe(p, z, w, i), v', good);
  }

  lemma PopStripe(r: State, t: nat, p: Ptr, z: nat, w: Origin, i: nat, good: State -> bool)
    requires Closed(t, good)
    requires Shape(r) && LocksFree(r) && t < |r.pcs| && r.frees[ProbeStripe(r.c, p, i)] != []
    requires var j := ProbeStripe(r.c, p, i); good(With(Popped(r, j), t, Make(p, z, w, Fill(r.frees[j][0]))))
    ensures good(Popping(r, t, p, z, w, i))
  {
    var j := ProbeStripe(r.c, p, i);
    var f, held := Focus(0, 0, j), PoolHeld(r, t, j);
    var v, fill := Get(held, f), Make(p, z, w, Fill(r.frees[j][0]));
    var v' := v.(free := v.free[1..], plock := None, ctr := v.ctr.(used := v.ctr.used + 1));
    PopRuns(r, t, p, z, w, i);
    Leap(held, t, Make(p, z, w, Pop(i)), fill, v', good);
  }

  /** Where the probe from stripe i on ends. */
  ghost function Probed(r: State, t: nat, p: Ptr, z: nat, w: Origin, i: nat): State
    requires Shape(r) && t < |r.pcs| && i <= STRIPES
  {
    var k := FirstFull(r, p, i);
    if k == STRIPES then With(r, t, Idle)
    else With(Popped(r, ProbeStripe(r.c, p, k)), t, Make(p, z, w, Fill(r.frees[ProbeStripe(r.c, p, k)][0])))
  }

  /** At the i-th stripe of the probe, its lock taken. */
  ghost function Popping(r: State, t: nat, p: Ptr, z: nat, w: Origin, i: nat): State
    requires Shape(r) && t < |r.pcs|
  {
    With(PoolHeld(r, t, ProbeStripe(r.c, p, i)), t, Make(p, z, w, Pop(i)))
  }

  /** An empty stripe, and on to the next one. */
  lemma NextStripe(r: State, t: nat, p: Ptr, z: nat, w: Origin, i: nat, good: State -> bool)
    requires Closed(t, good)
    requires Shape(r) && LocksFree(r) && t < |r.pcs| && r.c.pooled && i + 1 < STRIPES && r.frees[ProbeStripe(r.c, p, i)] == []
    requires good(Popping(r, t, p, z, w, i + 1))
    ensures good(Popping(r, t, p, z, w, i))
  {
    LockStripe(r, t, p, z, w, Probe(i + 1), i + 1, good);
    PassStripe(r, t, p, z, w, i, good);
  }

  lemma ProbeEnds(r: State, t: nat, p: Ptr, z: nat, w: Origin, i: nat, good: State -> bool)
    requires Closed(t, good)
    requires Shape(r) && LocksFree(r) && t < |r.pcs| && i < STRIPES
    requires r.frees[ProbeStripe(r.c, p, i)] != [] || i + 1 == STRIPES
    requires good(Probed(r, t, p, z, w, i))
    ensures good(Popping(r, t, p, z, w, i))
  {
    if r.frees[ProbeStripe(r.c, p, i)] != [] { PopStripe(r, t, p, z, w, i, good); } else { PassStripe(r, t, p, z, w, i, good); }
  }

  lemma ProbedNext(r: State, t: nat, p: Ptr, z: nat, w: Origin, i: nat)
    requires Shape(r) && t < |r.pcs| && i < STRIPES && r.frees[ProbeStripe(r.c, p, i)] == []
    ensures Probed(r, t, p, z, w, i) == Probed(r, t, p, z, w, i + 1)
  {}

  /** The probe from stripe i on. */
  lemma {:induction false} ProbeCall(r: State, t: nat, p: Ptr, z: nat, w: Origin, i: nat, good: State -> bool)
    requires Closed(t, good)
    requires Shape(r) && LocksFree(r) && t < |r.pcs| && r.c.pooled && i < STRIPES
    requires good(Probed(r, t, p, z, w, i))
    ensures good(Popping(r, t, p, z, w, i))
    decreases STRIPES - i
  {
    if r.frees[ProbeStripe(r.c, p, i)] != [] || i + 1 == STRIPES {
      ProbeEnds(r, t, p, z, w, i, good);
    } else {
      ProbedNext(r, t, p, z, w, i);
      ProbeCall(r, t, p, z, w, i + 1, good);
      NextStripe(r, t, p, z, w, i, good);
    }
  }

  /** A record is made, if memory for one can be had: where the thread is then, and what the pool is. */
  ghost function Made(r: State, t: nat, p: Ptr, z: nat, w: Origin, x: Choice): State
    requires Shape(r) && t < |r.pcs|
  {
    var k := FirstFull(r, p, 0);
    if !r.c.pooled then With(r, t, if x.ok then Placed(Filled(0, p, z, x), w) else Idle)
    else if k == STRIPES then With(r, t, Idle)
    else
      var j := ProbeStripe(r.c, p, k);
      With(Popped(r, j), t, Placed(Filled(r.frees[j][0], p, z, x), w))
  }

  lemma MakeCall(r: State, t: nat, p: Ptr, z: nat, w: Origin, good: State -> bool)
    requires Closed(t, good)
    requires Shape(r) && LocksFree(r) && t < |r.pcs|
    requires forall x :: good(Made(r, t, p, z, w, x))
    ensures good(With(r, t, Make(p, z, w, Start)))
  {
    if !r.c.pooled {
      forall x: Choice ensures good(With(r, t, if x.ok then Placed(Filled(0, p, z, x), w) else Idle)) {
        assert good(Made(r, t, p, z, w, x));
      }
      Turn(r, t, Make(p, z, w, Start), good);
    } else {
      FillCall(r, t, p, z, w, good);
      ProbeCall(r, t, p, z, w, 0, good);
      LockStripe(r, t, p, z, w, Start, 0, good);
    }
  }

  /** Filling in what the probe has found. */
  lemma FillCall(r: State, t: nat, p: Ptr, z: nat, w: Origin, good: State -> bool)
    requires Closed(t, good)
    requires Shape(r) && t < |r.pcs| && r.c.pooled
    requires forall x :: good(Made(r, t, p, z, w, x))
    ensures good(Probed(r, t, p, z, w, 0))
  {
    var k := FirstFull(r, p, 0);
    assert good(Made(r, t, p, z, w, ANY));
    if k < STRIPES {
      var j := ProbeStripe(r.c, p, k);
      forall x ensures good(With(Popped(r, j), t, Placed(Filled(r.frees[j][0], p, z, x), w))) {
        assert good(Made(r, t, p, z, w, x));
      }
      Turn(Popped(r, j), t, Make(p, z, w, Fill(r.frees[j][0])), good);
    }
  }

  lemma RecordCall(r: State, t: nat, p: Ptr, z: nat, w: Origin, x: Choice, good: State -> bool)
    requires Closed(t, good)
    requires Shape(r) && LocksFree(r) && t < |r.pcs| && !w.FromCopy? && r.ctr.entries < MAX_ENTRIES
    requires good(With(Malloced(r, p, z, x), t, Idle))
    ensures good(Made(r, t, p, z, w, x))
  {
    var k := FirstFull(r, p, 0);
    if r.c.pooled && k < STRIPES {
      var j := ProbeStripe(r.c, p, k);
      InsertCall(Popped(r, j), t, Filled(r.frees[j][0], p, z, x), w, good);
    } else if !r.c.pooled && x.ok {
      InsertCall(r, t, Filled(0, p, z, x), w, good);
    }
  }

  lemma SkipCall(r: State, t: nat, good: State -> bool)
    requires Closed(t, good)
    requires Shape(r) && t < |r.pcs| && good(With(Skipped(r), t, Idle))
    ensures good(With(r, t, Skip))
  {
    var f := Focus(0, 0, 0);
    var v := Get(r, f);
    var v' := v.(ctr := v.ctr.(skipped := v.ctr.skipped + 1));
    assert Updated(r, f, v') == Skipped(r);
    assert Runs(r.c, t, Skip, v, 1).Some?;
    assert RunsTo(r.c, t, Skip, v, Idle, v');
    Leap(r, t, Skip, Idle, v', good);
  }

  /** From the capacity check on: malloc, and realloc once the old record is gone. */
  lemma AskCall(r: State, t: nat, p: Ptr, z: nat, w: Origin, good: State -> bool)
    requires Closed(t, good)
    requires Shape(r) && LocksFree(r) && t < |r.pcs| && !w.FromCopy?
    requires forall x :: good(With(Malloced(r, p, z, x), t, Idle))
    ensures good(With(r, t, Ask(p, z, w)))
  {
    assert good(With(Malloced(r, p, z, ANY), t, Idle));
    if r.ctr.entries >= MAX_ENTRIES {
      SkipCall(r, t, good);
    } else {
      forall x ensures good(Made(r, t, p, z, w, x)) { RecordCall(r, t, p, z, w, x, good); }
      MakeCall(r, t, p, z, w, good);
    }
    Turn(r, t, Ask(p, z, w), good);
  }

  // ---- realloc where the program has no raw realloc -------------------------------------------------

  lemma RefuseRuns(r: State, t: nat, e: Entry)
    requires Shape(r) && LocksFree(r) && r.ctr.entries >= MAX_ENTRIES
    ensures var f, v := At(r.c, e.ptr), Get(r, At(r.c, e.ptr));
            var v' := v.(ctr := v.ctr.(skipped := v.ctr.skipped + 1));
            && RunsTo(r.c, t, Insert(e, FromMalloc, Join), v, Dispose(r.c, e.slot, Finish), v')
            && Updated(r, f, v') == Skipped(r)
  {
    assert Runs(r.c, t, Insert(e, FromMalloc, Join), Get(r, At(r.c, e.ptr)), 4).Some?;
  }

  /** A record refused under the lock: its slot goes back. */
  lemma RefuseCall(r: State, t: nat, e: Entry, good: State -> bool)
    requires Closed(t, good)
    requires Shape(r) && LocksFree(r) && t < |r.pcs| && r.ctr.entries >= MAX_ENTRIES
    requires good(With(Given(Skipped(r), e.slot), t, Idle))
    ensures good(With(r, t, Insert(e, FromMalloc, Join)))
  {
    var f, pc := At(r.c, e.ptr), Insert(e, FromMalloc, Join);
    var v, out := Get(r, f), Dispose(r.c, e.slot, Finish);
    var v' := v.(ctr := v.ctr.(skipped := v.ctr.skipped + 1));
    GiveCall(Skipped(r), t, e.slot, Finish, good);
    RefuseRuns(r, t, e);
    Leap(r, t, pc, out, v', good);
  }

  /** The same for the record of a realloc, which gives its slot back before it releases the lock. */
  lemma RefuseLocked(r: State, t: nat, e: Entry, good: State -> bool)
    requires Closed(t, good)
    requires Shape(r) && LocksFree(r) && t < |r.pcs| && r.ctr.entries >= MAX_ENTRIES
    requires good(With(Given(Skipped(r), e.slot), t, Idle))
    ensures good(With(r, t, Insert(e, FromRealloc, Join)))
  {
    var l, f, pc := Stripe(r.c, e.ptr), At(r.c, e.ptr), Insert(e, FromRealloc, Join);
    var v, out, done := Get(r, f), Dispose(r.c, e.slot, Unlocked(l, Done)), Given(Skipped(r), e.slot);
    var v' := v.(block := Some(t), ctr := v.ctr.(skipped := v.ctr.skipped + 1));
    var held := Updated(r, f, v');
    Release(done, t, l, Done, good);
    assert held == Skipped(r).(blocks := r.blocks[l := Some(t)]);
    assert Given(held, e.slot) == done.(blocks := r.blocks[l := Some(t)]);
    GiveCall(held, t, e.slot, Unlocked(l, Done), good);
    assert Runs(r.c, t, pc, v, 3).Some?;
    assert RunsTo(r.c, t, pc, v, out, v');
    Leap(r, t, pc, out, v', good);
  }

  /** The end of a copying realloc: the new record `e` replaces that of `p`, or is refused. */
  ghost function Replaced(r: State, p: Ptr, e: Entry): State
    requires Shape(r)
  {
    var r' := FreedIfHeld(r, p);
    if r'.ctr.entries >= MAX_ENTRIES then Given(Skipped(r'), e.slot) else Recorded(r', e)
  }

  lemma ReplaceCall(r: State, t: nat, p: Ptr, e: Entry, good: State -> bool)
    requires Closed(t, good)
    requires Shape(r) && LocksFree(r) && t < |r.pcs| && (Holds(r, p) ==> Newest(r, p).size <= r.ctr.current)
    requires good(With(Replaced(r, p, e), t, Idle))
    ensures good(With(r, t, Seek(p, Install(e), false)))
  {
    var r' := FreedIfHeld(r, p);
    if r'.ctr.entries >= MAX_ENTRIES { RefuseCall(r', t, e, good); } else { InsertCall(r', t, e, FromMalloc, good); }
    SeekCall(r, t, p, Install(e), good);
  }

  /** The new record is made first; without one nothing happens. */
  ghost function Copied(s: State, p: Ptr, p': Ptr, z: nat, x: Choice): State
    requires Shape(s)
  {
    var k := FirstFull(s, p', 0);
    if !s.c.pooled then if x.ok then Replaced(s, p, Filled(0, p', z, x)) else s
    else if k == STRIPES then s
    else
      var j := ProbeStripe(s.c, p', k);
      Replaced(Popped(s, j), p, Filled(s.frees[j][0], p', z, x))
  }

  lemma CopyCall(s: State, t: nat, p: Ptr, p': Ptr, z: nat, x: Choice, good: State -> bool)
    requires Closed(t, good)
    requires Shape(s) && LocksFree(s) && t < |s.pcs| && (Holds(s, p) ==> Newest(s, p).size <= s.ctr.current)
    requires good(With(Copied(s, p, p', z, x), t, Idle))
    ensures good(Made(s, t, p', z, FromCopy(p), x))
  {
    var k := FirstFull(s, p', 0);
    if s.c.pooled && k < STRIPES {
      var j := ProbeStripe(s.c, p', k);
      ReplaceCall(Popped(s, j), t, p, Filled(s.frees[j][0], p', z, x), good);
    } else if !s.c.pooled && x.ok {
      ReplaceCall(s, t, p, Filled(0, p', z, x), good);
    }
  }

  // ---- whole calls ----------------------------------------------------------------------------------

  lemma RestUnlocked(s: State)
    requires Inv(s) && AtRest(s)
    ensures LocksFree(s)
  {
    forall l: nat, u: nat | l < STRIPES && u < |s.pcs| ensures s.blocks[l] != Some(u) && s.plocks[l] != Some(u) {
      assert !HoldsBlock(s.c, s.pcs[u], l) && !HoldsPool(s.c, s.pcs[u], l);
    }
    assert forall l: nat :: l < STRIPES ==> s.blocks[l].None? && s.plocks[l].None?;
  }

  /** At rest every linked record is paid for. */
  lemma RestCovers(s: State, p: Ptr)
    requires Inv(s) && AtRest(s) && Holds(s, p)
    ensures Newest(s, p).size <= s.ctr.current
  {
    var b := s.c.bucketOf(p);
    AtRestExact(s);
    SizeInChain(s.chains[b], First(s.chains[b], p));
    SumAtLeast(Worth(s), b);
  }

  /** What a call relies on: no lock is taken, and the newest record of `p` is paid for. */
  ghost predicate Ready(s: State, p: Ptr) {
    Shape(s) && LocksFree(s) && AtRest(s) && (Holds(s, p) ==> Newest(s, p).size <= s.ctr.current)
  }

  lemma RestReady(s: State, p: Ptr)
    requires Inv(s) && AtRest(s)
    ensures Ready(s, p)
  {
    RestUnlocked(s);
    if Holds(s, p) { RestCovers(s, p); }
  }

  lemma RestAsIs(s: State, t: nat)
    requires AtRest(s) && t < |s.pcs|
    ensures With(s, t, Idle) == s
  {}

  /** What the raw realloc answers is in `x`, what the new record gets is in `y`. */
  ghost function Realloced(s: State, p: Ptr, z: nat, x: Choice, y: Choice): State
    requires Shape(s)
  {
    if Holds(s, p) && x.ok then Malloced(Freed(s, p), x.ptr, z, y) else s
  }

  lemma RenewCall(s: State, t: nat, p: Ptr, z: nat, x: Choice, good: State -> bool)
    requires Closed(t, good)
    requires Shape(s) && LocksFree(s) && t < |s.pcs| && (Holds(s, p) ==> Newest(s, p).size <= s.ctr.current)
    requires forall y :: good(With(Realloced(s, p, z, x, y), t, Idle))
    ensures good(With(s, t, Resume(Resize(p, z, Holds(s, p)), x)))
  {
    assert good(With(Realloced(s, p, z, x, ANY), t, Idle));
    if Holds(s, p) && x.ok {
      var r := Freed(s, p);
      forall y ensures good(With(Malloced(r, x.ptr, z, y), t, Idle)) {
        assert good(With(Realloced(s, p, z, x, y), t, Idle));
      }
      AskCall(r, t, x.ptr, z, FromRealloc, good);
      SeekCall(s, t, p, Renew(x.ptr, z), good);
    }
  }

  lemma PeekCall(s: State, t: nat, p: Ptr, z: nat, good: State -> bool)
    requires Closed(t, good)
    requires Shape(s) && LocksFree(s) && t < |s.pcs| && (Holds(s, p) ==> Newest(s, p).size <= s.ctr.current)
    requires forall x, y :: good(With(Realloced(s, p, z, x, y), t, Idle))
    ensures good(With(s, t, Peek(p, z, false)))
  {
    forall x ensures good(With(s, t, Resume(Resize(p, z, Holds(s, p)), x))) { RenewCall(s, t, p, z, x, good); }
    assert Runs(s.c, t, Peek(p, z, false), Get(s, At(s.c, p)), 2).Some?;
    LookCall(s, t, p, Peek(p, z, false), Resize(p, z, Holds(s, p)), good);
  }

  lemma CopyMakes(s: State, t: nat, p: Ptr, p': Ptr, z: nat, good: State -> bool)
    requires Closed(t, good)
    requires Shape(s) && LocksFree(s) && t < |s.pcs| && (Holds(s, p) ==> Newest(s, p).size <= s.ctr.current)
    requires forall x :: good(With(Copied(s, p, p', z, x), t, Idle))
    ensures good(With(s, t, Make(p', z, FromCopy(p), Start)))
  {
    forall x ensures good(Made(s, t, p', z, FromCopy(p), x)) {
      assert good(With(Copied(s, p, p', z, x), t, Idle));
      CopyCall(s, t, p, p', z, x, good);
    }
    MakeCall(s, t, p', z, FromCopy(p), good);
  }

  /** An undisturbed malloc of `z` bytes that got pointer `p`: one new record, or a skip if the table is
      full, or nothing if no record can be had. */
  lemma MallocCall(s: State, t: nat, p: Ptr, z: nat)
    requires Inv(s) && AtRest(s) && t < |s.pcs| && z > 0
    ensures Returns(t, With(s, t, Begin(CallMalloc(p, z))), w => exists x :: w == Malloced(s, p, z, x))
  {
    var q := (w: State) => exists x :: w == Malloced(s, p, z, x);
    RestReady(s, p);
    ComingClosed(Busy(t), Back(t), q);
    forall x ensures Returning(t, q)(With(Malloced(s, p, z, x), t, Idle)) {
      RestAsIs(Malloced(s, p, z, x), t);
      Returned(Malloced(s, p, z, x), t, q);
    }
    AskCall(s, t, p, z, FromMalloc, Returning(t, q));
  }

  /** An undisturbed free of `p`: the newest record goes, and nothing happens without one. */
  lemma FreeCall(s: State, t: nat, p: Ptr)
    requires Inv(s) && AtRest(s) && t < |s.pcs|
    ensures Returns(t, With(s, t, Begin(CallFree(p))), w => w == FreedIfHeld(s, p))
  {
    var q := (w: State) => w == FreedIfHeld(s, p);
    RestReady(s, p);
    ComingClosed(Busy(t), Back(t), q);
    RestAsIs(FreedIfHeld(s, p), t);
    Returned(FreedIfHeld(s, p), t, q);
    SeekCall(s, t, p, Done, Returning(t, q));
  }

  ghost function ReallocOutcomes(s: State, p: Ptr, z: nat): State -> bool
    requires Shape(s)
  {
    (w: State) => exists x, y :: w == Realloced(s, p, z, x, y)
  }

  lemma ReallocEnds(s: State, t: nat, p: Ptr, z: nat)
    requires Shape(s) && AtRest(s) && t < |s.pcs|
    ensures forall x, y :: Returning(t, ReallocOutcomes(s, p, z))(With(Realloced(s, p, z, x, y), t, Idle))
  {
    forall x, y ensures Returning(t, ReallocOutcomes(s, p, z))(With(Realloced(s, p, z, x, y), t, Idle)) {
      RestAsIs(Realloced(s, p, z, x, y), t);
      Returned(Realloced(s, p, z, x, y), t, ReallocOutcomes(s, p, z));
    }
  }

  lemma ReallocReturns(s: State, t: nat, p: Ptr, z: nat)
    requires Ready(s, p) && t < |s.pcs| && z > 0
    ensures Returns(t, With(s, t, Begin(CallRealloc(p, z))), ReallocOutcomes(s, p, z))
  {
    var q := ReallocOutcomes(s, p, z);
    ComingClosed(Busy(t), Back(t), q);
    ReallocEnds(s, t, p, z);
    PeekCall(s, t, p, z, Returning(t, q));
  }

  /** An undisturbed realloc of `p`: the old record is replaced by one for the pointer that the raw realloc
      gave; an untracked pointer stays untracked, and if the raw realloc fails nothing happens. */
  lemma ReallocCall(s: State, t: nat, p: Ptr, z: nat)
    requires Inv(s) && AtRest(s) && t < |s.pcs| && z > 0
    ensures Returns(t, With(s, t, Begin(CallRealloc(p, z))), ReallocOutcomes(s, p, z))
  {
    RestReady(s, p);
    ReallocReturns(s, t, p, z);
  }

  ghost function CopyOutcomes(s: State, p: Ptr, p': Ptr, z: nat): State -> bool
    requires Shape(s)
  {
    (w: State) => exists x :: w == Copied(s, p, p', z, x)
  }

  lemma CopyEnds(s: State, t: nat, p: Ptr, p': Ptr, z: nat)
    requires Shape(s) && AtRest(s) && t < |s.pcs|
    ensures forall x :: Returning(t, CopyOutcomes(s, p, p', z))(With(Copied(s, p, p', z, x), t, Idle))
  {
    forall x ensures Returning(t, CopyOutcomes(s, p, p', z))(With(Copied(s, p, p', z, x), t, Idle)) {
      RestAsIs(Copied(s, p, p', z, x), t);
      Returned(Copied(s, p, p', z, x), t, CopyOutcomes(s, p, p', z));
    }
  }

  lemma CopyReturns(s: State, t: nat, p: Ptr, p': Ptr, z: nat)
    requires Ready(s, p) && t < |s.pcs| && z > 0
    ensures Returns(t, With(s, t, Begin(CallCopyRealloc(p, p', z))), CopyOutcomes(s, p, p', z))
  {
    var q := CopyOutcomes(s, p, p', z);
    ComingClosed(Busy(t), Back(t), q);
    CopyEnds(s, t, p, p', z);
    CopyMakes(s, t, p, p', z, Returning(t, q));
  }

  /** An undisturbed realloc without a raw realloc, to the new block `p'`: the new record is made first,
      and if it is refused under the lock its slot goes back. */
  lemma CopyReallocCall(s: State, t: nat, p: Ptr, p': Ptr, z: nat)
    requires Inv(s) && AtRest(s) && t < |s.pcs| && z > 0
    ensures Returns(t, With(s, t, Begin(CallCopyRealloc(p, p', z))), CopyOutcomes(s, p, p', z))
  {
    RestReady(s, p);
    CopyReturns(s, t, p, p', z);
  }

  /** Requests of no bytes: a malloc tracks nothing, a realloc frees. */
  lemma EmptyCalls(s: State, t: nat, p: Ptr, p': Ptr)
    requires Inv(s) && AtRest(s) && t < |s.pcs|
    ensures Returns(t, With(s, t, Begin(CallMalloc(p, 0))), w => w == s)
    ensures Returns(t, With(s, t, Begin(CallRealloc(p, 0))), w => w == FreedIfHeld(s, p))
    ensures Returns(t, With(s, t, Begin(CallCopyRealloc(p, p', 0))), w => w == FreedIfHeld(s, p))
  {
    RestAsIs(s, t);
    Returned(s, t, w => w == s);
    FreeCall(s, t, p);
  }

  /** A record refused under its lock, whichever call made it, is counted as skipped, its slot goes back,
      and nothing else changes. */
  lemma RefusedInsert(s: State, t: nat, e: Entry, w: Origin)
    requires Inv(s) && AtRest(s) && t < |s.pcs| && s.ctr.entries >= 131072 && !w.FromCopy?
    ensures Returns(t, With(s, t, Insert(e, w, Join)), u => u == Given(s.(ctr := s.ctr.(skipped := s.ctr.skipped + 1)), e.slot))
  {
    var done := Given(s.(ctr := s.ctr.(skipped := s.ctr.skipped + 1)), e.slot);
    var q := (u: State) => u == done;
    RestUnlocked(s);
    ComingClosed(Busy(t), Back(t), q);
    RestAsIs(done, t);
    Returned(done, t, q);
    if w.FromMalloc? { RefuseCall(s, t, e, Returning(t, q)); } else { RefuseLocked(s, t, e, Returning(t, q)); }
  }

  // ---- what calls undo ------------------------------------------------------------------------------

  /** A recorded allocation is the newest record of its pointer; no other pointer is affected. */
  lemma RecordedPushes(r: State, e: Entry, q: Ptr)
    requires Shape(r)
    ensures StackAt(Recorded(r, e), q) == if q == e.ptr then [WithNumber(e, r.ctr)] + StackAt(r, q) else StackAt(r, q)
  {
    StackPush(r.chains[r.c.bucketOf(e.ptr)], WithNumber(e, r.ctr), q);
  }

  /** A free takes away the newest record of its pointer; no other pointer is affected. */
  lemma FreedPops(r: State, p: Ptr, q: Ptr)
    requires Shape(r)
    ensures StackAt(FreedIfHeld(r, p), q) == if q == p && Holds(r, p) then StackAt(r, p)[1..] else StackAt(r, q)
  {
    if Holds(r, p) { StackPop(r.chains[r.c.bucketOf(p)], p, q); }
  }

  /** What a tracked allocation records: pointer, size, time, the next number, and up to 64 frames of the
      stack, in a slot that was at the head of a free list. */
  lemma MallocRecords(s: State, p: Ptr, z: nat, x: Choice) returns (e: Entry)
    requires Shape(s) && s.ctr.entries < 131072 && (if s.c.pooled then FirstFull(s, p, 0) < STRIPES else x.ok)
    ensures var w := Malloced(s, p, z, x);
            && StackAt(w, p) == [e] + StackAt(s, p)
            && e.ptr == p && e.size == z && e.stamp == x.stamp && e.num == s.ctr.seqNo + 1
            && e.frames <= x.frames && |e.frames| == (if |x.frames| < 64 then |x.frames| else 64)
    ensures s.c.pooled ==> exists j: nat :: j < STRIPES && s.frees[j] != [] && e.slot == s.frees[j][0]
  {
    var j := ProbeStripe(s.c, p, FirstFull(s, p, 0));
    var f := if s.c.pooled then Filled(s.frees[j][0], p, z, x) else Filled(0, p, z, x);
    e := WithNumber(f, s.ctr);
    RecordedPushes(if s.c.pooled then Popped(s, j) else s, f, p);
  }

  /** What it adds to each counter. */
  lemma MallocCounts(s: State, p: Ptr, z: nat, x: Choice)
    requires Shape(s) && s.ctr.entries < 131072 && (if s.c.pooled then FirstFull(s, p, 0) < STRIPES else x.ok)
    ensures var w := Malloced(s, p, z, x);
            w.ctr == Counters(s.ctr.seqNo + 1, s.ctr.allocs + 1, s.ctr.frees, s.ctr.current + z,
                                 if s.ctr.current + z > s.ctr.peak then s.ctr.current + z else s.ctr.peak, s.ctr.total + z,
                              s.ctr.entries + 1, if s.c.pooled then s.ctr.used + 1 else s.ctr.used, s.ctr.skipped)
  {}

  /** Freeing what was just allocated restores the table, current_bytes and entry_count, and pool_used;
      it leaves one call more on both sides and the peak where the allocation put it. */
  lemma FreeUndoesMalloc(s: State, p: Ptr, z: nat, x: Choice)
    requires Shape(s) && s.ctr.entries < 131072 && (if s.c.pooled then FirstFull(s, p, 0) < STRIPES else x.ok)
    ensures var s' := FreedIfHeld(Malloced(s, p, z, x), p);
            && s'.chains == s.chains
            && s'.ctr == s.ctr.(seqNo := s.ctr.seqNo + 1, allocs := s.ctr.allocs + 1, frees := s.ctr.frees + 1,
                                total := s.ctr.total + z, peak := Charged(s.ctr, z).peak)
  {
    var m, b := Malloced(s, p, z, x), s.c.bucketOf(p);
    assert First(m.chains[b], p) == 0;
    assert Without(m.chains[b], 0) == s.chains[b];
  }
}
