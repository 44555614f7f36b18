/** What the invariant says in the tracker's own terms: where every slot is, what every counter
    equals, how large the table can grow, and what the peak is worth. */
module TrackerTheorems {
  import opened Sums
  import opened Chains
  import opened Tracker
  import opened TrackerLaws
  import opened TrackerSafety
  import opened TrackerInvariant

  // ---- every slot is in exactly one place -----------------------------------------------------------

  /** A position on a free list, a position on a bucket chain, or a thread. */
  datatype Place = FreeAt(j: nat, a: nat) | LinkedAt(b: nat, i: nat) | HeldBy(t: nat)

  ghost predicate IsAt(s: State, n: nat, w: Place) {
    match w
    case FreeAt(j, a) => j < |s.frees| && a < |s.frees[j]| && s.frees[j][a] == n
    case LinkedAt(b, i) => b < |s.chains| && i < |s.chains[b]| && s.chains[b][i].slot == n
    case HeldBy(t) => t < |s.pcs| && Held(Slots(n), s.pcs[t]) != 0
  }

  lemma {:induction false} SlotsInChain(n: nat, chain: seq<Entry>)
    ensures 0 <= ChainW(Slots(n), chain)
    ensures 0 < ChainW(Slots(n), chain) ==> exists i :: 0 <= i < |chain| && chain[i].slot == n
    ensures forall i :: 0 <= i < |chain| && chain[i].slot == n ==> 1 <= ChainW(Slots(n), chain)
    ensures forall i, j :: 0 <= i < j < |chain| && chain[i].slot == n && chain[j].slot == n ==> 2 <= ChainW(Slots(n), chain)
  {
    if chain != [] {
      var tail := chain[1..];
      SlotsInChain(n, tail);
      assert forall i :: 0 < i < |chain| ==> chain[i] == tail[i - 1];
      if 0 < ChainW(Slots(n), tail) {
        var i :| 0 <= i < |tail| && tail[i].slot == n;
        assert chain[i + 1].slot == n;
      }
    }
  }

  lemma {:induction false} SlotsInFree(n: nat, free: seq<nat>)
    ensures 0 <= FreeW(Slots(n), free)
    ensures 0 < FreeW(Slots(n), free) ==> exists i :: 0 <= i < |free| && free[i] == n
    ensures forall i :: 0 <= i < |free| && free[i] == n ==> 1 <= FreeW(Slots(n), free)
    ensures forall i, j :: 0 <= i < j < |free| && free[i] == n && free[j] == n ==> 2 <= FreeW(Slots(n), free)
  {
    if free != [] {
      var tail := free[1..];
      SlotsInFree(n, tail);
      assert forall i :: 0 < i < |free| ==> free[i] == tail[i - 1];
      if 0 < FreeW(Slots(n), tail) {
        var i :| 0 <= i < |tail| && tail[i] == n;
        assert free[i + 1] == n;
      }
    }
  }

  /** The three groups of places, and what each adds to the weight of slot `n`. */
  lemma SlotWeights(s: State, n: nat)
    requires Inv(s) && s.c.pooled
    ensures forall b :: 0 <= b < |s.chains| ==> 0 <= ChainWs(Slots(n), s.chains)[b]
    ensures forall j :: 0 <= j < |s.frees| ==> 0 <= FreeWs(Slots(n), s.frees)[j]
    ensures 0 <= Sum(ChainWs(Slots(n), s.chains)) && 0 <= Sum(FreeWs(Slots(n), s.frees)) && 0 <= Sum(PcWs(Slots(n), s.pcs))
    ensures Sum(ChainWs(Slots(n), s.chains)) + Sum(FreeWs(Slots(n), s.frees)) + Sum(PcWs(Slots(n), s.pcs)) == Flag(n < s.c.cap)
  {
    var k := Slots(n);
    forall b | 0 <= b < |s.chains| ensures 0 <= ChainWs(k, s.chains)[b] { SlotsInChain(n, s.chains[b]); }
    forall j | 0 <= j < |s.frees| ensures 0 <= FreeWs(k, s.frees)[j] { SlotsInFree(n, s.frees[j]); }
    SumZero(ChainWs(k, s.chains));
    SumZero(FreeWs(k, s.frees));
    SumZero(PcWs(k, s.pcs));
    assert LawOk(k, s);
  }

  lemma SumZero(a: seq<int>)
    requires forall i :: 0 <= i < |a| ==> 0 <= a[i]
    ensures 0 <= Sum(a)
  {
    var z := seq(|a|, i => 0);
    SumConst(z, 0);
    SumMono(z, a);
  }

  /** In every reachable state every pool slot is somewhere. */
  lemma SlotIsSomewhere(s: State, n: nat) returns (w: Place)
    requires Inv(s) && s.c.pooled && n < s.c.cap
    ensures IsAt(s, n, w)
  {
    SlotWeights(s, n);
    var k := Slots(n);
    if 0 < Sum(ChainWs(k, s.chains)) {
      var b := SumPositive(ChainWs(k, s.chains));
      SlotsInChain(n, s.chains[b]);
      var i :| 0 <= i < |s.chains[b]| && s.chains[b][i].slot == n;
      w := LinkedAt(b, i);
    } else if 0 < Sum(FreeWs(k, s.frees)) {
      var j := SumPositive(FreeWs(k, s.frees));
      SlotsInFree(n, s.frees[j]);
      var a :| 0 <= a < |s.frees[j]| && s.frees[j][a] == n;
      w := FreeAt(j, a);
    } else {
      var t := SumPositive(PcWs(k, s.pcs));
      w := HeldBy(t);
    }
  }

  /** A place adds at least one to the sum of its group, and two places of one group at least two. */
  lemma PlaceWeight(s: State, n: nat, w: Place)
    requires Inv(s) && s.c.pooled && IsAt(s, n, w)
    ensures 1 <= match w case FreeAt(_, _) => Sum(FreeWs(Slots(n), s.frees))
                         case LinkedAt(_, _) => Sum(ChainWs(Slots(n), s.chains))
                         case HeldBy(_) => Sum(PcWs(Slots(n), s.pcs))
  {
    SlotWeights(s, n);
    match w
    case FreeAt(j, a) => SlotsInFree(n, s.frees[j]); SumAtLeast(FreeWs(Slots(n), s.frees), j);
    case LinkedAt(b, i) => SlotsInChain(n, s.chains[b]); SumAtLeast(ChainWs(Slots(n), s.chains), b);
    case HeldBy(t) => SumAtLeast(PcWs(Slots(n), s.pcs), t);
  }

  /** ... and nowhere else: no slot is twice on a list, on two lists, linked and free, or held by a
      thread and still on a list or with another thread. In particular no list is cyclic. */
  lemma SlotIsNowhereElse(s: State, n: nat, w: Place, u: Place)
    requires Inv(s) && s.c.pooled && IsAt(s, n, w) && IsAt(s, n, u)
    ensures w == u
  {
    SlotWeights(s, n);
    PlaceWeight(s, n, w);
    PlaceWeight(s, n, u);
    match (w, u)
    case (FreeAt(j, a), FreeAt(m, e)) =>
      SlotsInFree(n, s.frees[j]);
      SlotsInFree(n, s.frees[m]);
      if j != m { SumAtLeastTwo(FreeWs(Slots(n), s.frees), j, m); } else { SumAtLeast(FreeWs(Slots(n), s.frees), j); }
    case (LinkedAt(b, i), LinkedAt(m, e)) =>
      SlotsInChain(n, s.chains[b]);
      SlotsInChain(n, s.chains[m]);
      if b != m { SumAtLeastTwo(ChainWs(Slots(n), s.chains), b, m); } else { SumAtLeast(ChainWs(Slots(n), s.chains), b); }
    case (HeldBy(t), HeldBy(m)) =>
      if t != m { SumAtLeastTwo(PcWs(Slots(n), s.pcs), t, m); }
    case _ =>
  }

  // ---- what every counter equals ----------------------------------------------------------------------

  ghost function Lengths(s: State): seq<int> { seq(|s.chains|, b requires 0 <= b < |s.chains| => |s.chains[b]|) }

  ghost function FreeLengths(s: State): seq<int> { seq(|s.frees|, j requires 0 <= j < |s.frees| => |s.frees[j]|) }

  ghost function Linked(s: State): int { Sum(Lengths(s)) }

  ghost function LinkedBytes(s: State): int { Sum(Worth(s)) }

  ghost function Free(s: State): int { Sum(FreeLengths(s)) }

  /** The gaps between one atomic operation and the next, in which a counter and the lists disagree. */
  datatype Gap =
    | PoppedUncounted | PushedUncounted
    | LinkedUncounted | UnlinkedUncounted
    | CountedUnlinked | FreedLinked
    | RaisingPeak

  predicate InGap(g: Gap, pc: Pc) {
    match g
    case PoppedUncounted => pc.Make? && pc.m.CountUp?
    case PushedUncounted => pc.Give? && (pc.g.Release? || pc.g.CountDown?)
    case LinkedUncounted => pc.Insert? && pc.i.CountLink?
    case UnlinkedUncounted => pc.Remove? && pc.r.CountUnlink?
    case CountedUnlinked => pc.Insert? && (Adds(pc.i) || pc.i.AddCurrent?)
    case FreedLinked => pc.Remove? && pc.r.Unlink?
    case RaisingPeak => pc.Insert? && (pc.i.AddTotal? || pc.i.LoadCurrent? || pc.i.LoadPeak? || pc.i.Cas?)
  }

  function Flags(g: Gap, pcs: seq<Pc>): seq<int> {
    seq(|pcs|, t requires 0 <= t < |pcs| => Flag(InGap(g, pcs[t])))
  }

  ghost function In(g: Gap, s: State): int { Sum(Flags(g, s.pcs)) }

  /** Bytes that threads have added to current_bytes for records not yet linked, and taken from it for
      records not yet unlinked. */
  ghost function BytesAhead(s: State): int { Sum(Addings(s)) }

  ghost function BytesBehind(s: State): int { Sum(Takings(s)) }

  ghost function Addings(s: State): seq<int> { seq(|s.pcs|, t requires 0 <= t < |s.pcs| => Adding(s.pcs[t]) as int) }

  ghost function Takings(s: State): seq<int> { seq(|s.pcs|, t requires 0 <= t < |s.pcs| => Taking(s.pcs[t]) as int) }

  lemma {:induction false} ChainLength(chain: seq<Entry>)
    ensures ChainW(Count, chain) == 0 - |chain| && ChainW(Calls, chain) == 0 - |chain|
    ensures ChainW(Space, chain) == |chain| && ChainW(Used, chain) == 0
  {
    if chain != [] { ChainLength(chain[1..]); }
  }

  lemma {:induction false} FreeLength(free: seq<nat>)
    ensures FreeW(Used, free) == |free| && FreeW(Space, free) == |free|
    ensures FreeW(Count, free) == 0 && FreeW(Calls, free) == 0
  {
    if free != [] { FreeLength(free[1..]); }
  }

  lemma ChainSums(s: State)
    ensures Sum(ChainWs(Count, s.chains)) == 0 - Linked(s) && Sum(ChainWs(Calls, s.chains)) == 0 - Linked(s)
    ensures Sum(ChainWs(Space, s.chains)) == Linked(s) && Sum(ChainWs(Used, s.chains)) == 0
    ensures Sum(ChainWs(Bytes, s.chains)) == 0 - LinkedBytes(s)
  {
    var none, lengths := seq(|s.chains|, b => 0), Lengths(s);
    forall b | 0 <= b < |s.chains|
      ensures ChainW(Count, s.chains[b]) == 0 - |s.chains[b]| && ChainW(Calls, s.chains[b]) == 0 - |s.chains[b]|
      ensures ChainW(Space, s.chains[b]) == |s.chains[b]| && ChainW(Used, s.chains[b]) == 0
    {
      ChainLength(s.chains[b]);
    }
    SumConst(none, 0);
    SumDiff(none, lengths, ChainWs(Count, s.chains));
    SumDiff(none, lengths, ChainWs(Calls, s.chains));
    SumDiff(none, Worth(s), ChainWs(Bytes, s.chains));
    assert ChainWs(Space, s.chains) == lengths;
    assert ChainWs(Used, s.chains) == none;
  }

  lemma FreeSums(s: State)
    ensures Sum(FreeWs(Used, s.frees)) == Free(s) && Sum(FreeWs(Space, s.frees)) == Free(s)
    ensures Sum(FreeWs(Count, s.frees)) == 0 && Sum(FreeWs(Calls, s.frees)) == 0 && Sum(FreeWs(Bytes, s.frees)) == 0
  {
    forall j | 0 <= j < |s.frees|
      ensures FreeW(Used, s.frees[j]) == |s.frees[j]| && FreeW(Space, s.frees[j]) == |s.frees[j]|
      ensures FreeW(Count, s.frees[j]) == 0 && FreeW(Calls, s.frees[j]) == 0 && FreeW(Bytes, s.frees[j]) == 0
    {
      FreeLength(s.frees[j]);
      FreeNoBytes(s.frees[j]);
    }
    assert FreeWs(Used, s.frees) == FreeLengths(s) && FreeWs(Space, s.frees) == FreeLengths(s);
    SumConst(FreeWs(Count, s.frees), 0);
    SumConst(FreeWs(Calls, s.frees), 0);
    SumConst(FreeWs(Bytes, s.frees), 0);
  }

  lemma GapSums(s: State)
    ensures Sum(PcWs(Used, s.pcs)) == In(PoppedUncounted, s) - In(PushedUncounted, s)
    ensures Sum(PcWs(Count, s.pcs)) == In(LinkedUncounted, s) - In(UnlinkedUncounted, s)
    ensures Sum(PcWs(Calls, s.pcs)) == In(FreedLinked, s) - In(CountedUnlinked, s)
    ensures Sum(PcWs(Bytes, s.pcs)) == BytesBehind(s) - BytesAhead(s)
  {
    SumDiff(Flags(PoppedUncounted, s.pcs), Flags(PushedUncounted, s.pcs), PcWs(Used, s.pcs));
    SumDiff(Flags(LinkedUncounted, s.pcs), Flags(UnlinkedUncounted, s.pcs), PcWs(Count, s.pcs));
    SumDiff(Flags(FreedLinked, s.pcs), Flags(CountedUnlinked, s.pcs), PcWs(Calls, s.pcs));
    SumDiff(Takings(s), Addings(s), PcWs(Bytes, s.pcs));
  }

  /** In every interleaving: pool_used, entry_count, alloc_count and current_bytes differ from what the
      lists hold by exactly the threads that are between the two atomic operations concerned. */
  lemma CountersMatchLists(s: State)
    requires Inv(s)
    ensures s.ctr.used == s.c.cap - Free(s) - In(PoppedUncounted, s) + In(PushedUncounted, s)
    ensures s.ctr.entries == Linked(s) - In(LinkedUncounted, s) + In(UnlinkedUncounted, s)
    ensures s.ctr.allocs == s.ctr.frees + Linked(s) + In(CountedUnlinked, s) - In(FreedLinked, s)
    ensures s.ctr.current == LinkedBytes(s) + BytesAhead(s) - BytesBehind(s)
  {
    assert LawOk(Used, s) && LawOk(Count, s) && LawOk(Calls, s) && LawOk(Bytes, s);
    ChainSums(s);
    FreeSums(s);
    GapSums(s);
  }

  /** Every slot is free, linked or held. */
  lemma SlotsAddUp(s: State)
    requires Inv(s) && s.c.pooled
    ensures Linked(s) + Free(s) + Sum(PcWs(Space, s.pcs)) == s.c.cap
    ensures 0 <= Free(s) && 0 <= Sum(PcWs(Space, s.pcs)) && 0 <= Linked(s)
    ensures In(PoppedUncounted, s) <= Sum(PcWs(Space, s.pcs)) && In(UnlinkedUncounted, s) <= Sum(PcWs(Space, s.pcs))
  {
    SpaceAddsUp(s);
    SumZero(FreeLengths(s));
    SumZero(Lengths(s));
    SumZero(PcWs(Space, s.pcs));
    HeldCounts(s);
  }

  lemma SpaceAddsUp(s: State)
    requires Inv(s) && s.c.pooled
    ensures Linked(s) + Free(s) + Sum(PcWs(Space, s.pcs)) == s.c.cap
  {
    assert LawOk(Space, s);
    ChainSums(s);
    FreeSums(s);
  }

  /** Threads in these two gaps hold a slot. */
  lemma HeldCounts(s: State)
    ensures In(PoppedUncounted, s) <= Sum(PcWs(Space, s.pcs)) && In(UnlinkedUncounted, s) <= Sum(PcWs(Space, s.pcs))
  {
    SumMono(Flags(UnlinkedUncounted, s.pcs), PcWs(Space, s.pcs));
    SumMono(Flags(PoppedUncounted, s.pcs), PcWs(Space, s.pcs));
  }

  /** No thread is inside the tracker. */
  ghost predicate AtRest(s: State) { forall t :: 0 <= t < |s.pcs| ==> s.pcs[t] == Idle }

  lemma RestHasNoGaps(s: State)
    requires AtRest(s)
    ensures forall g :: In(g, s) == 0
    ensures BytesAhead(s) == 0 && BytesBehind(s) == 0 && Sum(PcWs(Space, s.pcs)) == 0
  {
    forall g ensures In(g, s) == 0 { SumConst(Flags(g, s.pcs), 0); }
    SumConst(Addings(s), 0);
    SumConst(Takings(s), 0);
    SumConst(PcWs(Space, s.pcs), 0);
  }

  /** At rest every counter is exact, and the peak is no less than what is in use. */
  lemma AtRestExact(s: State)
    requires Inv(s) && AtRest(s)
    ensures s.ctr.entries == Linked(s) && s.ctr.current == LinkedBytes(s)
    ensures s.ctr.allocs == s.ctr.frees + s.ctr.entries
    ensures s.c.pooled ==> s.ctr.used == s.ctr.entries == s.c.cap - Free(s)
    ensures s.ctr.current <= s.ctr.peak
  {
    CountersMatchLists(s);
    RestHasNoGaps(s);
    PeakCovers(s);
    if s.c.pooled { SlotsAddUp(s); }
  }

  // ---- bounds ---------------------------------------------------------------------------------------

  /** In every interleaving the table holds at most MTT_MAX_ENTRIES + 63 records, and in pool mode at
      most as many as the pool has slots. */
  lemma TableBounded(s: State)
    requires Inv(s)
    ensures s.ctr.entries <= 131072 + 63
    ensures s.c.pooled ==> s.ctr.entries <= s.c.cap && Linked(s) <= s.c.cap
  {
    SumZero(PassedWs(s.pcs));
    if s.c.pooled {
      CountersMatchLists(s);
      SlotsAddUp(s);
      SumZero(Flags(LinkedUncounted, s.pcs));
    }
  }

  /** A thread that has linked a record and not counted it holds the record's lock, so there are no
      more such threads than linked records. */
  lemma UncountedLinks(s: State)
    requires Inv(s)
    ensures In(LinkedUncounted, s) <= Linked(s)
  {
    var claims, worth, owners := Flags(LinkedUncounted, s.pcs), Lengths(s), BucketOwners(s);
    forall u | 0 <= u < |claims| && !(claims[u] <= 0)
      ensures exists b :: 0 <= b < |owners| && owners[b] == Some(u) && claims[u] <= worth[b]
    {
      var pc := s.pcs[u];
      var b := s.c.bucketOf(pc.e.ptr);
      assert HoldsBlock(s.c, pc, Stripe(s.c, pc.e.ptr));
      assert owners[b] == Some(u) && claims[u] <= worth[b];
    }
    OwnersBound(claims, owners, worth);
  }

  /** Likewise the bytes already taken for records still linked. */
  lemma BehindBound(s: State)
    requires Inv(s)
    ensures BytesBehind(s) <= LinkedBytes(s)
  {
    var claims, worth, owners := Takings(s), Worth(s), BucketOwners(s);
    forall u | 0 <= u < |claims| && !(claims[u] <= 0)
      ensures exists b :: 0 <= b < |owners| && owners[b] == Some(u) && claims[u] <= worth[b]
    {
      var pc := s.pcs[u];
      var b := s.c.bucketOf(pc.e.ptr);
      assert HoldsBlock(s.c, pc, Stripe(s.c, pc.e.ptr));
      SizeInChain(s.chains[b], First(s.chains[b], pc.e.ptr));
      assert owners[b] == Some(u) && claims[u] <= worth[b];
    }
    OwnersBound(claims, owners, worth);
  }

  /** In every interleaving no counter is below zero, no subtraction from current_bytes can make it so,
      and no thread is about to clamp it. */
  lemma NoUnderflow(s: State)
    requires Inv(s)
    ensures 0 <= s.ctr.current && 0 <= s.ctr.entries && (s.c.pooled ==> 0 <= s.ctr.used)
    ensures forall t :: 0 <= t < |s.pcs| && s.pcs[t].Remove? && s.pcs[t].r.Test? ==> s.pcs[t].e.size <= s.ctr.current
    ensures forall t :: 0 <= t < |s.pcs| ==> !Clamps(s.pcs[t])
  {
    CountersMatchLists(s);
    BehindBound(s);
    UncountedLinks(s);
    SumZero(Addings(s));
    SumZero(Flags(UnlinkedUncounted, s.pcs));
    SumZero(Flags(PushedUncounted, s.pcs));
    if s.c.pooled { SlotsAddUp(s); }
    forall t | 0 <= t < |s.pcs| && s.pcs[t].Remove? && s.pcs[t].r.Test? ensures s.pcs[t].e.size <= s.ctr.current {
      TestSucceeds(s, t);
    }
  }

  /** Whenever no thread is between its addition to current_bytes and the end of its compare-and-swap
      loop, the recorded peak is at least current_bytes. */
  lemma PeakCovers(s: State)
    requires Inv(s) && In(RaisingPeak, s) == 0
    ensures s.ctr.current <= s.ctr.peak
  {
    if t :| 0 <= t < |s.pcs| && Covers(s.pcs[t], s.ctr.current) {
      SumAtLeast(Flags(RaisingPeak, s.pcs), t);
    }
  }

  /** Allocation numbers are unique: no two linked records share one that has been issued. */
  lemma SerialsUnique(s: State, b: nat, i: nat, d: nat, j: nat)
    requires Inv(s) && b < |s.chains| && i < |s.chains[b]| && d < |s.chains| && j < |s.chains[d]|
    requires 0 < s.chains[b][i].num == s.chains[d][j].num
    ensures b == d && i == j
  {
    var n := s.chains[b][i].num;
    var k := Serial(n);
    var ws := ChainWs(k, s.chains);
    assert LawOk(k, s);
    forall m | 0 <= m < |s.chains| ensures 0 <= ws[m] { SerialsInChain(n, s.chains[m]); }
    forall m | 0 <= m < |s.frees| { NoSerialsFree(k, s.frees[m]); }
    SumConst(FreeWs(k, s.frees), 0);
    SumZero(PcWs(k, s.pcs));
    SerialsInChain(n, s.chains[b]);
    SerialsInChain(n, s.chains[d]);
    if b != d { SumAtLeastTwo(ws, b, d); } else { SumAtLeast(ws, b); }
  }

  lemma {:induction false} SerialsInChain(n: int, chain: seq<Entry>)
    ensures 0 <= ChainW(Serial(n), chain)
    ensures forall i :: 0 <= i < |chain| && chain[i].num == n ==> 1 <= ChainW(Serial(n), chain)
    ensures forall i, j :: 0 <= i < j < |chain| && chain[i].num == n && chain[j].num == n ==> 2 <= ChainW(Serial(n), chain)
  {
    if chain != [] {
      SerialsInChain(n, chain[1..]);
      assert forall i :: 0 < i < |chain| ==> chain[i] == chain[1..][i - 1];
    }
  }

  lemma {:induction false} NoSerialsFree(k: Law, free: seq<nat>)
    requires k.Serial?
    ensures FreeW(k, free) == 0
  {
    if free != [] { NoSerialsFree(k, free[1..]); }
  }
}
