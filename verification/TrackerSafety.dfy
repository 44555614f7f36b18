/** The invariant of the step system, and that every step of every thread keeps it. */
module TrackerSafety {
  import opened Sums
  import opened Chains
  import opened Tracker
  import opened TrackerLaws

  // ---- locks -----------------------------------------------------------------------------------

  predicate HoldsBlock(c: Params, pc: Pc, l: nat) {
    match pc
    case Insert(e, _, i) => !i.Join? && l == Stripe(c, e.ptr)
    case Unlock(m, _) => l == m
    case Give(_, a, _) => a.Unlocked? && l == a.l
    case Seek(p, _, locked) => locked && l == Stripe(c, p)
    case Remove(e, _, _) => l == Stripe(c, e.ptr)
    case Peek(p, _, locked) => locked && l == Stripe(c, p)
    case Fork(f) => if f.Locking? then l < f.i else if f.Raw? then l < STRIPES else f.i <= l < STRIPES
    case Scan(m, _, _, s) => !s.Locking? && l == m
    case _ => false
  }

  predicate HoldsPool(c: Params, pc: Pc, j: nat) {
    match pc
    case Make(p, _, _, m) => (m.Pop? || m.CountUp? || m.Unpool?) && j == ProbeStripe(c, p, m.i)
    case Give(slot, _, g) => (g.Push? || g.Release?) && j == HomeStripe(c, slot)
    case _ => false
  }

  lemma InsertBlock(c: Params, t: nat, pc: Pc, v: View, x: Choice)
    requires pc.Insert? && ActInsert(c, t, pc.e, pc.w, pc.i, v, x).Some?
    requires v.block == Some(t) <==> HoldsBlock(c, pc, Stripe(c, pc.e.ptr))
    ensures var (pc', v') := ActInsert(c, t, pc.e, pc.w, pc.i, v, x).value;
            && (v'.block == Some(t) <==> HoldsBlock(c, pc', Stripe(c, pc.e.ptr)))
            && (v.block.Some? && v.block != Some(t) ==> v'.block == v.block)
            && (v'.block == v.block || v'.block.None? || v'.block == Some(t))
  {}

  /** The locks a step may change are the two in its focus, and it changes them only from free to its
      own or from its own to free. */
  lemma StepBlock(c: Params, t: nat, pc: Pc, v: View, x: Choice)
    requires PcOk(c, pc) && Act(c, t, pc, v, x).Some?
    requires v.block == Some(t) <==> HoldsBlock(c, pc, FocusOf(c, pc).l)
    ensures var (pc', v') := Act(c, t, pc, v, x).value;
            && (v'.block == Some(t) <==> HoldsBlock(c, pc', FocusOf(c, pc).l))
            && (v.block.Some? && v.block != Some(t) ==> v'.block == v.block)
            && (v'.block == v.block || v'.block.None? || v'.block == Some(t))
  {
    if pc.Insert? { InsertBlock(c, t, pc, v, x); }
  }

  lemma InsertOtherBlock(c: Params, t: nat, pc: Pc, v: View, x: Choice, m: nat)
    requires pc.Insert? && ActInsert(c, t, pc.e, pc.w, pc.i, v, x).Some? && m != Stripe(c, pc.e.ptr)
    ensures HoldsBlock(c, ActInsert(c, t, pc.e, pc.w, pc.i, v, x).value.0, m) <==> HoldsBlock(c, pc, m)
  {}

  lemma StepOtherBlock(c: Params, t: nat, pc: Pc, v: View, x: Choice, m: nat)
    requires PcOk(c, pc) && Act(c, t, pc, v, x).Some? && m < STRIPES && m != FocusOf(c, pc).l
    ensures HoldsBlock(c, Act(c, t, pc, v, x).value.0, m) <==> HoldsBlock(c, pc, m)
  {
    if pc.Insert? { InsertOtherBlock(c, t, pc, v, x, m); }
  }

  lemma StepPlock(c: Params, t: nat, pc: Pc, v: View, x: Choice)
    requires PcOk(c, pc) && Act(c, t, pc, v, x).Some?
    requires v.plock == Some(t) <==> HoldsPool(c, pc, FocusOf(c, pc).j)
    ensures var (pc', v') := Act(c, t, pc, v, x).value;
            && (v'.plock == Some(t) <==> HoldsPool(c, pc', FocusOf(c, pc).j))
            && (v.plock.Some? && v.plock != Some(t) ==> v'.plock == v.plock)
            && (v'.plock == v.plock || v'.plock.None? || v'.plock == Some(t))
  {}

  lemma StepOtherPlock(c: Params, t: nat, pc: Pc, v: View, x: Choice, m: nat)
    requires PcOk(c, pc) && Act(c, t, pc, v, x).Some? && m < STRIPES && m != FocusOf(c, pc).j
    ensures HoldsPool(c, Act(c, t, pc, v, x).value.0, m) <==> HoldsPool(c, pc, m)
  {}

  /** A chain changes only in the hands of the thread that holds its stripe's lock. */
  lemma ChainGuarded(c: Params, t: nat, pc: Pc, v: View, x: Choice)
    requires Act(c, t, pc, v, x).Some? && FoundIn(pc, v.chain)
    ensures var v' := Act(c, t, pc, v, x).value.1; var b := FocusOf(c, pc).b;
            v'.chain != v.chain ==> HoldsBlock(c, pc, b % STRIPES)
  {
    ListSteps(c, t, pc, v, x);
  }

  // ---- the invariant -----------------------------------------------------------------------------

  /** A bucket lock is held by exactly the thread whose position says so. */
  ghost predicate BlocksOk(s: State)
    requires Shape(s)
  {
    && (forall l: nat, t: nat {:trigger HoldsBlock(s.c, s.pcs[t], l)} ::
          l < STRIPES && t < |s.pcs| ==> (s.blocks[l] == Some(t) <==> HoldsBlock(s.c, s.pcs[t], l)))
    && (forall l: nat :: l < STRIPES && s.blocks[l].Some? ==> s.blocks[l].value < |s.pcs|)
  }

  /** Likewise a pool lock. */
  ghost predicate PoolLocksOk(s: State)
    requires Shape(s)
  {
    && (forall j: nat, t: nat {:trigger HoldsPool(s.c, s.pcs[t], j)} ::
          j < STRIPES && t < |s.pcs| ==> (s.plocks[j] == Some(t) <==> HoldsPool(s.c, s.pcs[t], j)))
    && (forall j: nat :: j < STRIPES && s.plocks[j].Some? ==> s.plocks[j].value < |s.pcs|)
  }

  ghost predicate LocksOk(s: State)
    requires Shape(s)
  {
    BlocksOk(s) && PoolLocksOk(s)
  }

  ghost predicate ThreadsOk(s: State)
    requires Shape(s)
  {
    forall t: nat :: t < |s.pcs| ==> PcOk(s.c, s.pcs[t]) && !Clamps(s.pcs[t])
  }

  ghost predicate FoundOk(s: State)
    requires Shape(s)
  {
    forall t: nat :: t < |s.pcs| && (s.pcs[t].Remove? || s.pcs[t].Insert?) ==>
      FoundIn(s.pcs[t], s.chains[s.c.bucketOf(s.pcs[t].e.ptr)])
  }

  ghost predicate ListsOk(s: State)
    requires Shape(s)
  {
    && 0 <= s.ctr.seqNo
    && (forall b: nat :: b < BUCKETS ==> ChainOk(s.c, b, s.chains[b]))
    && (forall j: nat :: j < STRIPES ==> FreeOk(s.c, s.frees[j]))
  }

  function ChainWs(k: Law, chains: seq<seq<Entry>>): seq<int> {
    seq(|chains|, i requires 0 <= i < |chains| => ChainW(k, chains[i]))
  }

  function FreeWs(k: Law, frees: seq<seq<nat>>): seq<int> {
    seq(|frees|, i requires 0 <= i < |frees| => FreeW(k, frees[i]))
  }

  function PcWs(k: Law, pcs: seq<Pc>): seq<int> {
    seq(|pcs|, i requires 0 <= i < |pcs| => PcW(k, pcs[i]))
  }

  ghost function Total(k: Law, s: State): int {
    Sum(ChainWs(k, s.chains)) + Sum(FreeWs(k, s.frees)) + Sum(PcWs(k, s.pcs)) + CtrW(k, s.ctr)
  }

  function Target(k: Law, c: Params): int {
    match k
    case Slots(n) => Flag(n < c.cap)
    case Space | Used => c.cap
    case Serial(_) => 1
    case _ => 0
  }

  ghost predicate LawOk(k: Law, s: State) {
    if Exact(k) then Total(k, s) == Target(k, s.c) else Total(k, s) <= Target(k, s.c)
  }

  ghost predicate LawsOk(s: State) { forall k :: LawApplies(k, s.c) ==> LawOk(k, s) }

  lemma TotalChange(k: Law, s: State, t: nat, x: Choice, s': State)
    requires Step(s, t, x, s')
    ensures var f := FocusOf(s.c, s.pcs[t]);
            Total(k, s') - Total(k, s) == LocalW(k, s'.pcs[t], Get(s', f)) - LocalW(k, s.pcs[t], Get(s, f))
  {
    var f := FocusOf(s.c, s.pcs[t]);
    assert ChainWs(k, s'.chains) == ChainWs(k, s.chains)[f.b := ChainW(k, s'.chains[f.b])];
    assert FreeWs(k, s'.frees) == FreeWs(k, s.frees)[f.j := FreeW(k, s'.frees[f.j])];
    assert PcWs(k, s'.pcs) == PcWs(k, s.pcs)[t := PcW(k, s'.pcs[t])];
    SumUpdate(ChainWs(k, s.chains), f.b, ChainW(k, s'.chains[f.b]));
    SumUpdate(FreeWs(k, s.frees), f.j, FreeW(k, s'.frees[f.j]));
    SumUpdate(PcWs(k, s.pcs), t, PcW(k, s'.pcs[t]));
  }
}
