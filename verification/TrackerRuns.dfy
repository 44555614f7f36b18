/** Runs of the tracker: initialisation, steps of any threads in any order, and fork, followed into
    the child. The main theorems about every state of every run. */
module TrackerRuns {
  import opened Sums
  import opened Chains
  import opened Tracker
  import opened TrackerLaws
  import opened TrackerSafety
  import opened TrackerInvariant
  import Hashing

  function SeededBucket(p: Ptr, seed: Hashing.Word): (b: nat)
    ensures b < BUCKETS
  {
    Hashing.BucketOf(ToWord(p), seed)
  }

  function ToWord(p: Ptr): Hashing.Word { (p % TWO64) as Hashing.Word }

  /** Pointers that are 64-bit words already are hashed as they are. */
  lemma SeededBucketOf(w: Hashing.Word, seed: Hashing.Word)
    ensures SeededBucket(w as nat, seed) == Hashing.BucketOf(w, seed)
  {
    WordOfNumber(w);
  }

  lemma WordOfNumber(w: Hashing.Word)
    ensures ToWord(w as nat) == w
  {
    SmallMod(w as nat);
    ThereAndBack(w);
  }

  lemma SmallMod(n: nat) requires n < TWO64 ensures n % TWO64 == n {}
  lemma ThereAndBack(w: Hashing.Word) ensures (w as nat) as Hashing.Word == w {}

  /** The parameters of a real initialisation: the seeded bucket hash, and a pool of `cap` records of
      `size` bytes from address `base` on, or no pool at all. */
  function Initialised(seed: Hashing.Word, base: nat, size: nat, cap: nat, pooled: bool): Params {
    Params((p: Ptr) => SeededBucket(p, seed), (i: nat) => base + i * size,
           if pooled then cap else 0, pooled)
  }

  /** Whatever the seed, they are parameters the invariant holds for. */
  lemma InitialisedOk(seed: Hashing.Word, base: nat, size: nat, cap: nat, pooled: bool)
    ensures ParamsOk(Initialised(seed, base, size, cap, pooled))
    ensures forall p: Ptr :: Initialised(seed, base, size, cap, pooled).bucketOf(p) == SeededBucket(p, seed)
    ensures Initialised(seed, base, size, cap, pooled).pooled == pooled
    ensures pooled ==> Initialised(seed, base, size, cap, pooled).cap == cap
  {}

  /** A slot is returned to the stripe that its own address hashes to: one of 64 by the seeded bucket hash. */
  lemma HomeOfSlot(seed: Hashing.Word, base: nat, size: nat, cap: nat, pooled: bool, i: nat)
    ensures HomeStripe(Initialised(seed, base, size, cap, pooled), i) == SeededBucket(base + i * size, seed) % 64
  {
    var c := Initialised(seed, base, size, cap, pooled);
    HomeIs(c, i, base + i * size, c.bucketOf(base + i * size));
  }

  lemma HomeIs(c: Params, i: nat, a: Ptr, b: nat)
    requires c.slotAddr(i) == a && c.bucketOf(a) == b
    ensures HomeStripe(c, i) == b % 64
  {}

  /** Slot i goes to the head of free list i % 64, for i = 0, 1, ... as initialisation and the fork
      child do. */
  function FreeLists(cap: nat): (f: seq<seq<nat>>)
    ensures |f| == STRIPES
  {
    if cap == 0 then seq(STRIPES, i => [])
    else
      var f := FreeLists(cap - 1);
      var j := (cap - 1) % STRIPES;
      f[j := [cap - 1] + f[j]]
  }

  /** A table just initialised, with `n` threads outside it. */
  ghost function Fresh(c: Params, n: nat): State {
    State(c, seq(n, t => Idle), seq(BUCKETS, b => []), FreeLists(c.cap),
          seq(STRIPES, l => None), seq(STRIPES, l => None), ZERO)
  }

  /** What the child of a fork starts from, whatever the parent's threads were doing: no other thread
      survives, every lock is new, every chain is emptied, and the whole pool is free again. */
  ghost function ForkChild(s: State): State { Fresh(s.c, |s.pcs|) }

  datatype Event = Take(t: nat, x: Choice) | Child(t: nat) | Reinit(c: Params)

  ghost predicate Next(s: State, e: Event, s': State) {
    match e
    case Take(t, x) => Step(s, t, x, s')
    case Child(t) => t < |s.pcs| && s.pcs[t] == Fork(Raw) && s' == ForkChild(s)
    case Reinit(c) => s == Fresh(s.c, |s.pcs|) && ParamsOk(c) && s' == Fresh(c, |s.pcs|)
  }

  ghost predicate Run(states: seq<State>, events: seq<Event>) {
    && |states| == |events| + 1
    && ParamsOk(states[0].c) && states[0] == Fresh(states[0].c, |states[0].pcs|)
    && forall i :: 0 <= i < |events| ==> Next(states[i], events[i], states[i + 1])
  }

  lemma {:induction false} FreeListsLaw(k: Law, cap: nat)
    ensures Sum(FreeWs(k, FreeLists(cap)))
         == match k case Slots(n) => Flag(n < cap) case Space => cap case Used => cap case _ => 0
  {
    var f := FreeLists(cap);
    if cap == 0 {
      SumConst(FreeWs(k, f), 0);
    } else {
      var g, j := FreeLists(cap - 1), (cap - 1) % STRIPES;
      FreeListsLaw(k, cap - 1);
      assert ([cap - 1] + g[j])[1..] == g[j];
      assert FreeWs(k, f) == FreeWs(k, g)[j := FreeW(k, f[j])];
      SumUpdate(FreeWs(k, g), j, FreeW(k, f[j]));
    }
  }

  lemma {:induction false} FreeListsOk(c: Params, cap: nat)
    requires c.pooled && cap <= c.cap
    ensures forall j: nat :: j < STRIPES ==> FreeOk(c, FreeLists(cap)[j])
  {
    if cap > 0 { FreeListsOk(c, cap - 1); }
  }

  /** Initialisation, and the reset in a fork child, establish the invariant. */
  lemma FreshInv(c: Params, n: nat)
    requires ParamsOk(c)
    ensures Inv(Fresh(c, n))
  {
    var s := Fresh(c, n);
    if c.pooled { FreeListsOk(c, c.cap); }
    forall k | LawApplies(k, c) ensures LawOk(k, s) {
      FreeListsLaw(k, c.cap);
      SumConst(ChainWs(k, s.chains), 0);
      SumConst(PcWs(k, s.pcs), 0);
    }
    SumConst(PassedWs(s.pcs), 0);
  }

  /** The invariant holds in every state of every run. */
  lemma {:induction false} RunInv(states: seq<State>, events: seq<Event>, i: nat)
    requires Run(states, events) && i < |states|
    ensures Inv(states[i])
  {
    if i == 0 {
      FreshInv(states[0].c, |states[0].pcs|);
    } else {
      RunInv(states, events, i - 1);
      assert Next(states[i - 1], events[i - 1], states[i]);
      match events[i - 1]
      case Take(t, x) => StepInv(states[i - 1], t, x, states[i]);
      case Child(t) => FreshInv(states[i - 1].c, |states[i - 1].pcs|);
      case Reinit(c) => FreshInv(c, |states[i - 1].pcs|);
    }
  }
}
