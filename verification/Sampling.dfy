/** Which requests are tracked: large ones always, small ones by an accumulator of bytes or by counting. */
module Sampling {

  const BIG: nat := 0x10_0000
  const EXEMPT: nat := 1024

  function Pow2(n: nat): (r: nat)
    ensures r > 0
  {
    if n == 0 then 1 else 2 * Pow2(n - 1)
  }

  datatype Sampled = Sampled(rate: nat, period: nat, accum: nat, counter: nat, skipped: nat)

  /** The decision for one request, and the sampler after it. */
  function Decide(s: Sampled, size: nat): (Sampled, bool) {
    if size >= EXEMPT then (s, true)
    else if s.rate > 0 then
      if s.accum + size >= Pow2(s.rate) then (s.(accum := s.accum + size - Pow2(s.rate)), true)
      else (s.(accum := s.accum + size, skipped := s.skipped + 1), false)
    else if s.period == 0 then (s, true)
    else (s.(counter := s.counter + 1, skipped := if s.counter % s.period == 0 then s.skipped else s.skipped + 1),
          s.counter % s.period == 0)
  }

  class Sampler {
    var rate: nat
    var period: nat
    var accum: nat
    var counter: nat
    var skipped: nat

    ghost function Value(): Sampled
      reads this
    {
      Sampled(rate, period, accum, counter, skipped)
    }

    /** 2^rate, computed by the shift the program writes. */
    method Step() returns (step: nat)
      ensures step == Pow2(rate)
    {
      step := 1;
      for i := 0 to rate
        invariant step == Pow2(i)
      {
        step := 2 * step;
      }
    }

    /** mtt_should_track, with its fetch_add and fetch_sub taken together. */
    method ShouldTrack(size: nat) returns (track: bool)
      modifies this
      ensures (Value(), track) == Decide(old(Value()), size)
      // Requests from 1 KB on, and all requests when no mode is set, are tracked and leave the sampler alone.
      ensures size >= 1024 || (old(rate) == 0 && old(period) == 0) ==> track && Value() == old(Value())
      // Byte mode tracks the small request that brings the accumulator to 2^rate, and takes 2^rate out.
      ensures size < 1024 && old(rate) > 0 ==>
        && (track <==> old(accum) + size >= Pow2(old(rate)))
        && accum == old(accum) + size - (if track then Pow2(old(rate)) else 0) && counter == old(counter)
      // Count mode tracks one small request in `period`, the first one included.
      ensures size < 1024 && old(rate) == 0 && old(period) > 0 ==>
        && (track <==> old(counter) % old(period) == 0) && counter == old(counter) + 1 && accum == old(accum)
      ensures skipped == old(skipped) + (if track then 0 else 1) && rate == old(rate) && period == old(period)
    {
      if size >= BIG { return true; }
      if size >= EXEMPT { return true; }
      if rate > 0 {
        var step := Step();
        var prior := accum;
        accum := accum + size;
        if prior + size >= step {
          accum := accum - step;
          return true;
        }
        skipped := skipped + 1;
        return false;
      }
      if period == 0 { return true; }
      var k := counter;
      counter := counter + 1;
      if k % period == 0 { return true; }
      skipped := skipped + 1;
      return false;
    }
  }

  /** A run of requests: the sampler after it, and how many of its small requests were tracked. */
  function Run(s: Sampled, sizes: seq<nat>): (Sampled, nat) {
    if sizes == [] then (s, 0)
    else
      var (u, n) := Run(s, sizes[..|sizes| - 1]);
      var z := sizes[|sizes| - 1];
      var (v, track) := Decide(u, z);
      (v, if track && z < EXEMPT then n + 1 else n)
  }

  function SmallBytes(sizes: seq<nat>): nat {
    if sizes == [] then 0
    else SmallBytes(sizes[..|sizes| - 1]) + (var z := sizes[|sizes| - 1]; if z < EXEMPT then z else 0)
  }

  function Smalls(sizes: seq<nat>): nat {
    if sizes == [] then 0
    else Smalls(sizes[..|sizes| - 1]) + if sizes[|sizes| - 1] < EXEMPT then 1 else 0
  }

  /** Every small request is tracked or counted as skipped, never both; the mode does not change. */
  lemma {:induction false} EveryRequestCounted(s: Sampled, sizes: seq<nat>)
    ensures var (u, n) := Run(s, sizes);
            n + (u.skipped - s.skipped) == Smalls(sizes) && u.rate == s.rate && u.period == s.period
  {
    if sizes != [] { EveryRequestCounted(s, sizes[..|sizes| - 1]); }
  }

  /** The small requests of a run. */
  function OnlySmall(sizes: seq<nat>): seq<nat> {
    if sizes == [] then []
    else
      var front, z := OnlySmall(sizes[..|sizes| - 1]), sizes[|sizes| - 1];
      if z < 1024 then front + [z] else front
  }

  /** How many requests of a run are tracked, large ones included. */
  function Tracked(s: Sampled, sizes: seq<nat>): nat {
    if sizes == [] then 0
    else
      var front := sizes[..|sizes| - 1];
      Tracked(s, front) + if Decide(Run(s, front).0, sizes[|sizes| - 1]).1 then 1 else 0
  }

  /** Large requests have no influence on which small ones are tracked: the run without them is the same. */
  lemma {:induction false} LargeUnsampled(s: Sampled, sizes: seq<nat>)
    ensures Run(s, sizes) == Run(s, OnlySmall(sizes)) && Smalls(sizes) == |OnlySmall(sizes)|
  {
    if sizes != [] {
      var front, z := sizes[..|sizes| - 1], sizes[|sizes| - 1];
      LargeUnsampled(s, front);
      if z < 1024 { assert (OnlySmall(front) + [z])[..|OnlySmall(front)|] == OnlySmall(front); }
    }
  }

  /** Every large request is tracked. */
  lemma {:induction false} LargeAllTracked(s: Sampled, sizes: seq<nat>)
    ensures Tracked(s, sizes) == Run(s, sizes).1 + (|sizes| - |OnlySmall(sizes)|)
  {
    if sizes != [] { LargeAllTracked(s, sizes[..|sizes| - 1]); }
  }

  /** With neither mode set every request is tracked and nothing is counted. */
  lemma {:induction false} TracksAll(s: Sampled, sizes: seq<nat>)
    requires s.rate == 0 && s.period == 0
    ensures Tracked(s, sizes) == |sizes| && Run(s, sizes).0 == s
  {
    if sizes != [] { TracksAll(s, sizes[..|sizes| - 1]); }
  }

  lemma OnceMore(step: nat, n: nat)
    ensures step * (n + 1) == step * n + step
  {}

  /** Byte mode: no byte is lost. What the tracked requests took out of the accumulator and what is
      left in it is what the small requests put in, for any rate and whatever large ones come between. */
  lemma {:induction false} BytesConserved(s: Sampled, sizes: seq<nat>)
    requires s.rate > 0
    ensures var (u, n) := Run(s, sizes);
            u.rate == s.rate && Pow2(s.rate) * n + u.accum == s.accum + SmallBytes(sizes)
  {
    if sizes != [] {
      var front := sizes[..|sizes| - 1];
      BytesConserved(s, front);
      OnceMore(Pow2(s.rate), Run(s, front).1);
    }
  }

  lemma PowerCovers(n: nat)
    requires n >= 10
    ensures Pow2(n) >= EXEMPT
  {
    if n > 10 {
      PowerCovers(n - 1);
    } else {
      assert Pow2(10) == 4 * Pow2(8) && Pow2(8) == 16 * Pow2(4);
    }
  }

  lemma {:induction false} AccumBelowStep(s: Sampled, sizes: seq<nat>)
    requires s.rate >= 10 && s.accum < Pow2(s.rate)
    ensures Run(s, sizes).0.accum < Pow2(s.rate) && Run(s, sizes).0.rate == s.rate
  {
    PowerCovers(s.rate);
    if sizes != [] { AccumBelowStep(s, sizes[..|sizes| - 1]); }
  }

  lemma AtLeastOnce(step: nat, d: nat)
    requires d > 0
    ensures step * d >= step
  {
    assert step * d == step * (d - 1) + step;
  }

  lemma NoMultipleBetween(step: int, d: int)
    requires step > 0 && -step < step * d && step * d < step
    ensures d == 0
  {
    if d > 0 { AtLeastOnce(step, d); }
  }

  lemma Quotient(step: nat, n: nat, rest: nat, total: nat)
    requires step > 0 && step * n + rest == total
    ensures n == total / step <==> rest < step
  {
    var q := total / step;
    assert total == step * q + total % step;
    if rest < step {
      assert step * (q - n) == rest - total % step;
      NoMultipleBetween(step, q - n);
    }
  }

  /** The number of tracked small requests is the floor of the small bytes over 2^rate exactly when
      the accumulator has ended below 2^rate ... */
  lemma TrackedIsFloorIff(s: Sampled, sizes: seq<nat>)
    requires s.rate > 0 && s.accum == 0
    ensures var (u, n) := Run(s, sizes); n == SmallBytes(sizes) / Pow2(s.rate) <==> u.accum < Pow2(s.rate)
  {
    BytesConserved(s, sizes);
    var (u, n) := Run(s, sizes);
    Quotient(Pow2(s.rate), n, u.accum, SmallBytes(sizes));
  }

  /** ... which from rate 10 on is always ... */
  lemma TrackedIsFloor(s: Sampled, sizes: seq<nat>)
    requires s.rate >= 10 && s.accum == 0
    ensures Run(s, sizes).1 == SmallBytes(sizes) / Pow2(s.rate)
  {
    TrackedIsFloorIff(s, sizes);
    AccumBelowStep(s, sizes);
  }

  lemma RunSnoc(s: Sampled, sizes: seq<nat>, z: nat)
    ensures var (u, n) := Run(s, sizes); var (v, track) := Decide(u, z);
            Run(s, sizes + [z]) == (v, if track && z < EXEMPT then n + 1 else n)
    ensures SmallBytes(sizes + [z]) == SmallBytes(sizes) + if z < EXEMPT then z else 0
  {
    assert (sizes + [z])[..|sizes|] == sizes;
  }

  lemma PowerSmall(rate: nat)
    requires rate < 10
    ensures Pow2(rate) <= 512
    decreases 10 - rate
  {
    if rate < 9 {
      PowerSmall(rate + 1);
    } else {
      assert Pow2(9) == 2 * Pow2(8) && Pow2(8) == 16 * Pow2(4);
    }
  }

  lemma ManySteps(step: nat)
    requires 0 < step <= 512
    ensures 2046 / step > 2
  {
  }

  /** ... and below 10 is not: a request may be worth several steps but takes out only one, so that two
      maximal small requests already fall short. */
  lemma TrackedBelowFloor(rate: nat)
    requires 0 < rate < 10
    ensures Run(Sampled(rate, 0, 0, 0, 0), [1023, 1023]).1 < SmallBytes([1023, 1023]) / Pow2(rate)
  {
    var s, step := Sampled(rate, 0, 0, 0, 0), Pow2(rate);
    PowerSmall(rate);
    RunSnoc(s, [], 1023);
    RunSnoc(s, [1023], 1023);
    assert [] + [1023] == [1023] && [1023] + [1023] == [1023, 1023];
    ManySteps(step);
  }

  /** So the advertised average of one tracked request in 2^rate small bytes holds of every run exactly
      for the rates whose step no small request can exceed. */
  lemma FloorIffRate(rate: nat)
    requires rate > 0
    ensures rate >= 10 <==>
      forall sizes :: Run(Sampled(rate, 0, 0, 0, 0), sizes).1 == SmallBytes(sizes) / Pow2(rate)
  {
    var s := Sampled(rate, 0, 0, 0, 0);
    if rate >= 10 {
      forall sizes ensures Run(s, sizes).1 == SmallBytes(sizes) / Pow2(rate) { TrackedIsFloor(s, sizes); }
    } else {
      TrackedBelowFloor(rate);
    }
  }

  lemma {:induction false} CounterCounts(s: Sampled, sizes: seq<nat>)
    requires s.rate == 0 && s.period > 0
    ensures var (u, n) := Run(s, sizes); u.rate == 0 && u.period == s.period && u.counter == s.counter + Smalls(sizes)
  {
    if sizes != [] { CounterCounts(s, sizes[..|sizes| - 1]); }
  }

  /** Count mode: of n small requests exactly n / period, rounded up, are tracked. */
  lemma {:induction false} TrackedIsCeiling(s: Sampled, sizes: seq<nat>)
    requires s.rate == 0 && s.period > 0 && s.counter == 0
    ensures Run(s, sizes).1 == (Smalls(sizes) + s.period - 1) / s.period
  {
    CounterCounts(s, sizes);
    if sizes == [] {
      assert (s.period - 1) / s.period == 0;
    } else {
      var front := sizes[..|sizes| - 1];
      TrackedIsCeiling(s, front);
      CounterCounts(s, front);
      CeilingStep(Smalls(front), s.period);
    }
  }

  lemma CeilingStep(n: nat, p: nat)
    requires p > 0
    ensures (n + 1 + p - 1) / p == (n + p - 1) / p + if n % p == 0 then 1 else 0
  {
    var q, r := n / p, n % p;
    assert n == p * q + r;
    Quotient(p, q + 1, r, n + p);
    if r == 0 { Quotient(p, q, p - 1, n + p - 1); } else { Quotient(p, q + 1, r - 1, n + p - 1); }
  }

  /** Byte mode with the two atomics apart: a thread adds its bytes, and if the sum it saw reached the
      step it owes a subtraction, which it makes later. `taken` counts the subtractions made. */
  datatype Racing = Racing(accum: int, owing: nat, taken: nat, bytes: nat)

  datatype Atomic = FetchAdd(size: nat) | FetchSub

  function Race(r: Racing, step: nat, a: Atomic): Racing {
    match a
    case FetchAdd(z) =>
      r.(accum := r.accum + z, bytes := r.bytes + z, owing := if r.accum + z >= step then r.owing + 1 else r.owing)
    case FetchSub =>
      if r.owing > 0 then r.(accum := r.accum - step, taken := r.taken + 1, owing := r.owing - 1) else r
  }

  function Raced(r: Racing, step: nat, run: seq<Atomic>): Racing {
    if run == [] then r else Race(Raced(r, step, run[..|run| - 1]), step, run[|run| - 1])
  }

  /** One call made alone is one decision: it adds, and then subtracts what it owes. */
  lemma AloneIsDecide(s: Sampled, size: nat, r: Racing)
    requires s.rate > 0 && size < 1024 && r.accum == s.accum && r.owing == 0
    ensures var (u, track) := Decide(s, size);
            var added := Race(r, Pow2(s.rate), FetchAdd(size));
            var done := Race(added, Pow2(s.rate), FetchSub);
            && added.owing == (if track then 1 else 0) && done.owing == 0 && done.accum == u.accum
            && done.taken == r.taken + added.owing && done.bytes == r.bytes + size
  {}

  const QUIET := Racing(0, 0, 0, 0)

  /** The byte law survives every interleaving ... */
  lemma {:induction false} RaceConserves(step: nat, run: seq<Atomic>)
    ensures var r := Raced(QUIET, step, run); step * r.taken + r.accum == r.bytes
  {
    if run != [] {
      var r := Raced(QUIET, step, run[..|run| - 1]);
      RaceConserves(step, run[..|run| - 1]);
      OnceMore(step, r.taken);
    }
  }

  /** At every moment of the run at most `k` threads owe a subtraction. */
  ghost predicate OwesAtMost(step: nat, run: seq<Atomic>, k: nat) {
    forall i :: 0 <= i <= |run| ==> Raced(QUIET, step, run[..i]).owing <= k
  }

  /** Every request in the run is one that byte mode samples. */
  ghost predicate AllSmall(run: seq<Atomic>) {
    forall i :: 0 <= i < |run| && run[i].FetchAdd? ==> run[i].size < EXEMPT
  }

  lemma OwesPrefix(step: nat, run: seq<Atomic>, k: nat)
    requires OwesAtMost(step, run, k) && run != []
    ensures OwesAtMost(step, run[..|run| - 1], k) && Raced(QUIET, step, run).owing <= k
  {
    var front := run[..|run| - 1];
    assert run[..|run|] == run;
    forall i | 0 <= i <= |front| ensures Raced(QUIET, step, front[..i]).owing <= k { assert front[..i] == run[..i]; }
  }

  /** As long as at most one thread owes at a time, the accumulator covers what is owed ... */
  lemma {:induction false} OneOwesNeverUnderflows(step: nat, run: seq<Atomic>)
    requires OwesAtMost(step, run, 1)
    ensures var r := Raced(QUIET, step, run); r.owing <= 1 && r.accum >= r.owing * step
  {
    if run != [] {
      OwesPrefix(step, run, 1);
      OneOwesNeverUnderflows(step, run[..|run| - 1]);
    }
  }

  /** `n` requests of one byte each. */
  function Ones(n: nat): seq<Atomic> { seq(n, i => FetchAdd(1)) }

  lemma {:induction false} OnesAdd(step: nat, n: nat)
    requires step > 1 && n <= step + 1
    ensures Raced(QUIET, step, Ones(n)) == Racing(n, if n < step then 0 else n + 1 - step, 0, n)
  {
    if n > 0 {
      OnesAdd(step, n - 1);
      assert Ones(n)[..n - 1] == Ones(n - 1);
    }
  }

  /** One-byte requests up to the threshold and one beyond it, and only then the two subtractions. */
  function Overlap(step: nat): seq<Atomic> { Ones(step + 1) + [FetchSub, FetchSub] }

  /** Two threads that both cross the threshold before either subtracts take the accumulator below
      zero, where the program's unsigned variable wraps around. */
  lemma OverlapUnderflows(step: nat)
    requires step > 1
    ensures AllSmall(Overlap(step)) && OwesAtMost(step, Overlap(step), 2)
    ensures Raced(QUIET, step, Overlap(step)).accum == 1 - step
  {
    var run, n := Overlap(step), step + 1;
    assert run[..n] == Ones(n) && run[..n + 1][..n] == Ones(n) && run[..n + 2] == run && run[..n + 2][..n + 1] == run[..n + 1];
    OnesAdd(step, n);
    assert Raced(QUIET, step, run[..n + 1]) == Racing(1, 1, 1, n);
    forall i | 0 <= i <= |run| ensures Raced(QUIET, step, run[..i]).owing <= 2 {
      if i <= n {
        assert run[..i] == Ones(i);
        OnesAdd(step, i);
      }
    }
  }

  /** ... and exactly then: of the bounds `k` on how many threads owe at once, those that keep the
      accumulator from wrapping in every run are 0 and 1. */
  lemma NeverUnderflowsIff(step: nat, k: nat)
    requires step > 1
    ensures k <= 1 <==>
      forall run :: AllSmall(run) && OwesAtMost(step, run, k) ==> Raced(QUIET, step, run).accum >= 0
  {
    if k <= 1 {
      forall run | AllSmall(run) && OwesAtMost(step, run, k) ensures Raced(QUIET, step, run).accum >= 0 {
        OneOwesNeverUnderflows(step, run);
      }
    } else {
      OverlapUnderflows(step);
      assert OwesAtMost(step, Overlap(step), k);
    }
  }

  /** No thread adds while another one owes: the calls are serialised. */
  ghost predicate Serial(step: nat, run: seq<Atomic>) {
    forall i :: 0 <= i < |run| && run[i].FetchAdd? ==> Raced(QUIET, step, run[..i]).owing == 0
  }

  lemma {:induction false} SerialOwesOne(step: nat, run: seq<Atomic>)
    requires Serial(step, run)
    ensures OwesAtMost(step, run, 1)
  {
    if run != [] {
      var n := |run| - 1;
      var front := run[..n];
      assert forall i :: 0 <= i <= n ==> front[..i] == run[..i];
      assert run[..n + 1] == run;
      SerialOwesOne(step, front);
    }
  }

  /** An addition while one thread owes makes another one owe. */
  lemma AddsUnowed(step: nat, run: seq<Atomic>, size: nat)
    requires OwesAtMost(step, run, 1) && Raced(QUIET, step, run + [FetchAdd(size)]).owing <= 1 && step > 0
    ensures Raced(QUIET, step, run).owing == 0
  {
    OneOwesNeverUnderflows(step, run);
    assert (run + [FetchAdd(size)])[..|run|] == run;
  }

  /** Serialised runs are the runs in which at most one thread owes at a time: a second addition over a
      sum that has reached the step owes as well. */
  lemma SerialIffOneOwes(step: nat, run: seq<Atomic>)
    requires step > 0
    ensures Serial(step, run) <==> OwesAtMost(step, run, 1)
  {
    if Serial(step, run) { SerialOwesOne(step, run); }
    if OwesAtMost(step, run, 1) {
      forall i | 0 <= i < |run| && run[i].FetchAdd? ensures Raced(QUIET, step, run[..i]).owing == 0 {
        assert forall j :: 0 <= j <= i ==> run[..i][..j] == run[..j];
        assert run[..i + 1] == run[..i] + [FetchAdd(run[i].size)];
        AddsUnowed(step, run[..i], run[i].size);
      }
    }
  }

  /** So serialised calls keep the accumulator at or above zero. */
  lemma SerialNeverUnderflows(step: nat, run: seq<Atomic>)
    requires Serial(step, run)
    ensures var r := Raced(QUIET, step, run); r.owing <= 1 && r.accum >= r.owing * step
  {
    SerialOwesOne(step, run);
    OneOwesNeverUnderflows(step, run);
  }

  /** Two threads at the threshold of rate 10. */
  lemma RaceUnderflows()
    ensures Raced(QUIET, Pow2(10), Overlap(Pow2(10))).accum == -1023
  {
    assert Pow2(10) == 4 * Pow2(8) && Pow2(8) == 16 * Pow2(4);
    OverlapUnderflows(Pow2(10));
  }
}
