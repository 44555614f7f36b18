/** An undisturbed fork: all bucket locks held at the fork itself, the parent's table as it was before the
    call, and the table a child starts from. */
module TrackerForkCall {
  import opened Sums
  import opened Paths
  import opened Tracker
  import opened TrackerSafety
  import opened TrackerInvariant
  import opened TrackerRuns
  import opened TrackerTheorems
  import opened TrackerCalls

  /** The state with the bucket locks from `lo` up to `hi` held by thread `t`, and no others. */
  function Locked(s: State, t: nat, lo: nat, hi: nat): State {
    s.(blocks := seq(64, l => if lo <= l < hi then Some(t) else None))
  }

  lemma LockNext(s: State, t: nat, i: nat, good: State -> bool)
    requires Closed(t, good) && Shape(s) && t < |s.pcs| && i < 64
    requires good(With(Locked(s, t, 0, i + 1), t, Fork(if i == 63 then Raw else Forking.Locking(i + 1))))
    ensures good(With(Locked(s, t, 0, i), t, Fork(Forking.Locking(i))))
  {
    var r, f := Locked(s, t, 0, i), Focus(0, i, 0);
    var v := Get(r, f).(block := Some(t));
    assert Updated(r, f, v) == Locked(s, t, 0, i + 1);
    SureStep(r, t, Fork(Forking.Locking(i)), Fork(if i == 63 then Raw else Forking.Locking(i + 1)), v, good);
  }

  lemma {:induction false} LocksAll(s: State, t: nat, i: nat, good: State -> bool)
    requires Closed(t, good) && Shape(s) && t < |s.pcs| && i < 64
    requires good(With(Locked(s, t, 0, 64), t, Fork(Raw)))
    ensures good(With(Locked(s, t, 0, i), t, Fork(Forking.Locking(i))))
    decreases 64 - i
  {
    if i < 63 { LocksAll(s, t, i + 1, good); }
    LockNext(s, t, i, good);
  }

  lemma UnlockNext(s: State, t: nat, i: nat, good: State -> bool)
    requires Closed(t, good) && Shape(s) && t < |s.pcs| && i < 64
    requires good(With(Locked(s, t, i + 1, 64), t, if i == 63 then Idle else Fork(Forking.Unlocking(i + 1))))
    ensures good(With(Locked(s, t, i, 64), t, Fork(Forking.Unlocking(i))))
  {
    var r, f := Locked(s, t, i, 64), Focus(0, i, 0);
    var v := Get(r, f).(block := None);
    assert Updated(r, f, v) == Locked(s, t, i + 1, 64);
    SureStep(r, t, Fork(Forking.Unlocking(i)), if i == 63 then Idle else Fork(Forking.Unlocking(i + 1)), v, good);
  }

  lemma {:induction false} UnlocksAll(s: State, t: nat, i: nat, good: State -> bool)
    requires Closed(t, good) && Shape(s) && t < |s.pcs| && i < 64
    requires good(With(Locked(s, t, 64, 64), t, Idle))
    ensures good(With(Locked(s, t, i, 64), t, Fork(Forking.Unlocking(i))))
    decreases 64 - i
  {
    if i < 63 { UnlocksAll(s, t, i + 1, good); }
    UnlockNext(s, t, i, good);
  }

  lemma ForkFrom(s: State, t: nat)
    requires Shape(s) && t < |s.pcs|
    ensures Returns(t, With(Locked(s, t, 0, 0), t, Begin(CallFork)), w => w == With(Locked(s, t, 0, 64), t, Fork(Raw)))
  {
    var done := With(Locked(s, t, 0, 64), t, Fork(Raw));
    var q := (w: State) => w == done;
    ComingClosed(Busy(t), Back(t), q);
    Halted(done, t, q);
    LocksAll(s, t, 0, Returning(t, q));
  }

  /** An undisturbed fork comes to the fork itself with all 64 bucket locks and nothing else changed. */
  lemma ForkCall(s: State, t: nat)
    requires Inv(s) && AtRest(s) && t < |s.pcs|
    ensures Returns(t, With(s, t, Begin(CallFork)), w => w == With(Locked(s, t, 0, 64), t, Fork(Raw)))
  {
    RestUnlocked(s);
    assert Locked(s, t, 0, 0) == s;
    ForkFrom(s, t);
  }

  /** After the fork the parent releases them all: the call has changed nothing. */
  lemma ForkParent(s: State, t: nat, x: Choice, s': State)
    requires Inv(s) && AtRest(s) && t < |s.pcs| && Step(With(Locked(s, t, 0, 64), t, Fork(Raw)), t, x, s')
    ensures Returns(t, s', w => w == s)
  {
    var q, f, r := (w: State) => w == s, Focus(0, 0, 0), Locked(s, t, 0, 64);
    RestUnlocked(s);
    ComingClosed(Busy(t), Back(t), q);
    assert With(s, t, Idle) == s;
    Returned(s, t, q);
    assert Locked(s, t, 64, 64) == s;
    UnlocksAll(s, t, 0, Returning(t, q));
    StepFrom(r, t, x, Fork(Raw), s');
    UpdatedTwice(r, f, Get(r, f), Get(r, f));
  }

  lemma {:induction false} OnHomeList(cap: nat, n: nat)
    requires n < cap
    ensures n in FreeLists(cap)[n % 64]
  {
    if n < cap - 1 { OnHomeList(cap - 1, n); }
  }

  /** The child has an empty table with all its counters at zero, no lock taken, and every slot of the
      pool on the free list of its number modulo 64. */
  lemma ChildStarts(s: State, t: nat, s': State)
    requires Inv(s) && Next(s, Event.Child(t), s')
    ensures AtRest(s') && |s'.chains| == 4096 && |s'.frees| == |s'.blocks| == |s'.plocks| == 64
    ensures forall b :: 0 <= b < 4096 ==> s'.chains[b] == []
    ensures forall l :: 0 <= l < 64 ==> s'.blocks[l] == None && s'.plocks[l] == None
    ensures s'.ctr == Counters(0, 0, 0, 0, 0, 0, 0, 0, 0) && s'.c == s.c && Linked(s') == 0
    ensures forall n: nat :: n < s.c.cap ==> n in s'.frees[n % 64]
  {
    SumConst(Lengths(s'), 0);
    forall n: nat | n < s.c.cap ensures n in s'.frees[n % 64] { OnHomeList(s.c.cap, n); }
  }
}
