/** peak_bytes against the history of current_bytes. */
module TrackerPeak {
  import opened Tracker
  import opened TrackerLaws
  import opened TrackerInvariant
  import opened TrackerRuns
  import opened TrackerTheorems
  import opened Paths

  /** A run of one process: no fork is followed into its child. */
  ghost predicate OneProcess(states: seq<State>, events: seq<Event>) {
    Run(states, events) && forall i :: 0 <= i < |events| ==> events[i].Take?
  }

  ghost predicate OneBusy(s: State) {
    forall t, u :: 0 <= t < |s.pcs| && 0 <= u < |s.pcs| && s.pcs[t] != Idle && s.pcs[u] != Idle ==> t == u
  }

  /** The calls of different threads do not overlap. */
  ghost predicate Serialised(states: seq<State>) {
    forall i :: 0 <= i < |states| ==> OneBusy(states[i])
  }

  /** The largest value current_bytes has had up to state i. */
  ghost function High(states: seq<State>, i: nat): int
    requires i < |states|
  {
    if i == 0 then states[0].ctr.current
    else if High(states, i - 1) < states[i].ctr.current then states[i].ctr.current else High(states, i - 1)
  }

  /** What thread positions remember of current_bytes does not exceed `m`. */
  predicate Remembers(pc: Pc, m: int) { pc.Insert? && (pc.i.LoadPeak? || pc.i.Cas?) ==> pc.i.cur <= m }

  /** The thread will store `m` as the peak. */
  predicate WillStore(pc: Pc, current: int, m: int) {
    && pc.Insert?
    && (((pc.i.AddTotal? || pc.i.LoadCurrent?) && current == m) || ((pc.i.LoadPeak? || pc.i.Cas?) && pc.i.cur == m))
  }

  function Max(a: int, b: int): int { if a < b then b else a }

  lemma StepHigh(c: Params, t: nat, pc: Pc, v: View, x: Choice, m: int)
    requires Act(c, t, pc, v, x).Some? && !Clamps(pc) && v.ctr.current <= m && v.ctr.peak <= m && Remembers(pc, m)
    requires pc.Insert? && pc.i.Cas? ==> pc.i.seen <= v.ctr.peak
    ensures var (pc', v') := Act(c, t, pc, v, x).value; var m' := Max(m, v'.ctr.current);
            && v'.ctr.peak <= m' && Remembers(pc', m')
            && ((v.ctr.peak == m || WillStore(pc, v.ctr.current, m)) ==>
                  (v'.ctr.peak == m' || WillStore(pc', v'.ctr.current, m')))
  {}

  /** Neither the counters nor any thread's memory exceed `m`. */
  ghost predicate Below(s: State, m: int) {
    s.ctr.current <= m && s.ctr.peak <= m && forall t :: 0 <= t < |s.pcs| ==> Remembers(s.pcs[t], m)
  }

  lemma BelowStep(s: State, t: nat, x: Choice, s': State, m: int)
    requires Inv(s) && Step(s, t, x, s') && Below(s, m)
    ensures Below(s', Max(m, s'.ctr.current))
  {
    InvLocal(s, t, x, s');
    StepHigh(s.c, t, s.pcs[t], Get(s, FocusOf(s.c, s.pcs[t])), x, m);
    forall u | 0 <= u < |s'.pcs| ensures Remembers(s'.pcs[u], Max(m, s'.ctr.current)) {
      if u != t { assert s'.pcs[u] == s.pcs[u] && Remembers(s.pcs[u], m); }
    }
  }

  lemma StepRaises(c: Params, t: nat, pc: Pc, v: View, x: Choice)
    requires Act(c, t, pc, v, x).Some? && (pc.Insert? && pc.i.Cas? ==> pc.i.seen <= v.ctr.peak)
    ensures v.ctr.peak <= Act(c, t, pc, v, x).value.1.ctr.peak
  {}

  /** No step of any thread lowers the peak. */
  lemma PeakNeverFalls(s: State, t: nat, x: Choice, s': State)
    requires Inv(s) && Step(s, t, x, s')
    ensures s.ctr.peak <= s'.ctr.peak
  {
    InvLocal(s, t, x, s');
    StepRaises(s.c, t, s.pcs[t], Get(s, FocusOf(s.c, s.pcs[t])), x);
  }

  /** A step, with the maximum of current_bytes before it and after it. */
  ghost predicate HighStep(s: State, t: nat, x: Choice, s': State) { Inv(s) && Step(s, t, x, s') }

  ghost function HighSteps(): ((State, int), (State, int)) -> bool {
    (a: (State, int), b: (State, int)) => b.1 == Max(a.1, b.0.ctr.current) && exists t, x :: HighStep(a.0, t, x, b.0)
  }

  ghost function Highs(states: seq<State>): seq<(State, int)> {
    seq(|states|, j requires 0 <= j < |states| => (states[j], High(states, j)))
  }

  lemma OneProcessStep(states: seq<State>, events: seq<Event>, i: nat)
    requires OneProcess(states, events) && i < |events|
    ensures Inv(states[i]) && Step(states[i], events[i].t, events[i].x, states[i + 1])
  {
    RunInv(states, events, i);
    assert Next(states[i], events[i], states[i + 1]);
  }

  lemma HighStepsAll(states: seq<State>, events: seq<Event>)
    requires OneProcess(states, events)
    ensures forall j :: 0 <= j < |states| - 1 ==> HighSteps()(Highs(states)[j], Highs(states)[j + 1])
  {
    forall j | 0 <= j < |states| - 1 ensures HighSteps()(Highs(states)[j], Highs(states)[j + 1]) {
      OneProcessStep(states, events, j);
      assert HighStep(states[j], events[j].t, events[j].x, states[j + 1]);
    }
  }

  /** In every interleaving the peak is a bound that current_bytes really reached, never an invented
      one. */
  lemma PeakWasReached(states: seq<State>, events: seq<Event>, i: nat)
    requires OneProcess(states, events) && i < |states|
    ensures Below(states[i], High(states, i))
  {
    var p := (a: (State, int)) => Below(a.0, a.1);
    HighStepsAll(states, events);
    RunInv(states, events, 0);
    forall a, b | p(a) && HighSteps()(a, b) ensures p(b) {
      var t, x :| HighStep(a.0, t, x, b.0);
      BelowStep(a.0, t, x, b.0, a.1);
    }
    RunKeeps(HighSteps(), (a: (State, int)) => true, p, Highs(states), i);
  }

  /** A step of serialised calls, with the maximum of current_bytes before it and after it. */
  ghost function PeakSteps(): ((State, int), (State, int)) -> bool {
    (a: (State, int), b: (State, int)) =>
      b.1 == Max(a.1, b.0.ctr.current) && exists t, x :: PeakStep(a.0, t, x, b.0, a.1)
  }

  ghost predicate PeakStep(s: State, t: nat, x: Choice, s': State, m: int) {
    && Inv(s) && OneBusy(s) && Step(s, t, x, s') && OneBusy(s')
    && s.ctr.current <= m && s.ctr.peak <= m && Remembers(s.pcs[t], m)
  }

  lemma PeakStepAt(states: seq<State>, events: seq<Event>, i: nat)
    requires OneProcess(states, events) && Serialised(states) && i < |events|
    ensures PeakStep(states[i], events[i].t, events[i].x, states[i + 1], High(states, i))
    ensures High(states, i + 1) == Max(High(states, i), states[i + 1].ctr.current)
  {
    OneProcessStep(states, events, i);
    PeakWasReached(states, events, i);
  }

  lemma PeakStepsAll(states: seq<State>, events: seq<Event>)
    requires OneProcess(states, events) && Serialised(states)
    ensures forall j :: 0 <= j < |states| - 1 ==> PeakSteps()(Highs(states)[j], Highs(states)[j + 1])
  {
    forall j | 0 <= j < |states| - 1 ensures PeakSteps()(Highs(states)[j], Highs(states)[j + 1]) {
      PeakStepAt(states, events, j);
    }
  }

  /** When calls do not overlap, the peak is the historical maximum of current_bytes as soon as the
      call that reached it is past its compare-and-swap loop. */
  lemma SerialPeakStored(states: seq<State>, events: seq<Event>, i: nat)
    requires OneProcess(states, events) && Serialised(states) && i < |states|
    ensures StoredOrWill(states[i], High(states, i))
  {
    var p := (a: (State, int)) => StoredOrWill(a.0, a.1);
    PeakStepsAll(states, events);
    forall a, b | p(a) && PeakSteps()(a, b) ensures p(b) {
      var t, x :| PeakStep(a.0, t, x, b.0, a.1);
      SerialPeakStep(a.0, t, x, b.0, a.1);
    }
    RunKeeps(PeakSteps(), (a: (State, int)) => true, p, Highs(states), i);
  }

  ghost predicate StoredOrWill(s: State, m: int) {
    s.ctr.peak == m || exists t :: 0 <= t < |s.pcs| && WillStore(s.pcs[t], s.ctr.current, m)
  }

  lemma SerialPeakStep(s: State, t: nat, x: Choice, s': State, m: int)
    requires PeakStep(s, t, x, s', m) && StoredOrWill(s, m)
    ensures StoredOrWill(s', Max(m, s'.ctr.current))
  {
    InvLocal(s, t, x, s');
    StepHigh(s.c, t, s.pcs[t], Get(s, FocusOf(s.c, s.pcs[t])), x, m);
    var m' := Max(m, s'.ctr.current);
    if s.ctr.peak != m && !WillStore(s.pcs[t], s.ctr.current, m) {
      var u :| 0 <= u < |s.pcs| && WillStore(s.pcs[u], s.ctr.current, m);
      assert s.pcs[t] == Idle;
      assert WillStore(s'.pcs[u], s'.ctr.current, m');
    } else if s'.ctr.peak != m' {
      assert WillStore(s'.pcs[t], s'.ctr.current, m');
    }
  }

  /** For calls that do not overlap: between calls, peak_bytes is the historical maximum. */
  lemma SerialPeak(states: seq<State>, events: seq<Event>, i: nat)
    requires OneProcess(states, events) && Serialised(states) && i < |states| && AtRest(states[i])
    ensures states[i].ctr.peak == High(states, i)
  {
    SerialPeakStored(states, events, i);
  }
}
