/** Deadlock freedom: whenever some thread is inside the tracker, some such thread can take a step. */
module TrackerProgress {
  import opened Chains
  import opened Tracker
  import opened TrackerLaws
  import opened TrackerSafety
  import opened TrackerInvariant
  import opened TrackerRuns

  /** The next step waits for a bucket lock. */
  predicate WantsBlock(pc: Pc) {
    match pc
    case Insert(_, _, i) => i.Join?
    case Seek(_, _, locked) => !locked
    case Peek(_, _, locked) => !locked
    case Fork(f) => f.Locking?
    case Scan(l, rows, room, s) => s.Locking? && l < STRIPES && |rows| < room
    case _ => false
  }

  /** The next step waits for a pool lock; probing another stripe does not wait. */
  predicate WantsPool(c: Params, pc: Pc) {
    match pc
    case Make(_, _, _, m) => m.Start? && c.pooled
    case Give(_, _, g) => g.Want?
    case _ => false
  }

  lemma OnlyLocksBlock(c: Params, t: nat, pc: Pc, v: View, x: Choice)
    ensures Act(c, t, pc, v, x).None? <==> (WantsBlock(pc) && v.block.Some?) || (WantsPool(c, pc) && v.plock.Some?)
  {}

  /** The order of the locks: no thread waits for anything while it holds a pool lock, and a thread
      that waits for a bucket lock holds only bucket locks below it. */
  lemma LockOrder(c: Params, pc: Pc)
    requires ParamsOk(c) && PcOk(c, pc)
    ensures (exists j: nat :: HoldsPool(c, pc, j)) ==> !WantsBlock(pc) && !WantsPool(c, pc)
    ensures WantsBlock(pc) ==> forall l: nat :: l < STRIPES && HoldsBlock(c, pc, l) ==> l < FocusOf(c, pc).l
  {}

  /** Each thread outside fork holds at most one bucket lock, and every thread at most one pool lock. */
  lemma OneLockEach(c: Params, pc: Pc)
    ensures !pc.Fork? ==> forall l: nat, m: nat :: HoldsBlock(c, pc, l) && HoldsBlock(c, pc, m) ==> l == m
    ensures forall i: nat, j: nat :: HoldsPool(c, pc, i) && HoldsPool(c, pc, j) ==> i == j
  {}

  ghost predicate CanStep(s: State, t: nat, x: Choice)
    requires Shape(s)
  {
    t < |s.pcs| && FocusOk(FocusOf(s.c, s.pcs[t])) && Act(s.c, t, s.pcs[t], Get(s, FocusOf(s.c, s.pcs[t])), x).Some?
  }

  lemma Runner(s: State, t: nat, x: Choice) returns (u: nat)
    requires Inv(s) && t < |s.pcs| && s.pcs[t] != Idle
    ensures u < |s.pcs| && s.pcs[u] != Idle && CanStep(s, u, x)
  {
    var pc, f := s.pcs[t], FocusOf(s.c, s.pcs[t]);
    FocusInRange(s.c, pc);
    OnlyLocksBlock(s.c, t, pc, Get(s, f), x);
    if CanStep(s, t, x) {
      u := t;
    } else if WantsBlock(pc) && s.blocks[f.l].Some? {
      var h := s.blocks[f.l].value;
      assert HoldsBlock(s.c, s.pcs[h], f.l);
      u := Holder(s, h, x, f.l);
    } else {
      var h := s.plocks[f.j].value;
      assert HoldsPool(s.c, s.pcs[h], f.j);
      LockOrder(s.c, s.pcs[h]);
      OnlyLocksBlock(s.c, h, s.pcs[h], Get(s, FocusOf(s.c, s.pcs[h])), x);
      u := h;
    }
  }

  /** Follow the chain of lock holders from the holder of bucket lock `l` to one that can step. Bucket
      lock numbers go up along the chain, so it ends. */
  lemma {:induction false} Holder(s: State, h: nat, x: Choice, l: nat) returns (u: nat)
    requires Inv(s) && h < |s.pcs| && l < STRIPES && HoldsBlock(s.c, s.pcs[h], l)
    ensures u < |s.pcs| && s.pcs[u] != Idle && CanStep(s, u, x)
    decreases STRIPES - l
  {
    var pc, f := s.pcs[h], FocusOf(s.c, s.pcs[h]);
    FocusInRange(s.c, pc);
    OnlyLocksBlock(s.c, h, pc, Get(s, f), x);
    LockOrder(s.c, pc);
    if CanStep(s, h, x) {
      u := h;
    } else if WantsBlock(pc) && s.blocks[f.l].Some? {
      var g := s.blocks[f.l].value;
      assert HoldsBlock(s.c, s.pcs[g], f.l);
      u := Holder(s, g, x, f.l);
    } else {
      var g := s.plocks[f.j].value;
      assert HoldsPool(s.c, s.pcs[g], f.j);
      LockOrder(s.c, s.pcs[g]);
      OnlyLocksBlock(s.c, g, s.pcs[g], Get(s, FocusOf(s.c, s.pcs[g])), x);
      u := g;
    }
  }

  /** In every state with unfinished work, some unfinished thread can take a step. */
  lemma DeadlockFree(s: State, t: nat, x: Choice)
    requires Inv(s) && t < |s.pcs| && s.pcs[t] != Idle
    ensures exists u: nat, s' :: u < |s.pcs| && s.pcs[u] != Idle && Step(s, u, x, s')
  {
    var u := Runner(s, t, x);
    var f := FocusOf(s.c, s.pcs[u]);
    var r := Act(s.c, u, s.pcs[u], Get(s, f), x).value;
    assert Step(s, u, x, Put(s, f, u, r.0, r.1));
  }

  // ---- calls end ------------------------------------------------------------------------------------

  /** How many steps a thread that makes a record still takes at most until the record is filled in. */
  function MakingLeft(m: Making): nat {
    match m
    case Start => 324
    case Probe(i) => 4 + 5 * Short(i, 64)
    case Pop(i) => 3 + 5 * Short(i, 64)
    case CountUp(i, _) => 2 + 5 * Short(i, 64)
    case Unpool(i, _) => 1 + 5 * Short(i, 64)
    case Fill(_) => 0
  }

  function Short(i: nat, n: nat): nat { if i < n then n - i else 0 }

  function InsertLeft(i: Inserting): nat {
    match i
    case Join => 12
    case Check => 11
    case Refuse => 6
    case RefuseUnlock => 5
    case Number => 10
    case CountAlloc => 9
    case AddCurrent => 8
    case AddTotal => 7
    case LoadCurrent => 6
    case LoadPeak(_) => 5
    case Cas(_, _) => 4
    case Link => 3
    case CountLink => 2
  }

  function AskLeft(w: Origin): nat { if w.FromCopy? then 350 else 338 }

  function ThenLeft(k: Then): nat {
    match k
    case Done => 0
    case Install(_) => 12
    case Renew(_, _) => 338
    case Resize(_, _, _) => 350
  }

  function AfterLeft(a: After): nat { if a.Finish? then 0 else 1 + ThenLeft(a.k) }

  function GiveLeft(g: Giving): nat {
    match g
    case Want => 4
    case Push => 3
    case Release => 2
    case CountDown => 1
  }

  function RemoveLeft(r: Removing): nat {
    match r
    case Test => 10
    case Subtract => 9
    case Clamp => 9
    case CountFree => 8
    case Unlink => 7
    case CountUnlink => 6
  }

  function ForkLeft(f: Forking): nat {
    match f
    case Locking(i) => 67 + Short(i, 64)
    case Raw => 66
    case Unlocking(i) => 1 + Short(i, 64)
  }

  function ScanLeft(l: nat, s: Scanning): nat {
    match s
    case Locking => 2 + 4100 * Short(l, 64)
    case Bucket(b) => 4 + 4100 * Short(l, 63) + Short(b, 4096)
    case Unlocking => 3 + 4100 * Short(l, 63)
  }

  /** How many steps a thread takes at most until its call is over. */
  function Left(pc: Pc): nat {
    match pc
    case Idle => 0
    case Ask(_, _, w) => AskLeft(w)
    case Skip => 1
    case Make(_, _, w, m) => MakingLeft(m) + if w.FromCopy? then 25 else 13
    case Insert(_, _, i) => InsertLeft(i)
    case Unlock(_, k) => 1 + ThenLeft(k)
    case Give(_, a, g) => GiveLeft(g) + AfterLeft(a)
    case Seek(_, k, locked) => ThenLeft(k) + if locked then 11 else 12
    case Remove(_, k, r) => RemoveLeft(r) + ThenLeft(k)
    case Peek(_, _, locked) => if locked then 352 else 353
    case Fork(f) => ForkLeft(f)
    case ScanStart => 262403
    case Scan(l, _, _, s) => ScanLeft(l, s)
    case Report(_, _) => 1
  }

  /** A failed weak compare-and-swap: the peak has changed since it was read, or the failure is spurious. */
  predicate Retries(pc: Pc, v: View, x: Choice) {
    pc.Insert? && pc.i.Cas? && pc.i.cur > pc.i.seen && (v.ctr.peak != pc.i.seen || !x.ok)
  }

  ghost predicate Nearer(c: Params, t: nat, pc: Pc, v: View, x: Choice) {
    var r := Act(c, t, pc, v, x);
    r.Some? ==> if Retries(pc, v, x) then Left(r.value.0) == Left(pc) else Left(r.value.0) < Left(pc)
  }

  lemma MakeAdvances(c: Params, t: nat, pc: Pc, v: View, x: Choice)
    requires pc.Make?
    ensures Nearer(c, t, pc, v, x)
  {}

  lemma InsertAdvances(c: Params, t: nat, pc: Pc, v: View, x: Choice)
    requires pc.Insert?
    ensures Nearer(c, t, pc, v, x)
  {}

  lemma RemoveAdvances(c: Params, t: nat, pc: Pc, v: View, x: Choice)
    requires pc.Remove? || pc.Seek? || pc.Give? || pc.Peek? || pc.Unlock?
    ensures Nearer(c, t, pc, v, x)
  {}

  lemma ScanAdvances(c: Params, t: nat, pc: Pc, v: View, x: Choice)
    requires pc.Scan? || pc.Fork?
    ensures Nearer(c, t, pc, v, x)
  {}

  /** Every step of a thread inside the tracker brings its call nearer to its end, whatever the other
      threads do in between, except a failed compare-and-swap. */
  lemma StepAdvances(c: Params, t: nat, pc: Pc, v: View, x: Choice)
    requires pc != Idle && Act(c, t, pc, v, x).Some?
    ensures var pc' := Act(c, t, pc, v, x).value.0;
            if Retries(pc, v, x) then Left(pc') == Left(pc) else Left(pc') < Left(pc)
  {
    if pc.Make? { MakeAdvances(c, t, pc, v, x); }
    else if pc.Insert? { InsertAdvances(c, t, pc, v, x); }
    else if pc.Remove? || pc.Seek? || pc.Give? || pc.Peek? || pc.Unlock? { RemoveAdvances(c, t, pc, v, x); }
    else if pc.Scan? || pc.Fork? { ScanAdvances(c, t, pc, v, x); }
  }

  /** A call takes at most this many steps besides failed compare-and-swaps. */
  lemma CallLeft(op: Op)
    ensures Left(Begin(op)) <= match op
                               case CallFree(_) => 12
                               case CallMalloc(_, _) => 338
                               case CallRealloc(_, _) => 353
                               case CallCopyRealloc(_, _, _) => 349
                               case CallFork => 131
                               case CallScan => 262403
                               case Pass => 0
  {}

  /** The steps that thread `u` takes along a run, failed compare-and-swaps aside. */
  ghost function Taken(states: seq<State>, events: seq<Event>, u: nat): nat
    requires |states| == |events| + 1
    decreases |events|
  {
    if events == [] then 0
    else
      var n := |events| - 1;
      Taken(states[..n + 1], events[..n], u) + if Advances(states[n], events[n], u) then 1 else 0
  }

  ghost predicate Advances(s: State, e: Event, u: nat) {
    && e.Take? && e.t == u && Shape(s) && u < |s.pcs| && FocusOk(FocusOf(s.c, s.pcs[u]))
    && !Retries(s.pcs[u], Get(s, FocusOf(s.c, s.pcs[u])), e.x)
  }

  lemma NextAdvances(s: State, e: Event, s': State, u: nat)
    requires e.Take? && Next(s, e, s') && u < |s.pcs| && s.pcs[u] != Idle
    ensures u < |s'.pcs| && Left(s'.pcs[u]) + (if Advances(s, e, u) then 1 else 0) <= Left(s.pcs[u])
  {
    if e.t == u { StepAdvances(s.c, u, s.pcs[u], Get(s, FocusOf(s.c, s.pcs[u])), e.x); }
  }

  /** So along every run in which a thread stays inside a call it takes no more steps than `Left` says,
      failed compare-and-swaps aside: no interleaving keeps a call going for ever. */
  lemma {:induction false} CallsEnd(states: seq<State>, events: seq<Event>, u: nat)
    requires |states| == |events| + 1 && u < |states[0].pcs|
    requires forall i :: 0 <= i < |events| ==> events[i].Take? && Next(states[i], events[i], states[i + 1])
    requires forall i :: 0 <= i < |events| ==> u < |states[i].pcs| && states[i].pcs[u] != Idle
    ensures u < |states[|events|].pcs| && Taken(states, events, u) + Left(states[|events|].pcs[u]) <= Left(states[0].pcs[u])
    decreases |events|
  {
    if events != [] {
      var n := |events| - 1;
      CallsEnd(states[..n + 1], events[..n], u);
      NextAdvances(states[n], events[n], states[n + 1], u);
    }
  }
}
