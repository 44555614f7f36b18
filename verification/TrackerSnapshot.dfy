/** The report scan against concurrent mallocs and frees. */
module TrackerSnapshot {
  import opened Sums
  import opened Chains
  import opened Tracker
  import opened TrackerLaws
  import opened TrackerSafety
  import opened TrackerInvariant
  import opened TrackerRuns
  import opened TrackerTheorems
  import opened Paths

  predicate InScan(pc: Pc) { pc.Scan? || pc.Report? }

  /** The buckets a scan has finished with. */
  predicate Visited(pc: Pc, b: nat)
    requires InScan(pc)
  {
    match pc
    case Scan(l, _, _, s) =>
      b % STRIPES < l || (b % STRIPES == l && (s.Unlocking? || (s.Bucket? && b < s.b)))
    case Report(_, _) => true
    case _ => false
  }

  /** Thread `u` scans from the first state on, while every thread takes steps. */
  ghost predicate ScanWindow(states: seq<State>, events: seq<Event>, u: nat, room: nat) {
    && |states| == |events| + 1 && Inv(states[0])
    && (forall i :: 0 <= i < |events| ==> events[i].Take? && Next(states[i], events[i], states[i + 1]))
    && u < |states[0].pcs| && states[0].pcs[u] == Scan(0, [], room, Scanning.Locking)
    && (forall i :: 0 <= i < |states| ==> u < |states[i].pcs| && InScan(states[i].pcs[u]))
  }

  /** What a window says about its i-th step. */
  lemma WindowAt(states: seq<State>, events: seq<Event>, u: nat, room: nat, i: nat)
    requires ScanWindow(states, events, u, room) && i < |events|
    ensures events[i].Take? && Step(states[i], events[i].t, events[i].x, states[i + 1])
    ensures u < |states[i].pcs| && InScan(states[i].pcs[u]) && u < |states[i + 1].pcs| && InScan(states[i + 1].pcs[u])
  {
    assert Next(states[i], events[i], states[i + 1]);
  }

  lemma StepKeepsRoom(s: State, t: nat, x: Choice, s': State, u: nat)
    requires Inv(s) && Step(s, t, x, s') && u < |s.pcs| && InScan(s.pcs[u]) && InScan(s'.pcs[u])
    ensures s'.c == s.c && s'.pcs[u].room == s.pcs[u].room
  {
    if t == u {
      InvLocal(s, t, x, s');
      StepScan(s.c, t, s.pcs[t], Get(s, FocusOf(s.c, s.pcs[t])), x);
    }
  }

  lemma StepKeepsScan(s: State, t: nat, x: Choice, s': State, u: nat)
    requires Inv(s) && Step(s, t, x, s') && u < |s.pcs| && InScan(s.pcs[u]) && InScan(s'.pcs[u])
    ensures Inv(s') && s'.c == s.c && s'.pcs[u].room == s.pcs[u].room
  {
    StepInv(s, t, x, s');
    StepKeepsRoom(s, t, x, s', u);
  }

  lemma WindowNext(states: seq<State>, events: seq<Event>, u: nat, room: nat, i: nat)
    requires ScanWindow(states, events, u, room) && i < |events| && Inv(states[i])
    ensures Inv(states[i + 1]) && states[i + 1].c == states[i].c && states[i + 1].pcs[u].room == states[i].pcs[u].room
  {
    WindowAt(states, events, u, room, i);
    StepKeepsScan(states[i], events[i].t, events[i].x, states[i + 1], u);
  }

  lemma {:induction false} WindowInv(states: seq<State>, events: seq<Event>, u: nat, room: nat, i: nat)
    requires ScanWindow(states, events, u, room) && i < |states|
    ensures Inv(states[i]) && states[i].c == states[0].c && states[i].pcs[u].room == room
  {
    if i > 0 {
      WindowInv(states, events, u, room, i - 1);
      WindowNext(states, events, u, room, i - 1);
    }
  }

  /** A step within a window, while the scan stays in progress. */
  ghost predicate ScanStep(s: State, t: nat, x: Choice, s': State, u: nat) {
    Inv(s) && Step(s, t, x, s') && u < |s.pcs| && u < |s'.pcs| && InScan(s.pcs[u]) && InScan(s'.pcs[u])
  }

  lemma WindowStep(states: seq<State>, events: seq<Event>, u: nat, room: nat, i: nat)
    requires ScanWindow(states, events, u, room) && i < |events|
    ensures ScanStep(states[i], events[i].t, events[i].x, states[i + 1], u)
  {
    WindowInv(states, events, u, room, i);
    WindowAt(states, events, u, room, i);
  }

  ghost function ScanSteps(u: nat): (State, State) -> bool { (s, s') => exists t, x :: ScanStep(s, t, x, s', u) }

  /** What holds at the start and is kept by every such step from a state with `h` holds throughout. */
  lemma WindowKeeps(states: seq<State>, events: seq<Event>, u: nat, room: nat, h: State -> bool, p: State -> bool, i: nat)
    requires ScanWindow(states, events, u, room) && i < |states|
    requires p(states[0]) && forall j :: 0 <= j < |states| ==> h(states[j])
    requires forall s, t, x, s' :: ScanStep(s, t, x, s', u) && h(s) && p(s) ==> p(s')
    ensures p(states[i])
  {
    forall j | 0 <= j < |states| - 1 ensures ScanSteps(u)(states[j], states[j + 1]) { WindowStep(states, events, u, room, j); }
    RunKeeps(ScanSteps(u), h, p, states, i);
  }

  // ---- what one step of the scan does -----------------------------------------------------------------

  predicate Copies(pc: Pc) { pc.Scan? && pc.s.Bucket? && pc.s.b < BUCKETS && |pc.rows| < pc.room }

  /** A step of the scan either copies one bucket, which it then counts as visited, or copies nothing
      and, unless the room is used up, visits nothing. */
  lemma StepScan(c: Params, t: nat, pc: Pc, v: View, x: Choice)
    requires InScan(pc) && PcOk(c, pc) && Act(c, t, pc, v, x).Some? && InScan(Act(c, t, pc, v, x).value.0)
    ensures var pc' := Act(c, t, pc, v, x).value.0;
            && pc'.room == pc.room
            && (Copies(pc) ==> pc.s.b == FocusOf(c, pc).b && !Visited(pc, pc.s.b) && HoldsBlock(c, pc, pc.s.b % STRIPES)
                               && pc'.rows == pc.rows + Fitting(v.chain, pc.room - |pc.rows|))
            && (!Copies(pc) ==> pc'.rows == pc.rows)
  {}

  lemma StepVisits(c: Params, t: nat, pc: Pc, v: View, x: Choice, b: nat)
    requires InScan(pc) && PcOk(c, pc) && Act(c, t, pc, v, x).Some? && InScan(Act(c, t, pc, v, x).value.0)
    requires b < BUCKETS
    ensures var pc' := Act(c, t, pc, v, x).value.0;
            && (Visited(pc, b) ==> Visited(pc', b))
            && (Copies(pc) ==> (Visited(pc', b) <==> Visited(pc, b) || b == pc.s.b))
            && (!Copies(pc) && |pc.rows| < pc.room ==> (Visited(pc', b) <==> Visited(pc, b)))
  {}

  // ---- an entry linked for the whole scan ----------------------------------------------------------------

  ghost predicate LinkedThroughout(states: seq<State>, e: Entry) {
    forall i :: 0 <= i < |states| ==> Shape(states[i]) && e in states[i].chains[states[i].c.bucketOf(e.ptr)]
  }

  lemma {:induction false} CopiesInChain(chain: seq<Entry>, e: Entry)
    ensures multiset(chain)[e] <= ChainW(Serial(e.num), chain)
  {
    if chain != [] {
      CopiesInChain(chain[1..], e);
      assert chain == [chain[0]] + chain[1..];
    }
  }

  /** A record occurs once in its own chain and in no other. */
  lemma OnceInChain(s: State, b: nat, e: Entry)
    requires Inv(s) && b < BUCKETS && e in s.chains[s.c.bucketOf(e.ptr)]
    ensures multiset(s.chains[b])[e] == if b == s.c.bucketOf(e.ptr) then 1 else 0
  {
    if b == s.c.bucketOf(e.ptr) {
      var n := e.num;
      assert LawOk(Serial(n), s);
      SerialWeights(s, n);
      CopiesInChain(s.chains[b], e);
      SumAtLeast(ChainWs(Serial(n), s.chains), b);
    }
  }

  lemma SerialWeights(s: State, n: int)
    ensures forall b :: 0 <= b < |s.chains| ==> 0 <= ChainWs(Serial(n), s.chains)[b]
    ensures Sum(FreeWs(Serial(n), s.frees)) == 0 && 0 <= Sum(PcWs(Serial(n), s.pcs))
  {
    forall b | 0 <= b < |s.chains| ensures 0 <= ChainWs(Serial(n), s.chains)[b] { SerialsInChain(n, s.chains[b]); }
    forall j | 0 <= j < |s.frees| ensures FreeWs(Serial(n), s.frees)[j] == 0 { NoSerialsFree(Serial(n), s.frees[j]); }
    SumConst(FreeWs(Serial(n), s.frees), 0);
    SumZero(PcWs(Serial(n), s.pcs));
  }

  /** How often a record has been copied so far. */
  ghost predicate CopiedOk(pc: Pc, b: nat, e: Entry)
    requires InScan(pc)
  {
    var n := multiset(pc.rows)[e];
    n <= 1 && (!Visited(pc, b) ==> n == 0) && (Visited(pc, b) && |pc.rows| < pc.room ==> n == 1)
  }

  lemma CopiedStep(s: State, t: nat, x: Choice, s': State, u: nat, e: Entry)
    requires Inv(s) && Step(s, t, x, s') && u < |s.pcs| && InScan(s.pcs[u]) && InScan(s'.pcs[u])
    requires e in s.chains[s.c.bucketOf(e.ptr)] && CopiedOk(s.pcs[u], s.c.bucketOf(e.ptr), e)
    ensures CopiedOk(s'.pcs[u], s.c.bucketOf(e.ptr), e)
  {
    if t == u {
      var pc, f, b := s.pcs[u], FocusOf(s.c, s.pcs[u]), s.c.bucketOf(e.ptr);
      var v := Get(s, f);
      InvLocal(s, t, x, s');
      StepScan(s.c, t, pc, v, x);
      StepVisits(s.c, t, pc, v, x, b);
      if Copies(pc) {
        OnceInChain(s, f.b, e);
        var fit := Fitting(v.chain, pc.room - |pc.rows|);
        assert v.chain == fit + v.chain[|fit|..];
      }
    }
  }

  /** Every record linked for the whole of a scan appears in the snapshot exactly once, unless the scan
      filled the room it was given; and in any case at most once. */
  lemma SnapshotComplete(states: seq<State>, events: seq<Event>, u: nat, room: nat, e: Entry, i: nat)
    requires ScanWindow(states, events, u, room) && LinkedThroughout(states, e) && i < |states|
    ensures CopiedOk(states[i].pcs[u], states[0].c.bucketOf(e.ptr), e)
    ensures states[i].pcs[u].Report? && |states[i].pcs[u].rows| < room ==> multiset(states[i].pcs[u].rows)[e] == 1
    ensures multiset(states[i].pcs[u].rows)[e] <= 1
  {
    var bucket := states[0].c.bucketOf(e.ptr);
    var h := (s: State) => Shape(s) && s.c == states[0].c && e in s.chains[bucket];
    var p := (s: State) => u < |s.pcs| && InScan(s.pcs[u]) && CopiedOk(s.pcs[u], bucket, e);
    forall j | 0 <= j < |states| ensures h(states[j]) { WindowInv(states, events, u, room, j); }
    forall s, t, x, s' | ScanStep(s, t, x, s', u) && h(s) && p(s) ensures p(s') { CopiedStep(s, t, x, s', u, e); }
    WindowKeeps(states, events, u, room, h, p, i);
    WindowInv(states, events, u, room, i);
  }

  // ---- where the rows come from ---------------------------------------------------------------------------

  /** At state j the scan held the lock of the row's stripe and the row was linked in its bucket. */
  ghost predicate ReadAt(states: seq<State>, u: nat, r: Entry, j: nat) {
    && j < |states| && Shape(states[j])
    && states[j].blocks[Stripe(states[j].c, r.ptr)] == Some(u)
    && r in states[j].chains[states[j].c.bucketOf(r.ptr)]
  }

  /** Every row of a snapshot was linked at a moment when the scan held that row's own stripe lock. */
  lemma {:induction false} RowsWereLinked(states: seq<State>, events: seq<Event>, u: nat, room: nat, r: Entry, i: nat) returns (j: nat)
    requires ScanWindow(states, events, u, room) && i < |states| && r in states[i].pcs[u].rows
    ensures j < i && ReadAt(states, u, r, j)
  {
    assert i > 0;
    var s, s' := states[i - 1], states[i];
    if r in s.pcs[u].rows {
      j := RowsWereLinked(states, events, u, room, r, i - 1);
    } else {
      WindowInv(states, events, u, room, i - 1);
      assert Next(s, events[i - 1], s');
      var Take(t, x) := events[i - 1];
      InvLocal(s, t, x, s');
      var f := FocusOf(s.c, s.pcs[u]);
      StepScan(s.c, t, s.pcs[u], Get(s, f), x);
      assert r in s.chains[f.b];
      assert HoldsBlock(s.c, s.pcs[u], f.b % STRIPES);
      j := i - 1;
    }
  }

  // ---- a scan of a quiet table --------------------------------------------------------------------------------

  /** No thread but the scanning one is inside the tracker. */
  ghost predicate Quiet(s: State, u: nat) {
    forall t :: 0 <= t < |s.pcs| && t != u ==> s.pcs[t] == Idle
  }

  /** Weight of the chains a scan has yet to visit. */
  ghost function Unvisited(k: Law, pc: Pc, chains: seq<seq<Entry>>): seq<int>
    requires InScan(pc)
  {
    seq(|chains|, b requires 0 <= b < |chains| => if Visited(pc, b) then 0 else ChainW(k, chains[b]))
  }

  lemma {:induction false} ChainAppend(k: Law, a: seq<Entry>, b: seq<Entry>)
    ensures ChainW(k, a + b) == ChainW(k, a) + ChainW(k, b)
  {
    if a == [] {
      assert a + b == b;
    } else {
      assert (a + b)[1..] == a[1..] + b;
      ChainAppend(k, a[1..], b);
    }
  }

  /** Under every law, the rows copied and the chains to come weigh what the table weighs. */
  ghost predicate Split(k: Law, s: State, u: nat)
    requires u < |s.pcs| && InScan(s.pcs[u])
  {
    ChainW(k, s.pcs[u].rows) + Sum(Unvisited(k, s.pcs[u], s.chains)) == Sum(ChainWs(k, s.chains))
  }

  /** If as much room is left as there are records to come, nothing is cut off. */
  lemma RoomLeft(s: State, u: nat)
    requires Inv(s) && u < |s.pcs| && InScan(s.pcs[u]) && Split(Space, s, u) && s.pcs[u].room == Linked(s)
    ensures |s.pcs[u].rows| <= s.pcs[u].room
    ensures forall b: nat :: b < BUCKETS && !Visited(s.pcs[u], b) ==> |s.chains[b]| <= s.pcs[u].room - |s.pcs[u].rows|
  {
    ChainSums(s);
    ChainLength(s.pcs[u].rows);
    var ws := Unvisited(Space, s.pcs[u], s.chains);
    forall b | 0 <= b < |ws| ensures 0 <= ws[b] && (!Visited(s.pcs[u], b) ==> ws[b] == |s.chains[b]|) { ChainLength(s.chains[b]); }
    SumZero(ws);
    forall b: nat | b < BUCKETS && !Visited(s.pcs[u], b)
      ensures |s.chains[b]| <= s.pcs[u].room - |s.pcs[u].rows|
    {
      SumAtLeast(ws, b);
    }
  }

  lemma UnvisitedStep(k: Law, s: State, x: Choice, s': State, u: nat)
    requires Inv(s) && Step(s, u, x, s') && InScan(s.pcs[u]) && InScan(s'.pcs[u])
    requires Split(Space, s, u) && s.pcs[u].room == Linked(s)
    ensures var pc := s.pcs[u]; var ws := Unvisited(k, pc, s.chains);
            Unvisited(k, s'.pcs[u], s.chains) == if Copies(pc) then ws[pc.s.b := 0] else ws
  {
    var pc, pc', v := s.pcs[u], s'.pcs[u], Get(s, FocusOf(s.c, s.pcs[u]));
    InvLocal(s, u, x, s');
    RoomLeft(s, u);
    var ws, ws' := Unvisited(k, pc, s.chains), Unvisited(k, pc', s.chains);
    forall b: nat | b < BUCKETS
      ensures ws'[b] == if Copies(pc) && b == pc.s.b then 0 else ws[b]
    {
      StepVisits(s.c, u, pc, v, x, b);
    }
  }

  lemma SplitStep(k: Law, s: State, x: Choice, s': State, u: nat)
    requires Inv(s) && Step(s, u, x, s') && InScan(s.pcs[u]) && InScan(s'.pcs[u]) && s'.chains == s.chains
    requires Split(k, s, u) && Split(Space, s, u) && s.pcs[u].room == Linked(s)
    ensures Split(k, s', u)
  {
    var pc, f := s.pcs[u], FocusOf(s.c, s.pcs[u]);
    UnvisitedStep(k, s, x, s', u);
    InvLocal(s, u, x, s');
    StepScan(s.c, u, pc, Get(s, f), x);
    if Copies(pc) {
      RoomLeft(s, u);
      SumUpdate(Unvisited(k, pc, s.chains), pc.s.b, 0);
      ChainAppend(k, pc.rows, s.chains[f.b]);
    }
  }

  /** The buckets of a quiet table being scanned, with room for entry_count rows. */
  ghost predicate QuietWindow(states: seq<State>, events: seq<Event>, u: nat, room: nat) {
    && ScanWindow(states, events, u, room) && room == states[0].ctr.entries
    && forall i :: 0 <= i < |states| ==> Quiet(states[i], u)
  }

  lemma QuietCounters(s: State, u: nat)
    requires Inv(s) && u < |s.pcs| && InScan(s.pcs[u]) && Quiet(s, u)
    ensures s.ctr.entries == Linked(s) && s.ctr.current == LinkedBytes(s)
  {
    CountersMatchLists(s);
    SumConst(Flags(LinkedUncounted, s.pcs), 0);
    SumConst(Flags(UnlinkedUncounted, s.pcs), 0);
    SumConst(Addings(s), 0);
    SumConst(Takings(s), 0);
  }

  /** In a quiet table nothing changes while the scan runs. */
  lemma QuietStep(s: State, t: nat, x: Choice, s': State, u: nat)
    requires Inv(s) && Step(s, t, x, s') && u < |s.pcs| && InScan(s.pcs[u]) && Quiet(s, u)
    ensures s'.chains == s.chains && s'.ctr.entries == s.ctr.entries && s'.ctr.current == s.ctr.current
  {
    InvLocal(s, t, x, s');
    ListSteps(s.c, t, s.pcs[t], Get(s, FocusOf(s.c, s.pcs[t])), x);
    assert s'.chains == s.chains;
  }

  lemma QuietSame(states: seq<State>, events: seq<Event>, u: nat, room: nat, i: nat)
    requires QuietWindow(states, events, u, room) && i < |states|
    ensures states[i].chains == states[0].chains && states[i].ctr.entries == room
    ensures states[i].ctr.current == states[0].ctr.current
  {
    var was := states[0];
    var h := (s: State) => Quiet(s, u);
    var p := (s: State) => s.chains == was.chains && s.ctr.entries == room && s.ctr.current == was.ctr.current;
    forall s, t, x, s' | ScanStep(s, t, x, s', u) && h(s) && p(s) ensures p(s') { QuietStep(s, t, x, s', u); }
    WindowKeeps(states, events, u, room, h, p, i);
  }

  lemma QuietSplitStep(k: Law, s: State, t: nat, x: Choice, s': State, u: nat)
    requires Inv(s) && Step(s, t, x, s') && u < |s.pcs| && InScan(s.pcs[u]) && InScan(s'.pcs[u]) && Quiet(s, u)
    requires Split(k, s, u) && Split(Space, s, u) && s.pcs[u].room == s.ctr.entries
    ensures Split(k, s', u)
  {
    QuietStep(s, t, x, s', u);
    QuietCounters(s, u);
    if t == u { SplitStep(k, s, x, s', u); }
  }

  lemma QuietStart(k: Law, s: State, u: nat, room: nat)
    requires u < |s.pcs| && s.pcs[u] == Scan(0, [], room, Scanning.Locking)
    ensures Split(k, s, u)
  {
    assert Unvisited(k, s.pcs[u], s.chains) == ChainWs(k, s.chains);
  }

  ghost predicate AllSplit(s: State, u: nat)
    requires u < |s.pcs| && InScan(s.pcs[u])
  {
    forall k :: Split(k, s, u)
  }

  lemma AllSplitStep(s: State, t: nat, x: Choice, s': State, u: nat)
    requires Inv(s) && Step(s, t, x, s') && u < |s.pcs| && InScan(s.pcs[u]) && InScan(s'.pcs[u]) && Quiet(s, u)
    requires AllSplit(s, u) && s.pcs[u].room == s.ctr.entries
    ensures AllSplit(s', u)
  {
    forall k ensures Split(k, s', u) {
      assert Split(Space, s, u) && Split(k, s, u);
      QuietSplitStep(k, s, t, x, s', u);
    }
  }

  lemma QuietSplit(states: seq<State>, events: seq<Event>, u: nat, room: nat, i: nat)
    requires QuietWindow(states, events, u, room) && i < |states|
    ensures AllSplit(states[i], u)
  {
    var h := (s: State) => Quiet(s, u) && u < |s.pcs| && InScan(s.pcs[u]) && s.pcs[u].room == s.ctr.entries;
    var p := (s: State) => u < |s.pcs| && InScan(s.pcs[u]) && AllSplit(s, u);
    forall j | 0 <= j < |states| ensures h(states[j]) {
      WindowInv(states, events, u, room, j);
      QuietSame(states, events, u, room, j);
    }
    forall k ensures Split(k, states[0], u) { QuietStart(k, states[0], u, room); }
    forall s, t, x, s' | ScanStep(s, t, x, s', u) && h(s) && p(s) ensures p(s') { AllSplitStep(s, t, x, s', u); }
    WindowKeeps(states, events, u, room, h, p, i);
  }

  /** At the end the rows weigh, under every law, what the table weighs. */
  lemma RowsWeigh(k: Law, states: seq<State>, events: seq<Event>, u: nat, room: nat, i: nat)
    requires QuietWindow(states, events, u, room) && i < |states| && states[i].pcs[u].Report?
    ensures ChainW(k, states[i].pcs[u].rows) == Sum(ChainWs(k, states[i].chains))
  {
    QuietSplit(states, events, u, room, i);
    assert Split(k, states[i], u);
    SumConst(Unvisited(k, states[i].pcs[u], states[i].chains), 0);
  }

  /** The rows reported by a scan of a quiet table are as many as entry_count, and together as large as
      current_bytes. */
  lemma QuietWindowExact(states: seq<State>, events: seq<Event>, u: nat, room: nat, i: nat)
    requires QuietWindow(states, events, u, room) && i < |states| && states[i].pcs[u].Report?
    ensures |states[i].pcs[u].rows| == states[i].ctr.entries
    ensures Sizes(states[i].pcs[u].rows) == states[i].ctr.current
  {
    RowsWeigh(Space, states, events, u, room, i);
    RowsWeigh(Bytes, states, events, u, room, i);
    WindowInv(states, events, u, room, i);
    QuietCounters(states[i], u);
    ChainSums(states[i]);
    ChainLength(states[i].pcs[u].rows);
  }

  lemma {:induction false} NumberedRow(n: int, rows: seq<Entry>) returns (r: Entry)
    requires 0 < ChainW(Serial(n), rows)
    ensures r in rows && r.num == n
  {
    if rows[0].num == n { r := rows[0]; } else { r := NumberedRow(n, rows[1..]); }
  }

  /** Two records with one number are the same record. */
  lemma SameNumber(s: State, e: Entry, r: Entry)
    requires Inv(s) && e in s.chains[s.c.bucketOf(e.ptr)] && r in s.chains[s.c.bucketOf(r.ptr)] && e.num == r.num
    ensures e == r
  {
    var b, d := s.c.bucketOf(e.ptr), s.c.bucketOf(r.ptr);
    var a :| 0 <= a < |s.chains[b]| && s.chains[b][a] == e;
    var m :| 0 <= m < |s.chains[d]| && s.chains[d][m] == r;
    SerialsUnique(s, b, a, d, m);
  }

  /** ... and every linked record is among them exactly once. */
  lemma QuietWindowComplete(states: seq<State>, events: seq<Event>, u: nat, room: nat, i: nat, e: Entry)
    requires QuietWindow(states, events, u, room) && i < |states| && states[i].pcs[u].Report?
    requires Shape(states[i]) && e in states[i].chains[states[i].c.bucketOf(e.ptr)]
    ensures multiset(states[i].pcs[u].rows)[e] == 1
  {
    var s, rows, n, b := states[i], states[i].pcs[u].rows, e.num, states[i].c.bucketOf(e.ptr);
    RowsWeigh(Serial(n), states, events, u, room, i);
    WindowInv(states, events, u, room, i);
    QuietSame(states, events, u, room, i);
    assert LawOk(Serial(n), s);
    SerialWeights(s, n);
    CopiesInChain(rows, e);
    OnceInChain(s, b, e);
    CopiesInChain(s.chains[b], e);
    SumAtLeast(ChainWs(Serial(n), s.chains), b);
    var r := NumberedRow(n, rows);
    var j := RowsWereLinked(states, events, u, room, r, i);
    WindowInv(states, events, u, room, j);
    QuietSame(states, events, u, room, j);
    SameNumber(s, e, r);
  }

  // ---- a scan with less room than there are records ---------------------------------------------------

  /** Either the room is used up exactly, or nothing has been cut off yet. */
  ghost predicate FullOrSplit(s: State, u: nat) {
    && u < |s.pcs| && InScan(s.pcs[u]) && |s.pcs[u].rows| <= s.pcs[u].room
    && (|s.pcs[u].rows| == s.pcs[u].room || Split(Space, s, u))
  }

  lemma CopyFillsOrSplits(s: State, x: Choice, s': State, u: nat)
    requires Inv(s) && Step(s, u, x, s') && InScan(s.pcs[u]) && InScan(s'.pcs[u]) && s'.chains == s.chains
    requires |s.pcs[u].rows| < s.pcs[u].room && Split(Space, s, u)
    ensures FullOrSplit(s', u)
  {
    var pc, v := s.pcs[u], Get(s, FocusOf(s.c, s.pcs[u]));
    InvLocal(s, u, x, s');
    StepScan(s.c, u, pc, v, x);
    var ws, ws' := Unvisited(Space, pc, s.chains), Unvisited(Space, s'.pcs[u], s.chains);
    forall b: nat | b < BUCKETS ensures ws'[b] == if Copies(pc) && b == pc.s.b then 0 else ws[b] {
      StepVisits(s.c, u, pc, v, x, b);
    }
    if Copies(pc) {
      assert ws' == ws[pc.s.b := 0];
      SumUpdate(ws, pc.s.b, 0);
      ChainAppend(Space, pc.rows, Fitting(v.chain, pc.room - |pc.rows|));
    } else {
      assert ws' == ws;
    }
  }

  lemma FillStep(s: State, t: nat, x: Choice, s': State, u: nat)
    requires ScanStep(s, t, x, s', u) && Quiet(s, u) && FullOrSplit(s, u)
    ensures FullOrSplit(s', u)
  {
    QuietStep(s, t, x, s', u);
    if t == u {
      InvLocal(s, t, x, s');
      StepScan(s.c, t, s.pcs[t], Get(s, FocusOf(s.c, s.pcs[t])), x);
      if |s.pcs[u].rows| < s.pcs[u].room { CopyFillsOrSplits(s, x, s', u); }
    }
  }

  ghost predicate QuietSomeRoom(states: seq<State>, events: seq<Event>, u: nat, room: nat) {
    && ScanWindow(states, events, u, room) && room <= states[0].ctr.entries
    && forall i :: 0 <= i < |states| ==> Quiet(states[i], u)
  }

  /** With room for at most all records, a scan of a quiet table reports exactly as many as there is room
      for. */
  lemma QuietRoomFilled(states: seq<State>, events: seq<Event>, u: nat, room: nat, i: nat)
    requires QuietSomeRoom(states, events, u, room) && i < |states| && states[i].pcs[u].Report?
    ensures |states[i].pcs[u].rows| == room
  {
    var was := states[0];
    var h := (s: State) => Quiet(s, u);
    var p := (s: State) => FullOrSplit(s, u) && s.ctr.entries == was.ctr.entries;
    QuietStart(Space, was, u, room);
    forall s, t, x, s' | ScanStep(s, t, x, s', u) && h(s) && p(s) ensures p(s') {
      FillStep(s, t, x, s', u);
      QuietStep(s, t, x, s', u);
    }
    WindowKeeps(states, events, u, room, h, p, i);
    WindowInv(states, events, u, room, i);
    AllVisitedCount(states[i], u);
  }

  lemma AllVisitedCount(s: State, u: nat)
    requires Inv(s) && u < |s.pcs| && s.pcs[u].Report? && Quiet(s, u)
    ensures Split(Space, s, u) ==> |s.pcs[u].rows| == s.ctr.entries
  {
    QuietCounters(s, u);
    ChainSums(s);
    ChainLength(s.pcs[u].rows);
    SumConst(Unvisited(Space, s.pcs[u], s.chains), 0);
  }

  // ---- from the call on -----------------------------------------------------------------------------------

  /** How many rows a scan has room for: the smaller of entry_count and what memory gives. */
  function Room(k: Counters, x: Choice): nat { if k.entries <= 0 then 0 else if x.room < k.entries then x.room else k.entries }

  /** What the step that starts a scan decides, whatever other threads do. */
  lemma ScanOpens(s: State, u: nat, x: Choice, s': State)
    requires Step(s, u, x, s') && s.pcs[u] == ScanStart && x.ok
    ensures s'.pcs[u] == if s.ctr.entries <= 0 then Report([], 0) else Scan(0, [], if x.room < s.ctr.entries then x.room else s.ctr.entries, Scanning.Locking)
    ensures s'.chains == s.chains && s'.ctr == s.ctr && s'.c == s.c
  {}

  /** A scan of a quiet table from its first step on, with memory for `x.room` rows. */
  ghost predicate QuietScan(states: seq<State>, events: seq<Event>, u: nat, x: Choice) {
    && |states| == |events| + 1 && |events| > 0 && Inv(states[0])
    && u < |states[0].pcs| && states[0].pcs[u] == ScanStart && events[0] == Take(u, x) && x.ok
    && (forall i :: 0 <= i < |events| ==> events[i].Take? && Next(states[i], events[i], states[i + 1]))
    && (forall i :: 1 <= i < |states| ==> u < |states[i].pcs| && InScan(states[i].pcs[u]))
    && (forall i :: 0 <= i < |states| ==> Quiet(states[i], u))
  }

  lemma QuietOpens(states: seq<State>, events: seq<Event>, u: nat, x: Choice)
    requires QuietScan(states, events, u, x)
    ensures Inv(states[1]) && Quiet(states[1], u) && InScan(states[1].pcs[u])
    ensures states[1].chains == states[0].chains && states[1].ctr == states[0].ctr
    ensures states[1].pcs[u] == if states[0].ctr.entries <= 0 then Report([], 0) else Scan(0, [], Room(states[0].ctr, x), Scanning.Locking)
  {
    assert Next(states[0], events[0], states[1]);
    StepInv(states[0], u, x, states[1]);
    ScanOpens(states[0], u, x, states[1]);
  }

  /** After its first step the scan is a window, unless there was nothing to scan. */
  lemma QuietTail(states: seq<State>, events: seq<Event>, u: nat, x: Choice)
    requires QuietScan(states, events, u, x) && states[0].ctr.entries > 0
    ensures QuietSomeRoom(states[1..], events[1..], u, Room(states[0].ctr, x))
  {
    QuietOpens(states, events, u, x);
  }

  /** A scan of an empty table has its report at once, and keeps it. */
  lemma {:induction false} QuietEmpty(states: seq<State>, events: seq<Event>, u: nat, x: Choice, i: nat)
    requires QuietScan(states, events, u, x) && states[0].ctr.entries <= 0 && 1 <= i < |states|
    ensures Inv(states[i]) && states[i].pcs[u] == Report([], 0)
    ensures states[i].chains == states[0].chains && states[i].ctr == states[0].ctr
  {
    QuietOpens(states, events, u, x);
    if i > 1 {
      QuietEmpty(states, events, u, x, i - 1);
      assert Next(states[i - 1], events[i - 1], states[i]);
      QuietEmptyStep(states[i - 1], events[i - 1].t, events[i - 1].x, states[i], u);
    }
  }

  lemma QuietEmptyStep(s: State, t: nat, x: Choice, s': State, u: nat)
    requires Inv(s) && Step(s, t, x, s') && u < |s.pcs| && s.pcs[u] == Report([], 0) && Quiet(s, u)
    requires u < |s'.pcs| && InScan(s'.pcs[u])
    ensures Inv(s') && s'.pcs[u] == Report([], 0) && s'.chains == s.chains && s'.ctr == s.ctr
  {
    StepInv(s, t, x, s');
    QuietStep(s, t, x, s', u);
  }

  /** What is true of the scan's report, given what its window says. */
  lemma QuietScanExact(states: seq<State>, events: seq<Event>, u: nat, x: Choice, i: nat)
    requires QuietScan(states, events, u, x) && 1 <= i < |states| && states[i].pcs[u].Report?
    ensures states[i].ctr.entries == states[0].ctr.entries && states[i].ctr.current == states[0].ctr.current
    ensures |states[i].pcs[u].rows| == if x.room < states[i].ctr.entries then x.room else states[i].ctr.entries
    ensures x.room >= states[i].ctr.entries ==> Sizes(states[i].pcs[u].rows) == states[i].ctr.current
  {
    NoUnderflow(states[0]);
    if states[0].ctr.entries <= 0 {
      QuietEmpty(states, events, u, x, i);
      QuietNothing(states[i], u);
    } else {
      QuietOpens(states, events, u, x);
      QuietTail(states, events, u, x);
      QuietTailSame(states[1..], events[1..], u, Room(states[0].ctr, x), i - 1);
      QuietRoomFilled(states[1..], events[1..], u, Room(states[0].ctr, x), i - 1);
      if x.room >= states[0].ctr.entries { QuietWindowExact(states[1..], events[1..], u, Room(states[0].ctr, x), i - 1); }
    }
  }

  lemma QuietNothing(s: State, u: nat)
    requires Inv(s) && u < |s.pcs| && s.pcs[u] == Report([], 0) && Quiet(s, u) && s.ctr.entries <= 0
    ensures s.ctr.entries == 0 && s.ctr.current == 0 && forall b :: 0 <= b < |s.chains| ==> s.chains[b] == []
  {
    QuietCounters(s, u);
    SumZero(Lengths(s));
    forall b | 0 <= b < |s.chains| ensures s.chains[b] == [] { SumAtLeast(Lengths(s), b); }
    SumConst(Worth(s), 0);
  }

  lemma QuietTailSame(states: seq<State>, events: seq<Event>, u: nat, room: nat, i: nat)
    requires QuietSomeRoom(states, events, u, room) && i < |states|
    ensures states[i].chains == states[0].chains
    ensures states[i].ctr.entries == states[0].ctr.entries && states[i].ctr.current == states[0].ctr.current
  {
    var was := states[0];
    var h := (s: State) => Quiet(s, u);
    var p := (s: State) => s.chains == was.chains && s.ctr.entries == was.ctr.entries && s.ctr.current == was.ctr.current;
    forall s, t, x, s' | ScanStep(s, t, x, s', u) && h(s) && p(s) ensures p(s') { QuietStep(s, t, x, s', u); }
    WindowKeeps(states, events, u, room, h, p, i);
  }

  /** With memory for them all, every linked record is in the report exactly once. */
  lemma QuietScanComplete(states: seq<State>, events: seq<Event>, u: nat, x: Choice, i: nat, e: Entry)
    requires QuietScan(states, events, u, x) && 1 <= i < |states| && states[i].pcs[u].Report?
    requires x.room >= states[0].ctr.entries && Shape(states[i]) && e in states[i].chains[states[i].c.bucketOf(e.ptr)]
    ensures multiset(states[i].pcs[u].rows)[e] == 1
  {
    NoUnderflow(states[0]);
    if states[0].ctr.entries <= 0 {
      QuietEmpty(states, events, u, x, i);
      QuietNothing(states[i], u);
    } else {
      QuietOpens(states, events, u, x);
      QuietTail(states, events, u, x);
      QuietWindowComplete(states[1..], events[1..], u, Room(states[0].ctr, x), i - 1, e);
    }
  }
}
