/** total_bytes as a bound: on what is linked, on current_bytes, and on what a scan that runs beside
    mallocs and frees can report. */
module TrackerVolume {
  import opened Sums
  import opened Chains
  import opened Tracker
  import opened TrackerLaws
  import opened TrackerSafety
  import opened TrackerInvariant
  import opened TrackerRuns
  import opened TrackerTheorems
  import opened TrackerSnapshot

  /** Bytes added to current_bytes and not yet to total_bytes. */
  function Untotalled(pc: Pc): nat { if pc.Insert? && pc.i.AddTotal? then pc.e.size else 0 }

  ghost function UntotalledBytes(s: State): int { Sum(Untotalleds(s)) }

  ghost function Untotalleds(s: State): seq<int> { seq(|s.pcs|, t requires 0 <= t < |s.pcs| => Untotalled(s.pcs[t]) as int) }

  lemma {:induction false} VolumeOfChain(chain: seq<Entry>)
    ensures ChainW(Volume, chain) == Sizes(chain)
  {
    if chain != [] { VolumeOfChain(chain[1..]); }
  }

  lemma {:induction false} VolumeOfFree(free: seq<nat>)
    ensures FreeW(Volume, free) == 0
  {
    if free != [] { VolumeOfFree(free[1..]); }
  }

  lemma VolumeSums(s: State)
    ensures Sum(ChainWs(Volume, s.chains)) == LinkedBytes(s) && Sum(FreeWs(Volume, s.frees)) == 0
    ensures Sum(PcWs(Volume, s.pcs)) == BytesAhead(s) - UntotalledBytes(s) >= 0
  {
    forall b | 0 <= b < |s.chains| ensures ChainW(Volume, s.chains[b]) == Sizes(s.chains[b]) { VolumeOfChain(s.chains[b]); }
    forall j | 0 <= j < |s.frees| ensures FreeW(Volume, s.frees[j]) == 0 { VolumeOfFree(s.frees[j]); }
    assert ChainWs(Volume, s.chains) == Worth(s);
    SumConst(FreeWs(Volume, s.frees), 0);
    SumDiff(Addings(s), Untotalleds(s), PcWs(Volume, s.pcs));
    SumZero(PcWs(Volume, s.pcs));
  }

  /** In every interleaving total_bytes covers the linked records, and current_bytes exceeds it by no
      more than the additions that have reached only the one counter so far. */
  lemma TotalCovers(s: State)
    requires Inv(s)
    ensures LinkedBytes(s) <= s.ctr.total
    ensures s.ctr.current <= s.ctr.total + UntotalledBytes(s)
  {
    assert LawOk(Volume, s);
    VolumeSums(s);
    CountersMatchLists(s);
    SumZero(Takings(s));
  }

  // ---- a scan beside mallocs and frees --------------------------------------------------------------

  /** What the scan has copied, what it may still copy, and what is about to be linked were all counted
      in total_bytes. */
  ghost predicate Counted(s: State, u: nat)
    requires u < |s.pcs| && InScan(s.pcs[u])
  {
    ChainW(Volume, s.pcs[u].rows) + Sum(Unvisited(Volume, s.pcs[u], s.chains)) + Sum(PcWs(Volume, s.pcs)) <= s.ctr.total
  }

  /** A step adds no more to the lists than it takes from the books; unlinking touches no book. */
  lemma VolumeStep(c: Params, t: nat, pc: Pc, v: View, x: Choice)
    requires PcOk(c, pc) && FoundIn(pc, v.chain) && Act(c, t, pc, v, x).Some? && !Clamps(pc)
    ensures var (pc', v') := Act(c, t, pc, v, x).value;
            && PcW(Volume, pc') - v'.ctr.total <= PcW(Volume, pc) - v.ctr.total
            && ChainW(Volume, v'.chain) + PcW(Volume, pc') - v'.ctr.total <= ChainW(Volume, v.chain) + PcW(Volume, pc) - v.ctr.total
  {
    StepBalances(Volume, c, t, pc, v, x);
    ListsMove(Volume, c, t, pc, v, x);
    var (pc', v') := Act(c, t, pc, v, x).value;
    VolumeOfFree(v.free);
    VolumeOfFree(v'.free);
    if Unlinks(pc) { assert PcW(Volume, pc') == 0; }
  }

  lemma {:induction false} FittingWeighsLess(chain: seq<Entry>, n: nat)
    ensures ChainW(Volume, Fitting(chain, n)) <= ChainW(Volume, chain)
  {
    if |chain| > n {
      assert chain == chain[..n] + chain[n..];
      ChainAppend(Volume, chain[..n], chain[n..]);
      VolumeOfChain(chain[n..]);
    }
  }

  /** The scan's own step leaves behind at least the bucket it has copied. */
  lemma UnvisitedShrinks(s: State, x: Choice, s': State, u: nat)
    requires Inv(s) && Step(s, u, x, s') && InScan(s.pcs[u]) && InScan(s'.pcs[u])
    ensures s'.chains == s.chains
    ensures Sum(Unvisited(Volume, s'.pcs[u], s.chains))
         <= Sum(Unvisited(Volume, s.pcs[u], s.chains)) - if Copies(s.pcs[u]) then ChainW(Volume, s.chains[s.pcs[u].s.b]) else 0
  {
    var pc, f := s.pcs[u], FocusOf(s.c, s.pcs[u]);
    var v, ws := Get(s, f), Unvisited(Volume, pc, s.chains);
    InvLocal(s, u, x, s');
    ListSteps(s.c, u, pc, v, x);
    StepScan(s.c, u, pc, v, x);
    assert s'.chains == s.chains;
    var rest := if Copies(pc) then ws[pc.s.b := 0] else ws;
    var ws' := Unvisited(Volume, s'.pcs[u], s.chains);
    forall b: nat | b < BUCKETS ensures ws'[b] <= rest[b] {
      StepVisits(s.c, u, pc, v, x, b);
      VolumeOfChain(s.chains[b]);
    }
    SumMono(ws', rest);
    if Copies(pc) { SumUpdate(ws, pc.s.b, 0); }
  }

  lemma ScanCounts(s: State, x: Choice, s': State, u: nat)
    requires Inv(s) && Step(s, u, x, s') && InScan(s.pcs[u]) && InScan(s'.pcs[u]) && Counted(s, u)
    ensures Counted(s', u)
  {
    var pc, v := s.pcs[u], Get(s, FocusOf(s.c, s.pcs[u]));
    InvLocal(s, u, x, s');
    StepScan(s.c, u, pc, v, x);
    UnvisitedShrinks(s, x, s', u);
    assert PcWs(Volume, s'.pcs) == PcWs(Volume, s.pcs);
    if Copies(pc) {
      ChainAppend(Volume, pc.rows, Fitting(v.chain, pc.room - |pc.rows|));
      FittingWeighsLess(v.chain, pc.room - |pc.rows|);
    }
  }

  /** A step of another thread. */
  lemma OthersCount(s: State, t: nat, x: Choice, s': State, u: nat)
    requires Inv(s) && Step(s, t, x, s') && t != u && u < |s.pcs| && InScan(s.pcs[u]) && Counted(s, u)
    ensures s'.pcs[u] == s.pcs[u] && Counted(s', u)
  {
    var f, pc := FocusOf(s.c, s.pcs[t]), s.pcs[u];
    var ws, ws' := Unvisited(Volume, pc, s.chains), Unvisited(Volume, pc, s'.chains);
    InvLocal(s, t, x, s');
    VolumeStep(s.c, t, s.pcs[t], Get(s, f), x);
    assert PcWs(Volume, s'.pcs) == PcWs(Volume, s.pcs)[t := PcW(Volume, s'.pcs[t])];
    assert ws' == ws[f.b := ws'[f.b]];
    SumUpdate(PcWs(Volume, s.pcs), t, PcW(Volume, s'.pcs[t]));
    SumUpdate(ws, f.b, ws'[f.b]);
  }

  lemma ScanStarts(s: State, u: nat)
    requires Inv(s) && u < |s.pcs| && s.pcs[u].Scan? && s.pcs[u].l == 0 && s.pcs[u].rows == [] && s.pcs[u].s.Locking?
    ensures Counted(s, u)
  {
    assert LawOk(Volume, s);
    VolumeSums(s);
    assert Unvisited(Volume, s.pcs[u], s.chains) == ChainWs(Volume, s.chains);
  }

  lemma StepCounts(s: State, t: nat, x: Choice, s': State, u: nat)
    requires Inv(s) && Step(s, t, x, s') && u < |s.pcs| && InScan(s.pcs[u]) && InScan(s'.pcs[u]) && Counted(s, u)
    ensures Counted(s', u)
  {
    if t == u { ScanCounts(s, x, s', u); } else { OthersCount(s, t, x, s', u); }
  }

  lemma ScanCounted(states: seq<State>, events: seq<Event>, u: nat, room: nat, i: nat)
    requires ScanWindow(states, events, u, room) && i < |states|
    ensures Counted(states[i], u)
  {
    var p := (s: State) => u < |s.pcs| && InScan(s.pcs[u]) && Counted(s, u);
    ScanStarts(states[0], u);
    forall s, t, x, s' | ScanStep(s, t, x, s', u) && p(s) ensures p(s') { StepCounts(s, t, x, s', u); }
    WindowKeeps(states, events, u, room, (s: State) => true, p, i);
  }

  /** Whatever runs beside it, a scan never holds more bytes than total_bytes: a block that is freed and
      allocated again while the scan runs is counted as often as it was allocated. */
  lemma ScanBytesBounded(states: seq<State>, events: seq<Event>, u: nat, room: nat, i: nat)
    requires ScanWindow(states, events, u, room) && i < |states|
    ensures Sizes(states[i].pcs[u].rows) <= states[i].ctr.total
  {
    ScanCounted(states, events, u, room, i);
    VolumeSums(states[i]);
    VolumeOfChain(states[i].pcs[u].rows);
    var ws := Unvisited(Volume, states[i].pcs[u], states[i].chains);
    forall b | 0 <= b < |ws| ensures 0 <= ws[b] { VolumeOfChain(states[i].chains[b]); }
    SumZero(ws);
  }

  // ---- a scan of a quiet table ------------------------------------------------------------------------

  ghost predicate WithinLinked(s: State, u: nat, bytes: int) {
    && u < |s.pcs| && InScan(s.pcs[u])
    && ChainW(Volume, s.pcs[u].rows) + Sum(Unvisited(Volume, s.pcs[u], s.chains)) <= bytes
  }

  lemma WithinStep(s: State, t: nat, x: Choice, s': State, u: nat, bytes: int)
    requires ScanStep(s, t, x, s', u) && Quiet(s, u) && WithinLinked(s, u, bytes)
    ensures WithinLinked(s', u, bytes)
  {
    QuietStep(s, t, x, s', u);
    if t == u {
      var pc, v := s.pcs[u], Get(s, FocusOf(s.c, s.pcs[u]));
      InvLocal(s, u, x, s');
      StepScan(s.c, u, pc, v, x);
      UnvisitedShrinks(s, x, s', u);
      if Copies(pc) {
        ChainAppend(Volume, pc.rows, Fitting(v.chain, pc.room - |pc.rows|));
        FittingWeighsLess(v.chain, pc.room - |pc.rows|);
      }
    }
  }

  /** Whatever its room, a scan of a quiet table holds at most current_bytes. */
  lemma QuietBytesBounded(states: seq<State>, events: seq<Event>, u: nat, room: nat, i: nat)
    requires QuietSomeRoom(states, events, u, room) && i < |states|
    ensures Sizes(states[i].pcs[u].rows) <= states[i].ctr.current
  {
    var bytes := LinkedBytes(states[0]);
    var h := (s: State) => Quiet(s, u);
    var p := (s: State) => WithinLinked(s, u, bytes);
    VolumeSums(states[0]);
    QuietStart(Volume, states[0], u, room);
    forall s, t, x, s' | ScanStep(s, t, x, s', u) && h(s) && p(s) ensures p(s') { WithinStep(s, t, x, s', u, bytes); }
    WindowKeeps(states, events, u, room, h, p, i);
    QuietTailSame(states, events, u, room, i);
    WindowInv(states, events, u, room, i);
    QuietCounters(states[i], u);
    assert Worth(states[i]) == Worth(states[0]);
    VolumeOfChain(states[i].pcs[u].rows);
    var ws := Unvisited(Volume, states[i].pcs[u], states[i].chains);
    forall b | 0 <= b < |ws| ensures 0 <= ws[b] { VolumeOfChain(states[i].chains[b]); }
    SumZero(ws);
  }
}
