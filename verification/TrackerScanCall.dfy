/** What one undisturbed scan reports, from the call on: the rows, as a function of the table and of the
    memory it gets. */
module TrackerScanCall {
  import opened Sums
  import opened Chains
  import opened Paths
  import opened Tracker
  import opened TrackerLaws
  import opened TrackerSafety
  import opened TrackerInvariant
  import opened TrackerTheorems
  import opened TrackerSnapshot
  import opened TrackerCalls

  /** The records a scan has yet to see at bucket b of stripe l, in the order in which it sees them. */
  ghost function Rest(chains: seq<seq<Entry>>, l: nat, b: nat): seq<Entry>
    requires |chains| == BUCKETS
    decreases if l < STRIPES then STRIPES - l else 0, if b < BUCKETS then BUCKETS - b else 0
  {
    if l >= STRIPES then []
    else if b >= BUCKETS then Rest(chains, l + 1, l + 1)
    else chains[b] + Rest(chains, l, b + STRIPES)
  }

  /** All records of the table, in scan order. */
  ghost function AllRows(s: State): seq<Entry>
    requires Shape(s)
  {
    Rest(s.chains, 0, 0)
  }

  lemma FittingJoins(rows: seq<Entry>, chain: seq<Entry>, rest: seq<Entry>, room: nat)
    requires |rows| <= room
    ensures var more := rows + Fitting(chain, room - |rows|);
            |more| <= room && Fitting(more + rest, room) == Fitting(rows + (chain + rest), room)
  {
    var more := rows + Fitting(chain, room - |rows|);
    if |chain| <= room - |rows| {
      assert more + rest == rows + (chain + rest);
    } else {
      assert more == (rows + (chain + rest))[..room];
      assert more == (more + rest)[..room];
    }
  }

  lemma FittingFull(rows: seq<Entry>, rest: seq<Entry>)
    ensures Fitting(rows + rest, |rows|) == rows
  {}

  ghost function Held(r: State, t: nat, l: nat): State
    requires Shape(r) && l < STRIPES
  {
    r.(blocks := r.blocks[l := Some(t)])
  }

  ghost function Reported(r: State, t: nat, rows: seq<Entry>, room: nat): State
    requires t < |r.pcs|
  {
    With(r, t, Report(rows, room))
  }

  lemma ScanEnds(r: State, t: nat, l: nat, rows: seq<Entry>, room: nat, good: State -> bool)
    requires Closed(t, good) && Shape(r) && t < |r.pcs| && (l >= STRIPES || |rows| >= room)
    requires good(Reported(r, t, rows, room))
    ensures good(With(r, t, Scan(l, rows, room, Scanning.Locking)))
  {
    Turn(r, t, Scan(l, rows, room, Scanning.Locking), good);
  }

  lemma ScanLocks(r: State, t: nat, l: nat, rows: seq<Entry>, room: nat, good: State -> bool)
    requires Closed(t, good) && Shape(r) && LocksFree(r) && t < |r.pcs| && l < STRIPES && |rows| < room
    requires good(With(Held(r, t, l), t, Scan(l, rows, room, Bucket(l))))
    ensures good(With(r, t, Scan(l, rows, room, Scanning.Locking)))
  {
    var pc, f := Scan(l, rows, room, Scanning.Locking), Focus(0, l, 0);
    var v' := Get(r, f).(block := Some(t));
    assert Updated(r, f, v') == Held(r, t, l);
    SureStep(r, t, pc, Scan(l, rows, room, Bucket(l)), v', good);
  }

  lemma ScanUnlocks(r: State, t: nat, l: nat, rows: seq<Entry>, room: nat, good: State -> bool)
    requires Closed(t, good) && Shape(r) && LocksFree(r) && t < |r.pcs| && l < STRIPES
    requires good(With(r, t, Scan(l + 1, rows, room, Scanning.Locking)))
    ensures good(With(Held(r, t, l), t, Scan(l, rows, room, Scanning.Unlocking)))
  {
    var pc, f, held := Scan(l, rows, room, Scanning.Unlocking), Focus(0, l, 0), Held(r, t, l);
    var v' := Get(held, f).(block := None);
    assert Updated(held, f, v') == r;
    SureStep(held, t, pc, Scan(l + 1, rows, room, Scanning.Locking), v', good);
  }

  /** The end of a stripe, and what comes after it. */
  lemma StripeEnds(r: State, t: nat, l: nat, b: nat, rows: seq<Entry>, room: nat, good: State -> bool)
    requires Closed(t, good) && Shape(r) && LocksFree(r) && t < |r.pcs| && l < STRIPES && (b >= BUCKETS || |rows| >= room)
    requires good(With(r, t, Scan(l + 1, rows, room, Scanning.Locking)))
    ensures good(With(Held(r, t, l), t, Scan(l, rows, room, Bucket(b))))
  {
    ScanUnlocks(r, t, l, rows, room, good);
    Turn(Held(r, t, l), t, Scan(l, rows, room, Bucket(b)), good);
  }

  lemma LastStripe(r: State, t: nat, l: nat, b: nat, rows: seq<Entry>, room: nat, good: State -> bool)
    requires Closed(t, good) && Shape(r) && t < |r.pcs| && l + 1 == STRIPES && b >= BUCKETS && |rows| <= room
    requires good(Reported(r, t, Fitting(rows + Rest(r.chains, l, b), room), room))
    ensures good(With(r, t, Scan(l + 1, rows, room, Scanning.Locking)))
  {
    assert Rest(r.chains, l, b) == [] && rows + [] == rows;
    ScanEnds(r, t, l + 1, rows, room, good);
  }

  lemma ScanBucket(r: State, t: nat, l: nat, b: nat, rows: seq<Entry>, room: nat, good: State -> bool)
    requires Closed(t, good) && Shape(r) && t < |r.pcs| && l < STRIPES && b < BUCKETS && |rows| < room
    requires good(With(Held(r, t, l), t, Scan(l, rows + Fitting(r.chains[b], room - |rows|), room, Bucket(b + STRIPES))))
    ensures good(With(Held(r, t, l), t, Scan(l, rows, room, Bucket(b))))
  {
    Turn(Held(r, t, l), t, Scan(l, rows, room, Bucket(b)), good);
  }

  /** From a bucket on. */
  lemma {:induction false} ScanFrom(r: State, t: nat, l: nat, b: nat, rows: seq<Entry>, room: nat, good: State -> bool)
    requires Closed(t, good) && Shape(r) && LocksFree(r) && t < |r.pcs| && l < STRIPES && |rows| <= room
    requires good(Reported(r, t, Fitting(rows + Rest(r.chains, l, b), room), room))
    ensures good(With(Held(r, t, l), t, Scan(l, rows, room, Bucket(b))))
    decreases STRIPES - l, if b < BUCKETS then BUCKETS - b else 0
  {
    if |rows| == room {
      FittingFull(rows, Rest(r.chains, l, b));
      ScanEnds(r, t, l + 1, rows, room, good);
      StripeEnds(r, t, l, b, rows, room, good);
    } else if b >= BUCKETS {
      if l + 1 < STRIPES {
        ScanFrom(r, t, l + 1, l + 1, rows, room, good);
        ScanLocks(r, t, l + 1, rows, room, good);
      } else {
        LastStripe(r, t, l, b, rows, room, good);
      }
      StripeEnds(r, t, l, b, rows, room, good);
    } else {
      FittingJoins(rows, r.chains[b], Rest(r.chains, l, b + STRIPES), room);
      ScanFrom(r, t, l, b + STRIPES, rows + Fitting(r.chains[b], room - |rows|), room, good);
      ScanBucket(r, t, l, b, rows, room, good);
    }
  }

  /** A scan with room for `room` rows. */
  lemma ScanWith(r: State, t: nat, room: nat, good: State -> bool)
    requires Closed(t, good) && Shape(r) && LocksFree(r) && t < |r.pcs|
    requires good(Reported(r, t, Fitting(AllRows(r), room), room))
    ensures good(With(r, t, Scan(0, [], room, Scanning.Locking)))
  {
    assert [] + Rest(r.chains, 0, 0) == AllRows(r);
    if room == 0 {
      ScanEnds(r, t, 0, [], 0, good);
    } else {
      ScanFrom(r, t, 0, 0, [], room, good);
      ScanLocks(r, t, 0, [], room, good);
    }
  }

  /** What a scan comes to that gets its memory as `x` has it: nothing without any, else a report of as
      many records as there is room for. */
  ghost function Scanned(s: State, t: nat, x: Choice): State
    requires Shape(s) && t < |s.pcs|
  {
    if s.ctr.entries > 0 && !x.ok then s else Reported(s, t, Fitting(AllRows(s), Room(s.ctr, x)), Room(s.ctr, x))
  }

  lemma ScanReady(s: State, t: nat, good: State -> bool)
    requires Closed(t, good) && Shape(s) && LocksFree(s) && AtRest(s) && t < |s.pcs|
    requires forall x :: good(Scanned(s, t, x))
    ensures good(With(s, t, ScanStart))
  {
    assert With(s, t, Idle) == s;
    forall x: Choice
      ensures var a := Act(s.c, t, ScanStart, Get(s, FocusOf(s.c, ScanStart)), x);
              a.Some? && a.value.1 == Get(s, FocusOf(s.c, ScanStart)) && good(With(s, t, a.value.0))
    {
      assert good(Scanned(s, t, x));
      if s.ctr.entries > 0 && x.ok { ScanWith(s, t, Room(s.ctr, x), good); }
    }
    Turn(s, t, ScanStart, good);
  }

  /** An undisturbed scan, whatever its memory. */
  lemma ScanCall(s: State, t: nat)
    requires Inv(s) && AtRest(s) && t < |s.pcs|
    ensures Returns(t, With(s, t, Begin(CallScan)), ScanOutcomes(s, t))
  {
    RestUnlocked(s);
    ComingClosed(Busy(t), Back(t), ScanOutcomes(s, t));
    ScansHalt(s, t);
    ScanReady(s, t, Returning(t, ScanOutcomes(s, t)));
  }

  ghost function ScanOutcomes(s: State, t: nat): State -> bool
    requires Shape(s) && t < |s.pcs|
  {
    (w: State) => exists x :: w == Scanned(s, t, x)
  }

  lemma ScansHalt(s: State, t: nat)
    requires Shape(s) && AtRest(s) && t < |s.pcs|
    ensures forall x :: Returning(t, ScanOutcomes(s, t))(Scanned(s, t, x))
  {
    forall x ensures Returning(t, ScanOutcomes(s, t))(Scanned(s, t, x)) { Halted(Scanned(s, t, x), t, ScanOutcomes(s, t)); }
  }

  /** The step that asks for memory decides the room: once it has been taken with choice `x`, the scan comes
      to the report for `x`. */
  lemma ScanGivenMemory(s: State, t: nat, x: Choice, s': State)
    requires Inv(s) && AtRest(s) && t < |s.pcs| && x.ok && Step(With(s, t, Begin(CallScan)), t, x, s')
    ensures Returns(t, s', w => w == Reported(s, t, Fitting(AllRows(s), Room(s.ctr, x)), Room(s.ctr, x)))
  {
    var done := Reported(s, t, Fitting(AllRows(s), Room(s.ctr, x)), Room(s.ctr, x));
    var q := (w: State) => w == done;
    RestUnlocked(s);
    ComingClosed(Busy(t), Back(t), q);
    Halted(done, t, q);
    StepFrom(s, t, x, ScanStart, s');
    UpdatedTwice(s, Focus(0, 0, 0), Get(s, Focus(0, 0, 0)), Get(s, Focus(0, 0, 0)));
    if s.ctr.entries > 0 { ScanWith(s, t, Room(s.ctr, x), Returning(t, q)); }
  }

  // ---- the rows are the table -----------------------------------------------------------------------

  ghost function Unseen(k: Law, chains: seq<seq<Entry>>, l: nat, b: nat): (ws: seq<int>)
    ensures |ws| == |chains|
  {
    Unvisited(k, Scan(l, [], 0, Bucket(b)), chains)
  }

  /** Under every law the records yet to be seen weigh what the chains yet to be visited weigh. */
  lemma {:induction false} RestWeighs(k: Law, chains: seq<seq<Entry>>, l: nat, b: nat)
    requires |chains| == BUCKETS && (l < STRIPES ==> b % STRIPES == l)
    ensures ChainW(k, Rest(chains, l, b)) == Sum(Unseen(k, chains, l, b))
    decreases if l < STRIPES then STRIPES - l else 0, if b < BUCKETS then BUCKETS - b else 0
  {
    if l >= STRIPES {
      SumConst(Unseen(k, chains, l, b), 0);
    } else if b >= BUCKETS {
      RestWeighs(k, chains, l + 1, l + 1);
      StripeVisited(k, chains, l, b);
    } else {
      RestWeighs(k, chains, l, b + STRIPES);
      ChainAppend(k, chains[b], Rest(chains, l, b + STRIPES));
      NextVisited(k, chains, l, b);
      SumUpdate(Unseen(k, chains, l, b), b, 0);
    }
  }

  lemma StripeVisited(k: Law, chains: seq<seq<Entry>>, l: nat, b: nat)
    requires |chains| == BUCKETS <= b && l < STRIPES
    ensures Unseen(k, chains, l, b) == Unseen(k, chains, l + 1, l + 1)
  {}

  lemma NextVisited(k: Law, chains: seq<seq<Entry>>, l: nat, b: nat)
    requires |chains| == BUCKETS && l < STRIPES && b < BUCKETS && b % STRIPES == l
    ensures Unseen(k, chains, l, b)[b := 0] == Unseen(k, chains, l, b + STRIPES)
    ensures Unseen(k, chains, l, b)[b] == ChainW(k, chains[b])
  {
    assert (b + STRIPES) % STRIPES == l;
    var ws, ws' := Unseen(k, chains, l, b), Unseen(k, chains, l, b + STRIPES);
    forall d | 0 <= d < BUCKETS ensures ws[b := 0][d] == ws'[d] {
      if d % STRIPES == l && b < d { assert b + STRIPES <= d; }
    }
  }

  lemma RowsWeighAll(k: Law, s: State)
    requires Shape(s)
    ensures ChainW(k, AllRows(s)) == Sum(ChainWs(k, s.chains))
  {
    RestWeighs(k, s.chains, 0, 0);
    assert Unseen(k, s.chains, 0, 0) == ChainWs(k, s.chains);
  }

  lemma {:induction false} RestLinked(chains: seq<seq<Entry>>, l: nat, b: nat, e: Entry)
    requires |chains| == BUCKETS && e in Rest(chains, l, b)
    ensures exists d :: 0 <= d < BUCKETS && e in chains[d]
    decreases if l < STRIPES then STRIPES - l else 0, if b < BUCKETS then BUCKETS - b else 0
  {
    if b >= BUCKETS {
      RestLinked(chains, l + 1, l + 1, e);
    } else if e !in chains[b] {
      RestLinked(chains, l, b + STRIPES, e);
    }
  }

  /** At rest the records in scan order are as many as entry_count says, as large as current_bytes says,
      and every linked record is among them exactly once. */
  lemma AllRowsExact(s: State)
    requires Inv(s) && AtRest(s)
    ensures |AllRows(s)| == s.ctr.entries && Sizes(AllRows(s)) == s.ctr.current
    ensures forall e: Entry :: e in s.chains[s.c.bucketOf(e.ptr)] ==> multiset(AllRows(s))[e] == 1
  {
    AtRestExact(s);
    RowsWeighAll(Space, s);
    RowsWeighAll(Bytes, s);
    ChainSums(s);
    ChainLength(AllRows(s));
    forall e: Entry | e in s.chains[s.c.bucketOf(e.ptr)] ensures multiset(AllRows(s))[e] == 1 { OnceInRows(s, e); }
  }

  lemma NumberLinkedOnce(s: State, e: Entry)
    requires Inv(s) && e in s.chains[s.c.bucketOf(e.ptr)]
    ensures Sum(ChainWs(Serial(e.num), s.chains)) == 1
  {
    var n, b := e.num, s.c.bucketOf(e.ptr);
    assert LawOk(Serial(n), s);
    SerialWeights(s, n);
    OnceInChain(s, b, e);
    CopiesInChain(s.chains[b], e);
    SumAtLeast(ChainWs(Serial(n), s.chains), b);
  }

  lemma OnceInRows(s: State, e: Entry)
    requires Inv(s) && e in s.chains[s.c.bucketOf(e.ptr)]
    ensures multiset(AllRows(s))[e] == 1
  {
    var n, b, rows := e.num, s.c.bucketOf(e.ptr), AllRows(s);
    RowsWeighAll(Serial(n), s);
    NumberLinkedOnce(s, e);
    CopiesInChain(rows, e);
    var r := NumberedRow(n, rows);
    RestLinked(s.chains, 0, 0, r);
    var d :| 0 <= d < BUCKETS && r in s.chains[d];
    SameNumberAt(s, e, b, r, d);
  }

  lemma SameNumberAt(s: State, e: Entry, b: nat, r: Entry, d: nat)
    requires Inv(s) && b < BUCKETS && d < BUCKETS && e in s.chains[b] && r in s.chains[d] && e.num == r.num
    ensures e == r
  {
    var a :| 0 <= a < |s.chains[b]| && s.chains[b][a] == e;
    var m :| 0 <= m < |s.chains[d]| && s.chains[d][m] == r;
    SerialsUnique(s, b, a, d, m);
  }

  /** So an undisturbed scan whose memory suffices reports entry_count rows that add up to current_bytes,
      every linked record exactly once; with less memory it reports exactly as many rows as fit. */
  lemma ScanReportsAll(s: State, t: nat, x: Choice, s': State, w: State)
    requires Inv(s) && AtRest(s) && t < |s.pcs| && x.ok && Step(With(s, t, Begin(CallScan)), t, x, s')
    requires exists n: nat :: Path(Busy(t), n, s', w) && Back(t)(w)
    ensures t < |w.pcs| && w.pcs[t].Report? && w.chains == s.chains && w.ctr == s.ctr
    ensures |w.pcs[t].rows| == if x.room < s.ctr.entries then x.room else s.ctr.entries
    ensures x.room >= s.ctr.entries ==> Sizes(w.pcs[t].rows) == s.ctr.current
    ensures x.room >= s.ctr.entries ==>
      forall e: Entry :: e in s.chains[s.c.bucketOf(e.ptr)] ==> multiset(w.pcs[t].rows)[e] == 1
  {
    AllRowsExact(s);
    NoUnderflow(s);
    ScanGivenMemory(s, t, x, s');
    var n: nat :| Path(Busy(t), n, s', w) && Back(t)(w);
    assert w == Reported(s, t, Fitting(AllRows(s), Room(s.ctr, x)), Room(s.ctr, x));
  }

  // ---- how much memory a scan gets ------------------------------------------------------------------

  function Halved(total: nat, k: nat): nat { if k == 0 then total else Halved(total, k - 1) / 2 }

  lemma {:induction false} HalvedFalls(total: nat, j: nat, k: nat)
    requires j <= k
    ensures Halved(total, k) <= Halved(total, j)
  {
    if j < k { HalvedFalls(total, j, k - 1); }
  }

  /** A scan asks for room for all records, then for half as many, and so on while at least 1024 fit. It gets
      the first room that is granted, or none if none of them is: so it has room for every record or for at
      least 1024. */
  method ReserveRows(total: nat, granted: nat -> bool) returns (ok: bool, room: nat)
    requires total > 0
    ensures ok ==> granted(room) && 0 < room <= total && (room == total || room >= 1024)
    ensures ok ==> exists k: nat :: room == Halved(total, k) && forall j: nat :: j < k ==> !granted(Halved(total, j))
    ensures !ok ==> !granted(total) && forall k: nat :: Halved(total, k) >= 1024 ==> !granted(Halved(total, k))
  {
    room := total;
    ghost var k := 0;
    while !granted(room)
      invariant room == Halved(total, k) && 0 < room <= total && (k == 0 || room >= 1024)
      invariant forall j: nat :: j < k ==> !granted(Halved(total, j))
      decreases room
    {
      room, k := room / 2, k + 1;
      if room < 1024 {
        forall j: nat | Halved(total, j) >= 1024 ensures !granted(Halved(total, j)) {
          if k <= j { HalvedFalls(total, k, j); }
        }
        assert !granted(Halved(total, 0));
        return false, 0;
      }
    }
    return true, room;
  }
}
