/** From the table to the reported total: a scan of a quiet table followed by grouping its rows. */
module EndToEnd {
  import opened Chains
  import opened Tracker
  import opened TrackerInvariant
  import opened TrackerRuns
  import opened TrackerTheorems
  import opened TrackerSnapshot
  import opened TrackerVolume
  import opened LeakSites
  import Hashing
  import StackCache

  function Words(frames: seq<Ptr>): seq<Hashing.Word> {
    seq(|frames|, i requires 0 <= i < |frames| => ToWord(frames[i]))
  }

  /** A frame that is a 64-bit word already is taken as it is. */
  lemma WordAt(frames: seq<Ptr>, i: nat, w: Hashing.Word)
    requires i < |frames| && frames[i] == w as nat
    ensures |Words(frames)| == |frames| && Words(frames)[i] == w
  {
    WordOfNumber(w);
  }

  /** The grouping key of a record: its stack's hash, or a mix of its size when no stack was captured. */
  function KeyOf(e: Entry): nat {
    if |e.frames| > 0 then StackCache.StackKey(Words(e.frames)) else SizeKey(e.size)
  }

  /** 64-bit multiplication by the golden-ratio constant. */
  function SizeKey(size: nat): nat { size * 0x9E3779B97F4A7C15 % TWO64 }

  /** The key as the program gets it: from the cached entry of the stack, from the hash computed afresh when
      the cache has none, or from the size. */
  method ComputeKey(cache: StackCache.StackCache, e: Entry, ok: bool) returns (k: nat)
    requires cache.Valid() && cache.key == StackCache.StackKey && |e.frames| <= STACK_DEPTH
    modifies cache, cache.entries
    ensures cache.Valid() && k == KeyOf(e)
  {
    if |e.frames| == 0 { return SizeKey(e.size); }
    k := StackCache.GroupKey(cache, Words(e.frames), ok);
  }

  /** What a scan copies of a record for grouping. */
  function RowOf(key: Entry -> nat, e: Entry): Row { Row(key(e), e.size, e.stamp) }

  function RowsBy(key: Entry -> nat, rows: seq<Entry>): (r: seq<Row>)
    ensures |r| == |rows| && forall i :: 0 <= i < |r| ==> r[i] == RowOf(key, rows[i])
  {
    seq(|rows|, i requires 0 <= i < |rows| => RowOf(key, rows[i]))
  }

  function RowsOf(rows: seq<Entry>): (r: seq<Row>)
    ensures |r| == |rows|
  {
    RowsBy(KeyOf, rows)
  }

  lemma {:induction false} SameBytes(key: Entry -> nat, rows: seq<Entry>)
    ensures RowBytes(RowsBy(key, rows)) == Sizes(rows)
  {
    if rows != [] {
      SameBytes(key, rows[1..]);
      var r := RowOf(key, rows[0]);
      assert RowsBy(key, rows) == [r] + RowsBy(key, rows[1..]);
      BytesCons(r, RowsBy(key, rows[1..]));
    }
  }

  lemma {:induction false} BytesCons(r: Row, rows: seq<Row>)
    ensures RowBytes([r] + rows) == r.size + RowBytes(rows)
  {
    if rows == [] {
      assert [r] + rows == [r] && [r][..0] == [];
    } else {
      var n := |rows| - 1;
      assert ([r] + rows)[..n + 1] == [r] + rows[..n];
      BytesCons(r, rows[..n]);
    }
  }

  /** No row of a snapshot is empty. */
  lemma RowsPositive(states: seq<State>, events: seq<Event>, u: nat, room: nat, i: nat)
    requires ScanWindow(states, events, u, room) && i < |states|
    ensures forall r :: r in RowsOf(states[i].pcs[u].rows) ==> r.size > 0
  {
    var rows := states[i].pcs[u].rows;
    forall k | 0 <= k < |rows| ensures rows[k].size > 0 {
      var j := RowsWereLinked(states, events, u, room, rows[k], i);
      WindowInv(states, events, u, room, j);
    }
  }

  lemma QuietRowsPositive(states: seq<State>, events: seq<Event>, u: nat, x: Choice, i: nat)
    requires QuietScan(states, events, u, x) && 1 <= i < |states| && states[i].pcs[u].Report?
    ensures forall r :: r in RowsOf(states[i].pcs[u].rows) ==> r.size > 0
  {
    if states[0].ctr.entries <= 0 {
      QuietEmpty(states, events, u, x, i);
    } else {
      QuietOpens(states, events, u, x);
      QuietTail(states, events, u, x);
      RowsPositive(states[1..], events[1..], u, Room(states[0].ctr, x), i - 1);
    }
  }

  lemma QuietSizes(states: seq<State>, events: seq<Event>, u: nat, x: Choice, i: nat)
    requires QuietScan(states, events, u, x) && 1 <= i < |states| && states[i].pcs[u].Report?
    ensures Sizes(states[i].pcs[u].rows) <= states[i].ctr.current
  {
    if states[0].ctr.entries <= 0 {
      QuietEmpty(states, events, u, x, i);
      NoUnderflow(states[i]);
    } else {
      QuietOpens(states, events, u, x);
      QuietTail(states, events, u, x);
      QuietBytesBounded(states[1..], events[1..], u, Room(states[0].ctr, x), i - 1);
    }
  }

  /** A scan of a quiet table, from its first step on, reports as leaked at most the bytes that are
      currently allocated. With memory for all rows it reports all of them exactly when the records have at
      most 2048 distinct keys. */
  lemma ReportedBytes(states: seq<State>, events: seq<Event>, u: nat, x: Choice, i: nat)
    requires QuietScan(states, events, u, x) && 1 <= i < |states| && states[i].pcs[u].Report?
    ensures var rows := RowsOf(states[i].pcs[u].rows);
            var reported := RowBytes(KeepAll(rows, AllOk(|rows|)).rows);
            && reported <= states[i].ctr.current
            && (x.room >= states[i].ctr.entries ==> (reported == states[i].ctr.current <==> |Distinct(rows)| <= 2048))
  {
    var rows := RowsOf(states[i].pcs[u].rows);
    QuietScanExact(states, events, u, x, i);
    QuietSizes(states, events, u, x, i);
    SameBytes(KeyOf, states[i].pcs[u].rows);
    QuietRowsPositive(states, events, u, x, i);
    KeptBytesBounded(rows, AllOk(|rows|));
    AllBytesIff(rows);
  }

  /** Beside any number of mallocs and frees a scan reports at most total_bytes, whatever it skips. */
  lemma ConcurrentReportBounded(states: seq<State>, events: seq<Event>, u: nat, room: nat, i: nat, ok: seq<bool>)
    requires ScanWindow(states, events, u, room) && i < |states| && |ok| == |states[i].pcs[u].rows|
    ensures RowBytes(KeepAll(RowsOf(states[i].pcs[u].rows), ok).rows) <= states[i].ctr.total
  {
    var rows := states[i].pcs[u].rows;
    ScanBytesBounded(states, events, u, room, i);
    SameBytes(KeyOf, rows);
    KeptBytesBounded(RowsOf(rows), ok);
  }

  /** The report as the program computes it. */
  method Report(rows: seq<Entry>, ok: seq<bool>, c: Clock) returns (t: LeakTable, total: nat)
    requires |ok| == |rows|
    ensures fresh(t) && t.Valid() && t.c == c && t.kept == KeepAll(RowsOf(rows), ok)
    ensures total == RowBytes(KeepAll(RowsOf(rows), ok).rows) <= Sizes(rows)
  {
    t, total := Group(RowsOf(rows), ok, c);
    SameBytes(KeyOf, rows);
    KeptBytesBounded(RowsOf(rows), ok);
  }

  /** Two records with the same captured frames, Thumb bits aside, are grouped together. */
  lemma SameStackSameSite(e: Entry, f: Entry)
    requires |e.frames| > 0 && Hashing.Cleared(Words(e.frames)) == Hashing.Cleared(Words(f.frames))
    ensures KeyOf(e) == KeyOf(f)
  {
    Hashing.StackHashIgnoresThumb(Words(e.frames), Words(f.frames));
  }

  // ---- a site in terms of the records ---------------------------------------------------------------

  /** The records with key `h`. */
  function Keyed(key: Entry -> nat, rows: seq<Entry>, h: nat): seq<Entry> {
    if rows == [] then []
    else
      var m, e := Keyed(key, rows[..|rows| - 1], h), rows[|rows| - 1];
      if key(e) == h then m + [e] else m
  }

  lemma {:induction false} KeyedOf(key: Entry -> nat, rows: seq<Entry>, h: nat, e: Entry)
    ensures e in Keyed(key, rows, h) <==> e in rows && key(e) == h
  {
    if rows != [] {
      var n := |rows| - 1;
      assert rows == rows[..n] + [rows[n]];
      KeyedOf(key, rows[..n], h, e);
    }
  }

  lemma {:induction false} KeyedRows(key: Entry -> nat, rows: seq<Entry>, h: nat)
    ensures Mine(h, RowsBy(key, rows)) == RowsBy(key, Keyed(key, rows, h))
  {
    if rows != [] {
      var n := |rows| - 1;
      var e, m := rows[n], Keyed(key, rows[..n], h);
      KeyedRows(key, rows[..n], h);
      assert RowsBy(key, rows) == RowsBy(key, rows[..n]) + [RowOf(key, e)];
      MineSnoc(h, RowsBy(key, rows[..n]), RowOf(key, e));
      assert RowsBy(key, m + [e]) == RowsBy(key, m) + [RowOf(key, e)];
    }
  }

  /** A site of the report, for any key, counts exactly the scanned records with its key and their bytes. */
  lemma SiteCountsRecords(key: Entry -> nat, rows: seq<Entry>, s: Site, b: nat, c: Clock)
    requires SiteOk(s, b, KeepAll(RowsBy(key, rows), AllOk(|rows|)), c)
    ensures s.count == |Keyed(key, rows, s.hash)| > 0 && s.total == Sizes(Keyed(key, rows, s.hash))
  {
    KeptSiteIsExact(RowsBy(key, rows), s, b, c);
    KeyedRows(key, rows, s.hash);
    SameBytes(key, Keyed(key, rows, s.hash));
  }

  /** It has the latest of their times, and it has expired exactly if there is a threshold and one of them
      is older than that. */
  lemma SiteTimesRecords(key: Entry -> nat, rows: seq<Entry>, s: Site, b: nat, c: Clock)
    requires SiteOk(s, b, KeepAll(RowsBy(key, rows), AllOk(|rows|)), c)
    ensures forall e :: e in rows && key(e) == s.hash ==> e.stamp <= s.last
    ensures exists e :: e in rows && key(e) == s.hash && e.stamp == s.last
    ensures s.expired <==> c.threshold > 0 && exists e :: e in rows && key(e) == s.hash && c.now - e.stamp > c.threshold
  {
    var all := RowsBy(key, rows);
    KeptSiteIsExact(all, s, b, c);
    forall r | r in all ensures exists e :: e in rows && RowOf(key, e) == r {
      var k :| 0 <= k < |all| && all[k] == r;
      assert rows[k] in rows;
    }
    forall e | e in rows ensures RowOf(key, e) in all {
      var k :| 0 <= k < |rows| && rows[k] == e;
      assert all[k] == RowOf(key, e);
    }
  }

  // ---- keys that differ -----------------------------------------------------------------------------

  /** Records without a stack are grouped by their exact size. */
  lemma SizesApart(e: Entry, f: Entry)
    requires e.frames == [] && f.frames == [] && e.size < TWO64 && f.size < TWO64
    ensures KeyOf(e) == KeyOf(f) <==> e.size == f.size
  {
    SizeKeyUndone(e.size);
    SizeKeyUndone(f.size);
  }

  /** The multiplication is undone by multiplying with the constant's inverse. */
  lemma SizeKeyUndone(n: nat)
    requires n < TWO64
    ensures SizeKey(n) * 0xF1DE83E19937733D % TWO64 == n
  {
    var q := n * 0x9E3779B97F4A7C15 / TWO64;
    assert SizeKey(n) == n * 0x9E3779B97F4A7C15 - q * TWO64;
    Wraps(n, n * 10771413168148108919 - q * 0xF1DE83E19937733D);
  }

  /** Stacks of at most four frames that differ in exactly one hashed frame are never grouped together. */
  lemma StacksApart(e: Entry, f: Entry, i: nat)
    requires |e.frames| == |f.frames| && 1 <= |e.frames| <= 4 && i < |e.frames| && (|e.frames| > 1 ==> i > 0)
    requires var v, w := Words(e.frames), Words(f.frames);
             && Hashing.Clear(v[i]) != Hashing.Clear(w[i])
             && forall j :: 0 < j < |v| && j != i ==> Hashing.Clear(v[j]) == Hashing.Clear(w[j])
    ensures KeyOf(e) != KeyOf(f)
  {
    var v, w := Words(e.frames), Words(f.frames);
    StackCache.StackKeysApart(v, w, i);
  }
}
