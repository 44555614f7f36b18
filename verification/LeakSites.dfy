/** Grouping snapshot rows into leak sites by hash, in a table with room for 2048 sites. */
module LeakSites {
  import opened Sums

  const SITES: nat := 2048

  datatype Row = Row(hash: nat, size: nat, stamp: int)

  datatype Site = Site(hash: nat, count: nat, total: nat, per: nat, first: int, last: int, expired: bool)

  /** When the scan runs, and after how many seconds an allocation counts as expired (0: never). */
  datatype Clock = Clock(now: int, threshold: nat)

  predicate Expired(r: Row, c: Clock) { c.threshold > 0 && c.now - r.stamp > c.threshold }

  function Seen(r: Row, c: Clock): int { if r.stamp > 0 then r.stamp else c.now }

  function Open(r: Row, c: Clock): Site {
    Site(r.hash, 1, r.size, r.size, Seen(r, c), r.stamp, Expired(r, c))
  }

  function Hit(s: Site, r: Row, c: Clock): Site {
    Site(s.hash, s.count + 1, s.total + r.size, s.per, if s.first == 0 then Seen(r, c) else s.first,
         if r.stamp > s.last then r.stamp else s.last, s.expired || Expired(r, c))
  }

  function Fold(rows: seq<Row>, c: Clock): Site
    requires rows != []
  {
    if |rows| == 1 then Open(rows[0], c) else Hit(Fold(rows[..|rows| - 1], c), rows[|rows| - 1], c)
  }

  function RowBytes(rows: seq<Row>): (n: nat) {
    if rows == [] then 0 else RowBytes(rows[..|rows| - 1]) + rows[|rows| - 1].size
  }

  /** The rows of one hash. */
  function Mine(h: nat, rows: seq<Row>): seq<Row> {
    if rows == [] then []
    else
      var m, r := Mine(h, rows[..|rows| - 1]), rows[|rows| - 1];
      if r.hash == h then m + [r] else m
  }

  lemma {:induction false} MineOf(h: nat, rows: seq<Row>, r: Row)
    ensures r in Mine(h, rows) <==> r in rows && r.hash == h
  {
    if rows != [] { MineOf(h, rows[..|rows| - 1], r); }
  }

  /** The first positive time in the rows, or 0 if there is none. */
  ghost predicate FirstPositive(rows: seq<Row>, first: int) {
    || (first == 0 && forall i :: 0 <= i < |rows| ==> rows[i].stamp <= 0)
    || (first > 0 && exists i :: 0 <= i < |rows| && rows[i].stamp == first && forall j :: 0 <= j < i ==> rows[j].stamp <= 0)
  }

  /** A site's fields are the aggregates of its rows: how many, how large together, the size of the
      first, the latest time, whether any has expired, and the first row's time. */
  lemma {:induction false} SiteIsAggregate(rows: seq<Row>, c: Clock)
    requires rows != []
    ensures var s := Fold(rows, c);
            && s.count == |rows| && s.total == RowBytes(rows) && s.per == rows[0].size && s.hash == rows[0].hash
            && (forall r :: r in rows ==> r.stamp <= s.last) && (exists r :: r in rows && r.stamp == s.last)
            && (s.expired <==> c.threshold > 0 && exists r :: r in rows && c.now - r.stamp > c.threshold)
            && (c.now != 0 ==> s.first == if rows[0].stamp > 0 then rows[0].stamp else c.now)
            && (c.now == 0 ==> FirstPositive(rows, s.first))
  {
    var n := |rows| - 1;
    assert rows == rows[..n] + [rows[n]];
    if n > 0 {
      SiteIsAggregate(rows[..n], c);
      var s := Fold(rows[..n], c);
      var r :| r in rows[..n] && r.stamp == s.last;
      assert r in rows && rows[n] in rows;
      if c.now == 0 { FirstPositiveNext(rows, s.first); }
    } else {
      assert rows[..0] == [] && rows[0] in rows;
    }
  }

  lemma FirstPositiveNext(rows: seq<Row>, first: int)
    requires rows != [] && FirstPositive(rows[..|rows| - 1], first)
    ensures var r := rows[|rows| - 1]; FirstPositive(rows, if first == 0 && r.stamp > 0 then r.stamp else first)
  {
    var n := |rows| - 1;
    var front := rows[..n];
    if first > 0 {
      var i :| 0 <= i < |front| && front[i].stamp == first && forall j :: 0 <= j < i ==> front[j].stamp <= 0;
      assert rows[i].stamp == first && forall j :: 0 <= j < i ==> rows[j].stamp == front[j].stamp;
    } else {
      assert forall j :: 0 <= j < n ==> rows[j].stamp == front[j].stamp;
    }
  }

  /** Which hashes have a site and which rows went into one: a row goes in if its hash has a site
      already, or if there is room and memory for a new one. */
  datatype Kept = Kept(hashes: seq<nat>, rows: seq<Row>)

  function Keep(k: Kept, r: Row, ok: bool): Kept {
    if r.hash in k.hashes then Kept(k.hashes, k.rows + [r])
    else if |k.hashes| < SITES && ok then Kept(k.hashes + [r.hash], k.rows + [r])
    else k
  }

  function KeepAll(rows: seq<Row>, ok: seq<bool>): Kept
    requires |ok| == |rows|
  {
    if rows == [] then Kept([], [])
    else Keep(KeepAll(rows[..|rows| - 1], ok[..|rows| - 1]), rows[|rows| - 1], ok[|rows| - 1])
  }

  function TotalOf(sites: seq<Site>): nat {
    if sites == [] then 0 else sites[0].total + TotalOf(sites[1..])
  }

  /** Site `k` of a chain takes in one more row. */
  lemma {:induction false} TotalHit(sites: seq<Site>, k: nat, r: Row, c: Clock)
    requires k < |sites|
    ensures TotalOf(sites[k := Hit(sites[k], r, c)]) == TotalOf(sites) + r.size
  {
    if k == 0 {
      assert sites[0 := Hit(sites[0], r, c)][1..] == sites[1..];
    } else {
      TotalHit(sites[1..], k - 1, r, c);
      assert sites[k := Hit(sites[k], r, c)][1..] == sites[1..][k - 1 := Hit(sites[k], r, c)];
    }
  }

  ghost function Totals(chains: seq<seq<Site>>): seq<int> {
    seq(|chains|, b requires 0 <= b < |chains| => TotalOf(chains[b]))
  }

  /** A chain holds one site for each kept hash of its bucket, with that hash's aggregate, and no other. */
  ghost predicate ChainOk(chain: seq<Site>, b: nat, k: Kept, c: Clock) {
    && (forall i :: 0 <= i < |chain| ==> SiteOk(chain[i], b, k, c))
    && (forall i, j :: 0 <= i < j < |chain| ==> chain[i].hash != chain[j].hash)
    && (forall h :: h in k.hashes && h % SITES == b ==> exists i :: 0 <= i < |chain| && chain[i].hash == h)
  }

  ghost predicate SiteOk(s: Site, b: nat, k: Kept, c: Clock) {
    && s.hash in k.hashes && s.hash % SITES == b
    && Mine(s.hash, k.rows) != [] && s == Fold(Mine(s.hash, k.rows), c)
  }

  lemma MineSnoc(h: nat, rows: seq<Row>, r: Row)
    ensures Mine(h, rows + [r]) == if r.hash == h then Mine(h, rows) + [r] else Mine(h, rows)
  {
    assert (rows + [r])[..|rows|] == rows;
  }

  lemma FoldSnoc(rows: seq<Row>, r: Row, c: Clock)
    ensures Fold(rows + [r], c) == if rows == [] then Open(r, c) else Hit(Fold(rows, c), r, c)
  {
    assert (rows + [r])[..|rows|] == rows;
  }

  /** A row of another hash does not touch a site. */
  lemma SiteUntouched(s: Site, b: nat, k: Kept, r: Row, ok: bool, c: Clock)
    requires SiteOk(s, b, k, c) && s.hash != r.hash
    ensures SiteOk(s, b, Keep(k, r, ok), c)
  {
    MineSnoc(s.hash, k.rows, r);
  }

  lemma ChainUntouched(chain: seq<Site>, b: nat, k: Kept, r: Row, ok: bool, c: Clock)
    requires ChainOk(chain, b, k, c) && r.hash % SITES != b
    ensures ChainOk(chain, b, Keep(k, r, ok), c)
  {
    forall i | 0 <= i < |chain| ensures SiteOk(chain[i], b, Keep(k, r, ok), c) {
      SiteUntouched(chain[i], b, k, r, ok, c);
    }
  }

  lemma ChainHit(chain: seq<Site>, b: nat, k: Kept, r: Row, ok: bool, c: Clock, i: nat)
    requires ChainOk(chain, b, k, c) && i < |chain| && chain[i].hash == r.hash
    ensures ChainOk(chain[i := Hit(chain[i], r, c)], b, Keep(k, r, ok), c)
  {
    var k', chain' := Keep(k, r, ok), chain[i := Hit(chain[i], r, c)];
    MineSnoc(r.hash, k.rows, r);
    FoldSnoc(Mine(r.hash, k.rows), r, c);
    forall j | 0 <= j < |chain| ensures SiteOk(chain'[j], b, k', c) {
      if j != i { SiteUntouched(chain[j], b, k, r, ok, c); }
    }
    forall h | h in k'.hashes && h % SITES == b ensures exists j :: 0 <= j < |chain'| && chain'[j].hash == h {
      var j :| 0 <= j < |chain| && chain[j].hash == h;
      assert chain'[j].hash == h;
    }
  }

  lemma ChainOpened(chain: seq<Site>, b: nat, k: Kept, r: Row, c: Clock)
    requires ChainOk(chain, b, k, c) && r.hash % SITES == b && r.hash !in k.hashes && |k.hashes| < SITES
    requires forall x :: x in k.rows ==> x.hash in k.hashes
    ensures ChainOk([Open(r, c)] + chain, b, Keep(k, r, true), c)
  {
    var k', chain' := Keep(k, r, true), [Open(r, c)] + chain;
    if Mine(r.hash, k.rows) != [] { MineOf(r.hash, k.rows, Mine(r.hash, k.rows)[0]); }
    MineSnoc(r.hash, k.rows, r);
    forall j | 0 <= j < |chain'| ensures SiteOk(chain'[j], b, k', c) {
      if j > 0 { SiteUntouched(chain[j - 1], b, k, r, true, c); }
    }
    forall h | h in k'.hashes && h % SITES == b ensures exists j :: 0 <= j < |chain'| && chain'[j].hash == h {
      if h == r.hash {
        assert chain'[0].hash == h;
      } else {
        var j :| 0 <= j < |chain| && chain[j].hash == h;
        assert chain'[j + 1].hash == h;
      }
    }
  }

  class LeakTable {
    const c: Clock
    const entries: array<seq<Site>>
    var count: nat
    ghost var kept: Kept

    ghost predicate Valid()
      reads this, entries
    {
      && entries.Length == SITES && count == |kept.hashes| <= SITES
      && (forall b: nat :: b < SITES ==> ChainOk(entries[b], b, kept, c))
      && (forall r :: r in kept.rows ==> r.hash in kept.hashes)
      && Sum(Totals(entries[..])) == RowBytes(kept.rows)
    }

    constructor (c: Clock)
      ensures Valid() && fresh(entries) && this.c == c && kept == Kept([], [])
    {
      this.c := c;
      entries := new seq<Site>[SITES](i => []);
      count := 0;
      kept := Kept([], []);
      new;
      SumConst(Totals(entries[..]), 0);
    }

    /** Where the site of hash `h` is in its chain, or the chain's length. */
    method Find(h: nat) returns (i: nat)
      requires Valid()
      ensures i <= |entries[h % SITES]|
      ensures i < |entries[h % SITES]| ==> entries[h % SITES][i].hash == h
      ensures i < |entries[h % SITES]| <==> h in kept.hashes
    {
      var chain := entries[h % SITES];
      i := 0;
      while i < |chain| && chain[i].hash != h
        invariant i <= |chain| && forall j :: 0 <= j < i ==> chain[j].hash != h
      {
        i := i + 1;
      }
    }

    /** One snapshot row: into its site, into a new site, or skipped. */
    method Add(r: Row, ok: bool)
      requires Valid()
      modifies this, entries
      ensures Valid() && kept == Keep(old(kept), r, ok)
    {
      var b := r.hash % SITES;
      var i := Find(r.hash);
      ghost var was := entries[..];
      if i < |entries[b]| {
        TotalHit(was[b], i, r, c);
        ChainHit(was[b], b, kept, r, ok, c, i);
        entries[b] := entries[b][i := Hit(entries[b][i], r, c)];
      } else if count < SITES {
        if !ok { return; }
        ChainOpened(was[b], b, kept, r, c);
        entries[b] := [Open(r, c)] + entries[b];
        count := count + 1;
      } else {
        return;
      }
      kept := Keep(kept, r, ok);
      assert (old(kept).rows + [r])[..|old(kept).rows|] == old(kept).rows;
      assert Totals(entries[..]) == Totals(was)[b := TotalOf(entries[b])];
      SumUpdate(Totals(was), b, TotalOf(entries[b]));
      forall d: nat | d < SITES && d != b ensures ChainOk(entries[d], d, kept, c) {
        ChainUntouched(was[d], d, old(kept), r, ok, c);
      }
    }

    /** leak_bytes_total: the sites' totals added up are the bytes of the rows that went in. */
    method LeakBytes() returns (total: nat)
      requires Valid()
      ensures total == RowBytes(kept.rows)
    {
      total := 0;
      for b := 0 to SITES
        invariant total == Sum(Totals(entries[..])[..b])
      {
        var i := 0;
        ghost var before := total;
        while i < |entries[b]|
          invariant i <= |entries[b]| && total + TotalOf(entries[b][i..]) == before + TotalOf(entries[b])
        {
          assert entries[b][i..][1..] == entries[b][i + 1..];
          total := total + entries[b][i].total;
          i := i + 1;
        }
        assert Totals(entries[..])[..b + 1][..b] == Totals(entries[..])[..b];
      }
      assert Totals(entries[..])[..SITES] == Totals(entries[..]);
    }
  }

  /** Stage 2 of a scan: group all rows, then add the sites up. */
  method Group(rows: seq<Row>, ok: seq<bool>, c: Clock) returns (t: LeakTable, total: nat)
    requires |ok| == |rows|
    ensures fresh(t) && fresh(t.entries) && t.Valid() && t.c == c
    ensures t.kept == KeepAll(rows, ok) && total == RowBytes(t.kept.rows)
  {
    t := new LeakTable(c);
    for i := 0 to |rows|
      invariant t.Valid() && t.c == c && t.kept == KeepAll(rows[..i], ok[..i])
      invariant fresh(t) && fresh(t.entries)
    {
      assert rows[..i + 1][..i] == rows[..i] && ok[..i + 1][..i] == ok[..i];
      t.Add(rows[i], ok[i]);
    }
    assert rows[..|rows|] == rows && ok[..|rows|] == ok;
    total := t.LeakBytes();
  }

  // ---- what is kept when memory suffices ------------------------------------------------------------

  function AllOk(n: nat): seq<bool> { seq(n, i => true) }

  /** The distinct hashes in the order in which they first occur. */
  function Distinct(rows: seq<Row>): (hs: seq<nat>) {
    if rows == [] then []
    else
      var hs, h := Distinct(rows[..|rows| - 1]), rows[|rows| - 1].hash;
      if h in hs then hs else hs + [h]
  }

  lemma {:induction false} DistinctHas(rows: seq<Row>, r: Row)
    requires r in rows
    ensures r.hash in Distinct(rows)
  {
    var n := |rows| - 1;
    if r != rows[n] { DistinctHas(rows[..n], r); }
  }

  function Prefix(hs: seq<nat>, n: nat): seq<nat> { if |hs| <= n then hs else hs[..n] }

  /** The rows whose hash is one of `hs`. */
  function Only(rows: seq<Row>, hs: seq<nat>): seq<Row> {
    if rows == [] then []
    else
      var o, r := Only(rows[..|rows| - 1], hs), rows[|rows| - 1];
      if r.hash in hs then o + [r] else o
  }

  lemma {:induction false} OnlyGrows(rows: seq<Row>, hs: seq<nat>, h: nat)
    requires forall r :: r in rows ==> r.hash != h
    ensures Only(rows, hs + [h]) == Only(rows, hs)
  {
    if rows != [] {
      var n := |rows| - 1;
      assert rows[n] in rows && forall r :: r in rows[..n] ==> r in rows;
      OnlyGrows(rows[..n], hs, h);
    }
  }

  /** Exactly the first 2048 distinct hashes get a site, and exactly their rows are counted. */
  lemma {:induction false} FirstHashesKept(rows: seq<Row>)
    ensures KeepAll(rows, AllOk(|rows|)).hashes == Prefix(Distinct(rows), 2048)
    ensures KeepAll(rows, AllOk(|rows|)).rows == Only(rows, Prefix(Distinct(rows), 2048))
  {
    if rows != [] {
      var front, r := rows[..|rows| - 1], rows[|rows| - 1];
      var hs := Distinct(front);
      FirstHashesKept(front);
      assert AllOk(|rows|)[..|front|] == AllOk(|front|);
      if r.hash !in hs && |hs| < SITES {
        forall x | x in front ensures x.hash != r.hash { DistinctHas(front, x); }
        OnlyGrows(front, hs, r.hash);
      }
    }
  }

  /** Every row of a kept hash is in that hash's site, in order. */
  lemma {:induction false} MineKept(h: nat, rows: seq<Row>, hs: seq<nat>)
    requires h in hs
    ensures Mine(h, Only(rows, hs)) == Mine(h, rows)
  {
    if rows != [] {
      var n := |rows| - 1;
      MineKept(h, rows[..n], hs);
      MineSnoc(h, Only(rows[..n], hs), rows[n]);
    }
  }

  /** So the site of a kept hash aggregates over all rows of the snapshot with that hash. */
  lemma KeptSiteIsExact(rows: seq<Row>, s: Site, b: nat, c: Clock)
    requires SiteOk(s, b, KeepAll(rows, AllOk(|rows|)), c)
    ensures Mine(s.hash, rows) != [] && s == Fold(Mine(s.hash, rows), c)
    ensures s.count == |Mine(s.hash, rows)| && s.total == RowBytes(Mine(s.hash, rows))
    ensures forall r :: r in rows && r.hash == s.hash ==> r.stamp <= s.last
    ensures exists r :: r in rows && r.hash == s.hash && r.stamp == s.last
    ensures s.expired <==> c.threshold > 0 && exists r :: r in rows && r.hash == s.hash && c.now - r.stamp > c.threshold
    ensures var r := Mine(s.hash, rows)[0];
            s.per == r.size && (c.now != 0 ==> s.first == if r.stamp > 0 then r.stamp else c.now)
  {
    FirstHashesKept(rows);
    MineKept(s.hash, rows, Prefix(Distinct(rows), SITES));
    SiteIsAggregate(Mine(s.hash, rows), c);
    forall r ensures r in Mine(s.hash, rows) <==> r in rows && r.hash == s.hash { MineOf(s.hash, rows, r); }
  }

  /** No scan counts more bytes than its snapshot holds, whatever is skipped. */
  lemma {:induction false} KeptBytesBounded(rows: seq<Row>, ok: seq<bool>)
    requires |ok| == |rows|
    ensures RowBytes(KeepAll(rows, ok).rows) <= RowBytes(rows)
  {
    if rows != [] {
      var n := |rows| - 1;
      KeptBytesBounded(rows[..n], ok[..n]);
      var k := KeepAll(rows[..n], ok[..n]);
      assert (k.rows + [rows[n]])[..|k.rows|] == k.rows;
    }
  }

  lemma {:induction false} OnlyBytes(rows: seq<Row>, hs: seq<nat>)
    requires forall r :: r in rows ==> r.size > 0
    ensures RowBytes(Only(rows, hs)) <= RowBytes(rows)
    ensures RowBytes(Only(rows, hs)) == RowBytes(rows) <==> forall r :: r in rows ==> r.hash in hs
  {
    if rows != [] {
      var n := |rows| - 1;
      var o := Only(rows[..n], hs);
      assert rows == rows[..n] + [rows[n]];
      OnlyBytes(rows[..n], hs);
      assert (o + [rows[n]])[..|o|] == o;
    }
  }

  lemma {:induction false} DistinctOf(rows: seq<Row>, i: nat)
    requires i < |Distinct(rows)|
    ensures exists r :: r in rows && r.hash == Distinct(rows)[i]
    ensures Distinct(rows)[i] !in Distinct(rows)[..i]
  {
    var n := |rows| - 1;
    var hs := Distinct(rows[..n]);
    if i < |hs| {
      DistinctOf(rows[..n], i);
      assert Distinct(rows)[..i] == hs[..i];
    } else {
      assert rows[n] in rows;
      assert Distinct(rows)[..i] == hs;
    }
  }

  /** With memory, and no empty rows, all bytes are counted exactly when the snapshot has at most 2048
      distinct hashes. */
  lemma AllBytesIff(rows: seq<Row>)
    requires forall r :: r in rows ==> r.size > 0
    ensures RowBytes(KeepAll(rows, AllOk(|rows|)).rows) == RowBytes(rows) <==> |Distinct(rows)| <= 2048
  {
    var hs := Distinct(rows);
    FirstHashesKept(rows);
    OnlyBytes(rows, Prefix(hs, SITES));
    if |hs| <= SITES {
      forall r | r in rows ensures r.hash in hs { DistinctHas(rows, r); }
    } else {
      DistinctOf(rows, SITES);
    }
  }

  // ---- when memory is short ---------------------------------------------------------------------------

  /** Row j could have opened a site: there was memory for one and room in the table. */
  ghost predicate Opens(rows: seq<Row>, ok: seq<bool>, j: nat, h: nat)
    requires |ok| == |rows|
  {
    j < |rows| && rows[j].hash == h && ok[j] && |KeepAll(rows[..j], ok[..j]).hashes| < 2048
  }

  /** A hash has a site exactly if some row of that hash came when there was memory and room for one. */
  lemma {:induction false} SiteExistsIff(rows: seq<Row>, ok: seq<bool>, h: nat)
    requires |ok| == |rows|
    ensures h in KeepAll(rows, ok).hashes <==> exists j: nat :: Opens(rows, ok, j, h)
  {
    if rows != [] {
      var n := |rows| - 1;
      var front, fok := rows[..n], ok[..n];
      SiteExistsIff(front, fok, h);
      forall j: nat | j < n ensures Opens(front, fok, j, h) <==> Opens(rows, ok, j, h) {
        assert front[..j] == rows[..j] && fok[..j] == ok[..j];
      }
      if h in KeepAll(rows, ok).hashes && h !in KeepAll(front, fok).hashes {
        assert Opens(rows, ok, n, h);
      }
      if j: nat :| Opens(rows, ok, j, h) {
        if j == n && h !in KeepAll(front, fok).hashes { assert h in KeepAll(rows, ok).hashes; }
      }
    }
  }

  /** And a row is counted exactly if its hash has a site by then. */
  lemma RowCountedIff(rows: seq<Row>, ok: seq<bool>, r: Row, good: bool)
    requires |ok| == |rows|
    ensures var k, k' := KeepAll(rows, ok), KeepAll(rows + [r], ok + [good]);
            k'.rows == if r.hash in k'.hashes then k.rows + [r] else k.rows
  {
    assert (rows + [r])[..|rows|] == rows && (ok + [good])[..|ok|] == ok;
  }
}
