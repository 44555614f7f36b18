/** How much each leak site has grown since the last saved scan, over any run of scans. */
module GrowthLedger {
  import opened LeakSites

  /** The value the ledger holds for hash `h`: that of its first match, or 0. */
  function Prev(hashes: seq<nat>, sizes: seq<nat>, h: nat): nat
    requires |hashes| == |sizes|
  {
    if hashes == [] then 0 else if hashes[0] == h then sizes[0] else Prev(hashes[1..], sizes[1..], h)
  }

  function HashesOf(sites: seq<Site>): seq<nat> { seq(|sites|, i requires 0 <= i < |sites| => sites[i].hash) }
  function TotalsOf(sites: seq<Site>): seq<nat> { seq(|sites|, i requires 0 <= i < |sites| => sites[i].total) }

  /** A scan's total for `h`, 0 when no site has that hash. */
  function TotalFor(sites: seq<Site>, h: nat): nat { Prev(HashesOf(sites), TotalsOf(sites), h) }

  function Rise(total: nat, prev: nat): nat { if total > prev then total - prev else 0 }

  /** How a scan ends: whether there was memory for the sorted array of sites, without which no
      difference is computed; whether the report file could be opened, without which the ledger stays as
      it was; and whether there was memory for the new ledger, without which it is left empty. */
  datatype Outcome = Outcome(sorted: bool, written: bool, saved: bool)

  predicate Complete(o: Outcome) { o.sorted && o.written && o.saved }

  class Ledger {
    var hashes: seq<nat>
    var sizes: seq<nat>
    /** The scans the ledger has been through. */
    ghost var scans: seq<Scan>

    ghost predicate Valid()
      reads this
    {
      |hashes| == |sizes| && Book(hashes, sizes) == Books(scans)
    }

    constructor ()
      ensures Valid() && scans == []
    {
      hashes, sizes, scans := [], [], [];
    }

    /** The differences of all sites of a scan: for each, a search of the saved hashes. */
    method Diffs(sites: seq<Site>) returns (diffs: seq<nat>)
      requires Valid()
      ensures |diffs| == |sites|
      ensures forall i :: 0 <= i < |sites| ==> diffs[i] == Rise(sites[i].total, Prev(hashes, sizes, sites[i].hash))
    {
      diffs := [];
      for i := 0 to |sites|
        invariant |diffs| == i
        invariant forall k :: 0 <= k < i ==> diffs[k] == Rise(sites[k].total, Prev(hashes, sizes, sites[k].hash))
      {
        var prev, j := 0, 0;
        while j < |hashes|
          invariant j <= |hashes| && prev == 0
          invariant Prev(hashes, sizes, sites[i].hash) == Prev(hashes[j..], sizes[j..], sites[i].hash)
        {
          if hashes[j] == sites[i].hash {
            prev := sizes[j];
            break;
          }
          j := j + 1;
        }
        diffs := diffs + [if sites[i].total > prev then sites[i].total - prev else 0];
      }
    }

    /** The end of a scan. */
    method Save(sites: seq<Site>, o: Outcome)
      requires Valid()
      modifies this
      ensures Valid() && scans == old(scans) + [Scan(sites, o)]
      ensures Book(hashes, sizes) == After(Book(old(hashes), old(sizes)), sites, o)
    {
      BooksSnoc(scans, Scan(sites, o));
      scans := scans + [Scan(sites, o)];
      if !o.written { return; }
      hashes, sizes := [], [];
      if o.sorted && |sites| > 0 && o.saved {
        for i := 0 to |sites|
          invariant hashes == HashesOf(sites)[..i] && sizes == TotalsOf(sites)[..i]
          invariant scans == old(scans) + [Scan(sites, o)]
        {
          hashes, sizes := hashes + [sites[i].hash], sizes + [sites[i].total];
        }
      }
    }

    /** Stages 4 to 6.5 of a scan: each site is reported with exactly the difference the laws below add
        up for its hash, and the ledger has been through one scan more. */
    method Account(sites: seq<Site>, o: Outcome) returns (diffs: seq<nat>)
      requires Valid() && forall i, j :: 0 <= i < j < |sites| ==> sites[i].hash != sites[j].hash
      modifies this
      ensures Valid() && scans == old(scans) + [Scan(sites, o)]
      ensures |diffs| == |sites| && forall i :: 0 <= i < |sites| ==> diffs[i] == LastDiff(scans, sites[i].hash)
    {
      diffs := seq(|sites|, i => 0);
      if o.sorted { diffs := Diffs(sites); }
      forall i | 0 <= i < |sites| ensures diffs[i] == LastDiff(scans + [Scan(sites, o)], sites[i].hash) {
        SiteTotal(sites, i);
        assert (scans + [Scan(sites, o)])[..|scans|] == scans;
      }
      Save(sites, o);
    }
  }

  datatype Book = Book(hashes: seq<nat>, sizes: seq<nat>)

  function After(b: Book, sites: seq<Site>, o: Outcome): Book {
    if !o.written then b else if o.sorted && o.saved then Book(HashesOf(sites), TotalsOf(sites)) else Book([], [])
  }

  datatype Scan = Scan(sites: seq<Site>, outcome: Outcome)

  /** The ledger after a run of scans. */
  function Books(scans: seq<Scan>): (b: Book)
    ensures |b.hashes| == |b.sizes|
  {
    if scans == [] then Book([], [])
    else
      var n := |scans| - 1;
      After(Books(scans[..n]), scans[n].sites, scans[n].outcome)
  }

  lemma BooksSnoc(scans: seq<Scan>, e: Scan)
    ensures Books(scans + [e]) == After(Books(scans), e.sites, e.outcome)
  {
    assert (scans + [e])[..|scans|] == scans;
  }

  function Known(scans: seq<Scan>, h: nat): nat { Prev(Books(scans).hashes, Books(scans).sizes, h) }

  /** The difference reported for `h` by the last scan of a run. */
  function LastDiff(scans: seq<Scan>, h: nat): nat
    requires scans != []
  {
    var n := |scans| - 1;
    if !scans[n].outcome.sorted then 0 else Rise(TotalFor(scans[n].sites, h), Known(scans[..n], h))
  }

  /** What the ledger knows is what the last scan held whose report was written, if that scan could sort
      and save, and nothing otherwise: a scan that is not written leaves the ledger as it was. */
  lemma {:induction false} KnownIsLastWritten(scans: seq<Scan>, h: nat, k: nat)
    requires k < |scans| && scans[k].outcome.written && forall j :: k < j < |scans| ==> !scans[j].outcome.written
    ensures Known(scans, h) == if scans[k].outcome.sorted && scans[k].outcome.saved then TotalFor(scans[k].sites, h) else 0
    decreases |scans|
  {
    if k < |scans| - 1 { KnownIsLastWritten(scans[..|scans| - 1], h, k); }
  }

  lemma {:induction false} KnownUnwritten(scans: seq<Scan>, h: nat)
    requires forall j :: 0 <= j < |scans| ==> !scans[j].outcome.written
    ensures Known(scans, h) == 0
  {
    if scans != [] { KnownUnwritten(scans[..|scans| - 1], h); }
  }

  /** So the difference a scan reports is the rise since the last written scan, however many unwritten
      ones came between. */
  lemma DiffSinceWritten(scans: seq<Scan>, h: nat, k: nat)
    requires k < |scans| - 1 && scans[|scans| - 1].outcome.sorted && Complete(scans[k].outcome)
    requires forall j :: k < j < |scans| - 1 ==> !scans[j].outcome.written
    ensures var now, was := TotalFor(scans[|scans| - 1].sites, h), TotalFor(scans[k].sites, h);
            LastDiff(scans, h) == if now > was then now - was else 0
  {
    KnownIsLastWritten(scans[..|scans| - 1], h, k);
  }

  function SumOfDiffs(scans: seq<Scan>, h: nat): nat {
    if scans == [] then 0 else SumOfDiffs(scans[..|scans| - 1], h) + LastDiff(scans, h)
  }

  function LastTotal(scans: seq<Scan>, h: nat): nat {
    if scans == [] then 0 else TotalFor(scans[|scans| - 1].sites, h)
  }

  /** Nothing grows unreported: however the scans before it ended, once a scan has had memory to sort its
      sites the differences reported for a site so far add up to at least what it holds now. */
  lemma {:induction false} DiffsCoverTotal(scans: seq<Scan>, h: nat)
    ensures Known(scans, h) <= SumOfDiffs(scans, h)
    ensures (scans != [] ==> scans[|scans| - 1].outcome.sorted) ==> LastTotal(scans, h) <= SumOfDiffs(scans, h)
  {
    if scans != [] { DiffsCoverTotal(scans[..|scans| - 1], h); }
  }

  /** How far totals have fallen back from one scan to the next. */
  function Falls(scans: seq<Scan>, h: nat): nat {
    if scans == [] then 0
    else
      var front := scans[..|scans| - 1];
      Falls(front, h) + Rise(LastTotal(front, h), LastTotal(scans, h))
  }

  /** When every scan saves, the differences overstate the total by exactly what it has fallen back. */
  lemma {:induction false} DiffsExact(scans: seq<Scan>, h: nat)
    requires forall i :: 0 <= i < |scans| ==> Complete(scans[i].outcome)
    ensures SumOfDiffs(scans, h) == LastTotal(scans, h) + Falls(scans, h)
    ensures Known(scans, h) == LastTotal(scans, h)
  {
    if scans != [] { DiffsExact(scans[..|scans| - 1], h); }
  }

  ghost predicate NeverFalls(scans: seq<Scan>, h: nat) {
    forall i :: 0 < i < |scans| ==> TotalFor(scans[i - 1].sites, h) <= TotalFor(scans[i].sites, h)
  }

  lemma {:induction false} NoFalls(scans: seq<Scan>, h: nat)
    ensures Falls(scans, h) == 0 <==> NeverFalls(scans, h)
  {
    if scans != [] {
      var n := |scans| - 1;
      var front := scans[..n];
      NoFalls(front, h);
      assert forall i :: 0 <= i < n ==> front[i] == scans[i];
      if NeverFalls(scans, h) { assert NeverFalls(front, h); }
    }
  }

  /** They are equal exactly when the total never fell. */
  lemma DiffsEqualTotalIff(scans: seq<Scan>, h: nat)
    requires forall i :: 0 <= i < |scans| ==> Complete(scans[i].outcome)
    ensures SumOfDiffs(scans, h) == LastTotal(scans, h) <==> NeverFalls(scans, h)
  {
    DiffsExact(scans, h);
    NoFalls(scans, h);
  }

  /** Without memory to sort, the promise fails: a scan that is the first to see a site reports no
      growth, whatever else happens at its end. */
  lemma UnsortedScanLosesGrowth(o: Outcome, h: nat, z: nat)
    requires !o.sorted && z > 0
    ensures var scans := [Scan([Site(h, 1, z, z, 1, 1, false)], o)];
            SumOfDiffs(scans, h) < LastTotal(scans, h)
  {
    var sites := [Site(h, 1, z, z, 1, 1, false)];
    assert HashesOf(sites) == [h] && TotalsOf(sites) == [z];
  }

  /** So the endings of a scan that guarantee that all growth has been reported, whatever scans came
      before it and however they ended, are exactly those with the sites sorted. */
  lemma GrowthReportedIff(o: Outcome)
    ensures o.sorted <==>
      forall front: seq<Scan>, sites, h :: LastTotal(front + [Scan(sites, o)], h) <= SumOfDiffs(front + [Scan(sites, o)], h)
  {
    if o.sorted {
      forall front: seq<Scan>, sites, h
        ensures LastTotal(front + [Scan(sites, o)], h) <= SumOfDiffs(front + [Scan(sites, o)], h)
      {
        DiffsCoverTotal(front + [Scan(sites, o)], h);
      }
    } else {
      var sites := [Site(0, 1, 1, 1, 1, 1, false)];
      UnsortedScanLosesGrowth(o, 0, 1);
      assert [] + [Scan(sites, o)] == [Scan(sites, o)];
    }
  }

  /** Hashes are distinct, so the total for a site's hash is the site's. */
  lemma {:induction false} SiteTotal(sites: seq<Site>, i: nat)
    requires i < |sites| && forall j :: 0 <= j < i ==> sites[j].hash != sites[i].hash
    ensures TotalFor(sites, sites[i].hash) == sites[i].total
  {
    if i > 0 {
      SiteTotal(sites[1..], i - 1);
      assert HashesOf(sites)[1..] == HashesOf(sites[1..]) && TotalsOf(sites)[1..] == TotalsOf(sites[1..]);
    }
  }
}
