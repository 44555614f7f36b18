/** The ring of the last 3600 samples, with a 32-bit count of all samples ever recorded. */
module TimeSeries {
  const POINTS: nat := 3600
  const TWO32: nat := 0x1_0000_0000

  datatype Point = Point(timestamp: int, values: seq<nat>)

  const BLANK := Point(0, [])

  /** At most `max` elements from position `start` on. */
  function Slice<T>(s: seq<T>, start: nat, max: nat): (r: seq<T>)
    ensures |r| <= max
  {
    if start >= |s| then [] else if start + max < |s| then s[start..start + max] else s[start..]
  }

  /** What should be readable after the samples of `history`: the last 3600. */
  function Recent(history: seq<Point>): seq<Point> {
    if |history| <= POINTS then history else history[|history| - POINTS..]
  }

  /** `out` is what there is of `max` samples from number `start` on, counted among the last 3600. */
  ghost predicate OfLast3600(history: seq<Point>, start: nat, max: nat, out: seq<Point>) {
    var n := if |history| < 3600 then |history| else 3600;
    && |out| == (if start >= n then 0 else if start + max <= n then max else n - start)
    && forall k :: 0 <= k < |out| ==> out[k] == history[|history| - n + start + k]
  }

  lemma SliceOfRecent(history: seq<Point>, start: nat, max: nat)
    ensures OfLast3600(history, start, max, Slice(Recent(history), start, max))
  {}

  /** What the ring offers to a reader. */
  function Window(points: seq<Point>, head: nat, count: nat): seq<Point>
    requires |points| == POINTS && head < POINTS
  {
    if count <= POINTS then points[..count] else points[head..] + points[..head]
  }

  /** The ring after the samples of `history`. */
  ghost predicate Holds(points: seq<Point>, head: nat, count: nat, history: seq<Point>) {
    && |points| == POINTS && head == |history| % POINTS && count == |history| % TWO32
    && forall i :: 0 <= i < |history| && |history| <= i + POINTS ==> points[i % POINTS] == history[i]
  }

  function NextHead(h: nat): nat { if h + 1 >= POINTS then 0 else h + 1 }

  lemma NextPosition(n: nat)
    ensures (n + 1) % POINTS == NextHead(n % POINTS) && (n + 1) % TWO32 == (n % TWO32 + 1) % TWO32
  {
    NextSlot(n);
    Wraps(n % TWO32 + 1, n / TWO32);
  }

  lemma NextSlot(n: nat)
    ensures (n + 1) % POINTS == NextHead(n % POINTS)
  {}

  lemma Wraps(x: nat, k: nat)
    ensures (x + k * TWO32) % TWO32 == x % TWO32
  {}

  /** Two positions less than a ring apart have different slots. */
  lemma Apart(i: nat, n: nat)
    requires i < n < i + POINTS
    ensures i % POINTS != n % POINTS
  {}

  lemma RecordKeeps(points: seq<Point>, head: nat, count: nat, history: seq<Point>, p: Point)
    requires Holds(points, head, count, history)
    ensures Holds(points[head := p], NextHead(head), (count + 1) % TWO32, history + [p])
  {
    var n := |history|;
    NextPosition(n);
    forall i | 0 <= i < n + 1 && n + 1 <= i + POINTS ensures points[head := p][i % POINTS] == (history + [p])[i] {
      if i < n { Apart(i, n); }
    }
  }

  lemma WindowSlot(points: seq<Point>, head: nat, count: nat, i: nat)
    requires |points| == POINTS && head < POINTS && i < POINTS && i < |Window(points, head, count)|
    ensures Window(points, head, count)[i] == points[if count <= POINTS then i else (head + i) % POINTS]
  {}

  class TimeSeries {
    const points: array<Point>
    var head: nat
    var count: nat
    ghost var history: seq<Point>

    ghost predicate Valid()
      reads this, points
    {
      Holds(points[..], head, count, history)
    }

    constructor ()
      ensures Valid() && fresh(points) && history == []
    {
      points := new Point[POINTS](i => BLANK);
      head, count, history := 0, 0, [];
    }

    /** mtt_ts_record_point. */
    method Record(p: Point)
      requires Valid()
      modifies this, points
      ensures Valid() && history == old(history) + [p]
      ensures points[old(head)] == p && forall i :: 0 <= i < points.Length && i != old(head) ==> points[i] == old(points[i])
    {
      RecordKeeps(points[..], head, count, history, p);
      points[head] := p;
      var h := head + 1;
      if h >= POINTS { h := 0; }
      head := h;
      count := (count + 1) % 4294967296;
      history := history + [p];
    }

    /** mtt_ts_get_range: fails only for an empty buffer, otherwise reads a slice of the window. */
    method GetRange(start: nat, max: nat) returns (ok: bool, out: seq<Point>)
      requires Valid()
      ensures ok <==> max > 0
      ensures out == if ok then Slice(Window(points[..], head, count), start, max) else []
    {
      if max == 0 { return false, []; }
      ok, out := true, [];
      if count == 0 { return; }
      var valid, oldest := POINTS, head;
      if count <= POINTS { valid, oldest := count, 0; }
      ghost var w := Window(points[..], head, count);
      var i := start;
      while i < valid && |out| < max
        invariant |w| == valid && i == start + |out| && |out| <= max && (out != [] ==> i <= valid)
        invariant forall k :: 0 <= k < |out| ==> out[k] == w[start + k]
      {
        var k := if count <= POINTS then i else (oldest + i) % POINTS;
        WindowSlot(points[..], head, count, i);
        out := out + [points[k]];
        i := i + 1;
      }
      SliceIs(w, start, max, out);
    }
  }

  lemma SliceIs(w: seq<Point>, start: nat, max: nat, out: seq<Point>)
    requires |out| == if start >= |w| then 0 else if start + max < |w| then max else |w| - start
    requires forall k :: 0 <= k < |out| ==> out[k] == w[start + k]
    ensures out == Slice(w, start, max)
  {}

  /** The counter and the ring agree: the count has not wrapped, or is past the ring's size again, or
      both say that a full ring starts at its first slot. */
  predicate Agrees(n: nat) { n < TWO32 || n % TWO32 > POINTS || (n % TWO32 == POINTS && n % POINTS == 0) }

  lemma WindowAt(points: seq<Point>, head: nat, count: nat, history: seq<Point>, i: nat)
    requires Holds(points, head, count, history) && count > POINTS && i < POINTS
    ensures Window(points, head, count)[i] == Recent(history)[i]
  {
    var n := |history|;
    Rotated(n, i);
  }

  lemma Rotated(n: nat, i: nat)
    requires n >= POINTS && i < POINTS
    ensures (n - POINTS + i) % POINTS == if n % POINTS + i < POINTS then n % POINTS + i else n % POINTS + i - POINTS
  {}

  lemma NotWrapped(n: nat)
    requires n < TWO32
    ensures n % TWO32 == n && (n < POINTS ==> n % POINTS == n)
  {}

  /** A ring not yet full, and a full one that starts at its first slot. */
  lemma StraightWindow(points: seq<Point>, head: nat, count: nat, history: seq<Point>)
    requires Holds(points, head, count, history)
    requires |history| == count < POINTS || (count == POINTS <= |history| && head == 0)
    ensures points[..count] == Recent(history)
  {
    var n := |history|;
    forall i | 0 <= i < count ensures points[i] == Recent(history)[i] {
      if n >= POINTS { Rotated(n, i); } else { NotWrapped(i); }
    }
  }

  /** Then a reader sees exactly the last samples in the order in which they were recorded. */
  lemma WindowIsRecent(points: seq<Point>, head: nat, count: nat, history: seq<Point>)
    requires Holds(points, head, count, history) && Agrees(|history|)
    ensures Window(points, head, count) == Recent(history)
  {
    if |history| < TWO32 { NotWrapped(|history|); }
    if count > POINTS {
      forall i | 0 <= i < POINTS ensures Window(points, head, count)[i] == Recent(history)[i] {
        WindowAt(points, head, count, history, i);
      }
    } else {
      StraightWindow(points, head, count, history);
    }
  }

  /** So what is read are the samples asked for, out of the last 3600. */
  lemma RangeIsRecent(points: seq<Point>, head: nat, count: nat, history: seq<Point>, start: nat, max: nat)
    requires Holds(points, head, count, history) && (|history| < 4294967296 || Agrees(|history|))
    ensures OfLast3600(history, start, max, Slice(Window(points, head, count), start, max))
  {
    WindowIsRecent(points, head, count, history);
    SliceOfRecent(history, start, max);
  }

  /** Once the count has wrapped, the ring is not read as it was filled. */
  lemma WindowIsNotRecent(points: seq<Point>, head: nat, count: nat, history: seq<Point>)
    requires Holds(points, head, count, history) && !Agrees(|history|)
    requires forall i, j :: 0 <= i < j < |history| ==> history[i] != history[j]
    ensures Window(points, head, count) != Recent(history)
  {
    if count == POINTS { FirstsApart(points, head, history); }
  }

  lemma FirstsApart(points: seq<Point>, head: nat, history: seq<Point>)
    requires |points| == POINTS && head == |history| % POINTS != 0 && |history| >= POINTS
    requires forall i :: 0 <= i < |history| && |history| <= i + POINTS ==> points[i % POINTS] == history[i]
    requires forall i, j :: 0 <= i < j < |history| ==> history[i] != history[j]
    ensures points[0] != Recent(history)[0]
  {
    var n := |history|;
    var k := n - head;
    assert k % POINTS == 0;
    assert points[0] == history[k];
  }

  /** Slices of different windows differ: one that is read whole. */
  lemma WindowsApart(v: seq<Point>, w: seq<Point>)
    requires v != w
    ensures exists max: nat :: max > 0 && Slice(v, 0, max) != Slice(w, 0, max)
  {
    var max := |v| + |w|;
    assert Slice(v, 0, max) == v && Slice(w, 0, max) == w;
  }

  /** And only then: once the 32-bit count has wrapped, a reader gets too few samples or gets them in
      the wrong order, unless all samples in the ring are alike. */
  lemma RangeCorrectIff(points: seq<Point>, head: nat, count: nat, history: seq<Point>)
    requires Holds(points, head, count, history)
    requires forall i, j :: 0 <= i < j < |history| ==> history[i] != history[j]
    ensures Agrees(|history|) <==>
      forall start: nat, max: nat :: max > 0 ==> Slice(Window(points, head, count), start, max) == Slice(Recent(history), start, max)
  {
    if Agrees(|history|) {
      WindowIsRecent(points, head, count, history);
    } else {
      WindowIsNotRecent(points, head, count, history);
      WindowsApart(Window(points, head, count), Recent(history));
    }
  }
}
