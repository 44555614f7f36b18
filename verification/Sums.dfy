/** Finite sums of integers, and the counting argument behind every "at most one thread per lock" bound. */
module Sums {

  datatype Option<+T> = None | Some(value: T)

  function Sum(s: seq<int>): int {
    if s == [] then 0 else Sum(s[..|s| - 1]) + s[|s| - 1]
  }

  lemma {:induction false} SumUpdate(s: seq<int>, i: nat, x: int)
    requires i < |s|
    ensures Sum(s[i := x]) == Sum(s) - s[i] + x
  {
    var n := |s| - 1;
    if i == n {
      assert s[i := x][..n] == s[..n];
    } else {
      assert s[i := x][..n] == s[..n][i := x];
      SumUpdate(s[..n], i, x);
    }
  }

  lemma {:induction false} SumMono(a: seq<int>, b: seq<int>)
    requires |a| == |b| && forall i :: 0 <= i < |a| ==> a[i] <= b[i]
    ensures Sum(a) <= Sum(b)
  {
    if a != [] { SumMono(a[..|a| - 1], b[..|b| - 1]); }
  }

  lemma {:induction false} SumConst(s: seq<int>, x: int)
    requires forall i :: 0 <= i < |s| ==> s[i] == x
    ensures Sum(s) == |s| * x
  {
    if s != [] { SumConst(s[..|s| - 1], x); }
  }

  lemma {:induction false} SumDiff(a: seq<int>, b: seq<int>, c: seq<int>)
    requires |a| == |b| == |c| && forall i :: 0 <= i < |a| ==> c[i] == a[i] - b[i]
    ensures Sum(c) == Sum(a) - Sum(b)
  {
    if a != [] { SumDiff(a[..|a| - 1], b[..|b| - 1], c[..|c| - 1]); }
  }

  /** A positive sum has a positive addend. */
  lemma {:induction false} SumPositive(s: seq<int>) returns (i: nat)
    requires 0 < Sum(s)
    ensures i < |s| && 0 < s[i]
  {
    i := |s| - 1;
    if s[i] <= 0 { i := SumPositive(s[..i]); }
  }

  /** One addend is a lower bound of a sum of naturals. */
  lemma {:induction false} SumAtLeast(s: seq<int>, i: nat)
    requires i < |s| && forall k :: 0 <= k < |s| ==> 0 <= s[k]
    ensures s[i] <= Sum(s)
  {
    var z := seq(|s|, k => 0);
    SumConst(z, 0);
    SumUpdate(z, i, s[i]);
    SumMono(z[i := s[i]], s);
  }

  /** Two addends are a lower bound as well. */
  lemma {:induction false} SumAtLeastTwo(s: seq<int>, i: nat, j: nat)
    requires i < |s| && j < |s| && i != j && forall k :: 0 <= k < |s| ==> 0 <= s[k]
    ensures s[i] + s[j] <= Sum(s)
  {
    SumUpdate(s, i, 0);
    SumAtLeast(s[i := 0], j);
  }

  /** If every thread with a claim owns a cell worth at least that claim, and a cell has one owner,
      then the claims together are worth no more than the cells. */
  lemma {:induction false} OwnersBound(claims: seq<int>, owner: seq<Option<nat>>, worth: seq<int>)
    requires |owner| == |worth| && forall l :: 0 <= l < |worth| ==> 0 <= worth[l]
    requires forall t :: 0 <= t < |claims| ==> claims[t] <= 0 || exists l :: 0 <= l < |owner| && owner[l] == Some(t) && claims[t] <= worth[l]
    ensures Sum(claims) <= Sum(worth)
  {
    if claims == [] {
      SumMono(seq(|worth|, l => 0), worth);
      SumConst(seq(|worth|, l => 0), 0);
    } else {
      var n := |claims| - 1;
      if claims[n] <= 0 {
        OwnersBound(claims[..n], owner, worth);
      } else {
        var l :| 0 <= l < |owner| && owner[l] == Some(n) && claims[n] <= worth[l];
        var worth' := worth[l := 0];
        forall t | 0 <= t < n && !(claims[t] <= 0)
          ensures exists m :: 0 <= m < |owner| && owner[m] == Some(t) && claims[t] <= worth'[m]
        {
          var m :| 0 <= m < |owner| && owner[m] == Some(t) && claims[t] <= worth[m];
          assert worth'[m] == worth[m];
        }
        OwnersBound(claims[..n], owner, worth');
        SumUpdate(worth, l, 0);
      }
    }
  }
}
