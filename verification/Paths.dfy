/** Steps of a relation, one after another. */
module Paths {

  /** `n` steps lead from `s` to `s'`. */
  ghost predicate Path<S(!new)>(next: (S, S) -> bool, n: nat, s: S, s': S)
    decreases n
  {
    if n == 0 then s' == s else exists u :: next(s, u) && Path(next, n - 1, u, s')
  }

  lemma {:induction false} PathsJoin<S(!new)>(next: (S, S) -> bool, m: nat, n: nat, s: S, u: S, w: S)
    requires Path(next, m, s, u) && Path(next, n, u, w)
    ensures Path(next, m + n, s, w)
    decreases m
  {
    if m > 0 {
      var v :| next(s, v) && Path(next, m - 1, v, u);
      PathsJoin(next, m - 1, n, v, u, w);
    }
  }

  /** What every step keeps holds at the end of every path. */
  lemma {:induction false} PathKeeps<S(!new)>(next: (S, S) -> bool, p: S -> bool, n: nat, s: S, s': S)
    requires Path(next, n, s, s') && p(s) && forall a, b :: p(a) && next(a, b) ==> p(b)
    ensures p(s')
    decreases n
  {
    if n > 0 {
      var u :| next(s, u) && Path(next, n - 1, u, s');
      PathKeeps(next, p, n - 1, u, s');
    }
  }

  /** What every step from a state with `h` keeps holds throughout a sequence of such states. */
  lemma {:induction false} RunKeeps<S(!new)>(next: (S, S) -> bool, h: S -> bool, p: S -> bool, states: seq<S>, i: nat)
    requires i < |states| && p(states[0])
    requires forall j :: 0 <= j < |states| ==> h(states[j])
    requires forall j :: 0 <= j < |states| - 1 ==> next(states[j], states[j + 1])
    requires forall a, b :: h(a) && p(a) && next(a, b) ==> p(b)
    ensures p(states[i])
  {
    if i > 0 { RunKeeps(next, h, p, states, i - 1); }
  }

  /** A path as the sequence of its states. */
  lemma {:induction false} PathAsStates<S(!new)>(next: (S, S) -> bool, n: nat, s: S, w: S) returns (states: seq<S>)
    requires Path(next, n, s, w)
    ensures |states| == n + 1 && states[0] == s && states[n] == w
    ensures forall i :: 0 <= i < n ==> next(states[i], states[i + 1])
    decreases n
  {
    if n == 0 {
      states := [s];
    } else {
      var u :| next(s, u) && Path(next, n - 1, u, w);
      states := PathAsStates(next, n - 1, u, w);
      states := [s] + states;
    }
  }

  /** From `s`, some path stops, and every path that stops does so in a state with `q`. */
  ghost predicate Comes<S(!new)>(next: (S, S) -> bool, stop: S -> bool, s: S, q: S -> bool) {
    && (forall n: nat, w :: Path(next, n, s, w) && stop(w) ==> q(w))
    && (exists n: nat, w :: Path(next, n, s, w) && stop(w))
  }

  lemma ComesNow<S(!new)>(next: (S, S) -> bool, stop: S -> bool, s: S, q: S -> bool)
    requires stop(s) && q(s) && forall b :: !next(s, b)
    ensures Comes(next, stop, s, q)
  {
    assert Path(next, 0, s, s);
  }

  /** Going back one step: the successors come to `q`, but for the state itself, which a step that fails
      may leave as it is any number of times. */
  lemma ComesNext<S(!new)>(next: (S, S) -> bool, stop: S -> bool, s: S, q: S -> bool, b0: S)
    requires !stop(s) && next(s, b0) && Comes(next, stop, b0, q)
    requires forall b :: next(s, b) ==> b == s || Comes(next, stop, b, q)
    ensures Comes(next, stop, s, q)
  {
    forall n: nat, w | Path(next, n, s, w) && stop(w) ensures q(w) { LoopEnds(next, stop, s, q, n, w); }
    var n: nat, w :| Path(next, n, b0, w) && stop(w);
    assert Path(next, n + 1, s, w);
  }

  lemma {:induction false} LoopEnds<S(!new)>(next: (S, S) -> bool, stop: S -> bool, s: S, q: S -> bool, n: nat, w: S)
    requires !stop(s) && Path(next, n, s, w) && stop(w)
    requires forall b :: next(s, b) ==> b == s || Comes(next, stop, b, q)
    ensures q(w)
    decreases n
  {
    var u :| next(s, u) && Path(next, n - 1, u, w);
    if u == s { LoopEnds(next, stop, s, q, n - 1, w); }
  }

  /** A set that contains a state whenever a step leads from it into the set and every step from it stays
      in the set or changes nothing. */
  ghost predicate BackClosed<S(!new)>(next: (S, S) -> bool, stop: S -> bool, good: S -> bool) {
    forall s, b0 {:trigger next(s, b0)} ::
      !stop(s) && next(s, b0) && good(b0) && (forall b :: next(s, b) ==> b == s || good(b)) ==> good(s)
  }

  /** The states that come to `q` are such a set. */
  ghost function Coming<S(!new)>(next: (S, S) -> bool, stop: S -> bool, q: S -> bool): S -> bool { s => Comes(next, stop, s, q) }

  lemma ComingClosed<S(!new)>(next: (S, S) -> bool, stop: S -> bool, q: S -> bool)
    ensures BackClosed(next, stop, Coming(next, stop, q))
  {
    var good := Coming(next, stop, q);
    forall s, b0 | !stop(s) && next(s, b0) && good(b0) && (forall b :: next(s, b) ==> b == s || good(b)) ensures good(s) {
      ComesNext(next, stop, s, q, b0);
    }
  }
}
