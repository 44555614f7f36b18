/** Interning captured stacks: a hash table of at most 4096 stacks, each stored once. */
module StackCache {
  import opened Sums
  import opened Hashing

  const CACHE: nat := 4096
  const DEPTH: nat := 64

  /** A cached stack. Its key fields are written once, when it is made. */
  class StackEntry {
    const hash: nat
    const frames: seq<Word>
    var resolved: bool

    constructor (hash: nat, frames: seq<Word>)
      ensures this.hash == hash && this.frames == frames && !resolved
    {
      this.hash, this.frames, resolved := hash, frames, false;
    }
  }

  /** mtt_stack_hash_compute: skip the innermost frame, clear the Thumb bits into a copy, hash it. */
  method HashOfStack(frames: seq<Word>) returns (h: Word)
    ensures h == StackHash(frames)
  {
    if |frames| == 0 { return 0; }
    var start := if |frames| > 1 then 1 else 0;
    var count := |frames| - start;
    var clean := new Word[count];
    for i := 0 to count
      invariant forall k :: 0 <= k < i ==> clean[k] == Clear(frames[start + k])
    {
      clean[i] := Clear(frames[start + i]);
    }
    assert clean[..] == Cleared(Hashed(frames));
    h := ComputeHash(clean, 0x9e3779b97f4a7c15);
  }

  lemma ClearTwice(a: Word)
    ensures Clear(Clear(a)) == Clear(a)
  {}

  lemma ClearedTwice(f: seq<Word>)
    ensures Cleared(Cleared(f)) == Cleared(f)
  {
    forall i | 0 <= i < |f| ensures Clear(Clear(f[i])) == Clear(f[i]) { ClearTwice(f[i]); }
  }

  function StackKey(f: seq<Word>): nat { StackHash(f) as nat }

  /** All the cache needs to know of the hash: it does not see Thumb bits. */
  ghost predicate KeyOk(key: seq<Word> -> nat) {
    forall f, g {:trigger key(f), key(g)} :: Cleared(f) == Cleared(g) ==> key(f) == key(g)
  }

  method KeyOfStack(frames: seq<Word>, ghost key: seq<Word> -> nat) returns (k: nat)
    requires key == StackKey
    ensures k == key(frames)
  {
    var h := HashOfStack(frames);
    k := h as nat;
  }

  lemma StackKeyOk()
    ensures KeyOk(StackKey)
  {
    forall f, g | Cleared(f) == Cleared(g) ensures StackKey(f) == StackKey(g) { StackHashIgnoresThumb(f, g); }
  }

  lemma StackKeysApart(f: seq<Word>, g: seq<Word>, i: nat)
    requires |f| == |g| && 1 <= |f| <= 4 && i < |f| && (|f| > 1 ==> i > 0)
    requires Clear(f[i]) != Clear(g[i]) && forall j :: 0 < j < |f| && j != i ==> Clear(f[j]) == Clear(g[j])
    ensures StackKey(f) != StackKey(g)
  {
    CapturedApart(f, g, i);
    NumbersApart(StackHash(f), StackHash(g));
  }

  function Lengths(chains: seq<seq<StackEntry>>): seq<int> {
    seq(|chains|, b requires 0 <= b < |chains| => |chains[b]|)
  }

  function FramesOf(es: seq<StackEntry>): (s: seq<seq<Word>>)
    ensures |s| == |es| && forall i :: 0 <= i < |es| ==> s[i] == es[i].frames
  {
    seq(|es|, i requires 0 <= i < |es| => es[i].frames)
  }

  /** A chain holds only made entries, each under its own hash, and its bucket is that of the hash. */
  ghost predicate ChainOk(key: seq<Word> -> nat, chain: seq<StackEntry>, made: seq<StackEntry>, b: nat) {
    forall k :: 0 <= k < |chain| ==> chain[k] in made && chain[k].hash == key(chain[k].frames) && chain[k].hash % CACHE == b
  }

  /** The entries grew as the list of distinct stacks does, no entry was replaced, and `e` is the entry
      at the position the list answers. */
  ghost predicate Answers(was: seq<StackEntry>, now: seq<StackEntry>, e: StackEntry?, g: seq<Word>, ok: bool) {
    var (stacks, id) := Intern(FramesOf(was), g, ok);
    && FramesOf(now) == stacks && was <= now
    && (e == null <==> id == None) && (e != null ==> id.value < |now| && e == now[id.value])
  }

  lemma FoundAnswers(made: seq<StackEntry>, e: StackEntry, g: seq<Word>, ok: bool)
    requires e in made && e.frames == g != [] && AllDistinct(FramesOf(made))
    ensures Answers(made, made, e, g, ok)
  {
    var i :| 0 <= i < |made| && made[i] == e;
    assert FramesOf(made)[i] == g;
  }

  lemma UnseenAnswers(made: seq<StackEntry>, e: StackEntry?, g: seq<Word>, ok: bool)
    requires g != [] && g !in FramesOf(made) && (e != null ==> e.frames == g)
    requires e == null <==> |made| >= CACHE || !ok
    ensures Answers(made, if e == null then made else made + [e], e, g, ok)
  {
    assert IndexOf(FramesOf(made), g) == |made|;
    if e != null { assert FramesOf(made + [e]) == FramesOf(made) + [g]; }
  }

  class StackCache {
    ghost const key: seq<Word> -> nat
    const entries: array<seq<StackEntry>>
    var count: nat
    /** All entries, in the order in which they were made. */
    ghost var made: seq<StackEntry>

    ghost predicate Valid()
      reads this, entries
    {
      && KeyOk(key) && entries.Length == CACHE && count == |made| <= CACHE && Sum(Lengths(entries[..])) == count
      && (forall b: nat :: b < CACHE ==> ChainOk(key, entries[b], made, b))
      && (forall i :: 0 <= i < |made| ==> made[i] in entries[key(made[i].frames) % CACHE])
      && (forall i :: 0 <= i < |made| ==> Cleared(made[i].frames) == made[i].frames)
      && AllDistinct(FramesOf(made))
    }

    constructor (ghost key: seq<Word> -> nat)
      requires KeyOk(key)
      ensures Valid() && fresh(entries) && made == [] && this.key == key
    {
      this.key := key;
      entries := new seq<StackEntry>[CACHE](i => []);
      count := 0;
      made := [];
      new;
      SumConst(Lengths(entries[..]), 0);
    }

    /** The frame-by-frame comparison. */
    method Same(e: StackEntry, frames: seq<Word>) returns (same: bool)
      requires |e.frames| == |frames|
      ensures same <==> e.frames == Cleared(frames)
    {
      for i := 0 to |frames|
        invariant forall k :: 0 <= k < i ==> e.frames[k] == Clear(frames[k])
      {
        if e.frames[i] != Clear(frames[i]) {
          assert e.frames[i] != Cleared(frames)[i];
          return false;
        }
      }
      return true;
    }

    /** The walk of one chain: the entry with these frames, if the cache has one. Entries that share the
        hash but not the frames are passed over. */
    method Search(frames: seq<Word>, hash: nat) returns (e: StackEntry?)
      requires Valid() && hash == key(frames)
      ensures e != null ==> e in made && e.frames == Cleared(frames) && e.hash == hash
      ensures e == null ==> Cleared(frames) !in FramesOf(made)
    {
      var chain := entries[hash % CACHE];
      ghost var g := Cleared(frames);
      ClearedTwice(frames);
      assert key(g) == hash;
      var i := 0;
      while i < |chain|
        invariant i <= |chain| && forall k :: 0 <= k < i ==> chain[k].frames != g
      {
        if chain[i].hash == hash && |chain[i].frames| == |frames| {
          var found := Same(chain[i], frames);
          if found { return chain[i]; }
        }
        i := i + 1;
      }
      return null;
    }

    /** The look-up of at least one frame, given their hash; `ok` says whether memory can be had. */
    method LookupHashed(frames: seq<Word>, hash: nat, ok: bool) returns (e: StackEntry?)
      requires Valid() && |frames| > 0 && hash == key(frames)
      modifies this, entries
      ensures Valid()
      ensures Answers(old(made), made, e, Cleared(frames), ok) && (e != null ==> e.hash == key(frames))
    {
      ghost var g, was := Cleared(frames), made;
      e := Search(frames, hash);
      if e != null {
        FoundAnswers(made, e, g, ok);
        return;
      }
      if count < CACHE && ok {
        e := new StackEntry(hash, Cleared(frames));
        ClearedTwice(frames);
        Insert(e);
      }
      assert made == if e == null then was else was + [e];
      UnseenAnswers(was, e, g, ok);
    }

    /** A new entry goes to the head of its chain. */
    method Insert(e: StackEntry)
      requires Valid() && count < CACHE && e.hash == key(e.frames) && e.frames !in FramesOf(made)
      requires Cleared(e.frames) == e.frames
      modifies this, entries
      ensures Valid() && made == old(made) + [e]
    {
      var b := e.hash % CACHE;
      ghost var was := entries[..];
      entries[b] := [e] + entries[b];
      count := count + 1;
      made := made + [e];
      assert Lengths(entries[..]) == Lengths(was)[b := |was[b]| + 1];
      SumUpdate(Lengths(was), b, |was[b]| + 1);
    }

    /** mtt_stack_cache_lookup. An entry it returns carries the hash of the frames it was asked for. */
    method Lookup(frames: seq<Word>, ok: bool) returns (e: StackEntry?)
      requires Valid() && key == StackKey && |frames| <= DEPTH
      modifies this, entries
      ensures Valid()
      ensures Answers(old(made), made, e, Cleared(frames), ok) && (e != null ==> e.hash == key(frames))
    {
      if |frames| == 0 {
        assert Cleared(frames) == [];
        return null;
      }
      var h := KeyOfStack(frames, key);
      e := LookupHashed(frames, h, ok);
    }
  }

  // ---- what the cache stands for: a growing list of distinct stacks ---------------------------------

  function IndexOf(s: seq<seq<Word>>, g: seq<Word>): (k: nat)
    ensures k <= |s| && (k < |s| ==> s[k] == g) && forall i :: 0 <= i < k ==> s[i] != g
  {
    if s == [] || s[0] == g then 0 else 1 + IndexOf(s[1..], g)
  }

  /** The list after a look-up, and the position of the answer: none for no frames, or for an unseen
      stack when the list is full or memory is short. */
  function Intern(s: seq<seq<Word>>, g: seq<Word>, ok: bool): (seq<seq<Word>>, Option<nat>) {
    if g == [] then (s, None)
    else if IndexOf(s, g) < |s| then (s, Some(IndexOf(s, g)))
    else if |s| >= CACHE || !ok then (s, None)
    else (s + [g], Some(|s|))
  }

  datatype Call = Call(frames: seq<Word>, ok: bool)

  /** A run of look-ups. */
  function Stored(calls: seq<Call>): seq<seq<Word>> {
    if calls == [] then []
    else Intern(Stored(calls[..|calls| - 1]), Cleared(calls[|calls| - 1].frames), calls[|calls| - 1].ok).0
  }

  function Answer(calls: seq<Call>, i: nat): Option<nat>
    requires i < |calls|
  {
    Intern(Stored(calls[..i]), Cleared(calls[i].frames), calls[i].ok).1
  }

  ghost predicate AllDistinct(s: seq<seq<Word>>) { forall i, j :: 0 <= i < j < |s| ==> s[i] != s[j] }

  lemma InternGrows(s: seq<seq<Word>>, g: seq<Word>, ok: bool, was: seq<seq<Word>>)
    requires AllDistinct(s) && |s| <= CACHE && was <= s
    ensures was <= Intern(s, g, ok).0 && AllDistinct(Intern(s, g, ok).0) && |Intern(s, g, ok).0| <= CACHE
  {}

  /** What was stored stays stored, at its place. */
  lemma {:induction false} StoredGrows(calls: seq<Call>, i: nat)
    requires i <= |calls|
    ensures Stored(calls[..i]) <= Stored(calls) && AllDistinct(Stored(calls)) && |Stored(calls)| <= 4096
  {
    if calls == [] {
      assert calls[..i] == calls;
    } else {
      var n := |calls| - 1;
      var front := calls[..n];
      var j := if i < n then i else n;
      assert front[..j] == calls[..j];
      StoredGrows(front, j);
      InternGrows(Stored(front), Cleared(calls[n].frames), calls[n].ok, Stored(calls[..j]));
      if i == |calls| { assert calls[..i] == calls; }
    }
  }

  lemma AnswerStored(calls: seq<Call>, i: nat)
    requires i < |calls| && Answer(calls, i).Some?
    ensures var k := Answer(calls, i).value; k < |Stored(calls)| && Stored(calls)[k] == Cleared(calls[i].frames)
  {
    StoredGrows(calls, i + 1);
    assert calls[..i + 1][..i] == calls[..i];
  }

  /** Two successful look-ups of a run return the same entry exactly when their frames agree up to Thumb
      bits, whatever the hashes; */
  lemma SameEntryIff(calls: seq<Call>, i: nat, j: nat)
    requires i < |calls| && j < |calls| && Answer(calls, i).Some? && Answer(calls, j).Some?
    ensures Answer(calls, i) == Answer(calls, j) <==> Cleared(calls[i].frames) == Cleared(calls[j].frames)
  {
    AnswerStored(calls, i);
    AnswerStored(calls, j);
    StoredGrows(calls, 0);
  }

  /** and a look-up of at least one frame fails exactly when the stack has not been stored by any look-up
      before it and the cache is full or memory is short. */
  lemma FailsIff(calls: seq<Call>, i: nat)
    requires i < |calls| && calls[i].frames != []
    ensures Answer(calls, i) == None <==>
      && (forall k :: 0 <= k < i && Answer(calls, k).Some? ==> Cleared(calls[k].frames) != Cleared(calls[i].frames))
      && (|Stored(calls[..i])| == 4096 || !calls[i].ok)
  {
    var front, g := calls[..i], Cleared(calls[i].frames);
    assert |g| == |calls[i].frames|;
    StoredGrows(front, 0);
    if IndexOf(Stored(front), g) < |Stored(front)| {
      var k := StoredByCall(front, IndexOf(Stored(front), g));
      assert front[..k] == calls[..k];
    } else {
      forall k | 0 <= k < i && Answer(calls, k).Some? ensures Cleared(calls[k].frames) != g {
        assert front[..k] == calls[..k];
        AnswerStored(front, k);
      }
    }
  }

  /** Every stored stack was stored by some look-up. */
  lemma {:induction false} StoredByCall(calls: seq<Call>, n: nat) returns (k: nat)
    requires n < |Stored(calls)|
    ensures k < |calls| && Answer(calls, k) == Some(n) && Stored(calls)[n] == Cleared(calls[k].frames)
  {
    var m := |calls| - 1;
    var front := calls[..m];
    if n < |Stored(front)| {
      k := StoredByCall(front, n);
      assert front[..k] == calls[..k];
    } else {
      k := m;
    }
  }

  // ---- a program that uses the cache ----------------------------------------------------------------

  /** The grouping key of a stack: the hash of its cached entry, or the hash computed afresh when the
      cache has no entry for it. Either way it is the stack's hash. */
  method GroupKey(cache: StackCache, frames: seq<Word>, ok: bool) returns (k: nat)
    requires cache.Valid() && cache.key == StackKey && 0 < |frames| <= DEPTH
    modifies cache, cache.entries
    ensures cache.Valid() && k == StackKey(frames)
  {
    var e := cache.Lookup(frames, ok);
    if e != null { return e.hash; }
    k := KeyOfStack(frames, cache.key);
  }

  /** The cache the program starts with: empty, and keyed by the stack hash. */
  method EmptyCache() returns (cache: StackCache)
    ensures fresh(cache) && fresh(cache.entries) && cache.Valid() && cache.key == StackKey && cache.made == []
  {
    StackKeyOk();
    cache := new StackCache(StackKey);
  }

  lemma StoredSnoc(calls: seq<Call>, i: nat)
    requires i < |calls|
    ensures (Stored(calls[..i + 1]), Answer(calls, i)) == Intern(Stored(calls[..i]), Cleared(calls[i].frames), calls[i].ok)
  {
    assert calls[..i + 1][..i] == calls[..i];
  }

  /** The object each of the first `n` look-ups got is the one at the place the list answers. */
  ghost predicate AllFound(calls: seq<Call>, n: nat, made: seq<StackEntry>, found: seq<StackEntry?>) {
    && n <= |calls| && |found| == n && FramesOf(made) == Stored(calls[..n])
    && forall i :: 0 <= i < n ==> Found(calls, i, made, found[i])
  }

  ghost predicate Found(calls: seq<Call>, i: nat, made: seq<StackEntry>, e: StackEntry?)
    requires i < |calls|
  {
    var id := Answer(calls, i);
    (e == null <==> id == None) && (e != null ==> id.value < |made| && e == made[id.value])
  }

  lemma FoundNext(calls: seq<Call>, n: nat, was: seq<StackEntry>, now: seq<StackEntry>, found: seq<StackEntry?>, e: StackEntry?)
    requires n < |calls| && AllFound(calls, n, was, found) && Answers(was, now, e, Cleared(calls[n].frames), calls[n].ok)
    ensures AllFound(calls, n + 1, now, found + [e])
  {
    StoredSnoc(calls, n);
    forall i | 0 <= i < n ensures Found(calls, i, now, (found + [e])[i]) { assert Found(calls, i, was, found[i]); }
  }

  lemma SameObjectIff(calls: seq<Call>, made: seq<StackEntry>, found: seq<StackEntry?>, i: nat, j: nat)
    requires AllFound(calls, |calls|, made, found) && i < |calls| && j < |calls| && found[i] != null && found[j] != null
    ensures found[i] == found[j] <==> Cleared(calls[i].frames) == Cleared(calls[j].frames)
  {
    assert calls[..|calls|] == calls;
    assert Found(calls, i, made, found[i]) && Found(calls, j, made, found[j]);
    SameEntryIff(calls, i, j);
    AnswerStored(calls, i);
    AnswerStored(calls, j);
  }

  /** A run of look-ups from the empty cache: it stores what the laws above say, and two look-ups that
      find or make an entry get the same object exactly when their frames agree up to Thumb bits. */
  method LookAll(calls: seq<Call>) returns (cache: StackCache, found: seq<StackEntry?>)
    requires forall i :: 0 <= i < |calls| ==> |calls[i].frames| <= DEPTH
    ensures fresh(cache) && cache.Valid() && AllFound(calls, |calls|, cache.made, found)
    ensures forall i, j :: 0 <= i < |calls| && 0 <= j < |calls| && found[i] != null && found[j] != null ==>
      (found[i] == found[j] <==> Cleared(calls[i].frames) == Cleared(calls[j].frames))
  {
    cache := EmptyCache();
    found := [];
    for n := 0 to |calls|
      invariant cache.Valid() && cache.key == StackKey && fresh(cache) && fresh(cache.entries)
      invariant AllFound(calls, n, cache.made, found)
    {
      ghost var was := cache.made;
      var e := cache.Lookup(calls[n].frames, calls[n].ok);
      FoundNext(calls, n, was, cache.made, found, e);
      found := found + [e];
    }
    forall i, j | 0 <= i < |calls| && 0 <= j < |calls| && found[i] != null && found[j] != null
      ensures found[i] == found[j] <==> Cleared(calls[i].frames) == Cleared(calls[j].frames)
    {
      SameObjectIff(calls, cache.made, found, i, j);
    }
  }
}
