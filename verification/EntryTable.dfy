/** The bucket table and the entry pool as the tracker stores them: arrays of list heads and a slab of
    slots linked by `next`. Every operation is proved against the chains and free lists it stands for. */
module EntryTable {
  import opened Sums
  import opened Chains
  import opened Tracker
  import opened TrackerRuns

  const NIL := -1

  datatype Slot = Slot(ptr: Ptr, size: nat, stamp: int, num: int, frames: seq<Ptr>, next: int)

  const CLEARED := Slot(0, 0, 0, 0, [], NIL)

  /** The list a slot is on, if any. */
  datatype Spot = InChain(b: nat) | InFree(j: nat) | Out

  /** Following `next` from `head` visits exactly `ids`, in order, and ends. */
  ghost predicate Follows(pool: seq<Slot>, head: int, ids: seq<nat>)
    decreases |ids|
  {
    if ids == [] then head == NIL
    else head == ids[0] && ids[0] < |pool| && Follows(pool, pool[ids[0]].next, ids[1..])
  }

  ghost predicate NoDup(ids: seq<nat>) { forall i, j :: 0 <= i < j < |ids| ==> ids[i] != ids[j] }

  function EntryOf(pool: seq<Slot>, i: nat): Entry
    requires i < |pool|
  {
    Entry(i, pool[i].ptr, pool[i].size, pool[i].stamp, pool[i].num, pool[i].frames)
  }

  function EntriesOf(pool: seq<Slot>, ids: seq<nat>): (es: seq<Entry>)
    requires forall k :: 0 <= k < |ids| ==> ids[k] < |pool|
    ensures |es| == |ids|
  {
    seq(|ids|, k requires 0 <= k < |ids| => EntryOf(pool, ids[k]))
  }

  /** The walk of a chain stops at the first entry for the key. */
  lemma {:induction false} FirstAt(chain: seq<Entry>, p: Ptr, k: nat)
    requires k <= |chain| && (k < |chain| ==> chain[k].ptr == p)
    requires forall j :: 0 <= j < k ==> chain[j].ptr != p
    ensures First(chain, p) == k
  {
    if k > 0 { FirstAt(chain[1..], p, k - 1); }
  }

  /** Two states of the pool that differ at most in links. */
  ghost predicate SameRecords(pool: seq<Slot>, pool': seq<Slot>) {
    |pool| == |pool'| && forall i :: 0 <= i < |pool| ==> EntryOf(pool', i) == EntryOf(pool, i)
  }

  /** That is: every slot keeps its pointer, size, time, number and stack. */
  lemma SameRecordsIff(pool: seq<Slot>, pool': seq<Slot>)
    ensures SameRecords(pool, pool') <==>
      |pool| == |pool'| && forall i :: 0 <= i < |pool| ==> pool'[i] == pool[i].(next := pool'[i].next)
  {
    if SameRecords(pool, pool') {
      forall i | 0 <= i < |pool| ensures pool'[i] == pool[i].(next := pool'[i].next) { assert EntryOf(pool', i) == EntryOf(pool, i); }
    }
  }

  lemma EntriesSame(pool: seq<Slot>, pool': seq<Slot>, ids: seq<nat>)
    requires SameRecords(pool, pool') && forall k :: 0 <= k < |ids| ==> ids[k] < |pool|
    ensures EntriesOf(pool', ids) == EntriesOf(pool, ids)
  {}

  lemma EntriesCut(pool: seq<Slot>, pool': seq<Slot>, ids: seq<nat>, k: nat)
    requires SameRecords(pool, pool') && k < |ids| && forall h :: 0 <= h < |ids| ==> ids[h] < |pool|
    ensures EntriesOf(pool', Without(ids, k)) == Without(EntriesOf(pool, ids), k)
  {}

  /** Every slot a list visits exists, and the rest of the list starts at its `next`. */
  lemma {:induction false} FollowsFrom(pool: seq<Slot>, head: int, ids: seq<nat>, k: nat)
    requires Follows(pool, head, ids) && k < |ids|
    ensures ids[k] < |pool| && Follows(pool, ids[k], ids[k..]) && Follows(pool, pool[ids[k]].next, ids[k + 1..])
    decreases |ids|
  {
    if k == 0 {
      assert ids[0..] == ids;
    } else {
      FollowsFrom(pool, pool[ids[0]].next, ids[1..], k - 1);
      assert ids[1..][k - 1..] == ids[k..] && ids[1..][k..] == ids[k + 1..];
    }
  }

  /** Writing a slot that is not on a list leaves the list alone. */
  lemma {:induction false} FollowsKept(pool: seq<Slot>, e: nat, x: Slot, head: int, ids: seq<nat>)
    requires Follows(pool, head, ids) && e < |pool| && e !in ids
    ensures Follows(pool[e := x], head, ids)
    decreases |ids|
  {
    if ids != [] { FollowsKept(pool, e, x, pool[ids[0]].next, ids[1..]); }
  }

  /** Taking the k-th slot out of a list by redirecting the slot before it. */
  lemma {:induction false} FollowsCut(pool: seq<Slot>, head: int, ids: seq<nat>, k: nat)
    requires Follows(pool, head, ids) && NoDup(ids) && 0 < k < |ids|
    ensures ids[k - 1] < |pool| && ids[k] < |pool|
    ensures Follows(pool[ids[k - 1] := pool[ids[k - 1]].(next := pool[ids[k]].next)], head, Without(ids, k))
    decreases |ids|
  {
    FollowsFrom(pool, head, ids, k);
    FollowsFrom(pool, head, ids, k - 1);
    var e := ids[k - 1];
    var x := pool[e].(next := pool[ids[k]].next);
    if k == 1 {
      FollowsKept(pool, e, x, pool[ids[1]].next, ids[2..]);
      assert Without(ids, 1) == [ids[0]] + ids[2..];
      assert ([ids[0]] + ids[2..])[1..] == ids[2..];
    } else {
      FollowsCut(pool, pool[ids[0]].next, ids[1..], k - 1);
      assert Without(ids, k)[1..] == Without(ids[1..], k - 1);
    }
  }

  /** The list from `head` visits exactly `ids`, each once, and `spot` says so of each of them. */
  ghost predicate OnList(pool: seq<Slot>, spot: seq<Spot>, head: int, ids: seq<nat>, w: Spot) {
    && |spot| == |pool| && Follows(pool, head, ids) && NoDup(ids)
    && forall k :: 0 <= k < |ids| ==> ids[k] < |pool| && spot[ids[k]] == w
  }

  /** A write to a slot of another list, and moving such a slot elsewhere, leave a list alone. */
  lemma ListKept(pool: seq<Slot>, spot: seq<Spot>, head: int, ids: seq<nat>, w: Spot, e: nat, x: Slot, f: nat, w': Spot)
    requires OnList(pool, spot, head, ids, w) && e < |pool| && f < |pool|
    requires spot[e] != w && spot[f] != w && w' != w
    ensures OnList(pool[e := x], spot[f := w'], head, ids, w)
  {
    FollowsKept(pool, e, x, head, ids);
  }

  lemma ListPushed(pool: seq<Slot>, spot: seq<Spot>, head: int, ids: seq<nat>, w: Spot, e: nat, x: Slot)
    requires OnList(pool, spot, head, ids, w) && e < |pool| && spot[e] != w && x.next == head
    ensures OnList(pool[e := x], spot[e := w], e, [e] + ids, w)
  {
    FollowsKept(pool, e, x, head, ids);
    assert ([e] + ids)[1..] == ids;
  }

  lemma ListPopped(pool: seq<Slot>, spot: seq<Spot>, head: int, ids: seq<nat>, w: Spot)
    requires OnList(pool, spot, head, ids, w) && ids != [] && w != Out
    ensures OnList(pool, spot[ids[0] := Out], pool[ids[0]].next, ids[1..], w)
  {}

  lemma ListCut(pool: seq<Slot>, spot: seq<Spot>, head: int, ids: seq<nat>, w: Spot, k: nat)
    requires OnList(pool, spot, head, ids, w) && 0 < k < |ids| && w != Out
    ensures var e := ids[k - 1];
            OnList(pool[e := pool[e].(next := pool[ids[k]].next)], spot[ids[k] := Out], head, Without(ids, k), w)
  {
    FollowsCut(pool, head, ids, k);
    var rest := Without(ids, k);
    assert forall m :: 0 <= m < |rest| ==> rest[m] == ids[if m < k then m else m + 1];
  }

  /** The first `i` slots have been put on the free lists, all others are on no list. */
  ghost predicate FreedTo(pool: seq<Slot>, spot: seq<Spot>, heads: seq<int>, i: nat) {
    && |heads| == STRIPES && |spot| == |pool| && i <= |pool|
    && (forall j: nat :: j < STRIPES ==> OnList(pool, spot, heads[j], FreeLists(i)[j], InFree(j)))
    && (forall h :: 0 <= h < i ==> spot[h].InFree?) && (forall h :: i <= h < |spot| ==> spot[h] == Out)
  }

  lemma FreedNext(pool: seq<Slot>, spot: seq<Spot>, heads: seq<int>, i: nat)
    requires FreedTo(pool, spot, heads, i) && i < |pool|
    ensures var j := i % STRIPES;
            FreedTo(pool[i := pool[i].(next := heads[j])], spot[i := InFree(j)], heads[j := i], i + 1)
  {
    var j := i % STRIPES;
    var x := pool[i].(next := heads[j]);
    var f := FreeLists(i);
    ListPushed(pool, spot, heads[j], f[j], InFree(j), i, x);
    forall h: nat | h < STRIPES && h != j ensures OnList(pool[i := x], spot[i := InFree(j)], heads[h], f[h], InFree(h)) {
      ListKept(pool, spot, heads[h], f[h], InFree(h), i, x, i, InFree(j));
    }
  }

  function OnView(v: View, chain: seq<Entry>, free: seq<nat>): View { v.(chain := chain, free := free) }

  /** The tracker's unlink step removes the newest record of the key. */
  lemma UnlinkAct(c: Params, t: nat, prior: Entry, k: Then, v: View, x: Choice)
    requires First(v.chain, prior.ptr) < |v.chain|
    ensures Act(c, t, Pc.Remove(prior, k, Removing.Unlink), v, x)
         == Some((Pc.Remove(v.chain[First(v.chain, prior.ptr)], k, CountUnlink),
                  OnView(v, Without(v.chain, First(v.chain, prior.ptr)), v.free)))
  {}

  class EntryTable {
    const c: Params
    const buckets: array<int>
    const lists: array<int>
    const pool: array<Slot>
    ghost var chains: seq<seq<nat>>
    ghost var frees: seq<seq<nat>>
    ghost var spot: seq<Spot>

    ghost predicate Shaped() {
      && ParamsOk(c) && c.pooled
      && buckets.Length == BUCKETS && lists.Length == STRIPES && pool.Length == c.cap && buckets != lists
    }

    ghost predicate Valid()
      reads this, buckets, lists, pool
    {
      && Shaped() && |chains| == BUCKETS && |frees| == STRIPES && |spot| == c.cap
      && (forall b: nat :: b < BUCKETS ==> OnList(pool[..], spot, buckets[b], chains[b], InChain(b)))
      && (forall j: nat :: j < STRIPES ==> OnList(pool[..], spot, lists[j], frees[j], InFree(j)))
      && (forall i :: 0 <= i < c.cap && spot[i].InChain? ==> c.bucketOf(pool[i].ptr) == spot[i].b)
    }

    /** The records of bucket b, newest first: what the chain means. */
    ghost function Chain(b: nat): seq<Entry>
      reads this, buckets, lists, pool
      requires Valid() && b < BUCKETS
    {
      EntriesOf(pool[..], chains[b])
    }

    /** The records of one key, newest first: what the whole table means. */
    ghost function StackOf(p: Ptr): seq<Entry>
      reads this, buckets, lists, pool
      requires Valid()
    {
      Stack(Chain(c.bucketOf(p)), p)
    }

    /** Every chain but bucket b's is as it was. */
    twostate predicate OtherChainsKept(b: nat)
      reads this, buckets, lists, pool
      requires old(Valid()) && Valid()
    {
      forall d: nat :: d < BUCKETS && d != b ==> Chain(d) == old(Chain(d))
    }

    /** The table did to its chains and free lists what this step of the tracker does, whichever thread
        takes it and whatever the counters and locks are. */
    twostate predicate Refines(pc: Pc, pc': Pc)
      reads this, buckets, lists, pool
      requires old(Valid()) && Valid()
    {
      var f := FocusOf(c, pc);
      && FocusOk(f) && OtherChainsKept(f.b)
      && (forall j: nat :: j < STRIPES && j != f.j ==> frees[j] == old(frees[j]))
      && forall t, v, x :: Act(c, t, pc, OnView(v, old(Chain(f.b)), old(frees[f.j])), x)
                        == Some((pc', OnView(v, Chain(f.b), frees[f.j])))
    }

    /** mtt_entry_find. */
    method Find(p: Ptr) returns (e: int)
      requires Valid()
      ensures StackOf(p) == [] ==> e == NIL
      ensures StackOf(p) != [] ==> 0 <= e < pool.Length && EntryOf(pool[..], e) == StackOf(p)[0]
    {
      var b := c.bucketOf(p);
      ghost var k := 0;
      e := buckets[b];
      while e != NIL && pool[e].ptr != p
        invariant k <= |chains[b]| && Follows(pool[..], e, chains[b][k..])
        invariant forall j :: 0 <= j < k ==> Chain(b)[j].ptr != p
        decreases |chains[b]| - k
      {
        assert chains[b][k..][1..] == chains[b][k + 1..];
        e := pool[e].next;
        k := k + 1;
      }
      FirstAt(Chain(b), p, k);
      if k < |chains[b]| { StackPop(Chain(b), p, p); }
    }

    /** What linking `e` means for every key. */
    twostate predicate Pushed(e: Entry)
      reads this, buckets, lists, pool
      requires old(Valid()) && Valid()
    {
      forall q: Ptr :: StackOf(q) == if q == e.ptr then [e] + old(StackOf(q)) else old(StackOf(q))
    }

    /** Linking `e` is the tracker's link step. */
    twostate predicate Links(e: Entry)
      reads this, buckets, lists, pool
      requires old(Valid()) && Valid()
    {
      forall w :: Refines(Insert(e, w, Link), Insert(e, w, CountLink))
    }

    twostate lemma LinkPushes(e: Entry)
      requires old(Valid()) && Valid() && OtherChainsKept(c.bucketOf(e.ptr))
      requires Chain(c.bucketOf(e.ptr)) == [e] + old(Chain(c.bucketOf(e.ptr)))
      ensures Pushed(e) && (frees == old(frees) ==> Links(e))
    {
      forall q: Ptr ensures StackOf(q) == if q == e.ptr then [e] + old(StackOf(q)) else old(StackOf(q)) {
        StackPush(old(Chain(c.bucketOf(e.ptr))), e, q);
      }
    }

    /** mtt_entry_add: link a filled record at the head of its bucket. */
    method Add(e: nat)
      requires Valid() && e < c.cap && spot[e] == Out
      modifies this, buckets, pool
      ensures Valid() && frees == old(frees) && SameRecords(old(pool[..]), pool[..])
      ensures var b := c.bucketOf(old(pool[e]).ptr);
              && spot == old(spot)[e := InChain(b)]
              && Chain(b) == [EntryOf(old(pool[..]), e)] + old(Chain(b)) && OtherChainsKept(b)
      ensures Pushed(EntryOf(old(pool[..]), e)) && Links(EntryOf(old(pool[..]), e))
    {
      var b := c.bucketOf(pool[e].ptr);
      pool[e] := pool[e].(next := buckets[b]);
      buckets[b] := e;
      chains := chains[b := [e] + chains[b]];
      spot := spot[e := InChain(b)];
      ghost var before, where, x := old(pool[..]), old(spot), pool[e];
      assert pool[..] == before[e := x];
      ListPushed(before, where, old(buckets[b]), old(chains)[b], InChain(b), e, x);
      forall d: nat | d < BUCKETS && d != b ensures OnList(pool[..], spot, buckets[d], chains[d], InChain(d)) {
        ListKept(before, where, buckets[d], chains[d], InChain(d), e, x, e, InChain(b));
      }
      forall j: nat | j < STRIPES ensures OnList(pool[..], spot, lists[j], frees[j], InFree(j)) {
        ListKept(before, where, lists[j], frees[j], InFree(j), e, x, e, InChain(b));
      }
      assert Chain(b) == [EntryOf(before, e)] + old(Chain(b));
      LinkPushes(EntryOf(before, e));
    }

    /** Return a slot that is on no list: clear it and push it on its home stripe's free list. */
    method Give(e: nat)
      requires Valid() && e < c.cap && spot[e] == Out
      modifies this, lists, pool
      ensures Valid() && chains == old(chains)
      ensures forall d: nat :: d < BUCKETS ==> Chain(d) == old(Chain(d))
      ensures var j := HomeStripe(c, e);
              frees == old(frees)[j := [e] + old(frees)[j]] && spot == old(spot)[e := InFree(j)]
      ensures EntryOf(pool[..], e) == Entry(e, 0, 0, 0, 0, [])
      ensures forall a :: Refines(Pc.Give(e, a, Push), Pc.Give(e, a, Release))
      ensures forall i :: 0 <= i < pool.Length && i != e ==> pool[i] == old(pool[i])
    {
      var j := HomeStripe(c, e);
      pool[e] := CLEARED.(next := lists[j]);
      lists[j] := e;
      frees := frees[j := [e] + frees[j]];
      spot := spot[e := InFree(j)];
      ghost var before, where, x := old(pool[..]), old(spot), pool[e];
      assert pool[..] == before[e := x];
      ListPushed(before, where, old(lists[j]), old(frees)[j], InFree(j), e, x);
      forall d: nat | d < BUCKETS ensures OnList(pool[..], spot, buckets[d], chains[d], InChain(d)) {
        ListKept(before, where, buckets[d], chains[d], InChain(d), e, x, e, InFree(j));
      }
      forall i: nat | i < STRIPES && i != j ensures OnList(pool[..], spot, lists[i], frees[i], InFree(i)) {
        ListKept(before, where, lists[i], frees[i], InFree(i), e, x, e, InFree(j));
      }
    }

    /** Take the k-th slot of bucket b's chain out of it, given the slot before it. */
    method Unlink(b: nat, prev: int, e: nat, ghost k: nat)
      requires Valid() && b < BUCKETS && k < |chains[b]| && e == chains[b][k]
      requires prev == if k == 0 then NIL else chains[b][k - 1] as int
      modifies this, buckets, pool
      ensures Valid() && frees == old(frees) && SameRecords(old(pool[..]), pool[..])
      ensures spot == old(spot)[e := Out] && chains == old(chains)[b := Without(old(chains)[b], k)]
    {
      ghost var before, where := pool[..], spot;
      if prev == NIL {
        ListPopped(before, where, buckets[b], chains[b], InChain(b));
        assert Without(chains[b], k) == chains[b][1..];
        buckets[b] := pool[e].next;
      } else {
        ListCut(before, where, buckets[b], chains[b], InChain(b), k);
        pool[prev] := pool[prev].(next := pool[e].next);
      }
      chains := chains[b := Without(chains[b], k)];
      spot := spot[e := Out];
      ghost var i := if prev == NIL then e else prev;
      assert pool[..] == before[i := pool[i]];
      assert OnList(pool[..], spot, buckets[b], chains[b], InChain(b));
      forall d: nat | d < BUCKETS && d != b ensures OnList(pool[..], spot, buckets[d], chains[d], InChain(d)) {
        ListKept(before, where, buckets[d], chains[d], InChain(d), i, pool[i], e, Out);
      }
      forall j: nat | j < STRIPES ensures OnList(pool[..], spot, lists[j], frees[j], InFree(j)) {
        ListKept(before, where, lists[j], frees[j], InFree(j), i, pool[i], e, Out);
      }
    }

    /** The walk of mtt_entry_remove: the newest record of `p` and the one linked before it. */
    method Walk(p: Ptr) returns (prev: int, e: int, ghost k: nat)
      requires Valid()
      ensures var b := c.bucketOf(p);
              && k == First(Chain(b), p) && e == (if k < |chains[b]| then chains[b][k] as int else NIL)
              && prev == if k == 0 then NIL else chains[b][k - 1] as int
    {
      var b := c.bucketOf(p);
      k := 0;
      prev, e := NIL, buckets[b];
      while e != NIL && pool[e].ptr != p
        invariant k <= |chains[b]| && Follows(pool[..], e, chains[b][k..])
        invariant prev == if k == 0 then NIL else chains[b][k - 1] as int
        invariant forall j :: 0 <= j < k ==> Chain(b)[j].ptr != p
        decreases |chains[b]| - k
      {
        assert chains[b][k..][1..] == chains[b][k + 1..];
        prev, e := e, pool[e].next;
        k := k + 1;
      }
      FirstAt(Chain(b), p, k);
    }

    /** What unlinking the newest record of `p` means for every key. */
    twostate predicate Popped(p: Ptr)
      reads this, buckets, lists, pool
      requires old(Valid()) && Valid()
    {
      forall q: Ptr :: StackOf(q) == if q == p && old(StackOf(p)) != [] then old(StackOf(p))[1..] else old(StackOf(q))
    }

    /** Unlinking the newest record with the key of `e` is the tracker's unlink step. */
    twostate predicate Unlinks(e: Entry)
      reads this, buckets, lists, pool
      requires old(Valid()) && Valid()
    {
      forall prior: Entry, k :: prior.ptr == e.ptr ==> Refines(Pc.Remove(prior, k, Removing.Unlink), Pc.Remove(e, k, CountUnlink))
    }

    /** Only bucket b's chain changed, and it lost its newest record for `p`. */
    twostate predicate CutAt(b: nat, p: Ptr)
      reads this, buckets, lists, pool
      requires old(Valid()) && Valid() && b < BUCKETS
    {
      && OtherChainsKept(b) && First(old(Chain(b)), p) < |old(Chain(b))|
      && Chain(b) == Without(old(Chain(b)), First(old(Chain(b)), p))
    }

    twostate predicate Shortened(b: nat, p: Ptr)
      reads this, buckets, lists, pool
      requires old(Valid()) && Valid() && b < BUCKETS
    {
      && First(old(Chain(b)), p) < |old(chains[b])|
      && chains == old(chains)[b := Without(old(chains[b]), First(old(Chain(b)), p))]
    }

    twostate lemma CutChains(p: Ptr)
      requires old(Valid()) && Valid() && SameRecords(old(pool[..]), pool[..])
      requires Shortened(c.bucketOf(p), p)
      ensures CutAt(c.bucketOf(p), p)
    {
      var b := c.bucketOf(p);
      EntriesCut(old(pool[..]), pool[..], old(chains[b]), First(old(Chain(b)), p));
      forall d: nat | d < BUCKETS && d != b ensures Chain(d) == old(Chain(d)) {
        EntriesSame(old(pool[..]), pool[..], chains[d]);
      }
    }

    twostate lemma CutPops(p: Ptr)
      requires old(Valid()) && Valid() && SameRecords(old(pool[..]), pool[..])
      requires Shortened(c.bucketOf(p), p)
      ensures CutAt(c.bucketOf(p), p) && Popped(p)
    {
      CutChains(p);
      forall q: Ptr ensures StackOf(q) == if q == p && old(StackOf(p)) != [] then old(StackOf(p))[1..] else old(StackOf(q)) {
        StackPop(old(Chain(c.bucketOf(p))), p, q);
      }
    }

    twostate lemma CutRefines(p: Ptr)
      requires old(Valid()) && Valid() && frees == old(frees) && CutAt(c.bucketOf(p), p)
      ensures Unlinks(old(Chain(c.bucketOf(p)))[First(old(Chain(c.bucketOf(p))), p)])
    {
      var was := old(Chain(c.bucketOf(p)));
      forall prior: Entry, k, t, v, x | prior.ptr == p
        ensures Act(c, t, Pc.Remove(prior, k, Removing.Unlink), OnView(v, was, frees[0]), x)
             == Some((Pc.Remove(was[First(was, p)], k, CountUnlink), OnView(v, Without(was, First(was, p)), frees[0])))
      {
        UnlinkAct(c, t, prior, k, OnView(v, was, frees[0]), x);
      }
    }

    twostate lemma CutUnlinks(p: Ptr)
      requires old(Valid()) && Valid() && SameRecords(old(pool[..]), pool[..]) && frees == old(frees)
      requires Shortened(c.bucketOf(p), p)
      ensures Popped(p) && old(StackOf(p)) != [] && Unlinks(old(StackOf(p))[0])
    {
      StackPop(old(Chain(c.bucketOf(p))), p, p);
      CutPops(p);
      CutRefines(p);
    }

    /** The first half of mtt_entry_remove: the newest record of `p`, if there is one, leaves its chain. */
    method Detach(p: Ptr) returns (e: int)
      requires Valid()
      modifies this, buckets, pool
      ensures Valid() && Popped(p) && frees == old(frees)
      ensures e == NIL <==> old(StackOf(p)) == []
      ensures e == NIL ==> chains == old(chains) && pool[..] == old(pool[..]) && spot == old(spot)
      ensures e != NIL ==> 0 <= e < c.cap && spot == old(spot)[e := Out]
      ensures e != NIL ==> EntryOf(pool[..], e) == old(StackOf(p))[0] && Unlinks(old(StackOf(p))[0])
    {
      var prev; ghost var k;
      prev, e, k := Walk(p);
      if e != NIL {
        StackPop(Chain(c.bucketOf(p)), p, p);
        assert EntryOf(pool[..], e) == StackOf(p)[0];
        Unlink(c.bucketOf(p), prev, e, k);
        CutUnlinks(p);
      }
    }

    /** mtt_entry_remove: the newest record of `p`, if there is one, leaves its chain and its slot goes
        back to the pool. Every other key's records stay, also those in the same bucket. */
    method Remove(p: Ptr)
      requires Valid()
      modifies this, buckets, lists, pool
      ensures Valid() && Popped(p)
      ensures old(StackOf(p)) == [] ==> chains == old(chains) && frees == old(frees) && pool[..] == old(pool[..])
      ensures old(StackOf(p)) != [] ==>
        var e := old(StackOf(p))[0].slot; var j := HomeStripe(c, e); frees == old(frees)[j := [e] + old(frees)[j]]
    {
      var e := Detach(p);
      if e != NIL {
        Give(e);
      }
    }

    /** Slot `e` was the head of free list j and now is on no list. */
    twostate predicate TakenFrom(j: nat, e: int)
      reads this
      requires j < STRIPES && old(|frees| == STRIPES && |spot| == c.cap)
    {
      && old(frees[j]) != [] && e == old(frees[j])[0] < c.cap
      && frees == old(frees[j := frees[j][1..]]) && spot == old(spot)[e := Out]
    }

    /** Pop the head of a free list; NIL if it is empty. */
    method Pop(j: nat) returns (e: int)
      requires Valid() && j < STRIPES
      modifies this, lists
      ensures Valid() && chains == old(chains)
      ensures old(frees[j]) == [] ==> e == NIL && frees == old(frees) && spot == old(spot)
      ensures old(frees[j]) != [] ==> TakenFrom(j, e)
      ensures forall p, z, w, i :: ProbeStripe(c, p, i) == j ==>
        Refines(Make(p, z, w, Making.Pop(i)), Make(p, z, w, if e == NIL then Unpool(i, None) else CountUp(i, e)))
    {
      e := lists[j];
      if e != NIL {
        ghost var where := spot;
        ListPopped(pool[..], where, e, frees[j], InFree(j));
        lists[j] := pool[e].next;
        frees := frees[j := frees[j][1..]];
        spot := spot[e := Out];
        assert pool[..] == pool[..][e := pool[e]];
        forall d: nat | d < BUCKETS ensures OnList(pool[..], spot, buckets[d], chains[d], InChain(d)) {
          ListKept(pool[..], where, buckets[d], chains[d], InChain(d), e, pool[e], e, Out);
        }
        forall i: nat | i < STRIPES && i != j ensures OnList(pool[..], spot, lists[i], frees[i], InFree(i)) {
          ListKept(pool[..], where, lists[i], frees[i], InFree(i), e, pool[e], e, Out);
        }
      }
    }

    /** The probe: the pointer's own pool stripe, then the other 63 in turn, until one has a slot.
        `i` counts the stripes found empty. */
    method Take(p: Ptr) returns (e: int, ghost i: nat)
      requires Valid()
      modifies this, lists
      ensures Valid() && chains == old(chains)
      ensures i <= STRIPES && (forall h: nat :: h < i ==> old(frees)[ProbeStripe(c, p, h)] == [])
      ensures i == STRIPES ==> e == NIL && frees == old(frees) && spot == old(spot)
      ensures i < STRIPES ==> TakenFrom(ProbeStripe(c, p, i), e)
    {
      e := Pop(ProbeStripe(c, p, 0));
      i := if e == NIL then 1 else 0;
      var k := 1;
      while k < STRIPES && e == NIL
        invariant 1 <= k <= STRIPES && Valid() && chains == old(chains)
        invariant forall h: nat :: h < i ==> old(frees)[ProbeStripe(c, p, h)] == []
        invariant e == NIL ==> i == k && frees == old(frees) && spot == old(spot)
        invariant e != NIL ==> i < k && TakenFrom(ProbeStripe(c, p, i), e)
      {
        e := Pop(ProbeStripe(c, p, k));
        i := if e == NIL then k + 1 else k;
        k := k + 1;
      }
    }

    /** The probe reaches every stripe. */
    lemma ProbeCovers(p: Ptr, j: nat) returns (i: nat)
      requires j < STRIPES
      ensures i < STRIPES && ProbeStripe(c, p, i) == j
    {
      i := (j + STRIPES - Stripe(c, p)) % STRIPES;
    }

    /** mtt_entry_new: take a slot and fill in a record. It fails exactly when no slot of the whole pool
        is free, and a new record never shares its slot with one that is linked. */
    method New(p: Ptr, size: nat, stamp: int, frames: seq<Ptr>) returns (e: int, ghost i: nat)
      requires Valid()
      modifies this, lists, pool
      ensures Valid() && chains == old(chains)
      ensures e == NIL <==> forall j: nat :: j < STRIPES ==> old(frees)[j] == []
      ensures e == NIL ==> frees == old(frees) && spot == old(spot) && pool[..] == old(pool[..])
      ensures e != NIL ==> i < STRIPES && TakenFrom(ProbeStripe(c, p, i), e)
      ensures forall h: nat :: h < i <= STRIPES ==> old(frees)[ProbeStripe(c, p, h)] == []
      ensures e != NIL ==> EntryOf(pool[..], e) == Entry(e, p, size, stamp, 0, frames)
      ensures forall h :: 0 <= h < pool.Length && h != e ==> pool[h] == old(pool[h])
    {
      e, i := Take(p);
      if e == NIL {
        forall j: nat | j < STRIPES ensures old(frees)[j] == [] { var h := ProbeCovers(p, j); }
      } else {
        ghost var before := pool[..];
        pool[e] := Slot(p, size, stamp, 0, frames, NIL);
        assert pool[..] == before[e := pool[e]];
        forall d: nat | d < BUCKETS ensures OnList(pool[..], spot, buckets[d], chains[d], InChain(d)) {
          ListKept(before, spot, buckets[d], chains[d], InChain(d), e, pool[e], e, Out);
        }
        forall j: nat | j < STRIPES ensures OnList(pool[..], spot, lists[j], frees[j], InFree(j)) {
          ListKept(before, spot, lists[j], frees[j], InFree(j), e, pool[e], e, Out);
        }
      }
    }

    /** Every chain and every free list is emptied. */
    method Empty()
      requires Shaped()
      modifies buckets, lists
      ensures forall d :: 0 <= d < BUCKETS ==> buckets[d] == NIL
      ensures forall d :: 0 <= d < STRIPES ==> lists[d] == NIL
    {
      for b := 0 to BUCKETS
        invariant forall d :: 0 <= d < b ==> buckets[d] == NIL
      {
        buckets[b] := NIL;
      }
      for j := 0 to STRIPES
        invariant forall d :: 0 <= d < j ==> lists[d] == NIL
        invariant forall d :: 0 <= d < BUCKETS ==> buckets[d] == NIL
      {
        lists[j] := NIL;
      }
    }

    /** Slot i goes to the head of free list i % 64. */
    method Fill()
      requires Shaped() && forall d :: 0 <= d < STRIPES ==> lists[d] == NIL
      modifies this, lists, pool
      ensures FreedTo(pool[..], spot, lists[..], c.cap)
      ensures chains == old(chains) && frees == old(frees)
    {
      spot := seq(c.cap, i => Out);
      for i := 0 to pool.Length
        invariant FreedTo(pool[..], spot, lists[..], i) && |spot| == c.cap
        invariant chains == old(chains) && frees == old(frees)
      {
        FreedNext(pool[..], spot, lists[..], i);
        var j := i % STRIPES;
        pool[i] := pool[i].(next := lists[j]);
        lists[j] := i;
        spot := spot[i := InFree(j)];
      }
    }

    /** Initialisation of the table, and the reset a fork child makes: all chains emptied and slot i put
        on free list i % 64, whatever the table and the lists were before. */
    method Reset()
      requires Shaped()
      modifies this, buckets, lists, pool
      ensures Valid() && chains == seq(BUCKETS, b => []) && frees == FreeLists(c.cap)
    {
      Empty();
      Fill();
      chains := seq(BUCKETS, b => []);
      frees := FreeLists(c.cap);
    }

    constructor (c: Params)
      requires ParamsOk(c) && c.pooled
      ensures Valid() && this.c == c && fresh(buckets) && fresh(lists) && fresh(pool)
      ensures chains == seq(BUCKETS, b => []) && frees == FreeLists(c.cap)
    {
      this.c := c;
      buckets := new int[BUCKETS];
      lists := new int[STRIPES];
      pool := new Slot[c.cap](i => CLEARED);
      new;
      Reset();
    }
  }
}
