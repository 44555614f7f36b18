/** The small cache of resolved frame addresses: 512 slots, four probes, overwriting. */
module AddressCache {
  const SLOTS: nat := 512
  const PROBES: nat := 4
  const SYMBOL_MAX: nat := 256

  /** Addresses are 64-bit words; 0 marks an empty slot. */
  type Address = nat

  datatype Entry = Entry(addr: Address, symbol: string)

  /** The multiplicative hash. Its low nine bits do not depend on the reduction to 64 bits. */
  function Bucket(a: Address): (b: nat)
    ensures b < SLOTS
  {
    a / 8 * 11400714819323198485 % SLOTS
  }

  /** The multiplication is undone modulo 512 by multiplying with 317. */
  lemma BucketUndone(a: Address)
    ensures Bucket(a) * 317 % 512 == a / 8 % 512
  {
    var u := a / 8;
    var q := u * 11400714819323198485 / 512;
    assert Bucket(a) == u * 11400714819323198485 - 512 * q;
    assert Bucket(a) * 317 == u + 512 * (u * 7058645698682527187 - 317 * q);
    AddsMultiple(u, u * 7058645698682527187 - 317 * q);
  }

  lemma AddsMultiple(u: int, k: int)
    ensures (u + 512 * k) % 512 == u % 512
  {}

  /** Two addresses share a bucket exactly if they agree in bits 3 to 11: 512 addresses 8 bytes apart
      have 512 different buckets. */
  lemma SameBucketIff(a: Address, b: Address)
    ensures Bucket(a) == Bucket(b) <==> a / 8 % 512 == b / 8 % 512
  {
    BucketUndone(a);
    BucketUndone(b);
    if a / 8 % 512 == b / 8 % 512 { BucketOfRest(a); BucketOfRest(b); }
  }

  lemma BucketOfRest(a: Address)
    ensures Bucket(a) == a / 8 % 512 * 11400714819323198485 % 512
  {
    var u := a / 8;
    var k, r := u / 512, u % 512;
    assert u == 512 * k + r;
    assert u * 11400714819323198485 == r * 11400714819323198485 + 512 * (k * 11400714819323198485);
    AddsMultiple(r * 11400714819323198485, k * 11400714819323198485);
  }

  function SlotOf(a: Address, i: nat): (k: nat)
    ensures k < SLOTS
  {
    (Bucket(a) + i) % SLOTS
  }

  /** Copying a string into a buffer of `size` bytes. */
  function Fit(s: string, size: nat): (r: string)
    requires size > 0
    ensures r <= s && |r| == if |s| < size then |s| else size - 1
  {
    if |s| < size then s else s[..size - 1]
  }

  /** How far slot k lies behind the bucket of `a`. */
  function Offset(a: Address, k: nat): (o: nat)
    requires k < SLOTS
    ensures o < SLOTS && SlotOf(a, o) == k
  {
    (k + SLOTS - Bucket(a)) % SLOTS
  }

  lemma Wrapped(b: nat, p: nat)
    requires b < SLOTS && p < SLOTS
    ensures ((b + p) % SLOTS + SLOTS - b) % SLOTS == p
  {
    if b + p >= SLOTS { assert (b + p) % SLOTS == b + p - SLOTS; }
  }

  lemma OffsetOfSlot(a: Address, o: nat)
    requires o < SLOTS
    ensures Offset(a, SlotOf(a, o)) == o
  {
    Wrapped(Bucket(a), o);
  }

  /** The entry of slot k lies in its address's window of four, with no empty slot before it. */
  ghost predicate Placed(es: seq<Entry>, k: nat)
    requires |es| == SLOTS && k < SLOTS
  {
    var a := es[k].addr;
    Offset(a, k) < PROBES && forall q :: 0 <= q < Offset(a, k) ==> es[SlotOf(a, q)].addr != 0
  }

  ghost predicate TableOk(es: seq<Entry>) {
    && |es| == SLOTS
    && (forall i, j :: 0 <= i < j < SLOTS && es[i].addr != 0 ==> es[i].addr != es[j].addr)
    && (forall k: nat :: k < SLOTS && es[k].addr != 0 ==> Placed(es, k))
  }

  /** Every entry holds the symbol last inserted for its address. */
  ghost predicate Current(es: seq<Entry>, last: map<Address, string>) {
    forall k :: 0 <= k < |es| && es[k].addr != 0 ==> es[k].addr in last && es[k].symbol == last[es[k].addr]
  }

  predicate Stops(es: seq<Entry>, a: Address, i: nat)
    requires |es| == SLOTS
  {
    es[SlotOf(a, i)].addr == 0 || es[SlotOf(a, i)].addr == a
  }

  /** The slot an insertion writes: the first of the four that is empty or holds the address, or else
      the first of the four. */
  function Target(es: seq<Entry>, a: Address, i: nat): (k: nat)
    requires |es| == SLOTS && i <= PROBES
    ensures k < SLOTS
    decreases PROBES - i
  {
    if i == PROBES then Bucket(a) else if Stops(es, a, i) then SlotOf(a, i) else Target(es, a, i + 1)
  }

  lemma {:induction false} TargetIs(es: seq<Entry>, a: Address, i: nat)
    requires |es| == SLOTS && i <= PROBES && forall q :: 0 <= q < i ==> !Stops(es, a, q)
    ensures var k := Target(es, a, i);
            || (exists o :: i <= o < PROBES && k == SlotOf(a, o) && Stops(es, a, o) && forall q :: 0 <= q < o ==> !Stops(es, a, q))
            || (k == SlotOf(a, 0) && forall q :: 0 <= q < PROBES ==> !Stops(es, a, q))
    decreases PROBES - i
  {
    if i < PROBES && !Stops(es, a, i) { TargetIs(es, a, i + 1); }
  }

  /** An address that has a slot is written there. */
  lemma WritesOwnSlot(es: seq<Entry>, a: Address, k: nat)
    requires TableOk(es) && a != 0 && k < SLOTS && es[k].addr == a
    ensures Target(es, a, 0) == k
  {
    TargetIs(es, a, 0);
    var o := Offset(a, k);
    assert Placed(es, k);
    assert Stops(es, a, o);
    forall q | 0 <= q < o ensures !Stops(es, a, q) { OffsetOfSlot(a, q); }
  }

  /** An insertion keeps the table in order: still no address twice, and, since it fills or overwrites
      and never empties, still no gaps. */
  lemma InsertKeepsTable(es: seq<Entry>, a: Address, symbol: string)
    requires TableOk(es) && a != 0
    ensures TableOk(es[Target(es, a, 0) := Entry(a, symbol)])
  {
    var t := Target(es, a, 0);
    var es' := es[t := Entry(a, symbol)];
    forall k | 0 <= k < SLOTS && es[k].addr == a ensures k == t { WritesOwnSlot(es, a, k); }
    forall k: nat | k < SLOTS && es'[k].addr != 0 ensures Placed(es', k) {
      if k == t { TargetPlaced(es, a, symbol); } else { assert Placed(es, k); }
    }
  }

  /** An insertion overwrites the entry of another address only if all four slots of its window, from its
      bucket on and around the end of the table, hold other addresses. */
  lemma EvictsOnlyWhenFull(es: seq<Entry>, a: Address)
    requires |es| == SLOTS && a != 0
    ensures var t := Target(es, a, 0);
            es[t].addr != 0 && es[t].addr != a ==>
              t == Bucket(a) && forall k: nat :: k < 512 && (k + 512 - Bucket(a)) % 512 < 4 ==> es[k].addr != 0 && es[k].addr != a
  {
    TargetIs(es, a, 0);
    var t := Target(es, a, 0);
    if es[t].addr != 0 && es[t].addr != a {
      forall k: nat | k < 512 && (k + 512 - Bucket(a)) % 512 < 4 ensures es[k].addr != 0 && es[k].addr != a {
        assert SlotOf(a, Offset(a, k)) == k && !Stops(es, a, Offset(a, k));
      }
    }
  }

  lemma TargetPlaced(es: seq<Entry>, a: Address, symbol: string)
    requires TableOk(es) && a != 0
    ensures Placed(es[Target(es, a, 0) := Entry(a, symbol)], Target(es, a, 0))
  {
    TargetIs(es, a, 0);
    var t := Target(es, a, 0);
    var o :| 0 <= o < PROBES && t == SlotOf(a, o) && forall q :: 0 <= q < o ==> !Stops(es, a, q);
    OffsetOfSlot(a, o);
    forall q | 0 <= q < o ensures SlotOf(a, q) != t && es[SlotOf(a, q)].addr != 0 { OffsetOfSlot(a, q); }
  }

  /** The answer without a cache: nothing for a null frame. */
  function Resolved(resolver: Address -> string, a: Address): string {
    if a == 0 then "" else Fit(resolver(a), SYMBOL_MAX)
  }

  class AddressCache {
    const entries: array<Entry>
    /** The symbol last inserted for each address, cut to fit a slot. */
    ghost var last: map<Address, string>

    ghost predicate Valid()
      reads this, entries
    {
      TableOk(entries[..]) && Current(entries[..], last)
    }

    /** Whether the address has a slot, anywhere. */
    ghost predicate Holds(a: Address)
      reads entries
    {
      exists k :: 0 <= k < entries.Length && entries[k].addr == a
    }

    constructor ()
      ensures Valid() && fresh(entries) && last == map[]
    {
      entries := new Entry[SLOTS](k => Entry(0, ""));
      last := map[];
    }

    /** addr_cache_lookup: a hit exactly when the address has a slot; it yields the symbol last inserted
        for it, as far as the buffer has room. */
    method Lookup(a: Address, size: nat) returns (hit: bool, out: string)
      requires Valid()
      ensures hit <==> a != 0 && size > 0 && Holds(a)
      ensures hit ==> a in last && out == Fit(last[a], size)
    {
      if a == 0 || size == 0 { return false, ""; }
      for i := 0 to PROBES
        invariant forall q :: 0 <= q < i ==> entries[SlotOf(a, q)].addr != a
      {
        var k := SlotOf(a, i);
        if entries[k].addr == a {
          return true, Fit(entries[k].symbol, size);
        }
      }
      return false, "";
    }

    /** addr_cache_insert. */
    method Insert(a: Address, symbol: string)
      requires Valid()
      modifies this, entries
      ensures Valid()
      ensures a == 0 ==> entries[..] == old(entries[..]) && last == old(last)
      ensures a != 0 ==> Holds(a) && last == old(last)[a := Fit(symbol, SYMBOL_MAX)]
      ensures a != 0 ==> entries[..] == old(entries[..])[Target(old(entries[..]), a, 0) := Entry(a, Fit(symbol, SYMBOL_MAX))]
    {
      if a == 0 { return; }
      ghost var was := entries[..];
      InsertKeepsTable(was, a, Fit(symbol, SYMBOL_MAX));
      forall k | 0 <= k < SLOTS && was[k].addr == a ensures k == Target(was, a, 0) { WritesOwnSlot(was, a, k); }
      last := last[a := Fit(symbol, SYMBOL_MAX)];
      for i := 0 to PROBES
        invariant Target(was, a, 0) == Target(was, a, i) && entries[..] == was
      {
        var k := SlotOf(a, i);
        if entries[k].addr == 0 || entries[k].addr == a {
          entries[k] := Entry(a, Fit(symbol, SYMBOL_MAX));
          assert entries[..] == was[k := Entry(a, Fit(symbol, SYMBOL_MAX))];
          assert entries[k].addr == a;
          return;
        }
      }
      entries[Bucket(a)] := Entry(a, Fit(symbol, SYMBOL_MAX));
      assert entries[..] == was[Bucket(a) := Entry(a, Fit(symbol, SYMBOL_MAX))];
      assert entries[Bucket(a)].addr == a;
    }

    /** Everything inserted so far came from `resolver`. */
    ghost predicate Memoises(resolver: Address -> string)
      reads this
    {
      forall a :: a in last ==> last[a] == Fit(resolver(a), SYMBOL_MAX)
    }

    /** resolve_one_frame into a buffer of SYMBOL_MAX bytes, with the lookups behind it as one resolver:
        the answer is the resolver's, whatever was cached, overwritten or shared a window before. */
    method Resolve(a: Address, resolver: Address -> string) returns (out: string)
      requires Valid() && Memoises(resolver)
      modifies this, entries
      ensures Valid() && Memoises(resolver) && out == Resolved(resolver, a)
      ensures |out| <= 255 && (a != 0 && |resolver(a)| <= 255 ==> out == resolver(a))
      ensures a != 0 ==> Holds(a)
    {
      if a == 0 { return ""; }
      var hit;
      hit, out := Lookup(a, SYMBOL_MAX);
      if !hit {
        out := Fit(resolver(a), SYMBOL_MAX);
        Insert(a, out);
      }
    }

    /** mtt_stack_resolve: all frames of a stack, each as if it were resolved afresh. */
    method ResolveStack(frames: seq<Address>, resolver: Address -> string) returns (symbols: seq<string>)
      requires Valid() && Memoises(resolver)
      modifies this, entries
      ensures Valid() && Memoises(resolver) && |symbols| == |frames|
      ensures forall i :: 0 <= i < |frames| ==> symbols[i] == Resolved(resolver, frames[i])
    {
      symbols := [];
      for i := 0 to |frames|
        invariant Valid() && Memoises(resolver) && |symbols| == i
        invariant forall k :: 0 <= k < i ==> symbols[k] == Resolved(resolver, frames[k])
      {
        var s := Resolve(frames[i], resolver);
        symbols := symbols + [s];
      }
    }
  }
}
