/** Tracking records and the singly linked chains they form, as values. */
module Chains {

  /** Pointers and frame addresses; as 64-bit words they are taken modulo TWO64. */
  type Ptr = nat

  const TWO64: nat := 0x1_0000_0000_0000_0000

  lemma Wraps(x: int, k: int)
    ensures (x + k * TWO64) % TWO64 == x % TWO64
  {}

  /** One tracked allocation. `slot` is the pool slot that stores the record, `num` its allocation
      number (0 until it is numbered), `frames` the captured stack. */
  datatype Entry = Entry(slot: nat, ptr: Ptr, size: nat, stamp: int, num: int, frames: seq<Ptr>)

  /** Position of the newest entry for `p`, or |chain|: what the find and remove walks stop at. */
  function First(chain: seq<Entry>, p: Ptr): (k: nat)
    ensures k <= |chain|
    ensures k < |chain| ==> chain[k].ptr == p
    ensures forall j :: 0 <= j < k ==> chain[j].ptr != p
  {
    if chain == [] || chain[0].ptr == p then 0 else 1 + First(chain[1..], p)
  }

  function Without<T>(chain: seq<T>, k: nat): seq<T>
    requires k < |chain|
  {
    chain[..k] + chain[k + 1..]
  }

  lemma WithoutCons<T>(chain: seq<T>, k: nat)
    requires 0 < k < |chain|
    ensures Without(chain, k) == [chain[0]] + Without(chain[1..], k - 1)
  {
    assert chain[..k] == [chain[0]] + chain[1..][..k - 1];
    assert chain[k + 1..] == chain[1..][k..];
  }

  /** The entries of one key, newest first. */
  function Stack(chain: seq<Entry>, p: Ptr): (s: seq<Entry>)
    ensures First(chain, p) < |chain| <==> s != []
  {
    if chain == [] then []
    else if chain[0].ptr == p then [chain[0]] + Stack(chain[1..], p)
    else Stack(chain[1..], p)
  }

  /** Adding at the head pushes on the key's own stack and touches no other. */
  lemma StackPush(chain: seq<Entry>, e: Entry, p: Ptr)
    ensures Stack([e] + chain, p) == if p == e.ptr then [e] + Stack(chain, p) else Stack(chain, p)
  {
    assert ([e] + chain)[1..] == chain;
  }

  /** The entry the walks stop at is the top of the key's stack; unlinking it pops that stack and
      leaves every other key's stack as it was, whatever else shares the chain. */
  lemma {:induction false} StackPop(chain: seq<Entry>, p: Ptr, q: Ptr)
    requires First(chain, p) < |chain|
    ensures Stack(chain, p)[0] == chain[First(chain, p)]
    ensures Stack(Without(chain, First(chain, p)), q)
         == if q == p then Stack(chain, p)[1..] else Stack(chain, q)
  {
    var k, tail := First(chain, p), chain[1..];
    if chain[0].ptr == p {
      assert Without(chain, k) == tail;
    } else {
      StackPop(tail, p, q);
      WithoutCons(chain, k);
      StackPush(Without(tail, k - 1), chain[0], q);
    }
  }
}
