/** Addresses in the register backing store, where every 64th slot holds NaT bits instead of a register
    (Itanium Architecture Software Developer's Manual, volume 2, chapter 6). */
module RegisterStack {
  import opened Chains

  const TWO61: nat := 0x2000_0000_0000_0000

  /** C's division, which truncates toward zero. */
  function Quot(x: int, y: nat): int
    requires y > 0
  {
    if x >= 0 then x / y else -(-x / y)
  }

  function SlotNum(a: nat): (s: nat)
    ensures s < 64
  {
    a / 8 % 64
  }

  predicate IsRnat(a: nat) { SlotNum(a) == 63 }

  /** How far apart two 64-bit addresses are, upwards and around. */
  function Distance(a: nat, b: nat): nat { (b - a) % TWO64 }

  function NumRegs(a: nat, b: nat): int {
    var slots := Distance(a, b) / 8;
    slots - (SlotNum(a) + slots) / 64
  }

  /** By how many slots `n` registers move an address. */
  function Stride(slot: nat, n: int): int {
    var delta := if n < 0 then slot + n - 62 else slot + n;
    n + Quot(delta, 63)
  }

  function SkipRegs(a: nat, n: int): (r: nat)
    ensures r < TWO64
  {
    (a + 8 * Stride(SlotNum(a), n)) % TWO64
  }

  // ---- what these compute: register numbers ---------------------------------------------------------

  /** The number of the register in slot u of an endless backing store; a NaT slot counts as the
      register after it. */
  function Register(u: int): int { u - u / 64 }

  /** The slot of register r. */
  function Slot(r: int): int { r + r / 63 }

  /** The numbering is right: no register is in a NaT slot, each slot's register has that slot, and
      registers follow one another. */
  lemma SlotOfRegister(r: int)
    ensures Slot(r) % 64 != 63 && Register(Slot(r)) == r
  {}

  lemma RegisterOfSlot(u: int)
    ensures u % 64 != 63 <==> Slot(Register(u)) == u
  {}

  lemma RegisterNext(u: int)
    ensures Register(u + 1) == if u % 64 == 63 then Register(u) else Register(u) + 1
  {}

  /** Truncating division with its correction for negative counts is flooring division, so that a skip
      adds to the register number. */
  lemma MovesByRegisters(u: int, n: int)
    ensures u + Stride(u % 64, n) == Slot(Register(u) + n)
  {
    var s := u % 64;
    assert Register(u) == 63 * (u / 64) + s;
    TruncationIsFloor(s, n);
    ShiftedFloor(u / 64, s + n);
  }

  lemma TruncationIsFloor(s: nat, n: int)
    requires s < 64
    ensures Stride(s, n) == n + (s + n) / 63
  {
    if n < 0 && s + n < 0 {
      var x := -(s + n);
      assert (62 + x) / 63 == -((0 - x) / 63);
    }
  }

  lemma ShiftedFloor(g: int, x: int)
    ensures (63 * g + x) / 63 == g + x / 63
  {}

  /** A skip before its reduction to 64 bits. */
  function Flat(a: int, n: int): int { a + 8 * Stride(a / 8 % 64, n) }

  /** Register r's address, for addresses that are `low` above a multiple of 8. */
  function AddressOf(low: int, r: int): int { low + 8 * Slot(r) }

  lemma FlatIsAddress(a: int, n: int)
    ensures Flat(a, n) == AddressOf(a % 8, Register(a / 8) + n)
  {
    MovesByRegisters(a / 8, n);
  }

  lemma AddressParts(low: nat, r: int)
    requires low < 8
    ensures AddressOf(low, r) % 8 == low && Register(AddressOf(low, r) / 8) == r && AddressOf(low, r) / 8 % 64 != 63
  {
    EightParts(low, Slot(r));
    SlotOfRegister(r);
  }

  lemma EightParts(low: nat, u: int)
    requires low < 8
    ensures (low + 8 * u) % 8 == low && (low + 8 * u) / 8 == u
  {}

  lemma FlatAdds(a: int, m: int, n: int)
    ensures Flat(Flat(a, m), n) == Flat(a, m + n)
  {
    FlatIsAddress(a, m);
    FlatIsAddress(Flat(a, m), n);
    FlatIsAddress(a, m + n);
    AddressParts(a % 8, Register(a / 8) + m);
  }

  /** Going around 2^64 changes neither slots nor how far a skip moves: 64 slots divide it. */
  lemma SlotsWrap(a: int, k: int)
    ensures (a + k * TWO64) / 8 % 64 == a / 8 % 64 && (a + k * TWO64) / 8 == a / 8 + k * TWO61
  {
    assert k * TWO64 == 8 * (k * TWO61);
    SameSlot(a / 8, k);
  }

  lemma SameSlot(u: int, k: int)
    ensures (u + k * TWO61) % 64 == u % 64
  {
    assert k * TWO61 == 64 * (k * 0x80_0000_0000_0000);
  }

  lemma FlatWraps(a: int, k: int, n: int)
    ensures Flat(a + k * TWO64, n) == Flat(a, n) + k * TWO64
  {
    SlotsWrap(a, k);
  }

  lemma FlatOfMod(x: int, n: int)
    ensures Flat(x % TWO64, n) % TWO64 == Flat(x, n) % TWO64
  {
    var k := x / TWO64;
    assert x == x % TWO64 + k * TWO64;
    FlatWraps(x % TWO64, k, n);
    Wraps(Flat(x % TWO64, n), k);
  }

  /** Skipping m registers and then n is skipping m + n, in any direction, from any address. */
  lemma SkipsAdd(a: nat, m: int, n: int)
    ensures SkipRegs(SkipRegs(a, m), n) == SkipRegs(a, m + n)
  {
    FlatOfMod(Flat(a, m), n);
    FlatAdds(a, m, n);
  }

  /** A skip never lands on a NaT slot. */
  lemma SkipAvoidsRnat(a: nat, n: int)
    ensures !IsRnat(SkipRegs(a, n))
  {
    var x := Flat(a, n);
    FlatIsAddress(a, n);
    AddressParts(a % 8, Register(a / 8) + n);
    ModSlot(x);
  }

  lemma ModSlot(x: int)
    ensures x % TWO64 / 8 % 64 == x / 8 % 64
  {
    var k := x / TWO64;
    assert x == x % TWO64 + k * TWO64;
    SlotsWrap(x % TWO64, k);
  }

  /** num_regs is the difference of register numbers. */
  lemma CountsRegisters(u: int, d: nat)
    ensures d - (u % 64 + d) / 64 == Register(u + d) - Register(u)
  {}

  /** The registers among the d slots from u on, counted one by one. */
  function Counted(u: int, d: nat): nat {
    if d == 0 then 0 else Counted(u, d - 1) + if (u + d - 1) % 64 == 63 then 0 else 1
  }

  lemma {:induction false} CountedIs(u: int, d: nat)
    ensures Counted(u, d) == Register(u + d) - Register(u)
  {
    if d > 0 {
      CountedIs(u, d - 1);
      RegisterNext(u + d - 1);
    }
  }

  /** num_regs is the number of slots between the addresses that hold registers. */
  lemma NumRegsCounts(a: nat, b: nat)
    ensures NumRegs(a, b) == Counted(a / 8, Distance(a, b) / 8)
  {
    CountsRegisters(a / 8, Distance(a, b) / 8);
    CountedIs(a / 8, Distance(a, b) / 8);
  }

  /** Counting back what was skipped gives the same number exactly when the skip has not gone around the
      whole address space. */
  lemma CountOfSkipIff(a: nat, n: nat)
    requires a < TWO64
    ensures NumRegs(a, SkipRegs(a, n)) == n <==> n + (SlotNum(a) + n) / 63 < TWO61
  {
    var s := SlotNum(a);
    TruncationIsFloor(s, n);
    var d := n + (s + n) / 63;
    DistanceOfMove(a, d);
    NetOfGaps(s, n);
    if d < TWO61 { NotAround(d); } else { FewerSlots(s, d % TWO61, d); }
  }

  lemma NotAround(d: nat) requires d < TWO61 ensures d % TWO61 == d {}

  lemma NetOfGaps(s: nat, n: nat)
    requires s < 64
    ensures var d := n + (s + n) / 63; d - (s + d) / 64 == n
  {}

  lemma DistanceOfMove(a: nat, d: nat)
    requires a < TWO64
    ensures Distance(a, (a + 8 * d) % TWO64) / 8 == d % TWO61
  {
    var k := d / TWO61;
    assert d == k * TWO61 + d % TWO61;
    assert a + 8 * d == a + 8 * (d % TWO61) + k * TWO64;
    Wraps(a + 8 * (d % TWO61), k);
    DistanceOfShort(a, d % TWO61);
  }

  lemma DistanceOfShort(a: nat, d: nat)
    requires a < TWO64 && d < TWO61
    ensures Distance(a, (a + 8 * d) % TWO64) / 8 == d
  {}

  lemma FewerSlots(s: nat, e: nat, d: nat)
    requires s < 64 && e < TWO61 <= d && e == d % TWO61
    ensures e - (s + e) / 64 < d - (s + d) / 64
  {}

  /** Skipping what was counted leads back to the address, unless that is a NaT slot. */
  lemma SkipOfCountIff(a: nat, b: nat)
    requires a < TWO64 && b < TWO64 && a % 8 == b % 8
    ensures SkipRegs(a, NumRegs(a, b)) == b <==> !IsRnat(b)
  {
    SkipAvoidsRnat(a, NumRegs(a, b));
    if !IsRnat(b) { SkipOfCount(a, b); }
  }

  lemma SkipOfCount(a: nat, b: nat)
    requires a < TWO64 && b < TWO64 && a % 8 == b % 8 && !IsRnat(b)
    ensures SkipRegs(a, NumRegs(a, b)) == b
  {
    var d := Distance(a, b) / 8;
    DistanceBack(a, b);
    NotRnat(a, b, d);
    FlatBack(a, d);
    NumRegsIs(a, b);
  }

  lemma NotRnat(a: nat, b: nat, d: nat)
    requires (a + 8 * d) % TWO64 == b && !IsRnat(b)
    ensures (a + 8 * d) / 8 % 64 != 63
  {
    ModSlot(a + 8 * d);
  }

  lemma NumRegsIs(a: nat, b: nat)
    ensures NumRegs(a, b) == Register(a / 8 + Distance(a, b) / 8) - Register(a / 8)
  {
    CountsRegisters(a / 8, Distance(a, b) / 8);
  }

  lemma FlatBack(a: int, d: nat)
    requires (a + 8 * d) / 8 % 64 != 63
    ensures Flat(a, Register(a / 8 + d) - Register(a / 8)) == a + 8 * d
  {
    FlatIsAddress(a, Register(a / 8 + d) - Register(a / 8));
    assert (a + 8 * d) / 8 == a / 8 + d;
    RegisterOfSlot(a / 8 + d);
  }

  lemma DistanceBack(a: nat, b: nat)
    requires a < TWO64 && b < TWO64 && a % 8 == b % 8
    ensures (a + 8 * (Distance(a, b) / 8)) % TWO64 == b
  {
    var around := if b >= a then 0 else TWO64;
    assert Distance(a, b) == b - a + around;
    WholeSlots(b, a, around);
    assert a + 8 * (Distance(a, b) / 8) == b + around;
  }

  lemma WholeSlots(b: nat, a: nat, around: nat)
    requires a % 8 == b % 8 && around % 8 == 0 && b + around >= a
    ensures 8 * ((b - a + around) / 8) == b - a + around
  {}
}
