/** The 64-bit hash arithmetic of the bucket table and of the stack cache, on machines with 8-byte
    pointers. The multiplications are named functions so that each can be undone by its inverse. */
module Hashing {

  type Word = bv64

  // ---- reversible pieces ------------------------------------------------------------------------

  function Times1(x: Word): Word { x * 0x9E3779B185EBCA87 }
  function Times2(x: Word): Word { x * 0xC2B2AE3D27D4EB4F }
  function Times3(x: Word): Word { x * 0x165667B19E3779F9 }
  function TimesGolden(x: Word): Word { x * 0x9E3779B97F4A7C15 }
  function Rotl31(x: Word): Word { (x << 31) | (x >> 33) }
  function Rotl27(x: Word): Word { (x << 27) | (x >> 37) }
  function Fold33(x: Word): Word { x ^ (x >> 33) }
  function Fold29(x: Word): Word { x ^ (x >> 29) }
  function Fold32(x: Word): Word { x ^ (x >> 32) }
  function Xor(x: Word, y: Word): Word { x ^ y }
  function Add(x: Word, y: Word): Word { x + y }
  function Plus4(x: Word): Word { x + 0x85EBCA77C2B2AE63 }

  function Over1(x: Word): Word { x * 0x0887493432BADB37 }
  function Over2(x: Word): Word { x * 0x0BA79078168D4BAF }
  function Over3(x: Word): Word { x * 0xE9E9F4C41D6DF849 }

  lemma Times1Undone(x: Word) ensures Over1(x * 0x9E3779B185EBCA87) == x {}
  lemma Times2Undone(x: Word) ensures Over2(x * 0xC2B2AE3D27D4EB4F) == x {}
  lemma Times3Undone(x: Word) ensures Over3(x * 0x165667B19E3779F9) == x {}

  function Unfold29(y: Word): Word { (y ^ (y >> 29)) ^ (y >> 58) }

  lemma Fold33Undone(x: Word) ensures Fold33(x ^ (x >> 33)) == x {}
  lemma Fold29Undone(x: Word) ensures Unfold29(x ^ (x >> 29)) == x {}
  lemma Fold32Undone(x: Word) ensures Fold32(x ^ (x >> 32)) == x {}

  lemma Times1Injective(x: Word, y: Word)
    requires x != y
    ensures Times1(x) != Times1(y)
  {
    Times1Undone(x); Times1Undone(y);
  }

  lemma Times2Injective(x: Word, y: Word)
    requires x != y
    ensures Times2(x) != Times2(y)
  {
    Times2Undone(x); Times2Undone(y);
  }

  lemma Times3Injective(x: Word, y: Word)
    requires x != y
    ensures Times3(x) != Times3(y)
  {
    Times3Undone(x); Times3Undone(y);
  }

  function Minus(x: Word, z: Word): Word { x - z }
  lemma AddUndone(x: Word, z: Word) ensures Minus(z + x, z) == x && Minus(x + z, z) == x {}

  lemma AddInjective(x: Word, y: Word, z: Word)
    requires x != y
    ensures Add(z, x) != Add(z, y) && Add(x, z) != Add(y, z)
  {
    AddUndone(x, z); AddUndone(y, z);
  }

  lemma Rotl31Injective(x: Word, y: Word) requires x != y ensures Rotl31(x) != Rotl31(y) {}
  lemma Rotl27Injective(x: Word, y: Word) requires x != y ensures Rotl27(x) != Rotl27(y) {}
  lemma Plus4Injective(x: Word, y: Word) requires x != y ensures Plus4(x) != Plus4(y) {}

  lemma Fold33Injective(x: Word, y: Word)
    requires x != y
    ensures Fold33(x) != Fold33(y)
  {
    Fold33Undone(x); Fold33Undone(y);
  }

  lemma Fold29Injective(x: Word, y: Word)
    requires x != y
    ensures Fold29(x) != Fold29(y)
  {
    Fold29Undone(x); Fold29Undone(y);
  }

  lemma Fold32Injective(x: Word, y: Word)
    requires x != y
    ensures Fold32(x) != Fold32(y)
  {
    Fold32Undone(x); Fold32Undone(y);
  }

  lemma XorInjective(x: Word, y: Word, z: Word)
    requires x != y
    ensures Xor(z, x) != Xor(z, y) && Xor(x, z) != Xor(y, z)
  {}

  // ---- the stack hash ---------------------------------------------------------------------------

  /** One round of a lane. */
  function Round(acc: Word, input: Word): Word { Times1(Rotl31(Add(acc, Times2(input)))) }

  /** What one 8-byte frame of the tail is turned into before it is mixed in. */
  function Stir(k: Word): Word { Times1(Rotl31(Times2(k))) }

  /** Mixing one frame of the tail into the state. */
  function Absorb(h: Word, k: Word): Word { Plus4(Times1(Rotl27(Xor(h, Stir(k))))) }

  function Avalanche(h: Word): Word { Fold32(Times3(Fold29(Times2(Fold33(h))))) }

  datatype Lanes = Lanes(v1: Word, v2: Word, v3: Word, v4: Word)

  function StartLanes(seed: Word): Lanes {
    Lanes(seed + 0x9E3779B185EBCA87 + 0xC2B2AE3D27D4EB4F, seed + 0xC2B2AE3D27D4EB4F, seed + 0, seed - 0x9E3779B185EBCA87)
  }

  /** Four frames go into the four lanes. */
  function Feed(v: Lanes, f: seq<Word>): Lanes
    requires |f| >= 4
  {
    Lanes(Round(v.v1, f[0]), Round(v.v2, f[1]), Round(v.v3, f[2]), Round(v.v4, f[3]))
  }

  /** The lanes after every whole block of four frames. */
  function Blocks(v: Lanes, f: seq<Word>): Lanes
    decreases |f|
  {
    if |f| < 4 then v else Blocks(Feed(v, f), f[4..])
  }

  /** Joining the lanes: the sum of their rotations, then one more round per lane. */
  function Join(v: Lanes): Word {
    Round(Round(Round(Round(Gather(v.v1, v.v2, v.v3, v.v4), v.v1), v.v2), v.v3), v.v4)
  }

  function Gather(a: Word, b: Word, c: Word, d: Word): Word {
    ((a << 1) | (a >> 63)) + ((b << 7) | (b >> 57)) + ((c << 12) | (c >> 52)) + ((d << 18) | (d >> 46))
  }

  /** The start for fewer than four frames. */
  function Short(seed: Word): Word { seed + 0x27D4EB2F165667C5 }

  /** The length step counts only the bytes that are left for the tail. */
  function AddLength(h: Word, left: nat): Word { h + LeftBytes(left) }

  function LeftBytes(left: nat): Word { if left == 0 then 0 else if left == 1 then 8 else if left == 2 then 16 else 24 }

  lemma LeftBytesIs(left: nat)
    requires left < 4
    ensures LeftBytes(left) as nat == 8 * left
  {}

  /** Where the tail starts: after the whole blocks. */
  function TailStart(n: nat): (c: nat)
    ensures c <= n
  {
    n - n % 4
  }

  function Joined(f: seq<Word>, seed: Word): Word {
    if |f| >= 4 then Join(Blocks(StartLanes(seed), f)) else Short(seed)
  }

  function Head(f: seq<Word>, seed: Word): Word {
    AddLength(Joined(f, seed), |f| % 4)
  }

  function Tail(h: Word, f: seq<Word>): Word
    decreases |f|
  {
    if f == [] then h else Tail(Absorb(h, f[0]), f[1..])
  }

  function Finish(h: Word, f: seq<Word>): Word { Avalanche(Tail(h, f)) }

  function HashFrames(f: seq<Word>, seed: Word): Word {
    if f == [] then 0 else Finish(Head(f, seed), f[TailStart(|f|)..])
  }

  lemma {:induction false} BlocksPrefix(v: Lanes, f: seq<Word>, g: seq<Word>)
    requires |f| == |g| && f[..TailStart(|f|)] == g[..TailStart(|f|)]
    ensures Blocks(v, f) == Blocks(v, g)
    decreases |f|
  {
    if |f| >= 4 {
      assert forall i :: 0 <= i < 4 ==> f[i] == f[..TailStart(|f|)][i] && g[i] == g[..TailStart(|f|)][i];
      assert Feed(v, f) == Feed(v, g);
      assert f[4..][..TailStart(|f[4..]|)] == f[..TailStart(|f|)][4..];
      assert g[4..][..TailStart(|g[4..]|)] == g[..TailStart(|f|)][4..];
      BlocksPrefix(Feed(v, f), f[4..], g[4..]);
    }
  }

  lemma TailStartLeaves(n: nat)
    ensures n - TailStart(n) == n % 4 && (n < 4 ==> TailStart(n) == 0)
  {}

  lemma TailStartIs(n: nat, k: nat)
    requires 4 * k <= n < 4 * k + 4
    ensures TailStart(n) == 4 * k
  {}

  // The single operations of the computation.
  method Prime1(x: Word) returns (y: Word) ensures y == Times1(x) { y := x * 0x9E3779B185EBCA87; }
  method Prime2(x: Word) returns (y: Word) ensures y == Times2(x) { y := x * 0xC2B2AE3D27D4EB4F; }
  method Prime3(x: Word) returns (y: Word) ensures y == Times3(x) { y := x * 0x165667B19E3779F9; }
  method Prime4(x: Word) returns (y: Word) ensures y == Plus4(x) { y := x + 0x85EBCA77C2B2AE63; }
  method Rotate31(x: Word) returns (y: Word) ensures y == Rotl31(x) { y := (x << 31) | (x >> 33); }
  method Rotate27(x: Word) returns (y: Word) ensures y == Rotl27(x) { y := (x << 27) | (x >> 37); }
  method Shift33(x: Word) returns (y: Word) ensures y == Fold33(x) { y := x ^ (x >> 33); }
  method Shift29(x: Word) returns (y: Word) ensures y == Fold29(x) { y := x ^ (x >> 29); }
  method Shift32(x: Word) returns (y: Word) ensures y == Fold32(x) { y := x ^ (x >> 32); }
  method Plus(x: Word, y: Word) returns (z: Word) ensures z == Add(x, y) { z := x + y; }
  method Exclusive(x: Word, y: Word) returns (z: Word) ensures z == Xor(x, y) { z := x ^ y; }

  /** One round of a lane. */
  method ComputeRound(acc: Word, input: Word) returns (a: Word)
    ensures a == Round(acc, input)
  {
    a := Prime2(input);
    a := Plus(acc, a);
    a := Rotate31(a);
    a := Prime1(a);
  }

  /** One block: four frames into the four lanes. */
  method FeedBlock(frames: array<Word>, v: Lanes, p: nat) returns (u: Lanes)
    requires p + 4 <= frames.Length
    ensures Blocks(v, frames[..][p..]) == Blocks(u, frames[..][p + 4..])
  {
    var v1 := ComputeRound(v.v1, frames[p]);
    var v2 := ComputeRound(v.v2, frames[p + 1]);
    var v3 := ComputeRound(v.v3, frames[p + 2]);
    var v4 := ComputeRound(v.v4, frames[p + 3]);
    u := Lanes(v1, v2, v3, v4);
    assert frames[..][p..][4..] == frames[..][p + 4..];
    assert u == Feed(v, frames[..][p..]);
  }

  /** The four lanes before the first block. */
  method ComputeStart(seed: Word) returns (v: Lanes)
    ensures v == StartLanes(seed)
  {
    var v1 := seed + 0x9E3779B185EBCA87 + 0xC2B2AE3D27D4EB4F;
    var v2 := seed + 0xC2B2AE3D27D4EB4F;
    var v3 := seed + 0;
    var v4 := seed - 0x9E3779B185EBCA87;
    v := Lanes(v1, v2, v3, v4);
  }

  /** The sum of the lanes, rotated by 1, 7, 12 and 18 places. */
  method ComputeGather(v1: Word, v2: Word, v3: Word, v4: Word) returns (h: Word)
    ensures h == Gather(v1, v2, v3, v4)
  {
    h := ((v1 << 1) | (v1 >> 63)) + ((v2 << 7) | (v2 >> 57)) + ((v3 << 12) | (v3 >> 52)) + ((v4 << 18) | (v4 >> 46));
  }

  /** The lanes joined after the last block. */
  method ComputeJoin(v: Lanes) returns (h: Word)
    ensures h == Join(v)
  {
    h := ComputeGather(v.v1, v.v2, v.v3, v.v4);
    h := ComputeRound(h, v.v1);
    h := ComputeRound(h, v.v2);
    h := ComputeRound(h, v.v3);
    h := ComputeRound(h, v.v4);
  }

  /** The lanes, fed block by block. */
  method ComputeLanes(frames: array<Word>, start: Lanes) returns (v: Lanes, p: nat)
    ensures p == TailStart(frames.Length) && v == Blocks(start, frames[..])
  {
    v, p := start, 0;
    ghost var k := 0;
    while frames.Length - p >= 4
      invariant p == 4 * k <= frames.Length
      invariant Blocks(v, frames[..][p..]) == Blocks(start, frames[..])
    {
      v := FeedBlock(frames, v, p);
      p, k := p + 4, k + 1;
    }
    TailStartIs(frames.Length, k);
  }

  method ComputeStir(frame: Word) returns (k: Word)
    ensures k == Stir(frame)
  {
    k := Prime2(frame);
    k := Rotate31(k);
    k := Prime1(k);
  }

  /** One frame of the tail. */
  method ComputeAbsorb(h: Word, frame: Word) returns (g: Word)
    ensures g == Absorb(h, frame)
  {
    var k := ComputeStir(frame);
    g := Exclusive(h, k);
    g := Rotate27(g);
    g := Prime1(g);
    g := Prime4(g);
  }

  /** The final mix. */
  method ComputeMix(h: Word) returns (g: Word)
    ensures g == Avalanche(h)
  {
    g := Shift33(h);
    g := Prime2(g);
    g := Shift29(g);
    g := Prime3(g);
    g := Shift32(g);
  }

  /** The start for fewer than four frames. */
  method ComputeShort(seed: Word) returns (h: Word) ensures h == Short(seed) { h := seed + 0x27D4EB2F165667C5; }

  /** The length step: eight bytes for each frame that is left. */
  method ComputeLength(h: Word, left: nat) returns (g: Word)
    requires left < 4
    ensures g == AddLength(h, left)
  {
    var bytes := CountBytes(left);
    g := Plus(h, bytes);
  }

  method CountBytes(left: nat) returns (b: Word)
    requires left < 4
    ensures b == LeftBytes(left)
  {
    BytesFit(left);
    b := (8 * left) as Word;
  }

  lemma BytesFit(left: nat)
    requires left < 4
    ensures (8 * left) as Word == LeftBytes(left)
  {
    LeftBytesIs(left);
    assert (LeftBytes(left) as nat) as Word == LeftBytes(left);
  }

  /** The remaining frames, mixed in one by one. */
  method ComputeTail(frames: array<Word>, start: Word, from: nat) returns (h: Word)
    requires from <= frames.Length
    ensures h == Tail(start, frames[from..])
  {
    h := start;
    var p := from;
    while p < frames.Length
      invariant from <= p <= frames.Length && Tail(h, frames[p..]) == Tail(start, frames[from..])
    {
      assert frames[p..][1..] == frames[p + 1..];
      h := ComputeAbsorb(h, frames[p]);
      p := p + 1;
    }
  }

  /** The joined lanes if there are whole blocks, where the tail starts and how many frames are left. */
  method ComputeJoined(frames: array<Word>, seed: Word) returns (h: Word, p: nat, left: nat)
    ensures p == TailStart(frames.Length) && left == |frames[..]| % 4 && h == Joined(frames[..], seed)
  {
    TailStartLeaves(frames.Length);
    if frames.Length < 4 {
      h := ComputeShort(seed);
      return h, 0, frames.Length;
    }
    var v := ComputeStart(seed);
    v, p := ComputeLanes(frames, v);
    h := ComputeJoin(v);
    left := frames.Length - p;
  }

  /** The start of the tail: the length step adds the bytes that are left. */
  method ComputeHead(frames: array<Word>, seed: Word) returns (h: Word, p: nat)
    ensures p == TailStart(frames.Length) && h == Head(frames[..], seed)
  {
    var left;
    h, p, left := ComputeJoined(frames, seed);
    h := ComputeLength(h, left);
  }

  /** The hash of an array of frames, computed as the tracker computes it: whole blocks of four into
      the lanes, then the length step, then the remaining frames one by one. */
  method ComputeHash(frames: array<Word>, seed: Word) returns (h: Word)
    ensures h == HashFrames(frames[..], seed)
  {
    if frames.Length == 0 { return 0; }
    var p;
    h, p := ComputeHead(frames, seed);
    h := ComputeTail(frames, h, p);
    assert frames[p..] == frames[..][TailStart(frames.Length)..];
    h := ComputeMix(h);
  }

  // ---- what the hash keeps apart ------------------------------------------------------------------

  lemma StirInjective(x: Word, y: Word)
    requires x != y
    ensures Stir(x) != Stir(y)
  {
    Times2Injective(x, y);
    Rotl31Injective(Times2(x), Times2(y));
    Times1Injective(Rotl31(Times2(x)), Rotl31(Times2(y)));
  }

  /** What follows the exclusive-or is reversible. */
  lemma SettleInjective(x: Word, y: Word)
    requires x != y
    ensures Plus4(Times1(Rotl27(x))) != Plus4(Times1(Rotl27(y)))
  {
    Rotl27Injective(x, y);
    Times1Injective(Rotl27(x), Rotl27(y));
    Plus4Injective(Times1(Rotl27(x)), Times1(Rotl27(y)));
  }

  lemma AvalancheInjective(x: Word, y: Word)
    requires x != y
    ensures Avalanche(x) != Avalanche(y)
  {
    Fold33Injective(x, y);
    Times2Injective(Fold33(x), Fold33(y));
    Fold29Injective(Times2(Fold33(x)), Times2(Fold33(y)));
    Times3Injective(Fold29(Times2(Fold33(x))), Fold29(Times2(Fold33(y))));
    Fold32Injective(Times3(Fold29(Times2(Fold33(x)))), Times3(Fold29(Times2(Fold33(y)))));
  }

  /** Different states stay different while the same frames are mixed in. */
  lemma {:induction false} TailKeepsApart(h: Word, g: Word, f: seq<Word>)
    requires h != g
    ensures Tail(h, f) != Tail(g, f)
    decreases |f|
  {
    if f != [] {
      XorInjective(h, g, Stir(f[0]));
      SettleInjective(Xor(h, Stir(f[0])), Xor(g, Stir(f[0])));
      TailKeepsApart(Absorb(h, f[0]), Absorb(g, f[0]), f[1..]);
    }
  }

  /** One different frame makes a different state, whatever comes before and after it. */
  lemma {:induction false} TailSeesChange(h: Word, f: seq<Word>, g: seq<Word>, i: nat)
    requires |f| == |g| && i < |f| && f[i] != g[i]
    requires forall j :: 0 <= j < |f| && j != i ==> f[j] == g[j]
    ensures Tail(h, f) != Tail(h, g)
    decreases |f|
  {
    if i == 0 {
      StirInjective(f[0], g[0]);
      XorInjective(Stir(f[0]), Stir(g[0]), h);
      SettleInjective(Xor(h, Stir(f[0])), Xor(h, Stir(g[0])));
      assert f[1..] == g[1..];
      TailKeepsApart(Absorb(h, f[0]), Absorb(h, g[0]), f[1..]);
    } else {
      TailSeesChange(Absorb(h, f[0]), f[1..], g[1..], i - 1);
    }
  }

  lemma FinishApart(h: Word, f: seq<Word>, g: seq<Word>, i: nat)
    requires |f| == |g| && i < |f| && f[i] != g[i]
    requires forall j :: 0 <= j < |f| && j != i ==> f[j] == g[j]
    ensures Finish(h, f) != Finish(h, g)
  {
    TailSeesChange(h, f, g, i);
    AvalancheInjective(Tail(h, f), Tail(h, g));
  }

  lemma HeadSame(f: seq<Word>, g: seq<Word>, seed: Word)
    requires |f| == |g| && forall j :: 0 <= j < TailStart(|f|) ==> f[j] == g[j]
    ensures Head(f, seed) == Head(g, seed)
  {
    assert f[..TailStart(|f|)] == g[..TailStart(|f|)];
    BlocksPrefix(StartLanes(seed), f, g);
  }

  /** Changing exactly one frame that no block of four takes always changes the hash. With at most
      three frames that is any frame. */
  lemma OneFrameMatters(f: seq<Word>, g: seq<Word>, i: nat, seed: Word)
    requires |f| == |g| && TailStart(|f|) <= i < |f| && f[i] != g[i]
    requires forall j :: 0 <= j < |f| && j != i ==> f[j] == g[j]
    ensures HashFrames(f, seed) != HashFrames(g, seed)
  {
    var c := TailStart(|f|);
    HeadSame(f, g, seed);
    FinishApart(Head(f, seed), f[c..], g[c..], i - c);
  }

  // ---- the blocks of four ---------------------------------------------------------------------------

  /** A round is reversible in its input ... */
  lemma RoundSeesInput(acc: Word, x: Word, y: Word)
    requires x != y
    ensures Round(acc, x) != Round(acc, y)
  {
    Times2Injective(x, y);
    AddInjective(Times2(x), Times2(y), acc);
    MixInjective(Add(acc, Times2(x)), Add(acc, Times2(y)));
  }

  /** ... and in its accumulator. */
  lemma RoundKeepsApart(acc: Word, other: Word, x: Word)
    requires acc != other
    ensures Round(acc, x) != Round(other, x)
  {
    AddInjective(acc, other, Times2(x));
    MixInjective(Add(acc, Times2(x)), Add(other, Times2(x)));
  }

  lemma MixInjective(x: Word, y: Word)
    requires x != y
    ensures Times1(Rotl31(x)) != Times1(Rotl31(y))
  {
    Rotl31Injective(x, y);
    Times1Injective(Rotl31(x), Rotl31(y));
  }

  lemma FeedKeepsApart(v: Lanes, w: Lanes, f: seq<Word>)
    requires v != w && |f| >= 4
    ensures Feed(v, f) != Feed(w, f)
  {
    if v.v1 != w.v1 { RoundKeepsApart(v.v1, w.v1, f[0]); }
    else if v.v2 != w.v2 { RoundKeepsApart(v.v2, w.v2, f[1]); }
    else if v.v3 != w.v3 { RoundKeepsApart(v.v3, w.v3, f[2]); }
    else { RoundKeepsApart(v.v4, w.v4, f[3]); }
  }

  lemma FeedSeesChange(v: Lanes, f: seq<Word>, g: seq<Word>, i: nat)
    requires |f| >= 4 && |g| >= 4 && i < 4 && f[i] != g[i]
    ensures Feed(v, f) != Feed(v, g)
  {
    if i == 0 { RoundSeesInput(v.v1, f[0], g[0]); }
    else if i == 1 { RoundSeesInput(v.v2, f[1], g[1]); }
    else if i == 2 { RoundSeesInput(v.v3, f[2], g[2]); }
    else { RoundSeesInput(v.v4, f[3], g[3]); }
  }

  /** Different lanes stay different while the same blocks are fed ... */
  lemma {:induction false} BlocksKeepApart(v: Lanes, w: Lanes, f: seq<Word>)
    requires v != w
    ensures Blocks(v, f) != Blocks(w, f)
    decreases |f|
  {
    if |f| >= 4 {
      FeedKeepsApart(v, w, f);
      BlocksKeepApart(Feed(v, f), Feed(w, f), f[4..]);
    }
  }

  /** ... and one different frame anywhere in the blocks makes different lanes. */
  lemma {:induction false} BlocksSeeChange(v: Lanes, f: seq<Word>, g: seq<Word>, i: nat)
    requires |f| == |g| && i < TailStart(|f|) && f[i] != g[i]
    requires forall j :: 0 <= j < |f| && j != i ==> f[j] == g[j]
    ensures Blocks(v, f) != Blocks(v, g)
    decreases |f|
  {
    if i < 4 {
      FeedSeesChange(v, f, g, i);
      assert f[4..] == g[4..];
      BlocksKeepApart(Feed(v, f), Feed(v, g), f[4..]);
    } else {
      assert forall j :: 0 <= j < 4 ==> f[j] == g[j];
      assert Feed(v, f) == Feed(v, g);
      BlocksSeeChange(Feed(v, f), f[4..], g[4..], i - 4);
    }
  }

  // ---- the hash of a captured stack -----------------------------------------------------------------

  /** Clearing the Thumb bit. */
  function Clear(a: Word): Word { a & 0xFFFFFFFFFFFFFFFE }

  /** Only the lowest bit is lost. */
  lemma ClearedSame(a: Word, b: Word)
    ensures Clear(a) == Clear(b) <==> Half(a) == Half(b)
  {
    HalfOfClear(a); HalfOfClear(b);
    TwiceHalf(a); TwiceHalf(b);
  }

  function Half(a: Word): Word { a >> 1 }
  function Twice(a: Word): Word { a << 1 }
  lemma HalfOfClear(a: Word) ensures Half(a & 0xFFFFFFFFFFFFFFFE) == a >> 1 {}
  lemma TwiceHalf(a: Word) ensures Twice(a >> 1) == a & 0xFFFFFFFFFFFFFFFE {}

  function Cleared(f: seq<Word>): (g: seq<Word>)
    ensures |g| == |f| && forall i :: 0 <= i < |f| ==> g[i] == Clear(f[i])
  {
    seq(|f|, i requires 0 <= i < |f| => Clear(f[i]))
  }

  /** The innermost frame is the capture routine itself and is not hashed, unless it is the only one. */
  function Hashed(f: seq<Word>): seq<Word> { if |f| > 1 then f[1..] else f }

  function StackHash(f: seq<Word>): Word { HashFrames(Cleared(Hashed(f)), 0x9e3779b97f4a7c15) }

  /** The stack hash depends on the frames only up to their Thumb bits. */
  lemma StackHashIgnoresThumb(f: seq<Word>, g: seq<Word>)
    requires Cleared(f) == Cleared(g)
    ensures StackHash(f) == StackHash(g)
  {
    assert forall i :: 0 <= i < |f| ==> Clear(f[i]) == Cleared(f)[i] == Cleared(g)[i] == Clear(g[i]);
    assert Cleared(Hashed(f)) == Cleared(Hashed(g));
  }

  /** Two stacks of at most four frames whose hashed parts differ in exactly one frame, Thumb bits
      aside, never share a hash. */
  lemma ShortStacksApart(f: seq<Word>, g: seq<Word>, i: nat)
    requires |f| == |g| && |Hashed(f)| <= 3 && i < |Hashed(f)|
    requires Clear(Hashed(f)[i]) != Clear(Hashed(g)[i])
    requires forall j :: 0 <= j < |Hashed(f)| && j != i ==> Clear(Hashed(f)[j]) == Clear(Hashed(g)[j])
    ensures StackHash(f) != StackHash(g)
  {
    OneFrameMatters(Cleared(Hashed(f)), Cleared(Hashed(g)), i, 0x9e3779b97f4a7c15);
  }

  /** The same in terms of the captured frames: frame 0 is the capture routine, unless it is the only
      one, and the lowest bit is the Thumb bit. */
  lemma CapturedApart(f: seq<Word>, g: seq<Word>, i: nat)
    requires |f| == |g| && 1 <= |f| <= 4 && i < |f| && (|f| > 1 ==> i > 0)
    requires Clear(f[i]) != Clear(g[i]) && forall j :: 0 < j < |f| && j != i ==> Clear(f[j]) == Clear(g[j])
    ensures StackHash(f) != StackHash(g)
  {
    var k := if |f| > 1 then i - 1 else 0;
    assert Hashed(f)[k] == f[i] && Hashed(g)[k] == g[i];
    forall j | 0 <= j < |Hashed(f)| && j != k ensures Clear(Hashed(f)[j]) == Clear(Hashed(g)[j]) {
      assert Hashed(f)[j] == f[j + 1] && Hashed(g)[j] == g[j + 1];
    }
    ShortStacksApart(f, g, k);
  }

  /** The innermost frame of several does not matter. */
  lemma InnermostIgnored(f: seq<Word>, g: seq<Word>)
    requires |f| == |g| > 1
    requires forall j :: 0 < j < |f| ==> Clear(f[j]) == Clear(g[j])
    ensures StackHash(f) == StackHash(g)
  {
    forall j | 0 <= j < |Hashed(f)| ensures Cleared(Hashed(f))[j] == Cleared(Hashed(g))[j] {
      assert Hashed(f)[j] == f[j + 1] && Hashed(g)[j] == g[j + 1];
    }
    assert Cleared(Hashed(f)) == Cleared(Hashed(g));
  }

  /** Two stacks are the same to the caches exactly if their frames agree but for the lowest bits. */
  lemma ClearedEqualIff(f: seq<Word>, g: seq<Word>)
    ensures Cleared(f) == Cleared(g) <==> |f| == |g| && forall i :: 0 <= i < |f| ==> Clear(f[i]) == Clear(g[i])
  {
    if Cleared(f) == Cleared(g) {
      assert forall i :: 0 <= i < |f| ==> Clear(f[i]) == Cleared(f)[i] == Cleared(g)[i] == Clear(g[i]);
    }
  }

  // ---- the bucket of a pointer ----------------------------------------------------------------------

  function Low(x: Word): Word { x & 0xFFF }

  /** The address in 8-byte units. */
  function Units(p: Word): Word { p >> 3 }

  function BucketWord(p: Word, seed: Word): Word { Low(Xor(TimesGolden(Units(p)), seed)) }

  /** mtt_bucket_of for 4096 buckets. */
  function BucketOf(p: Word, seed: Word): (b: nat)
    ensures b < 4096
  {
    BucketWord(p, seed) as nat
  }

  /** The i-th address in 8-byte steps from `p`, wrapping at 2^64. */
  function StepTo(p: Word, i: Word): Word { p + (i << 3) }

  function OverGolden(y: Word): Word { Low(y * 0x33D) }
  function GoldenLow(x: Word): Word { (x * 0x9E3779B97F4A7C15) & 0xFFF }
  function LowSum(a: Word, i: Word): Word { (a + i) & 0xFFF }
  function LowGap(a: Word, b: Word): Word { (b - a) & 0xFFF }

  // The low twelve bits of a product, sum or exclusive-or depend only on those of its operands.
  lemma GoldenUndone(x: Word) ensures OverGolden(x * 0x9E3779B97F4A7C15) == x & 0xFFF {}
  lemma OverGoldenLow(y: Word) ensures OverGolden(y & 0xFFF) == OverGolden(y) {}
  lemma GoldenLowLow(x: Word) ensures GoldenLow(x & 0xFFF) == GoldenLow(x) {}
  lemma GoldenRedone(z: Word) ensures GoldenLow((z * 0x33D) & 0xFFF) == z & 0xFFF {}
  lemma XorTwice(x: Word, s: Word) ensures Xor(Xor(x, s), s) == x {}
  lemma XorLow(x: Word, s: Word) ensures Low((x & 0xFFF) ^ s) == Low(x ^ s) {}
  lemma ShiftedSum(p: Word, i: Word) ensures Low((p + (i << 3)) >> 3) == LowSum(p >> 3, i) {}
  lemma StepUnits(p: Word, i: Word) ensures Low(Units(StepTo(p, i))) == LowSum(Units(p), i) { ShiftedSum(p, i); }
  lemma LowSumUndone(a: Word, i: Word) ensures LowGap(a, (a + i) & 0xFFF) == i & 0xFFF {}
  lemma LowSumGap(a: Word, b: Word) ensures LowSum(a, (b - a) & 0xFFF) == b & 0xFFF {}

  /** The low twelve bits of the address in units, recovered from the bucket. */
  function Recover(b: Word, seed: Word): Word { OverGolden(Xor(b, seed)) }

  lemma XorOfLow(x: Word, s: Word) ensures Low(Xor(Low(x), s)) == Low(Xor(x, s)) { XorLow(x, s); }
  lemma OverOfLow(y: Word) ensures OverGolden(Low(y)) == OverGolden(y) { OverGoldenLow(y); }
  lemma OverOfTimes(x: Word) ensures OverGolden(TimesGolden(x)) == Low(x) { GoldenUndone(x); }

  lemma BucketUndone(p: Word, seed: Word)
    ensures Recover(BucketWord(p, seed), seed) == Low(Units(p))
  {
    RecoverLow(TimesGolden(Units(p)), seed);
    OverOfTimes(Units(p));
  }

  lemma RecoverLow(g: Word, seed: Word)
    ensures Recover(Low(Xor(g, seed)), seed) == OverGolden(g)
  {
    var y := Xor(Low(Xor(g, seed)), seed);
    OverOfLow(y);
    XorOfLow(Xor(g, seed), seed);
    XorTwice(g, seed);
    OverOfLow(g);
  }

  lemma GapOfSum(a: Word, i: Word)
    requires i < 4096
    ensures LowGap(a, LowSum(a, i)) == i
  {
    LowSumUndone(a, i);
    assert i & 0xFFF == i;
  }

  /** Of 4096 consecutive 8-byte steps no two share a bucket, whatever the seed ... */
  lemma BucketsDistinct(p: Word, seed: Word, i: Word, j: Word)
    requires i < 4096 && j < 4096 && i != j
    ensures BucketOf(StepTo(p, i), seed) != BucketOf(StepTo(p, j), seed)
  {
    BucketGivesStep(p, seed, i);
    BucketGivesStep(p, seed, j);
    NumbersApart(BucketWord(StepTo(p, i), seed), BucketWord(StepTo(p, j), seed));
  }

  lemma NumbersApart(x: Word, y: Word)
    ensures x as nat == y as nat ==> x == y
  {
    if x as nat == y as nat { assert (x as nat) as Word == (y as nat) as Word; }
  }

  lemma BucketGivesStep(p: Word, seed: Word, i: Word)
    requires i < 4096
    ensures LowGap(Units(p), Recover(BucketWord(StepTo(p, i), seed), seed)) == i
  {
    BucketUndone(StepTo(p, i), seed);
    StepUnits(p, i);
    GapOfSum(Units(p), i);
  }

  lemma LowOfTimes(x: Word) ensures Low(TimesGolden(x)) == GoldenLow(x) {}
  lemma GoldenOfLow(x: Word) ensures GoldenLow(Low(x)) == GoldenLow(x) { GoldenLowLow(x); }
  lemma GoldenOfOver(z: Word) ensures GoldenLow(OverGolden(z)) == Low(z) { GoldenRedone(z); }
  lemma SumOfGap(a: Word, b: Word) ensures LowSum(a, LowGap(a, b)) == Low(b) { LowSumGap(a, b); }
  lemma GapSmall(a: Word, b: Word) ensures LowGap(a, b) < 4096 {}

  /** The bucket depends on the address only through the low twelve bits of its units. */
  lemma BucketFromUnits(p: Word, seed: Word, z: Word)
    requires Low(Units(p)) == Low(OverGolden(z))
    ensures BucketWord(p, seed) == Low(Xor(z, seed))
  {
    var g := TimesGolden(Units(p));
    GoldenOfLow(Units(p));
    GoldenOfLow(OverGolden(z));
    GoldenOfOver(z);
    LowOfTimes(Units(p));
    XorOfLow(g, seed);
    XorOfLow(z, seed);
  }

  /** ... and every bucket is that of one of them. */
  lemma BucketsCovered(p: Word, seed: Word, b: Word) returns (i: Word)
    requires b < 4096
    ensures i < 4096 && BucketOf(StepTo(p, i), seed) == b as nat
  {
    var z := Xor(b, seed);
    i := LowGap(Units(p), OverGolden(z));
    GapSmall(Units(p), OverGolden(z));
    StepUnits(p, i);
    SumOfGap(Units(p), OverGolden(z));
    BucketFromUnits(StepTo(p, i), seed, z);
    XorTwice(b, seed);
    LowOfSmall(b);
  }

  /** The seed matters: seeds that differ in their low twelve bits send every pointer to different
      buckets. */
  lemma SeedMatters(p: Word, seed: Word, other: Word)
    requires seed & 0xFFF != other & 0xFFF
    ensures BucketOf(p, seed) != BucketOf(p, other)
  {
    LowXorApart(TimesGolden(Units(p)), seed, other);
    NumbersApart(BucketWord(p, seed), BucketWord(p, other));
  }

  lemma LowXorApart(x: Word, s: Word, t: Word) requires s & 0xFFF != t & 0xFFF ensures Low(Xor(x, s)) != Low(Xor(x, t)) {}

  lemma LowOfSmall(b: Word) requires b < 4096 ensures Low(b) == b {}

  method Eighths(p: Word) returns (h: Word) ensures h == Units(p) { h := p >> 3; }
  method Golden(x: Word) returns (h: Word) ensures h == TimesGolden(x) { h := x * 0x9E3779B97F4A7C15; }
  method LowBits(x: Word) returns (b: Word) ensures b == Low(x) { b := x & (4096 - 1); }

  /** mtt_bucket_of, step by step. */
  method ComputeBucket(p: Word, seed: Word) returns (b: Word)
    ensures b as nat == BucketOf(p, seed)
  {
    var h := Eighths(p);
    h := Golden(h);
    h := Exclusive(h, seed);
    b := LowBits(h);
  }
}
