/** The allocation tracker as a step system: any number of threads inside malloc, free, realloc, fork
    and the report scan, one atomic operation or lock operation per step. A walk of a chain or of a
    free list is one step, because the lock that guards it is held (see `TrackerSafety.ChainGuarded`). */
module Tracker {
  import opened Sums
  import opened Chains

  const BUCKETS: nat := 4096
  const STRIPES: nat := 64
  const MAX_ENTRIES: nat := 131072
  const STACK_DEPTH: nat := 64

  /** What initialisation fixes: the hash of the bucket table, where the pool slots lie, how many
      there are, and whether the pool could be allocated at all. */
  datatype Params = Params(bucketOf: Ptr -> nat, slotAddr: nat -> Ptr, cap: nat, pooled: bool)

  ghost predicate ParamsOk(c: Params) {
    && (forall p :: c.bucketOf(p) < BUCKETS)
    && (!c.pooled ==> c.cap == 0)
  }

  function Stripe(c: Params, p: Ptr): (l: nat)
    ensures l < STRIPES
  {
    c.bucketOf(p) % STRIPES
  }

  /** The pool stripe a slot is returned to: it hashes the slot's own address. */
  function HomeStripe(c: Params, slot: nat): (l: nat)
    ensures l < STRIPES
  {
    Stripe(c, c.slotAddr(slot))
  }

  /** The shared atomics. They are integers, so that "never below zero" is something to prove. */
  datatype Counters = Counters(seqNo: int, allocs: int, frees: int, current: int, peak: int,
                               total: int, entries: int, used: int, skipped: int)

  const ZERO := Counters(0, 0, 0, 0, 0, 0, 0, 0, 0)

  /** On whose behalf a new record is made: malloc, realloc after its old record was removed, or
      realloc without a raw realloc, which makes the new record before it removes the one for `prior`. */
  datatype Origin = FromMalloc | FromRealloc | FromCopy(prior: Ptr)

  /** What a thread does after it has released a bucket lock. */
  datatype Then =
    | Done
    | Resize(prior: Ptr, size: nat, found: bool)
    | Renew(ptr: Ptr, size: nat)
    | Install(e: Entry)

  /** What a thread does after it has returned a slot to the pool. */
  datatype After = Finish | Unlocked(l: nat, k: Then)

  /** Making a record: take the lock of the pointer's pool stripe, pop a slot, count it, release; if
      the stripe was empty, try the other stripes in turn; fill the record in. */
  datatype Making = Start | Pop(i: nat) | CountUp(i: nat, slot: nat) | Unpool(i: nat, got: Option<nat>) | Probe(i: nat) | Fill(slot: nat)

  /** Inserting a record under its bucket lock, counters first, link last. */
  datatype Inserting =
    | Join | Check | Refuse | RefuseUnlock
    | Number | CountAlloc | AddCurrent | AddTotal
    | LoadCurrent | LoadPeak(cur: int) | Cas(cur: int, seen: int)
    | Link | CountLink

  /** Removing a found record under its bucket lock. */
  datatype Removing = Test | Subtract | Clamp | CountFree | Unlink | CountUnlink

  /** Returning a slot to its home stripe of the pool. */
  datatype Giving = Want | Push | Release | CountDown

  /** Fork: lock every bucket lock in ascending order, fork, unlock them all. */
  datatype Forking = Locking(i: nat) | Raw | Unlocking(i: nat)

  /** The report scan: read entry_count, then stripe by stripe lock, copy every 64th bucket, unlock. */
  datatype Scanning = Locking | Bucket(b: nat) | Unlocking

  /** Where a thread is; the name of a stage says what its next step does. */
  datatype Pc =
    | Idle
    | Ask(p: Ptr, z: nat, w: Origin)
    | Skip
    | Make(p: Ptr, z: nat, w: Origin, m: Making)
    | Insert(e: Entry, w: Origin, i: Inserting)
    | Unlock(l: nat, k: Then)
    | Give(slot: nat, a: After, g: Giving)
    | Seek(p: Ptr, k: Then, locked: bool)
    | Remove(e: Entry, k: Then, r: Removing)
    | Peek(p: Ptr, z: nat, locked: bool)
    | Fork(f: Forking)
    | ScanStart
    | Scan(l: nat, rows: seq<Entry>, room: nat, s: Scanning)
    | Report(rows: seq<Entry>, room: nat)

  /** The calls a thread may make. Requests that never reach the table (a null or zero-sized request,
      a sampled-out, blacklisted or tool-internal one, a failed raw allocation) are `Pass`. */
  datatype Op =
    | Pass
    | CallMalloc(p: Ptr, z: nat)
    | CallFree(p: Ptr)
    | CallRealloc(p: Ptr, z: nat)
    | CallCopyRealloc(p: Ptr, q: Ptr, z: nat)
    | CallFork
    | CallScan

  /** Everything the model does not decide: the next call, what the raw allocator answers, the clock,
      the captured stack, a spurious failure of a weak compare-and-swap, the scan's memory. */
  datatype Choice = Choice(op: Op, ok: bool, ptr: Ptr, stamp: int, frames: seq<Ptr>, room: nat)

  /** The part of the shared state one step can touch: one chain with its lock, one free list with
      its lock, and the counters. */
  datatype View = View(chain: seq<Entry>, free: seq<nat>, block: Option<nat>, plock: Option<nat>, ctr: Counters)

  datatype State = State(c: Params, pcs: seq<Pc>, chains: seq<seq<Entry>>, frees: seq<seq<nat>>,
                         blocks: seq<Option<nat>>, plocks: seq<Option<nat>>, ctr: Counters)

  function Begin(op: Op): Pc {
    match op
    case Pass => Idle
    case CallMalloc(p, z) => if z == 0 then Idle else Ask(p, z, FromMalloc)
    case CallFree(p) => Seek(p, Done, false)
    case CallRealloc(p, z) => if z == 0 then Seek(p, Done, false) else Peek(p, z, false)
    case CallCopyRealloc(p, q, z) => if z == 0 then Seek(p, Done, false) else Make(q, z, FromCopy(p), Start)
    case CallFork => Fork(Forking.Locking(0))
    case CallScan => ScanStart
  }

  /** After a bucket lock is released. The raw realloc runs here, with no lock held. */
  function Resume(k: Then, x: Choice): Pc {
    match k
    case Done => Idle
    case Resize(p, z, found) => if x.ok && found then Seek(p, Renew(x.ptr, z), false) else Idle
    case Renew(q, z) => Ask(q, z, FromRealloc)
    case Install(e) => Insert(e, FromMalloc, Join)
  }

  /** A finished record goes to its bucket; the copying realloc first removes the prior record. */
  function Placed(e: Entry, w: Origin): Pc {
    if w.FromCopy? then Seek(w.prior, Install(e), false) else Insert(e, w, Join)
  }

  function Filled(slot: nat, p: Ptr, z: nat, x: Choice): Entry {
    Entry(slot, p, z, x.stamp, 0, if |x.frames| <= STACK_DEPTH then x.frames else x.frames[..STACK_DEPTH])
  }

  function AfterGive(a: After): Pc {
    match a
    case Finish => Idle
    case Unlocked(l, k) => Unlock(l, k)
  }

  /** A record that leaves the table: its slot goes back to the pool, or it is freed. */
  function Dispose(c: Params, slot: nat, a: After): Pc {
    if c.pooled then Give(slot, a, Want) else AfterGive(a)
  }

  /** As many entries of a chain as still fit. */
  function Fitting(chain: seq<Entry>, n: nat): seq<Entry> {
    if |chain| <= n then chain else chain[..n]
  }

  /** Trying the next pool stripe, until all 64 have been tried. */
  function NextProbe(p: Ptr, z: nat, w: Origin, i: nat): Pc {
    if i + 1 < STRIPES then Make(p, z, w, Probe(i + 1)) else Idle
  }

  function ActMake(c: Params, t: nat, p: Ptr, z: nat, w: Origin, m: Making, v: View, x: Choice): Option<(Pc, View)> {
    match m
    case Start =>
      if !c.pooled then Some((if x.ok then Placed(Filled(0, p, z, x), w) else Idle, v))
      else if v.plock.None? then Some((Make(p, z, w, Pop(0)), v.(plock := Some(t)))) else None
    case Pop(i) =>
      if v.free == [] then Some((Make(p, z, w, Unpool(i, None)), v))
      else Some((Make(p, z, w, CountUp(i, v.free[0])), v.(free := v.free[1..])))
    case CountUp(i, slot) => Some((Make(p, z, w, Unpool(i, Some(slot))), v.(ctr := v.ctr.(used := v.ctr.used + 1))))
    case Unpool(i, got) =>
      Some((if got.Some? then Make(p, z, w, Fill(got.value)) else NextProbe(p, z, w, i), v.(plock := None)))
    case Probe(i) =>
      if v.plock.None? then Some((Make(p, z, w, Pop(i)), v.(plock := Some(t))))
      else Some((NextProbe(p, z, w, i), v))
    case Fill(slot) => Some((Placed(Filled(slot, p, z, x), w), v))
  }

  function ActInsert(c: Params, t: nat, e: Entry, w: Origin, i: Inserting, v: View, x: Choice): Option<(Pc, View)> {
    match i
    case Join => if v.block.None? then Some((Insert(e, w, Check), v.(block := Some(t)))) else None
    case Check => Some((Insert(e, w, if v.ctr.entries >= MAX_ENTRIES then Refuse else Number), v))
    case Refuse =>
      Some((if w.FromRealloc? then Dispose(c, e.slot, Unlocked(Stripe(c, e.ptr), Done)) else Insert(e, w, RefuseUnlock),
            v.(ctr := v.ctr.(skipped := v.ctr.skipped + 1))))
    case RefuseUnlock => Some((Dispose(c, e.slot, Finish), v.(block := None)))
    case Number => Some((Insert(e.(num := v.ctr.seqNo + 1), w, CountAlloc), v.(ctr := v.ctr.(seqNo := v.ctr.seqNo + 1))))
    case CountAlloc => Some((Insert(e, w, AddCurrent), v.(ctr := v.ctr.(allocs := v.ctr.allocs + 1))))
    case AddCurrent => Some((Insert(e, w, AddTotal), v.(ctr := v.ctr.(current := v.ctr.current + e.size))))
    case AddTotal => Some((Insert(e, w, LoadCurrent), v.(ctr := v.ctr.(total := v.ctr.total + e.size))))
    case LoadCurrent => Some((Insert(e, w, LoadPeak(v.ctr.current)), v))
    case LoadPeak(cur) => Some((Insert(e, w, Cas(cur, v.ctr.peak)), v))
    case Cas(cur, seen) =>
      if cur <= seen then Some((Insert(e, w, Link), v))
      else if v.ctr.peak == seen && x.ok then Some((Insert(e, w, Link), v.(ctr := v.ctr.(peak := cur))))
      else Some((Insert(e, w, Cas(cur, v.ctr.peak)), v))
    case Link => Some((Insert(e, w, CountLink), v.(chain := [e] + v.chain)))
    case CountLink => Some((Unlock(Stripe(c, e.ptr), Done), v.(ctr := v.ctr.(entries := v.ctr.entries + 1))))
  }

  function ActGive(t: nat, slot: nat, a: After, g: Giving, v: View): Option<(Pc, View)> {
    match g
    case Want => if v.plock.None? then Some((Give(slot, a, Push), v.(plock := Some(t)))) else None
    case Push => Some((Give(slot, a, Release), v.(free := [slot] + v.free)))
    case Release => Some((Give(slot, a, CountDown), v.(plock := None)))
    case CountDown => Some((AfterGive(a), v.(ctr := v.ctr.(used := v.ctr.used - 1))))
  }

  function ActSeek(c: Params, t: nat, p: Ptr, k: Then, locked: bool, v: View): Option<(Pc, View)> {
    if !locked then
      if v.block.None? then Some((Seek(p, k, true), v.(block := Some(t)))) else None
    else
      var i := First(v.chain, p);
      Some((if i < |v.chain| then Remove(v.chain[i], k, Test) else Unlock(Stripe(c, p), k), v))
  }

  function ActRemove(c: Params, e: Entry, k: Then, r: Removing, v: View): Option<(Pc, View)> {
    match r
    case Test => Some((Remove(e, k, if e.size <= v.ctr.current then Subtract else Clamp), v))
    case Subtract => Some((Remove(e, k, CountFree), v.(ctr := v.ctr.(current := v.ctr.current - e.size))))
    case Clamp => Some((Remove(e, k, CountFree), v.(ctr := v.ctr.(current := 0))))
    case CountFree => Some((Remove(e, k, Unlink), v.(ctr := v.ctr.(frees := v.ctr.frees + 1))))
    case Unlink =>
      var i := First(v.chain, e.ptr);
      if i < |v.chain| then Some((Remove(v.chain[i], k, CountUnlink), v.(chain := Without(v.chain, i))))
      else Some((Unlock(Stripe(c, e.ptr), k), v))
    case CountUnlink =>
      Some((Dispose(c, e.slot, Unlocked(Stripe(c, e.ptr), k)), v.(ctr := v.ctr.(entries := v.ctr.entries - 1))))
  }

  function ActPeek(c: Params, t: nat, p: Ptr, z: nat, locked: bool, v: View): Option<(Pc, View)> {
    if !locked then
      if v.block.None? then Some((Peek(p, z, true), v.(block := Some(t)))) else None
    else
      Some((Unlock(Stripe(c, p), Resize(p, z, First(v.chain, p) < |v.chain|)), v))
  }

  function ActFork(t: nat, f: Forking, v: View): Option<(Pc, View)> {
    match f
    case Locking(i) =>
      if v.block.Some? then None
      else Some((Fork(if i + 1 < STRIPES then Forking.Locking(i + 1) else Raw), v.(block := Some(t))))
    case Raw => Some((Fork(Forking.Unlocking(0)), v))
    case Unlocking(i) =>
      Some((if i + 1 < STRIPES then Fork(Forking.Unlocking(i + 1)) else Idle, v.(block := None)))
  }

  function ActScan(t: nat, l: nat, rows: seq<Entry>, room: nat, s: Scanning, v: View): Option<(Pc, View)> {
    match s
    case Locking =>
      if l >= STRIPES || |rows| >= room then Some((Report(rows, room), v))
      else if v.block.None? then Some((Scan(l, rows, room, Bucket(l)), v.(block := Some(t)))) else None
    case Bucket(b) =>
      if b >= BUCKETS || |rows| >= room then Some((Scan(l, rows, room, Scanning.Unlocking), v))
      else Some((Scan(l, rows + Fitting(v.chain, room - |rows|), room, Bucket(b + STRIPES)), v))
    case Unlocking => Some((Scan(l + 1, rows, room, Scanning.Locking), v.(block := None)))
  }

  /** One step of thread `t`, or None when the lock it wants is taken. */
  function Act(c: Params, t: nat, pc: Pc, v: View, x: Choice): Option<(Pc, View)> {
    match pc
    case Idle => Some((Begin(x.op), v))
    case Ask(p, z, w) => Some((if v.ctr.entries >= MAX_ENTRIES then Skip else Make(p, z, w, Start), v))
    case Skip => Some((Idle, v.(ctr := v.ctr.(skipped := v.ctr.skipped + 1))))
    case Make(p, z, w, m) => ActMake(c, t, p, z, w, m, v, x)
    case Insert(e, w, i) => ActInsert(c, t, e, w, i, v, x)
    case Unlock(l, k) => Some((Resume(k, x), v.(block := None)))
    case Give(slot, a, g) => ActGive(t, slot, a, g, v)
    case Seek(p, k, locked) => ActSeek(c, t, p, k, locked, v)
    case Remove(e, k, r) => ActRemove(c, e, k, r, v)
    case Peek(p, z, locked) => ActPeek(c, t, p, z, locked, v)
    case Fork(f) => ActFork(t, f, v)
    case ScanStart =>
      Some((if v.ctr.entries <= 0 then Report([], 0)
            else if x.ok then Scan(0, [], if x.room < v.ctr.entries then x.room else v.ctr.entries, Scanning.Locking)
            else Idle, v))
    case Scan(l, rows, room, s) => ActScan(t, l, rows, room, s, v)
    case Report(_, _) => Some((Idle, v))
  }

  /** Which chain, which bucket lock and which pool stripe the next step of a thread touches. */
  datatype Focus = Focus(b: nat, l: nat, j: nat)

  function At(c: Params, p: Ptr): Focus { Focus(c.bucketOf(p), Stripe(c, p), 0) }

  /** The pool stripe of the i-th probe made for pointer `p`. */
  function ProbeStripe(c: Params, p: Ptr, i: nat): nat { (Stripe(c, p) + i) % STRIPES }

  /** The probes start at the stripe of the pointer's own bucket and go around. */
  lemma ProbeNext(c: Params, p: Ptr, i: nat)
    ensures ProbeStripe(c, p, 0) == c.bucketOf(p) % 64 && ProbeStripe(c, p, i + 1) == (ProbeStripe(c, p, i) + 1) % 64
  {}

  function FocusOf(c: Params, pc: Pc): Focus {
    match pc
    case Make(p, _, _, m) => Focus(0, 0, ProbeStripe(c, p, if m.Start? || m.Fill? then 0 else m.i))
    case Insert(e, _, _) => At(c, e.ptr)
    case Unlock(l, _) => Focus(0, l % STRIPES, 0)
    case Give(slot, _, _) => Focus(0, 0, HomeStripe(c, slot))
    case Seek(p, _, _) => At(c, p)
    case Remove(e, _, _) => At(c, e.ptr)
    case Peek(p, _, _) => At(c, p)
    case Fork(f) => Focus(0, if f.Raw? then 0 else f.i % STRIPES, 0)
    case Scan(l, _, _, s) => Focus(if s.Bucket? then s.b % BUCKETS else 0, l % STRIPES, 0)
    case _ => Focus(0, 0, 0)
  }

  ghost predicate Shape(s: State) {
    && ParamsOk(s.c)
    && |s.chains| == BUCKETS && |s.frees| == STRIPES && |s.blocks| == STRIPES && |s.plocks| == STRIPES
  }

  ghost predicate FocusOk(f: Focus) { f.b < BUCKETS && f.l < STRIPES && f.j < STRIPES }

  lemma FocusInRange(c: Params, pc: Pc)
    requires ParamsOk(c)
    ensures FocusOk(FocusOf(c, pc))
  {}

  ghost function Get(s: State, f: Focus): View
    requires Shape(s) && FocusOk(f)
  {
    View(s.chains[f.b], s.frees[f.j], s.blocks[f.l], s.plocks[f.j], s.ctr)
  }

  ghost function Put(s: State, f: Focus, t: nat, pc: Pc, v: View): State
    requires Shape(s) && FocusOk(f) && t < |s.pcs|
  {
    State(s.c, s.pcs[t := pc], s.chains[f.b := v.chain], s.frees[f.j := v.free],
          s.blocks[f.l := v.block], s.plocks[f.j := v.plock], v.ctr)
  }

  /** Thread `t` takes one step. */
  ghost predicate Step(s: State, t: nat, x: Choice, s': State) {
    && Shape(s) && t < |s.pcs|
    && FocusOk(FocusOf(s.c, s.pcs[t]))
    && (var f := FocusOf(s.c, s.pcs[t]);
        var r := Act(s.c, t, s.pcs[t], Get(s, f), x);
        r.Some? && s' == Put(s, f, t, r.value.0, r.value.1))
  }
}
