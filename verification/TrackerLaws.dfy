/** Conservation laws of the step system. A law gives every record, free slot, thread position and
    counter value a weight; a step moves weight around one chain, one free list, one thread and the
    counters, so it is enough to check each law locally. */
module TrackerLaws {
  import opened Chains
  import opened Tracker

  /** Slots(s): how many places slot s is in.   Space: slots anywhere.   Used: pool_used.
      Count: entry_count.   Bytes: current_bytes.   Calls: alloc_count against free_count.
      Serial(n): holders of allocation number n.   Volume: linked bytes against total_bytes. */
  datatype Law = Slots(slot: nat) | Space | Used | Count | Bytes | Calls | Serial(n: int) | Volume

  function Flag(b: bool): int { if b then 1 else 0 }

  function EntryW(k: Law, e: Entry): int {
    match k
    case Slots(s) => Flag(e.slot == s)
    case Space => 1
    case Used => 0
    case Count | Calls => -1
    case Bytes => 0 - e.size
    case Volume => e.size
    case Serial(n) => Flag(e.num == n)
  }

  function SlotW(k: Law, slot: nat): int {
    match k
    case Slots(s) => Flag(slot == s)
    case Space | Used => 1
    case _ => 0
  }

  function CtrW(k: Law, r: Counters): int {
    match k
    case Slots(_) | Space => 0
    case Used => r.used
    case Count => r.entries
    case Bytes => r.current
    case Calls => r.allocs - r.frees
    case Serial(n) => Flag(n > r.seqNo)
    case Volume => 0 - r.total
  }

  /** Weight of the pool slots a thread holds: taken from a free list or unlinked from a chain, and
      not yet linked or returned. */
  function HeldThen(k: Law, n: Then): int { if n.Install? then SlotW(k, n.e.slot) else 0 }

  function Held(k: Law, pc: Pc): int {
    match pc
    case Make(_, _, _, m) =>
      if m.CountUp? || m.Fill? then SlotW(k, m.slot) else if m.Unpool? && m.got.Some? then SlotW(k, m.got.value) else 0
    case Insert(e, _, i) => if i.CountLink? then 0 else SlotW(k, e.slot)
    case Unlock(_, n) => HeldThen(k, n)
    case Give(slot, a, g) =>
      (if g.Want? || g.Push? then SlotW(k, slot) else 0) + (if a.Unlocked? then HeldThen(k, a.k) else 0)
    case Seek(_, n, _) => HeldThen(k, n)
    case Remove(e, n, r) => (if r.CountUnlink? then SlotW(k, e.slot) else 0) + HeldThen(k, n)
    case _ => 0
  }

  /** Between its addition to current_bytes and the linking of its record. */
  predicate Adds(i: Inserting) { i.AddTotal? || i.LoadCurrent? || i.LoadPeak? || i.Cas? || i.Link? }

  function Adding(pc: Pc): nat { if pc.Insert? && Adds(pc.i) then pc.e.size else 0 }

  /** Between its subtraction from current_bytes and the unlinking of the record. */
  function Taking(pc: Pc): nat { if pc.Remove? && (pc.r.CountFree? || pc.r.Unlink?) then pc.e.size else 0 }

  /** How far a thread has moved the counters ahead of the lists, or the lists ahead of the counters. */
  function PcW(k: Law, pc: Pc): int {
    match k
    case Slots(_) | Space => Held(k, pc)
    case Used => Flag(pc.Make? && pc.m.CountUp?) - Flag(pc.Give? && (pc.g.Release? || pc.g.CountDown?))
    case Count => Flag(pc.Insert? && pc.i.CountLink?) - Flag(pc.Remove? && pc.r.CountUnlink?)
    case Bytes => Taking(pc) - Adding(pc)
    case Calls => Flag(pc.Remove? && pc.r.Unlink?) - Flag(pc.Insert? && (Adds(pc.i) || pc.i.AddCurrent?))
    case Serial(n) => Flag(pc.Insert? && (Adds(pc.i) || pc.i.AddCurrent? || pc.i.CountAlloc?) && pc.e.num == n)
    case Volume => if pc.Insert? && Adds(pc.i) && !pc.i.AddTotal? then pc.e.size else 0
  }

  function ChainW(k: Law, chain: seq<Entry>): int {
    if chain == [] then 0 else EntryW(k, chain[0]) + ChainW(k, chain[1..])
  }

  function FreeW(k: Law, free: seq<nat>): int {
    if free == [] then 0 else SlotW(k, free[0]) + FreeW(k, free[1..])
  }

  function LocalW(k: Law, pc: Pc, v: View): int {
    PcW(k, pc) + ChainW(k, v.chain) + FreeW(k, v.free) + CtrW(k, v.ctr)
  }

  lemma {:induction false} ChainWithout(k: Law, chain: seq<Entry>, i: nat)
    requires i < |chain|
    ensures ChainW(k, Without(chain, i)) == ChainW(k, chain) - EntryW(k, chain[i])
  {
    if i == 0 {
      assert Without(chain, 0) == chain[1..];
    } else {
      WithoutCons(chain, i);
      ChainWithout(k, chain[1..], i - 1);
      assert ([chain[0]] + Without(chain[1..], i - 1))[1..] == Without(chain[1..], i - 1);
    }
  }

  // ---- local well-formedness -------------------------------------------------------------------

  ghost predicate EntryOk(c: Params, e: Entry) { 0 < e.size && (c.pooled ==> e.slot < c.cap) }

  ghost predicate ThenOk(c: Params, k: Then) {
    match k
    case Done => true
    case Resize(_, z, _) => 0 < z
    case Renew(_, z) => 0 < z
    case Install(e) => EntryOk(c, e)
  }

  ghost predicate SlotOk(c: Params, slot: nat) { c.pooled && slot < c.cap }

  ghost predicate PcOk(c: Params, pc: Pc) {
    match pc
    case Ask(_, z, _) => 0 < z
    case Make(_, z, _, m) =>
      && 0 < z
      && (!m.Start? ==> c.pooled)
      && (m.Pop? || m.CountUp? || m.Unpool? || m.Probe? ==> m.i < STRIPES)
      && (m.CountUp? || m.Fill? ==> SlotOk(c, m.slot))
      && (m.Unpool? && m.got.Some? ==> SlotOk(c, m.got.value))
    case Insert(e, _, i) => EntryOk(c, e) && (Numbered(i) ==> 0 < e.num)
    case Unlock(l, k) => l < STRIPES && ThenOk(c, k)
    case Give(slot, a, _) => SlotOk(c, slot) && (a.Unlocked? ==> a.l < STRIPES && ThenOk(c, a.k))
    case Seek(_, k, _) => ThenOk(c, k)
    case Remove(e, k, _) => EntryOk(c, e) && ThenOk(c, k)
    case Peek(_, z, _) => 0 < z
    case Fork(f) => !f.Raw? ==> f.i < STRIPES
    case Scan(l, _, _, s) =>
      l <= STRIPES && (!s.Locking? ==> l < STRIPES) && (s.Bucket? ==> s.b % STRIPES == l && s.b < BUCKETS + STRIPES)
    case _ => true
  }

  /** The record has its allocation number. */
  predicate Numbered(i: Inserting) { i.CountAlloc? || i.AddCurrent? || Adds(i) || i.CountLink? }

  /** Every record of a chain hashes to that chain, is well formed and numbered. */
  ghost predicate ChainOk(c: Params, b: nat, chain: seq<Entry>) {
    forall i :: 0 <= i < |chain| ==> EntryOk(c, chain[i]) && 0 < chain[i].num && c.bucketOf(chain[i].ptr) == b
  }

  ghost predicate FreeOk(c: Params, free: seq<nat>) {
    forall i :: 0 <= i < |free| ==> SlotOk(c, free[i])
  }

  /** The record a removal has found is the newest one for its key, until it is unlinked; a record
      that has just been linked is the newest of its chain. */
  ghost predicate FoundIn(pc: Pc, chain: seq<Entry>) {
    && (pc.Remove? && !pc.r.CountUnlink? ==>
          First(chain, pc.e.ptr) < |chain| && chain[First(chain, pc.e.ptr)] == pc.e)
    && (pc.Insert? && pc.i.CountLink? ==> chain != [] && chain[0] == pc.e)
  }

  ghost predicate StepOk(c: Params, t: nat, pc: Pc, v: View, x: Choice) {
    && ParamsOk(c) && PcOk(c, pc) && FreeOk(c, v.free) && 0 <= v.ctr.seqNo
    && ChainOk(c, FocusOf(c, pc).b, v.chain)
    && FoundIn(pc, v.chain) && Act(c, t, pc, v, x).Some?
  }

  lemma MakeKeepsPc(c: Params, t: nat, pc: Pc, v: View, x: Choice)
    requires StepOk(c, t, pc, v, x) && pc.Make?
    ensures PcOk(c, ActMake(c, t, pc.p, pc.z, pc.w, pc.m, v, x).value.0)
  {}

  lemma InsertKeepsPc(c: Params, t: nat, pc: Pc, v: View, x: Choice)
    requires StepOk(c, t, pc, v, x) && pc.Insert?
    ensures PcOk(c, ActInsert(c, t, pc.e, pc.w, pc.i, v, x).value.0)
  {}

  lemma RemoveKeepsPc(c: Params, t: nat, pc: Pc, v: View, x: Choice)
    requires StepOk(c, t, pc, v, x) && (pc.Remove? || pc.Seek?)
    ensures PcOk(c, Act(c, t, pc, v, x).value.0)
  {}

  lemma StepKeepsPc(c: Params, t: nat, pc: Pc, v: View, x: Choice)
    requires StepOk(c, t, pc, v, x)
    ensures PcOk(c, Act(c, t, pc, v, x).value.0)
  {
    match pc
    case Make(_, _, _, _) => MakeKeepsPc(c, t, pc, v, x);
    case Insert(_, _, _) => InsertKeepsPc(c, t, pc, v, x);
    case Remove(_, _, _) => RemoveKeepsPc(c, t, pc, v, x);
    case Seek(_, _, _) => RemoveKeepsPc(c, t, pc, v, x);
    case _ =>
  }

  lemma StepKeepsLists(c: Params, t: nat, pc: Pc, v: View, x: Choice)
    requires StepOk(c, t, pc, v, x)
    ensures var (pc', v') := Act(c, t, pc, v, x).value;
            FreeOk(c, v'.free) && ChainOk(c, FocusOf(c, pc).b, v'.chain) && 0 <= v'.ctr.seqNo
  {}

  lemma InsertKeepsFound(c: Params, t: nat, pc: Pc, v: View, x: Choice)
    requires pc.Insert? && ActInsert(c, t, pc.e, pc.w, pc.i, v, x).Some?
    ensures var (pc', v') := ActInsert(c, t, pc.e, pc.w, pc.i, v, x).value;
            FoundIn(pc', v'.chain)
  {}

  lemma RemoveKeepsFound(c: Params, pc: Pc, v: View)
    requires pc.Remove? && FoundIn(pc, v.chain)
    ensures var (pc', v') := ActRemove(c, pc.e, pc.k, pc.r, v).value;
            FoundIn(pc', v'.chain)
  {}

  lemma StepKeepsFound(c: Params, t: nat, pc: Pc, v: View, x: Choice)
    requires FoundIn(pc, v.chain) && Act(c, t, pc, v, x).Some?
    ensures var (pc', v') := Act(c, t, pc, v, x).value;
            FoundIn(pc', v'.chain)
  {
    if pc.Insert? {
      InsertKeepsFound(c, t, pc, v, x);
    } else if pc.Remove? {
      RemoveKeepsFound(c, pc, v);
    }
  }

  ghost predicate LawApplies(k: Law, c: Params) {
    (k.Slots? || k.Space? ==> c.pooled) && (k.Serial? ==> 0 < k.n)
  }

  ghost predicate Exact(k: Law) { !k.Serial? && !k.Volume? }

  predicate Clamps(pc: Pc) { pc.Remove? && pc.r.Clamp? }

  /** Weight a step moves onto the lists: a record linked or unlinked, a slot pushed or popped. */
  function OntoLists(k: Law, pc: Pc, v: View): int {
    match pc
    case Make(_, _, _, m) => if m.Pop? && v.free != [] then 0 - SlotW(k, v.free[0]) else 0
    case Insert(e, _, i) => if i.Link? then EntryW(k, e) else 0
    case Give(slot, _, g) => if g.Push? then SlotW(k, slot) else 0
    case Remove(e, _, r) => if r.Unlink? then 0 - EntryW(k, e) else 0
    case _ => 0
  }

  predicate Links(pc: Pc) { pc.Insert? && pc.i.Link? }
  predicate Unlinks(pc: Pc) { pc.Remove? && pc.r.Unlink? }
  predicate Pops(pc: Pc) { pc.Make? && pc.m.Pop? }
  predicate Pushes(pc: Pc) { pc.Give? && pc.g.Push? }

  /** All that a step can do to the lists. */
  lemma ListSteps(c: Params, t: nat, pc: Pc, v: View, x: Choice)
    requires FoundIn(pc, v.chain) && Act(c, t, pc, v, x).Some?
    ensures var v' := Act(c, t, pc, v, x).value.1;
            && v'.chain == (if Links(pc) then [pc.e] + v.chain
                            else if Unlinks(pc) then Without(v.chain, First(v.chain, pc.e.ptr)) else v.chain)
            && v'.free == (if Pops(pc) && v.free != [] then v.free[1..]
                           else if Pushes(pc) then [pc.slot] + v.free else v.free)
  {}

  lemma ListsMove(k: Law, c: Params, t: nat, pc: Pc, v: View, x: Choice)
    requires FoundIn(pc, v.chain) && Act(c, t, pc, v, x).Some?
    ensures var v' := Act(c, t, pc, v, x).value.1;
            ChainW(k, v'.chain) + FreeW(k, v'.free) == ChainW(k, v.chain) + FreeW(k, v.free) + OntoLists(k, pc, v)
  {
    ListSteps(c, t, pc, v, x);
    if Links(pc) { assert ([pc.e] + v.chain)[1..] == v.chain; }
    if Unlinks(pc) { ChainWithout(k, v.chain, First(v.chain, pc.e.ptr)); }
    if Pushes(pc) { assert ([pc.slot] + v.free)[1..] == v.free; }
  }

  /** The rest of the books: what the thread's position and the counters gain is what the lists lose. */
  ghost predicate Balanced(k: Law, pc: Pc, v: View, r: (Pc, View)) {
    && PcW(k, r.0) + CtrW(k, r.1.ctr) + OntoLists(k, pc, v) <= PcW(k, pc) + CtrW(k, v.ctr)
    && (Exact(k) ==> PcW(k, r.0) + CtrW(k, r.1.ctr) + OntoLists(k, pc, v) == PcW(k, pc) + CtrW(k, v.ctr))
  }

  lemma BalanceMake(k: Law, c: Params, t: nat, pc: Pc, v: View, x: Choice)
    requires PcOk(c, pc) && LawApplies(k, c) && pc.Make? && ActMake(c, t, pc.p, pc.z, pc.w, pc.m, v, x).Some?
    ensures Balanced(k, pc, v, ActMake(c, t, pc.p, pc.z, pc.w, pc.m, v, x).value)
  {}

  predicate Moves(i: Inserting) { i.Refuse? || i.RefuseUnlock? || i.Number? || i.Link? || i.CountLink? }

  lemma BalanceInsertMoves(k: Law, c: Params, t: nat, pc: Pc, v: View, x: Choice)
    requires LawApplies(k, c) && pc.Insert? && Moves(pc.i)
    ensures Balanced(k, pc, v, ActInsert(c, t, pc.e, pc.w, pc.i, v, x).value)
  {}

  lemma BalanceInsert(k: Law, c: Params, t: nat, pc: Pc, v: View, x: Choice)
    requires LawApplies(k, c) && pc.Insert? && ActInsert(c, t, pc.e, pc.w, pc.i, v, x).Some?
    ensures Balanced(k, pc, v, ActInsert(c, t, pc.e, pc.w, pc.i, v, x).value)
  {
    if Moves(pc.i) { BalanceInsertMoves(k, c, t, pc, v, x); }
  }

  lemma BalanceGive(k: Law, c: Params, t: nat, pc: Pc, v: View)
    requires PcOk(c, pc) && LawApplies(k, c) && pc.Give? && ActGive(t, pc.slot, pc.a, pc.g, v).Some?
    ensures Balanced(k, pc, v, ActGive(t, pc.slot, pc.a, pc.g, v).value)
  {}

  lemma BalanceRemove(k: Law, c: Params, pc: Pc, v: View)
    requires PcOk(c, pc) && LawApplies(k, c) && pc.Remove? && !Clamps(pc) && FoundIn(pc, v.chain)
    ensures Balanced(k, pc, v, ActRemove(c, pc.e, pc.k, pc.r, v).value)
  {}

  lemma BalanceWalk(k: Law, c: Params, t: nat, pc: Pc, v: View, x: Choice)
    requires Act(c, t, pc, v, x).Some? && (pc.Unlock? || pc.Seek? || pc.Peek?)
    ensures Balanced(k, pc, v, Act(c, t, pc, v, x).value)
  {}

  lemma BalanceOther(k: Law, c: Params, t: nat, pc: Pc, v: View, x: Choice)
    requires Act(c, t, pc, v, x).Some?
    requires pc.Idle? || pc.Ask? || pc.Skip? || pc.Fork? || pc.ScanStart? || pc.Scan? || pc.Report?
    ensures Balanced(k, pc, v, Act(c, t, pc, v, x).value)
  {
    assert CtrW(k, Act(c, t, pc, v, x).value.1.ctr) == CtrW(k, v.ctr);
  }

  /** The local form of every law: a step that does not clamp never adds weight, and loses some only
      in the two laws that are bounds. */
  lemma StepBalances(k: Law, c: Params, t: nat, pc: Pc, v: View, x: Choice)
    requires PcOk(c, pc) && FoundIn(pc, v.chain) && Act(c, t, pc, v, x).Some? && LawApplies(k, c) && !Clamps(pc)
    ensures var (pc', v') := Act(c, t, pc, v, x).value;
            && LocalW(k, pc', v') <= LocalW(k, pc, v)
            && (Exact(k) ==> LocalW(k, pc', v') == LocalW(k, pc, v))
  {
    ListsMove(k, c, t, pc, v, x);
    match pc
    case Make(_, _, _, _) => BalanceMake(k, c, t, pc, v, x);
    case Insert(_, _, _) => BalanceInsert(k, c, t, pc, v, x);
    case Give(_, _, _) => BalanceGive(k, c, t, pc, v);
    case Remove(_, _, _) => BalanceRemove(k, c, pc, v);
    case Unlock(_, _) => BalanceWalk(k, c, t, pc, v, x);
    case Seek(_, _, _) => BalanceWalk(k, c, t, pc, v, x);
    case Peek(_, _, _) => BalanceWalk(k, c, t, pc, v, x);
    case _ => BalanceOther(k, c, t, pc, v, x);
  }
}
