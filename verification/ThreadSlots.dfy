/** Per-thread slots without thread-local storage: any number of threads claim, cache and reclaim the
    slots of one array, one atomic operation per step, while threads exit, thread ids are reused and
    the process forks. */
module ThreadSlots {
  import opened Sums
  import opened Paths

  const SLOTS: nat := 512

  type Tid = nat

  /** Where a thread is inside a look-up: searching for its own id, for an empty slot, for a slot whose
      owner is gone (test, then swap), or about to cache the answer. */
  datatype Pc = Out | Find(i: nat) | Claim(i: nat) | Test(i: nat) | Swap(i: nat, owner: Tid) | Got(r: Option<nat>)

  /** A thread with its two thread-local variables, the cached slot and the id cached with it. */
  datatype Thread = Thread(tid: Tid, live: bool, pc: Pc, ctx: Option<nat>, cached: Tid)

  datatype State = State(slots: seq<Tid>, threads: seq<Thread>)

  /** A step of a thread (`gone` is what the liveness test answers), the birth of a thread, its end, and
      the fork of a child, up to the end of the child's sweep. */
  datatype Event = Go(u: nat, gone: bool) | Spawn(u: nat, tid: Tid) | Exit(u: nat) | Child(u: nat, tid: Tid)

  ghost predicate Alive(s: State, tid: Tid) {
    exists u :: 0 <= u < |s.threads| && s.threads[u].live && s.threads[u].tid == tid
  }

  /** The look-up, one atomic operation at a time: new slots and new thread. */
  function Move(slots: seq<Tid>, t: Thread, gone: bool): (seq<Tid>, Thread)
    requires |slots| == SLOTS
  {
    match t.pc
    case Out =>
      if t.ctx.Some? && t.ctx.value < SLOTS && t.cached == slots[t.ctx.value] then (slots, t) else (slots, t.(pc := Find(0)))
    case Find(i) =>
      if i >= SLOTS then (slots, t.(pc := Claim(0)))
      else (slots, t.(pc := if slots[i] == t.tid then Got(Some(i)) else Find(i + 1)))
    case Claim(i) =>
      if i >= SLOTS then (slots, t.(pc := Test(0)))
      else if slots[i] == 0 then (slots[i := t.tid], t.(pc := Got(Some(i))))
      else (slots, t.(pc := Claim(i + 1)))
    case Test(i) =>
      if i >= SLOTS then (slots, t.(pc := Got(None)))
      else (slots, t.(pc := if slots[i] != 0 && slots[i] != t.tid && gone then Swap(i, slots[i]) else Test(i + 1)))
    case Swap(i, owner) =>
      if i < SLOTS && slots[i] == owner then (slots[i := t.tid], t.(pc := Got(Some(i))))
      else (slots, t.(pc := Test(i + 1)))
    case Got(r) =>
      (slots, t.(pc := Out, ctx := r, cached := if r.Some? && r.value < SLOTS then slots[r.value] else 0))
  }

  /** What a fork child's sweep leaves in a slot: only its own id, in case it was there before. */
  function Swept(slots: seq<Tid>, tid: Tid): (r: seq<Tid>)
    ensures |r| == |slots|
  {
    seq(|slots|, i requires 0 <= i < |slots| => if slots[i] == tid then tid else 0)
  }

  /** All threads but `u` are gone. */
  function Alone(threads: seq<Thread>, u: nat, tid: Tid): (r: seq<Thread>)
    ensures |r| == |threads|
  {
    seq(|threads|, v requires 0 <= v < |threads| =>
      if v == u then Thread(tid, true, Out, None, 0) else threads[v].(live := false))
  }

  ghost predicate Next(s: State, e: Event, s': State) {
    && |s.slots| == SLOTS && e.u < |s.threads|
    && match e
       case Go(u, gone) =>
         && s.threads[u].live
         && (gone && s.threads[u].pc.Test? && s.threads[u].pc.i < SLOTS ==> !Alive(s, s.slots[s.threads[u].pc.i]))
         && s' == (var (slots, t) := Move(s.slots, s.threads[u], gone); State(slots, s.threads[u := t]))
       case Spawn(u, tid) =>
         && !s.threads[u].live && tid != 0 && !Alive(s, tid)
         && s' == s.(threads := s.threads[u := Thread(tid, true, Out, None, 0)])
       case Exit(u) => s.threads[u].live && s' == s.(threads := s.threads[u := s.threads[u].(live := false)])
       case Child(u, tid) =>
         && s.threads[u].live && s.threads[u].pc.Out? && tid != 0
         && s' == State(Swept(s.slots, tid), Alone(s.threads, u, tid))
  }

  ghost predicate Initial(s: State) {
    && |s.slots| == SLOTS && (forall i :: 0 <= i < SLOTS ==> s.slots[i] == 0)
    && forall u :: 0 <= u < |s.threads| ==> !s.threads[u].live
  }

  ghost predicate Run(states: seq<State>, events: seq<Event>) {
    && |states| == |events| + 1 && Initial(states[0])
    && forall i :: 0 <= i < |events| ==> Next(states[i], events[i], states[i + 1])
  }

  /** The search skips no slot: each is read, then tested, and if another thread takes it first the search
      goes on with the next one. A thread gets no slot only after the last. */
  lemma NoSlotSkipped(slots: seq<Tid>, t: Thread, gone: bool)
    requires |slots| == SLOTS && !t.pc.Got?
    ensures var pc := Move(slots, t, gone).1.pc;
            && (pc == Got(None) <==> t.pc.Test? && t.pc.i >= 512)
            && (t.pc.Find? ==> pc == (if t.pc.i >= 512 then Claim(0) else if slots[t.pc.i] == t.tid then Got(Some(t.pc.i)) else Find(t.pc.i + 1)))
            && (t.pc.Claim? && t.pc.i < 512 ==> pc == Got(Some(t.pc.i)) || pc == Claim(t.pc.i + 1))
            && (t.pc.Test? && t.pc.i < 512 ==> pc == Swap(t.pc.i, slots[t.pc.i]) || pc == Test(t.pc.i + 1))
            && (t.pc.Swap? && t.pc.i < 512 ==> pc == if slots[t.pc.i] == t.pc.owner then Got(Some(t.pc.i)) else Test(t.pc.i + 1))
  {}

  // ---- a thread id is in at most one slot, in every interleaving ------------------------------------

  ghost predicate Unique(slots: seq<Tid>) {
    forall i, j :: 0 <= i < j < |slots| && slots[i] != 0 ==> slots[i] != slots[j]
  }

  /** How many of the first slots a live thread has established not to hold its id. */
  function Searched(pc: Pc): nat {
    match pc
    case Find(i) => i
    case Claim(_) => SLOTS
    case Test(_) => SLOTS
    case Swap(_, _) => SLOTS
    case _ => 0
  }

  ghost predicate SearchOk(s: State, t: Thread) {
    t.live ==> t.tid != 0 && forall j :: 0 <= j < |s.slots| && j < Searched(t.pc) ==> s.slots[j] != t.tid
  }

  ghost predicate Inv(s: State) {
    && |s.slots| == SLOTS && Unique(s.slots)
    && (forall u :: 0 <= u < |s.threads| ==> SearchOk(s, s.threads[u]))
    && (forall u, v :: 0 <= u < v < |s.threads| && s.threads[u].live && s.threads[v].live ==> s.threads[u].tid != s.threads[v].tid)
  }

  /** A step writes at most the thread's own id, into a slot that was empty or seen as abandoned. */
  lemma StepWrites(slots: seq<Tid>, t: Thread, gone: bool)
    requires |slots| == SLOTS
    ensures var (slots', t') := Move(slots, t, gone);
            && |slots'| == SLOTS && t'.tid == t.tid && t'.live == t.live
            && forall j :: 0 <= j < SLOTS && slots'[j] != slots[j] ==>
                 slots'[j] == t.tid && (slots[j] == 0 || (t.pc == Swap(j, slots[j])))
  {}

  lemma SearchStep(s: State, u: nat, gone: bool)
    requires Inv(s) && u < |s.threads| && s.threads[u].live
    ensures var (slots', t') := Move(s.slots, s.threads[u], gone);
            Unique(slots') && SearchOk(State(slots', s.threads), t')
  {}

  lemma InvStep(s: State, e: Event, s': State)
    requires Inv(s) && Next(s, e, s')
    ensures Inv(s')
  {
    if e.Go? {
      SearchStep(s, e.u, e.gone);
      StepWrites(s.slots, s.threads[e.u], e.gone);
    }
  }

  /** In every state of every run, no thread id is in two slots. */
  lemma {:induction false} IdInOneSlot(states: seq<State>, events: seq<Event>, i: nat)
    requires Run(states, events) && i < |states|
    ensures Inv(states[i]) && Unique(states[i].slots)
  {
    if i > 0 {
      IdInOneSlot(states, events, i - 1);
      InvStep(states[i - 1], events[i - 1], states[i]);
    }
  }

  // ---- no sharing -------------------------------------------------------------------------------------

  /** No new thread gets an id that some thread has found gone and is about to replace. It holds in
      particular when the liveness test and the swap are one step. */
  ghost predicate NoRespawnUnderTest(s: State, e: Event) {
    e.Spawn? ==> forall v :: 0 <= v < |s.threads| && s.threads[v].live && s.threads[v].pc.Swap? ==> s.threads[v].pc.owner != e.tid
  }

  /** What a live thread has found or cached is its own slot. */
  ghost predicate Owns(slots: seq<Tid>, t: Thread) {
    && (t.ctx.Some? ==> t.ctx.value < |slots| && slots[t.ctx.value] == t.tid == t.cached)
    && (t.pc.Got? && t.pc.r.Some? ==> t.pc.r.value < |slots| && slots[t.pc.r.value] == t.tid)
  }

  ghost predicate Safe(s: State) {
    && Inv(s)
    && (forall u :: 0 <= u < |s.threads| && s.threads[u].live ==> Owns(s.slots, s.threads[u]))
    && (forall u :: 0 <= u < |s.threads| && s.threads[u].live && s.threads[u].pc.Swap? ==>
          s.threads[u].pc.owner != 0 && !Alive(s, s.threads[u].pc.owner))
  }

  lemma OwnStep(slots: seq<Tid>, t: Thread, gone: bool)
    requires |slots| == SLOTS && Owns(slots, t) && t.tid != 0
    requires t.pc.Swap? ==> t.pc.owner != 0 && t.pc.owner != t.tid
    ensures Owns(Move(slots, t, gone).0, Move(slots, t, gone).1)
  {}

  /** A step of a thread lets no thread die or be born. */
  lemma SameAlive(s: State, e: Event, s': State, tid: Tid)
    requires Next(s, e, s') && e.Go? && Alive(s', tid)
    ensures Alive(s, tid)
  {
    StepWrites(s.slots, s.threads[e.u], e.gone);
    var v :| 0 <= v < |s'.threads| && s'.threads[v].live && s'.threads[v].tid == tid;
    assert s.threads[v].live && s.threads[v].tid == tid;
  }

  lemma OthersOwn(s: State, e: Event, s': State, v: nat)
    requires Safe(s) && Next(s, e, s') && e.Go? && v < |s.threads| && s.threads[v].live && v != e.u
    ensures Owns(s'.slots, s.threads[v])
  {
    StepWrites(s.slots, s.threads[e.u], e.gone);
    assert Alive(s, s.threads[v].tid);
  }

  lemma SafeGo(s: State, e: Event, s': State)
    requires Safe(s) && Next(s, e, s') && e.Go?
    ensures Safe(s')
  {
    InvStep(s, e, s');
    OwnStep(s.slots, s.threads[e.u], e.gone);
    forall v: nat | v < |s.threads| && s.threads[v].live && v != e.u ensures Owns(s'.slots, s.threads[v]) {
      OthersOwn(s, e, s', v);
    }
    forall tid | Alive(s', tid) ensures Alive(s, tid) { SameAlive(s, e, s', tid); }
  }

  /** In a fork child every slot is empty but its own, if it had one, and it is the only thread, with
      nothing cached. */
  lemma ChildAlone(s: State, e: Event, s': State)
    requires Inv(s) && Next(s, e, s') && e.Child?
    ensures forall j :: 0 <= j < SLOTS ==> s'.slots[j] == (if s.slots[j] == e.tid then s.slots[j] else 0)
    ensures forall v :: 0 <= v < |s'.threads| ==> (s'.threads[v].live <==> v == e.u)
    ensures s'.threads[e.u].tid == e.tid && s'.threads[e.u].ctx == None && Answer(s', e.u) == None
    ensures forall j :: 0 <= j < SLOTS && s'.slots[j] != 0 ==> Alive(s', s'.slots[j])
  {
    assert s'.threads[e.u].live;
  }

  lemma SafeStep(s: State, e: Event, s': State)
    requires Safe(s) && Next(s, e, s') && NoRespawnUnderTest(s, e)
    ensures Safe(s')
  {
    InvStep(s, e, s');
    if e.Go? {
      SafeGo(s, e, s');
    } else {
      forall v | 0 <= v < |s'.threads| && s'.threads[v].live && s'.threads[v].pc.Swap?
        ensures !Alive(s', s'.threads[v].pc.owner)
      {
        assert forall tid :: tid != 0 && Alive(s', tid) ==> Alive(s, tid) || (!e.Exit? && tid == e.tid);
      }
    }
  }

  lemma {:induction false} RunSafe(states: seq<State>, events: seq<Event>, i: nat)
    requires Run(states, events) && i < |states|
    requires forall k :: 0 <= k < |events| ==> NoRespawnUnderTest(states[k], events[k])
    ensures Safe(states[i])
  {
    if i > 0 {
      RunSafe(states, events, i - 1);
      SafeStep(states[i - 1], events[i - 1], states[i]);
    }
  }

  /** The slot a thread is using or is about to use: found just now, or cached and still standing. */
  function Answer(s: State, u: nat): Option<nat>
    requires u < |s.threads|
  {
    var t := s.threads[u];
    if t.pc.Got? then t.pc.r
    else if t.ctx.Some? && t.ctx.value < |s.slots| && t.cached == s.slots[t.ctx.value] then t.ctx
    else None
  }

  /** Every answer is a slot that holds the caller's own id, no other live thread has the same answer,
      and a cached slot always still stands: through exits, reuse of ids, reclaiming, and the sweep of a
      fork child. */
  lemma NoSharing(states: seq<State>, events: seq<Event>, i: nat, u: nat, v: nat)
    requires Run(states, events) && i < |states|
    requires forall k :: 0 <= k < |events| ==> NoRespawnUnderTest(states[k], events[k])
    requires u < |states[i].threads| && v < |states[i].threads| && u != v
    requires states[i].threads[u].live && states[i].threads[v].live
    ensures Answer(states[i], u).Some? ==>
      Answer(states[i], u).value < |states[i].slots| && states[i].slots[Answer(states[i], u).value] == states[i].threads[u].tid
    ensures Answer(states[i], u).Some? ==> Answer(states[i], u) != Answer(states[i], v)
    ensures states[i].threads[u].pc.Out? ==> Answer(states[i], u) == states[i].threads[u].ctx
    ensures var t := states[i].threads[u]; t.pc.Out? && t.ctx.Some? ==>
              |states[i].slots| == SLOTS && forall gone :: Move(states[i].slots, t, gone) == (states[i].slots, t)
  {
    RunSafe(states, events, i);
  }

  // ---- when a reused id leads to sharing --------------------------------------------------------------

  /** Runs all of whose births meet the proviso, from any state on. */
  ghost predicate Allowed(s: State, e: Event, s': State) { Next(s, e, s') && NoRespawnUnderTest(s, e) }

  ghost function Steps(): (State, State) -> bool { (s, s') => exists e :: Allowed(s, e, s') }

  ghost predicate Leads(s: State, s': State) { exists n: nat :: Path(Steps(), n, s, s') }

  lemma LeadsOn(s: State, u: State, w: State)
    requires Leads(s, u) && Leads(u, w)
    ensures Leads(s, w)
  {
    var m: nat :| Path(Steps(), m, s, u);
    var n: nat :| Path(Steps(), n, u, w);
    PathsJoin(Steps(), m, n, s, u, w);
  }

  lemma LeadsBy(s: State, e: Event, s': State)
    requires Next(s, e, s') && NoRespawnUnderTest(s, e)
    ensures Leads(s, s')
  {
    assert Allowed(s, e, s');
    assert Steps()(s, s') && Path(Steps(), 0, s', s');
    assert Path(Steps(), 1, s, s');
  }

  /** No two live threads are using one slot. */
  ghost predicate AnswersDistinct(s: State) {
    forall u, v :: 0 <= u < |s.threads| && 0 <= v < |s.threads| && u != v && s.threads[u].live && s.threads[v].live ==>
      Answer(s, u).Some? ==> Answer(s, u) != Answer(s, v)
  }

  /** Safe states stay safe, and in them nobody shares. */
  lemma SafeLeads(s: State, w: State)
    requires Safe(s) && Leads(s, w)
    ensures Safe(w) && AnswersDistinct(w)
  {
    var n: nat :| Path(Steps(), n, s, w);
    forall a, b | Safe(a) && Steps()(a, b) ensures Safe(b) {
      var e :| Allowed(a, e, b);
      SafeStep(a, e, b);
    }
    PathKeeps(Steps(), s => Safe(s), n, s, w);
  }

  function At(s: State, u: nat, pc: Pc): State
    requires u < |s.threads|
  {
    s.(threads := s.threads[u := s.threads[u].(pc := pc)])
  }

  lemma GoLeads(s: State, u: nat, gone: bool, pc: Pc, slots: seq<Tid>)
    requires |s.slots| == SLOTS && u < |s.threads| && s.threads[u].live
    requires gone && s.threads[u].pc.Test? && s.threads[u].pc.i < SLOTS ==> !Alive(s, s.slots[s.threads[u].pc.i])
    requires Move(s.slots, s.threads[u], gone) == (slots, s.threads[u].(pc := pc))
    ensures Leads(s, At(s, u, pc).(slots := slots))
  {
    LeadsBy(s, Go(u, gone), At(s, u, pc).(slots := slots));
  }

  /** One more step of thread `u`, after others. */
  lemma GoOn(s0: State, s: State, u: nat, gone: bool, pc: Pc)
    requires Leads(s0, s) && |s.slots| == SLOTS && u < |s.threads| && s.threads[u].live
    requires gone && s.threads[u].pc.Test? && s.threads[u].pc.i < SLOTS ==> !Alive(s, s.slots[s.threads[u].pc.i])
    requires Move(s.slots, s.threads[u], gone) == (s.slots, s.threads[u].(pc := pc))
    ensures Leads(s0, At(s, u, pc))
  {
    GoLeads(s, u, gone, pc, s.slots);
    LeadsOn(s0, s, At(s, u, pc));
  }

  /** Walking past slots that do not hold the thread's id. */
  lemma {:induction false} WalkFind(s: State, u: nat, i: nat, k: nat)
    requires |s.slots| == SLOTS && u < |s.threads| && s.threads[u].live && i <= k <= SLOTS
    requires forall j :: i <= j < k ==> s.slots[j] != s.threads[u].tid
    ensures Leads(At(s, u, Find(i)), At(s, u, Find(k)))
    decreases k - i
  {
    if i == k {
      assert Path(Steps(), 0, At(s, u, Find(i)), At(s, u, Find(k)));
    } else {
      GoLeads(At(s, u, Find(i)), u, false, Find(i + 1), s.slots);
      WalkFind(s, u, i + 1, k);
      assert At(At(s, u, Find(i)), u, Find(i + 1)) == At(s, u, Find(i + 1));
      LeadsOn(At(s, u, Find(i)), At(s, u, Find(i + 1)), At(s, u, Find(k)));
    }
  }

  /** Walking past slots that are not empty. */
  lemma {:induction false} WalkClaim(s: State, u: nat, i: nat, k: nat)
    requires |s.slots| == SLOTS && u < |s.threads| && s.threads[u].live && i <= k <= SLOTS
    requires forall j :: i <= j < k ==> s.slots[j] != 0
    ensures Leads(At(s, u, Claim(i)), At(s, u, Claim(k)))
    decreases k - i
  {
    if i == k {
      assert Path(Steps(), 0, At(s, u, Claim(i)), At(s, u, Claim(k)));
    } else {
      GoLeads(At(s, u, Claim(i)), u, false, Claim(i + 1), s.slots);
      WalkClaim(s, u, i + 1, k);
      assert At(At(s, u, Claim(i)), u, Claim(i + 1)) == At(s, u, Claim(i + 1));
      LeadsOn(At(s, u, Claim(i)), At(s, u, Claim(i + 1)), At(s, u, Claim(k)));
    }
  }

  /** A thread just born whose id is in slot i finds that slot. */
  lemma BornFinds(s: State, v: nat, i: nat) returns (found: State)
    requires |s.slots| == SLOTS && v < |s.threads| && i < SLOTS && s.threads[v] == Thread(s.slots[i], true, Out, None, 0)
    requires forall j :: 0 <= j < i ==> s.slots[j] != s.slots[i]
    ensures found == At(s, v, Got(Some(i))) && Leads(s, found)
  {
    GoLeads(s, v, false, Find(0), s.slots);
    WalkFind(s, v, 0, i);
    LeadsOn(s, At(s, v, Find(0)), At(s, v, Find(i)));
    GoOn(s, At(s, v, Find(i)), v, false, Got(Some(i)));
    found := At(s, v, Got(Some(i)));
    assert At(At(s, v, Find(i)), v, Got(Some(i))) == found;
  }

  /** Thread `v` has found its id in slot i, which `u` is about to swap out: `u` swaps in its own id, and
      `v` caches the slot with the id it now holds. From then on both use slot i. */
  lemma SwapsAway(s0: State, s: State, u: nat, v: nat, i: nat) returns (w: State)
    requires Leads(s0, s) && |s.slots| == SLOTS && u < |s.threads| && v < |s.threads| && u != v && i < SLOTS
    requires s.threads[u].live && s.threads[u].pc == Swap(i, s.slots[i])
    requires s.threads[v] == Thread(s.slots[i], true, Got(Some(i)), None, 0)
    ensures Leads(s0, w) && Shared(w, u, v, i)
  {
    var slots := s.slots[i := s.threads[u].tid];
    GoLeads(s, u, false, Got(Some(i)), slots);
    var swapped := At(s, u, Got(Some(i))).(slots := slots);
    LeadsOn(s0, s, swapped);
    w := swapped.(threads := swapped.threads[v := Thread(s.slots[i], true, Out, Some(i), slots[i])]);
    LeadsBy(swapped, Go(v, false), w);
    LeadsOn(s0, swapped, w);
  }

  /** Two live threads use slot i. */
  ghost predicate Shared(w: State, u: nat, v: nat, i: nat) {
    && u < |w.threads| && v < |w.threads| && u != v && w.threads[u].live && w.threads[v].live
    && Answer(w, u) == Answer(w, v) == Some(i)
  }

  /** A birth that breaks the proviso: `u` has found the owner of slot i gone and has not yet swapped it
      out when a thread with that id is born. The new thread finds its id in slot i. */
  lemma RespawnShares(s: State, e: Event, s': State, u: nat, i: nat) returns (w: State)
    requires Inv(s) && e.Spawn? && Next(s, e, s') && u < |s.threads| && s.threads[u].live
    requires i < SLOTS && s.threads[u].pc == Swap(i, e.tid) && s.slots[i] == e.tid
    ensures Leads(s', w) && Shared(w, u, e.u, i)
  {
    var found := BornFinds(s', e.u, i);
    w := SwapsAway(s', found, u, e.u, i);
  }

  // ---- the states of runs within the proviso --------------------------------------------------------

  /** What a thread's position says of the slots: those it has passed in search of an empty one are
      taken, and an id it is about to swap out is still where it was, or nowhere. */
  ghost predicate MarkOk(slots: seq<Tid>, t: Thread) {
    && (t.pc.Claim? ==> forall j :: 0 <= j < |slots| && j < t.pc.i ==> slots[j] != 0)
    && (t.pc.Test? || t.pc.Swap? ==> forall j :: 0 <= j < |slots| ==> slots[j] != 0)
    && (t.pc.Swap? ==> t.pc.i < |slots| && (slots[t.pc.i] == t.pc.owner || t.pc.owner !in slots))
  }

  ghost predicate Marked(s: State) {
    Safe(s) && forall u :: 0 <= u < |s.threads| && s.threads[u].live ==> MarkOk(s.slots, s.threads[u])
  }

  lemma OwnMark(slots: seq<Tid>, t: Thread, gone: bool)
    requires |slots| == SLOTS && MarkOk(slots, t) && t.tid != 0
    ensures MarkOk(Move(slots, t, gone).0, Move(slots, t, gone).1)
  {}

  lemma OthersMark(s: State, e: Event, s': State, v: nat)
    requires Marked(s) && Next(s, e, s') && e.Go? && v < |s.threads| && s.threads[v].live && v != e.u
    ensures MarkOk(s'.slots, s.threads[v])
  {
    StepWrites(s.slots, s.threads[e.u], e.gone);
    if s.threads[v].pc.Swap? { assert Alive(s, s.threads[e.u].tid); }
  }

  lemma MarkedStep(s: State, e: Event, s': State)
    requires Marked(s) && Next(s, e, s') && NoRespawnUnderTest(s, e)
    ensures Marked(s')
  {
    SafeStep(s, e, s');
    if e.Go? {
      OwnMark(s.slots, s.threads[e.u], e.gone);
      forall v: nat | v < |s.threads| && s.threads[v].live && v != e.u ensures MarkOk(s'.slots, s'.threads[v]) {
        OthersMark(s, e, s', v);
      }
    }
  }

  /** Every state of every run within the proviso is marked. */
  lemma {:induction false} RunMarked(states: seq<State>, events: seq<Event>, i: nat)
    requires Run(states, events) && i < |states|
    requires forall k :: 0 <= k < |events| ==> NoRespawnUnderTest(states[k], events[k])
    ensures Marked(states[i])
  {
    if i > 0 {
      RunMarked(states, events, i - 1);
      MarkedStep(states[i - 1], events[i - 1], states[i]);
    }
  }

  /** Walking past slots without taking over any. */
  lemma {:induction false} WalkTest(s: State, u: nat, i: nat, k: nat)
    requires |s.slots| == SLOTS && u < |s.threads| && s.threads[u].live && i <= k <= SLOTS
    ensures Leads(At(s, u, Test(i)), At(s, u, Test(k)))
    decreases k - i
  {
    if i == k {
      assert Path(Steps(), 0, At(s, u, Test(i)), At(s, u, Test(k)));
    } else {
      GoLeads(At(s, u, Test(i)), u, false, Test(i + 1), s.slots);
      WalkTest(s, u, i + 1, k);
      assert At(At(s, u, Test(i)), u, Test(i + 1)) == At(s, u, Test(i + 1));
      LeadsOn(At(s, u, Test(i)), At(s, u, Test(i + 1)), At(s, u, Test(k)));
    }
  }

  /** A thread just born, whose id is in no slot while all slots are taken, comes to test slot i. */
  lemma BornTests(s: State, v: nat, i: nat)
    requires |s.slots| == SLOTS && v < |s.threads| && i < SLOTS && s.threads[v] == Thread(s.threads[v].tid, true, Out, None, 0)
    requires s.threads[v].tid !in s.slots && forall j :: 0 <= j < SLOTS ==> s.slots[j] != 0
    ensures Leads(s, At(s, v, Test(i)))
  {
    assert Path(Steps(), 0, s, s);
    FindsNothing(s, s, v);
    WalkClaim(s, v, 0, SLOTS);
    LeadsOn(s, At(s, v, Claim(0)), At(s, v, Claim(SLOTS)));
    GoOn(s, At(s, v, Claim(SLOTS)), v, false, Test(0));
    assert At(At(s, v, Claim(SLOTS)), v, Test(0)) == At(s, v, Test(0));
    WalkTest(s, v, 0, i);
    LeadsOn(s, At(s, v, Test(0)), At(s, v, Test(i)));
  }

  /** The owner of an id exits, if it lives. */
  lemma OwnerExits(s0: State, s: State, tid: Tid) returns (s': State)
    requires Leads(s0, s) && |s.slots| == SLOTS
    requires forall u, v :: 0 <= u < v < |s.threads| && s.threads[u].live && s.threads[v].live ==> s.threads[u].tid != s.threads[v].tid
    ensures Leads(s0, s') && s'.slots == s.slots && |s'.threads| == |s.threads| && !Alive(s', tid)
    ensures forall u :: 0 <= u < |s.threads| && s.threads[u].tid != tid ==> s'.threads[u] == s.threads[u]
  {
    s' := s;
    if Alive(s, tid) {
      var x :| 0 <= x < |s.threads| && s.threads[x].live && s.threads[x].tid == tid;
      s' := s.(threads := s.threads[x := s.threads[x].(live := false)]);
      LeadsBy(s, Exit(x), s');
      LeadsOn(s0, s, s');
    }
  }

  /** Thread `v` takes slot i over from an owner that is gone. */
  lemma TakesOver(s0: State, s: State, v: nat, i: nat) returns (w: State)
    requires Leads(s0, s) && |s.slots| == SLOTS && v < |s.threads| && i < SLOTS && !Alive(s, s.slots[i])
    requires s.threads[v].live && s.threads[v].pc == Test(i) && s.slots[i] != 0 && s.slots[i] != s.threads[v].tid
    ensures Leads(s0, w) && w == At(s, v, Got(Some(i))).(slots := s.slots[i := s.threads[v].tid])
  {
    GoOn(s0, s, v, true, Swap(i, s.slots[i]));
    var m := At(s, v, Swap(i, s.slots[i]));
    w := At(s, v, Got(Some(i))).(slots := s.slots[i := s.threads[v].tid]);
    GoLeads(m, v, false, Got(Some(i)), w.slots);
    assert At(m, v, Got(Some(i))).(slots := w.slots) == w;
    LeadsOn(s0, m, w);
  }

  /** The same when the swap is stale, because another thread has taken slot i meanwhile: the new thread
      finds no slot of its own and none empty, the owner of slot i goes, the new thread takes slot i
      over, and so puts back the id that the stale swap still expects. */
  lemma StaleShares(s: State, e: Event, s': State, u: nat, i: nat) returns (w: State)
    requires Marked(s) && e.Spawn? && Next(s, e, s') && u < |s.threads| && s.threads[u].live
    requires s.threads[u].pc == Swap(i, e.tid) && s.slots[i] != e.tid
    ensures Leads(s', w) && Shared(w, u, e.u, i)
  {
    var v := e.u;
    BornTests(s', v, i);
    var tests := At(s', v, Test(i));
    InvStep(s, e, s');
    var gone := OwnerExits(s', tests, s.slots[i]);
    var found := TakesOver(s', gone, v, i);
    w := SwapsAway(s', found, u, v, i);
  }

  /** So the proviso is exact: a birth is harmless, whatever follows it within the proviso, if and only
      if no thread is about to swap out the id it brings back. */
  lemma RespawnIff(s: State, e: Event, s': State)
    requires Marked(s) && e.Spawn? && Next(s, e, s')
    ensures NoRespawnUnderTest(s, e) <==> forall w :: Leads(s', w) ==> AnswersDistinct(w)
  {
    if NoRespawnUnderTest(s, e) {
      SafeStep(s, e, s');
      forall w | Leads(s', w) ensures AnswersDistinct(w) { SafeLeads(s', w); }
    } else {
      var u: nat :| u < |s.threads| && s.threads[u].live && s.threads[u].pc.Swap? && s.threads[u].pc.owner == e.tid;
      var i, w := s.threads[u].pc.i, s;
      if s.slots[i] == e.tid { w := RespawnShares(s, e, s', u, i); } else { w := StaleShares(s, e, s', u, i); }
      assert !AnswersDistinct(w);
    }
  }

  /** In terms of runs alone: after any run within the proviso. */
  lemma RespawnIffInRuns(states: seq<State>, events: seq<Event>, e: Event, s': State)
    requires Run(states, events) && e.Spawn? && Next(states[|events|], e, s')
    requires forall k :: 0 <= k < |events| ==> NoRespawnUnderTest(states[k], events[k])
    ensures NoRespawnUnderTest(states[|events|], e) <==> forall w :: Leads(s', w) ==> AnswersDistinct(w)
  {
    RunMarked(states, events, |events|);
    RespawnIff(states[|events|], e, s');
  }

  // ---- and it does happen -----------------------------------------------------------------------------

  const UNBORN := Thread(0, false, Out, None, 0)

  /** After `k` threads, with the ids 1 to k, have each claimed a slot and exited; two thread records. */
  function Filled(k: nat): State {
    State(seq(SLOTS, i requires 0 <= i < SLOTS => if i < k then i + 1 else 0),
          [if k == 0 then UNBORN else Thread(k, false, Got(Some(k - 1)), None, 0), UNBORN])
  }

  /** A new thread with id `tid` from its birth to its search for an empty slot. */
  lemma BornSearches(s: State, v: nat, tid: Tid, k: nat)
    requires |s.slots| == SLOTS && v < |s.threads| && k <= SLOTS && tid != 0 && tid !in s.slots
    requires forall u :: 0 <= u < |s.threads| ==> !s.threads[u].live
    requires forall j :: 0 <= j < k ==> s.slots[j] != 0
    ensures Leads(s, s.(threads := s.threads[v := Thread(tid, true, Claim(k), None, 0)]))
  {
    var b := s.(threads := s.threads[v := Thread(tid, true, Out, None, 0)]);
    LeadsBy(s, Spawn(v, tid), b);
    FindsNothing(s, b, v);
    WalkClaim(b, v, 0, k);
    LeadsOn(s, At(b, v, Claim(0)), At(b, v, Claim(k)));
    assert At(b, v, Claim(k)) == s.(threads := s.threads[v := Thread(tid, true, Claim(k), None, 0)]);
  }

  lemma FindsNothing(s0: State, b: State, v: nat)
    requires Leads(s0, b) && |b.slots| == SLOTS && v < |b.threads| && b.threads[v].tid !in b.slots
    requires b.threads[v] == Thread(b.threads[v].tid, true, Out, None, 0)
    ensures Leads(s0, At(b, v, Claim(0)))
  {
    GoOn(s0, b, v, false, Find(0));
    WalkFind(b, v, 0, SLOTS);
    LeadsOn(s0, At(b, v, Find(0)), At(b, v, Find(SLOTS)));
    GoOn(s0, At(b, v, Find(SLOTS)), v, false, Claim(0));
    assert At(At(b, v, Find(SLOTS)), v, Claim(0)) == At(b, v, Claim(0));
  }

  lemma FillNext(k: nat)
    requires k < SLOTS
    ensures Leads(Filled(k), Filled(k + 1))
  {
    var s, tid := Filled(k), k + 1;
    BornSearches(s, 0, tid, k);
    var b := s.(threads := s.threads[0 := Thread(tid, true, Claim(k), None, 0)]);
    var slots := s.slots[k := tid];
    GoLeads(b, 0, false, Got(Some(k)), slots);
    var c := At(b, 0, Got(Some(k))).(slots := slots);
    LeadsOn(s, b, c);
    assert slots == Filled(k + 1).slots;
    LeadsBy(c, Exit(0), Filled(k + 1));
    LeadsOn(s, c, Filled(k + 1));
  }

  lemma {:induction false} FillAll(k: nat)
    requires k <= SLOTS
    ensures Leads(Filled(0), Filled(k))
  {
    if k == 0 {
      assert Path(Steps(), 0, Filled(0), Filled(0));
    } else {
      FillAll(k - 1);
      FillNext(k - 1);
      LeadsOn(Filled(0), Filled(k - 1), Filled(k));
    }
  }

  /** All slots are taken by threads that have exited, and thread 513 is about to take over slot 0. */
  function UnderTest(): State { Filled(SLOTS).(threads := [Filled(SLOTS).threads[0], Thread(SLOTS + 1, true, Swap(0, 1), None, 0)]) }

  lemma TestsFirst(s0: State, b: State)
    requires Leads(s0, b) && |b.slots| == SLOTS && |b.threads| == 2 && !b.threads[0].live && b.slots[0] == 1
    requires b.threads[1] == Thread(SLOTS + 1, true, Claim(SLOTS), None, 0)
    ensures Leads(s0, At(b, 1, Swap(0, 1)))
  {
    GoOn(s0, b, 1, false, Test(0));
    GoOn(s0, At(b, 1, Test(0)), 1, true, Swap(0, 1));
    assert At(At(b, 1, Test(0)), 1, Swap(0, 1)) == At(b, 1, Swap(0, 1));
  }

  lemma UnderTestReached()
    ensures Initial(Filled(0)) && Leads(Filled(0), UnderTest())
  {
    var s, tid := Filled(SLOTS), SLOTS + 1;
    FillAll(SLOTS);
    BornSearches(s, 1, tid, SLOTS);
    var b := s.(threads := s.threads[1 := Thread(tid, true, Claim(SLOTS), None, 0)]);
    LeadsOn(Filled(0), s, b);
    TestsFirst(Filled(0), b);
    assert At(b, 1, Swap(0, 1)) == UnderTest();
  }

  /** The events of a sequence of steps. */
  lemma {:induction false} EventsOf(states: seq<State>) returns (events: seq<Event>)
    requires states != [] && forall i :: 0 <= i < |states| - 1 ==> Steps()(states[i], states[i + 1])
    ensures |states| == |events| + 1
    ensures forall i :: 0 <= i < |events| ==> Next(states[i], events[i], states[i + 1])
    decreases |states|
  {
    var n := |states| - 1;
    if n == 0 {
      events := [];
    } else {
      events := EventsOf(states[..n]);
      var a, b := states[n - 1], states[n];
      assert Steps()(a, b);
      var e :| Allowed(a, e, b);
      events := events + [e];
    }
  }

  lemma RunsJoin(before: seq<State>, done: seq<Event>, e: Event, after: seq<State>, rest: seq<Event>)
    requires |before| == |done| + 1 && |after| == |rest| + 1 && Next(before[|done|], e, after[0])
    requires forall i :: 0 <= i < |done| ==> Next(before[i], done[i], before[i + 1])
    requires forall i :: 0 <= i < |rest| ==> Next(after[i], rest[i], after[i + 1])
    ensures var states, events := before + after, done + [e] + rest;
            forall i :: 0 <= i < |events| ==> Next(states[i], events[i], states[i + 1])
  {}

  /** The birth at the wrong moment. */
  lemma SharedAfterTest() returns (s': State, w: State)
    ensures Next(UnderTest(), Spawn(0, 1), s') && Leads(s', w) && !AnswersDistinct(w)
  {
    var s := UnderTest();
    s' := s.(threads := s.threads[0 := Thread(1, true, Out, None, 0)]);
    UnderTestReached();
    SafeLeads(Filled(0), s);
    w := RespawnShares(s, Spawn(0, 1), s', 1, 0);
  }

  /** There is a run from the initial state, of two threads at a time, in which two live threads end up
      using slot 0: one id is reused at the wrong moment, and everything else meets the proviso. */
  lemma SharingHappens() returns (states: seq<State>, events: seq<Event>)
    ensures Run(states, events) && !AnswersDistinct(states[|events|])
  {
    UnderTestReached();
    var s', w := SharedAfterTest();
    var m: nat :| Path(Steps(), m, Filled(0), UnderTest());
    var n: nat :| Path(Steps(), n, s', w);
    var before := PathAsStates(Steps(), m, Filled(0), UnderTest());
    var after := PathAsStates(Steps(), n, s', w);
    var done := EventsOf(before);
    var rest := EventsOf(after);
    RunsJoin(before, done, Spawn(0, 1), after, rest);
    states, events := before + after, done + [Spawn(0, 1)] + rest;
  }

  // ---- the look-up as code ----------------------------------------------------------------------------

  /** A slot with the per-thread fields it guards. */
  datatype Slot = Slot(tid: Tid, hookDepth: int, depthInited: int, inHook: int, internal: int, resolving: int, inCapture: int)

  function FreshSlot(tid: Tid): Slot { Slot(tid, -1, -1, 0, 0, 0, 0) }

  function Ids(slots: seq<Slot>): (r: seq<Tid>)
    ensures |r| == |slots|
  {
    seq(|slots|, i requires 0 <= i < |slots| => slots[i].tid)
  }

  /** The first slot from `i` on that holds `x`, or |ids|. */
  function NextOf(ids: seq<Tid>, i: nat, x: Tid): (k: nat)
    requires i <= |ids|
    ensures i <= k <= |ids| && (k < |ids| ==> ids[k] == x) && forall j :: i <= j < k ==> ids[j] != x
    decreases |ids| - i
  {
    if i == |ids| || ids[i] == x then i else NextOf(ids, i + 1, x)
  }

  predicate Abandoned(owner: Tid, tid: Tid, live: set<Tid>) { owner != 0 && owner != tid && owner !in live }

  /** The first abandoned slot from `i` on, or |ids|. */
  function NextGone(ids: seq<Tid>, i: nat, tid: Tid, live: set<Tid>): (k: nat)
    requires i <= |ids|
    ensures i <= k <= |ids| && (k < |ids| ==> Abandoned(ids[k], tid, live))
    ensures forall j :: i <= j < k ==> !Abandoned(ids[j], tid, live)
    decreases |ids| - i
  {
    if i == |ids| || Abandoned(ids[i], tid, live) then i else NextGone(ids, i + 1, tid, live)
  }

  /** The slot an undisturbed look-up ends at: the caller's own, else the first empty one, else the first
      abandoned one, else none (|ids|). */
  function Chosen(ids: seq<Tid>, tid: Tid, live: set<Tid>): nat {
    if NextOf(ids, 0, tid) < |ids| then NextOf(ids, 0, tid)
    else if NextOf(ids, 0, 0) < |ids| then NextOf(ids, 0, 0)
    else NextGone(ids, 0, tid, live)
  }

  /** What an undisturbed look-up answers, -1 for no slot, and the slots it leaves. */
  function Answered(ids: seq<Tid>, tid: Tid, live: set<Tid>): int {
    if Chosen(ids, tid, live) < |ids| then Chosen(ids, tid, live) else -1
  }

  function Claimed(slots: seq<Slot>, tid: Tid, live: set<Tid>): seq<Slot> {
    var ids, k := Ids(slots), Chosen(Ids(slots), tid, live);
    if k < |ids| && ids[k] != tid then slots[k := FreshSlot(tid)] else slots
  }

  /** mtt_thread_get, undisturbed. */
  method Get(slots: array<Slot>, tid: Tid, live: set<Tid>) returns (r: int)
    requires slots.Length == 512 && tid != 0
    modifies slots
    ensures r == Answered(Ids(old(slots[..])), tid, live) && slots[..] == Claimed(old(slots[..]), tid, live)
    // The answer is a slot that holds the caller's id, and no other slot has changed.
    ensures -1 <= r < SLOTS && (r >= 0 ==> slots[r].tid == tid)
    ensures forall j :: 0 <= j < SLOTS && j != r ==> slots[j] == old(slots[..])[j]
    // A slot of its own is left as it is, in a new one both depths are -1 and the flags are clear.
    ensures r >= 0 && old(slots[..])[r].tid == tid ==> slots[r] == old(slots[..])[r]
    ensures r >= 0 && old(slots[..])[r].tid != tid ==>
      && slots[r].hookDepth == -1 && slots[r].depthInited == -1
      && slots[r].inHook == 0 && slots[r].internal == 0 && slots[r].resolving == 0 && slots[r].inCapture == 0
    // There is no answer exactly if every slot belongs to another thread that is alive.
    ensures r == -1 <==> forall j :: 0 <= j < SLOTS ==> var owner := old(slots[..])[j].tid; owner != tid && owner != 0 && owner in live
  {
    ghost var ids := Ids(slots[..]);
    for i := 0 to SLOTS
      invariant NextOf(ids, 0, tid) == NextOf(ids, i, tid) && slots[..] == old(slots[..])
    {
      if slots[i].tid == tid { return i; }
    }
    for i := 0 to SLOTS
      invariant NextOf(ids, 0, 0) == NextOf(ids, i, 0) && slots[..] == old(slots[..])
    {
      if slots[i].tid == 0 {
        slots[i] := FreshSlot(tid);
        return i;
      }
    }
    for i := 0 to SLOTS
      invariant NextGone(ids, 0, tid, live) == NextGone(ids, i, tid, live) && slots[..] == old(slots[..])
    {
      var owner := slots[i].tid;
      if owner != 0 && owner != tid && owner !in live {
        slots[i] := FreshSlot(tid);
        return i;
      }
    }
    assert forall j :: 0 <= j < SLOTS ==> ids[j] == old(slots[..])[j].tid;
    return -1;
  }

  /** mtt_thread_get_cached: a cached slot that still holds the cached id is the answer, without a search.
      Otherwise the answer is looked up and cached; either way the next call finds what is cached here. */
  method GetCached(slots: array<Slot>, tid: Tid, live: set<Tid>, ctx: Option<nat>, cached: Tid) returns (c: Option<nat>, id: Tid)
    requires slots.Length == 512 && tid != 0 && (ctx.Some? ==> ctx.value < SLOTS)
    modifies slots
    ensures c.Some? ==> c.value < SLOTS && slots[c.value].tid == id
    ensures var was := old(slots[..]); ctx.Some? && was[ctx.value].tid == cached ==> c == ctx && id == cached && slots[..] == was
    ensures var was := old(slots[..]); !(ctx.Some? && was[ctx.value].tid == cached) ==>
      && slots[..] == Claimed(was, tid, live) && id == (if c.Some? then tid else 0)
      && Answered(Ids(was), tid, live) == if c.Some? then c.value else -1
  {
    if ctx.Some? && slots[ctx.value].tid == cached { return ctx, cached; }
    var r := Get(slots, tid, live);
    if r < 0 { return None, 0; }
    return Some(r), slots[r].tid;
  }

  lemma {:induction false} NextOfFirst(ids: seq<Tid>, i: nat, k: nat, x: Tid)
    requires i <= k < |ids| && ids[k] == x && forall j :: i <= j < k ==> ids[j] != x
    ensures NextOf(ids, i, x) == k
    decreases k - i
  {
    if i < k { NextOfFirst(ids, i + 1, k, x); }
  }

  /** A second look-up of the same thread gives the same slot and changes nothing, whoever else is alive
      then. */
  lemma ClaimedAgain(slots: seq<Slot>, tid: Tid, live: set<Tid>, later: set<Tid>)
    requires tid != 0 && Answered(Ids(slots), tid, live) >= 0
    ensures var s := Claimed(slots, tid, live);
            Answered(Ids(s), tid, later) == Answered(Ids(slots), tid, live) && Claimed(s, tid, later) == s
  {
    var s, k := Claimed(slots, tid, live), Chosen(Ids(slots), tid, live);
    assert forall j :: 0 <= j < |slots| && j != k ==> Ids(s)[j] == Ids(slots)[j];
    NextOfFirst(Ids(s), 0, k, tid);
  }

  /** Another living thread that asks next gets another slot. */
  lemma ClaimedApart(slots: seq<Slot>, tid: Tid, other: Tid, live: set<Tid>)
    requires tid != 0 && other != 0 && tid != other && tid in live
    requires Answered(Ids(slots), tid, live) >= 0
    ensures var s := Claimed(slots, tid, live);
            Answered(Ids(s), other, live) != Answered(Ids(slots), tid, live)
  {
    var s, k := Claimed(slots, tid, live), Chosen(Ids(slots), tid, live);
    assert Ids(s)[k] == tid;
  }

  /** The sweep of a fork child: of the slots only the child's own keep their ids, and in the first of its
      own the inherited depth and the flag of a running hook are cleared. */
  method Sweep(slots: array<Slot>, tid: Tid)
    requires slots.Length == 512 && tid != 0
    modifies slots
    ensures Ids(slots[..]) == Swept(Ids(old(slots[..])), tid)
    ensures forall j :: 0 <= j < SLOTS ==> var was := old(slots[..])[j];
      slots[j] == if was.tid != tid then was.(tid := 0) else if j == NextOf(Ids(old(slots[..])), 0, tid) then was.(hookDepth := 0, inHook := 0) else was
  {
    ghost var ids := Ids(slots[..]);
    for i := 0 to SLOTS
      invariant forall j :: i <= j < SLOTS ==> slots[j] == old(slots[..])[j]
      invariant forall j :: 0 <= j < i ==>
        var was := old(slots[..])[j]; slots[j] == if was.tid == tid then was else was.(tid := 0)
    {
      if slots[i].tid != 0 && slots[i].tid != tid { slots[i] := slots[i].(tid := 0); }
    }
    ghost var swept := slots[..];
    for i := 0 to SLOTS
      invariant slots[..] == swept && NextOf(ids, 0, tid) == NextOf(ids, i, tid)
    {
      assert swept[i].tid == tid <==> ids[i] == tid;
      if slots[i].tid == tid {
        slots[i] := slots[i].(hookDepth := 0, inHook := 0);
        break;
      }
    }
    assert forall j :: 0 <= j < SLOTS ==> Ids(slots[..])[j] == Swept(ids, tid)[j];
  }

  /** Steps still to come when nobody disturbs the look-up. */
  function Left(pc: Pc): nat {
    match pc
    case Find(i) => 4 * SLOTS + 9 + if i < SLOTS then SLOTS - i else 0
    case Claim(i) => 3 * SLOTS + 6 + if i < SLOTS then SLOTS - i else 0
    case Test(i) => 3 + 2 * (if i < SLOTS then SLOTS - i else 0)
    case Swap(i, _) => if i < SLOTS then 2 + 2 * (SLOTS - i) else 4
    case _ => 0
  }

  /** The step system run by one thread alone until it has its answer. */
  function Solo(slots: seq<Tid>, t: Thread, live: set<Tid>): (seq<Tid>, Thread)
    requires |slots| == SLOTS
    decreases Left(t.pc)
  {
    if t.pc.Got? || t.pc.Out? then (slots, t)
    else
      var gone := t.pc.Test? && t.pc.i < SLOTS && slots[t.pc.i] !in live;
      var (slots', t') := Move(slots, t, gone);
      Solo(slots', t', live)
  }

  lemma {:induction false} SoloFinds(slots: seq<Tid>, t: Thread, live: set<Tid>, i: nat)
    requires |slots| == SLOTS && i <= SLOTS && t.pc == Find(i)
    ensures var k := NextOf(slots, i, t.tid);
            Solo(slots, t, live) == if k < SLOTS then (slots, t.(pc := Got(Some(k)))) else Solo(slots, t.(pc := Claim(0)), live)
    decreases SLOTS - i
  {
    if i < SLOTS && slots[i] != t.tid { SoloFinds(slots, t.(pc := Find(i + 1)), live, i + 1); }
  }

  lemma {:induction false} SoloClaims(slots: seq<Tid>, t: Thread, live: set<Tid>, i: nat)
    requires |slots| == SLOTS && i <= SLOTS && t.pc == Claim(i)
    ensures var k := NextOf(slots, i, 0);
            Solo(slots, t, live) == if k < SLOTS then (slots[k := t.tid], t.(pc := Got(Some(k)))) else Solo(slots, t.(pc := Test(0)), live)
    decreases SLOTS - i
  {
    if i < SLOTS && slots[i] != 0 { SoloClaims(slots, t.(pc := Claim(i + 1)), live, i + 1); }
  }

  lemma {:induction false} SoloReclaims(slots: seq<Tid>, t: Thread, live: set<Tid>, i: nat)
    requires |slots| == SLOTS && i <= SLOTS && t.pc == Test(i)
    ensures var k := NextGone(slots, i, t.tid, live);
            Solo(slots, t, live) == if k < SLOTS then (slots[k := t.tid], t.(pc := Got(Some(k)))) else (slots, t.(pc := Got(None)))
    decreases SLOTS - i
  {
    if i < SLOTS {
      if Abandoned(slots[i], t.tid, live) {
        assert Solo(slots, t.(pc := Swap(i, slots[i])), live) == (slots[i := t.tid], t.(pc := Got(Some(i))));
      } else {
        SoloReclaims(slots, t.(pc := Test(i + 1)), live, i + 1);
      }
    }
  }

  /** The code and the undisturbed step system end at the same slot with the same ids. */
  lemma SoloIsChosen(slots: seq<Tid>, t: Thread, live: set<Tid>)
    requires |slots| == SLOTS && t.pc == Find(0) && t.tid != 0
    ensures var k := Chosen(slots, t.tid, live);
            Solo(slots, t, live) == if k < SLOTS then (slots[k := t.tid], t.(pc := Got(Some(k)))) else (slots, t.(pc := Got(None)))
  {
    SoloFinds(slots, t, live, 0);
    var k := NextOf(slots, 0, t.tid);
    if k < SLOTS { assert slots[k := t.tid] == slots; }
    SoloClaims(slots, t.(pc := Claim(0)), live, 0);
    SoloReclaims(slots, t.(pc := Test(0)), live, 0);
  }

  /** So the ids an undisturbed look-up leaves are those of the step system, for every thread with that id. */
  lemma ClaimedIsSolo(slots: seq<Slot>, t: Thread, live: set<Tid>)
    requires |slots| == SLOTS && t.pc == Find(0) && t.tid != 0
    ensures var (ids, t') := Solo(Ids(slots), t, live); var r := Answered(Ids(slots), t.tid, live);
            ids == Ids(Claimed(slots, t.tid, live)) && t' == t.(pc := Got(if r >= 0 then Some(r) else None))
  {
    SoloIsChosen(Ids(slots), t, live);
    var k := Chosen(Ids(slots), t.tid, live);
    if k < SLOTS {
      assert forall j :: 0 <= j < SLOTS ==> Ids(Claimed(slots, t.tid, live))[j] == if j == k then t.tid else Ids(slots)[j];
    }
  }
}
