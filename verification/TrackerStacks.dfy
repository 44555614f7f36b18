/** The records of one pointer, newest first, under any interleaving of any threads. */
module TrackerStacks {
  import opened Chains
  import opened Tracker
  import opened TrackerLaws
  import opened TrackerInvariant

  /** The records of a pointer, newest first. */
  ghost function StackAt(s: State, q: Ptr): seq<Entry>
    requires Shape(s)
  {
    Stack(s.chains[s.c.bucketOf(q)], q)
  }

  /** One step of any thread, while any others are anywhere in theirs: a pointer's stack is pushed by
      exactly the step that links a record of it, popped by exactly the step that unlinks one, and no
      other step, on this or any other pointer, changes it. */
  lemma StepStacks(s: State, t: nat, x: Choice, s': State, q: Ptr)
    requires Inv(s) && Step(s, t, x, s') && Shape(s')
    ensures var pc := s.pcs[t];
            StackAt(s', q) == if Links(pc) && pc.e.ptr == q then [pc.e] + StackAt(s, q)
                              else if Unlinks(pc) && pc.e.ptr == q then StackAt(s, q)[1..]
                              else StackAt(s, q)
    ensures Unlinks(s.pcs[t]) && s.pcs[t].e.ptr == q ==> StackAt(s, q) != [] && StackAt(s, q)[0] == s.pcs[t].e
  {
    var pc, f := s.pcs[t], FocusOf(s.c, s.pcs[t]);
    InvLocal(s, t, x, s');
    ListSteps(s.c, t, pc, Get(s, f), x);
    if Links(pc) { StackPush(s.chains[f.b], pc.e, q); }
    if Unlinks(pc) {
      StackPop(s.chains[f.b], pc.e.ptr, q);
      StackPop(s.chains[f.b], pc.e.ptr, pc.e.ptr);
    }
  }
}
