/** What every step of the connection keeps of the v2 initialize lifecycle (v2/client.go on
    connection.go): which initialize is open, who can still settle it, and the flags that
    follow. */
module ConnectionLifecycle {
  import opened ClientLifecycle
  import opened Options
  import opened Connection
  import opened ConnectionDrain
  import opened ConnectionCalls

  /** The call the outgoing guard has admitted, where the thread is past that guard. */
  function PastGuard(p: Pc): Option<nat> {
    if p.SGuard? || p.AwaitFailed? || p.WaitReply? || p.Abandon? || (p.Forget? && p.sent) then Some(p.id)
    else if IsAwait(p) || p.QClose? || p.QSend? then AsCall(p.job)
    else if (p.QDone? || p.QRelease? || p.QReturn?) && !p.r.Refused? then AsCall(p.job)
    else None
  }

  /** The call the outgoing guard has not seen yet, or refused. */
  function NotPastGuard(p: Pc): Option<nat> {
    if p.Forget? && !p.sent then Some(p.id)
    else if p.QLoad? || p.QLock? || p.QAdmit? || p.QBuild? then AsCall(p.job)
    else if (p.QDone? || p.QRelease? || p.QReturn?) && p.r.Refused? then AsCall(p.job)
    else None
  }

  function AsCall(job: Job): Option<nat> { if job.Call? then Some(job.id) else None }

  function LastSuccess(outcomes: seq<Option<nat>>): Option<nat> {
    if outcomes == [] then None
    else if outcomes[|outcomes| - 1].Some? then outcomes[|outcomes| - 1]
    else LastSuccess(outcomes[..|outcomes| - 1])
  }

  // ---- what one step does to the lifecycle ----

  /** An initialize begins. */
  predicate Begins(s: Core, p: Pc, s1: Core)
    requires p.QBuild?
  {
    && p.job.Call? && IsInit(s.calls, p.job.id) && MayBegin(s.life.flags)
    && s1.life == Life(Begin(s.life.flags), s.life.begun + {p.job.id}, s.life.outcomes, s.life.requestAdmitted)
  }

  /** The lifecycle changes at three places only: where an initialize begins, where another
      request is admitted, and where an initialize is settled. */
  predicate LifeChange(s: Core, p: Pc, s1: Core) {
    && s1.calls.methods == s.calls.methods
    && if p.SGuard? then
         && s1.calls.settled == s.calls.settled + {p.id}
         && s1.life == (if IsInit(s.calls, p.id)
              then Life(Complete(s.life.flags, p.outcome), s.life.begun, s.life.outcomes + [p.outcome], s.life.requestAdmitted)
              else s.life)
       else
         && s1.calls.settled == s.calls.settled
         && if p.QClose? then s1.life == Life(s.life.flags.(repeatable := false), s.life.begun, s.life.outcomes, true)
            else if p.QBuild? then s1.life == s.life || Begins(s, p, s1)
            else s1.life == s.life
  }

  /** Where a request other than initialize starts to be admitted. */
  predicate EntersClose(s: Core, p: Pc, s1: Core, p1: Pc) {
    p1.QClose? ==> p == QBuild(p1.job) && p1.job.Call? && !IsInit(s.calls, p1.job.id) && Allowed(s.life.flags, Request) && s1.life == s.life
  }

  /** A call passes the outgoing guard by beginning, or is no initialize; it is settled
      when the peer, who has it, answers, or by its own caller. */
  predicate GuardEffect(s: Core, p: Pc, s1: Core, p1: Pc) {
    && (NotPastGuard(p1).Some? ==> NotPastGuard(p1) == NotPastGuard(p))
    && (PastGuard(p1).Some? ==>
          || PastGuard(p1) == PastGuard(p)
          || PastGuard(p1).value in s1.life.begun
          || (p1.SGuard? && PeerHas(s.q, p1.id))
          || !IsInit(s.calls, PastGuard(p1).value))
    && (p1.Forget? && p1.sent ==> s.q.reason.Some?)
    && (NotPastGuard(p1).Some? ==> s1.life == s.life)
  }

  predicate LifeEffect(s: Core, p: Pc, s1: Core, p1: Pc) {
    LifeChange(s, p, s1) && EntersClose(s, p, s1, p1) && GuardEffect(s, p, s1, p1)
  }

  lemma BuildLife(s: Core, t: Tid, job: Job, c: Choice, o: Out)
    requires s.guards.V2? && o == BuildNext(s, job, c) && o.Out?
    ensures LifeEffect(s, QBuild(job), o.core, o.pc)
  {}

  lemma QueueLife(s: Core, t: Tid, p: Pc, c: Choice, o: Out)
    requires s.guards.V2? && IsQueue(p) && o == QueueNext(s, t, p, c) && o.Out?
    ensures LifeEffect(s, p, o.core, o.pc)
  {
    if p.QBuild? { BuildLife(s, t, p.job, c, o); }
  }

  lemma CallLife(s: Core, t: Tid, p: Pc, c: Choice, o: Out)
    requires s.guards.V2?
    requires (IsAwait(p) && o == AwaitNext(s, t, p, c)) || (IsCall(p) && o == CallNext(s, p, c))
    requires o.Out?
    ensures LifeEffect(s, p, o.core, o.pc)
  {}

  lemma ReadLife(s: Core, t: Tid, p: Pc, c: Choice, o: Out)
    requires s.guards.V2? && IsRead(p) && o == ReadNext(s, t, p, c) && o.Out?
    ensures LifeEffect(s, p, o.core, o.pc)
  {}

  lemma StepLife(s: Core, t: Tid, p: Pc, c: Choice, o: Out)
    requires s.guards.V2? && o == StepOut(s, t, p, c) && o.Out?
    ensures LifeEffect(s, p, o.core, o.pc)
  {
    if IsQueue(p) { QueueLife(s, t, p, c, o); }
    else if IsAwait(p) || IsCall(p) { CallLife(s, t, p, c, o); }
    else if IsRead(p) { ReadLife(s, t, p, c, o); }
    else if IsMarker(p) { MarkerOutside(s, t, p, c, o); }
    else { ShutdownOutside(s, t, p, c, o); }
  }

  // ---- invariants ----

  /** The initialize calls begun and not yet settled. */
  function Open(s: Core): set<nat> { s.life.begun - s.calls.settled }

  /** The flags follow from what was begun, settled and admitted. */
  ghost predicate FlagsInv(s: Core) {
    var f := s.life.flags;
    && (f.initializing <==> Open(s) != {})
    && (forall a, b | a in Open(s) && b in Open(s) :: a == b)
    && (LastSuccess(s.life.outcomes) == if f.initialized then Some(f.initialization) else None)
    && (f.repeatable <==> f.initialized && !f.initializing && !s.life.requestAdmitted)
    && (s.life.requestAdmitted ==> f.initialized && !f.initializing)
  }

  ghost predicate ThreadLife(s: Core, p: Pc) {
    && (PastGuard(p).Some? && IsInit(s.calls, PastGuard(p).value) ==> PastGuard(p).value in s.life.begun)
    && (NotPastGuard(p).Some? ==> NotPastGuard(p).value !in s.life.begun)
    && (p.QClose? ==> s.life.flags.initialized && !s.life.flags.initializing && p.job.Call? && !IsInit(s.calls, p.job.id))
    && (p.Forget? && p.sent ==> s.q.reason.Some?)
  }

  ghost predicate LifeInv(s: State) {
    && FlagsInv(s.core)
    && (forall id | id in s.core.life.begun :: IsInit(s.core.calls, id))
    && AcceptedInv(s.core)
    && (forall t | t in s.threads :: ThreadLife(s.core, s.threads[t]))
  }

  /** Some thread will still pass the call through the response guard, or the peer can. */
  ghost predicate Settleable(s: State, id: nat) {
    id in s.core.calls.pending || exists t :: t in s.threads && s.threads[t].SGuard? && s.threads[t].id == id
  }

  ghost predicate OpenInv(s: State) {
    s.core.q.reason.None? ==> forall id | id in Open(s.core) :: Settleable(s, id)
  }

  // ---- they are kept by every step ----

  lemma BeginKeepsFlags(s: Core, p: Pc, s1: Core)
    requires FlagsInv(s) && p.QBuild? && Begins(s, p, s1) && s1.calls.settled == s.calls.settled && p.job.id !in s.calls.settled
    ensures FlagsInv(s1)
  {
    assert Open(s1) == {p.job.id};
  }

  lemma CompleteKeepsFlags(s: Core, p: Pc, s1: Core)
    requires FlagsInv(s) && LifeChange(s, p, s1) && p.SGuard? && IsInit(s.calls, p.id) && p.id in Open(s)
    ensures FlagsInv(s1)
    ensures Open(s) == {p.id} && Open(s1) == {}
  {
    assert Open(s1) == Open(s) - {p.id};
    assert s1.life.outcomes[..|s1.life.outcomes| - 1] == s.life.outcomes;
  }

  lemma FlagsKept(s: Core, p: Pc, s1: Core)
    requires FlagsInv(s) && LifeChange(s, p, s1)
    requires p.QBuild? && p.job.Call? ==> p.job.id !in s.calls.settled
    requires p.SGuard? ==> if IsInit(s.calls, p.id) then p.id in Open(s) else p.id !in s.life.begun
    requires p.QClose? ==> s.life.flags.initialized && !s.life.flags.initializing
    ensures FlagsInv(s1)
  {
    if p.SGuard? {
      if IsInit(s.calls, p.id) { CompleteKeepsFlags(s, p, s1); } else { assert Open(s1) == Open(s); }
    } else if p.QBuild? && s1.life != s.life {
      BeginKeepsFlags(s, p, s1);
    } else {
      assert Open(s1) == Open(s);
    }
  }

  lemma MoverKept(s: Core, p: Pc, s1: Core, p1: Pc)
    requires ThreadLife(s, p) && LifeEffect(s, p, s1, p1) && (s.q.reason.Some? ==> s1.q.reason.Some?)
    requires p1.SGuard? && PeerHas(s.q, p1.id) && IsInit(s.calls, p1.id) ==> p1.id in s.life.begun
    ensures ThreadLife(s1, p1)
  {}

  lemma OtherKept(s: Core, p: Pc, s1: Core, other: Pc)
    requires ThreadLife(s, other) && LifeChange(s, p, s1) && (s.q.reason.Some? ==> s1.q.reason.Some?)
    requires CallerOf(p).Some? ==> CallerOf(other) != CallerOf(p)
    requires p.QBuild? ==> !other.QClose?
    ensures ThreadLife(s1, other)
  {}

  lemma LifeKept(s: State, t: Tid, o: Out)
    requires CallInv(s) && LockInv(s) && QueueInv(s.core.q) && LifeInv(s) && s.core.guards.V2? && t in s.threads && o.Out?
    requires LifeEffect(s.core, s.threads[t], o.core, o.pc) && TicketEffect(s.core, s.threads[t], t, o.core, o.pc)
    requires s.core.q.reason.Some? ==> o.core.q.reason.Some?
    ensures LifeInv(State(o.core, s.threads[t := o.pc]))
  {
    var p := s.threads[t];
    assert ThreadCalls(s.core, p) && ThreadLife(s.core, p);
    CoreLifeKept(s.core, p, t, o.core, o.pc);
    forall u | u in s.threads && u != t ensures ThreadLife(o.core, s.threads[u]) {
      OthersStay(s, t, u);
      OtherKept(s.core, p, o.core, s.threads[u]);
    }
    AssembleLife(s, t, o.core, o.pc);
  }

  /** The moving thread and the flags. */
  lemma CoreLifeKept(s: Core, p: Pc, t: Tid, s1: Core, p1: Pc)
    requires FlagsInv(s) && AcceptedInv(s) && IdsInv(s) && QueueInv(s.q) && ThreadCalls(s, p) && ThreadLife(s, p)
    requires forall id | id in s.life.begun :: IsInit(s.calls, id)
    requires LifeEffect(s, p, s1, p1) && TicketEffect(s, p, t, s1, p1) && (s.q.reason.Some? ==> s1.q.reason.Some?)
    ensures FlagsInv(s1) && AcceptedInv(s1) && ThreadLife(s1, p1)
    ensures forall id | id in s1.life.begun :: IsInit(s1.calls, id)
  {
    FlagsKept(s, p, s1);
    if p1.SGuard? && PeerHas(s.q, p1.id) { PeerHasAccepted(s.q, p1.id); }
    MoverKept(s, p, s1, p1);
    AcceptedKept(s, p, t, s1, p1);
  }

  lemma AssembleLife(s: State, t: Tid, core: Core, p1: Pc)
    requires FlagsInv(core) && AcceptedInv(core) && ThreadLife(core, p1)
    requires forall id | id in core.life.begun :: IsInit(core.calls, id)
    requires forall u | u in s.threads && u != t :: ThreadLife(core, s.threads[u])
    ensures LifeInv(State(core, s.threads[t := p1]))
  {
    var threads := s.threads[t := p1];
    forall u | u in threads ensures ThreadLife(core, threads[u]) {
      if u != t { assert threads[u] == s.threads[u]; }
    }
  }

  /** Two threads make different calls and are not both inside the send lock. */
  lemma OthersStay(s: State, t: Tid, u: Tid)
    requires CallInv(s) && LockInv(s) && s.core.guards.V2? && t in s.threads && u in s.threads && t != u
    ensures CallerOf(s.threads[t]).Some? ==> CallerOf(s.threads[u]) != CallerOf(s.threads[t])
    ensures s.threads[t].QBuild? ==> !s.threads[u].QClose?
  {
    assert Holding(s.threads[t]) && Holding(s.threads[u]) ==> s.core.q.lock == Some(t) == Some(u);
  }

  ghost predicate AcceptedInv(s: Core) {
    forall i | 0 <= i < |s.q.accepted| && s.q.accepted[i].job.Call? && IsInit(s.calls, s.q.accepted[i].job.id)
      :: s.q.accepted[i].job.id in s.life.begun
  }

  lemma AcceptedKept(s: Core, p: Pc, t: Tid, s1: Core, p1: Pc)
    requires AcceptedInv(s) && ThreadLife(s, p) && LifeChange(s, p, s1) && TicketEffect(s, p, t, s1, p1)
    ensures AcceptedInv(s1)
  {}

  /** A call made later changes nothing for the calls already known. */
  lemma GrowKeepsThread(s: Core, s1: Core, p: Pc)
    requires ThreadLife(s, p) && ThreadCalls(s, p) && (p.SGuard? ==> Known(s, p.id))
    requires s1.life == s.life && s1.q == s.q && s.calls.methods <= s1.calls.methods
    ensures ThreadLife(s1, p)
  {}

  lemma StartKeepsLife(s: State, t: Tid, task: Task, o: Out)
    requires CallInv(s) && LifeInv(s) && t !in s.threads && o == StartOut(s.core, task)
    ensures LifeInv(State(o.core, s.threads[t := o.pc])) && o.core.life == s.core.life && Open(o.core) == Open(s.core)
    ensures s.core.calls.pending <= o.core.calls.pending && o.core.q == s.core.q
  {
    forall u | u in s.threads ensures ThreadLife(o.core, s.threads[u]) {
      GrowKeepsThread(s.core, o.core, s.threads[u]);
    }
    assert ThreadLife(o.core, o.pc);
    assert AcceptedInv(o.core);
  }

  lemma OpenKept(s: State, t: Tid, o: Out)
    requires CallInv(s) && LifeInv(s) && OpenInv(s) && s.core.guards.V2? && t in s.threads && o.Out?
    requires CallEffect(s.core, s.threads[t], t, o.core, o.pc) && LifeChange(s.core, s.threads[t], o.core)
    requires s.core.q.reason.Some? ==> o.core.q.reason.Some?
    ensures OpenInv(State(o.core, s.threads[t := o.pc]))
  {
    var p := s.threads[t];
    var s1 := State(o.core, s.threads[t := o.pc]);
    assert ThreadCalls(s.core, p) && ThreadLife(s.core, p);
    if o.core.q.reason.None? {
      forall id | id in Open(o.core) ensures Settleable(s1, id) {
        if id !in o.core.calls.pending {
          StillSettling(s, t, o, id);
        }
      }
    }
  }

  /** An open call that is not pending is at the response guard. */
  lemma StillSettling(s: State, t: Tid, o: Out, id: nat)
    requires CallInv(s) && LifeInv(s) && s.core.guards.V2? && t in s.threads && o.Out?
    requires CallEffect(s.core, s.threads[t], t, o.core, o.pc) && LifeChange(s.core, s.threads[t], o.core)
    requires id in Open(o.core) && id !in o.core.calls.pending && s.core.q.reason.None?
    requires id in Open(s.core) ==> Settleable(s, id)
    ensures Settleable(State(o.core, s.threads[t := o.pc]), id)
  {
    var p := s.threads[t];
    var s1 := State(o.core, s.threads[t := o.pc]);
    assert ThreadCalls(s.core, p) && ThreadLife(s.core, p);
    if id in s.core.calls.pending {
      assert id in Open(s.core);
      assert o.pc.SGuard? && o.pc.id == id;
      assert s1.threads[t].SGuard?;
    } else {
      var u :| u in s.threads && s.threads[u].SGuard? && s.threads[u].id == id;
      assert u != t;
      assert s1.threads[u] == s.threads[u];
    }
  }

  // ---- every run of a v2 client ----

  ghost predicate V2Inv(s: State) { FullInv(s) && s.core.guards.V2? && LifeInv(s) && OpenInv(s) }

  lemma StepKept(s: State, t: Tid, c: Choice, s1: State)
    requires V2Inv(s) && Next(s, Step(t, c)) == Some(s1)
    ensures LifeInv(s1) && OpenInv(s1)
  {
    var o := ThreadOut(s, Step(t, c));
    var p := s.threads[t];
    ThreadEffect(s, Step(t, c));
    CallsStep(s.core, t, p, c, o);
    TicketStep(s.core, t, p, c, o);
    StepLife(s.core, t, p, c, o);
    LifeKept(s, t, o);
    OpenKept(s, t, o);
  }

  lemma StartKeeps(s: State, t: Tid, task: Task, s1: State)
    requires V2Inv(s) && Next(s, Start(t, task)) == Some(s1)
    ensures LifeInv(s1) && OpenInv(s1)
  {
    var o := ThreadOut(s, Start(t, task));
    StartKeepsLife(s, t, task, o);
    forall id | id in Open(s1.core) && s1.core.q.reason.None? ensures Settleable(s1, id) {
      if id !in s.core.calls.pending {
        var u :| u in s.threads && s.threads[u].SGuard? && s.threads[u].id == id;
        assert s1.threads[u] == s.threads[u];
      }
    }
  }

  lemma WriterKeepsLife(s: State, e: Event, s1: State)
    requires V2Inv(s) && (e.Write? || e.WriteFails?) && Next(s, e) == Some(s1)
    ensures LifeInv(s1) && OpenInv(s1)
  {
    WriterLeavesCalls(s, e, s1);
    if e.Write? { WriterStep(s.core.q, e.c, s1.core.q, s.core.writerEof); }
    QueueMoves(s, s1);
  }

  /** The lifecycle does not depend on the queue but for the stop reason. */
  lemma QueueMoves(s: State, s1: State)
    requires LifeInv(s) && OpenInv(s) && s1 == s.(core := s.core.(q := s1.core.q))
    requires s1.core.q.accepted == s.core.q.accepted && (s.core.q.reason.Some? ==> s1.core.q.reason.Some?)
    ensures LifeInv(s1) && OpenInv(s1)
  {
    forall t | t in s.threads ensures ThreadLife(s1.core, s1.threads[t]) {
      assert ThreadLife(s.core, s.threads[t]);
    }
    forall id | id in Open(s1.core) && s1.core.q.reason.None? ensures Settleable(s1, id) {
      assert Settleable(s, id);
    }
  }

  lemma V2Kept(s: State, e: Event, s1: State)
    requires V2Inv(s) && Next(s, e) == Some(s1)
    ensures V2Inv(s1)
  {
    FullKept(s, e, s1);
    if e.Step? { StepKept(s, e.t, e.c, s1); ThreadEffect(s, e); }
    else if e.Start? { StartKeeps(s, e.t, e.task, s1); ThreadEffect(s, e); }
    else { WriterKeepsLife(s, e, s1); }
  }

  lemma {:induction false} V2Always(s: State, es: seq<Event>, s1: State)
    requires V2Inv(s) && Exec(s, es) == Some(s1)
    ensures V2Inv(s1)
    decreases |es|
  {
    if es != [] {
      var s2 := Next(s, es[0]).value;
      V2Kept(s, es[0], s2);
      V2Always(s2, es[1..], s1);
    }
  }

  lemma V2OfRun(writerEof: bool, es: seq<Event>, s: State)
    requires Run(V2, writerEof, es, s)
    ensures V2Inv(s)
  {
    FullAtStart(V2, writerEof);
    V2Always(Init(V2, writerEof), es, s);
  }
}
