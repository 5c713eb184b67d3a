/** What a Call may rely on (connection.go): it waits for a reply only once its frame was
    written, it returns a reply only if there is one, and the write queue stays bounded. */
module CallOutcomes {
  import opened Options
  import opened Connection
  import opened ConnectionDrain
  import opened ConnectionCalls

  ghost predicate Wrote(q: Queue, t: Tid) { exists i :: 0 <= i < |q.written| && q.written[i].sender == t }

  /** Its write failed, or the connection has stopped or is being shut down. */
  predicate Lost(q: Queue, t: Tid) { WriteFailed(q, t) || q.reason.Some? || q.sealed }

  ghost predicate Honest(s: Core, t: Tid, p: Pc) {
    && (p.WaitReply? ==> Wrote(s.q, t))
    && (p.AwaitFailed? ==> Lost(s.q, t))
    && (p.Returned? && p.why == Replied ==> p.id in s.calls.replied)
  }

  ghost predicate OutcomesInv(s: State) {
    && |s.core.q.items| <= 32
    && (s.core.q.writer.WExit? ==> s.core.q.reason.Some? || s.core.q.drained)
    && forall t :: t in s.threads ==> Honest(s.core, t, s.threads[t])
  }

  lemma CallHonest(s: Core, t: Tid, p: Pc, c: Choice, o: Out)
    requires (IsAwait(p) && o == AwaitNext(s, t, p, c)) || (IsCall(p) && o == CallNext(s, p, c))
    requires o.Out?
    ensures o.pc.WaitReply? ==> Wrote(s.q, t)
    ensures o.pc.AwaitFailed? ==> Lost(o.core.q, t)
    ensures o.pc.Returned? && o.pc.why == Replied ==> o.pc.id in s.calls.replied
  {}

  /** A step of one thread. */
  lemma MoverHonest(s: Core, t: Tid, p: Pc, c: Choice, o: Out)
    requires o == StepOut(s, t, p, c) && o.Out?
    ensures o.pc.WaitReply? ==> Wrote(s.q, t)
    ensures o.pc.AwaitFailed? ==> Lost(o.core.q, t)
    ensures o.pc.Returned? && o.pc.why == Replied ==> o.pc.id in s.calls.replied
  {
    hide QueueNext, AwaitNext, CallNext, Wrote, Lost;
    if IsQueue(p) { QueueReturns(s, t, p, c, o); }
    else if IsAwait(p) || IsCall(p) { CallHonest(s, t, p, c, o); }
  }

  lemma QueueReturns(s: Core, t: Tid, p: Pc, c: Choice, o: Out)
    requires IsQueue(p) && o == QueueNext(s, t, p, c) && o.Out?
    ensures !o.pc.WaitReply? && !o.pc.Returned? && !o.pc.AwaitFailed?
  {}

  lemma CallRoom(s: Core, t: Tid, p: Pc, c: Choice, o: Out)
    requires (IsAwait(p) && o == AwaitNext(s, t, p, c)) || (IsCall(p) && o == CallNext(s, p, c))
    requires o.Out?
    ensures o.core.q.items == s.q.items
  {}

  lemma MarkerRoom(s: Core, t: Tid, p: Pc, c: Choice, o: Out)
    requires IsMarker(p) && o == MarkerNext(s, t, p, c) && o.Out? && |s.q.items| <= 32
    ensures |o.core.q.items| <= 32
  {}

  /** The queue grows only while it has room. */
  lemma QueueRoom(s: Core, t: Tid, p: Pc, c: Choice, o: Out)
    requires o == StepOut(s, t, p, c) && o.Out? && |s.q.items| <= 32
    ensures |o.core.q.items| <= 32
  {
    hide QueueNext, AwaitNext, CallNext, MarkerNext;
    if IsQueue(p) { QueueRoomQueue(s, t, p, c, o); }
    else if IsAwait(p) || IsCall(p) { CallRoom(s, t, p, c, o); }
    else if IsMarker(p) { MarkerRoom(s, t, p, c, o); }
  }

  lemma QueueRoomQueue(s: Core, t: Tid, p: Pc, c: Choice, o: Out)
    requires IsQueue(p) && o == QueueNext(s, t, p, c) && o.Out? && |s.q.items| <= 32
    ensures |o.core.q.items| <= 32
  {
    if p.QBuild? { BuildLeavesQueue(s, p.job, c, o); }
  }

  lemma RepliesGrow(s: Core, t: Tid, p: Pc, c: Choice, o: Out)
    requires o == StepOut(s, t, p, c) && o.Out?
    ensures s.calls.replied <= o.core.calls.replied
  {
    hide StepOut;
    CallsStep(s, t, p, c, o);
  }

  lemma OutcomesKept(s: State, e: Event, s1: State)
    requires FullInv(s) && OutcomesInv(s) && Next(s, e) == Some(s1)
    ensures OutcomesInv(s1)
  {
    hide StepOut, StartOut, FullInv;
    if e.Step? {
      var o := ThreadOut(s, e);
      ThreadEffect(s, e);
      SealLasts(s.core, e.t, s.threads[e.t], e.c, o);
      MoverHonest(s.core, e.t, s.threads[e.t], e.c, o);
      QueueRoom(s.core, e.t, s.threads[e.t], e.c, o);
      RepliesGrow(s.core, e.t, s.threads[e.t], e.c, o);
      forall t | t in s1.threads ensures Honest(s1.core, t, s1.threads[t]) {
        assert t in s.threads ==> Honest(s.core, t, s.threads[t]);
        LostLasts(s.core.q, s1.core.q, t);
      }
    } else if e.Start? {
      StartHonest(s.core, e.task);
      forall t | t in s1.threads ensures Honest(s1.core, t, s1.threads[t]) { assert t in s.threads ==> Honest(s.core, t, s.threads[t]); }
    } else {
      WriterGrows(s.core.q, e, s1.core.q, s.core.writerEof);
      forall t | t in s1.threads ensures Honest(s1.core, t, s1.threads[t]) {
        WroteLasts(s.core.q, s1.core.q, t);
        LostLasts(s.core.q, s1.core.q, t);
      }
    }
  }

  lemma StartHonest(s: Core, task: Task)
    ensures var o := StartOut(s, task); o.Out? && o.core.q == s.q && o.core.calls.replied == s.calls.replied && !o.pc.WaitReply? && !o.pc.Returned? && !o.pc.AwaitFailed?
  {}

  lemma WriterGrows(q: Queue, e: Event, q1: Queue, writerEof: bool)
    requires (e.Write? && WriteNext(q, e.c) == Some(q1)) || (e.WriteFails? && WriteFailsNext(q, writerEof, e.error) == Some(q1))
    ensures q.written <= q1.written && |q1.items| <= |q.items|
    ensures q1.sealed == q.sealed && (q.reason.Some? ==> q1.reason.Some?) && (q.drained ==> q1.drained)
    ensures q1.writer.WExit? ==> q.writer.WExit? || q1.reason.Some? || q1.drained
    ensures q.writer.WFailed? || q.writer.WDead? ==> (q1.writer.WFailed? || q1.writer.WDead?) && q1.writer.frame == q.writer.frame
  {}

  /** A queue once sealed stays so, and a stopped connection stays stopped. */
  lemma SealLasts(s: Core, t: Tid, p: Pc, c: Choice, o: Out)
    requires o == StepOut(s, t, p, c) && o.Out?
    ensures (s.q.sealed ==> o.core.q.sealed) && (s.q.reason.Some? ==> o.core.q.reason.Some?) && o.core.q.writer == s.q.writer
  {
    hide StepOut;
    var was := State(s, map[t := p]);
    ThreadEffect(was, Step(t, c)) by { assert ThreadOut(was, Step(t, c)) == o; }
  }

  lemma LostLasts(q: Queue, q1: Queue, t: Tid)
    requires (q.sealed ==> q1.sealed) && (q.reason.Some? ==> q1.reason.Some?)
    requires q.writer.WFailed? || q.writer.WDead? ==> (q1.writer.WFailed? || q1.writer.WDead?) && q1.writer.frame == q.writer.frame
    ensures Lost(q, t) ==> Lost(q1, t)
  {}

  lemma WroteLasts(q: Queue, q1: Queue, t: Tid)
    requires q.written <= q1.written
    ensures Wrote(q, t) ==> Wrote(q1, t)
  {
    if i :| 0 <= i < |q.written| && q.written[i].sender == t { assert q1.written[i].sender == t; }
  }

  lemma {:induction false} OutcomesAlways(s: State, es: seq<Event>, s1: State)
    requires FullInv(s) && OutcomesInv(s) && Exec(s, es) == Some(s1)
    ensures FullInv(s1) && OutcomesInv(s1)
    decreases |es|
  {
    hide FullInv, OutcomesInv, Next;
    if es != [] {
      var s2 := Next(s, es[0]).value;
      OutcomesKept(s, es[0], s2);
      FullKept(s, es[0], s2);
      OutcomesAlways(s2, es[1..], s1);
    }
  }

  /** In every run: at most 32 frames are queued, and the write loop ends only once the
      connection has stopped or the drain is complete; a call that waits for its reply has had its
      frame written; one that gave up on its write had it fail, or stopped the connection unless it
      was being shut down; and a call that returns a reply was sent one, and had passed the response
      guard. */
  lemma CallsAreHonest(guards: Guards, writerEof: bool, es: seq<Event>, s: State, t: Tid)
    requires Run(guards, writerEof, es, s) && t in s.threads
    ensures |s.core.q.items| <= 32 && (s.core.q.writer.WExit? ==> s.core.q.reason.Some? || s.core.q.drained)
    ensures s.threads[t].WaitReply? ==> exists i :: 0 <= i < |s.core.q.written| && s.core.q.written[i].sender == t
    ensures s.threads[t].AwaitFailed? ==> WriteFailed(s.core.q, t) || s.core.q.reason.Some? || s.core.q.sealed
    ensures s.threads[t].Returned? && s.threads[t].why == Replied ==>
      s.threads[t].id in s.core.calls.replied && s.threads[t].id in s.core.calls.settled
  {
    FullAtStart(guards, writerEof);
    OutcomesAlways(Init(guards, writerEof), es, s);
    assert Honest(s.core, t, s.threads[t]);
  }

  // ---- giving up during a shutdown ----

  /** A sender waiting for its write, or past it, that is not about to stop the connection. */
  predicate Patient(p: Pc) {
    || p.Await? || p.AwaitLate? || p.AwaitTimer? || p.AwaitFailed? || p.WaitReply? || p.Forget? || p.Abandon? || p.Returned? || p.Exit?
    || (p.SGuard? && !p.reader) || (p.SReply? && !p.reader)
  }

  lemma PatientStep(s: Core, t: Tid, p: Pc, c: Choice, o: Out)
    requires s.q.sealed && Patient(p) && o == StepOut(s, t, p, c) && o.Out?
    ensures Patient(o.pc)
  {
    hide QueueNext, ReadNext, MarkerNext;
  }

  /** Once the queue is sealed, a sender that was waiting for its write never stops the
      connection, however its context ends: what was accepted is still drained. */
  lemma {:induction false} SealedIsNotStopped(s: State, es: seq<Event>, s1: State, t: Tid)
    requires s.core.q.sealed && t in s.threads && Patient(s.threads[t]) && Exec(s, es) == Some(s1)
    ensures t in s1.threads && Patient(s1.threads[t]) && !s1.threads[t].AwaitStop?
    decreases |es|
  {
    hide StepOut, StartOut, WriteNext, WriteFailsNext, Patient;
    if es != [] {
      var e := es[0];
      var s2 := Next(s, e).value;
      if e.Step? {
        SealLasts(s.core, e.t, s.threads[e.t], e.c, ThreadOut(s, e));
        if e.t == t { PatientStep(s.core, t, s.threads[t], e.c, ThreadOut(s, e)); }
      } else if e.Start? {
        StartHonest(s.core, e.task);
      } else {
        WriterGrows(s.core.q, e, s2.core.q, s.core.writerEof);
      }
      SealedIsNotStopped(s2, es[1..], s1, t);
    }
    NeverStops(s1.threads[t]);
  }

  lemma NeverStops(p: Pc)
    requires Patient(p)
    ensures !p.AwaitStop?
  {}

  // ---- what a sealed queue does ----

  /** The read loop, when it is not delivering a frame. */
  predicate Discarding(p: Pc) {
    || p.RRead? || p.RFrame? || p.REof? || p.RSeal? || p.RFlush? || p.RStop? || p.Exit?
    || (IsMarker(p) && p.owner.Flush?) || (IsQueue(p) && p.job.Answer?)
  }

  lemma QueueDiscards(s: Core, t: Tid, p: Pc, c: Choice, o: Out)
    requires IsQueue(p) && p.job.Answer? && o == QueueNext(s, t, p, c) && o.Out?
    ensures Discarding(o.pc)
  {}

  lemma DiscardStep(s: Core, t: Tid, p: Pc, c: Choice, o: Out)
    requires s.q.sealed && Discarding(p) && o == StepOut(s, t, p, c) && o.Out?
    ensures Discarding(o.pc)
  {
    hide QueueNext, AwaitNext, CallNext;
    if IsQueue(p) { QueueDiscards(s, t, p, c, o); }
  }

  /** Once the queue is sealed, frames are read and discarded: the read loop delivers no further
      response, so what arrives during the drain completes no call. */
  lemma {:induction false} SealedDiscards(s: State, es: seq<Event>, s1: State)
    requires s.core.q.sealed && READER in s.threads && Discarding(s.threads[READER]) && Exec(s, es) == Some(s1)
    ensures READER in s1.threads && Discarding(s1.threads[READER])
    ensures s1.threads[READER] != RDispatch && !s1.threads[READER].SGuard?
    decreases |es|
  {
    hide StepOut, StartOut, WriteNext, WriteFailsNext, Discarding;
    if es != [] {
      var e := es[0];
      var s2 := Next(s, e).value;
      if e.Step? {
        SealLasts(s.core, e.t, s.threads[e.t], e.c, ThreadOut(s, e));
        if e.t == READER { DiscardStep(s.core, READER, s.threads[READER], e.c, ThreadOut(s, e)); }
      } else if e.Start? {
        StartHonest(s.core, e.task);
      } else {
        WriterGrows(s.core.q, e, s2.core.q, s.core.writerEof);
      }
      SealedDiscards(s2, es[1..], s1);
    }
    DeliversNothing(s1.threads[READER]);
  }

  lemma DeliversNothing(p: Pc)
    requires Discarding(p)
    ensures p != RDispatch && !p.SGuard?
  {}

  /** A sealed queue refuses at once, touching nothing. */
  lemma SealedRefuses(s: State, t: Tid, c: Choice, c1: Choice)
    requires s.core.q.sealed && t in s.threads && s.threads[t].QLoad?
    ensures var s1 := Exec(s, [Step(t, c), Step(t, c1)]);
      && s1.Some? && s1.value.core == s.core
      && s1.value.threads == s.threads[t := match s.threads[t].job {
           case Call(id) => Forget(id, false)
           case Answer => RRead
           case _ => Exit
         }]
  {
    var job := s.threads[t].job;
    var s1 := State(s.core, s.threads[t := QReturn(job, Refused)]);
    assert Next(s, Step(t, c)) == Some(s1);
    ExecTwo(s, Step(t, c), Step(t, c1));
    assert s1.threads[t := AfterQueue(job, Refused)] == s.threads[t := AfterQueue(job, Refused)];
  }

  /** An installed outgoing guard may refuse: nothing was changed, and the sender leaves. */
  lemma GuardRefuses(s: State, t: Tid, job: Job)
    requires t in s.threads && s.threads[t] == QBuild(job) && ((s.core.guards.Plain? && s.core.guards.outgoing) || s.core.guards.V2?)
    requires job.Call? || (job.Notify? && s.core.guards.Plain?)
    ensures Next(s, Step(t, No)) == Some(State(s.core, s.threads[t := QDone(job, Refused)]))
  {}

  // ---- a reply wins ----

  /** The reply is there, and the call is waiting for its write or for it, or has returned it. */
  predicate HasReply(s: Core, p: Pc, id: nat) {
    id in s.calls.replied && (p == AwaitFailed(id) || p == WaitReply(id) || p == Returned(id, Replied))
  }

  lemma ReplyStep(s: Core, t: Tid, p: Pc, c: Choice, o: Out, id: nat)
    requires HasReply(s, p, id) && o == StepOut(s, t, p, c) && o.Out? && !c.CtxEnds?
    ensures HasReply(o.core, o.pc, id)
  {}

  /** Once its reply was sent, a call whose write failed or that waits for the reply returns it,
      even if the connection stops, unless its own context ends. */
  lemma {:induction false} ReplyWins(s: State, es: seq<Event>, s1: State, t: Tid, id: nat)
    requires t in s.threads && HasReply(s.core, s.threads[t], id) && Exec(s, es) == Some(s1)
    requires forall k :: 0 <= k < |es| && es[k].Step? && es[k].t == t ==> !es[k].c.CtxEnds?
    ensures t in s1.threads && HasReply(s1.core, s1.threads[t], id)
    decreases |es|
  {
    hide StepOut, StartOut, WriteNext, WriteFailsNext;
    if es != [] {
      var e := es[0];
      if e.Step? {
        RepliesGrow(s.core, e.t, s.threads[e.t], e.c, ThreadOut(s, e));
        if e.t == t { ReplyStep(s.core, t, s.threads[t], e.c, ThreadOut(s, e), id); }
      } else if e.Start? {
        StartHonest(s.core, e.task);
      }
      ReplyWins(Next(s, e).value, es[1..], s1, t, id);
    }
  }

  /** And its next step returns it, once the connection has stopped or the reply is picked. */
  lemma ReplyReturns(s: State, t: Tid, id: nat)
    requires t in s.threads && HasReply(s.core, s.threads[t], id) && s.threads[t] != Returned(id, Replied)
    ensures Next(s, Step(t, Go)) == Some(State(s.core, s.threads[t := Returned(id, Replied)]))
  {}

  /** Likewise a write that was completed wins over the connection's stop. */
  lemma WriteWins(s: State, t: Tid, id: nat, c: Choice)
    requires t in s.threads && (s.threads[t] == Await(Call(id)) || s.threads[t] == AwaitLate(Call(id))) && WasWritten(s.core.q, t)
    requires c.Go? || (c.ConnEnds? && s.core.q.reason.Some?)
    ensures Next(s, Step(t, c)) == Some(State(s.core, s.threads[t := WaitReply(id)]))
  {}

  /** Responses, and the read loop's own answers, give up only when the connection stops. */
  lemma AnswersPersist(s: State, t: Tid, job: Job, k: Option<nat>, c: Choice, s1: State)
    requires (job == Respond || job == Answer) && t in s.threads && s.threads[t] == QSend(job, k) && Next(s, Step(t, c)) == Some(s1)
    ensures s.core.q.reason.None? ==> s1.threads[t] == QDone(job, Sent) && s1.core.q.accepted == s.core.q.accepted + [Frame(t, job, k)]
  {}

  /** A frame the read loop refuses is answered. */
  lemma BadIsAnswered(s: State)
    requires READER in s.threads && s.threads[READER] == RDispatch
    ensures Next(s, Step(READER, Bad)) == Some(State(s.core, s.threads[READER := QLoad(Answer)]))
  {}
}
