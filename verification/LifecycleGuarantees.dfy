/** What the v2 initialize lifecycle guarantees in every run of the connection (v2/client.go
    on connection.go). */
module LifecycleGuarantees {
  import opened ClientLifecycle
  import opened Options
  import opened Connection
  import opened ConnectionDrain
  import opened ConnectionCalls
  import opened ConnectionLifecycle
  import opened InitializeFates

  /** `initializing` holds exactly when one initialize was admitted and not yet settled, and
      there is never more than one; the recorded initialization is the last success. */
  lemma InitializingIsOneOpen(writerEof: bool, es: seq<Event>, s: State)
    requires Run(V2, writerEof, es, s)
    ensures s.core.life.flags.initializing <==> |Open(s.core)| == 1
    ensures |Open(s.core)| <= 1
    ensures LastSuccess(s.core.life.outcomes) == if s.core.life.flags.initialized then Some(s.core.life.flags.initialization) else None
  {
    V2OfRun(writerEof, es, s);
    AtMostOne(Open(s.core));
  }

  lemma AtMostOne(ids: set<nat>)
    requires forall a, b | a in ids && b in ids :: a == b
    ensures |ids| == if ids == {} then 0 else 1
  {
    if ids != {} {
      var a :| a in ids;
      assert ids == {a};
    }
  }

  /** While the connection is open, the one open initialize can still be settled: it is
      pending, or some thread is about to pass it through the response guard. */
  lemma OpenCanSettle(writerEof: bool, es: seq<Event>, s: State, id: nat)
    requires Run(V2, writerEof, es, s) && s.core.q.reason.None? && id in Open(s.core)
    ensures Settleable(s, id)
  {
    V2OfRun(writerEof, es, s);
  }

  /** Only settling the open initialize ends it: no refused or concurrent one does. */
  lemma OnlySettlingEnds(writerEof: bool, es: seq<Event>, s: State, e: Event, s1: State)
    requires Run(V2, writerEof, es, s) && Next(s, e) == Some(s1)
    requires s.core.life.flags.initializing && !s1.core.life.flags.initializing
    ensures e.Step? && s.threads[e.t].SGuard? && Open(s.core) == {s.threads[e.t].id} && Open(s1.core) == {}
  {
    V2OfRun(writerEof, es, s);
    if e.Step? {
      var p := s.threads[e.t];
      StepLife(s.core, e.t, p, e.c, ThreadOut(s, e));
      assert ThreadCalls(s.core, p) && ThreadLife(s.core, p);
      CompleteKeepsFlags(s.core, p, s1.core);
    } else if e.Start? {
      StartKeepsLife(s, e.t, e.task, ThreadOut(s, e));
    } else {
      WriterLeavesCalls(s, e, s1);
    }
  }

  /** An initialize that was admitted but never queued is settled by the time its call
      returns, whatever the other threads did in between. */
  lemma UnsendableIsSettled(writerEof: bool, es: seq<Event>, s: State, t: Tid)
    requires Run(V2, writerEof, es, s) && t in s.threads && s.threads[t].Returned?
    ensures var id := s.threads[t].id;
      id in s.core.life.begun && !Accepts(s.core.q, id) ==> id in s.core.calls.settled && id !in Open(s.core)
  {
    FatesOfRun(writerEof, es, s);
    assert Fated(s.core, s.threads[t]);
  }

  /** While its caller abandons it, it is the open one and still pending, so the caller's
      next two steps settle it as failed. */
  lemma AbandonSettles(writerEof: bool, es: seq<Event>, s: State, t: Tid, id: nat, c: Choice)
    requires Run(V2, writerEof, es, s) && t in s.threads && s.threads[t] == Abandon(id, false) && IsInit(s.core.calls, id)
    ensures s.core.life.flags.initializing && Open(s.core) == {id}
    ensures CallNext(s.core, s.threads[t], c) == Out(Take(s.core, id), SGuard(id, None, false))
    ensures var s2 := Settle(Take(s.core, id), id, None);
      CallNext(Take(s.core, id), SGuard(id, None, false), c) == Out(s2, SReply(id, false))
      && Open(s2) == {} && s2.life.flags == Complete(s.core.life.flags, None)
  {
    AbandonedIsOpen(writerEof, es, s, t, id);
    SettlingCloses(s.core, id);
  }

  lemma AbandonedIsOpen(writerEof: bool, es: seq<Event>, s: State, t: Tid, id: nat)
    requires Run(V2, writerEof, es, s) && t in s.threads && s.threads[t] == Abandon(id, false) && IsInit(s.core.calls, id)
    ensures FlagsInv(s.core) && s.core.guards.V2?
    ensures id in s.core.life.begun && id in s.core.calls.pending && id !in s.core.calls.settled
  {
    V2OfRun(writerEof, es, s);
    assert ThreadCalls(s.core, s.threads[t]) && ThreadLife(s.core, s.threads[t]);
  }

  lemma SettlingCloses(s: Core, id: nat)
    requires FlagsInv(s) && s.guards.V2? && IsInit(s.calls, id) && id in s.life.begun && id in s.calls.pending && id !in s.calls.settled
    ensures s.life.flags.initializing && Open(s) == {id}
    ensures Open(Settle(Take(s, id), id, None)) == {}
  {
    assert id in Open(s);
    assert Open(Settle(Take(s, id), id, None)) == Open(s) - {id};
  }

  /** An initialize is admitted exactly when none is open and no other request has been
      admitted yet: failed and repeated initializations keep the window open. */
  lemma WindowIsOpenUntilRequest(writerEof: bool, es: seq<Event>, s: State)
    requires Run(V2, writerEof, es, s)
    ensures MayBegin(s.core.life.flags) <==> Open(s.core) == {} && !s.core.life.requestAdmitted
  {
    V2OfRun(writerEof, es, s);
  }

  lemma {:induction false} FrozenFrom(s: State, es: seq<Event>, s1: State)
    requires V2Inv(s) && s.core.life.requestAdmitted && Exec(s, es) == Some(s1)
    ensures Frozen(s.core.life.flags) && s1.core.life.flags == s.core.life.flags
    ensures s1.core.life.begun == s.core.life.begun && s1.core.life.requestAdmitted
    decreases |es|
  {
    if es != [] {
      var e := es[0];
      var s2 := Next(s, e).value;
      V2Kept(s, e, s2);
      OneStepFrozen(s, e, s2);
      FrozenFrom(s2, es[1..], s1);
    }
  }

  /** Once another request is admitted, the flags, the recorded initialization and the set
      of initialize calls begun never change again. */
  lemma FrozenForGood(writerEof: bool, es: seq<Event>, s: State, later: seq<Event>, s1: State)
    requires Run(V2, writerEof, es, s) && s.core.life.requestAdmitted && Exec(s, later) == Some(s1)
    ensures Frozen(s.core.life.flags) && s1.core.life.flags == s.core.life.flags && s1.core.life.begun == s.core.life.begun
  {
    V2OfRun(writerEof, es, s);
    FrozenFrom(s, later, s1);
  }

  lemma OneStepFrozen(s: State, e: Event, s1: State)
    requires V2Inv(s) && s.core.life.requestAdmitted && Next(s, e) == Some(s1)
    ensures s1.core.life.flags == s.core.life.flags
    ensures s1.core.life.begun == s.core.life.begun && s1.core.life.requestAdmitted
  {
    if e.Step? {
      var p := s.threads[e.t];
      StepLife(s.core, e.t, p, e.c, ThreadOut(s, e));
      assert ThreadCalls(s.core, p) && ThreadLife(s.core, p);
      if p.SGuard? && IsInit(s.core.calls, p.id) { assert p.id in Open(s.core); }
    } else if e.Start? {
      StartKeepsLife(s, e.t, e.task, ThreadOut(s, e));
    } else {
      WriterLeavesCalls(s, e, s1);
    }
  }
}
