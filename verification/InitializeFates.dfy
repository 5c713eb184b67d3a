/** What becomes of a call whose initialize was begun: in every run, by the time it returns,
    its frame was accepted into the queue or it was settled. */
module InitializeFates {
  import opened Options
  import opened Connection
  import opened ConnectionDrain
  import opened ConnectionCalls
  import opened ConnectionLifecycle

  /** The call a thread makes whose frame was queued. */
  function Queued(p: Pc): Option<nat> {
    if (p.QDone? || p.QRelease? || p.QReturn?) && p.r.Sent? then AsCall(p.job)
    else if IsAwait(p) then AsCall(p.job)
    else if p.AwaitFailed? || p.WaitReply? || ((p.Forget? || p.Abandon?) && p.sent) then Some(p.id)
    else None
  }

  /** Queued means accepted, and a call that has returned was, if it was begun, accepted or settled. */
  ghost predicate Fated(s: Core, p: Pc) {
    && (Queued(p).Some? ==> Accepts(s.q, Queued(p).value))
    && (p.Returned? && p.id in s.life.begun ==> Accepts(s.q, p.id) || p.id in s.calls.settled)
  }

  ghost predicate FateInv(s: State) { forall t | t in s.threads :: Fated(s.core, s.threads[t]) }

  // ---- one step ----

  lemma QueueFate(s: Core, t: Tid, p: Pc, c: Choice, o: Out)
    requires IsQueue(p) && o == QueueNext(s, t, p, c) && o.Out? && Fated(s, p)
    ensures Fated(o.core, o.pc)
  {
    if p.QBuild? {
      BuildCalls(s, t, p.job, c, o);
      BuildEffect(s, t, p.job, c, o);
    } else if p.QSend? && o.pc == QDone(p.job, Sent) {
      assert o.core.q.accepted[|s.q.accepted|].job == p.job;
    }
  }

  lemma AwaitFate(s: Core, t: Tid, p: Pc, c: Choice, o: Out)
    requires IsAwait(p) && o == AwaitNext(s, t, p, c) && o.Out? && Fated(s, p)
    ensures Fated(o.core, o.pc)
  {}

  lemma CallFate(s: Core, p: Pc, c: Choice, o: Out)
    requires IsCall(p) && o == CallNext(s, p, c) && o.Out? && Fated(s, p) && ThreadCalls(s, p) && ThreadLife(s, p)
    ensures Fated(o.core, o.pc)
  {}

  lemma ReadFate(s: Core, t: Tid, p: Pc, c: Choice, o: Out)
    requires IsRead(p) && o == ReadNext(s, t, p, c) && o.Out?
    ensures Fated(o.core, o.pc)
  {}

  lemma StepFate(s: Core, t: Tid, p: Pc, c: Choice, o: Out)
    requires o == StepOut(s, t, p, c) && o.Out? && Fated(s, p) && ThreadCalls(s, p) && ThreadLife(s, p)
    ensures Fated(o.core, o.pc)
  {
    hide Fated, ThreadCalls, ThreadLife;
    if IsQueue(p) { QueueFate(s, t, p, c, o); }
    else if IsAwait(p) { AwaitFate(s, t, p, c, o); }
    else if IsCall(p) { CallFate(s, p, c, o); }
    else if IsRead(p) { ReadFate(s, t, p, c, o); }
    else if IsMarker(p) { MarkerOutside(s, t, p, c, o); NeitherFate(o.core, o.pc); }
    else { ShutdownOutside(s, t, p, c, o); NeitherFate(o.core, o.pc); }
  }

  lemma NeitherFate(s: Core, p: Pc)
    requires !IsCall(p) && !IsAwait(p) && !IsQueue(p)
    ensures Fated(s, p)
  {}

  lemma NeutralGrows(s: Core, p: Pc, t: Tid, s1: Core, p1: Pc)
    requires Neutral(s, p, t, s1, p1)
    ensures s.q.accepted <= s1.q.accepted && s1.calls == s.calls
  {
    hide CallerOf, SettlingOf, NotSent, Settles;
  }

  lemma OthersGrow(s: Core, p: Pc, s1: Core, p1: Pc)
    requires Forgets(s, p, s1, p1) || Takes(s, p, s1, p1) || PassesGuard(s, p, s1, p1) || Replies(s, p, s1, p1)
    ensures s1.q == s.q && s.calls.settled <= s1.calls.settled
  {
    hide PeerHas, Settles, SettlingOf;
  }

  lemma OnlyGrows(s: Core, p: Pc, t: Tid, s1: Core, p1: Pc)
    requires CallEffect(s, p, t, s1, p1)
    ensures s.q.accepted <= s1.q.accepted && s.calls.settled <= s1.calls.settled
  {
    hide Neutral, Forgets, Takes, PassesGuard, Replies;
    if Neutral(s, p, t, s1, p1) { NeutralGrows(s, p, t, s1, p1); } else { OthersGrow(s, p, s1, p1); }
  }

  lemma BegunBy(s: Core, p: Pc, s1: Core, id: nat)
    requires LifeChange(s, p, s1) && id in s1.life.begun && CallerOf(p) != Some(id)
    ensures id in s.life.begun
  {}

  /** A thread that did not move: acceptance and settling last, and nobody else begins its call. */
  lemma OtherFate(s: Core, p: Pc, t: Tid, s1: Core, p1: Pc, other: Pc)
    requires Fated(s, other) && CallEffect(s, p, t, s1, p1) && LifeChange(s, p, s1)
    requires CallerOf(p).Some? ==> CallerOf(other) != CallerOf(p)
    ensures Fated(s1, other)
  {
    hide CallEffect, LifeChange, Accepts;
    OnlyGrows(s, p, t, s1, p1);
    if Queued(other).Some? { AcceptsLasts(s.q, s1.q, Queued(other).value); }
    if other.Returned? && other.id in s1.life.begun {
      BegunBy(s, p, s1, other.id);
      if Accepts(s.q, other.id) { AcceptsLasts(s.q, s1.q, other.id); }
    }
  }

  lemma AcceptsLasts(q: Queue, q1: Queue, id: nat)
    requires q.accepted <= q1.accepted
    ensures Accepts(q, id) ==> Accepts(q1, id)
  {
    forall i | 0 <= i < |q.accepted| ensures q1.accepted[i] == q.accepted[i] {}
  }

  lemma StepFates(s: State, t: Tid, c: Choice, s1: State)
    requires V2Inv(s) && FateInv(s) && Next(s, Step(t, c)) == Some(s1)
    ensures FateInv(s1)
  {
    hide Inv, TicketInv, Distinct, ThreadCalls, ThreadLife, Fated, StepOut, FlagsInv, OpenInv, CallEffect, LifeChange, IdsInv;
    var p := s.threads[t];
    var o := ThreadOut(s, Step(t, c));
    CallsStep(s.core, t, p, c, o);
    StepLife(s.core, t, p, c, o);
    LifeOnly(s.core, p, o.core, o.pc);
    StepFate(s.core, t, p, c, o);
    forall u | u in s.threads && u != t ensures Fated(o.core, s.threads[u]) {
      OtherCaller(s, t, u);
      OtherFate(s.core, p, t, o.core, o.pc, s.threads[u]);
    }
    forall u | u in s1.threads ensures Fated(s1.core, s1.threads[u]) {}
  }

  lemma LifeOnly(s: Core, p: Pc, s1: Core, p1: Pc)
    requires LifeEffect(s, p, s1, p1)
    ensures LifeChange(s, p, s1)
  {}

  lemma OtherCaller(s: State, t: Tid, u: Tid)
    requires CallInv(s) && t in s.threads && u in s.threads && t != u
    ensures CallerOf(s.threads[t]).Some? ==> CallerOf(s.threads[u]) != CallerOf(s.threads[t])
  {}

  lemma StartFates(s: State, t: Tid, task: Task, s1: State)
    requires FateInv(s) && Next(s, Start(t, task)) == Some(s1)
    ensures FateInv(s1)
  {
    forall u | u in s1.threads ensures Fated(s1.core, s1.threads[u]) {
      if u != t { assert Fated(s.core, s.threads[u]); }
    }
  }

  lemma WriterFates(s: State, e: Event, s1: State)
    requires FullInv(s) && FateInv(s) && (e.Write? || e.WriteFails?) && Next(s, e) == Some(s1)
    ensures FateInv(s1)
  {
    WriterLeavesCalls(s, e, s1);
    forall u | u in s1.threads ensures Fated(s1.core, s1.threads[u]) { assert Fated(s.core, s.threads[u]); }
  }

  // ---- every run ----

  lemma {:induction false} FatesAlways(s: State, es: seq<Event>, s1: State)
    requires V2Inv(s) && FateInv(s) && Exec(s, es) == Some(s1)
    ensures FateInv(s1)
    decreases |es|
  {
    if es != [] {
      var e := es[0];
      var s2 := Next(s, e).value;
      V2Kept(s, e, s2);
      if e.Step? { StepFates(s, e.t, e.c, s2); }
      else if e.Start? { StartFates(s, e.t, e.task, s2); }
      else { WriterFates(s, e, s2); }
      FatesAlways(s2, es[1..], s1);
    }
  }

  lemma FatesOfRun(writerEof: bool, es: seq<Event>, s: State)
    requires Run(V2, writerEof, es, s)
    ensures FateInv(s)
  {
    hide V2Inv, Next;
    V2OfRun(writerEof, [], Init(V2, writerEof));
    FatesAlways(Init(V2, writerEof), es, s);
  }
}
