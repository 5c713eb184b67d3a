/** What a v2 client records is what its peer answered: in every run, the initialization held
    is the one carried by the last successful response to an initialize that was settled. */
module InitializeAnswers {
  import opened ClientLifecycle
  import opened Options
  import opened Connection
  import opened ConnectionDrain
  import opened ConnectionCalls
  import opened ConnectionLifecycle

  /** The response the read loop takes at event k: to a pending call, with this outcome. */
  ghost function Answer(writerEof: bool, es: seq<Event>, k: nat): Option<(nat, Option<nat>)> {
    if k < |es| && es[k].Step? && es[k].t == READER && es[k].c.Reply? && Waiting(writerEof, es[..k], es[k].c.id)
    then Some((es[k].c.id, es[k].c.outcome)) else None
  }

  /** After these events the read loop has a frame in hand, and the call waits for its response. */
  ghost predicate Waiting(writerEof: bool, es: seq<Event>, id: nat) {
    exists s :: Run(V2, writerEof, es, s) && READER in s.threads && s.threads[READER] == RDispatch && id in s.core.calls.pending
  }

  /** A successful response to an initialize that has been settled. */
  ghost predicate Records(writerEof: bool, es: seq<Event>, s: State, k: nat) {
    && Answer(writerEof, es, k).Some?
    && var (id, outcome) := Answer(writerEof, es, k).value;
    outcome.Some? && IsInit(s.core.calls, id) && id in s.core.calls.settled
  }

  ghost predicate LastRecord(writerEof: bool, es: seq<Event>, s: State, k: nat) {
    Records(writerEof, es, s, k) && forall k1: nat :: k < k1 ==> !Records(writerEof, es, s, k1)
  }

  // ---- the invariant ----

  /** The read loop's own places. */
  predicate Reads(p: Pc) {
    || IsRead(p) || (IsQueue(p) && p.job.Answer?) || (IsMarker(p) && p.owner.Flush?)
    || (p.SGuard? && p.reader) || (p.SReply? && p.reader)
  }

  predicate OneReader(s: State) { forall t :: t in s.threads && Reads(s.threads[t]) ==> t == READER }

  ghost predicate LastAnswer(writerEof: bool, es: seq<Event>, k: nat, a: (nat, Option<nat>)) {
    Answer(writerEof, es, k) == Some(a) && forall k1: nat :: k < k1 ==> Answer(writerEof, es, k1).None?
  }

  /** Where a thread at the response guard got what it holds. */
  ghost predicate GuardHolds(writerEof: bool, es: seq<Event>, p: Pc) {
    p.SGuard? ==>
      if p.reader then exists k: nat :: LastAnswer(writerEof, es, k, (p.id, p.outcome))
      else p.outcome.None? && forall k: nat :: Answer(writerEof, es, k).Some? ==> Answer(writerEof, es, k).value.0 != p.id
  }

  ghost predicate AnswersInv(writerEof: bool, es: seq<Event>, s: State) {
    && (forall k: nat :: Answer(writerEof, es, k).Some? ==>
          Known(s.core, Answer(writerEof, es, k).value.0) && Answer(writerEof, es, k).value.0 !in s.core.calls.pending)
    && (forall k: nat, k1: nat :: k < k1 && Answer(writerEof, es, k).Some? && Answer(writerEof, es, k1).Some? ==>
          Answer(writerEof, es, k).value.0 != Answer(writerEof, es, k1).value.0)
    && (forall t :: t in s.threads ==> GuardHolds(writerEof, es, s.threads[t]))
  }

  ghost predicate RecordInv(writerEof: bool, es: seq<Event>, s: State) {
    && (s.core.life.flags.initialized <==> exists k: nat :: Records(writerEof, es, s, k))
    && (forall k: nat :: LastRecord(writerEof, es, s, k) ==> Answer(writerEof, es, k).value.1 == Some(s.core.life.flags.initialization))
  }

  // ---- one step ----

  lemma QueueReads(s: Core, t: Tid, p: Pc, c: Choice, o: Out)
    requires IsQueue(p) && o == QueueNext(s, t, p, c) && o.Out? && Reads(o.pc)
    ensures Reads(p)
  {
    if p.QBuild? { BuildReads(s, p.job, c, o); }
  }

  lemma BuildReads(s: Core, job: Job, c: Choice, o: Out)
    requires o == BuildNext(s, job, c) && o.Out?
    ensures IsQueue(o.pc) && o.pc.job == job
  {}

  lemma CallReads(s: Core, t: Tid, p: Pc, c: Choice, o: Out)
    requires (IsAwait(p) && o == AwaitNext(s, t, p, c)) || (IsCall(p) && o == CallNext(s, p, c))
    requires o.Out? && Reads(o.pc)
    ensures Reads(p)
  {}

  lemma StepReads(s: Core, t: Tid, p: Pc, c: Choice, o: Out)
    requires o == StepOut(s, t, p, c) && o.Out? && Reads(o.pc)
    ensures Reads(p)
  {
    hide QueueNext, AwaitNext, CallNext, ReadNext;
    if IsQueue(p) { QueueReads(s, t, p, c, o); }
    else if IsAwait(p) || IsCall(p) { CallReads(s, t, p, c, o); }
  }

  lemma OneReaderKept(s: State, e: Event, s1: State)
    requires OneReader(s) && Next(s, e) == Some(s1)
    ensures OneReader(s1)
  {
    hide StepOut, Reads, WriteNext, WriteFailsNext, StartOut;
    if e.Step? {
      var o := ThreadOut(s, e);
      if Reads(o.pc) { StepReads(s.core, e.t, s.threads[e.t], e.c, o); }
    } else if e.Start? {
      StartsOutside(s.core, e.task);
    }
  }

  lemma StartsOutside(s: Core, task: Task)
    ensures var o := StartOut(s, task); o.Out? && !Reads(o.pc) && !o.pc.SGuard? && o.core.life == s.life && o.core.calls.settled == s.calls.settled
    ensures var calls := StartOut(s, task).core.calls;
      s.calls.methods <= calls.methods && forall id :: id in calls.pending ==> id in s.calls.pending || id == |s.calls.methods|
  {}

  lemma QueueNoGuard(s: Core, t: Tid, p: Pc, c: Choice, o: Out)
    requires IsQueue(p) && o == QueueNext(s, t, p, c) && o.Out?
    ensures !o.pc.SGuard?
  {
    if p.QBuild? { BuildReads(s, p.job, c, o); }
  }

  lemma AwaitNoGuard(s: Core, t: Tid, p: Pc, c: Choice, o: Out)
    requires IsAwait(p) && o == AwaitNext(s, t, p, c) && o.Out?
    ensures !o.pc.SGuard?
  {}

  /** The response guard is reached with the outcome of the response, or by giving up. */
  lemma GuardReached(s: Core, t: Tid, p: Pc, c: Choice, o: Out)
    requires o == StepOut(s, t, p, c) && o.Out? && o.pc.SGuard?
    ensures o.pc.id in s.calls.pending
    ensures if o.pc.reader then p == RDispatch && c == Reply(o.pc.id, o.pc.outcome) else o.pc.outcome.None?
  {
    hide QueueNext, AwaitNext;
    if IsQueue(p) { QueueNoGuard(s, t, p, c, o); }
    else if IsAwait(p) { AwaitNoGuard(s, t, p, c, o); }
  }

  /** A response taken to a pending call goes to the response guard. */
  lemma AnswerTaken(s: Core, t: Tid, c: Choice, o: Out)
    requires o == StepOut(s, t, RDispatch, c) && o.Out? && c.Reply? && c.id in s.calls.pending
    ensures o.pc == SGuard(c.id, c.outcome, true) && c.id !in o.core.calls.pending
  {}

  /** What else a step changes: pending calls are only added by making one, and the record
      and what is settled only where a call is settled. */
  lemma StepKeeps(s: Core, t: Tid, p: Pc, c: Choice, o: Out)
    requires s.guards.V2? && o == StepOut(s, t, p, c) && o.Out?
    ensures o.core.calls.pending <= s.calls.pending && o.core.calls.methods == s.calls.methods
    ensures p.SGuard? ==> o.core == Settle(s, p.id, p.outcome) && !o.pc.SGuard?
    ensures !p.SGuard? ==> o.core.calls.settled == s.calls.settled && SameRecord(s.life.flags, o.core.life.flags)
    ensures o.pc.SGuard? ==> o.pc.id !in o.core.calls.pending
  {
    StepLife(s, t, p, c, o);
    CallsStep(s, t, p, c, o);
  }

  predicate SameRecord(f: Flags, g: Flags) { g.initialized == f.initialized && g.initialization == f.initialization }

  // ---- one event more ----

  lemma AnswerEarlier(writerEof: bool, es: seq<Event>, k: nat)
    requires es != []
    ensures k < |es| - 1 ==> Answer(writerEof, es, k) == Answer(writerEof, es[..|es| - 1], k)
    ensures k >= |es| - 1 ==> Answer(writerEof, es[..|es| - 1], k).None?
    ensures k >= |es| ==> Answer(writerEof, es, k).None?
  {
    if k < |es| - 1 { assert es[..|es| - 1][..k] == es[..k]; }
  }

  /** Whether the last event is a response taken. */
  lemma AnswerNow(writerEof: bool, es: seq<Event>, s: State)
    requires es != [] && Run(V2, writerEof, es[..|es| - 1], s)
    ensures Answer(writerEof, es, |es| - 1) == (var e := es[|es| - 1];
      if e.Step? && e.t == READER && e.c.Reply? && READER in s.threads && s.threads[READER] == RDispatch && e.c.id in s.core.calls.pending
      then Some((e.c.id, e.c.outcome)) else None)
  {}

  /** A response taken now is to a call no response was taken to before. */
  lemma NewAnswer(writerEof: bool, es: seq<Event>, s: State, s1: State)
    requires es != [] && Run(V2, writerEof, es[..|es| - 1], s) && Next(s, es[|es| - 1]) == Some(s1) && V2Inv(s)
    requires Answer(writerEof, es, |es| - 1).Some?
    ensures var (id, outcome) := Answer(writerEof, es, |es| - 1).value;
      && id in s.core.calls.pending && Known(s.core, id) && id !in s.core.calls.settled && id !in s1.core.calls.pending
      && READER in s1.threads && s1.threads[READER] == SGuard(id, outcome, true)
      && s1.core.calls.settled == s.core.calls.settled
  {
    hide StepOut, Inv, LifeInv, OpenInv, Settle;
    AnswerNow(writerEof, es, s);
    var e := es[|es| - 1];
    AnswerTaken(s.core, READER, e.c, ThreadOut(s, e));
    StepKeeps(s.core, READER, RDispatch, e.c, ThreadOut(s, e));
  }

  /** Calls, and what waits for an answer, over one event of any kind. */
  lemma EventKeeps(s: State, e: Event, s1: State)
    requires V2Inv(s) && Next(s, e) == Some(s1)
    ensures s.core.calls.methods <= s1.core.calls.methods
    ensures forall id :: id in s1.core.calls.pending ==> id in s.core.calls.pending || !Known(s.core, id)
    ensures !(e.Step? && s.threads[e.t].SGuard?) ==>
      s1.core.calls.settled == s.core.calls.settled && SameRecord(s.core.life.flags, s1.core.life.flags)
    ensures forall t :: t in s1.threads && (!(e.Step? || e.Start?) || t != e.t) ==> t in s.threads && s1.threads[t] == s.threads[t]
    ensures e.Start? ==> e.t in s1.threads && !s1.threads[e.t].SGuard?
  {
    hide StepOut, StartOut, WriteNext, WriteFailsNext, Inv, LifeInv, OpenInv, Settle;
    if e.Step? { StepKeeps(s.core, e.t, s.threads[e.t], e.c, ThreadOut(s, e)); }
    else if e.Start? { StartsOutside(s.core, e.task); }
  }

  /** The responses taken stay those of calls no longer pending, each call once. */
  lemma AnswersGone(writerEof: bool, es: seq<Event>, s: State, s1: State, k: nat)
    requires es != [] && Run(V2, writerEof, es[..|es| - 1], s) && Next(s, es[|es| - 1]) == Some(s1) && V2Inv(s)
    requires AnswersInv(writerEof, es[..|es| - 1], s) && Answer(writerEof, es, k).Some?
    ensures var id := Answer(writerEof, es, k).value.0; Known(s1.core, id) && id !in s1.core.calls.pending
    ensures forall k1: nat :: k < k1 && Answer(writerEof, es, k1).Some? ==> Answer(writerEof, es, k).value.0 != Answer(writerEof, es, k1).value.0
  {
    hide V2Inv, Run, Answer, GuardHolds;
    var n := |es| - 1;
    var before := es[..n];
    EventKeeps(s, es[n], s1);
    AnswerEarlier(writerEof, es, k);
    if k == n { NewAnswer(writerEof, es, s, s1); }
    forall k1: nat | k < k1 && Answer(writerEof, es, k1).Some?
      ensures Answer(writerEof, es, k).value.0 != Answer(writerEof, es, k1).value.0
    {
      AnswerEarlier(writerEof, es, k1);
      if k1 == n { NewAnswer(writerEof, es, s, s1); }
    }
  }

  /** What a thread at the response guard holds. */
  lemma GuardKept(writerEof: bool, es: seq<Event>, s: State, s1: State, t: Tid)
    requires es != [] && Run(V2, writerEof, es[..|es| - 1], s) && Next(s, es[|es| - 1]) == Some(s1) && V2Inv(s)
    requires AnswersInv(writerEof, es[..|es| - 1], s) && OneReader(s) && OneReader(s1) && t in s1.threads
    ensures GuardHolds(writerEof, es, s1.threads[t])
  {
    hide V2Inv, Run, Answer, Next;
    var n := |es| - 1;
    var e := es[n];
    EventKeeps(s, e, s1);
    if s1.threads[t].SGuard? {
      if e.Step? && e.t == t {
        GuardEntered(writerEof, es, s, s1, t);
      } else {
        GuardStays(writerEof, es, s, s1, t);
      }
    }
  }

  /** A thread that did not move: while it is the read loop, no response is taken. */
  lemma GuardStays(writerEof: bool, es: seq<Event>, s: State, s1: State, t: Tid)
    requires es != [] && Run(V2, writerEof, es[..|es| - 1], s) && Next(s, es[|es| - 1]) == Some(s1) && V2Inv(s)
    requires AnswersInv(writerEof, es[..|es| - 1], s) && OneReader(s) && t in s.threads && s.threads[t].SGuard?
    ensures GuardHolds(writerEof, es, s.threads[t])
  {
    hide V2Inv, Run, Answer, Next, LastAnswer;
    var n := |es| - 1;
    var before := es[..n];
    var p := s.threads[t];
    assert GuardHolds(writerEof, before, p);
    GuardNotPending(s, t);
    AnswerNow(writerEof, es, s);
    if p.reader {
      var k: nat :| LastAnswer(writerEof, before, k, (p.id, p.outcome));
      assert Answer(writerEof, es, n).None?;
      LastAnswerStays(writerEof, es, k, (p.id, p.outcome));
    } else {
      forall k: nat | Answer(writerEof, es, k).Some? ensures Answer(writerEof, es, k).value.0 != p.id {
        AnswerEarlier(writerEof, es, k);
      }
    }
  }

  lemma GuardNotPending(s: State, t: Tid)
    requires V2Inv(s) && t in s.threads && s.threads[t].SGuard?
    ensures s.threads[t].id !in s.core.calls.pending
  {
    assert ThreadCalls(s.core, s.threads[t]);
  }

  lemma LastAnswerStays(writerEof: bool, es: seq<Event>, k: nat, a: (nat, Option<nat>))
    requires es != [] && LastAnswer(writerEof, es[..|es| - 1], k, a) && Answer(writerEof, es, |es| - 1).None?
    ensures LastAnswer(writerEof, es, k, a)
  {
    hide Answer;
    AnswerEarlier(writerEof, es, k);
    forall k1: nat | k < k1 ensures Answer(writerEof, es, k1).None? { AnswerEarlier(writerEof, es, k1); }
  }

  lemma GuardEntered(writerEof: bool, es: seq<Event>, s: State, s1: State, t: Tid)
    requires es != [] && Run(V2, writerEof, es[..|es| - 1], s) && Next(s, es[|es| - 1]) == Some(s1) && V2Inv(s)
    requires AnswersInv(writerEof, es[..|es| - 1], s) && OneReader(s1) && es[|es| - 1].Step? && es[|es| - 1].t == t
    requires t in s1.threads && s1.threads[t].SGuard?
    ensures GuardHolds(writerEof, es, s1.threads[t])
  {
    hide V2Inv, Run, Answer, StepOut, GuardHolds;
    var n := |es| - 1;
    var e := es[n];
    var p1 := s1.threads[t];
    GuardReached(s.core, t, s.threads[t], e.c, ThreadOut(s, e));
    AnswerNow(writerEof, es, s);
    if p1.reader {
      assert Reads(p1);
      forall k1: nat | n < k1 ensures Answer(writerEof, es, k1).None? { AnswerEarlier(writerEof, es, k1); }
      assert LastAnswer(writerEof, es, n, (p1.id, p1.outcome));
    } else {
      forall k: nat | Answer(writerEof, es, k).Some? ensures Answer(writerEof, es, k).value.0 != p1.id {
        AnswerEarlier(writerEof, es, k);
        if k == n { NewAnswer(writerEof, es, s, s1); }
      }
    }
    HoldsIs(writerEof, es, p1);
  }

  lemma HoldsIs(writerEof: bool, es: seq<Event>, p: Pc)
    requires p.SGuard?
    requires if p.reader then exists k: nat :: LastAnswer(writerEof, es, k, (p.id, p.outcome))
      else p.outcome.None? && forall k: nat :: Answer(writerEof, es, k).Some? ==> Answer(writerEof, es, k).value.0 != p.id
    ensures GuardHolds(writerEof, es, p)
  {}

  lemma AnswersKept(writerEof: bool, es: seq<Event>, s: State, s1: State)
    requires es != [] && Run(V2, writerEof, es[..|es| - 1], s) && Next(s, es[|es| - 1]) == Some(s1) && V2Inv(s)
    requires AnswersInv(writerEof, es[..|es| - 1], s) && OneReader(s) && OneReader(s1)
    ensures AnswersInv(writerEof, es, s1)
  {
    hide V2Inv, Run, Answer, Next, GuardHolds, OneReader;
    forall k: nat | Answer(writerEof, es, k).Some?
      ensures Known(s1.core, Answer(writerEof, es, k).value.0) && Answer(writerEof, es, k).value.0 !in s1.core.calls.pending
      ensures forall k1: nat :: k < k1 && Answer(writerEof, es, k1).Some? ==> Answer(writerEof, es, k).value.0 != Answer(writerEof, es, k1).value.0
    {
      AnswersGone(writerEof, es, s, s1, k);
    }
    forall t | t in s1.threads ensures GuardHolds(writerEof, es, s1.threads[t]) { GuardKept(writerEof, es, s, s1, t); }
  }

  // ---- what is recorded ----

  /** Nothing settled: the same responses are recorded. */
  lemma SameRecords(writerEof: bool, es: seq<Event>, s: State, s1: State, k: nat)
    requires es != [] && Run(V2, writerEof, es[..|es| - 1], s) && Next(s, es[|es| - 1]) == Some(s1) && V2Inv(s)
    requires AnswersInv(writerEof, es[..|es| - 1], s)
    requires !(es[|es| - 1].Step? && s.threads[es[|es| - 1].t].SGuard?)
    ensures Records(writerEof, es, s1, k) <==> Records(writerEof, es[..|es| - 1], s, k)
  {
    hide V2Inv, Run, Answer, Next, GuardHolds;
    var n := |es| - 1;
    EventKeeps(s, es[n], s1);
    AnswerEarlier(writerEof, es, k);
    if k == n && Answer(writerEof, es, n).Some? { NewAnswer(writerEof, es, s, s1); }
    if k < n && Answer(writerEof, es, k).Some? { KnownInit(s.core, s1.core, Answer(writerEof, es, k).value.0); }
  }

  lemma KnownInit(s: Core, s1: Core, id: nat)
    requires Known(s, id) && s.calls.methods <= s1.calls.methods
    ensures IsInit(s1.calls, id) == IsInit(s.calls, id)
  {}

  /** A call settled: only a response to it can be recorded now. */
  lemma SettledRecords(writerEof: bool, es: seq<Event>, s: State, s1: State, k: nat)
    requires es != [] && Run(V2, writerEof, es[..|es| - 1], s) && Next(s, es[|es| - 1]) == Some(s1) && V2Inv(s)
    requires es[|es| - 1].Step? && s.threads[es[|es| - 1].t].SGuard?
    ensures var p := s.threads[es[|es| - 1].t]; var a := Answer(writerEof, es[..|es| - 1], k);
      Records(writerEof, es, s1, k) <==>
        Records(writerEof, es[..|es| - 1], s, k) || (a.Some? && a.value.0 == p.id && a.value.1.Some? && IsInit(s.core.calls, p.id))
  {
    hide V2Inv, Run, Answer, StepOut, Settle;
    var n := |es| - 1;
    var e := es[n];
    V2Guards(s);
    StepKeeps(s.core, e.t, s.threads[e.t], e.c, ThreadOut(s, e));
    SettleSettles(s.core, s.threads[e.t].id, s.threads[e.t].outcome);
    AnswerEarlier(writerEof, es, k);
    AnswerNow(writerEof, es, s);
  }

  lemma SettleSettles(s: Core, id: nat, outcome: Option<nat>)
    ensures var s1 := Settle(s, id, outcome);
      && s1.calls == s.calls.(settled := s.calls.settled + {id})
      && (if s.guards.V2? && IsInit(s.calls, id) && outcome.Some? then s1.life.flags == Flags(true, false, true, outcome.value)
          else SameRecord(s.life.flags, s1.life.flags))
  {}

  lemma RecordKept(writerEof: bool, es: seq<Event>, s: State, s1: State)
    requires es != [] && Run(V2, writerEof, es[..|es| - 1], s) && Next(s, es[|es| - 1]) == Some(s1) && V2Inv(s)
    requires AnswersInv(writerEof, es[..|es| - 1], s) && RecordInv(writerEof, es[..|es| - 1], s)
    ensures RecordInv(writerEof, es, s1)
  {
    hide V2Inv, Run, Answer, StepOut, StartOut, WriteNext, WriteFailsNext, GuardHolds, Records, AnswersInv;
    var e := es[|es| - 1];
    if e.Step? && s.threads[e.t].SGuard? {
      RecordSettled(writerEof, es, s, s1, e.t);
    } else {
      EventKeeps(s, e, s1);
      forall k: nat ensures Records(writerEof, es, s1, k) <==> Records(writerEof, es[..|es| - 1], s, k) {
        SameRecords(writerEof, es, s, s1, k);
      }
      RecordsCarry(writerEof, es, s, s1);
    }
  }

  /** The same responses recorded, and the same record. */
  lemma RecordsCarry(writerEof: bool, es: seq<Event>, s: State, s1: State)
    requires es != [] && RecordInv(writerEof, es[..|es| - 1], s) && SameRecord(s.core.life.flags, s1.core.life.flags)
    requires forall k: nat :: Records(writerEof, es, s1, k) <==> Records(writerEof, es[..|es| - 1], s, k)
    ensures RecordInv(writerEof, es, s1)
  {
    hide Records, Answer;
    var before := es[..|es| - 1];
    forall k: nat | LastRecord(writerEof, es, s1, k)
      ensures RecordedHas(writerEof, es, k) && Answer(writerEof, es, k).value.1 == Some(s1.core.life.flags.initialization)
    {
      forall k1: nat | k < k1 ensures !Records(writerEof, before, s, k1) { assert !Records(writerEof, es, s1, k1); }
      assert LastRecord(writerEof, before, s, k);
      RecordedAnswer(writerEof, es, s1, k);
      RecordedAnswer(writerEof, before, s, k);
      AnswerEarlier(writerEof, es, k);
    }
    if k: nat :| Records(writerEof, before, s, k) { assert Records(writerEof, es, s1, k); }
    if k: nat :| Records(writerEof, es, s1, k) { assert Records(writerEof, before, s, k); }
  }

  ghost predicate RecordedHas(writerEof: bool, es: seq<Event>, k: nat) { Answer(writerEof, es, k).Some? && Answer(writerEof, es, k).value.1.Some? }

  lemma RecordedAnswer(writerEof: bool, es: seq<Event>, s: State, k: nat)
    requires Records(writerEof, es, s, k)
    ensures RecordedHas(writerEof, es, k)
  {}

  lemma RecordSettled(writerEof: bool, es: seq<Event>, s: State, s1: State, t: Tid)
    requires es != [] && Run(V2, writerEof, es[..|es| - 1], s) && Next(s, es[|es| - 1]) == Some(s1) && V2Inv(s)
    requires AnswersInv(writerEof, es[..|es| - 1], s) && RecordInv(writerEof, es[..|es| - 1], s)
    requires es[|es| - 1].Step? && es[|es| - 1].t == t && s.threads[t].SGuard?
    ensures RecordInv(writerEof, es, s1)
  {
    hide V2Inv, Run, Answer, StepOut, Records, Settle, LastAnswer, RecordInv;
    var before := es[..|es| - 1];
    var p := s.threads[t];
    V2Guards(s);
    StepKeeps(s.core, t, p, es[|es| - 1].c, ThreadOut(s, es[|es| - 1]));
    SettleSettles(s.core, p.id, p.outcome);
    assert GuardHolds(writerEof, before, p);
    if p.reader {
      var k: nat :| LastAnswer(writerEof, before, k, (p.id, p.outcome));
      RecordAnswered(writerEof, es, s, s1, t, k);
    } else {
      forall k: nat ensures Records(writerEof, es, s1, k) <==> Records(writerEof, before, s, k) { SettledRecords(writerEof, es, s, s1, k); }
      RecordsCarry(writerEof, es, s, s1);
    }
  }

  lemma V2Guards(s: State)
    requires V2Inv(s)
    ensures s.core.guards.V2?
  {}

  /** The read loop settles a call with the last response taken, event k. */
  lemma RecordAnswered(writerEof: bool, es: seq<Event>, s: State, s1: State, t: Tid, k: nat)
    requires es != [] && Run(V2, writerEof, es[..|es| - 1], s) && Next(s, es[|es| - 1]) == Some(s1) && V2Inv(s)
    requires AnswersInv(writerEof, es[..|es| - 1], s) && RecordInv(writerEof, es[..|es| - 1], s)
    requires es[|es| - 1].Step? && es[|es| - 1].t == t && s.threads[t].SGuard?
    requires LastAnswer(writerEof, es[..|es| - 1], k, (s.threads[t].id, s.threads[t].outcome))
    requires var p := s.threads[t];
      if IsInit(s.core.calls, p.id) && p.outcome.Some? then s1.core.life.flags == Flags(true, false, true, p.outcome.value)
      else SameRecord(s.core.life.flags, s1.core.life.flags)
    ensures RecordInv(writerEof, es, s1)
  {
    hide V2Inv, Run, Answer, StepOut, Records, RecordInv;
    var before := es[..|es| - 1];
    var p := s.threads[t];
    var now := IsInit(s.core.calls, p.id) && p.outcome.Some?;
    forall k1: nat ensures Records(writerEof, es, s1, k1) <==> Records(writerEof, before, s, k1) || (now && k1 == k) {
      SettledRecords(writerEof, es, s, s1, k1);
      OneAnswer(writerEof, before, s, k, k1);
    }
    if now {
      forall k1: nat | k < k1 ensures !Records(writerEof, before, s, k1) { NotAnswered(writerEof, before, s, k1); }
      AnswerEarlier(writerEof, es, k);
      NewRecord(writerEof, es, s1, k);
    } else {
      RecordsCarry(writerEof, es, s, s1);
    }
  }

  lemma OneAnswer(writerEof: bool, es: seq<Event>, s: State, k: nat, k1: nat)
    requires AnswersInv(writerEof, es, s) && Answer(writerEof, es, k).Some?
    ensures var a := Answer(writerEof, es, k1); a.Some? && a.value.0 == Answer(writerEof, es, k).value.0 ==> k1 == k
  {
    hide Answer;
  }

  lemma NotAnswered(writerEof: bool, es: seq<Event>, s: State, k: nat)
    requires Answer(writerEof, es, k).None?
    ensures !Records(writerEof, es, s, k)
  {}

  /** The last record is now event k, and its outcome is what the client holds. */
  lemma NewRecord(writerEof: bool, es: seq<Event>, s: State, k: nat)
    requires Records(writerEof, es, s, k) && forall k1: nat :: k < k1 ==> !Records(writerEof, es, s, k1)
    requires Answer(writerEof, es, k).Some? && s.core.life.flags.initialized
    requires Answer(writerEof, es, k).value.1 == Some(s.core.life.flags.initialization)
    ensures RecordInv(writerEof, es, s)
  {
    hide Answer, Records;
    forall k1: nat | LastRecord(writerEof, es, s, k1) ensures k1 == k {}
  }

  // ---- every run ----

  lemma {:induction false} AnswersOfRun(writerEof: bool, es: seq<Event>, s: State)
    requires Run(V2, writerEof, es, s)
    ensures V2Inv(s) && OneReader(s) && AnswersInv(writerEof, es, s) && RecordInv(writerEof, es, s)
    decreases |es|
  {
    hide V2Inv, Next, Answer, OneReader, AnswersInv, RecordInv;
    V2OfRun(writerEof, es, s);
    if es == [] {
      NoneYet(writerEof, s);
    } else {
      var before := es[..|es| - 1];
      var s0 := LastEvent(V2, writerEof, es, s);
      AnswersOfRun(writerEof, before, s0);
      OneReaderKept(s0, es[|es| - 1], s);
      AnswersKept(writerEof, es, s0, s);
      RecordKept(writerEof, es, s0, s);
    }
  }

  lemma NoneYet(writerEof: bool, s: State)
    requires s == Init(V2, writerEof)
    ensures OneReader(s) && AnswersInv(writerEof, [], s) && RecordInv(writerEof, [], s)
  {}

  /** In every run: the client is initialized exactly if a successful response to an initialize
      was taken and settled, and it holds the initialization the last one carried. */
  lemma RecordedIsAnswered(writerEof: bool, es: seq<Event>, s: State)
    requires Run(V2, writerEof, es, s)
    ensures s.core.life.flags.initialized <==> exists k: nat :: Records(writerEof, es, s, k)
    ensures forall k: nat :: LastRecord(writerEof, es, s, k) ==>
      k < |es| && es[k].Step? && es[k].c.Reply? && es[k].c.outcome == Some(s.core.life.flags.initialization)
  {
    hide V2Inv, AnswersInv;
    AnswersOfRun(writerEof, es, s);
  }

  // ---- and answers can be recorded ----

  lemma AnswerStep(s: State, id: nat, outcome: Option<nat>)
    requires READER in s.threads && s.threads[READER] == RDispatch && id in s.core.calls.pending && PeerHas(s.core.q, id)
    ensures Next(s, Step(READER, Reply(id, outcome))) == Some(State(Take(s.core, id), s.threads[READER := SGuard(id, outcome, true)]))
  {}

  lemma GuardStep(s: State, id: nat, outcome: Option<nat>)
    requires READER in s.threads && s.threads[READER] == SGuard(id, outcome, true) && s.core.guards.V2? && IsInit(s.core.calls, id)
    ensures var s1 := Next(s, Step(READER, Go)); var f := s.core.life.flags;
      && s1.Some? && id in s1.value.core.calls.settled
      && match outcome {
           case Some(v) => s1.value.core.life.flags == Flags(true, false, true, v)
           case None => s1.value.core.life.flags == Flags(f.initialized, false, f.initialized, f.initialization)
         }
  {}

  /** Wherever the read loop has a frame in hand, the response to a pending initialize its peer
      has is taken, and its next step records it: the value, or a failure that keeps a repeat
      possible if there was a success before. */
  lemma AnswerIsRecorded(writerEof: bool, es: seq<Event>, s: State, id: nat, outcome: Option<nat>)
    requires Run(V2, writerEof, es, s) && READER in s.threads && s.threads[READER] == RDispatch
    requires id in s.core.calls.pending && IsInit(s.core.calls, id) && PeerHas(s.core.q, id)
    ensures var s1 := Exec(s, [Step(READER, Reply(id, outcome)), Step(READER, Go)]); var f := s.core.life.flags;
      && s1.Some? && id in s1.value.core.calls.settled
      && match outcome {
           case Some(v) => s1.value.core.life.flags == Flags(true, false, true, v)
           case None => s1.value.core.life.flags == Flags(f.initialized, false, f.initialized, f.initialization)
         }
  {
    hide Inv, Next, PeerHas, Exec;
    InvOfRun(V2, writerEof, es, s);
    AnswerStep(s, id, outcome);
    GuardStep(Next(s, Step(READER, Reply(id, outcome))).value, id, outcome);
    ExecTwo(s, Step(READER, Reply(id, outcome)), Step(READER, Go));
  }

  lemma ThenV2(writerEof: bool, es: seq<Event>, s: State, e: Event) returns (es1: seq<Event>, s1: State)
    requires Run(V2, writerEof, es, s) && Next(s, e).Some?
    ensures Run(V2, writerEof, es1, s1) && Next(s, e) == Some(s1)
  {
    ExecThen(Init(V2, writerEof), es, e);
    es1, s1 := es + [e], Next(s, e).value;
  }

  /** A fresh client with one initialize under way. */
  predicate Underway(s: State, pc: Pc, items: seq<Item>, enqueuing: nat) {
    && s.core.guards.V2? && s.threads == map[READER := RRead, 1 := pc]
    && s.core.calls == Calls([InitializeCall], {0}, {}, {}) && s.core.life.flags == NO_FLAGS
    && s.core.q.reason.None? && !s.core.q.sealed && s.core.q.writer.WIdle? && s.core.q.written == []
    && s.core.q.items == items && s.core.q.enqueuing == enqueuing && s.core.q.tickets == 0
  }

  lemma InitializeLocked(writerEof: bool) returns (es: seq<Event>, s: State)
    ensures Run(V2, writerEof, es, s) && Underway(s, QAdmit(Call(0)), [], 0)
  {
    es, s := [], Init(V2, writerEof);
    es, s := ThenV2(writerEof, es, s, Start(1, DoCall(InitializeCall)));
    es, s := ThenV2(writerEof, es, s, Step(1, Go));
    es, s := ThenV2(writerEof, es, s, Step(1, Go));
  }

  lemma InitializeQueued(writerEof: bool) returns (es: seq<Event>, s: State)
    ensures Run(V2, writerEof, es, s) && s.threads == map[READER := RRead, 1 := QDone(Call(0), Sent)]
    ensures s.core.q.items == [Data(Frame(1, Call(0), Some(0)))] && s.core.q.writer.WIdle? && s.core.q.written == [] && !s.core.q.sealed
    ensures 0 in s.core.calls.pending && IsInit(s.core.calls, 0)
  {
    es, s := InitializeLocked(writerEof);
    es, s := ThenV2(writerEof, es, s, Step(1, Go));
    es, s := ThenV2(writerEof, es, s, Step(1, Go));
    es, s := ThenV2(writerEof, es, s, Step(1, Go));
  }

  lemma InitializeSent(writerEof: bool) returns (es: seq<Event>, s: State)
    ensures Run(V2, writerEof, es, s) && READER in s.threads && s.threads[READER] == RDispatch
    ensures 0 in s.core.calls.pending && IsInit(s.core.calls, 0) && PeerHas(s.core.q, 0)
  {
    es, s := InitializeQueued(writerEof);
    es, s := ThenV2(writerEof, es, s, Write(Go));
    BegunFrame(s.core.q);
    es, s := ThenV2(writerEof, es, s, Step(READER, Go));
    es, s := ThenV2(writerEof, es, s, Step(READER, Go));
  }

  lemma BegunFrame(q: Queue)
    requires q.writer == WWriting(Frame(1, Call(0), Some(0))) && q.written == []
    ensures PeerHas(q, 0)
  {
    assert (q.written + Inflight(q.writer))[0].job == Call(0);
  }

  /** A handshake can succeed: for every initialization there is a run that records it. */
  lemma HandshakeCanSucceed(writerEof: bool, v: nat) returns (es: seq<Event>, s: State)
    ensures Run(V2, writerEof, es, s) && s.core.life.flags == Flags(true, false, true, v)
  {
    hide Next;
    var es0, s0 := InitializeSent(writerEof);
    AnswerIsRecorded(writerEof, es0, s0, 0, Some(v));
    var last := [Step(READER, Reply(0, Some(v))), Step(READER, Go)];
    ExecJoin(Init(V2, writerEof), es0, last);
    es, s := es0 + last, Exec(s0, last).value;
  }

  // ---- nothing else before ----

  /** A notification that is no cancellation, or a request other than initialize. */
  predicate NeedsInitialized(calls: Calls, job: Job) { job == Notify(false) || (job.Call? && !IsInit(calls, job.id)) }

  predicate IsRequest(calls: Calls, job: Job) { job.Call? && !IsInit(calls, job.id) }

  ghost predicate NothingEarly(s: State) {
    && (forall i :: 0 <= i < |s.core.q.accepted| && NeedsInitialized(s.core.calls, s.core.q.accepted[i].job) ==> s.core.life.flags.initialized)
    && (forall t :: t in s.threads && (s.threads[t].QClose? || s.threads[t].QSend?) && NeedsInitialized(s.core.calls, s.threads[t].job)
          ==> s.core.life.flags.initialized)
    && (forall i :: 0 <= i < |s.core.q.accepted| && IsRequest(s.core.calls, s.core.q.accepted[i].job) ==> s.core.life.requestAdmitted)
    && (forall t :: t in s.threads && s.threads[t].QSend? && IsRequest(s.core.calls, s.threads[t].job) ==> s.core.life.requestAdmitted)
  }

  /** Where the guard admits a message, spelled out on the client's flags. */
  lemma AdmittedExactly(s: Core, job: Job, c: Choice)
    requires s.guards.V2? && (job.Call? || job.Notify?) && (c.Go? || c.Unsendable?)
    ensures var f := s.life.flags; var o := BuildNext(s, job, c);
      && o.Out?
      && (job == Notify(false) ==> (o.pc == QDone(job, Refused) <==> !f.initialized || f.initializing))
      && (job == Notify(true) ==> (o.pc == QDone(job, Refused) <==> !f.initialized && !f.initializing))
      && (job.Call? && !IsInit(s.calls, job.id) ==> (o.pc == QDone(job, Refused) <==> !f.initialized || f.initializing))
      && (job.Call? && IsInit(s.calls, job.id) ==> (o.pc == QDone(job, Refused) <==> f.initializing || (f.initialized && !f.repeatable)))
  {}

  lemma EarlyStep(s: Core, t: Tid, p: Pc, c: Choice, o: Out)
    requires s.guards.V2? && o == StepOut(s, t, p, c) && o.Out? && (o.pc.QClose? || o.pc.QSend?)
    ensures NeedsInitialized(s.calls, o.pc.job) ==> s.life.flags.initialized || ((p.QClose? || p.QSend?) && p.job == o.pc.job)
    ensures o.pc.QSend? && IsRequest(s.calls, o.pc.job) ==> o.core.life.requestAdmitted || (p.QSend? && p.job == o.pc.job)
  {
    hide StepOut, NeedsInitialized, IsRequest;
    if !IsQueue(p) { StepOutside(s, t, p, c, o); } else { QueueEarly(s, t, p, c, o); }
  }

  lemma QueueEarly(s: Core, t: Tid, p: Pc, c: Choice, o: Out)
    requires s.guards.V2? && IsQueue(p) && o == StepOut(s, t, p, c) && o.Out? && (o.pc.QClose? || o.pc.QSend?)
    ensures NeedsInitialized(s.calls, o.pc.job) ==> s.life.flags.initialized || ((p.QClose? || p.QSend?) && p.job == o.pc.job)
    ensures o.pc.QSend? && IsRequest(s.calls, o.pc.job) ==> o.core.life.requestAdmitted || (p.QSend? && p.job == o.pc.job)
  {
    if p.QBuild? { BuildEarly(s, p.job, c, o); }
  }

  lemma BuildEarly(s: Core, job: Job, c: Choice, o: Out)
    requires s.guards.V2? && o == BuildNext(s, job, c) && o.Out? && (o.pc.QClose? || o.pc.QSend?)
    ensures o.pc.job == job && (NeedsInitialized(s.calls, job) ==> s.life.flags.initialized)
    ensures o.pc.QSend? ==> !IsRequest(s.calls, job)
  {}

  lemma AcceptedIs(s: Core, t: Tid, p: Pc, c: Choice, o: Out)
    requires o == StepOut(s, t, p, c) && o.Out?
    ensures o.core.q.accepted == s.q.accepted || (p.QSend? && o.core.q.accepted == s.q.accepted + [Frame(t, p.job, p.ticket)])
  {
    hide StepOut;
    TicketStep(s, t, p, c, o);
  }

  lemma InitializedStays(s: Core, t: Tid, p: Pc, c: Choice, o: Out)
    requires s.guards.V2? && o == StepOut(s, t, p, c) && o.Out?
    ensures s.life.flags.initialized ==> o.core.life.flags.initialized
    ensures s.life.requestAdmitted ==> o.core.life.requestAdmitted
  {
    hide StepOut;
    StepKeeps(s, t, p, c, o);
    StepLife(s, t, p, c, o);
  }

  lemma NothingEarlyKept(s: State, e: Event, s1: State)
    requires V2Inv(s) && NothingEarly(s) && Next(s, e) == Some(s1)
    ensures NothingEarly(s1)
  {
    hide StepOut, StartOut, Inv, LifeInv, OpenInv;
    if e.Step? {
      var o := ThreadOut(s, e);
      var p := s.threads[e.t];
      StepKeeps(s.core, e.t, p, e.c, o);
      InitializedStays(s.core, e.t, p, e.c, o);
      AcceptedIs(s.core, e.t, p, e.c, o);
      if o.pc.QClose? || o.pc.QSend? { EarlyStep(s.core, e.t, p, e.c, o); }
    } else if e.Start? {
      StartEarly(s, e.t, e.task);
    } else {
      WriterLeavesCalls(s, e, s1);
    }
  }

  lemma StartEarly(s: State, t: Tid, task: Task)
    requires V2Inv(s) && NothingEarly(s) && t !in s.threads
    ensures var o := StartOut(s.core, task); o.Out? && NothingEarly(State(o.core, s.threads[t := o.pc]))
  {
    hide Inv, LifeInv, OpenInv;
    var o := StartOut(s.core, task);
    forall u | u in s.threads && (s.threads[u].QClose? || s.threads[u].QSend?)
      ensures NeedsInitialized(o.core.calls, s.threads[u].job) == NeedsInitialized(s.core.calls, s.threads[u].job)
      ensures IsRequest(o.core.calls, s.threads[u].job) == IsRequest(s.core.calls, s.threads[u].job)
    {
      assert ThreadCalls(s.core, s.threads[u]);
    }
  }

  lemma {:induction false} NothingEarlyAlways(s: State, es: seq<Event>, s1: State)
    requires V2Inv(s) && NothingEarly(s) && Exec(s, es) == Some(s1)
    ensures NothingEarly(s1)
    decreases |es|
  {
    hide V2Inv, NothingEarly, Next;
    if es != [] {
      var s2 := Next(s, es[0]).value;
      NothingEarlyKept(s, es[0], s2);
      V2Kept(s, es[0], s2);
      NothingEarlyAlways(s2, es[1..], s1);
    }
  }

  /** In every run: no request but initialize, and no notification but a cancellation, is queued
      before an initialize succeeded; and once such a request is queued the window for repeating
      an initialize has closed, for good. */
  lemma NothingBeforeInitialize(writerEof: bool, es: seq<Event>, s: State, i: nat)
    requires Run(V2, writerEof, es, s) && i < |s.core.q.accepted| && NeedsInitialized(s.core.calls, s.core.q.accepted[i].job)
    ensures s.core.life.flags.initialized
    ensures IsRequest(s.core.calls, s.core.q.accepted[i].job) ==> s.core.life.requestAdmitted && !s.core.life.flags.repeatable
  {
    hide V2Inv;
    V2OfRun(writerEof, es, s);
    WindowClosed(s);
    V2OfRun(writerEof, [], Init(V2, writerEof));
    NothingEarlyAlways(Init(V2, writerEof), es, s);
  }

  lemma WindowClosed(s: State)
    requires V2Inv(s)
    ensures s.core.life.requestAdmitted ==> !s.core.life.flags.repeatable
  {}
}
