/** What Shutdown returns (connection.go): a completed drain ends it in nil, whatever the
    other goroutines do, unless the close fails; an error always has a cause among its own
    steps; and from a quiet connection it can complete. */
module ShutdownResults {
  import opened Options
  import opened Connection
  import opened ConnectionDrain

  // ---- a completed drain ----

  /** After the drain, two steps of the caller alone return nil, or the close's error. */
  lemma DrainedReturns(s: State, t: Tid, c: Choice, c1: Choice)
    requires s.core.q.drained && t in s.threads && (s.threads[t] == HWait || s.threads[t] == HDrained) && (c.Go? || c.No?)
    ensures var s1 := Exec(s, [Step(t, c), Step(t, c1)]);
      s1.Some? && t in s1.value.threads && s1.value.threads[t] == HDone(if c.No? then Error else Nil)
  {
    hide Next;
    DrainSeen(s, t, c);
    var s1 := Next(s, Step(t, c)).value;
    CloseReturns(s1, t, c1);
    ExecTwo(s, Step(t, c), Step(t, c1));
  }

  lemma DrainSeen(s: State, t: Tid, c: Choice)
    requires s.core.q.drained && t in s.threads && (s.threads[t] == HWait || s.threads[t] == HDrained) && (c.Go? || c.No?)
    ensures Next(s, Step(t, c)) == Some(State(s.core, s.threads[t := HClose(if c.No? then Error else Nil)]))
  {}

  lemma CloseReturns(s: State, t: Tid, c: Choice)
    requires t in s.threads && s.threads[t].HClose?
    ensures var s1 := Next(s, Step(t, c)); s1.Some? && s1.value.threads == s.threads[t := HDone(s.threads[t].result)]
  {}

  /** How many steps a Shutdown past its wait still takes, at most. */
  function StepsLeft(pc: Pc): nat { if pc == HWait then 3 else if pc == HDrained then 2 else if pc.HClose? then 1 else 0 }

  /** On the way to returning nil. */
  predicate Succeeding(pc: Pc) { pc == HWait || pc == HDrained || pc == HClose(Nil) || pc == HDone(Nil) }

  function OwnSteps(es: seq<Event>, t: Tid): nat {
    if es == [] then 0 else (if es[0].Step? && es[0].t == t then 1 else 0) + OwnSteps(es[1..], t)
  }

  lemma DrainedStays(s: State, e: Event, s1: State)
    requires s.core.q.drained && Next(s, e) == Some(s1)
    ensures s1.core.q.drained
  {
    if e.Start? || e.Step? { ThreadEffect(s, e); }
  }

  lemma SucceedsStep(s: State, e: Event, s1: State, t: Tid)
    requires s.core.q.drained && t in s.threads && Succeeding(s.threads[t]) && Next(s, e) == Some(s1)
    requires e.Step? && e.t == t ==> !e.c.No?
    ensures t in s1.threads && Succeeding(s1.threads[t])
    ensures StepsLeft(s1.threads[t]) + (if e.Step? && e.t == t then 1 else 0) <= StepsLeft(s.threads[t])
  {}

  /** Once the drain is complete, a Shutdown waiting for it returns nil whatever the other
      goroutines do and whenever its context ends, if its close does not fail. */
  lemma {:induction false} DrainedSucceeds(s: State, es: seq<Event>, s1: State, t: Tid)
    requires s.core.q.drained && t in s.threads && Succeeding(s.threads[t]) && Exec(s, es) == Some(s1)
    requires forall k :: 0 <= k < |es| && es[k].Step? && es[k].t == t ==> !es[k].c.No?
    ensures t in s1.threads && Succeeding(s1.threads[t]) && (OwnSteps(es, t) >= 3 ==> s1.threads[t] == HDone(Nil))
    ensures StepsLeft(s1.threads[t]) + OwnSteps(es, t) <= StepsLeft(s.threads[t])
    decreases |es|
  {
    hide Next, Succeeding;
    if es != [] {
      var s2 := Next(s, es[0]).value;
      DrainedStays(s, es[0], s2);
      SucceedsStep(s, es[0], s2, t);
      DrainedSucceeds(s2, es[1..], s1, t);
    }
    NoStepsLeft(s1.threads[t]);
  }

  lemma NoStepsLeft(pc: Pc)
    requires Succeeding(pc)
    ensures StepsLeft(pc) == 0 ==> pc == HDone(Nil)
    ensures StepsLeft(pc) <= 3
  {}

  // ---- why it returned an error ----

  /** Thread t is a call of Shutdown. */
  ghost predicate CallsShutdown(es: seq<Event>, t: Tid) { exists k :: 0 <= k < |es| && es[k] == Start(t, DoShutdown) }

  predicate OfShutdown(pc: Pc) {
    || pc.HStart? || pc.HSeal? || pc.HWait? || pc.HDrained? || pc.HStopped? || pc.HErr? || pc.HClose? || pc.HDone?
    || (IsMarker(pc) && pc.owner == Shut)
  }

  predicate Failing(pc: Pc) { pc == HStopped || pc == HErr || pc == HClose(Error) || pc == HDone(Error) }

  /** At its k-th event the run excuses t: its context ended before it began, its close
      failed, or it stopped waiting and found the drain incomplete. */
  ghost predicate Excuses(guards: Guards, writerEof: bool, es: seq<Event>, k: nat, t: Tid) {
    k < |es| && es[k].Step? && es[k].t == t &&
    exists s :: Run(guards, writerEof, es[..k], s) && t in s.threads && Excused(s, s.threads[t], es[k].c)
  }

  predicate Excused(s: State, pc: Pc, c: Choice) {
    || (pc == HStart && c == CtxEnds)
    || ((pc == HWait || pc == HDrained) && s.core.q.drained && c == No)
    || (pc == HDrained && !s.core.q.drained)
  }

  lemma OwnStep(s: Core, t: Tid, pc: Pc, c: Choice, o: Out)
    requires OfShutdown(pc) && o == StepOut(s, t, pc, c) && o.Out?
    ensures OfShutdown(o.pc)
    ensures Failing(o.pc) ==> Failing(pc) || Excused(State(s, map[t := pc]), pc, c)
  {}

  lemma OneStep(s: State, e: Event, s1: State, t: Tid)
    requires Next(s, e) == Some(s1) && t in s.threads && OfShutdown(s.threads[t])
    ensures t in s1.threads && OfShutdown(s1.threads[t])
    ensures Failing(s1.threads[t]) ==> Failing(s.threads[t]) || (e.Step? && e.t == t && Excused(s, s.threads[t], e.c))
  {
    hide StepOut, StartOut, WriteNext, WriteFailsNext, OfShutdown, Failing;
    if e.Step? && e.t == t { OwnStep(s.core, t, s.threads[t], e.c, ThreadOut(s, e)); }
  }

  lemma {:induction false} KeepsExcuse(guards: Guards, writerEof: bool, es: seq<Event>, k: nat, t: Tid)
    requires es != [] && Excuses(guards, writerEof, es[..|es| - 1], k, t)
    ensures Excuses(guards, writerEof, es, k, t)
  {
    assert es[..|es| - 1][..k] == es[..k];
  }

  /** Every Shutdown that failed has a cause, in every run. */
  lemma {:induction false} ErrorIsExcused(guards: Guards, writerEof: bool, es: seq<Event>, s: State, t: Tid)
    requires Run(guards, writerEof, es, s) && CallsShutdown(es, t)
    ensures t in s.threads && OfShutdown(s.threads[t])
    ensures Failing(s.threads[t]) ==> exists k: nat :: Excuses(guards, writerEof, es, k, t)
    decreases |es|
  {
    hide Next, OfShutdown, Failing, Excused, Exec;
    var n := |es| - 1;
    var s0 := LastEvent(guards, writerEof, es, s);
    var before := es[..n];
    if CallsShutdown(before, t) {
      ErrorIsExcused(guards, writerEof, before, s0, t);
      OneStep(s0, es[n], s, t);
      if Failing(s.threads[t]) {
        if Failing(s0.threads[t]) {
          var k: nat :| Excuses(guards, writerEof, before, k, t);
          KeepsExcuse(guards, writerEof, es, k, t);
        } else {
          assert Excuses(guards, writerEof, es, n, t);
        }
      }
    } else {
      StartedLast(es, t);
      StartsOnce(s0, es[n], s, t);
    }
  }

  lemma StartedLast(es: seq<Event>, t: Tid)
    requires es != [] && CallsShutdown(es, t) && !CallsShutdown(es[..|es| - 1], t)
    ensures es[|es| - 1] == Start(t, DoShutdown)
  {
    var before := es[..|es| - 1];
    forall k | 0 <= k < |es| - 1 ensures es[k] != Start(t, DoShutdown) { assert before[k] == es[k]; }
  }

  lemma StartsOnce(s: State, e: Event, s1: State, t: Tid)
    requires Next(s, e) == Some(s1) && e == Start(t, DoShutdown)
    ensures t in s1.threads && s1.threads[t] == HStart && OfShutdown(HStart) && !Failing(HStart)
  {}

  /** Its context had ended when it began, or its close failed after the drain. */
  ghost predicate Doomed(guards: Guards, writerEof: bool, es: seq<Event>, k: nat, t: Tid) {
    k < |es| && es[k].Step? && es[k].t == t &&
    exists s :: Run(guards, writerEof, es[..k], s) && t in s.threads &&
      ((s.threads[t] == HStart && es[k].c == CtxEnds)
       || ((s.threads[t] == HWait || s.threads[t] == HDrained) && s.core.q.drained && es[k].c == No))
  }

  lemma DoomedStep(s: State, e: Event, s1: State, t: Tid)
    requires Next(s, e) == Some(s1) && e.Step? && e.t == t && t in s.threads
    requires (s.threads[t] == HStart && e.c == CtxEnds)
      || ((s.threads[t] == HWait || s.threads[t] == HDrained) && s.core.q.drained && e.c == No)
    ensures t in s1.threads && s1.threads[t] == HClose(Error) && s1.core == s.core
  {}

  lemma ClosingStays(s: State, e: Event, s1: State, t: Tid)
    requires Next(s, e) == Some(s1) && t in s.threads && (s.threads[t] == HClose(Error) || s.threads[t] == HDone(Error))
    ensures t in s1.threads && (s1.threads[t] == HClose(Error) || s1.threads[t] == HDone(Error))
  {}

  lemma DoomedEarlier(guards: Guards, writerEof: bool, es: seq<Event>, k: nat, t: Tid)
    requires es != [] && k < |es| - 1 && Doomed(guards, writerEof, es, k, t)
    ensures Doomed(guards, writerEof, es[..|es| - 1], k, t)
  {
    assert es[..|es| - 1][..k] == es[..k];
  }

  /** Those two causes always make it fail. */
  lemma {:induction false} DoomedFails(guards: Guards, writerEof: bool, es: seq<Event>, s: State, k: nat, t: Tid)
    requires Run(guards, writerEof, es, s) && Doomed(guards, writerEof, es, k, t)
    ensures t in s.threads && (s.threads[t] == HClose(Error) || s.threads[t] == HDone(Error))
    decreases |es|
  {
    hide Next, Exec, Doomed;
    DoomedWithin(guards, writerEof, es, k, t);
    var n := |es| - 1;
    var s0 := LastEvent(guards, writerEof, es, s);
    if k == n {
      DoomedNow(guards, writerEof, es, s0, s, t);
    } else {
      DoomedEarlier(guards, writerEof, es, k, t);
      DoomedFails(guards, writerEof, es[..n], s0, k, t);
      ClosingStays(s0, es[n], s, t);
    }
  }

  lemma DoomedWithin(guards: Guards, writerEof: bool, es: seq<Event>, k: nat, t: Tid)
    requires Doomed(guards, writerEof, es, k, t)
    ensures k < |es|
  {}

  lemma DoomedNow(guards: Guards, writerEof: bool, es: seq<Event>, s: State, s1: State, t: Tid)
    requires es != [] && Run(guards, writerEof, es[..|es| - 1], s) && Next(s, es[|es| - 1]) == Some(s1)
    requires Doomed(guards, writerEof, es, |es| - 1, t)
    ensures t in s1.threads && s1.threads[t] == HClose(Error) && s1.core == s.core
  {
    hide Next, Exec;
    DoomedStep(s, es[|es| - 1], s1, t);
  }

  // ---- what it leaves ----

  ghost predicate StoppedInv(s: State) { forall t :: t in s.threads && s.threads[t].HDone? ==> s.core.q.reason.Some? }

  lemma StoppedStep(s: Core, t: Tid, p: Pc, c: Choice, o: Out)
    requires o == StepOut(s, t, p, c) && o.Out? && o.pc.HDone?
    ensures o.core.q.reason.Some?
  {
    hide QueueNext, AwaitNext, CallNext, ReadNext, MarkerNext;
    if IsQueue(p) || IsAwait(p) || IsCall(p) || IsRead(p) || IsMarker(p) { NotDone(s, t, p, c, o); }
  }

  lemma NotDone(s: Core, t: Tid, p: Pc, c: Choice, o: Out)
    requires IsQueue(p) || IsAwait(p) || IsCall(p) || IsRead(p) || IsMarker(p)
    requires o == StepOut(s, t, p, c) && o.Out?
    ensures !o.pc.HDone?
  {
    if IsQueue(p) { QueueNotDone(s, t, p, c, o); }
  }

  lemma QueueNotDone(s: Core, t: Tid, p: Pc, c: Choice, o: Out)
    requires IsQueue(p) && o == QueueNext(s, t, p, c) && o.Out?
    ensures !o.pc.HDone?
  {
    if p.QBuild? { BuildLeavesQueue(s, p.job, c, o); }
  }

  lemma StoppedKept(s: State, e: Event, s1: State)
    requires Inv(s) && StoppedInv(s) && Next(s, e) == Some(s1)
    ensures StoppedInv(s1)
  {
    hide StepOut, Inv;
    if e.Step? {
      var o := ThreadOut(s, e);
      ThreadEffect(s, e);
      if o.pc.HDone? { StoppedStep(s.core, e.t, s.threads[e.t], e.c, o); }
    } else if !e.Start? {
      WriterReason(s, e, s1);
    }
  }

  lemma WriterReason(s: State, e: Event, s1: State)
    requires (e.Write? || e.WriteFails?) && Next(s, e) == Some(s1)
    ensures s.core.q.reason.Some? ==> s1.core.q.reason.Some?
  {}

  lemma {:induction false} StoppedAlways(s: State, es: seq<Event>, s1: State)
    requires Inv(s) && StoppedInv(s) && Exec(s, es) == Some(s1)
    ensures StoppedInv(s1)
    decreases |es|
  {
    hide Inv, StoppedInv, Next;
    if es != [] {
      var s2 := Next(s, es[0]).value;
      StoppedKept(s, es[0], s2);
      InvKept(s, es[0], s2);
      StoppedAlways(s2, es[1..], s1);
    }
  }

  /** Once a Shutdown or a Close has returned, whatever its result, the connection has stopped. */
  lemma ReturnedMeansStopped(guards: Guards, writerEof: bool, es: seq<Event>, s: State, t: Tid)
    requires Run(guards, writerEof, es, s) && t in s.threads && s.threads[t].HDone?
    ensures s.core.q.reason.Some?
  {
    hide Inv;
    InvAtStart(guards, writerEof);
    StoppedAlways(Init(guards, writerEof), es, s);
  }

  /** Close stops the connection at once, and changes nothing else. */
  lemma CloseStops(s: State, t: Tid, c: Choice)
    requires t !in s.threads
    ensures var s1 := Exec(s, [Start(t, DoClose), Step(t, c)]);
      && s1.Some? && t in s1.value.threads && s1.value.threads[t].HDone?
      && s1.value.core == s.core.(q := s.core.q.(reason := if s.core.q.reason.Some? then s.core.q.reason else Some(ClosedPipe)))
  {
    ExecTwo(s, Start(t, DoClose), Step(t, c));
  }

  /** So does an input that fails; only one that ends cleanly is flushed. */
  lemma ReadErrorStops(s: State, c: Choice)
    requires READER in s.threads && s.threads[READER] == RRead
    ensures var s1 := Exec(s, [Step(READER, No), Step(READER, c)]);
      && s1.Some? && READER in s1.value.threads && s1.value.threads[READER] == Exit
      && s1.value.core == s.core.(q := s.core.q.(reason := if s.core.q.reason.Some? then s.core.q.reason else Some(ReadError)))
  {
    ExecTwo(s, Step(READER, No), Step(READER, c));
  }

  // ---- it can complete ----

  /** Nothing is being queued, and the write loop runs. */
  predicate QuietQueue(q: Queue) {
    !q.sealed && q.reason.None? && q.enqueuing == 0 && q.lock.None? && (q.writer.WIdle? || q.writer.WWriting?)
  }

  ghost predicate Quiet(s: State) { Inv(s) && QuietQueue(s.core.q) }

  /** How many steps the write loop needs for what is queued. */
  function ToWrite(q: Queue): nat { 2 * |q.items| + |Inflight(q.writer)| }

  lemma WritesOne(s: State)
    requires Quiet(s) && (s.core.q.items != [] || s.core.q.writer.WWriting?)
    ensures var s1 := Next(s, Write(Go));
      && s1.Some? && Quiet(s1.value) && s1.value.threads == s.threads && s1.value.core.q.accepted == s.core.q.accepted
      && ToWrite(s1.value.core.q) < ToWrite(s.core.q)
  {
    hide Inv;
    InvParts(s);
    InvKept(s, Write(Go), Next(s, Write(Go)).value);
  }

  lemma InvParts(s: State)
    requires Inv(s)
    ensures !s.core.q.sealed ==> NoMarker(s.core.q.items)
    ensures s.core.q.drained ==> s.core.q.written == s.core.q.accepted && s.core.q.sealed
  {}

  /** The write loop alone writes everything queued. */
  lemma {:induction false} Flushes(s: State) returns (es: seq<Event>, s1: State)
    requires Quiet(s)
    ensures Exec(s, es) == Some(s1) && Quiet(s1) && s1.core.q.items == [] && s1.core.q.writer.WIdle?
    ensures s1.threads == s.threads && s1.core.q.accepted == s.core.q.accepted
    decreases ToWrite(s.core.q)
  {
    hide Next, Inv;
    es, s1 := [], s;
    if s.core.q.items != [] || s.core.q.writer.WWriting? {
      WritesOne(s);
      es, s1 := Flushes(Next(s, Write(Go)).value);
      ExecCons(s, Write(Go), es);
      es := [Write(Go)] + es;
    }
  }

  /** On the way from its start to its wait, nobody else doing anything. */
  predicate Undisturbed(s: State, t: Tid, pc: Pc) {
    var q := s.core.q;
    && t in s.threads && s.threads[t] == pc
    && q.reason.None? && q.enqueuing == 0 && q.writer.WIdle? && !q.drained
    && (q.sealed <==> pc != HStart && pc != HSeal)
    && q.items == (if pc == MRelease(Shut) || pc == HWait then [Marker] else [])
    && (pc != MSend(Shut) && pc != MRelease(Shut) ==> q.lock.None?)
  }

  function After(pc: Pc): Pc {
    match pc
    case HStart => HSeal
    case HSeal => MWait(Shut)
    case MWait(o) => MLock(o)
    case MLock(o) => MSend(o)
    case MSend(o) => MRelease(o)
    case _ => HWait
  }

  function Distance(pc: Pc): nat {
    if pc == HStart then 6 else if pc == HSeal then 5 else if pc == MWait(Shut) then 4 else if pc == MLock(Shut) then 3
    else if pc == MSend(Shut) then 2 else if pc == MRelease(Shut) then 1 else if pc == HWait then 0 else 7
  }

  lemma Nearer(pc: Pc)
    requires Distance(pc) <= 6
    ensures if Distance(pc) == 0 then pc == HWait else Distance(After(pc)) == Distance(pc) - 1
  {}

  predicate LockFree(s: Core) { Guarded(s.guards) || s.q.lock.None? }

  lemma MarkerMoves(s: State, t: Tid, pc: Pc)
    requires Undisturbed(s, t, pc) && LockFree(s.core) && IsMarker(pc) && pc.owner == Shut
    ensures var o := MarkerNext(s.core, t, pc, Go);
      && o.Out? && o.pc == After(pc) && Undisturbed(State(o.core, s.threads[t := o.pc]), t, o.pc)
      && o.core.q.accepted == s.core.q.accepted && LockFree(o.core)
  {}

  lemma StartMoves(s: State, t: Tid, pc: Pc)
    requires Undisturbed(s, t, pc) && LockFree(s.core) && (pc == HStart || pc == HSeal)
    ensures var o := ShutdownNext(s.core, t, pc, Go);
      && o.Out? && o.pc == After(pc) && Undisturbed(State(o.core, s.threads[t := o.pc]), t, o.pc)
      && o.core.q.accepted == s.core.q.accepted && LockFree(o.core)
  {}

  lemma MovesOn(s: State, t: Tid, pc: Pc)
    requires Undisturbed(s, t, pc) && LockFree(s.core) && 0 < Distance(pc) <= 6
    ensures var s1 := Next(s, Step(t, Go));
      s1.Some? && Undisturbed(s1.value, t, After(pc)) && s1.value.core.q.accepted == s.core.q.accepted && LockFree(s1.value.core)
  {
    hide Undisturbed, MarkerNext, ShutdownNext, QueueNext, AwaitNext, CallNext, ReadNext, After, LockFree;
    Waits(s, t, pc);
    if IsMarker(pc) { MarkerMoves(s, t, pc); } else { StartMoves(s, t, pc); }
  }

  lemma Waits(s: State, t: Tid, pc: Pc)
    requires Undisturbed(s, t, pc)
    ensures t in s.threads && s.threads[t] == pc
  {}

  lemma {:induction false} ReachesWait(s: State, t: Tid, pc: Pc, n: nat) returns (es: seq<Event>, s1: State)
    requires Undisturbed(s, t, pc) && n == Distance(pc) && n <= 6 && LockFree(s.core)
    ensures Exec(s, es) == Some(s1) && Undisturbed(s1, t, HWait) && s1.core.q.accepted == s.core.q.accepted
    decreases n
  {
    hide Next, Undisturbed, LockFree, Distance, After;
    es, s1 := [], s;
    Nearer(pc);
    if n > 0 {
      MovesOn(s, t, pc);
      es, s1 := ReachesWait(Next(s, Step(t, Go)).value, t, After(pc), n - 1);
      ExecCons(s, Step(t, Go), es);
      es := [Step(t, Go)] + es;
    }
  }

  lemma ReachesMarker(s: State, t: Tid)
    requires Undisturbed(s, t, HWait)
    ensures var s1 := Next(s, Write(Go));
      s1.Some? && s1.value.core.q.drained && s1.value.threads == s.threads && s1.value.core.q.accepted == s.core.q.accepted
  {}

  lemma Begins(s: State, t: Tid)
    requires Quiet(s) && s.core.q.items == [] && s.core.q.writer.WIdle? && t !in s.threads
    ensures var s1 := Next(s, Start(t, DoShutdown)); s1.Some? && Undisturbed(s1.value, t, HStart) && s1.value.core.q == s.core.q
  {
    hide Inv;
    InvParts(s);
  }

  /** From any reachable state in which nothing is being queued and the write loop runs, a
      call of Shutdown can return nil, everything accepted having been written. */
  lemma ShutdownCanComplete(guards: Guards, writerEof: bool, before: seq<Event>, s: State, t: Tid) returns (es: seq<Event>, s1: State)
    requires Run(guards, writerEof, before, s) && QuietQueue(s.core.q) && t !in s.threads
    ensures Exec(s, es) == Some(s1) && t in s1.threads && s1.threads[t] == HDone(Nil)
    ensures s1.core.q.drained && s1.core.q.accepted == s.core.q.accepted && s1.core.q.written == s.core.q.accepted
  {
    hide Next, Exec, Inv, Undisturbed;
    InvOfRun(guards, writerEof, before, s);
    var flush, s2 := Flushes(s);
    Begins(s2, t);
    var s3 := Next(s2, Start(t, DoShutdown)).value;
    var moves, s4 := ReachesWait(s3, t, HStart, 6);
    ReachesMarker(s4, t);
    var s5 := Next(s4, Write(Go)).value;
    Waits(s4, t, HWait);
    DrainedReturns(s5, t, Go, Go);
    s1 := Exec(s5, [Step(t, Go), Step(t, Go)]).value;
    ExecCons(s4, Write(Go), [Step(t, Go), Step(t, Go)]);
    var last := [Write(Go)] + [Step(t, Go), Step(t, Go)];
    ExecJoin(s3, moves, last);
    ExecCons(s2, Start(t, DoShutdown), moves + last);
    ExecJoin(s, flush, [Start(t, DoShutdown)] + (moves + last));
    es := flush + ([Start(t, DoShutdown)] + (moves + last));
    InvAlways(s, es, s1);
    InvParts(s1);
    TwoSteps(s5, t, s1);
  }

  lemma TwoSteps(s: State, t: Tid, s1: State)
    requires s.core.q.drained && Exec(s, [Step(t, Go), Step(t, Go)]) == Some(s1) && t in s.threads && s.threads[t] == HWait
    ensures s1.core.q.drained && s1.core.q.accepted == s.core.q.accepted
  {
    hide Next;
    DrainSeen(s, t, Go);
    ExecTwo(s, Step(t, Go), Step(t, Go));
    var s2 := Next(s, Step(t, Go)).value;
    CloseKeeps(s2, t);
  }

  lemma CloseKeeps(s: State, t: Tid)
    requires t in s.threads && s.threads[t].HClose?
    ensures var s1 := Next(s, Step(t, Go)); s1.Some? && s1.value.core.q.drained == s.core.q.drained && s1.value.core.q.accepted == s.core.q.accepted
  {}
}
