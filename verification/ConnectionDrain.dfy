/** Drain completeness of the connection: in every run, at most one drain marker is
    queued, no frame is queued behind it, and once it is reached every frame ever accepted
    into the queue has been written, once and in queue order. */
module ConnectionDrain {
  import opened Options
  import opened Connection

  // ---- what one step of a thread does to the queue ----

  /** Between admitFrame and enqueuing.Done. */
  predicate Registered(pc: Pc) { pc.QBuild? || pc.QClose? || pc.QSend? || pc.QDone? }

  /** Between lockSend and release. */
  predicate Holding(pc: Pc) {
    pc.QAdmit? || Registered(pc) || pc.QRelease? || pc.MSend? || pc.MRelease?
  }

  /** On the way to queueing the marker. */
  predicate Draining(pc: Pc) { pc.MWait? || pc.MLock? || pc.MSend? }

  predicate ReturnsNil(pc: Pc) { pc == HClose(Nil) || pc == HDone(Nil) }

  predicate LockEffect(s: Core, p: Pc, t: Tid, s1: Core, p1: Pc) {
    || (s1.q.lock == s.q.lock && (Guarded(s.guards) ==> Holding(p1) == Holding(p)))
    || (Guarded(s.guards) && s.q.lock.None? && s1.q.lock == Some(t) && Holding(p1) && !Holding(p))
    || (Guarded(s.guards) && s1.q.lock.None? && Holding(p) && !Holding(p1))
  }

  predicate CountEffect(s: Core, p: Pc, s1: Core, p1: Pc) {
    || (s1.q.enqueuing == s.q.enqueuing && Registered(p1) == Registered(p))
    || (s1.q.enqueuing == s.q.enqueuing + 1 && Registered(p1) && !Registered(p) && !s.q.sealed)
    || (s1.q.enqueuing == s.q.enqueuing - 1 && !Registered(p1) && Registered(p))
  }

  predicate SealEffect(s: Core, p: Pc, t: Tid, s1: Core, p1: Pc) {
    if p1.MWait? && !p.MWait? then !s.q.sealed && s1.q.sealed && s1.q.sealer == Some(t)
    else
      && s1.q.sealed == s.q.sealed && s1.q.sealer == s.q.sealer
      && (p1.MLock? ==> p.MLock? || (p.MWait? && s.q.enqueuing == 0))
      && (p1.MSend? ==> p.MSend? || p.MLock?)
  }

  ghost predicate QueueEffect(s: Core, p: Pc, s1: Core, p1: Pc) {
    || (s1.q.items == s.q.items && s1.q.accepted == s.q.accepted && s1.q.markers == s.q.markers)
    || (exists f :: s1.q.items == s.q.items + [Data(f)] && s1.q.accepted == s.q.accepted + [f] && s1.q.markers == s.q.markers && Registered(p))
    || (s1.q.items == s.q.items + [Marker] && s1.q.accepted == s.q.accepted && s1.q.markers == s.q.markers + 1 && p.MSend? && p1.MRelease?)
  }

  predicate StopEffect(s: Core, p: Pc, s1: Core, p1: Pc) {
    && (s1.q.reason == s.q.reason || (s.q.reason.None? && s1.q.reason.Some? && (s1.q.reason == Some(Eof) ==> p == RStop(Eof))))
    && (p1 == RStop(Eof) ==> p == RStop(Eof) || s.q.drained || s.q.reason.Some?)
    && (ReturnsNil(p1) ==> ReturnsNil(p) || s.q.drained || s.q.reason == Some(Eof))
  }

  predicate FixedEffect(s: Core, s1: Core) {
    && s1.guards == s.guards && s1.writerEof == s.writerEof
    && s1.q.writer == s.q.writer && s1.q.written == s.q.written && s1.q.drained == s.q.drained
  }

  /** A step of thread t from p to p1, seen by the queue. */
  ghost predicate Effect(s: Core, p: Pc, t: Tid, s1: Core, p1: Pc) {
    && FixedEffect(s, s1)
    && LockEffect(s, p, t, s1, p1) && CountEffect(s, p, s1, p1) && SealEffect(s, p, t, s1, p1)
    && QueueEffect(s, p, s1, p1) && StopEffect(s, p, s1, p1)
  }

  /** Building a frame leaves the queue alone but for the ticket drawn. */
  lemma BuildLeavesQueue(s: Core, job: Job, c: Choice, o: Out)
    requires o == BuildNext(s, job, c) && o.Out?
    ensures o.core.q == s.q.(tickets := o.core.q.tickets) && o.core.guards == s.guards && o.core.writerEof == s.writerEof
    ensures o.pc.QClose? || o.pc.QSend? || o.pc.QDone?
  {}

  lemma BuildEffect(s: Core, t: Tid, job: Job, c: Choice, o: Out)
    requires o == BuildNext(s, job, c) && o.Out?
    ensures Effect(s, QBuild(job), t, o.core, o.pc)
  {
    BuildLeavesQueue(s, job, c, o);
  }

  lemma QueueStepEffect(s: Core, t: Tid, p: Pc, c: Choice, o: Out)
    requires IsQueue(p) && o == QueueNext(s, t, p, c) && o.Out?
    ensures Effect(s, p, t, o.core, o.pc)
  {
    if p.QBuild? {
      BuildEffect(s, t, p.job, c, o);
    }
  }

  lemma AwaitStepEffect(s: Core, t: Tid, p: Pc, c: Choice, o: Out)
    requires IsAwait(p) && o == AwaitNext(s, t, p, c) && o.Out?
    ensures Effect(s, p, t, o.core, o.pc)
  {}

  lemma CallStepEffect(s: Core, t: Tid, p: Pc, c: Choice, o: Out)
    requires IsCall(p) && o == CallNext(s, p, c) && o.Out?
    ensures Effect(s, p, t, o.core, o.pc)
  {}

  lemma ReadStepEffect(s: Core, t: Tid, p: Pc, c: Choice, o: Out)
    requires IsRead(p) && o == ReadNext(s, t, p, c) && o.Out?
    ensures Effect(s, p, t, o.core, o.pc)
  {}

  lemma MarkerStepEffect(s: Core, t: Tid, p: Pc, c: Choice, o: Out)
    requires IsMarker(p) && o == MarkerNext(s, t, p, c) && o.Out?
    ensures Effect(s, p, t, o.core, o.pc)
  {}

  lemma ShutdownStepEffect(s: Core, t: Tid, p: Pc, c: Choice, o: Out)
    requires o == ShutdownNext(s, t, p, c) && o.Out?
    ensures Effect(s, p, t, o.core, o.pc)
  {}

  lemma ThreadEffect(s: State, e: Event)
    requires (e.Start? || e.Step?) && ThreadOut(s, e).Out?
    ensures Effect(s.core, PcOf(s, e.t), e.t, ThreadOut(s, e).core, ThreadOut(s, e).pc)
  {
    var o := ThreadOut(s, e);
    if e.Step? {
      var p := s.threads[e.t];
      if IsQueue(p) { QueueStepEffect(s.core, e.t, p, e.c, o); }
      else if IsAwait(p) { AwaitStepEffect(s.core, e.t, p, e.c, o); }
      else if IsCall(p) { CallStepEffect(s.core, e.t, p, e.c, o); }
      else if IsRead(p) { ReadStepEffect(s.core, e.t, p, e.c, o); }
      else if IsMarker(p) { MarkerStepEffect(s.core, e.t, p, e.c, o); }
      else { ShutdownStepEffect(s.core, e.t, p, e.c, o); }
    }
  }

  // ---- invariants ----

  function PcOf(s: State, t: Tid): Pc { if t in s.threads then s.threads[t] else Exit }

  function Senders(threads: map<Tid, Pc>): set<Tid> { set t | t in threads && Registered(threads[t]) }

  /** Where frames are ordered, the send lock is held by exactly the one thread inside its
      section; elsewhere it is not used. */
  ghost predicate LockInv(s: State) {
    && (Guarded(s.core.guards) ==> forall t :: t in s.threads && Holding(s.threads[t]) ==> s.core.q.lock == Some(t))
    && (s.core.q.lock.Some? ==> s.core.q.lock.value in s.threads && Holding(s.threads[s.core.q.lock.value]))
    && (!Guarded(s.core.guards) ==> s.core.q.lock.None?)
  }

  /** The WaitGroup counts the senders between admitFrame and Done. */
  ghost predicate CountInv(s: State) { s.core.q.enqueuing == |Senders(s.threads)| }

  /** Only the thread that sealed the queue may queue a marker, at most once, and only when
      no registered sender is left. */
  ghost predicate SealInv(s: State) {
    var q := s.core.q;
    && (q.sealed <==> q.sealer.Some?)
    && (forall t | t in s.threads && Draining(s.threads[t]) :: q.sealer == Some(t) && q.markers == 0)
    && (forall t | t in s.threads && Draining(s.threads[t]) && !s.threads[t].MWait? :: q.enqueuing == 0)
    && (q.markers > 0 ==> q.markers == 1 && q.sealed && q.enqueuing == 0)
  }

  function Frames(items: seq<Item>): seq<Frame> {
    if items == [] then [] else (if items[0].Data? then [items[0].frame] else []) + Frames(items[1..])
  }

  predicate NoMarker(items: seq<Item>) { forall i :: 0 <= i < |items| ==> items[i].Data? }

  /** Accepted frames are those written, then the one being written, then those queued, in
      order; the marker, once queued, stays last; past it nothing is left. */
  ghost predicate QueueInv(q: Queue) {
    && q.accepted == q.written + Inflight(q.writer) + Frames(q.items)
    && (q.markers == 0 ==> NoMarker(q.items) && !q.drained)
    && (q.markers > 0 && !q.drained ==> |q.items| > 0 && q.items[|q.items| - 1].Marker? && forall i :: 0 <= i < |q.items| - 1 ==> q.items[i].Data?)
    && (q.drained ==> q.items == [] && q.writer.WExit?)
  }

  /** io.EOF is the stop reason of a completed flush, or of an output stream that fails
      with io.EOF itself. */
  ghost predicate StopInv(s: State) {
    var q := s.core.q;
    && (forall t :: t in s.threads && s.threads[t] == RStop(Eof) ==> q.drained || q.reason.Some?)
    && (q.writer.WFailed? && q.writer.error.Eof? ==> s.core.writerEof)
    && (q.reason == Some(Eof) ==> q.drained || (s.core.writerEof && q.writer.WDead?))
    && (forall t :: t in s.threads && ReturnsNil(s.threads[t]) ==> q.drained || q.reason == Some(Eof))
  }

  ghost predicate Inv(s: State) { LockInv(s) && CountInv(s) && SealInv(s) && QueueInv(s.core.q) && StopInv(s) }

  // ---- each invariant is kept by every step ----

  lemma SendersMove(threads: map<Tid, Pc>, t: Tid, pc: Pc)
    ensures Senders(threads[t := pc]) == if Registered(pc) then Senders(threads) + {t} else Senders(threads) - {t}
  {}

  lemma CountKept(s: State, t: Tid, o: Out)
    requires CountInv(s) && o.Out? && CountEffect(s.core, PcOf(s, t), o.core, o.pc)
    ensures CountInv(State(o.core, s.threads[t := o.pc]))
  {
    SendersMove(s.threads, t, o.pc);
    assert t in Senders(s.threads) <==> Registered(PcOf(s, t));
  }

  lemma LockKept(s: State, t: Tid, o: Out)
    requires LockInv(s) && o.Out? && FixedEffect(s.core, o.core) && LockEffect(s.core, PcOf(s, t), t, o.core, o.pc)
    ensures LockInv(State(o.core, s.threads[t := o.pc]))
  {}

  lemma SealKept(s: State, t: Tid, o: Out)
    requires Inv(s) && o.Out? && Effect(s.core, PcOf(s, t), t, o.core, o.pc)
    ensures SealInv(State(o.core, s.threads[t := o.pc]))
  {
    assert t in Senders(s.threads) <==> Registered(PcOf(s, t));
  }

  lemma {:induction false} FramesAppend(items: seq<Item>, x: Item)
    ensures Frames(items + [x]) == Frames(items) + if x.Data? then [x.frame] else []
  {
    if items == [] {
      assert [] + [x] == [x];
    } else {
      FramesAppend(items[1..], x);
      assert (items + [x])[1..] == items[1..] + [x];
    }
  }

  lemma QueueKept(s: State, t: Tid, o: Out)
    requires Inv(s) && o.Out? && Effect(s.core, PcOf(s, t), t, o.core, o.pc)
    ensures QueueInv(o.core.q)
  {
    var q, q1 := s.core.q, o.core.q;
    assert t in Senders(s.threads) <==> Registered(PcOf(s, t));
    if q1.items != q.items {
      var x := q1.items[|q.items|];
      assert q1.items == q.items + [x];
      FramesAppend(q.items, x);
      assert q.markers == 0;
      assert q1.items[..|q1.items| - 1] == q.items;
    }
  }

  lemma StopKept(s: State, t: Tid, o: Out)
    requires Inv(s) && o.Out? && Effect(s.core, PcOf(s, t), t, o.core, o.pc)
    ensures StopInv(State(o.core, s.threads[t := o.pc]))
  {}

  /** A step of the write loop, seen by everything but the queue's contents. */
  predicate WriterEffect(q: Queue, q1: Queue, writerEof: bool) {
    && q1.sealed == q.sealed && q1.sealer == q.sealer && q1.enqueuing == q.enqueuing && q1.lock == q.lock
    && q1.markers == q.markers && q1.accepted == q.accepted && q1.tickets == q.tickets
    && (q.drained ==> q1.drained) && (q.reason.Some? ==> q1.reason == q.reason)
    && (q1.reason == Some(Eof) && q.reason.None? ==> writerEof && q1.writer.WDead?)
    && (q.writer.WDead? ==> q1.writer.WDead?)
    && (q1.writer.WFailed? && q1.writer.error.Eof? ==> writerEof)
  }

  lemma WriterStep(q: Queue, c: Choice, q1: Queue, writerEof: bool)
    requires QueueInv(q) && (q.writer.WFailed? && q.writer.error.Eof? ==> writerEof)
    requires WriteNext(q, c) == Some(q1)
    ensures QueueInv(q1) && WriterEffect(q, q1, writerEof)
  {
    if q.writer.WIdle? && !c.ConnEnds? {
      assert q.items == [q.items[0]] + q.items[1..];
      if q.items[0].Marker? {
        assert |q.items| == 1;
      }
    }
  }

  lemma WriterKept(s: State, e: Event, s1: State)
    requires Inv(s) && (e.Write? || e.WriteFails?) && Next(s, e) == Some(s1)
    ensures Inv(s1)
  {
    if e.Write? {
      WriterStep(s.core.q, e.c, s1.core.q, s.core.writerEof);
    }
    assert WriterEffect(s.core.q, s1.core.q, s.core.writerEof);
  }

  lemma InvKept(s: State, e: Event, s1: State)
    requires Inv(s) && Next(s, e) == Some(s1)
    ensures Inv(s1)
  {
    if e.Start? || e.Step? {
      var o := ThreadOut(s, e);
      ThreadEffect(s, e);
      CountKept(s, e.t, o);
      LockKept(s, e.t, o);
      SealKept(s, e.t, o);
      QueueKept(s, e.t, o);
      StopKept(s, e.t, o);
    } else {
      WriterKept(s, e, s1);
    }
  }

  lemma InvAtStart(guards: Guards, writerEof: bool)
    ensures Inv(Init(guards, writerEof))
  {
    assert Senders(Init(guards, writerEof).threads) == {};
  }

  lemma {:induction false} InvAlways(s: State, es: seq<Event>, s1: State)
    requires Inv(s) && Exec(s, es) == Some(s1)
    ensures Inv(s1)
    decreases |es|
  {
    if es != [] {
      var s2 := Next(s, es[0]).value;
      InvKept(s, es[0], s2);
      InvAlways(s2, es[1..], s1);
    }
  }

  /** A run from a fresh connection. */
  ghost predicate Run(guards: Guards, writerEof: bool, es: seq<Event>, s: State) {
    Exec(Init(guards, writerEof), es) == Some(s)
  }

  lemma InvOfRun(guards: Guards, writerEof: bool, es: seq<Event>, s: State)
    requires Run(guards, writerEof, es, s)
    ensures Inv(s) && s.core.guards == guards && s.core.writerEof == writerEof
  {
    InvAtStart(guards, writerEof);
    InvAlways(Init(guards, writerEof), es, s);
    Fixed(Init(guards, writerEof), es, s);
  }

  lemma {:induction false} Fixed(s: State, es: seq<Event>, s1: State)
    requires Inv(s) && Exec(s, es) == Some(s1)
    ensures s1.core.guards == s.core.guards && s1.core.writerEof == s.core.writerEof
    decreases |es|
  {
    if es != [] {
      var s2 := Next(s, es[0]).value;
      if es[0].Start? || es[0].Step? { ThreadEffect(s, es[0]); }
      InvKept(s, es[0], s2);
      Fixed(s2, es[1..], s1);
    }
  }

  // ---- the guarantees ----

  /** At most one marker is ever queued, and no frame is ever queued behind it. */
  lemma OneMarkerLast(guards: Guards, writerEof: bool, es: seq<Event>, s: State)
    requires Run(guards, writerEof, es, s)
    ensures s.core.q.markers <= 1
    ensures forall i :: 0 <= i < |s.core.q.items| && s.core.q.items[i].Marker? ==> i == |s.core.q.items| - 1
  {
    InvOfRun(guards, writerEof, es, s);
  }

  /** Once the marker is reached, what was accepted into the queue is exactly what was
      written, in the same order and as many times. */
  lemma DrainIsComplete(guards: Guards, writerEof: bool, es: seq<Event>, s: State)
    requires Run(guards, writerEof, es, s) && s.core.q.drained
    ensures s.core.q.written == s.core.q.accepted && s.core.q.items == []
  {
    InvOfRun(guards, writerEof, es, s);
  }

  lemma {:induction false} FixedAfterMarker(s: State, es: seq<Event>, s1: State)
    requires Inv(s) && s.core.q.markers == 1 && Exec(s, es) == Some(s1)
    ensures s1.core.q.accepted == s.core.q.accepted && s1.core.q.markers == 1
    ensures s.core.q.drained ==> s1.core.q.drained && s1.core.q.written == s.core.q.written
    decreases |es|
  {
    if es != [] {
      var e := es[0];
      var s2 := Next(s, e).value;
      InvKept(s, e, s2);
      if e.Start? || e.Step? {
        ThreadEffect(s, e);
        assert e.t in Senders(s.threads) <==> Registered(PcOf(s, e.t));
      }
      FixedAfterMarker(s2, es[1..], s1);
    }
  }

  /** ... and it stays so: once a marker is queued nothing more is accepted, whatever
      happens later, and once it is reached nothing more is written. */
  lemma NothingAfterMarker(guards: Guards, writerEof: bool, es: seq<Event>, s: State, later: seq<Event>, s1: State)
    requires Run(guards, writerEof, es, s) && s.core.q.markers == 1 && Exec(s, later) == Some(s1)
    ensures s1.core.q.accepted == s.core.q.accepted
    ensures s.core.q.drained ==> s1.core.q.drained && s1.core.q.written == s.core.q.written
  {
    InvOfRun(guards, writerEof, es, s);
    FixedAfterMarker(s, later, s1);
  }

  /** Shutdown reports success only for a completed drain, or when the output stream
      itself failed with io.EOF, which the code cannot tell from a finished flush. */
  lemma NilShutdownDrained(guards: Guards, writerEof: bool, es: seq<Event>, s: State, t: Tid)
    requires Run(guards, writerEof, es, s) && t in s.threads && ReturnsNil(s.threads[t])
    ensures
      || (s.core.q.drained && s.core.q.written == s.core.q.accepted)
      || (writerEof && s.core.q.reason == Some(Eof) && s.core.q.writer.WDead?)
  {
    InvOfRun(guards, writerEof, es, s);
  }

  lemma {:induction false} ExecThen(s: State, es: seq<Event>, e: Event)
    requires Exec(s, es).Some?
    ensures Exec(s, es + [e]) == Next(Exec(s, es).value, e)
    decreases |es|
  {
    if es == [] {
      assert [] + [e] == [e];
    } else {
      ExecThen(Next(s, es[0]).value, es[1..], e);
      assert (es + [e])[0] == es[0] && (es + [e])[1..] == es[1..] + [e];
    }
  }

  lemma {:induction false} ExecPrefix(s: State, es: seq<Event>, n: nat)
    requires Exec(s, es).Some? && n <= |es|
    ensures Exec(s, es[..n]).Some? && Exec(Exec(s, es[..n]).value, es[n..]) == Exec(s, es)
    decreases n
  {
    if n == 0 {
      assert es[..0] == [] && es[0..] == es;
    } else {
      ExecPrefix(Next(s, es[0]).value, es[1..], n - 1);
      assert es[..n][0] == es[0] && es[..n][1..] == es[1..][..n - 1] && es[1..][n - 1..] == es[n..];
    }
  }

  /** The last event of a run, and the run before it. */
  lemma LastEvent(guards: Guards, writerEof: bool, es: seq<Event>, s: State) returns (s0: State)
    requires Run(guards, writerEof, es, s) && es != []
    ensures Run(guards, writerEof, es[..|es| - 1], s0) && Next(s0, es[|es| - 1]) == Some(s)
  {
    var n := |es| - 1;
    ExecPrefix(Init(guards, writerEof), es, n);
    s0 := Exec(Init(guards, writerEof), es[..n]).value;
    assert es[n..] == [es[n]] && es[n..][1..] == [];
    assert Exec(s0, [es[n]]) == match Next(s0, es[n]) { case None => None case Some(s1) => Exec(s1, []) };
  }

  lemma ExecTwo(s: State, e: Event, e1: Event)
    requires Next(s, e).Some?
    ensures Exec(s, [e, e1]) == Next(Next(s, e).value, e1)
  {
    hide Next;
    var s1 := Next(s, e).value;
    assert [e, e1][1..] == [e1] && [e1][1..] == [];
    assert Exec(s, [e, e1]) == Exec(s1, [e1]);
    assert Exec(s1, [e1]) == match Next(s1, e1) { case None => None case Some(s2) => Exec(s2, []) };
  }

  lemma ExecCons(s: State, e: Event, es: seq<Event>)
    requires Next(s, e).Some?
    ensures Exec(s, [e] + es) == Exec(Next(s, e).value, es)
  {
    hide Next;
    assert ([e] + es)[0] == e && ([e] + es)[1..] == es;
  }

  lemma {:induction false} ExecJoin(s: State, a: seq<Event>, b: seq<Event>)
    requires Exec(s, a).Some?
    ensures Exec(s, a + b) == Exec(Exec(s, a).value, b)
    decreases |a|
  {
    hide Next;
    if a == [] {
      assert a + b == b;
    } else {
      ExecJoin(Next(s, a[0]).value, a[1..], b);
      assert (a + b)[0] == a[0] && (a + b)[1..] == a[1..] + b;
    }
  }

  lemma Then(es: seq<Event>, s: State, e: Event) returns (es1: seq<Event>, s1: State)
    requires Run(Plain(false, false), true, es, s) && Next(s, e).Some?
    ensures Run(Plain(false, false), true, es1, s1) && Next(s, e) == Some(s1)
  {
    ExecThen(Init(Plain(false, false), true), es, e);
    es1, s1 := es + [e], Next(s, e).value;
  }

  /** One frame was accepted, none was written, and no drain has completed. */
  predicate OneUnwritten(q: Queue) { |q.accepted| == 1 && q.written == [] && !q.drained }

  lemma OneSenderRegistered() returns (es: seq<Event>, s: State)
    ensures Run(Plain(false, false), true, es, s)
    ensures s == State(Init(Plain(false, false), true).core.(q := s.core.q), map[READER := RRead, 1 := QBuild(Notify(false))])
    ensures s.core.q == Queue(false, 1, None, [], None, false, WIdle, [], [], 0, None, 0)
  {
    es, s := [], Init(Plain(false, false), true);
    es, s := Then(es, s, Start(1, DoNotify(false)));
    es, s := Then(es, s, Step(1, Go));
    es, s := Then(es, s, Step(1, Go));
    es, s := Then(es, s, Step(1, Go));
  }

  lemma OneFrameTaken() returns (es: seq<Event>, s: State)
    ensures Run(Plain(false, false), true, es, s) && s.threads.Keys == {READER, 1}
    ensures OneUnwritten(s.core.q) && s.core.q.writer.WWriting? && s.core.q.reason.None? && !s.core.q.sealed && s.core.writerEof
  {
    es, s := OneSenderRegistered();
    es, s := Then(es, s, Step(1, Go));
    es, s := Then(es, s, Step(1, Go));
    es, s := Then(es, s, Write(Go));
  }

  /** A step of the Shutdown caller, thread 2, that leaves the shared state alone. */
  lemma ShutdownMoves(es: seq<Event>, s: State, c: Choice, pc1: Pc) returns (es1: seq<Event>, s1: State)
    requires Run(Plain(false, false), true, es, s) && 2 in s.threads
    requires var pc := s.threads[2];
      !IsQueue(pc) && !IsAwait(pc) && !IsCall(pc) && !IsRead(pc) && !IsMarker(pc) && ShutdownNext(s.core, 2, pc, c) == Out(s.core, pc1)
    ensures Run(Plain(false, false), true, es1, s1) && s1 == State(s.core, s.threads[2 := pc1])
  {
    es1, s1 := Then(es, s, Step(2, c));
  }

  lemma SealedByShutdown() returns (es: seq<Event>, s: State)
    ensures Run(Plain(false, false), true, es, s) && 2 in s.threads && s.threads[2] == MWait(Shut)
    ensures OneUnwritten(s.core.q) && s.core.q.writer.WWriting? && s.core.q.reason.None? && s.core.writerEof
  {
    es, s := OneFrameTaken();
    es, s := Then(es, s, Start(2, DoShutdown));
    es, s := ShutdownMoves(es, s, Go, HSeal);
    es, s := Then(es, s, Step(2, Go));
  }

  lemma StoppedByEof() returns (es: seq<Event>, s: State)
    ensures Run(Plain(false, false), true, es, s) && 2 in s.threads && s.threads[2] == HWait
    ensures OneUnwritten(s.core.q) && s.core.q.reason == Some(Eof)
  {
    es, s := SealedByShutdown();
    es, s := Then(es, s, WriteFails(Eof));
    es, s := Then(es, s, Write(Go));
    es, s := Then(es, s, Step(2, ConnEnds));
  }

  lemma WaitEnds() returns (es: seq<Event>, s: State)
    ensures Run(Plain(false, false), true, es, s) && 2 in s.threads && s.threads[2] == HStopped
    ensures OneUnwritten(s.core.q) && s.core.q.reason == Some(Eof)
  {
    es, s := StoppedByEof();
    es, s := ShutdownMoves(es, s, ConnEnds, HDrained);
    es, s := ShutdownMoves(es, s, Go, HStopped);
  }

  /** The exception is real: with such a stream a run exists in which Shutdown returns nil
      and an accepted frame was never written. */
  lemma NilShutdownLosesFrame() returns (es: seq<Event>, s: State, t: Tid)
    ensures Run(Plain(false, false), true, es, s) && t in s.threads && s.threads[t] == HClose(Nil)
    ensures OneUnwritten(s.core.q)
  {
    t := 2;
    es, s := WaitEnds();
    es, s := ShutdownMoves(es, s, Go, HErr);
    es, s := ShutdownMoves(es, s, Go, HClose(Nil));
  }

  /** A nil Shutdown always means that every accepted frame was written. */
  ghost predicate NilMeansDrained(writerEof: bool) {
    forall guards, es, s, t :: Run(guards, writerEof, es, s) && t in s.threads && ReturnsNil(s.threads[t]) ==>
      s.core.q.drained && s.core.q.written == s.core.q.accepted
  }

  /** It does exactly for output streams that never fail with io.EOF themselves. */
  lemma NilShutdownExactly(writerEof: bool)
    ensures NilMeansDrained(writerEof) <==> !writerEof
  {
    if writerEof {
      var es, s, t := NilShutdownLosesFrame();
      assert Run(Plain(false, false), writerEof, es, s) && ReturnsNil(s.threads[t]) && !s.core.q.drained;
    } else {
      forall guards, es, s, t | Run(guards, writerEof, es, s) && t in s.threads && ReturnsNil(s.threads[t])
        ensures s.core.q.drained && s.core.q.written == s.core.q.accepted
      {
        NilShutdownDrained(guards, writerEof, es, s, t);
      }
    }
  }

  /** enqueuing.Done never takes the WaitGroup below zero, and the marker's wait for it
      ends only when no registered sender is left. */
  lemma CountNeverNegative(guards: Guards, writerEof: bool, es: seq<Event>, s: State)
    requires Run(guards, writerEof, es, s)
    ensures forall t | t in s.threads && s.threads[t].QDone? :: s.core.q.enqueuing > 0
    ensures s.core.q.enqueuing == 0 <==> forall t | t in s.threads :: !Registered(s.threads[t])
  {
    InvOfRun(guards, writerEof, es, s);
    forall t | t in s.threads && Registered(s.threads[t]) ensures s.core.q.enqueuing > 0 {
      assert t in Senders(s.threads);
    }
    if s.core.q.enqueuing > 0 {
      var t :| t in Senders(s.threads);
    }
  }
}
