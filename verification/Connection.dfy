/** The connection of connection.go as a system of atomic steps: any number of senders
    and Shutdown callers, the read loop and the write loop, sharing the write queue, the
    seal, the count of registered senders, the send lock, the drain marker and the map of
    pending calls. When the guards are the v2 client's, the same steps move its
    initialize lifecycle.

    A step is one access to shared state; a choice says which ready branch of a select is
    taken, when a context ends, and what the parts outside this model decide. */
module Connection {
  import opened ClientLifecycle
  import opened Options

  type Tid = nat

  /** The guards installed. Plain(outgoing, response): arbitrary guards; `outgoing` is an
      outgoing or outgoing-response guard (then frames are ordered under the send lock),
      `response` an incoming-response guard. V2: the v2 client's guards, which are both. */
  datatype Guards = Plain(outgoing: bool, response: bool) | V2

  predicate Guarded(g: Guards) { g.V2? || g.outgoing }

  predicate Settles(g: Guards) { g.V2? || g.response }

  datatype Method = InitializeCall | OtherCall

  /** What a run of the queueing code is for. Answer is the read loop's own reply to a
      frame it refuses, which no guard sees. */
  datatype Job = Call(id: nat) | Notify(cancel: bool) | Respond | Answer

  /** The order in which guards admitted frames is recorded as a ticket. */
  datatype Frame = Frame(sender: Tid, job: Job, ticket: Option<nat>)

  datatype Item = Data(frame: Frame) | Marker

  /** How queueing ended: Refused before anything was begun, Unsent after a guard
      admitted the frame or it was built. */
  datatype Queued = Sent | Refused | Unsent

  datatype Reason = ClosedPipe | Eof | ReadError | WriteError | Deadline

  datatype Why = Replied | CtxEnded | Failed

  datatype Result = Nil | Error

  datatype Owner = Flush | Shut

  datatype Pc =
    // queue, and answerFrame
    | QLoad(job: Job) | QLock(job: Job) | QAdmit(job: Job) | QBuild(job: Job)
    | QClose(job: Job, ticket: Option<nat>) | QSend(job: Job, ticket: Option<nat>)
    | QDone(job: Job, r: Queued) | QRelease(job: Job, r: Queued) | QReturn(job: Job, r: Queued)
    // awaitWrite, and the rest of Call
    | Await(job: Job) | AwaitLate(job: Job) | AwaitTimer(job: Job) | AwaitStop(job: Job)
    | AwaitFailed(id: nat) | WaitReply(id: nat) | Forget(id: nat, sent: bool) | Abandon(id: nat, sent: bool)
    | SGuard(id: nat, outcome: Option<nat>, reader: bool) | SReply(id: nat, reader: bool)
    | Returned(id: nat, why: Why)
    // readLoop
    | RRead | RFrame | RDispatch | REof | RSeal | RFlush | RStop(reason: Reason)
    // queueDrainMarker
    | MWait(owner: Owner) | MLock(owner: Owner) | MSend(owner: Owner) | MRelease(owner: Owner)
    // Shutdown and Close
    | HStart | HSeal | HWait | HDrained | HStopped | HErr | HClose(result: Result) | HDone(result: Result)
    | Exit

  datatype Writer = WIdle | WWriting(frame: Frame) | WFailed(frame: Frame, error: Reason) | WDead(frame: Frame) | WExit

  /** The queue: its seal, the WaitGroup counting registered senders, the send lock, the
      write loop, and the connection's stop reason. The last five fields are history. */
  datatype Queue = Queue(
    sealed: bool, enqueuing: nat, lock: Option<Tid>, items: seq<Item>, reason: Option<Reason>, drained: bool, writer: Writer,
    accepted: seq<Frame>, written: seq<Frame>, markers: nat, sealer: Option<Tid>, tickets: nat)

  /** The calls made so far; a call's id is its index in `methods`. `replied` holds the
      calls whose reply channel was sent to, `settled` those that passed the response guard. */
  datatype Calls = Calls(methods: seq<Method>, pending: set<nat>, replied: set<nat>, settled: set<nat>)

  /** The v2 client's flags. History: the initialize calls its guard admitted, the outcomes
      recorded, and whether it admitted any other request. */
  datatype Life = Life(flags: Flags, begun: set<nat>, outcomes: seq<Option<nat>>, requestAdmitted: bool)

  /** Everything the threads share. `guards` and `writerEof`, whether the output stream may
      itself fail with io.EOF, are fixed for a run. */
  datatype Core = Core(guards: Guards, writerEof: bool, q: Queue, calls: Calls, life: Life)

  datatype State = State(core: Core, threads: map<Tid, Pc>)

  const READER: Tid := 0
  const CAPACITY := 32

  function Init(guards: Guards, writerEof: bool): State {
    State(
      Core(guards, writerEof, Queue(false, 0, None, [], None, false, WIdle, [], [], 0, None, 0),
           Calls([], {}, {}, {}), Life(NO_FLAGS, {}, [], false)),
      map[READER := RRead])
  }

  /** A choice, read according to where the thread is. */
  datatype Choice =
    | Go                                     // the step goes ahead
    | CtxEnds                                // the caller's context has ended
    | ConnEnds                               // the connection has stopped
    | No                                     // a guard, the stream or a close refuses
    | Unsendable                             // admitted, but its frame cannot be built
    | Reply(id: nat, outcome: Option<nat>)   // the peer's response to a call
    | Bad                                    // a frame the read loop answers itself

  /** What a new goroutine does: call, notify, answer a request, shut down or close. */
  datatype Task = DoCall(m: Method) | DoNotify(cancel: bool) | DoRespond | DoShutdown | DoClose

  datatype Event =
    | Start(t: Tid, task: Task)
    | Step(t: Tid, c: Choice)
    | Write(c: Choice) | WriteFails(error: Reason)

  /** A step either blocks or changes the shared state and moves its thread on. */
  datatype Out = Blocked | Out(core: Core, pc: Pc)

  function Stop(q: Queue, r: Reason): Queue { if q.reason.None? then q.(reason := Some(r)) else q }

  predicate IsInit(calls: Calls, id: nat) { id < |calls.methods| && calls.methods[id].InitializeCall? }

  function Inflight(w: Writer): seq<Frame> {
    match w
    case WWriting(f) => [f]
    case WFailed(f, _) => [f]
    case WDead(f) => [f]
    case _ => []
  }

  predicate WasWritten(q: Queue, t: Tid) { exists i :: 0 <= i < |q.written| && q.written[i].sender == t }

  predicate WriteFailed(q: Queue, t: Tid) {
    (q.writer.WFailed? || q.writer.WDead?) && q.writer.frame.sender == t
  }

  /** The peer has the request: its frame was written, or the writer has begun it. */
  predicate PeerHas(q: Queue, id: nat) {
    exists i :: 0 <= i < |q.written + Inflight(q.writer)| && (q.written + Inflight(q.writer))[i].job == Call(id)
  }

  /** A wait bounded by the caller's context may give up; read-loop answers and responses
      are bounded by the connection alone. */
  predicate MayGiveUp(q: Queue, job: Job, c: Choice) {
    (c.CtxEnds? && (job.Call? || job.Notify?)) || (c.ConnEnds? && q.reason.Some?)
  }

  // ---- queue (connection.go) ----

  function AsMessage(calls: Calls, job: Job): Message
    requires job.Call? || job.Notify?
  {
    match job
    case Call(id) => if IsInit(calls, id) then Initialize else Request
    case Notify(cancel) => if cancel then CancelNotification else Notification
  }

  /** The frame is built: it goes on to be queued, or its content cannot be sent. */
  function Built(s: Core, job: Job, k: Option<nat>, c: Choice): Out {
    if c.Go? then Out(s, QSend(job, k))
    else if c.Unsendable? then Out(s, QDone(job, Unsent))
    else Blocked
  }

  /** The next admission ticket, drawn only where guards order frames. */
  function Ticket(s: Core): Option<nat> { if Guarded(s.guards) then Some(s.q.tickets) else None }

  function Draw(s: Core): Core { if Guarded(s.guards) then s.(q := s.q.(tickets := s.q.tickets + 1)) else s }

  function BuildNext(s: Core, job: Job, c: Choice): Out {
    if job.Answer? then Out(s, QSend(job, None))
    else if job.Respond? then Built(Draw(s), job, Ticket(s), c)
    else if s.guards.Plain? then
      if c.No? then (if s.guards.outgoing then Out(s, QDone(job, Refused)) else Blocked)
      else Built(Draw(s), job, Ticket(s), c)
    else
      var m := AsMessage(s.calls, job);
      if c.No? && job.Call? then Out(s, QDone(job, Refused))
      else if m.Initialize? then
        if !MayBegin(s.life.flags) then Out(s, QDone(job, Refused))
        else Built(Draw(s).(life := s.life.(flags := Begin(s.life.flags), begun := s.life.begun + {job.id})), job, Ticket(s), c)
      else if !Allowed(s.life.flags, m) then Out(s, QDone(job, Refused))
      else if m.Request? then Out(Draw(s), QClose(job, Ticket(s)))
      else Built(Draw(s), job, Ticket(s), c)
  }

  /** The second half of the v2 guard's admission of a request: the repeat window closes. */
  function CloseWindow(s: Core): Core {
    s.(life := s.life.(flags := s.life.flags.(repeatable := false), requestAdmitted := true))
  }

  function Release(s: Core): Core { if Guarded(s.guards) then s.(q := s.q.(lock := None)) else s }

  function QueueNext(s: Core, t: Tid, pc: Pc, c: Choice): Out {
    match pc
    case QLoad(job) => Out(s, if s.q.sealed then QReturn(job, Refused) else QLock(job))
    case QLock(job) =>
      if !Guarded(s.guards) then Out(s, QAdmit(job))
      else if MayGiveUp(s.q, job, c) then Out(s, QReturn(job, Refused))
      else if s.q.lock.None? then Out(s.(q := s.q.(lock := Some(t))), QAdmit(job))
      else Blocked
    case QAdmit(job) =>
      if s.q.sealed then Out(s, QRelease(job, Refused))
      else Out(s.(q := s.q.(enqueuing := s.q.enqueuing + 1)), QBuild(job))
    case QBuild(job) => BuildNext(s, job, c)
    case QClose(job, k) => Built(CloseWindow(s), job, k, c)
    case QSend(job, k) =>
      if MayGiveUp(s.q, job, c) then Out(s, QDone(job, Unsent))
      else if |s.q.items| < CAPACITY then
        var f := Frame(t, job, k);
        Out(s.(q := s.q.(items := s.q.items + [Data(f)], accepted := s.q.accepted + [f])), QDone(job, Sent))
      else Blocked
    case QDone(job, r) =>
      if s.q.enqueuing == 0 then Blocked // a negative WaitGroup counter panics; ConnectionDrain.CountNeverNegative
      else Out(s.(q := s.q.(enqueuing := s.q.enqueuing - 1)), QRelease(job, r))
    case QRelease(job, r) => Out(Release(s), QReturn(job, r))
    case QReturn(job, r) => Out(s, AfterQueue(job, r))
    case _ => Blocked
  }

  function AfterQueue(job: Job, r: Queued): Pc {
    match job
    case Call(id) => if r.Sent? then Await(job) else if r.Refused? then Forget(id, false) else Abandon(id, false)
    case Answer => RRead
    case _ => if r.Sent? then Await(job) else Exit
  }

  // ---- awaitWrite, Call and settle (connection.go) ----

  function AfterWrite(job: Job, ok: bool): Pc {
    if job.Call? then (if ok then WaitReply(job.id) else AwaitFailed(job.id)) else Exit
  }

  /** The write's own outcome, or the connection's stop, for a caller waiting on it. */
  function WriteOutcome(s: Core, t: Tid, job: Job, c: Choice): Out {
    if c.Go? && WasWritten(s.q, t) then Out(s, AfterWrite(job, true))
    else if c.No? && WriteFailed(s.q, t) then Out(s, AfterWrite(job, false))
    else if c.ConnEnds? && s.q.reason.Some? then Out(s, AfterWrite(job, WasWritten(s.q, t)))
    else Blocked
  }

  function AwaitNext(s: Core, t: Tid, pc: Pc, c: Choice): Out {
    match pc
    case Await(job) => if c.CtxEnds? then Out(s, AwaitLate(job)) else WriteOutcome(s, t, job, c)
    case AwaitLate(job) => if c.CtxEnds? then Out(s, AwaitTimer(job)) else WriteOutcome(s, t, job, c)
    case AwaitTimer(job) => Out(s, if s.q.sealed then AfterWrite(job, false) else AwaitStop(job))
    case AwaitStop(job) => Out(s.(q := Stop(s.q, Deadline)), AfterWrite(job, false))
    case _ => Blocked
  }

  function Take(s: Core, id: nat): Core { s.(calls := s.calls.(pending := s.calls.pending - {id})) }

  /** The incoming-response guard runs, and the call counts as settled. */
  function Settle(s: Core, id: nat, outcome: Option<nat>): Core {
    var calls := s.calls.(settled := s.calls.settled + {id});
    if s.guards.V2? && IsInit(s.calls, id)
    then s.(calls := calls, life := s.life.(flags := Complete(s.life.flags, outcome), outcomes := s.life.outcomes + [outcome]))
    else s.(calls := calls)
  }

  function CallNext(s: Core, pc: Pc, c: Choice): Out {
    match pc
    case AwaitFailed(id) => Out(s, if id in s.calls.replied then Returned(id, Replied) else Abandon(id, true))
    case WaitReply(id) =>
      if c.Go? && id in s.calls.replied then Out(s, Returned(id, Replied))
      else if c.CtxEnds? then Out(if Settles(s.guards) then s else Take(s, id), Returned(id, CtxEnded))
      else if c.ConnEnds? && s.q.reason.Some? then
        Out(s, if id in s.calls.replied then Returned(id, Replied) else Forget(id, true))
      else Blocked
    case Forget(id, _) => Out(Take(s, id), Returned(id, Failed))
    case Abandon(id, _) =>
      if id in s.calls.pending then Out(Take(s, id), SGuard(id, None, false)) else Out(s, Returned(id, Failed))
    case SGuard(id, outcome, reader) => Out(Settle(s, id, outcome), SReply(id, reader))
    case SReply(id, reader) =>
      if id in s.calls.replied then Blocked // the reply channel is full; ConnectionCalls.ReplyNeverBlocks
      else Out(s.(calls := s.calls.(replied := s.calls.replied + {id})), if reader then RRead else Returned(id, Failed))
    case _ => Blocked
  }

  // ---- readLoop (connection.go) ----

  function Seal(s: Core, t: Tid): Core { s.(q := s.q.(sealed := true, sealer := Some(t))) }

  function ReadNext(s: Core, t: Tid, pc: Pc, c: Choice): Out {
    match pc
    case RRead =>
      if c.Go? then Out(s, RFrame)
      else if c.CtxEnds? then Out(s, REof) // the input ended cleanly
      else if c.No? then Out(s, RStop(ReadError))
      else Blocked
    case RFrame => Out(s, if s.q.sealed then RRead else RDispatch)
    case RDispatch =>
      if c.Bad? then Out(s, QLoad(Answer))
      else if c.Go? || (c.Reply? && c.id !in s.calls.pending) then Out(s, RRead)
      else if c.Reply? && PeerHas(s.q, c.id) then Out(Take(s, c.id), SGuard(c.id, c.outcome, true))
      else Blocked
    case REof => Out(s, if s.q.sealed then Exit else RSeal)
    case RSeal => if s.q.sealed then Out(s, Exit) else Out(Seal(s, t), MWait(Flush))
    case RFlush => if s.q.drained || s.q.reason.Some? then Out(s, RStop(Eof)) else Blocked
    case RStop(r) => Out(s.(q := Stop(s.q, r)), Exit)
    case _ => Blocked
  }

  // ---- queueDrainMarker, drain, Shutdown and Close (connection.go) ----

  function AfterMarker(o: Owner): Pc { if o.Flush? then RFlush else HWait }

  predicate MarkerGivesUp(q: Queue, o: Owner, c: Choice) {
    (c.CtxEnds? && o.Shut?) || (c.ConnEnds? && q.reason.Some?)
  }

  function MarkerNext(s: Core, t: Tid, pc: Pc, c: Choice): Out {
    match pc
    case MWait(o) =>
      if MarkerGivesUp(s.q, o, c) then Out(s, AfterMarker(o))
      else if s.q.enqueuing == 0 then Out(s, MLock(o))
      else Blocked
    case MLock(o) =>
      if !Guarded(s.guards) then Out(s, MSend(o))
      else if MarkerGivesUp(s.q, o, c) then Out(s, AfterMarker(o))
      else if s.q.lock.None? then Out(s.(q := s.q.(lock := Some(t))), MSend(o))
      else Blocked
    case MSend(o) =>
      if MarkerGivesUp(s.q, o, c) then Out(s, MRelease(o))
      else if |s.q.items| < CAPACITY then
        Out(s.(q := s.q.(items := s.q.items + [Marker], markers := s.q.markers + 1)), MRelease(o))
      else Blocked
    case MRelease(o) => Out(Release(s), AfterMarker(o))
    case _ => Blocked
  }

  /** closeOutput returns nil, or the close's error when the choice is No. */
  function Closing(c: Choice): Pc { HClose(if c.No? then Error else Nil) }

  function ShutdownNext(s: Core, t: Tid, pc: Pc, c: Choice): Out {
    match pc
    case HStart => Out(s, if c.CtxEnds? then HClose(Error) else HSeal)
    case HSeal => if s.q.sealed then Out(s, HWait) else Out(Seal(s, t), MWait(Shut))
    case HWait =>
      if c.CtxEnds? || (c.ConnEnds? && s.q.reason.Some?) then Out(s, HDrained)
      else if s.q.drained then Out(s, Closing(c))
      else Blocked
    case HDrained => Out(s, if s.q.drained then Closing(c) else HStopped)
    case HStopped => Out(s, if s.q.reason.None? then HClose(Error) else HErr)
    case HErr => Out(s, HClose(if s.q.reason == Some(Eof) then Nil else Error))
    case HClose(result) => Out(s.(q := Stop(s.q, ClosedPipe)), HDone(result))
    case _ => Blocked
  }

  // ---- writeLoop (connection.go) ----

  function WriteNext(q: Queue, c: Choice): Option<Queue> {
    match q.writer
    case WIdle =>
      if c.ConnEnds? then (if q.reason.Some? then Some(q.(writer := WExit)) else None)
      else if |q.items| == 0 then None
      else if q.items[0].Marker? then Some(q.(items := q.items[1..], drained := true, writer := WExit))
      else Some(q.(items := q.items[1..], writer := WWriting(q.items[0].frame)))
    case WWriting(f) => Some(q.(written := q.written + [f], writer := WIdle))
    case WFailed(f, r) => Some(Stop(q.(writer := WDead(f)), r))
    case _ => None
  }

  function WriteFailsNext(q: Queue, writerEof: bool, error: Reason): Option<Queue> {
    if q.writer.WWriting? && (error.WriteError? || (error.Eof? && writerEof))
    then Some(q.(writer := WFailed(q.writer.frame, error)))
    else None
  }

  // ---- one step, and runs ----

  predicate IsQueue(pc: Pc) {
    pc.QLoad? || pc.QLock? || pc.QAdmit? || pc.QBuild? || pc.QClose? || pc.QSend? || pc.QDone? || pc.QRelease? || pc.QReturn?
  }

  predicate IsAwait(pc: Pc) { pc.Await? || pc.AwaitLate? || pc.AwaitTimer? || pc.AwaitStop? }

  predicate IsCall(pc: Pc) {
    pc.AwaitFailed? || pc.WaitReply? || pc.Forget? || pc.Abandon? || pc.SGuard? || pc.SReply? || pc.Returned?
  }

  predicate IsRead(pc: Pc) {
    pc.RRead? || pc.RFrame? || pc.RDispatch? || pc.REof? || pc.RSeal? || pc.RFlush? || pc.RStop?
  }

  predicate IsMarker(pc: Pc) { pc.MWait? || pc.MLock? || pc.MSend? || pc.MRelease? }

  function StepOut(s: Core, t: Tid, pc: Pc, c: Choice): Out {
    if IsQueue(pc) then QueueNext(s, t, pc, c)
    else if IsAwait(pc) then AwaitNext(s, t, pc, c)
    else if IsCall(pc) then CallNext(s, pc, c)
    else if IsRead(pc) then ReadNext(s, t, pc, c)
    else if IsMarker(pc) then MarkerNext(s, t, pc, c)
    else ShutdownNext(s, t, pc, c)
  }

  /** A new goroutine: a call is registered as pending before it is queued. */
  function StartOut(s: Core, task: Task): Out {
    match task
    case DoCall(m) =>
      var id: nat := |s.calls.methods|;
      Out(s.(calls := s.calls.(methods := s.calls.methods + [m], pending := s.calls.pending + {id})), QLoad(Call(id)))
    case DoNotify(cancel) => Out(s, QLoad(Notify(cancel)))
    case DoRespond => Out(s, QLoad(Respond))
    case DoShutdown => Out(s, HStart)
    case DoClose => Out(s, HClose(Error)) // Close stops at once and promises no drain; it returns no result of its own
  }

  function ThreadOut(s: State, e: Event): Out
    requires e.Start? || e.Step?
  {
    if e.Start? then (if e.t in s.threads then Blocked else StartOut(s.core, e.task))
    else if e.t in s.threads then StepOut(s.core, e.t, s.threads[e.t], e.c)
    else Blocked
  }

  function Moved(s: State, t: Tid, out: Out): Option<State> {
    if out.Blocked? then None else Some(State(out.core, s.threads[t := out.pc]))
  }

  function Rewritten(s: State, q: Option<Queue>): Option<State> {
    if q.None? then None else Some(s.(core := s.core.(q := q.value)))
  }

  function Next(s: State, e: Event): Option<State> {
    match e
    case Write(c) => Rewritten(s, WriteNext(s.core.q, c))
    case WriteFails(error) => Rewritten(s, WriteFailsNext(s.core.q, s.core.writerEof, error))
    case _ => Moved(s, e.t, ThreadOut(s, e))
  }

  /** The state a sequence of events leads to, if each is possible in turn. */
  function Exec(s: State, es: seq<Event>): Option<State>
    decreases |es|
  {
    if es == [] then Some(s) else
    match Next(s, es[0])
    case None => None
    case Some(s1) => Exec(s1, es[1..])
  }
}
