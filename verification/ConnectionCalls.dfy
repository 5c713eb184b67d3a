/** Calls over the connection: every call is settled at most once, its reply never blocks
    the read loop, and frames are queued in the order guards admitted them. */
module ConnectionCalls {
  import opened Options
  import opened Connection
  import opened ConnectionDrain

  // ---- frames are queued in admission order ----

  predicate TicketEffect(s: Core, p: Pc, t: Tid, s1: Core, p1: Pc) {
    && s.q.tickets <= s1.q.tickets
    && (s1.q.tickets > s.q.tickets ==> Guarded(s.guards) && p.QBuild?)
    && (p1.QClose? || p1.QSend? ==>
        || ((p.QClose? || p.QSend?) && p1.job == p.job && p1.ticket == p.ticket)
        || (p == QBuild(p1.job) &&
            if Guarded(s.guards) && !p.job.Answer? then p1.ticket == Some(s.q.tickets) && s1.q.tickets == s.q.tickets + 1
            else p1.ticket.None?))
    && (s1.q.accepted == s.q.accepted || (p.QSend? && s1.q.accepted == s.q.accepted + [Frame(t, p.job, p.ticket)] && p1 == QDone(p.job, Sent)))
  }

  /** Tickets of accepted frames increase, stay below the next one to draw and below the
      ticket of the frame about to be queued; every frame a guard admitted has one. */
  ghost predicate TicketInv(s: State) {
    var a := s.core.q.accepted;
    && (forall i, j :: 0 <= i < j < |a| && a[i].ticket.Some? && a[j].ticket.Some? ==> a[i].ticket.value < a[j].ticket.value)
    && (forall i :: 0 <= i < |a| && a[i].ticket.Some? ==> a[i].ticket.value < s.core.q.tickets)
    && (forall i :: 0 <= i < |a| ==> (a[i].ticket.Some? <==> Guarded(s.core.guards) && !a[i].job.Answer?))
    && (forall t | t in s.threads && (s.threads[t].QClose? || s.threads[t].QSend?) :: Pending(s.core, s.threads[t].job, s.threads[t].ticket))
  }

  ghost predicate Pending(s: Core, job: Job, k: Option<nat>) {
    && (k.Some? <==> Guarded(s.guards) && !job.Answer?)
    && (k.Some? ==> k.value < s.q.tickets && forall i :: 0 <= i < |s.q.accepted| && s.q.accepted[i].ticket.Some? ==> s.q.accepted[i].ticket.value < k.value)
  }

  /** Outside the queueing code no frame is accepted, no ticket drawn, and queueing is
      entered only at its start. */
  predicate Outside(s: Core, p: Pc, s1: Core, p1: Pc) {
    && s1.q.accepted == s.q.accepted && s1.q.tickets == s.q.tickets
    && (IsQueue(p1) ==> p == RDispatch && p1 == QLoad(Answer))
  }

  lemma CallOutside(s: Core, t: Tid, p: Pc, c: Choice, o: Out)
    requires (IsAwait(p) && o == AwaitNext(s, t, p, c)) || (IsCall(p) && o == CallNext(s, p, c))
    requires o.Out?
    ensures Outside(s, p, o.core, o.pc)
  {}

  lemma ReadOutside(s: Core, t: Tid, p: Pc, c: Choice, o: Out)
    requires IsRead(p) && o == ReadNext(s, t, p, c) && o.Out?
    ensures Outside(s, p, o.core, o.pc) && o.core.life == s.life
  {}

  lemma MarkerOutside(s: Core, t: Tid, p: Pc, c: Choice, o: Out)
    requires o == MarkerNext(s, t, p, c) && o.Out?
    ensures Outside(s, p, o.core, o.pc) && o.core.life == s.life && o.core.calls == s.calls
    ensures IsMarker(o.pc) || o.pc == RFlush || o.pc == HWait
  {}

  lemma ShutdownOutside(s: Core, t: Tid, p: Pc, c: Choice, o: Out)
    requires o == ShutdownNext(s, t, p, c) && o.Out?
    ensures Outside(s, p, o.core, o.pc) && o.core.life == s.life && o.core.calls == s.calls
    ensures !IsCall(o.pc) && !IsRead(o.pc) && !IsAwait(o.pc)
  {}

  lemma StepOutside(s: Core, t: Tid, p: Pc, c: Choice, o: Out)
    requires !IsQueue(p) && o == StepOut(s, t, p, c) && o.Out?
    ensures Outside(s, p, o.core, o.pc)
  {
    if IsAwait(p) || IsCall(p) { CallOutside(s, t, p, c, o); }
    else if IsRead(p) { ReadOutside(s, t, p, c, o); }
    else if IsMarker(p) { MarkerOutside(s, t, p, c, o); }
    else { ShutdownOutside(s, t, p, c, o); }
  }

  lemma TicketBuild(s: Core, t: Tid, job: Job, c: Choice, o: Out)
    requires o == BuildNext(s, job, c) && o.Out?
    ensures TicketEffect(s, QBuild(job), t, o.core, o.pc)
  {}

  lemma TicketQueue(s: Core, t: Tid, p: Pc, c: Choice, o: Out)
    requires IsQueue(p) && o == QueueNext(s, t, p, c) && o.Out?
    ensures TicketEffect(s, p, t, o.core, o.pc)
  {
    if p.QBuild? { TicketBuild(s, t, p.job, c, o); }
  }

  lemma TicketStep(s: Core, t: Tid, p: Pc, c: Choice, o: Out)
    requires o == StepOut(s, t, p, c) && o.Out?
    ensures TicketEffect(s, p, t, o.core, o.pc)
  {
    if IsQueue(p) { TicketQueue(s, t, p, c, o); } else { StepOutside(s, t, p, c, o); }
  }

  lemma TicketKept(s: State, t: Tid, o: Out)
    requires LockInv(s) && TicketInv(s) && o.Out? && o.core.guards == s.core.guards
    requires TicketEffect(s.core, PcOf(s, t), t, o.core, o.pc)
    ensures TicketInv(State(o.core, s.threads[t := o.pc]))
  {}

  // ---- calls ----

  /** The call a thread makes, from its first step to its return. */
  function CallerOf(p: Pc): Option<nat> {
    match p
    case AwaitFailed(id) => Some(id)
    case WaitReply(id) => Some(id)
    case Forget(id, _) => Some(id)
    case Abandon(id, _) => Some(id)
    case SGuard(id, _, reader) => if reader then None else Some(id)
    case SReply(id, reader) => if reader then None else Some(id)
    case Returned(id, _) => Some(id)
    case _ => if (IsQueue(p) || IsAwait(p)) && p.job.Call? then Some(p.job.id) else None
  }

  /** The call a thread is settling. */
  function SettlingOf(p: Pc): Option<nat> {
    match p
    case SGuard(id, _, _) => Some(id)
    case SReply(id, _) => Some(id)
    case _ => None
  }

  /** The call is registered and its frame was not queued, nor will be by another thread. */
  predicate NotSent(p: Pc) {
    || p.QLoad? || p.QLock? || p.QAdmit? || p.QBuild? || p.QClose? || p.QSend?
    || ((p.QDone? || p.QRelease? || p.QReturn?) && !p.r.Sent?)
    || (p.Forget? && !p.sent) || (p.Abandon? && !p.sent)
  }

  predicate Accepts(q: Queue, id: nat) { exists i :: 0 <= i < |q.accepted| && q.accepted[i].job == Call(id) }

  /** What a step does to calls, by kind. */
  predicate Neutral(s: Core, p: Pc, t: Tid, s1: Core, p1: Pc) {
    && s1.calls == s.calls && SettlingOf(p).None? && SettlingOf(p1).None?
    && (CallerOf(p1).Some? ==> CallerOf(p1) == CallerOf(p))
    && (CallerOf(p1).Some? && NotSent(p1) ==> NotSent(p))
    && (s1.q.accepted == s.q.accepted
        || (p.QSend? && s1.q.accepted == s.q.accepted + [Frame(t, p.job, p.ticket)] && p1 == QDone(p.job, Sent)))
    && (p1.Returned? ==> p1.id !in s.calls.pending || p1.id in s.calls.replied || (Settles(s.guards) && p1.why.CtxEnded?))
  }

  /** Sharing everything but what the step kinds below name. */
  predicate OnlyCalls(s: Core, s1: Core) {
    s1.q == s.q && s1.guards == s.guards && s1.calls.methods == s.calls.methods
  }

  predicate Forgets(s: Core, p: Pc, s1: Core, p1: Pc) {
    && OnlyCalls(s, s1) && p1.Returned? && (p.Forget? || (p.WaitReply? && !Settles(s.guards))) && p.id == p1.id
    && s1.calls == s.calls.(pending := s.calls.pending - {p1.id})
  }

  predicate Takes(s: Core, p: Pc, s1: Core, p1: Pc) {
    && OnlyCalls(s, s1) && p1.SGuard? && p1.id in s.calls.pending && SettlingOf(p).None?
    && (if p1.reader then p == RDispatch && PeerHas(s.q, p1.id) else p.Abandon? && p.id == p1.id)
    && s1.calls == s.calls.(pending := s.calls.pending - {p1.id})
  }

  predicate PassesGuard(s: Core, p: Pc, s1: Core, p1: Pc) {
    && OnlyCalls(s, s1) && p.SGuard? && p1 == SReply(p.id, p.reader)
    && s1.calls == s.calls.(settled := s.calls.settled + {p.id})
  }

  predicate Replies(s: Core, p: Pc, s1: Core, p1: Pc) {
    && OnlyCalls(s, s1) && p.SReply? && p.id !in s.calls.replied
    && p1 == (if p.reader then RRead else Returned(p.id, Failed))
    && s1.calls == s.calls.(replied := s.calls.replied + {p.id})
  }

  predicate CallEffect(s: Core, p: Pc, t: Tid, s1: Core, p1: Pc) {
    Neutral(s, p, t, s1, p1) || Forgets(s, p, s1, p1) || Takes(s, p, s1, p1) || PassesGuard(s, p, s1, p1) || Replies(s, p, s1, p1)
  }

  lemma BuildCalls(s: Core, t: Tid, job: Job, c: Choice, o: Out)
    requires o == BuildNext(s, job, c) && o.Out?
    ensures Neutral(s, QBuild(job), t, o.core, o.pc)
  {}

  lemma QueueCalls(s: Core, t: Tid, p: Pc, c: Choice, o: Out)
    requires IsQueue(p) && o == QueueNext(s, t, p, c) && o.Out?
    ensures Neutral(s, p, t, o.core, o.pc)
  {
    if p.QBuild? { BuildCalls(s, t, p.job, c, o); }
  }

  lemma AwaitCalls(s: Core, t: Tid, p: Pc, c: Choice, o: Out)
    requires IsAwait(p) && o == AwaitNext(s, t, p, c) && o.Out?
    ensures Neutral(s, p, t, o.core, o.pc)
  {}

  lemma CallCalls(s: Core, t: Tid, p: Pc, c: Choice, o: Out)
    requires IsCall(p) && o == CallNext(s, p, c) && o.Out?
    ensures CallEffect(s, p, t, o.core, o.pc)
  {}

  lemma ReadCalls(s: Core, t: Tid, p: Pc, c: Choice, o: Out)
    requires IsRead(p) && o == ReadNext(s, t, p, c) && o.Out?
    ensures CallEffect(s, p, t, o.core, o.pc)
  {}

  lemma CallsStep(s: Core, t: Tid, p: Pc, c: Choice, o: Out)
    requires o == StepOut(s, t, p, c) && o.Out?
    ensures CallEffect(s, p, t, o.core, o.pc)
  {
    if IsQueue(p) { QueueCalls(s, t, p, c, o); }
    else if IsAwait(p) { AwaitCalls(s, t, p, c, o); }
    else if IsCall(p) { CallCalls(s, t, p, c, o); }
    else if IsRead(p) { ReadCalls(s, t, p, c, o); }
    else if IsMarker(p) { MarkerOutside(s, t, p, c, o); }
    else { ShutdownOutside(s, t, p, c, o); }
  }

  predicate Known(s: Core, id: nat) { id < |s.calls.methods| }

  /** What holds of one thread. */
  ghost predicate ThreadCalls(s: Core, p: Pc) {
    && (CallerOf(p).Some? ==> Known(s, CallerOf(p).value))
    && (SettlingOf(p).Some? ==> Known(s, SettlingOf(p).value) && SettlingOf(p).value !in s.calls.pending && SettlingOf(p).value !in s.calls.replied)
    && (p.SGuard? ==> p.id !in s.calls.settled)
    && (p.SReply? ==> p.id in s.calls.settled)
    && (CallerOf(p).Some? && NotSent(p) ==> CallerOf(p).value in s.calls.pending && !Accepts(s.q, CallerOf(p).value))
    && (p.Returned? && p.id in s.calls.pending ==> Settles(s.guards) && p.why.CtxEnded?)
  }

  /** Ids are those of calls made; a pending call is not settled, a replied one is. */
  ghost predicate IdsInv(s: Core) {
    && (forall id | id in s.calls.pending :: Known(s, id) && id !in s.calls.settled)
    && (forall id | id in s.calls.settled :: Known(s, id))
    && s.calls.replied <= s.calls.settled
    && (forall i | 0 <= i < |s.q.accepted| && s.q.accepted[i].job.Call? :: Known(s, s.q.accepted[i].job.id))
  }

  /** No two threads make the same call, and no two settle the same call. */
  ghost predicate Distinct(threads: map<Tid, Pc>) {
    && (forall t, u | t in threads && u in threads && t != u && CallerOf(threads[t]).Some? :: CallerOf(threads[t]) != CallerOf(threads[u]))
    && (forall t, u | t in threads && u in threads && t != u && SettlingOf(threads[t]).Some? :: SettlingOf(threads[t]) != SettlingOf(threads[u]))
  }

  ghost predicate CallInv(s: State) {
    IdsInv(s.core) && Distinct(s.threads) && forall t | t in s.threads :: ThreadCalls(s.core, s.threads[t])
  }

  lemma DistinctMove(threads: map<Tid, Pc>, t: Tid, p1: Pc)
    requires Distinct(threads)
    requires CallerOf(p1).Some? ==> (t in threads && CallerOf(p1) == CallerOf(threads[t])) || forall u | u in threads :: CallerOf(threads[u]) != CallerOf(p1)
    requires SettlingOf(p1).Some? ==> (t in threads && SettlingOf(p1) == SettlingOf(threads[t])) || forall u | u in threads :: SettlingOf(threads[u]) != SettlingOf(p1)
    ensures Distinct(threads[t := p1])
  {}

  /** The invariant of another thread survives a step of any kind. */
  lemma OtherNeutral(s: Core, p: Pc, t: Tid, s1: Core, p1: Pc, other: Pc)
    requires ThreadCalls(s, other) && s1.guards == s.guards && Neutral(s, p, t, s1, p1)
    requires CallerOf(p).Some? ==> CallerOf(other) != CallerOf(p)
    ensures ThreadCalls(s1, other)
  {
    if CallerOf(other).Some? {
      assert Accepts(s1.q, CallerOf(other).value) ==> Accepts(s.q, CallerOf(other).value);
    }
  }

  lemma OtherForgets(s: Core, p: Pc, s1: Core, p1: Pc, other: Pc)
    requires ThreadCalls(s, other) && Forgets(s, p, s1, p1)
    requires CallerOf(p).Some? ==> CallerOf(other) != CallerOf(p)
    ensures ThreadCalls(s1, other)
  {}

  lemma OtherTakes(s: Core, p: Pc, s1: Core, p1: Pc, other: Pc)
    requires ThreadCalls(s, other) && Takes(s, p, s1, p1)
    requires CallerOf(p).Some? ==> CallerOf(other) != CallerOf(p)
    requires PeerHas(s.q, p1.id) ==> Accepts(s.q, p1.id)
    ensures ThreadCalls(s1, other)
  {}

  lemma OtherSettles(s: Core, p: Pc, s1: Core, p1: Pc, other: Pc)
    requires ThreadCalls(s, p) && ThreadCalls(s, other) && (PassesGuard(s, p, s1, p1) || Replies(s, p, s1, p1))
    requires SettlingOf(p).Some? ==> SettlingOf(other) != SettlingOf(p)
    ensures ThreadCalls(s1, other)
  {}

  /** The invariant of all threads, from the one that moved and the ones that did not. */
  lemma Assemble(s: State, t: Tid, core: Core, p1: Pc)
    requires IdsInv(core) && ThreadCalls(core, p1) && Distinct(s.threads[t := p1])
    requires forall u | u in s.threads && u != t :: ThreadCalls(core, s.threads[u])
    ensures CallInv(State(core, s.threads[t := p1]))
  {
    var threads := s.threads[t := p1];
    forall u | u in threads ensures ThreadCalls(core, threads[u]) {
      if u != t { assert threads[u] == s.threads[u]; }
    }
  }

  lemma NeutralKept(s: State, t: Tid, o: Out)
    requires CallInv(s) && t in s.threads && o.Out? && o.core.guards == s.core.guards && Neutral(s.core, s.threads[t], t, o.core, o.pc)
    ensures CallInv(State(o.core, s.threads[t := o.pc]))
  {
    assert ThreadCalls(s.core, s.threads[t]);
    forall u | u in s.threads && u != t ensures ThreadCalls(o.core, s.threads[u]) {
      OtherNeutral(s.core, s.threads[t], t, o.core, o.pc, s.threads[u]);
    }
    NeutralMover(s.core, s.threads[t], t, o.core, o.pc);
    DistinctMove(s.threads, t, o.pc);
    Assemble(s, t, o.core, o.pc);
  }

  lemma NeutralMover(s: Core, p: Pc, t: Tid, s1: Core, p1: Pc)
    requires IdsInv(s) && ThreadCalls(s, p) && s1.guards == s.guards && Neutral(s, p, t, s1, p1)
    ensures IdsInv(s1) && ThreadCalls(s1, p1)
  {}

  lemma ForgetsKept(s: State, t: Tid, o: Out)
    requires CallInv(s) && t in s.threads && o.Out? && Forgets(s.core, s.threads[t], o.core, o.pc)
    ensures CallInv(State(o.core, s.threads[t := o.pc]))
  {
    assert ThreadCalls(s.core, s.threads[t]);
    forall u | u in s.threads && u != t ensures ThreadCalls(o.core, s.threads[u]) {
      OtherForgets(s.core, s.threads[t], o.core, o.pc, s.threads[u]);
    }
    ForgetsMover(s.core, s.threads[t], o.core, o.pc);
    DistinctMove(s.threads, t, o.pc);
    Assemble(s, t, o.core, o.pc);
  }

  lemma ForgetsMover(s: Core, p: Pc, s1: Core, p1: Pc)
    requires IdsInv(s) && ThreadCalls(s, p) && Forgets(s, p, s1, p1)
    ensures IdsInv(s1) && ThreadCalls(s1, p1) && CallerOf(p1) == CallerOf(p)
  {}

  lemma TakesMover(s: Core, p: Pc, s1: Core, p1: Pc)
    requires IdsInv(s) && ThreadCalls(s, p) && Takes(s, p, s1, p1)
    ensures IdsInv(s1) && ThreadCalls(s1, p1) && (CallerOf(p1).Some? ==> CallerOf(p1) == CallerOf(p))
  {}

  lemma TakesKept(s: State, t: Tid, o: Out)
    requires CallInv(s) && QueueInv(s.core.q) && t in s.threads && o.Out? && Takes(s.core, s.threads[t], o.core, o.pc)
    ensures CallInv(State(o.core, s.threads[t := o.pc]))
  {
    if PeerHas(s.core.q, o.pc.id) { PeerHasAccepted(s.core.q, o.pc.id); }
    assert ThreadCalls(s.core, s.threads[t]);
    forall u | u in s.threads && u != t ensures ThreadCalls(o.core, s.threads[u]) {
      OtherTakes(s.core, s.threads[t], o.core, o.pc, s.threads[u]);
    }
    TakesMover(s.core, s.threads[t], o.core, o.pc);
    forall u | u in s.threads ensures SettlingOf(s.threads[u]) != SettlingOf(o.pc) {
      assert ThreadCalls(s.core, s.threads[u]);
    }
    DistinctMove(s.threads, t, o.pc);
    Assemble(s, t, o.core, o.pc);
  }

  lemma PeerHasAccepted(q: Queue, id: nat)
    requires QueueInv(q) && PeerHas(q, id)
    ensures Accepts(q, id)
  {
    var early := q.written + Inflight(q.writer);
    var i :| 0 <= i < |early| && early[i].job == Call(id);
    assert q.accepted == early + Frames(q.items);
    assert q.accepted[i] == early[i];
  }

  lemma SettlesKept(s: State, t: Tid, o: Out)
    requires CallInv(s) && t in s.threads && o.Out?
    requires PassesGuard(s.core, s.threads[t], o.core, o.pc) || Replies(s.core, s.threads[t], o.core, o.pc)
    ensures CallInv(State(o.core, s.threads[t := o.pc]))
  {
    assert ThreadCalls(s.core, s.threads[t]);
    forall u | u in s.threads && u != t ensures ThreadCalls(o.core, s.threads[u]) {
      OtherSettles(s.core, s.threads[t], o.core, o.pc, s.threads[u]);
    }
    MoverSettles(s.core, s.threads[t], o.core, o.pc);
    DistinctMove(s.threads, t, o.pc);
    Assemble(s, t, o.core, o.pc);
  }

  lemma MoverSettles(s: Core, p: Pc, s1: Core, p1: Pc)
    requires ThreadCalls(s, p) && IdsInv(s) && (PassesGuard(s, p, s1, p1) || Replies(s, p, s1, p1))
    ensures ThreadCalls(s1, p1) && IdsInv(s1)
    ensures CallerOf(p1).Some? ==> CallerOf(p1) == CallerOf(p)
    ensures SettlingOf(p1).Some? ==> SettlingOf(p1) == SettlingOf(p)
  {}

  lemma StartKept(s: State, t: Tid, task: Task, o: Out)
    requires CallInv(s) && t !in s.threads && o == StartOut(s.core, task)
    ensures CallInv(State(o.core, s.threads[t := o.pc]))
  {
    forall u | u in s.threads ensures ThreadCalls(o.core, s.threads[u]) && CallerOf(s.threads[u]) != Some(|s.core.calls.methods|) {
      assert ThreadCalls(s.core, s.threads[u]);
    }
    assert IdsInv(o.core);
    assert ThreadCalls(o.core, o.pc);
    DistinctMove(s.threads, t, o.pc);
    Assemble(s, t, o.core, o.pc);
  }

  /** All the invariants of the queue and of calls. */
  ghost predicate FullInv(s: State) { Inv(s) && TicketInv(s) && CallInv(s) }

  lemma StepKept(s: State, t: Tid, c: Choice)
    requires FullInv(s) && t in s.threads && StepOut(s.core, t, s.threads[t], c).Out?
    ensures var o := StepOut(s.core, t, s.threads[t], c); CallInv(State(o.core, s.threads[t := o.pc]))
  {
    var o := StepOut(s.core, t, s.threads[t], c);
    var p := s.threads[t];
    ThreadEffect(s, Step(t, c));
    CallsStep(s.core, t, p, c, o);
    if Neutral(s.core, p, t, o.core, o.pc) { NeutralKept(s, t, o); }
    else if Forgets(s.core, p, o.core, o.pc) { ForgetsKept(s, t, o); }
    else if Takes(s.core, p, o.core, o.pc) { TakesKept(s, t, o); }
    else { SettlesKept(s, t, o); }
  }

  lemma TicketsKept(s: State, t: Tid, c: Choice)
    requires FullInv(s) && t in s.threads && StepOut(s.core, t, s.threads[t], c).Out?
    ensures var o := StepOut(s.core, t, s.threads[t], c); TicketInv(State(o.core, s.threads[t := o.pc]))
  {
    var o := StepOut(s.core, t, s.threads[t], c);
    ThreadEffect(s, Step(t, c));
    TicketStep(s.core, t, s.threads[t], c, o);
    TicketKept(s, t, o);
  }

  lemma StartsKept(s: State, t: Tid, task: Task)
    requires FullInv(s) && t !in s.threads
    ensures var o := StartOut(s.core, task); TicketInv(State(o.core, s.threads[t := o.pc])) && CallInv(State(o.core, s.threads[t := o.pc]))
  {
    var o := StartOut(s.core, task);
    StartKept(s, t, task, o);
    TicketKept(s, t, o);
  }

  lemma FullKept(s: State, e: Event, s1: State)
    requires FullInv(s) && Next(s, e) == Some(s1)
    ensures FullInv(s1)
  {
    InvKept(s, e, s1);
    if e.Start? {
      StartsKept(s, e.t, e.task);
    } else if e.Step? {
      StepKept(s, e.t, e.c);
      TicketsKept(s, e.t, e.c);
    } else {
      WriterLeavesCalls(s, e, s1);
    }
  }

  /** The write loop moves none of what the invariants of calls and tickets speak of. */
  lemma WriterLeavesCalls(s: State, e: Event, s1: State)
    requires FullInv(s) && (e.Write? || e.WriteFails?) && Next(s, e) == Some(s1)
    ensures TicketInv(s1) && CallInv(s1) && s1 == s.(core := s.core.(q := s1.core.q)) && s1.core.q.accepted == s.core.q.accepted
  {
    if e.Write? { WriterStep(s.core.q, e.c, s1.core.q, s.core.writerEof); }
    SameQueueHistory(s, s1);
  }

  lemma SameQueueHistory(s: State, s1: State)
    requires TicketInv(s) && CallInv(s) && s1 == s.(core := s.core.(q := s1.core.q))
    requires s1.core.q.accepted == s.core.q.accepted && s1.core.q.tickets == s.core.q.tickets
    ensures TicketInv(s1) && CallInv(s1)
  {
    forall t | t in s.threads ensures ThreadCalls(s1.core, s1.threads[t]) {
      assert ThreadCalls(s.core, s.threads[t]);
    }
  }

  lemma FullAtStart(guards: Guards, writerEof: bool)
    ensures FullInv(Init(guards, writerEof))
  {
    InvAtStart(guards, writerEof);
  }

  lemma {:induction false} FullAlways(s: State, es: seq<Event>, s1: State)
    requires FullInv(s) && Exec(s, es) == Some(s1)
    ensures FullInv(s1)
    decreases |es|
  {
    if es != [] {
      var s2 := Next(s, es[0]).value;
      FullKept(s, es[0], s2);
      FullAlways(s2, es[1..], s1);
    }
  }

  lemma FullOfRun(guards: Guards, writerEof: bool, es: seq<Event>, s: State)
    requires Run(guards, writerEof, es, s)
    ensures FullInv(s) && s.core.guards == guards && s.core.writerEof == writerEof
  {
    FullAtStart(guards, writerEof);
    FullAlways(Init(guards, writerEof), es, s);
    InvOfRun(guards, writerEof, es, s);
  }

  // ---- the guarantees ----

  /** Frames enter the queue, and reach the peer, in the order guards admitted them: later
      frames carry later tickets, and every frame a guard saw carries one. */
  lemma AdmissionOrder(guards: Guards, writerEof: bool, es: seq<Event>, s: State, i: nat, j: nat)
    requires Run(guards, writerEof, es, s) && Guarded(guards)
    requires i < j < |s.core.q.accepted| && !s.core.q.accepted[i].job.Answer? && !s.core.q.accepted[j].job.Answer?
    ensures s.core.q.accepted[i].ticket.Some? && s.core.q.accepted[j].ticket.Some?
    ensures s.core.q.accepted[i].ticket.value < s.core.q.accepted[j].ticket.value
  {
    FullOfRun(guards, writerEof, es, s);
  }

  /** A reply channel is sent to at most once, so with its one slot the send never blocks
      the read loop; and a call passes the response guard at most once. */
  lemma ReplyNeverBlocks(guards: Guards, writerEof: bool, es: seq<Event>, s: State, t: Tid)
    requires Run(guards, writerEof, es, s) && t in s.threads
    ensures s.threads[t].SReply? ==> s.threads[t].id !in s.core.calls.replied && forall c :: StepOut(s.core, t, s.threads[t], c).Out?
    ensures s.threads[t].SGuard? ==> s.threads[t].id !in s.core.calls.settled
  {
    FullOfRun(guards, writerEof, es, s);
    assert ThreadCalls(s.core, s.threads[t]);
  }

  /** A call that has returned is still pending only if a response guard is installed and
      the caller's context ended while it waited for the reply. */
  lemma PendingAfterReturn(guards: Guards, writerEof: bool, es: seq<Event>, s: State, t: Tid)
    requires Run(guards, writerEof, es, s) && t in s.threads && s.threads[t].Returned?
    ensures s.threads[t].id in s.core.calls.pending ==> Settles(guards) && s.threads[t].why.CtxEnded?
  {
    FullOfRun(guards, writerEof, es, s);
    assert ThreadCalls(s.core, s.threads[t]);
  }
}
