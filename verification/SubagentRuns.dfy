/** Whole runs of the tree: a child's effective capabilities and state are its last current
    report unless something invalidated it since, and an attempt that is no longer current
    never changes the tree again. */
module SubagentRuns {
  import opened Options
  import opened Subagents
  import opened SubagentForest

  datatype Field = Capabilities | State

  function Get(node: Node, f: Field): Option<string> { if f.State? then node.state else node.capabilities }

  /** What a session effectively holds: nothing while it is no known child. */
  function Now(t: Tree, c: Session, f: Field): Option<string> { if c in t.nodes then Get(t.nodes[c], f) else None }

  function Of(fields: Association, f: Field): Patch<string> { if f.State? then fields.state else fields.capabilities }

  // ---- effective state ----

  /** e takes away what c last reported: its root is restored, or a restore of it failed, or
      it was closed, or the connection was lost. */
  ghost predicate Invalidates(t: Tree, e: Event, c: Session) {
    match e
    case Begin(s, _) => s !in t.nodes && Below(t.nodes, c, s)
    case Finish(k, failed) => failed && Current(t, k) && Below(t.nodes, c, t.attempts[k].session)
    case Close(s) => Below(t.nodes, c, s)
    case Disconnect => true
    case _ => false
  }

  /** What e reports of c as current: nothing while c's root has an unanswered replay. */
  ghost function Says(t: Tree, e: Event, c: Session, f: Field): Patch<string> {
    if e.Observe? && e.update.session == c && Judge(t, e.parent, e.update).Applied? && !Historical(t, e.parent)
    then Of(e.update.fields, f) else Unset
  }

  ghost predicate TouchedBy(t: Tree, e: Event, c: Session, f: Field) { Invalidates(t, e, c) || Says(t, e, c, f) != Unset }

  /** The k-th event of the run invalidates or reports the field. */
  ghost predicate Touched(run: seq<Event>, k: nat, c: Session, f: Field)
    requires k < |run|
  {
    TouchedBy(Exec(run[..k]), run[k], c, f)
  }

  ghost predicate LastTouch(run: seq<Event>, j: nat, c: Session, f: Field) {
    j < |run| && Touched(run, j, c, f) && forall k :: j < k < |run| ==> !Touched(run, k, c, f)
  }

  /** The value a touching event leaves. */
  ghost function Left(run: seq<Event>, j: nat, c: Session, f: Field): Option<string>
    requires j < |run|
  {
    match Says(Exec(run[..j]), run[j], c, f)
    case Put(v) => Some(v)
    case _ => None
  }

  /** One event, seen from one child. */
  lemma StepEffect(t: Tree, e: Event, c: Session, f: Field)
    ensures Now(Step(t, e), c, f) ==
      if Invalidates(t, e, c) then None
      else match Says(t, e, c, f) { case Unset => Now(t, c, f) case Null => None case Put(v) => Some(v) }
  {
    hide Below, Historical, Judge, Root;
  }

  lemma EarlierTouch(run: seq<Event>, n: nat, k: nat, c: Session, f: Field)
    requires k < n <= |run|
    ensures Touched(run[..n], k, c, f) <==> Touched(run, k, c, f)
  {
    assert run[..n][..k] == run[..k];
  }

  lemma EarlierLeft(run: seq<Event>, n: nat, k: nat, c: Session, f: Field)
    requires k < n <= |run|
    ensures Left(run[..n], k, c, f) == Left(run, k, c, f)
  {
    assert run[..n][..k] == run[..k];
  }

  lemma {:induction false} EffectiveIsLeft(run: seq<Event>, c: Session, f: Field)
    ensures forall j :: LastTouch(run, j, c, f) ==> Now(Exec(run), c, f) == Left(run, j, c, f)
    ensures (forall k :: 0 <= k < |run| ==> !Touched(run, k, c, f)) ==> Now(Exec(run), c, f) == None
  {
    hide Step, Invalidates, Says, Touched, Left;
    if run != [] {
      var n := |run| - 1;
      EffectiveIsLeft(run[..n], c, f);
      StepEffect(Exec(run[..n]), run[n], c, f);
      LastStep(run, c, f);
      forall k | 0 <= k < n ensures Touched(run[..n], k, c, f) <==> Touched(run, k, c, f) { EarlierTouch(run, n, k, c, f); }
      forall k | 0 <= k < n ensures Left(run[..n], k, c, f) == Left(run, k, c, f) { EarlierLeft(run, n, k, c, f); }
      forall j | 0 <= j < n && LastTouch(run, j, c, f) ensures LastTouch(run[..n], j, c, f) {}
    }
  }

  /** In every run: a child effectively holds what the last event that invalidated it or
      currently reported the field says: nothing after an invalidation or a null, the value
      reported otherwise, and nothing if there was no such event. */
  lemma EffectiveIsLastReport(run: seq<Event>, c: Session, f: Field)
    ensures forall j: nat :: LastTouch(run, j, c, f) ==> var held := Now(Exec(run), c, f);
      if Invalidates(Exec(run[..j]), run[j], c) then held == None
      else
        && run[j].Observe? && run[j].update.session == c
        && (Of(run[j].update.fields, f).Null? ==> held == None)
        && forall v :: Of(run[j].update.fields, f) == Put(v) ==> held == Some(v)
    ensures (forall k :: 0 <= k < |run| ==> !Touched(run, k, c, f)) ==> Now(Exec(run), c, f) == None
  {
    hide Exec, Now, Invalidates, Judge, Historical;
    EffectiveIsLeft(run, c, f);
    forall j: nat | LastTouch(run, j, c, f) && Invalidates(Exec(run[..j]), run[j], c) ensures Left(run, j, c, f) == None {
      InvalidatesQuietly(Exec(run[..j]), run[j], c, f);
    }
  }

  /** An event that takes a report away reports nothing itself. */
  lemma InvalidatesQuietly(t: Tree, e: Event, c: Session, f: Field)
    ensures Invalidates(t, e, c) ==> !e.Observe? && Says(t, e, c, f) == Unset
  {}

  /** The last event of a run. */
  lemma LastStep(run: seq<Event>, c: Session, f: Field)
    requires run != []
    ensures var n := |run| - 1; var t := Exec(run[..n]);
      && Exec(run) == Step(t, run[n])
      && (Touched(run, n, c, f) <==> Invalidates(t, run[n], c) || Says(t, run[n], c, f) != Unset)
      && (Invalidates(t, run[n], c) ==> Left(run, n, c, f) == None)
      && Left(run, n, c, f) == match Says(t, run[n], c, f) { case Put(v) => Some(v) case _ => None }
  {}

  // ---- attempts that are no longer current ----

  /** What any later operation or reader can see of a tree. */
  function View(t: Tree): (Nodes, map<Session, seq<Session>>, map<Session, Attempt>) {
    (t.nodes, t.children, map s | s in t.restores && t.restores[s] < |t.attempts| :: t.attempts[t.restores[s]])
  }

  /** e takes attempt k's place, or clears it, or is its own completion. */
  predicate Supersedes(t: Tree, e: Event, k: nat)
    requires k < |t.attempts|
  {
    match e
    case Begin(s, _) => s == t.attempts[k].session && s !in t.nodes
    case Finish(j, _) => j == k
    case Disconnect => true
    case _ => false
  }

  /** Attempts are only added, and keep their session. */
  lemma StepAttempts(t: Tree, e: Event, k: nat)
    requires k < |t.attempts|
    ensures k < |Step(t, e).attempts| && Step(t, e).attempts[k].session == t.attempts[k].session
    ensures !Current(t, k) ==> !Current(Step(t, e), k)
    ensures Supersedes(t, e, k) ==> !Current(Step(t, e), k)
  {
    hide Below, Historical, Judge, Root, Invalidated, Reported;
  }

  lemma {:induction false} StaysStale(before: seq<Event>, later: seq<Event>, k: nat)
    requires k < |Exec(before).attempts| && !Current(Exec(before), k)
    ensures k < |Exec(before + later).attempts| && !Current(Exec(before + later), k)
    decreases |later|
  {
    hide Step, Current;
    if later == [] {
      assert before + later == before;
    } else {
      var n := |later| - 1;
      StaysStale(before, later[..n], k);
      var run := before + later;
      assert run[..|run| - 1] == before + later[..n] && run[|run| - 1] == later[n];
      StepAttempts(Exec(before + later[..n]), later[n], k);
    }
  }

  /** The completion of an attempt that is not current changes nothing. */
  lemma StaleIsSilent(t: Tree, k: nat, restoreMethod: bool, failed: bool)
    requires Valid(t) && k < |t.attempts| && !Current(t, k)
    ensures View(Step(t, Settle(k, restoreMethod, failed))) == View(t)
    ensures Step(t, Finish(k, failed)) == t
  {
    hide Forest;
    forall s | s in t.restores ensures t.restores[s] != k { assert t.attempts[t.restores[s]].session == s; }
    var u := Settled(t, k, restoreMethod, failed);
    forall s | s in t.restores ensures u.attempts[u.restores[s]] == t.attempts[t.restores[s]] {}
    assert View(u).2 == View(t).2;
  }

  /** Once an attempt was superseded, cleared by Disconnected or completed, then whatever
      happens later, neither its response nor its return changes the tree. */
  lemma SupersededForGood(before: seq<Event>, e: Event, later: seq<Event>, k: nat, restoreMethod: bool, failed: bool)
    requires k < |Exec(before).attempts| && Supersedes(Exec(before), e, k)
    ensures var t := Exec(before + [e] + later);
      && View(Step(t, Settle(k, restoreMethod, failed))) == View(t)
      && Step(t, Finish(k, failed)) == t
  {
    hide Step, Current, Supersedes, View, Valid;
    var run := before + [e];
    assert run[..|run| - 1] == before;
    StepAttempts(Exec(before), e, k);
    StaysStale(run, later, k);
    RunValid(run + later);
    StaleIsSilent(Exec(run + later), k, restoreMethod, failed);
  }
}
