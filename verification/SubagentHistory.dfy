/** What the tree remembers of a run, told from the events alone: each association holds the
    last patch of every field, and an update is replayed history exactly while a load of its
    root that began is neither answered, replaced, completed nor lost. */
module SubagentHistory {
  import opened Options
  import opened Subagents
  import opened SubagentForest

  // ---- associations ----

  datatype Name = Title | Description | Capabilities | State | Cwd | Directories | Meta

  /** The value of any field. */
  datatype Content = Plain(text: string) | OnePath(path: Path) | Paths(paths: seq<Path>)

  function Lift<T>(p: Patch<T>, f: T -> Content): Patch<Content> {
    match p
    case Unset => Unset
    case Null => Null
    case Put(v) => Put(f(v))
  }

  function FieldOf(a: Association, name: Name): Patch<Content> {
    match name
    case Title => Lift(a.title, s => Plain(s))
    case Description => Lift(a.description, s => Plain(s))
    case Capabilities => Lift(a.capabilities, s => Plain(s))
    case State => Lift(a.state, s => Plain(s))
    case Meta => Lift(a.meta, s => Plain(s))
    case Cwd => Lift(a.cwd, p => OnePath(p))
    case Directories => Lift(a.directories, ps => Paths(ps))
  }

  /** Every directory it names is absolute. */
  predicate Absolute(c: Content) {
    match c
    case Plain(_) => true
    case OnePath(p) => p.absolute
    case Paths(ps) => forall i :: 0 <= i < |ps| ==> ps[i].absolute
  }

  /** The k-th event patches the field of c: it is accepted, and says something applicable. */
  ghost predicate Patches(run: seq<Event>, k: nat, c: Session, name: Name)
    requires k < |run|
  {
    && run[k].Observe? && run[k].update.session == c && Judge(Exec(run[..k]), run[k].parent, run[k].update).Applied?
    && !FieldOf(run[k].update.fields, name).Unset?
    && (FieldOf(run[k].update.fields, name).Put? ==> Absolute(FieldOf(run[k].update.fields, name).value))
  }

  ghost predicate LastPatch(run: seq<Event>, j: nat, c: Session, name: Name) {
    j < |run| && Patches(run, j, c, name) && forall k :: j < k < |run| ==> !Patches(run, k, c, name)
  }

  ghost function Held(t: Tree, c: Session, name: Name): Patch<Content> {
    if c in t.nodes then FieldOf(t.nodes[c].association, name) else Unset
  }

  /** One event, seen from one field of one child. */
  lemma StepPatches(t: Tree, e: Event, c: Session, name: Name)
    ensures Held(Step(t, e), c, name) ==
      if e.Observe? && e.update.session == c && Judge(t, e.parent, e.update).Applied?
         && !FieldOf(e.update.fields, name).Unset?
         && (FieldOf(e.update.fields, name).Put? ==> Absolute(FieldOf(e.update.fields, name).value))
      then FieldOf(e.update.fields, name) else Held(t, c, name)
  {
    hide Below, Historical, Judge, Root;
    if e.Observe? && e.update.session == c && Judge(t, e.parent, e.update).Applied? {
      ObservedField(t, e.parent, e.update, name);
    }
  }

  lemma ObservedField(t: Tree, parent: Session, u: Update, name: Name)
    requires Judge(t, parent, u).Applied?
    ensures var p := FieldOf(u.fields, name);
      Held(Observed(t, parent, u), u.session, name) == if !p.Unset? && (p.Put? ==> Absolute(p.value)) then p else Held(t, u.session, name)
  {
    hide Historical, Judge, Root;
  }

  /** In every run, replayed history included: a stored field is the last applicable patch of
      it, a relative directory not being applicable, and unset if there was none. */
  lemma {:induction false} AssociationIsLastPatch(run: seq<Event>, c: Session, name: Name)
    ensures forall j: nat :: LastPatch(run, j, c, name) ==> Held(Exec(run), c, name) == FieldOf(run[j].update.fields, name)
    ensures (forall k :: 0 <= k < |run| ==> !Patches(run, k, c, name)) ==> Held(Exec(run), c, name).Unset?
  {
    hide Step, FieldOf, Absolute, Patches, Exec, Held;
    if run == [] {
      NothingHeld(c, name);
    } else {
      var n := |run| - 1;
      var before := run[..n];
      AssociationIsLastPatch(before, c, name);
      LastPatches(run, c, name);
      forall k: nat | k < n ensures Patches(before, k, c, name) <==> Patches(run, k, c, name) { PatchesEarlier(run, k, c, name); }
      forall j: nat | j < n && LastPatch(run, j, c, name) ensures LastPatch(before, j, c, name) && before[j] == run[j] {}
      if forall k :: 0 <= k < |run| ==> !Patches(run, k, c, name) { assert !Patches(run, n, c, name); }
    }
  }

  lemma NothingHeld(c: Session, name: Name)
    ensures Held(Exec([]), c, name).Unset?
  {}

  lemma PatchesEarlier(run: seq<Event>, k: nat, c: Session, name: Name)
    requires k < |run| - 1
    ensures Patches(run[..|run| - 1], k, c, name) <==> Patches(run, k, c, name)
  {
    assert run[..|run| - 1][..k] == run[..k];
  }

  lemma LastPatches(run: seq<Event>, c: Session, name: Name)
    requires run != []
    ensures Held(Exec(run), c, name) ==
      if Patches(run, |run| - 1, c, name) then FieldOf(run[|run| - 1].update.fields, name)
      else Held(Exec(run[..|run| - 1]), c, name)
  {
    hide Step, FieldOf, Absolute;
    StepPatches(Exec(run[..|run| - 1]), run[|run| - 1], c, name);
  }

  /** Which directories were not applied is reported: exactly the relative ones. */
  lemma RelativeIsReported(t: Tree, parent: Session, u: Update)
    requires Judge(t, parent, u).Applied?
    ensures Judge(t, parent, u).relativeCwd <==> FieldOf(u.fields, Cwd).Put? && !Absolute(FieldOf(u.fields, Cwd).value)
    ensures Judge(t, parent, u).relativeDirectory <==> FieldOf(u.fields, Directories).Put? && !Absolute(FieldOf(u.fields, Directories).value)
  {}

  // ---- restores ----

  /** The k-th event begins a restore of r, which was no child then. */
  ghost predicate Begins(run: seq<Event>, k: nat, r: Session)
    requires k < |run|
  {
    run[k].Begin? && run[k].session == r && r !in Exec(run[..k]).nodes
  }

  /** How many restores the run began; the next one has this number. */
  ghost function Begun(run: seq<Event>): nat {
    if run == [] then 0
    else Begun(run[..|run| - 1]) + if run[|run| - 1].Begin? && Begins(run, |run| - 1, run[|run| - 1].session) then 1 else 0
  }

  /** It replaces the restore of r begun at k, completes it, or loses it. */
  ghost predicate EndsAt(run: seq<Event>, k: nat, i: nat, r: Session)
    requires k < |run| && i < |run|
  {
    run[i].Disconnect? || Begins(run, i, r) || (run[i].Finish? && run[i].attempt == Begun(run[..k]))
  }

  /** The restore of r begun at k is in progress. */
  ghost predicate InProgress(run: seq<Event>, k: nat, r: Session) {
    k < |run| && Begins(run, k, r) && forall i :: k < i < |run| ==> !EndsAt(run, k, i, r)
  }

  /** The i-th event is a response to the load or resume begun at k. */
  ghost predicate Responds(run: seq<Event>, k: nat, i: nat)
    requires k < |run| && i < |run|
  {
    run[i].Settle? && run[i].restoreMethod && run[i].attempt == Begun(run[..k])
  }

  /** The first response to the restore begun at k is a success. */
  ghost predicate Succeeded(run: seq<Event>, k: nat) {
    exists i :: k < i < |run| && Responds(run, k, i) && !run[i].failed && forall j :: k < j < i ==> !Responds(run, k, j)
  }

  ghost predicate Responded(run: seq<Event>, k: nat) {
    exists i :: k < i < |run| && Responds(run, k, i)
  }

  /** What the tree stores of the restore begun at k. */
  ghost predicate StoresAttempt(run: seq<Event>, k: nat, r: Session)
    requires k < |run| && Begins(run, k, r)
  {
    var t := Exec(run);
    var a := Begun(run[..k]);
    && a < |t.attempts|
    && t.attempts[a] == Attempt(r, run[k].replay, Responded(run, k), Succeeded(run, k))
    && (InProgress(run, k, r) <==> r in t.restores && t.restores[r] == a)
  }

  lemma BeginsEarlier(run: seq<Event>, k: nat, r: Session)
    requires k < |run| - 1
    ensures Begins(run[..|run| - 1], k, r) <==> Begins(run, k, r)
    ensures run[..|run| - 1][..k] == run[..k]
  {
    assert run[..|run| - 1][..k] == run[..k];
  }

  lemma ProgressStep(run: seq<Event>, k: nat, r: Session)
    requires k < |run| - 1
    ensures InProgress(run, k, r) <==> InProgress(run[..|run| - 1], k, r) && !EndsAt(run, k, |run| - 1, r)
  {
    var n := |run| - 1;
    BeginsEarlier(run, k, r);
    forall i | k < i < n ensures EndsAt(run[..n], k, i, r) <==> EndsAt(run, k, i, r) { BeginsEarlier(run, i, r); }
  }

  lemma ResponseStep(run: seq<Event>, k: nat)
    requires k < |run| - 1
    ensures var n := |run| - 1; var before := run[..n];
      && (Responded(run, k) <==> Responded(before, k) || Responds(run, k, n))
      && (Succeeded(run, k) <==> Succeeded(before, k) || (Responds(run, k, n) && !run[n].failed && !Responded(before, k)))
  {
    var n := |run| - 1;
    var before := run[..n];
    BeginsEarlier(run, k, 0);
    forall i | k < i < n ensures Responds(before, k, i) <==> Responds(run, k, i) {}
    if Responds(run, k, n) && !run[n].failed && !Responded(before, k) {
      assert forall j :: k < j < n ==> !Responds(run, k, j);
    }
  }

  lemma {:induction false} BegunGrows(run: seq<Event>, i: nat, j: nat)
    requires i <= j <= |run|
    ensures Begun(run[..i]) <= Begun(run[..j])
    ensures i < j && run[i].Begin? && Begins(run, i, run[i].session) ==> Begun(run[..i]) < Begun(run[..j])
    decreases j - i
  {
    if i < j {
      BegunGrows(run, i, j - 1);
      assert run[..j][..j - 1] == run[..j - 1];
      if i == j - 1 { assert run[..j][..i] == run[..i]; }
    }
  }

  lemma {:induction false} BegunCounts(run: seq<Event>)
    ensures |Exec(run).attempts| == Begun(run)
  {
    hide Below, Historical, Judge, Root, Reported;
    if run != [] {
      BegunCounts(run[..|run| - 1]);
    }
  }

  // What one event does to the stored attempts, told by its kind.

  lemma StepAttempt(t: Tree, e: Event, a: nat)
    requires a < |t.attempts|
    ensures a < |Step(t, e).attempts|
    ensures Step(t, e).attempts[a] ==
      if e.Settle? && e.restoreMethod && e.attempt == a && !t.attempts[a].settled then t.attempts[a].(settled := true, answered := !e.failed)
      else t.attempts[a]
  {
    hide Below, Historical, Judge, Root, Reported, Invalidated;
  }

  lemma StepRestores(t: Tree, e: Event, a: nat, r: Session)
    requires Valid(t) && a < |t.attempts| && t.attempts[a].session == r
    ensures var u := Step(t, e);
      (r in u.restores && u.restores[r] == a) <==>
        r in t.restores && t.restores[r] == a
        && !(e.Disconnect? || (e.Begin? && e.session == r && r !in t.nodes) || (e.Finish? && e.attempt == a))
  {
    hide Below, Historical, Judge, Root, Reported, Invalidated, Forest;
  }

  lemma NewAttempt(t: Tree, r: Session, replay: bool)
    requires r !in t.nodes
    ensures var u := Step(t, Begin(r, replay)); var a := |t.attempts|;
      |u.attempts| == a + 1 && u.attempts[a] == Attempt(r, replay, false, false) && r in u.restores && u.restores[r] == a
  {
    hide Below, Invalidated;
  }

  /** In every run: the attempt a restore stored knows its session and kind, has settled once
      it was responded to, and is answered if the first response was a success; it is the
      current one of its session exactly while it is in progress. */
  lemma {:induction false} AttemptIsItsHistory(run: seq<Event>, k: nat, r: Session)
    requires k < |run| && Begins(run, k, r)
    ensures StoresAttempt(run, k, r)
  {
    hide Step, Valid;
    var n := |run| - 1;
    var before := run[..n];
    var t := Exec(before);
    BegunCounts(before);
    RunValid(before);
    if k == n {
      NewAttempt(t, r, run[n].replay);
    } else {
      BeginsEarlier(run, k, r);
      AttemptIsItsHistory(before, k, r);
      var a := Begun(run[..k]);
      StepAttempt(t, run[n], a);
      StepRestores(t, run[n], a, r);
      ProgressStep(run, k, r);
      ResponseStep(run, k);
      BegunGrows(before, k, n);
    }
  }

  /** Every current attempt is one of those. */
  lemma {:induction false} CurrentWasBegun(run: seq<Event>, r: Session) returns (k: nat)
    requires r in Exec(run).restores
    ensures InProgress(run, k, r) && Begun(run[..k]) == Exec(run).restores[r]
  {
    hide Below, Historical, Judge, Root, Reported, Invalidated, Valid, Current;
    var n := |run| - 1;
    var before := run[..n];
    var t := Exec(before);
    RunValid(before);
    if run[n].Begin? && run[n].session == r && r !in t.nodes {
      BegunCounts(before);
      k := n;
    } else {
      StillCurrent(t, run[n], r);
      k := CurrentWasBegun(before, r);
      BeginsEarlier(run, k, r);
      ProgressStep(run, k, r);
    }
  }

  lemma StillCurrent(t: Tree, e: Event, r: Session)
    requires r in Step(t, e).restores && !(e.Begin? && e.session == r && r !in t.nodes)
    ensures r in t.restores && Step(t, e).restores[r] == t.restores[r] && !e.Disconnect?
    ensures Valid(t) ==> !(e.Finish? && e.attempt == t.restores[r])
  {
    hide Below, Historical, Judge, Root, Reported, Invalidated, Forest;
  }

  /** The load of r begun at k is in progress, and its first response, if any, was no success. */
  ghost predicate Replaying(run: seq<Event>, k: nat, r: Session) { InProgress(run, k, r) && run[k].replay && !Succeeded(run, k) }

  /** In every run: an update received on s is replayed history exactly while such a load of
      its root is in progress. */
  lemma HistoricalIsUnansweredReplay(run: seq<Event>, s: Session)
    ensures Historical(Exec(run), s) <==> exists k: nat :: Replaying(run, k, Root(Exec(run).nodes, s))
  {
    hide Exec, Root, InProgress, Succeeded, Responded, Begins;
    var t := Exec(run);
    var r := Root(t.nodes, s);
    if r in t.restores {
      var k := CurrentWasBegun(run, r);
      ProgressBegins(run, k, r);
      AttemptIsItsHistory(run, k, r);
      if Historical(t, s) { assert Replaying(run, k, r); }
    }
    forall k: nat | Replaying(run, k, r) ensures Historical(t, s) {
      ProgressBegins(run, k, r);
      AttemptIsItsHistory(run, k, r);
    }
  }

  lemma ProgressBegins(run: seq<Event>, k: nat, r: Session)
    requires InProgress(run, k, r)
    ensures k < |run| && Begins(run, k, r) && run[k].Begin?
  {}
}
