/** The client side of subagent sessions (unstable/subagent_tree.go): what the tree holds and
    what each of its operations does to it. Transcripts and inherited directories are not
    part of this model. */
module Subagents {
  import opened Options

  type Session = nat

  datatype Path = Path(text: string, absolute: bool)

  /** The patch fields of a subagent_update; stored, the fields as last reported. */
  datatype Association = Association(title: Patch<string>, description: Patch<string>, capabilities: Patch<string>,
    state: Patch<string>, cwd: Patch<Path>, directories: Patch<seq<Path>>, meta: Patch<string>)

  datatype Update = Update(session: Session, fields: Association)

  /** A child: its parent, its association, and its effective capabilities and state. */
  datatype Node = Node(parent: Session, association: Association, capabilities: Option<string>, state: Option<string>)

  /** One session/load (replay) or session/resume of a session. */
  datatype Attempt = Attempt(session: Session, replay: bool, settled: bool, answered: bool)

  type Nodes = map<Session, Node>

  /** Attempts are numbered in the order they begin; restores holds the current ones. */
  datatype Tree = Tree(nodes: Nodes, children: map<Session, seq<Session>>, restores: map<Session, nat>, attempts: seq<Attempt>)

  const NO_TREE := Tree(map[], map[], map[], [])

  const NO_FIELDS := Association(Unset, Unset, Unset, Unset, Unset, Unset, Unset)

  // ---- ancestors ----

  /** n steps up from s, stopping at a session that is no child. */
  function Up(nodes: Nodes, s: Session, n: nat): Session
    decreases n
  {
    if n == 0 || s !in nodes then s else Up(nodes, nodes[s].parent, n - 1)
  }

  /** n steps up from s reach its root. */
  predicate Ends(nodes: Nodes, s: Session, n: nat) { Up(nodes, s, n) !in nodes }

  /** Every chain of parents ends. */
  ghost predicate Acyclic(nodes: Nodes) { forall s :: HasRoot(nodes, s) }

  ghost predicate HasRoot(nodes: Nodes, s: Session) { exists n: nat :: Ends(nodes, s, n) }

  /** The ordinary session at the top of s's ancestor chain. */
  ghost function Root(nodes: Nodes, s: Session): (r: Session)
    ensures HasRoot(nodes, s) ==> r !in nodes
  {
    if n: nat :| Ends(nodes, s, n) then Up(nodes, s, n) else s
  }

  /** a is a proper ancestor of s. */
  ghost predicate Below(nodes: Nodes, s: Session, a: Session) { s in nodes && exists n: nat :: n > 0 && Up(nodes, s, n) == a }

  function Kids(t: Tree, s: Session): seq<Session> { if s in t.children then t.children[s] else [] }

  ghost predicate NoDup<T>(s: seq<T>) { forall i, j :: 0 <= i < j < |s| ==> s[i] != s[j] }

  /** The children lists hold each child exactly once, under its parent. */
  ghost predicate Listed(t: Tree) {
    && (forall s :: NoDup(Kids(t, s)))
    && (forall s, c :: c in Kids(t, s) <==> c in t.nodes && t.nodes[c].parent == s)
  }

  ghost predicate Forest(t: Tree) { Acyclic(t.nodes) && Listed(t) }

  ghost predicate Valid(t: Tree) {
    Forest(t) && forall s :: s in t.restores ==> t.restores[s] < |t.attempts| && t.attempts[t.restores[s]].session == s
  }

  // ---- subagent_update ----

  /** What Observe answers: a refusal, or which relative directories were not applied. */
  datatype Answer = SelfParent | Reparented | Cyclic | Applied(relativeCwd: bool, relativeDirectory: bool)

  ghost function Judge(t: Tree, parent: Session, u: Update): Answer {
    if u.session == parent then SelfParent
    else if u.session in t.nodes && t.nodes[u.session].parent != parent then Reparented
    else if u.session !in t.nodes && Root(t.nodes, parent) == u.session then Cyclic
    else Applied(RelativeCwd(u.fields), RelativeDirectory(u.fields))
  }

  predicate RelativeCwd(f: Association) { f.cwd.Put? && !f.cwd.value.absolute }

  predicate RelativeDirectory(f: Association) {
    f.directories.Put? && exists i :: 0 <= i < |f.directories.value| && !f.directories.value[i].absolute
  }

  /** The update without relative directories. */
  function Usable(f: Association): Association {
    f.(cwd := if RelativeCwd(f) then Unset else f.cwd,
       directories := if RelativeDirectory(f) then Unset else f.directories)
  }

  function Patched<T>(stored: Patch<T>, update: Patch<T>): Patch<T> { if update.Unset? then stored else update }

  function PatchAll(stored: Association, update: Association): Association {
    Association(Patched(stored.title, update.title), Patched(stored.description, update.description),
                Patched(stored.capabilities, update.capabilities), Patched(stored.state, update.state),
                Patched(stored.cwd, update.cwd), Patched(stored.directories, update.directories),
                Patched(stored.meta, update.meta))
  }

  function Confirmed<T>(stored: Option<T>, update: Patch<T>): Option<T> {
    match update
    case Unset => stored
    case Null => None
    case Put(v) => Some(v)
  }

  /** An update received on s is replayed history: a load of its root has not answered. */
  ghost predicate Historical(t: Tree, s: Session) {
    var r := Root(t.nodes, s);
    r in t.restores && t.restores[r] < |t.attempts| && t.attempts[t.restores[r]].replay && !t.attempts[t.restores[r]].answered
  }

  /** The child's node once the update is applied. */
  function Reported(node: Node, f: Association, historical: bool): Node {
    var shown := node.(association := PatchAll(node.association, f));
    if historical then shown
    else shown.(capabilities := Confirmed(node.capabilities, f.capabilities), state := Confirmed(node.state, f.state))
  }

  function Stored(t: Tree, parent: Session, c: Session): Node {
    if c in t.nodes then t.nodes[c] else Node(parent, NO_FIELDS, None, None)
  }

  ghost function Observed(t: Tree, parent: Session, u: Update): Tree {
    if !Judge(t, parent, u).Applied? then t
    else
      var c := u.session;
      var node := Reported(Stored(t, parent, c), Usable(u.fields), Historical(t, parent));
      t.(nodes := t.nodes[c := node],
         children := if c in t.nodes then t.children else t.children[parent := Kids(t, parent) + [c]])
  }

  // ---- invalidation and restores ----

  function Cleared(node: Node): Node { node.(capabilities := None, state := None) }

  /** Every descendant of s loses its effective capabilities and state. */
  ghost function Invalidated(nodes: Nodes, s: Session): Nodes {
    map c | c in nodes :: if Below(nodes, c, s) then Cleared(nodes[c]) else nodes[c]
  }

  ghost function ClosedAt(t: Tree, s: Session): Tree { t.(nodes := Invalidated(t.nodes, s)) }

  function DisconnectedAll(t: Tree): Tree { t.(nodes := map c | c in t.nodes :: Cleared(t.nodes[c]), restores := map[]) }

  /** Restore up to its send: refused for a child, otherwise the new attempt is current. */
  ghost function Began(t: Tree, s: Session, replay: bool): Tree {
    if s in t.nodes then t
    else
      t.(nodes := Invalidated(t.nodes, s), restores := t.restores[s := |t.attempts|],
         attempts := t.attempts + [Attempt(s, replay, false, false)])
  }

  /** A response to a request made with attempt k's context. Only the first one to a load or
      resume counts. */
  function Settled(t: Tree, k: nat, restoreMethod: bool, failed: bool): Tree {
    if k >= |t.attempts| || !restoreMethod || t.attempts[k].settled then t
    else t.(attempts := t.attempts[k := t.attempts[k].(settled := true, answered := !failed)])
  }

  predicate Current(t: Tree, k: nat) {
    k < |t.attempts| && t.attempts[k].session in t.restores && t.restores[t.attempts[k].session] == k
  }

  /** Restore after its send: only the current attempt still changes the tree. */
  ghost function Finished(t: Tree, k: nat, failed: bool): Tree {
    if !Current(t, k) then t
    else
      var s := t.attempts[k].session;
      t.(restores := t.restores - {s}, nodes := if failed then Invalidated(t.nodes, s) else t.nodes)
  }

  // ---- runs ----

  datatype Event =
    | Observe(parent: Session, update: Update)
    | Begin(session: Session, replay: bool)
    | Settle(attempt: nat, restoreMethod: bool, failed: bool)
    | Finish(attempt: nat, failed: bool)
    | Close(session: Session)
    | Disconnect

  ghost function Step(t: Tree, e: Event): Tree {
    match e
    case Observe(parent, update) => Observed(t, parent, update)
    case Begin(s, replay) => Began(t, s, replay)
    case Settle(k, restoreMethod, failed) => Settled(t, k, restoreMethod, failed)
    case Finish(k, failed) => Finished(t, k, failed)
    case Close(s) => ClosedAt(t, s)
    case Disconnect => DisconnectedAll(t)
  }

  /** The tree after a run, from an empty one. */
  ghost function Exec(run: seq<Event>): Tree {
    if run == [] then NO_TREE else Step(Exec(run[..|run| - 1]), run[|run| - 1])
  }
}
