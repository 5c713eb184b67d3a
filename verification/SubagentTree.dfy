/** The tree itself, updated in place, each operation proved against module Subagents. A
    node and a restore attempt, which the source reaches through pointers, are values here:
    the node in the map that alone refers to it, the attempt under its number. */
module SubagentTree {
  import opened Options
  import opened Subagents
  import opened SubagentForest

  /** A snapshot of one child. */
  datatype Subagent = Subagent(session: Session, parent: Session, root: Session, association: Association,
    capabilities: Option<string>, state: Option<string>)

  // ---- descendants, breadth first ----

  /** result holds every descendant of s once, each after its parent. */
  ghost predicate Descends(t: Tree, s: Session, result: seq<Session>) {
    && NoDup(result)
    && (forall c :: c in result <==> Below(t.nodes, c, s))
    && forall i :: 0 <= i < |result| ==> AfterParent(t.nodes, s, result, i)
  }

  ghost predicate AfterParent(nodes: Nodes, s: Session, result: seq<Session>, i: nat)
    requires i < |result|
  {
    result[i] in nodes && (nodes[result[i]].parent == s || nodes[result[i]].parent in result[..i])
  }

  /** The sessions met: s and descendants of it, each once. */
  ghost predicate Met(nodes: Nodes, s: Session, all: seq<Session>) {
    NoDup(all) && all != [] && all[0] == s && forall i :: 0 < i < |all| ==> Below(nodes, all[i], s)
  }

  /** Each was met after its parent, when its parent was one of the first k to be expanded. */
  ghost predicate ParentsFirst(nodes: Nodes, all: seq<Session>, k: nat) {
    k <= |all| && forall i :: 0 < i < |all| ==> After(nodes, all, i, k)
  }

  ghost predicate After(nodes: Nodes, all: seq<Session>, i: nat, k: nat)
    requires i < |all| && k <= |all|
  {
    all[i] in nodes && nodes[all[i]].parent in all[..i] && nodes[all[i]].parent in all[..k]
  }

  /** The children of the first k were met. */
  ghost predicate Expanded(t: Tree, all: seq<Session>, k: nat) {
    k <= |all| && forall c :: c in t.nodes && t.nodes[c].parent in all[..k] ==> c in all
  }

  /** What the search has found when k of the sessions met are expanded. */
  ghost predicate Searched(t: Tree, s: Session, all: seq<Session>, k: nat) {
    Met(t.nodes, s, all) && ParentsFirst(t.nodes, all, k) && Expanded(t, all, k)
  }

  lemma ParentBelow(nodes: Nodes, c: Session, p: Session, s: Session)
    requires c in nodes && nodes[c].parent == p && (p == s || Below(nodes, p, s))
    ensures Below(nodes, c, s)
  {
    if p == s {
      assert Up(nodes, c, 1) == s;
    } else {
      var n: nat :| n > 0 && Up(nodes, p, n) == s;
      assert Up(nodes, c, n + 1) == s;
    }
  }

  lemma ParentExpanded(nodes: Nodes, all: seq<Session>, j: nat, k: nat)
    requires j < |all| && k < |all| && After(nodes, all, j, k) && NoDup(all)
    ensures nodes[all[j]].parent != all[k]
  {}

  /** A child of all[k] is a new session. */
  lemma ChildIsNew(t: Tree, s: Session, all: seq<Session>, k: nat, c: Session)
    requires Acyclic(t.nodes) && Searched(t, s, all, k) && k < |all| && c in t.nodes && t.nodes[c].parent == all[k]
    ensures Below(t.nodes, c, s) && c !in all
  {
    hide Acyclic, Below, Expanded, After;
    ParentBelow(t.nodes, c, all[k], s);
    NotBelowItself(t.nodes, s);
    if c in all {
      var j :| 0 <= j < |all| && all[j] == c;
      if j > 0 { assert After(t.nodes, all, j, k); ParentExpanded(t.nodes, all, j, k); }
    }
  }

  lemma MetMore(t: Tree, s: Session, all: seq<Session>, k: nat, kids: seq<Session>)
    requires Acyclic(t.nodes) && Searched(t, s, all, k) && k < |all| && NoDup(kids)
    requires forall c :: c in kids ==> c in t.nodes && t.nodes[c].parent == all[k]
    ensures Met(t.nodes, s, all + kids)
  {
    hide Acyclic, Below, ParentsFirst, Expanded;
    forall c | c in kids ensures Below(t.nodes, c, s) && c !in all { ChildIsNew(t, s, all, k, c); }
  }

  lemma ParentsFirstMore(nodes: Nodes, all: seq<Session>, k: nat, kids: seq<Session>)
    requires ParentsFirst(nodes, all, k) && k < |all| && forall c :: c in kids ==> c in nodes && nodes[c].parent == all[k]
    ensures ParentsFirst(nodes, all + kids, k + 1)
  {
    hide After;
    var more, n := all + kids, k + 1;
    forall i | 0 < i < |more| ensures After(nodes, more, i, n) {
      if i < |all| { AfterStays(nodes, all, k, kids, i); } else { KidAfter(nodes, all, k, kids, i - |all|); }
    }
  }

  lemma AfterStays(nodes: Nodes, all: seq<Session>, k: nat, kids: seq<Session>, i: nat)
    requires k < |all| && i < |all| && After(nodes, all, i, k)
    ensures After(nodes, all + kids, i, k + 1)
  {
    assert (all + kids)[..i] == all[..i];
    assert (all + kids)[..k + 1] == all[..k] + [all[k]];
  }

  lemma KidAfter(nodes: Nodes, all: seq<Session>, k: nat, kids: seq<Session>, j: nat)
    requires k < |all| && j < |kids| && kids[j] in nodes && nodes[kids[j]].parent == all[k]
    ensures After(nodes, all + kids, |all| + j, k + 1)
  {
    assert (all + kids)[..|all| + j][k] == (all + kids)[..k + 1][k] == all[k];
  }

  lemma ExpandedMore(t: Tree, all: seq<Session>, k: nat, kids: seq<Session>)
    requires Expanded(t, all, k) && k < |all| && forall c :: c in t.nodes && t.nodes[c].parent == all[k] ==> c in kids
    ensures Expanded(t, all + kids, k + 1)
  {
    assert (all + kids)[..k + 1] == all[..k] + [all[k]];
  }

  lemma Expand(t: Tree, s: Session, all: seq<Session>, k: nat)
    requires Forest(t) && Searched(t, s, all, k) && k < |all|
    ensures Searched(t, s, all + Kids(t, all[k]), k + 1)
  {
    hide Acyclic, Met, ParentsFirst, Expanded, NoDup;
    var kids := Kids(t, all[k]);
    MetMore(t, s, all, k, kids);
    ParentsFirstMore(t.nodes, all, k, kids);
    ExpandedMore(t, all, k, kids);
  }

  /** When nothing is left to expand, every descendant was met. */
  lemma {:induction false} AllFound(t: Tree, s: Session, all: seq<Session>, c: Session, n: nat)
    requires Expanded(t, all, |all|) && s in all && c in t.nodes && n > 0 && Up(t.nodes, c, n) == s
    ensures c in all
    decreases n
  {
    assert all[..|all|] == all;
    var p := t.nodes[c].parent;
    if p != s { AllFound(t, s, all, p, n - 1); }
  }

  lemma SearchEnds(t: Tree, s: Session, all: seq<Session>)
    requires Forest(t) && Searched(t, s, all, |all|)
    ensures Descends(t, s, all[1..])
  {
    hide Acyclic, Listed, After, AfterParent, Below, Expanded;
    forall c ensures c in all[1..] <==> Below(t.nodes, c, s) { FoundAll(t, s, all, c); }
    forall i | 0 <= i < |all[1..]| ensures AfterParent(t.nodes, s, all[1..], i) {
      assert After(t.nodes, all, i + 1, |all|);
      DropStart(t.nodes, s, all, i);
    }
  }

  lemma DropStart(nodes: Nodes, s: Session, all: seq<Session>, i: nat)
    requires i + 1 < |all| && all[0] == s && After(nodes, all, i + 1, |all|)
    ensures AfterParent(nodes, s, all[1..], i)
  {
    assert all[..i + 1] == [s] + all[1..][..i];
  }

  lemma FoundAll(t: Tree, s: Session, all: seq<Session>, c: Session)
    requires Acyclic(t.nodes) && Met(t.nodes, s, all) && Expanded(t, all, |all|)
    ensures c in all[1..] <==> Below(t.nodes, c, s)
  {
    hide Acyclic;
    if Below(t.nodes, c, s) {
      var n: nat :| n > 0 && Up(t.nodes, c, n) == s;
      AllFound(t, s, all, c, n);
      NotBelowItself(t.nodes, s);
    }
  }

  /** At most every node is met. */
  lemma Bounded(t: Tree, s: Session, all: seq<Session>, k: nat)
    requires Searched(t, s, all, k)
    ensures k <= 1 + |t.nodes|
  {
    hide Below, Kids;
    forall i | 0 < i < |all| ensures all[i] in t.nodes { assert After(t.nodes, all, i, k); }
    Distinct(all[1..], t.nodes.Keys);
  }

  lemma {:induction false} Distinct(s: seq<Session>, all: set<Session>)
    requires NoDup(s) && forall i :: 0 <= i < |s| ==> s[i] in all
    ensures |s| <= |all|
  {
    if s != [] { Distinct(s[1..], all - {s[0]}); }
  }

  /** Once the child is in the tree, its parent's updates are historical exactly if they were before. */
  lemma StoredHistorical(was: Tree, now: Tree, parent: Session, update: Update)
    requires Valid(was) && Judge(was, parent, update).Applied? && now.restores == was.restores && now.attempts == was.attempts
    requires now.nodes == was.nodes[update.session := Stored(was, parent, update.session)]
    ensures Acyclic(now.nodes) && Historical(now, parent) == Historical(was, parent)
  {
    hide Acyclic, Listed, Root, Judge;
    var after := Observed(was, parent, update).nodes;
    assert SameParents(after, now.nodes);
    ObservedForest(was, parent, update);
    ObservedRoot(was, parent, update);
    SameAcyclic(after, now.nodes);
    SameRoot(after, now.nodes, parent);
  }

  // ---- the tree ----

  class SubagentTree {
    var nodes: Nodes
    var children: map<Session, seq<Session>>
    var restores: map<Session, nat>
    var attempts: seq<Attempt>

    ghost function Abs(): Tree
      reads this
    {
      Tree(nodes, children, restores, attempts)
    }

    constructor ()
      ensures Abs() == NO_TREE && Valid(Abs())
    {
      nodes, children, restores, attempts := map[], map[], map[], [];
      new;
      RunValid([]);
    }

    /** root: the climb ends, at a session that is no child. */
    method RootOf(s: Session) returns (r: Session)
      requires Acyclic(nodes)
      ensures r == Root(nodes, s) && r !in nodes
    {
      r := s;
      assert HasRoot(nodes, s);
      ghost var n: nat :| Ends(nodes, s, n);
      RootIs(nodes, s, n);
      while r in nodes
        invariant Ends(nodes, r, n) && Up(nodes, r, n) == Root(nodes, s)
        decreases n
      {
        r, n := nodes[r].parent, n - 1;
      }
    }

    /** historical. */
    method IsHistorical(s: Session) returns (h: bool)
      requires Acyclic(nodes) && forall r :: r in restores ==> restores[r] < |attempts|
      ensures h == Historical(Abs(), s)
    {
      var r := RootOf(s);
      return r in restores && attempts[restores[r]].replay && !attempts[restores[r]].answered;
    }

    /** Whether announcing child under parent would close a cycle. */
    method Cycles(parent: Session, child: Session) returns (cycle: bool)
      requires Acyclic(nodes) && child !in nodes
      ensures cycle <==> Root(nodes, parent) == child
    {
      var ancestor := parent;
      assert HasRoot(nodes, parent);
      ghost var n: nat :| Ends(nodes, parent, n);
      RootIs(nodes, parent, n);
      while true
        invariant Ends(nodes, ancestor, n) && Up(nodes, ancestor, n) == Root(nodes, parent)
        decreases n
      {
        if ancestor == child {
          return true;
        }
        if ancestor !in nodes {
          return false;
        }
        ancestor, n := nodes[ancestor].parent, n - 1;
      }
    }

    /** applyAssociation. A refused update leaves the tree as it was. */
    method Observe(parent: Session, update: Update) returns (answer: Answer)
      requires Valid(Abs())
      modifies this
      ensures answer == Judge(old(Abs()), parent, update)
      ensures Abs() == Observed(old(Abs()), parent, update) && Valid(Abs())
    {
      hide Acyclic, Listed, Root, Reported, Usable;
      StepValid(Abs(), Event.Observe(parent, update));
      var child := update.session;
      if child == parent {
        return SelfParent;
      }
      var known := child in nodes;
      if known && nodes[child].parent != parent {
        return Reparented;
      }
      if !known {
        var cycle := Cycles(parent, child);
        if cycle {
          return Cyclic;
        }
      }
      answer := Applied(RelativeCwd(update.fields), RelativeDirectory(update.fields));
      ghost var was := Abs();
      ObservedRoot(was, parent, update);
      var fields := Usable(update.fields);
      var node := if known then nodes[child] else Node(parent, NO_FIELDS, None, None);
      if !known {
        children := children[parent := (if parent in children then children[parent] else []) + [child]];
      }
      nodes := nodes[child := node];
      StoredHistorical(was, Abs(), parent, update);
      var historical := IsHistorical(parent);
      nodes := nodes[child := Reported(node, fields, historical)];
    }

    /** descendants. */
    method Descendants(s: Session) returns (result: seq<Session>)
      requires Forest(Abs())
      ensures Descends(Abs(), s, result)
    {
      hide Below, Forest, Searched, Descends;
      result := [];
      var queue := [s];
      ghost var k := 0;
      Start(Abs(), s);
      while queue != []
        invariant Searched(Abs(), s, [s] + result, k) && k <= |result| + 1 && queue == ([s] + result)[k..]
        decreases 1 + |nodes| - k
      {
        var next := queue[0];
        queue := queue[1..];
        ghost var before := result;
        Expand(Abs(), s, [s] + result, k);
        var kids := if next in children then children[next] else [];
        for i := 0 to |kids|
          invariant result == before + kids[..i] && queue == ([s] + before)[k + 1..] + kids[..i]
        {
          result := result + [kids[i]];
          queue := queue + [kids[i]];
        }
        k := k + 1;
        assert kids[..|kids|] == kids;
        assert [s] + result == ([s] + before) + kids;
        Bounded(Abs(), s, [s] + result, k);
      }
      SearchEnds(Abs(), s, [s] + result);
      assert ([s] + result)[1..] == result;
    }

    /** invalidate: every session listed is a known child. */
    method Invalidate(sessions: seq<Session>)
      requires forall i :: 0 <= i < |sessions| ==> sessions[i] in nodes
      modifies this`nodes
      ensures nodes == map c | c in old(nodes) :: if c in sessions then Cleared(old(nodes)[c]) else old(nodes)[c]
    {
      for i := 0 to |sessions|
        invariant nodes.Keys == old(nodes).Keys
        invariant forall c :: c in nodes ==> nodes[c] == if c in sessions[..i] then Cleared(old(nodes)[c]) else old(nodes)[c]
      {
        nodes := nodes[sessions[i] := nodes[sessions[i]].(capabilities := None, state := None)];
        assert sessions[..i + 1] == sessions[..i] + [sessions[i]];
      }
      assert sessions[..|sessions|] == sessions;
    }

    /** Descendants, each then invalidated. */
    method InvalidateBelow(s: Session) returns (subtree: seq<Session>)
      requires Forest(Abs())
      modifies this`nodes
      ensures Descends(old(Abs()), s, subtree)
      ensures nodes == Invalidated(old(nodes), s)
    {
      hide Below, Forest;
      subtree := Descendants(s);
      forall i | 0 <= i < |subtree| ensures subtree[i] in nodes { assert AfterParent(nodes, s, subtree, i); }
      Invalidate(subtree);
    }

    /** Restore, up to sending the request: a child cannot be restored directly. */
    method BeginRestore(s: Session, replay: bool) returns (attempt: Option<nat>)
      requires Valid(Abs())
      modifies this
      ensures Abs() == Began(old(Abs()), s, replay) && Valid(Abs())
      ensures attempt == if s in old(nodes) then None else Some(|old(attempts)|)
    {
      hide Forest, Invalidated;
      StepValid(Abs(), Begin(s, replay));
      if s in nodes {
        return None;
      }
      attempt := Some(|attempts|);
      restores := restores[s := |attempts|];
      attempts := attempts + [Attempt(s, replay, false, false)];
      SameForest(old(Abs()), Abs());
      var subtree := InvalidateBelow(s);
    }

    /** The response callback of attempt k. */
    method Settle(k: nat, restoreMethod: bool, failed: bool)
      requires Valid(Abs()) && k < |attempts|
      modifies this`attempts
      ensures Abs() == Settled(old(Abs()), k, restoreMethod, failed) && Valid(Abs())
    {
      StepValid(Abs(), Event.Settle(k, restoreMethod, failed));
      if !restoreMethod {
        return;
      }
      if !attempts[k].settled {
        attempts := attempts[k := attempts[k].(settled := true, answered := !failed)];
      }
    }

    /** The rest of Restore, once its send returned. */
    method FinishRestore(k: nat, failed: bool)
      requires Valid(Abs()) && k < |attempts|
      modifies this
      ensures Abs() == Finished(old(Abs()), k, failed) && Valid(Abs())
    {
      hide Forest, Invalidated;
      StepValid(Abs(), Finish(k, failed));
      var s := attempts[k].session;
      if s in restores && restores[s] == k {
        restores := restores - {s};
        if failed {
          SameForest(old(Abs()), Abs());
          var subtree := InvalidateBelow(s);
        }
      }
    }

    method Closed(s: Session) returns (subtree: seq<Session>)
      requires Valid(Abs())
      modifies this
      ensures Abs() == ClosedAt(old(Abs()), s) && Valid(Abs()) && Descends(old(Abs()), s, subtree)
    {
      hide Forest, Invalidated, Descends;
      StepValid(Abs(), Close(s));
      subtree := InvalidateBelow(s);
    }

    method Disconnected()
      requires Valid(Abs())
      modifies this
      ensures Abs() == DisconnectedAll(old(Abs())) && Valid(Abs())
    {
      hide Forest;
      StepValid(Abs(), Disconnect);
      var left := nodes.Keys;
      while left != {}
        invariant nodes.Keys == old(nodes).Keys && left <= nodes.Keys
        invariant forall c :: c in nodes ==> nodes[c] == if c in left then old(nodes)[c] else Cleared(old(nodes)[c])
        invariant children == old(children) && restores == old(restores) && attempts == old(attempts)
      {
        var c :| c in left;
        nodes := nodes[c := nodes[c].(capabilities := None, state := None)];
        left := left - {c};
      }
      restores := map[];
      assert nodes == map c | c in old(nodes) :: Cleared(old(nodes)[c]);
    }

    /** snapshot: while the root is being restored, no mutation is permitted. */
    method Snapshot(c: Session) returns (s: Subagent)
      requires Valid(Abs()) && c in nodes
      ensures s == Subagent(c, nodes[c].parent, Root(nodes, c), nodes[c].association,
                            if Root(nodes, c) in restores then None else nodes[c].capabilities, nodes[c].state)
      ensures s.root !in nodes && Below(nodes, c, s.root)
    {
      var r := RootOf(c);
      RootBelow(nodes, c);
      return Subagent(c, nodes[c].parent, r, nodes[c].association, if r in restores then None else nodes[c].capabilities, nodes[c].state);
    }
  }

  /** The root is an ancestor. */
  lemma RootBelow(nodes: Nodes, c: Session)
    requires Acyclic(nodes) && c in nodes
    ensures Below(nodes, c, Root(nodes, c))
  {
    assert HasRoot(nodes, c);
    var n: nat :| Ends(nodes, c, n);
    RootIs(nodes, c, n);
  }

  lemma Start(t: Tree, s: Session)
    ensures Searched(t, s, [s], 0)
  {}
}
