/** Every operation keeps the subagents a forest, and a refused update is exactly one that
    would not. */
module SubagentForest {
  import opened Options
  import opened Subagents

  // ---- climbing ----

  lemma {:induction false} UpAdds(nodes: Nodes, s: Session, n: nat, m: nat)
    ensures Up(nodes, Up(nodes, s, n), m) == Up(nodes, s, n + m)
    decreases n
  {
    if n > 0 && s in nodes { UpAdds(nodes, nodes[s].parent, n - 1, m); }
  }

  lemma {:induction false} UpStays(nodes: Nodes, s: Session, n: nat, m: nat)
    requires Ends(nodes, s, n)
    ensures Up(nodes, s, n + m) == Up(nodes, s, n)
    decreases n
  {
    UpAdds(nodes, s, n, m);
  }

  /** However far one climbs, the root is the same. */
  lemma RootIs(nodes: Nodes, s: Session, n: nat)
    requires Ends(nodes, s, n)
    ensures Root(nodes, s) == Up(nodes, s, n)
  {
    assert HasRoot(nodes, s);
    var m: nat :| Ends(nodes, s, m) && Root(nodes, s) == Up(nodes, s, m);
    UpStays(nodes, s, n, m);
    UpStays(nodes, s, m, n);
  }

  /** No session is its own ancestor. */
  lemma NotBelowItself(nodes: Nodes, s: Session)
    requires Acyclic(nodes)
    ensures !Below(nodes, s, s)
  {
    if Below(nodes, s, s) {
      var n: nat :| n > 0 && Up(nodes, s, n) == s;
      assert HasRoot(nodes, s);
      var m: nat :| Ends(nodes, s, m);
      Loops(nodes, s, n, m);
      UpStays(nodes, s, m, m * n - m);
    }
  }

  lemma {:induction false} Loops(nodes: Nodes, s: Session, n: nat, m: nat)
    requires Up(nodes, s, n) == s && n > 0
    ensures m * n >= m && Up(nodes, s, m * n) == s
    decreases m
  {
    if m > 0 {
      Loops(nodes, s, n, m - 1);
      UpAdds(nodes, s, (m - 1) * n, n);
      assert (m - 1) * n + n == m * n;
    }
  }

  /** Trees with the same parents climb alike. */
  ghost predicate SameParents(a: Nodes, b: Nodes) { a.Keys == b.Keys && forall s :: s in a ==> a[s].parent == b[s].parent }

  lemma {:induction false} SameUp(a: Nodes, b: Nodes, s: Session, n: nat)
    requires SameParents(a, b)
    ensures Up(a, s, n) == Up(b, s, n) && (Ends(a, s, n) <==> Ends(b, s, n))
    decreases n
  {
    if n > 0 && s in a { SameUp(a, b, a[s].parent, n - 1); }
  }

  lemma SameAcyclic(a: Nodes, b: Nodes)
    requires SameParents(a, b) && Acyclic(a)
    ensures Acyclic(b)
  {
    forall s ensures HasRoot(b, s) {
      assert HasRoot(a, s);
      assert HasRoot(a, s);
      var n: nat :| Ends(a, s, n);
      SameUp(a, b, s, n);
    }
  }

  lemma SameRoot(a: Nodes, b: Nodes, s: Session)
    requires SameParents(a, b) && Acyclic(a)
    ensures Root(a, s) == Root(b, s)
  {
    assert HasRoot(a, s);
    var n: nat :| Ends(a, s, n);
    SameUp(a, b, s, n);
    RootIs(a, s, n);
    RootIs(b, s, n);
  }

  // ---- a new child ----

  /** A chain that does not end at c is not changed by making c a child. */
  lemma {:induction false} UpAround(nodes: Nodes, s: Session, c: Session, node: Node, n: nat)
    requires c !in nodes && Up(nodes, s, n) != c && Ends(nodes, s, n)
    ensures Up(nodes[c := node], s, n) == Up(nodes, s, n) && Ends(nodes[c := node], s, n)
    decreases n
  {
    if n > 0 && s in nodes { UpAround(nodes, nodes[s].parent, c, node, n - 1); }
  }

  /** A chain that ended at c goes on from its new parent. */
  lemma {:induction false} UpThrough(nodes: Nodes, s: Session, c: Session, node: Node, n: nat) returns (k: nat)
    requires c !in nodes && Up(nodes, s, n) == c
    ensures Up(nodes[c := node], s, k) == c
    decreases n
  {
    if s == c {
      k := 0;
    } else {
      k := UpThrough(nodes, nodes[s].parent, c, node, n - 1);
      k := k + 1;
    }
  }

  /** A new child keeps every chain ending exactly if its parent's chain does not end at it. */
  lemma NewChild(nodes: Nodes, c: Session, node: Node)
    requires Acyclic(nodes) && c !in nodes
    ensures Acyclic(nodes[c := node]) <==> Root(nodes, node.parent) != c
    ensures Root(nodes, node.parent) != c ==> forall s ::
      Root(nodes[c := node], s) == if Root(nodes, s) == c then Root(nodes, node.parent) else Root(nodes, s)
  {
    hide Acyclic, Root;
    if Root(nodes, node.parent) == c {
      ClosesCycle(nodes, c, node);
    } else {
      var after := nodes[c := node];
      forall s ensures HasRoot(after, s) { NewRoot(nodes, c, node, s); }
      forall s ensures Root(nodes[c := node], s) == if Root(nodes, s) == c then Root(nodes, node.parent) else Root(nodes, s) {
        NewRoot(nodes, c, node, s);
      }
      ChainsEnd(after);
    }
  }

  lemma ChainsEnd(nodes: Nodes)
    requires forall s :: HasRoot(nodes, s)
    ensures Acyclic(nodes)
  {}

  lemma ClosesCycle(nodes: Nodes, c: Session, node: Node)
    requires Acyclic(nodes) && c !in nodes && Root(nodes, node.parent) == c
    ensures !Acyclic(nodes[c := node])
  {
    assert HasRoot(nodes, node.parent);
    var n: nat :| Ends(nodes, node.parent, n);
    RootIs(nodes, node.parent, n);
    var k := UpThrough(nodes, node.parent, c, node, n);
    assert Up(nodes[c := node], c, k + 1) == c;
    assert Below(nodes[c := node], c, c);
    if Acyclic(nodes[c := node]) { NotBelowItself(nodes[c := node], c); }
  }

  lemma NewRoot(nodes: Nodes, c: Session, node: Node, s: Session)
    requires Acyclic(nodes) && c !in nodes && Root(nodes, node.parent) != c
    ensures HasRoot(nodes[c := node], s)
    ensures Root(nodes[c := node], s) == if Root(nodes, s) == c then Root(nodes, node.parent) else Root(nodes, s)
  {
    var after := nodes[c := node];
    assert HasRoot(nodes, s);
    var n: nat :| Ends(nodes, s, n);
    assert HasRoot(nodes, node.parent);
    var m: nat :| Ends(nodes, node.parent, m);
    RootIs(nodes, s, n);
    RootIs(nodes, node.parent, m);
    UpAround(nodes, node.parent, c, node, m);
    if Root(nodes, s) == c {
      var k := UpThrough(nodes, s, c, node, n);
      UpAdds(after, s, k, m + 1);
      assert Up(after, c, m + 1) == Up(after, node.parent, m);
      RootIs(after, s, k + (m + 1));
    } else {
      UpAround(nodes, s, c, node, n);
      RootIs(after, s, n);
    }
  }

  // ---- every operation keeps the forest ----

  /** Observe accepts a new child exactly if the forest stays one, and a known child exactly
      from its own parent. */
  lemma RefusedExactly(t: Tree, parent: Session, u: Update)
    requires Forest(t)
    ensures Judge(t, parent, u).Applied? <==>
      && u.session != parent
      && (u.session in t.nodes ==> t.nodes[u.session].parent == parent)
      && (forall node: Node :: node.parent == parent ==> Acyclic(t.nodes[u.session := node]))
    ensures !Judge(t, parent, u).Applied? ==> Observed(t, parent, u) == t
  {
    hide Acyclic, Root, Listed;
    forall node: Node | node.parent == parent
      ensures u.session !in t.nodes ==> (Acyclic(t.nodes[u.session := node]) <==> Root(t.nodes, parent) != u.session)
      ensures u.session in t.nodes && t.nodes[u.session].parent == parent ==> Acyclic(t.nodes[u.session := node])
    {
      if u.session !in t.nodes {
        NewChild(t.nodes, u.session, node);
      } else if t.nodes[u.session].parent == parent {
        SameAcyclic(t.nodes, t.nodes[u.session := node]);
      }
    }
    var some := Node(parent, NO_FIELDS, None, None);
    assert some.parent == parent;
  }

  lemma ObservedListed(t: Tree, parent: Session, u: Update)
    requires Listed(t) && Judge(t, parent, u).Applied?
    ensures Listed(Observed(t, parent, u))
  {
    var c, t' := u.session, Observed(t, parent, u);
    hide Judge, Historical, Usable, Root;
    if c !in t.nodes {
      assert c !in Kids(t, parent);
      forall s ensures Kids(t', s) == if s == parent then Kids(t, s) + [c] else Kids(t, s) {}
    } else {
      forall s ensures Kids(t', s) == Kids(t, s) {}
    }
  }

  lemma ObservedForest(t: Tree, parent: Session, u: Update)
    requires Forest(t)
    ensures Forest(Observed(t, parent, u))
  {
    hide Acyclic, Listed, Reported, Kids, Root, Historical;
    if Judge(t, parent, u).Applied? {
      ObservedListed(t, parent, u);
      RefusedExactly(t, parent, u);
      var node := Reported(Stored(t, parent, u.session), Usable(u.fields), Historical(t, parent));
      ReportedParent(Stored(t, parent, u.session), Usable(u.fields), Historical(t, parent));
      assert Observed(t, parent, u).nodes == t.nodes[u.session := node];
    }
  }

  lemma ReportedParent(node: Node, f: Association, historical: bool)
    ensures Reported(node, f, historical).parent == node.parent
  {}

  /** An update never moves a session: its root stays, unless it or its root became a child. */
  lemma ObservedRoot(t: Tree, parent: Session, u: Update)
    requires Forest(t) && Judge(t, parent, u).Applied?
    ensures Root(Observed(t, parent, u).nodes, parent) == Root(t.nodes, parent)
  {
    hide Acyclic, Listed, Reported, Kids, Root, Historical;
    var node := Reported(Stored(t, parent, u.session), Usable(u.fields), Historical(t, parent));
    ReportedParent(Stored(t, parent, u.session), Usable(u.fields), Historical(t, parent));
    assert Observed(t, parent, u).nodes == t.nodes[u.session := node];
    if u.session in t.nodes {
      SameRoot(t.nodes, t.nodes[u.session := node], parent);
    } else {
      NewChild(t.nodes, u.session, node);
    }
  }

  /** Keeping the parents keeps the forest. */
  lemma SameForest(t: Tree, t': Tree)
    requires Forest(t) && SameParents(t.nodes, t'.nodes) && t'.children == t.children
    ensures Forest(t')
  {
    SameAcyclic(t.nodes, t'.nodes);
    forall s ensures Kids(t', s) == Kids(t, s) {}
  }

  /** Every step of every run keeps the tree valid. */
  lemma StepValid(t: Tree, e: Event)
    requires Valid(t)
    ensures Valid(Step(t, e))
  {
    hide Forest, Below, Acyclic, Listed, Judge, Reported;
    if e.Observe? { ObservedForest(t, e.parent, e.update); } else { SameForest(t, Step(t, e)); }
  }

  lemma {:induction false} RunValid(run: seq<Event>)
    ensures Valid(Exec(run))
  {
    if run == [] {
      forall s ensures HasRoot(map[], s) { assert Ends(map[], s, 0); }
    } else {
      RunValid(run[..|run| - 1]);
      StepValid(Exec(run[..|run| - 1]), run[|run| - 1]);
    }
  }
}
