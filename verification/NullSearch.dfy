/** Whether a schema accepts JSON null (cmd/acpgen/ir.go): a depth-first search through
    references that may be cyclic, with one set of visited names for all branches. */
module NullSearch {

  datatype Types = NoType | One(name: string) | Many(names: seq<string>)

  datatype Ref = NoRef | Def(name: string) | OtherRef

  /** A schema of the generator; Nil is an absent one. `constrained` stands for the other
      keywords that constrain a value: const, enum, items, additionalProperties and not. */
  datatype Schema = Nil | Schema(types: Types, ref: Ref, properties: bool, constrained: bool,
    anyOf: seq<Schema>, oneOf: seq<Schema>, allOf: seq<Schema>)

  type Defs = map<string, Schema>

  predicate IsNull(s: Schema) { s.Schema? && s.types.Many? && "null" in s.types.names }

  predicate SoleNull(s: Schema) { s.Schema? && s.types == One("null") }

  predicate IsEmpty(s: Schema) {
    s.Schema? && s.ref.NoRef? && s.types.NoType? && !s.properties && !s.constrained && s.allOf == [] && s.anyOf == [] && s.oneOf == []
  }

  /** The schema itself admits null. */
  predicate NullHere(s: Schema) { IsNull(s) || SoleNull(s) || IsEmpty(s) }

  predicate Named(s: Schema) { s.Schema? && s.ref.Def? && s.ref.name != "" }

  /** The arms that may admit null in its place. */
  function Arms(s: Schema): seq<Schema>
    requires s.Schema?
  {
    s.anyOf + s.oneOf + if |s.allOf| == 1 && s.types.NoType? && !s.properties then s.allOf else []
  }

  /** The edges the search follows: a reference to its definition, if there is one,
      otherwise the arms. */
  function Follows(defs: Defs, s: Schema): seq<Schema> {
    if s.Nil? then []
    else if Named(s) then (if s.ref.name in defs then [defs[s.ref.name]] else [])
    else Arms(s)
  }

  /** A schema that admits null is at most n edges away. */
  predicate Within(defs: Defs, s: Schema, n: nat)
    decreases n
  {
    NullHere(s) || (n > 0 && exists i :: 0 <= i < |Follows(defs, s)| && Within(defs, Follows(defs, s)[i], n - 1))
  }

  ghost predicate Reaches(defs: Defs, s: Schema) { exists n: nat :: Within(defs, s, n) }

  lemma ReachesStep(defs: Defs, s: Schema, i: nat)
    requires i < |Follows(defs, s)| && Reaches(defs, Follows(defs, s)[i])
    ensures Reaches(defs, s)
  {
    var n: nat :| Within(defs, Follows(defs, s)[i], n);
    assert Within(defs, s, n + 1);
  }

  // ---- schemas found not to admit null ----

  /** Nothing here, and nothing along its edges that is not settled or named in seen. */
  ghost predicate Settled(dead: set<Schema>, seen: set<string>, s: Schema) {
    && !NullHere(s)
    && (Named(s) ==> s.ref.name in seen)
    && (s.Schema? && !Named(s) ==> forall i :: 0 <= i < |Arms(s)| ==> Arms(s)[i] in dead)
  }

  /** Every dead schema is settled, and every name seen is dead, but those still open. */
  ghost predicate Consistent(defs: Defs, dead: set<Schema>, seen: set<string>, open: set<string>) {
    && (forall d :: d in dead ==> Settled(dead, seen, d))
    && (forall x :: x in seen && x !in open && x in defs ==> defs[x] in dead)
  }

  lemma {:induction false} DeadNeverReaches(defs: Defs, dead: set<Schema>, seen: set<string>, d: Schema, n: nat)
    requires Consistent(defs, dead, seen, {}) && d in dead
    ensures !Within(defs, d, n)
    decreases n
  {
    if n > 0 {
      assert Settled(dead, seen, d);
      forall i | 0 <= i < |Follows(defs, d)| ensures !Within(defs, Follows(defs, d)[i], n - 1) {
        DeadNeverReaches(defs, dead, seen, Follows(defs, d)[i], n - 1);
      }
    }
  }

  lemma AddDead(defs: Defs, dead: set<Schema>, seen: set<string>, open: set<string>, s: Schema)
    requires Consistent(defs, dead, seen, open) && Settled(dead, seen, s)
    ensures Consistent(defs, dead + {s}, seen, open)
  {
    forall d | d in dead + {s} ensures Settled(dead + {s}, seen, d) { assert Settled(dead, seen, d); }
  }

  /** At most left definitions are still to be visited. */
  ghost predicate Room(defs: Defs, seen: set<string>, left: nat) { |defs.Keys - seen| <= left }

  lemma RoomLeft(defs: Defs, a: set<string>, b: set<string>, left: nat)
    requires a <= b && Room(defs, a, left)
    ensures Room(defs, b, left)
  {
    var all := defs.Keys;
    assert all - a == (all - b) + ((b - a) * all);
    assert (all - b) !! ((b - a) * all);
  }

  lemma RoomUsed(defs: Defs, seen: set<string>, name: string, left: nat)
    requires Room(defs, seen, left) && name in defs && name !in seen
    ensures left > 0 && Room(defs, seen + {name}, left - 1)
  {
    assert defs.Keys - seen == (defs.Keys - (seen + {name})) + {name};
  }

  class Search {
    const defs: Defs
    /** The names visited, whichever arm they were met in. */
    var seen: set<string>
    ghost var dead: set<Schema>

    constructor (defs: Defs)
      ensures this.defs == defs && seen == {} && dead == {}
    {
      this.defs, seen, dead := defs, {}, {};
    }

    /** admitsNull; `open` holds the names whose definitions are being searched, `left` bounds
        how many are still to be visited. */
    method AdmitsNull(s: Schema, ghost open: set<string>, ghost left: nat) returns (r: bool)
      requires Room(defs, seen, left) && Consistent(defs, dead, seen, open)
      modifies this
      ensures old(seen) <= seen && old(dead) <= dead
      ensures r ==> Reaches(defs, s)
      ensures !r ==> s in dead && Consistent(defs, dead, seen, open)
      decreases left, s
    {
      hide Consistent, Settled, Reaches, Within;
      if s.Nil? {
        NilSettled(dead, seen);
        AddDead(defs, dead, seen, open, s);
        dead := dead + {s};
        return false;
      }
      if IsNull(s) || SoleNull(s) || IsEmpty(s) {
        HereReaches(defs, s);
        return true;
      }
      if Named(s) {
        r := Visit(s, open, left);
      } else {
        r := SearchArms(s, open, left);
      }
    }

    /** A reference: its definition is searched, unless its name was seen before. */
    method Visit(s: Schema, ghost open: set<string>, ghost left: nat) returns (r: bool)
      requires Room(defs, seen, left) && Consistent(defs, dead, seen, open) && Named(s) && !NullHere(s)
      modifies this
      ensures old(seen) <= seen && old(dead) <= dead
      ensures r ==> Reaches(defs, s)
      ensures !r ==> s in dead && Consistent(defs, dead, seen, open)
      decreases left, s, 0
    {
      hide Consistent, Settled, Reaches, Within, NullHere, Room;
      var name := s.ref.name;
      r := false;
      if name !in seen {
        if name in defs { RoomUsed(defs, seen, name, left); }
        Opened(defs, dead, seen, open, name);
        seen := seen + {name};
        if name in defs {
          r := AdmitsNull(defs[name], open + {name}, left - 1);
          if r { ReachesStep(defs, s, 0); }
        }
      }
      if !r {
        Closed(defs, dead, seen, open, name);
        NameSettled(dead, seen, s);
        AddDead(defs, dead, seen, open, s);
        dead := dead + {s};
      }
    }

    /** The arms in turn, until one admits null. */
    method SearchArms(s: Schema, ghost open: set<string>, ghost left: nat) returns (r: bool)
      requires Room(defs, seen, left) && Consistent(defs, dead, seen, open) && s.Schema? && !Named(s) && !NullHere(s)
      modifies this
      ensures old(seen) <= seen && old(dead) <= dead
      ensures r ==> Reaches(defs, s)
      ensures !r ==> s in dead && Consistent(defs, dead, seen, open)
      decreases left, s, 0
    {
      hide *;
      var arms := Arms(s);
      FollowsArms(defs, s);
      for i := 0 to |arms|
        invariant old(seen) <= seen && old(dead) <= dead && Consistent(defs, dead, seen, open)
        invariant forall j :: 0 <= j < i ==> arms[j] in dead
      {
        RoomLeft(defs, old(seen), seen, left);
        ArmSmaller(s, i);
        r := AdmitsNull(arms[i], open, left);
        if r {
          ReachesStep(defs, s, i);
          return true;
        }
      }
      ArmsSettled(dead, seen, s);
      AddDead(defs, dead, seen, open, s);
      dead := dead + {s};
      return false;
    }
  }

  lemma FollowsArms(defs: Defs, s: Schema)
    requires s.Schema? && !Named(s)
    ensures Follows(defs, s) == Arms(s)
  {}

  lemma ArmsSettled(dead: set<Schema>, seen: set<string>, s: Schema)
    requires s.Schema? && !Named(s) && !NullHere(s) && forall i :: 0 <= i < |Arms(s)| ==> Arms(s)[i] in dead
    ensures Settled(dead, seen, s)
  {}

  lemma ArmSmaller(s: Schema, i: nat)
    requires s.Schema? && i < |Arms(s)|
    ensures Arms(s)[i] < s
  {
    var a, b := |s.anyOf|, |s.anyOf| + |s.oneOf|;
    if i < a { assert Arms(s)[i] == s.anyOf[i]; }
    else if i < b { assert Arms(s)[i] == s.oneOf[i - a]; }
    else { assert Arms(s)[i] == s.allOf[i - b]; }
  }

  lemma NameSettled(dead: set<Schema>, seen: set<string>, s: Schema)
    requires Named(s) && !NullHere(s) && s.ref.name in seen
    ensures Settled(dead, seen, s)
  {}

  /** A name opens: more is seen, and nothing is owed for it yet. */
  lemma Opened(defs: Defs, dead: set<Schema>, seen: set<string>, open: set<string>, name: string)
    requires Consistent(defs, dead, seen, open)
    ensures Consistent(defs, dead, seen + {name}, open + {name})
    ensures name !in defs ==> Consistent(defs, dead, seen + {name}, open)
  {
    forall d | d in dead ensures Settled(dead, seen + {name}, d) { assert Settled(dead, seen, d); }
  }

  /** It closes once its definition is dead. */
  lemma Closed(defs: Defs, dead: set<Schema>, seen: set<string>, open: set<string>, name: string)
    requires Consistent(defs, dead, seen, open) || (Consistent(defs, dead, seen, open + {name}) && (name in defs ==> defs[name] in dead))
    ensures Consistent(defs, dead, seen, open)
  {}

  lemma NilSettled(dead: set<Schema>, seen: set<string>)
    ensures Settled(dead, seen, Nil)
  {}

  lemma HereReaches(defs: Defs, s: Schema)
    requires IsNull(s) || SoleNull(s) || IsEmpty(s)
    ensures Reaches(defs, s)
  {
    assert Within(defs, s, 0);
  }

  /** From an empty set of names, the search ends on every graph of definitions, cyclic ones
      included, and finds a null-admitting schema exactly if one is reachable. */
  method AdmitsNull(defs: Defs, s: Schema) returns (r: bool)
    ensures r <==> Reaches(defs, s)
  {
    var search := new Search(defs);
    assert Room(defs, {}, |defs.Keys|) by { assert defs.Keys - {} == defs.Keys; }
    r := search.AdmitsNull(s, {}, |defs.Keys|);
    if !r && Reaches(defs, s) {
      var n: nat :| Within(defs, s, n);
      DeadNeverReaches(defs, search.dead, search.seen, s, n);
    }
  }

  // ---- what it means ----

  /** The type keyword lets null through. */
  predicate TypeAdmits(t: Types) {
    match t
    case NoType => true
    case One(name) => name == "null"
    case Many(names) => "null" in names
  }

  /** What JSON Schema says of null, following references at most n deep: every keyword must
      admit it, a union by one of its arms. The other constraints are taken to refuse it. */
  predicate AllowsNull(defs: Defs, s: Schema, n: nat)
    decreases n
  {
    && s.Schema? && TypeAdmits(s.types) && !s.constrained && s.ref != OtherRef
    && (s.ref.Def? ==> s.ref.name in defs && n > 0 && AllowsNull(defs, defs[s.ref.name], n - 1))
    && (s.anyOf != [] ==> n > 0 && exists i :: 0 <= i < |s.anyOf| && AllowsNull(defs, s.anyOf[i], n - 1))
    && (s.oneOf != [] ==> n > 0 && exists i :: 0 <= i < |s.oneOf| && AllowsNull(defs, s.oneOf[i], n - 1))
    && (s.allOf != [] ==> n > 0 && forall i :: 0 <= i < |s.allOf| ==> AllowsNull(defs, s.allOf[i], n - 1))
  }

  /** The shapes the generator is written for: a schema is a type with its constraints, a
      reference, one union, a wrapper of one schema, constraints alone, or nothing; and a type
      with further constraints is not null. */
  predicate Shaped(s: Schema) {
    s.Schema? ==>
      && s.ref != OtherRef && (s.ref.Def? ==> s.ref.name != "")
      && (s.types != NoType ==> s.ref == NoRef && s.anyOf == s.oneOf == s.allOf == [])
      && (s.ref.Def? ==> s.anyOf == s.oneOf == s.allOf == [])
      && (s.anyOf == [] || s.oneOf == []) && (s.allOf != [] ==> |s.allOf| == 1 && s.anyOf == s.oneOf == [])
      && (s.properties ==> s.types != NoType)
      && (s.constrained ==> s.ref == NoRef && s.anyOf == s.oneOf == s.allOf == [] && (s.types == NoType || !TypeAdmits(s.types)))
      && (forall i :: 0 <= i < |s.anyOf| ==> Shaped(s.anyOf[i]))
      && (forall i :: 0 <= i < |s.oneOf| ==> Shaped(s.oneOf[i]))
      && (forall i :: 0 <= i < |s.allOf| ==> Shaped(s.allOf[i]))
  }

  /** No type and no constraint of its own. */
  predicate Bare(s: Schema) { s.Schema? && s.types == NoType && !s.properties && !s.constrained && s.ref != OtherRef }

  /** Along these edges the search and the meaning agree. */
  ghost predicate EdgesAgree(defs: Defs, s: Schema, n: nat)
    requires n > 0
  {
    forall i :: 0 <= i < |Follows(defs, s)| ==> (Within(defs, Follows(defs, s)[i], n - 1) <==> AllowsNull(defs, Follows(defs, s)[i], n - 1))
  }

  lemma RefAgrees(defs: Defs, s: Schema, n: nat)
    requires Bare(s) && Named(s) && s.anyOf == s.oneOf == s.allOf == [] && n > 0 && EdgesAgree(defs, s, n)
    ensures Within(defs, s, n) <==> AllowsNull(defs, s, n)
  {
    if s.ref.name in defs { assert Follows(defs, s)[0] == defs[s.ref.name]; }
  }

  lemma AnyAgrees(defs: Defs, s: Schema, n: nat)
    requires Bare(s) && s.ref == NoRef && s.anyOf != [] && s.oneOf == s.allOf == [] && n > 0 && EdgesAgree(defs, s, n)
    ensures Within(defs, s, n) <==> AllowsNull(defs, s, n)
  {
    assert Follows(defs, s) == s.anyOf;
  }

  lemma OneAgrees(defs: Defs, s: Schema, n: nat)
    requires Bare(s) && s.ref == NoRef && s.oneOf != [] && s.anyOf == s.allOf == [] && n > 0 && EdgesAgree(defs, s, n)
    ensures Within(defs, s, n) <==> AllowsNull(defs, s, n)
  {
    assert Follows(defs, s) == s.oneOf;
  }

  lemma WrapperAllows(defs: Defs, s: Schema, n: nat)
    requires Bare(s) && s.ref == NoRef && s.anyOf == s.oneOf == [] && |s.allOf| == 1 && n > 0
    ensures AllowsNull(defs, s, n) <==> AllowsNull(defs, s.allOf[0], n - 1)
  {
    var only := s.allOf[0];
    assert s.allOf == [only];
  }

  lemma WrapperWithin(defs: Defs, s: Schema, n: nat)
    requires Bare(s) && s.ref == NoRef && s.anyOf == s.oneOf == [] && |s.allOf| == 1 && n > 0
    ensures |Follows(defs, s)| == 1 && Follows(defs, s)[0] == s.allOf[0]
    ensures Within(defs, s, n) <==> Within(defs, s.allOf[0], n - 1)
  {
    assert Follows(defs, s) == s.allOf;
  }

  lemma AllAgrees(defs: Defs, s: Schema, n: nat)
    requires Bare(s) && s.ref == NoRef && s.anyOf == s.oneOf == [] && |s.allOf| <= 1 && n > 0 && EdgesAgree(defs, s, n)
    ensures Within(defs, s, n) <==> AllowsNull(defs, s, n)
  {
    if |s.allOf| == 1 {
      hide Within, AllowsNull, Follows;
      WrapperAllows(defs, s, n);
      WrapperWithin(defs, s, n);
    }
  }

  lemma ShapeOf(s: Schema)
    requires Shaped(s) && s.Schema? && s.types == NoType && !s.constrained
    ensures Bare(s)
    ensures s.ref.Def? ==> Named(s) && s.anyOf == s.oneOf == s.allOf == []
    ensures s.ref == NoRef && s.anyOf != [] ==> s.oneOf == s.allOf == []
    ensures s.ref == NoRef && s.oneOf != [] ==> s.anyOf == s.allOf == []
    ensures |s.allOf| <= 1
  {}

  lemma BareAgrees(defs: Defs, s: Schema, n: nat)
    requires Shaped(s) && s.Schema? && s.types == NoType && !s.constrained && n > 0 && EdgesAgree(defs, s, n)
    ensures Within(defs, s, n) <==> AllowsNull(defs, s, n)
  {
    hide Shaped, Within, AllowsNull, EdgesAgree, Named;
    ShapeOf(s);
    if s.ref.Def? { RefAgrees(defs, s, n); }
    else if s.anyOf != [] { AnyAgrees(defs, s, n); }
    else if s.oneOf != [] { OneAgrees(defs, s, n); }
    else { AllAgrees(defs, s, n); }
  }

  lemma TypedAgrees(defs: Defs, s: Schema, n: nat)
    requires Shaped(s) && (s.Nil? || s.types != NoType || s.constrained)
    ensures Within(defs, s, n) <==> AllowsNull(defs, s, n)
  {
    if s.Schema? { assert Follows(defs, s) == []; }
  }

  lemma EdgeShaped(defs: Defs, s: Schema, i: nat)
    requires Shaped(s) && i < |Follows(defs, s)| && forall name :: name in defs ==> Shaped(defs[name])
    ensures Shaped(Follows(defs, s)[i])
  {
    if !Named(s) {
      var a, b := |s.anyOf|, |s.anyOf| + |s.oneOf|;
      if i < a { assert Arms(s)[i] == s.anyOf[i]; }
      else if i < b { assert Arms(s)[i] == s.oneOf[i - a]; }
      else { assert Arms(s)[i] == s.allOf[i - b]; }
    }
  }

  lemma {:induction false} WithinIsAllowed(defs: Defs, s: Schema, n: nat)
    requires Shaped(s) && forall name :: name in defs ==> Shaped(defs[name])
    ensures Within(defs, s, n) <==> AllowsNull(defs, s, n)
    decreases n
  {
    if s.Nil? || s.types != NoType || s.constrained {
      TypedAgrees(defs, s, n);
    } else if n > 0 {
      hide Within, AllowsNull, Follows, Shaped;
      forall i | 0 <= i < |Follows(defs, s)|
        ensures Within(defs, Follows(defs, s)[i], n - 1) <==> AllowsNull(defs, Follows(defs, s)[i], n - 1)
      {
        EdgeShaped(defs, s, i);
        WithinIsAllowed(defs, Follows(defs, s)[i], n - 1);
      }
      BareAgrees(defs, s, n);
    }
  }

  /** So for schemas of these shapes, cyclic definitions included, the search answers what
      JSON Schema says. */
  lemma ReachesMeans(defs: Defs, s: Schema)
    requires Shaped(s) && forall name :: name in defs ==> Shaped(defs[name])
    ensures Reaches(defs, s) <==> exists n: nat :: AllowsNull(defs, s, n)
  {
    if n: nat :| Within(defs, s, n) { WithinIsAllowed(defs, s, n); }
    if n: nat :| AllowsNull(defs, s, n) { WithinIsAllowed(defs, s, n); }
  }
}
