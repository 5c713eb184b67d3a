/** Metadata patches (cmd/acpgen/emit.go, with Object.Set and Object.SwapDelete of
    jsonvalue/jsonvalue.go): folded from an empty entity they are finite-map override with
    null meaning removal, and no object ever stored or received is modified. */
module MetaPatch {
  import opened Options
  import opened Members
  import opened Json

  type Meta = seq<Member<Value>>

  // ---- what Set and SwapDelete do ----

  function Without(o: Meta, key: Key): Meta {
    if o == [] then [] else Without(o[..|o| - 1], key) + if o[|o| - 1].key == key then [] else [o[|o| - 1]]
  }

  /** Set: an existing member keeps its place, and further ones with the key are dropped. */
  function SetMember(o: Meta, m: Member<Value>): Meta {
    var i := First(Keys(o), m.key);
    if i < |o| then o[..i] + [m] + Without(o[i + 1..], m.key) else o + [m]
  }

  /** SwapDelete on an object without repeats: the last member takes the place. */
  function SwapRemove(o: Meta, key: Key): Meta {
    var i := First(Keys(o), key);
    if i >= |o| then o else o[i := o[|o| - 1]][..|o| - 1]
  }

  /** One member of an update. */
  function PatchMember(o: Meta, m: Member<Value>): Meta {
    if m.value == Value.Null then SwapRemove(if Repeats(o) then Merge(o) else o, m.key) else SetMember(o, m)
  }

  function PatchMembers(o: Meta, ms: Meta): Meta {
    if ms == [] then o else PatchMember(PatchMembers(o, ms[..|ms| - 1]), ms[|ms| - 1])
  }

  /** ApplyMetaUpdate, on values. */
  function Patched(stored: Patch<Meta>, update: Patch<Meta>): Patch<Meta> {
    match update
    case Unset => stored
    case Null => Patch.Null
    case Put(u) => Put(PatchMembers(if stored.Put? then stored.value else [], Merge(u)))
  }

  /** The updates of an entity, from an empty one. */
  function Fold(us: seq<Patch<Meta>>): Patch<Meta> {
    if us == [] then Unset else Patched(Fold(us[..|us| - 1]), us[|us| - 1])
  }

  // ---- what it means ----

  ghost function ToMap(o: Meta): map<Key, Value> { map k | k in Keys(o) :: Last(o, k, Value.Null) }

  /** Override: null removes a key, any other value replaces it. */
  ghost function Overridden(m: map<Key, Value>, u: map<Key, Value>): map<Key, Value> {
    map k | k in m.Keys + u.Keys && (k in u ==> u[k] != Value.Null) :: if k in u then u[k] else m[k]
  }

  ghost function Meaning(us: seq<Patch<Meta>>): map<Key, Value> {
    if us == [] then map[]
    else
      match us[|us| - 1]
      case Unset => Meaning(us[..|us| - 1])
      case Null => map[]
      case Put(u) => Overridden(Meaning(us[..|us| - 1]), ToMap(u))
  }

  /** No key twice, no null. */
  ghost predicate Clean(o: Meta) { !Repeats(o) && forall i :: 0 <= i < |o| ==> o[i].value != Value.Null }

  /** An object without repeats is read off member by member. */
  ghost predicate Shows(o: Meta, m: map<Key, Value>) {
    && (forall k :: k in m <==> k in Keys(o))
    && forall i :: 0 <= i < |o| ==> o[i].key in m && m[o[i].key] == o[i].value
  }

  lemma UniqueShows(o: Meta)
    requires !Repeats(o)
    ensures Shows(o, ToMap(o))
  {
    forall i | 0 <= i < |o| ensures o[i].key in ToMap(o) && ToMap(o)[o[i].key] == o[i].value {
      assert Keys(o)[i] == o[i].key;
      LastHere(o, i);
      LastDefault(o, o[i].key, o[i].value, Value.Null);
    }
  }

  lemma ShowsIs(o: Meta, m: map<Key, Value>)
    requires !Repeats(o) && Shows(o, m)
    ensures ToMap(o) == m
  {
    UniqueShows(o);
    forall k | k in m ensures ToMap(o)[k] == m[k] {
      var i :| 0 <= i < |Keys(o)| && Keys(o)[i] == k;
      assert o[i].key == k;
    }
  }

  // ---- Set and SwapDelete on a clean object ----

  lemma {:induction false} WithoutAbsent(o: Meta, key: Key)
    requires forall i :: 0 <= i < |o| ==> o[i].key != key
    ensures Without(o, key) == o
  {
    if o != [] { WithoutAbsent(o[..|o| - 1], key); }
  }

  /** Set on an object without repeats keeps every place. */
  lemma SetIsInsert(o: Meta, m: Member<Value>)
    requires !Repeats(o)
    ensures SetMember(o, m) == Insert(o, m)
  {
    hide Repeats, Without;
    var i := First(Keys(o), m.key);
    if i < |o| {
      AbsentAfter(o, i, o[i + 1..]);
      WithoutAbsent(o[i + 1..], m.key);
      assert o[..i] + [m] + o[i + 1..] == o[i := m];
    }
  }

  lemma AbsentAfter(o: Meta, i: nat, t: Meta)
    requires !Repeats(o) && i < |o| && t == o[i + 1..]
    ensures forall j :: 0 <= j < |t| ==> t[j].key != o[i].key
  {
    forall j | 0 <= j < |t| ensures t[j].key != o[i].key { assert t[j] == o[i + 1 + j]; }
  }

  lemma SetShows(o: Meta, m: Member<Value>)
    requires Clean(o) && m.value != Value.Null
    ensures Clean(SetMember(o, m)) && ToMap(SetMember(o, m)) == ToMap(o)[m.key := m.value]
  {
    hide Last, SetMember, Without;
    SetIsInsert(o, m);
    UniqueShows(o);
    var r := Insert(o, m);
    var i := First(Keys(o), m.key);
    assert forall j :: 0 <= j < |r| ==> r[j] == if j == i then m else o[j];
    forall a, b | 0 <= a < b < |r| ensures r[a].key != r[b].key {}
    forall j | 0 <= j < |r| ensures Keys(r)[j] == r[j].key {}
    ShowsIs(r, ToMap(o)[m.key := m.value]);
  }

  lemma RemoveShows(o: Meta, key: Key)
    requires Clean(o)
    ensures Clean(SwapRemove(o, key)) && ToMap(SwapRemove(o, key)) == ToMap(o) - {key}
  {
    hide Last, Repeats, ToMap, Shows;
    UniqueShows(o);
    var i := First(Keys(o), key);
    if i < |o| {
      var r := o[i := o[|o| - 1]][..|o| - 1];
      RemovedUnique(o, i, r);
      forall k ensures k in Keys(r) <==> k in Keys(o) && k != o[i].key { RemoveKeys(o, r, i, k); }
      RemovedShows(o, i, r, ToMap(o));
      ShowsIs(r, ToMap(o) - {key});
    } else {
      NotShown(o, key, ToMap(o));
    }
  }

  lemma RemovedUnique(o: Meta, i: nat, r: Meta)
    requires !Repeats(o) && i < |o| && r == o[i := o[|o| - 1]][..|o| - 1]
    ensures !Repeats(r)
  {
    var n := |o| - 1;
    forall a, b | 0 <= a < b < |r| ensures r[a].key != r[b].key {
      assert r[a] == o[if a == i then n else a] && r[b] == o[if b == i then n else b];
    }
  }

  lemma RemovedShows(o: Meta, i: nat, r: Meta, m: map<Key, Value>)
    requires !Repeats(o) && i < |o| && r == o[i := o[|o| - 1]][..|o| - 1] && Shows(o, m)
    requires forall k :: k in Keys(r) <==> k in Keys(o) && k != o[i].key
    ensures Shows(r, m - {o[i].key})
  {
    var n := |o| - 1;
    forall j | 0 <= j < |r| ensures r[j].key in m - {o[i].key} && (m - {o[i].key})[r[j].key] == r[j].value {
      assert r[j] == o[if j == i then n else j];
      assert Keys(r)[j] == r[j].key;
    }
  }

  lemma NotShown(o: Meta, key: Key, m: map<Key, Value>)
    requires Shows(o, m) && key !in Keys(o)
    ensures m - {key} == m
  {}

  lemma RemoveKeys(o: Meta, r: Meta, i: nat, k: Key)
    requires !Repeats(o) && i < |o| && r == o[i := o[|o| - 1]][..|o| - 1]
    ensures k in Keys(r) <==> k in Keys(o) && k != o[i].key
  {
    var n := |o| - 1;
    if k in Keys(r) {
      var j :| 0 <= j < |r| && Keys(r)[j] == k;
      var j' := if j == i then n else j;
      assert Keys(o)[j'] == k && o[j'].key != o[i].key;
    }
    if k in Keys(o) && k != o[i].key {
      var j :| 0 <= j < |o| && Keys(o)[j] == k;
      assert j != i;
      assert Keys(r)[if j == n then i else j] == k;
    }
  }

  // ---- the fold ----

  lemma ToMapSnoc(p: Meta, m: Member<Value>)
    ensures ToMap(p + [m]) == ToMap(p)[m.key := m.value]
  {
    var o := p + [m];
    assert o[..|p|] == p;
    assert Keys(o) == Keys(p) + [m.key];
  }

  lemma {:induction false} PatchMeans(o: Meta, ms: Meta)
    requires Clean(o)
    ensures Clean(PatchMembers(o, ms)) && ToMap(PatchMembers(o, ms)) == Overridden(ToMap(o), ToMap(ms))
  {
    hide Clean, SetMember, SwapRemove, Repeats;
    if ms == [] {
      assert Overridden(ToMap(o), ToMap(ms)) == ToMap(o);
    } else {
      var p, m := ms[..|ms| - 1], ms[|ms| - 1];
      PatchMeans(o, p);
      var q := PatchMembers(o, p);
      assert p + [m] == ms;
      ToMapSnoc(p, m);
      CleanUnique(q);
      if m.value == Value.Null { RemoveShows(q, m.key); } else { SetShows(q, m); }
      OverrideStep(ToMap(o), ToMap(p), m.key, m.value);
    }
  }

  lemma CleanUnique(o: Meta)
    requires Clean(o)
    ensures !Repeats(o)
  {}

  lemma OverrideStep(m: map<Key, Value>, u: map<Key, Value>, key: Key, v: Value)
    ensures Overridden(m, u[key := v]) == if v == Value.Null then Overridden(m, u) - {key} else Overridden(m, u)[key := v]
  {}

  lemma MergeMeans(u: Meta)
    ensures ToMap(Merge(u)) == ToMap(u)
  {
    var r := Merge(u);
    MergeIsNormal(u);
    NormalNoRepeats(u, r);
    forall i | 0 <= i < |r| ensures r[i].key in ToMap(u) && ToMap(u)[r[i].key] == r[i].value {
      assert Keys(r)[i] == r[i].key;
      LastDefault(u, r[i].key, r[i].value, Value.Null);
    }
    ShowsIs(r, ToMap(u));
  }

  /** Folding metadata patches from an empty entity is finite-map override with null removing
      keys; what is stored never holds a key twice, nor a null. */
  lemma {:induction false} FoldMeans(us: seq<Patch<Meta>>)
    ensures Fold(us).Put? ==> Clean(Fold(us).value) && ToMap(Fold(us).value) == Meaning(us)
    ensures !Fold(us).Put? ==> Meaning(us) == map[]
  {
    hide Clean, PatchMembers, Overridden, Merge;
    if us != [] {
      FoldMeans(us[..|us| - 1]);
      var before, u := Fold(us[..|us| - 1]), us[|us| - 1];
      if u.Put? {
        var o := if before.Put? then before.value else [];
        EmptyClean();
        PatchMeans(o, Merge(u.value));
        MergeMeans(u.value);
      }
    }
  }

  lemma EmptyClean()
    ensures Clean([]) && ToMap([]) == map[]
  {}

  /** Update j is the last that names metadata. */
  ghost predicate LastNamed(us: seq<Patch<Meta>>, j: nat) {
    j < |us| && !us[j].Unset? && forall k :: j < k < |us| ==> us[k].Unset?
  }

  /** Whether metadata is set, null or unset is what the last update that names it says. */
  lemma {:induction false} FoldKind(us: seq<Patch<Meta>>)
    ensures forall j: nat :: LastNamed(us, j) ==> (Fold(us).Null? <==> us[j].Null?) && (Fold(us).Put? <==> us[j].Put?)
    ensures (forall k :: 0 <= k < |us| ==> us[k].Unset?) ==> Fold(us).Unset?
  {
    hide PatchMembers, Merge;
    if us != [] {
      var n := |us| - 1;
      var before := us[..n];
      FoldKind(before);
      forall k | 0 <= k < n ensures before[k] == us[k] {}
      forall j: nat | j < n && LastNamed(us, j) ensures LastNamed(before, j) && us[n].Unset? {}
    }
  }

  // ---- Set on any object ----

  lemma WithoutLast(p: Meta, m: Member<Value>, key: Key)
    ensures Without(p + [m], key) == Without(p, key) + if m.key == key then [] else [m]
  {
    assert (p + [m])[..|p|] == p;
  }

  lemma {:induction false} WithoutMeans(o: Meta, key: Key, k: Key, dflt: Value)
    ensures k in Keys(Without(o, key)) <==> k in Keys(o) && k != key
    ensures k != key ==> Last(Without(o, key), k, dflt) == Last(o, k, dflt)
  {
    hide Last, Without, Keys;
    if o == [] {
      NoKeys(key, k);
    } else {
      var p, m := o[..|o| - 1], o[|o| - 1];
      assert o == p + [m];
      WithoutMeans(p, key, k, dflt);
      WithoutLast(p, m, key);
      LastExtends(p, m, k, dflt);
      KeysJoin(p, [m], k);
      OneKey(m, k);
      if m.key == key {
        assert Without(o, key) == Without(p, key);
      } else {
        LastExtends(Without(p, key), m, k, dflt);
        KeysJoin(Without(p, key), [m], k);
      }
    }
  }

  lemma NoKeys(key: Key, k: Key)
    ensures Without([], key) == [] && k !in Keys<Value>([])
  {}

  lemma {:induction false} LastJoin(a: Meta, b: Meta, k: Key, dflt: Value)
    ensures Last(a + b, k, dflt) == if k in Keys(b) then Last(b, k, dflt) else Last(a, k, dflt)
    decreases |b|
  {
    hide Last, Keys;
    if b == [] {
      assert a + b == a;
      NoKeys(k, k);
    } else {
      var p, m := b[..|b| - 1], b[|b| - 1];
      assert b == p + [m] && a + b == (a + p) + [m];
      LastJoin(a, p, k, dflt);
      LastExtends(a + p, m, k, dflt);
      LastExtends(p, m, k, dflt);
      KeysJoin(p, [m], k);
      OneKey(m, k);
    }
  }

  /** Set on any object, repeats included: the key has the new value, every other key the value
      it had, and no key but the new one is added or lost. */
  lemma SetMeans(o: Meta, m: Member<Value>, k: Key, dflt: Value)
    ensures var r := SetMember(o, m);
      && Last(r, k, dflt) == (if k == m.key then m.value else Last(o, k, dflt))
      && (k in Keys(r) <==> k == m.key || k in Keys(o))
  {
    hide Without, Last, First;
    var i := First(Keys(o), m.key);
    FoundThere(o, m.key);
    OneKey(m, k);
    if i < |o| {
      OneKey(o[i], k);
      var a, b := o[..i], o[i + 1..];
      assert o == (a + [o[i]]) + b;
      WithoutMeans(b, m.key, k, dflt);
      LastJoin(a + [m], Without(b, m.key), k, dflt);
      LastJoin(a + [o[i]], b, k, dflt);
      LastExtends(a, m, k, dflt);
      LastExtends(a, o[i], k, dflt);
      KeysJoin(a + [m], Without(b, m.key), k);
      KeysJoin(a + [o[i]], b, k);
      KeysJoin(a, [m], k);
      KeysJoin(a, [o[i]], k);
    } else {
      LastExtends(o, m, k, dflt);
      KeysJoin(o, [m], k);
    }
  }

  lemma FoundThere(o: Meta, key: Key)
    ensures var i := First(Keys(o), key); i <= |o| && (i < |o| ==> o[i].key == key)
  {
    assert forall i :: 0 <= i < |o| ==> Keys(o)[i] == o[i].key;
  }

  lemma KeysJoin(a: Meta, b: Meta, k: Key)
    ensures k in Keys(a + b) <==> k in Keys(a) || k in Keys(b)
  {
    assert Keys(a + b) == Keys(a) + Keys(b);
  }

  lemma OneKey(m: Member<Value>, k: Key)
    ensures k in Keys([m]) <==> k == m.key
  {
    assert Keys([m]) == [m.key];
  }
}
