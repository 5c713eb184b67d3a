/** The size-dependent algorithms on objects with repeated keys, each proved to compute the
    one normal form of module Members. */
module MergeAlgorithms {
  import opened Members

  const SMALL := 16
  const SCANNED := 256

  /** Object.hasRepeats: a pairwise scan of a small object, a comparison by key hash of a
      medium one, an index of a large one. `hash` stands for keyHash. */
  method HasRepeats<V>(o: seq<Member<V>>, hash: Key -> nat) returns (r: bool)
    ensures r <==> Repeats(o)
  {
    if |o| <= SMALL {
      var i := 1;
      while i < |o|
        invariant 1 <= i && forall a, b :: 0 <= a < b < i && b < |o| ==> o[a].key != o[b].key
      {
        for j := 0 to i
          invariant forall a :: 0 <= a < j ==> o[a].key != o[i].key
        {
          if o[i].key == o[j].key {
            return true;
          }
        }
        i := i + 1;
      }
      return false;
    }
    if |o| <= SCANNED {
      var hashes := new nat[SCANNED];
      for i := 0 to |o|
        invariant forall a :: 0 <= a < i ==> hashes[a] == hash(o[a].key)
        invariant forall a, b :: 0 <= a < b < i ==> o[a].key != o[b].key
      {
        var h := hash(o[i].key);
        for j := 0 to i
          invariant forall a :: 0 <= a < j ==> o[a].key != o[i].key
        {
          if hashes[j] == h && o[j].key == o[i].key {
            return true;
          }
        }
        hashes[i] := h;
      }
      return false;
    }
    var seen: set<Key> := {};
    for i := 0 to |o|
      invariant forall k :: k in seen <==> exists a :: 0 <= a < i && o[a].key == k
      invariant forall a, b :: 0 <= a < b < i ==> o[a].key != o[b].key
    {
      if o[i].key in seen {
        return true;
      }
      seen := seen + {o[i].key};
    }
    return false;
  }

  /** The position of each key of an object without repeats. */
  function IndexOf<V>(o: seq<Member<V>>): map<Key, nat> { map k | k in Keys(o) :: First(Keys(o), k) }

  lemma IndexNew<V>(o: seq<Member<V>>, m: Member<V>)
    requires m.key !in Keys(o)
    ensures IndexOf(o + [m]) == IndexOf(o)[m.key := |o|]
  {
    assert Keys(o + [m]) == Keys(o) + [m.key];
    forall k | k in Keys(o + [m]) ensures First(Keys(o + [m]), k) == if k in Keys(o) then First(Keys(o), k) else |o| {
      FirstExtends(Keys(o), m.key, k);
    }
  }

  /** One more member merged, through the index. */
  lemma IndexStep<V>(o: seq<Member<V>>, k: nat, r: seq<Member<V>>)
    requires k < |o| && r == Merge(o[..k])
    ensures o[k].key in IndexOf(r) ==>
      var j := IndexOf(r)[o[k].key];
      j < |r| && r[j].key == o[k].key && Merge(o[..k + 1]) == r[j := o[k]] && IndexOf(r[j := o[k]]) == IndexOf(r)
    ensures o[k].key !in IndexOf(r) ==>
      Merge(o[..k + 1]) == r + [o[k]] && IndexOf(r + [o[k]]) == IndexOf(r)[o[k].key := |r|]
  {
    var j := First(Keys(r), o[k].key);
    MergeStep(o, k, r, j);
    if j < |r| { assert Keys(r[j := o[k]]) == Keys(r); } else { IndexNew(r, o[k]); }
  }

  /** Object.merged. */
  method Merged<V>(o: seq<Member<V>>) returns (out: seq<Member<V>>)
    ensures out == Merge(o) && IsNormalOf(o, out)
  {
    var index: map<Key, nat> := map[];
    out := [];
    for k := 0 to |o|
      invariant out == Merge(o[..k]) && index == IndexOf(out)
    {
      var member := o[k];
      IndexStep(o, k, out);
      if member.key in index {
        var i := index[member.key];
        out := out[i := out[i].(value := member.value)];
      } else {
        index := index[member.key := |out|];
        out := out + [member];
      }
    }
    assert o[..|o|] == o;
    MergeIsNormal(o);
  }

  /** Object.Keys. */
  method KeysOf<V>(o: seq<Member<V>>, hash: Key -> nat) returns (keys: seq<Key>)
    ensures keys == Keys(Merge(o)) && Firsts(Keys(o), keys)
  {
    var repeats := HasRepeats(o, hash);
    var p := o;
    if repeats {
      p := Merged(o);
    } else {
      NoRepeatsIsNormal(o);
    }
    keys := Keys(p);
    MergeIsNormal(o);
  }

  /** Object.Get: the last member with the key. */
  method Get<V>(o: seq<Member<V>>, key: Key, dflt: V) returns (value: V, ok: bool)
    ensures ok <==> key in Keys(o)
    ensures value == Last(o, key, dflt)
  {
    var i := |o|;
    assert o[..i] == o;
    while i > 0
      invariant 0 <= i <= |o|
      invariant forall j :: i <= j < |o| ==> o[j].key != key
      invariant Last(o, key, dflt) == Last(o[..i], key, dflt)
    {
      i := i - 1;
      assert o[..i + 1][..i] == o[..i];
      if o[i].key == key {
        return o[i].value, true;
      }
    }
    assert o[..0] == [];
    return dflt, false;
  }

  /** The generated mergeRepeated: o is compacted in place and its first n members are the
      normal form; small objects are scanned, larger ones indexed. */
  method MergeRepeated<V>(o: array<Member<V>>) returns (n: nat)
    modifies o
    ensures n <= o.Length && o[..n] == Merge(old(o[..])) && IsNormalOf(old(o[..]), o[..n])
  {
    ghost var was := o[..];
    if o.Length <= SMALL {
      n := MergeSmall(o);
    } else {
      n := MergeLarge(o);
    }
    MergeIsNormal(was);
  }

  /** o[j].raw = m.raw, among the n members kept. */
  method PutValue<V>(o: array<Member<V>>, n: nat, j: nat, m: Member<V>)
    requires j < n <= o.Length && o[j].key == m.key
    modifies o
    ensures o[..n] == old(o[..n])[j := m] && forall i :: n <= i < o.Length ==> o[i] == old(o[i])
  {
    o[j] := o[j].(value := m.value);
  }

  /** o[n] = m, after the n members kept. */
  method PutNew<V>(o: array<Member<V>>, n: nat, m: Member<V>)
    requires n < o.Length
    modifies o
    ensures o[..n + 1] == old(o[..n]) + [m] && forall i :: n < i < o.Length ==> o[i] == old(o[i])
  {
    o[n] := m;
  }

  /** The pairwise comparison with the members already kept. */
  method Scan<V>(o: array<Member<V>>, n: nat, key: Key) returns (j: nat)
    requires n <= o.Length
    ensures j <= n && (j < n ==> o[j].key == key) && forall i :: 0 <= i < j ==> o[i].key != key
  {
    j := 0;
    while j < n && o[j].key != key
      invariant j <= n && forall i :: 0 <= i < j ==> o[i].key != key
    {
      j := j + 1;
    }
  }

  method MergeSmall<V>(o: array<Member<V>>) returns (n: nat)
    modifies o
    ensures n <= o.Length && o[..n] == Merge(old(o[..]))
  {
    ghost var was := o[..];
    n := 0;
    for k := 0 to o.Length
      invariant n <= k && o[..n] == Merge(was[..k]) && forall i :: k <= i < o.Length ==> o[i] == was[i]
    {
      var m := o[k];
      ghost var r := o[..n];
      var j := Scan(o, n, m.key);
      assert forall i :: 0 <= i < n ==> r[i] == o[i];
      MergeStep(was, k, r, j);
      if j < n {
        PutValue(o, n, j, m);
      } else {
        PutNew(o, n, m);
        n := n + 1;
      }
    }
    assert was[..o.Length] == was;
  }

  /** One more member merged, where j is where its key was found. */
  lemma MergeStep<V>(o: seq<Member<V>>, k: nat, r: seq<Member<V>>, j: nat)
    requires k < |o| && r == Merge(o[..k]) && j <= |r|
    requires (forall i :: 0 <= i < j ==> r[i].key != o[k].key) && (j < |r| ==> r[j].key == o[k].key)
    ensures Merge(o[..k + 1]) == if j < |r| then r[j := o[k]] else r + [o[k]]
  {
    assert o[..k + 1][..k] == o[..k];
    assert First(Keys(r), o[k].key) == j;
  }

  method MergeLarge<V>(o: array<Member<V>>) returns (n: nat)
    modifies o
    ensures n <= o.Length && o[..n] == Merge(old(o[..]))
  {
    ghost var was := o[..];
    var index: map<Key, nat> := map[];
    n := 0;
    for k := 0 to o.Length
      invariant n <= k && o[..n] == Merge(was[..k]) && forall i :: k <= i < o.Length ==> o[i] == was[i]
      invariant index == IndexOf(o[..n])
    {
      var m := o[k];
      ghost var r := o[..n];
      IndexStep(was, k, r);
      if m.key in index {
        var j := index[m.key];
        PutValue(o, n, j, m);
      } else {
        index := index[m.key := n];
        PutNew(o, n, m);
        n := n + 1;
      }
    }
    assert was[..o.Length] == was;
  }
}
