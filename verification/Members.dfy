/** Object members with possibly repeated keys, and their one normal form: each key once,
    at its first position, with its last value (jsonvalue/jsonvalue.go, and the generated
    mergeRepeated of cmd/acpgen/decode.go). */
module Members {

  type byte = x: int | 0 <= x < 256

  type Key = seq<byte>

  datatype Member<V> = Member(key: Key, value: V)

  function Keys<V>(o: seq<Member<V>>): (ks: seq<Key>)
    ensures |ks| == |o| && forall i :: 0 <= i < |o| ==> ks[i] == o[i].key
  {
    seq(|o|, i requires 0 <= i < |o| => o[i].key)
  }

  /** The first position of key, or |ks|. */
  function First(ks: seq<Key>, key: Key): (i: nat)
    ensures i <= |ks| && (i < |ks| <==> key in ks) && (i < |ks| ==> ks[i] == key)
    ensures forall j :: 0 <= j < i ==> ks[j] != key
  {
    if ks == [] then 0 else if ks[0] == key then 0 else 1 + First(ks[1..], key)
  }

  predicate Repeats<V>(o: seq<Member<V>>) { exists i, j :: 0 <= i < j < |o| && o[i].key == o[j].key }

  /** The member is added, or takes the place of the one with its key. */
  function Insert<V>(o: seq<Member<V>>, m: Member<V>): (r: seq<Member<V>>)
    ensures Keys(r) == if m.key in Keys(o) then Keys(o) else Keys(o) + [m.key]
  {
    var i := First(Keys(o), m.key);
    if i < |o| then o[i := m] else o + [m]
  }

  function Merge<V>(o: seq<Member<V>>): seq<Member<V>> {
    if o == [] then [] else Insert(Merge(o[..|o| - 1]), o[|o| - 1])
  }

  lemma MergeSnoc<V>(p: seq<Member<V>>, m: Member<V>)
    ensures Merge(p + [m]) == Insert(Merge(p), m)
  {
    assert (p + [m])[..|p|] == p;
  }

  /** The value of the last member with the key, or dflt. */
  function Last<V>(o: seq<Member<V>>, key: Key, dflt: V): V {
    if o == [] then dflt else if o[|o| - 1].key == key then o[|o| - 1].value else Last(o[..|o| - 1], key, dflt)
  }

  /** rs holds the keys of ks, each once, in the order of their first occurrences. */
  ghost predicate Firsts(ks: seq<Key>, rs: seq<Key>) {
    && (forall key :: key in rs <==> key in ks)
    && (forall i, j :: 0 <= i < j < |rs| ==> First(ks, rs[i]) < First(ks, rs[j]))
  }

  /** r is the normal form of o: each key once, at its first position, with its last value. */
  ghost predicate IsNormalOf<V>(o: seq<Member<V>>, r: seq<Member<V>>) {
    Firsts(Keys(o), Keys(r)) && forall i :: 0 <= i < |r| ==> r[i].value == Last(o, r[i].key, r[i].value)
  }

  // ---- merging computes it, and it is the only one ----

  lemma FirstExtends(ks: seq<Key>, k: Key, key: Key)
    ensures First(ks + [k], key) == if key in ks then First(ks, key) else if k == key then |ks| else |ks| + 1
  {
    assert forall j :: 0 <= j < |ks| ==> (ks + [k])[j] == ks[j];
    assert (ks + [k])[|ks|] == k;
  }

  lemma FirstsExtend(ks: seq<Key>, rs: seq<Key>, k: Key)
    requires Firsts(ks, rs)
    ensures Firsts(ks + [k], if k in rs then rs else rs + [k])
  {
    var rs1 := if k in rs then rs else rs + [k];
    forall i, j | 0 <= i < j < |rs1| ensures First(ks + [k], rs1[i]) < First(ks + [k], rs1[j]) {
      FirstExtends(ks, k, rs1[i]);
      FirstExtends(ks, k, rs1[j]);
      assert rs1[i] in rs;
    }
  }

  lemma InsertNormal<V>(o: seq<Member<V>>, r: seq<Member<V>>, m: Member<V>)
    requires IsNormalOf(o, r)
    ensures IsNormalOf(o + [m], Insert(r, m))
  {
    assert Keys(o + [m]) == Keys(o) + [m.key];
    FirstsExtend(Keys(o), Keys(r), m.key);
    InsertValues(o, r, m);
  }

  lemma InsertValues<V>(o: seq<Member<V>>, r: seq<Member<V>>, m: Member<V>)
    requires IsNormalOf(o, r)
    ensures var q := Insert(r, m); forall i :: 0 <= i < |q| ==> q[i].value == Last(o + [m], q[i].key, q[i].value)
  {
    var q := Insert(r, m);
    forall i | 0 <= i < |q| ensures q[i].value == Last(o + [m], q[i].key, q[i].value) {
      LastExtends(o, m, q[i].key, q[i].value);
      if q[i].key == m.key { InsertedOnce(Keys(o), r, m, i); } else { assert q[i] == r[i]; }
    }
  }

  lemma LastExtends<V>(o: seq<Member<V>>, m: Member<V>, key: Key, v: V)
    ensures Last(o + [m], key, v) == if m.key == key then m.value else Last(o, key, v)
  {
    assert (o + [m])[..|o|] == o;
  }

  lemma InsertedOnce<V>(ks: seq<Key>, r: seq<Member<V>>, m: Member<V>, i: nat)
    requires Firsts(ks, Keys(r)) && i < |Insert(r, m)| && Insert(r, m)[i].key == m.key
    ensures Insert(r, m)[i] == m
  {
    var j := First(Keys(r), m.key);
    if i < |r| && j < |r| { OnlyOnce(ks, Keys(r), i, j); }
  }

  lemma OnlyOnce(ks: seq<Key>, rs: seq<Key>, i: nat, j: nat)
    requires Firsts(ks, rs)
    ensures i < |rs| && j < |rs| && rs[i] == rs[j] ==> i == j
  {
    if i < |rs| && j < |rs| {
      assert i < j ==> First(ks, rs[i]) < First(ks, rs[j]);
      assert j < i ==> First(ks, rs[j]) < First(ks, rs[i]);
    }
  }

  /** Merging yields the normal form ... */
  lemma {:induction false} MergeIsNormal<V>(o: seq<Member<V>>)
    ensures IsNormalOf(o, Merge(o))
  {
    if o == [] {
      assert Keys(o) == [] && Keys(Merge(o)) == [];
    } else {
      var p, m := o[..|o| - 1], o[|o| - 1];
      MergeIsNormal(p);
      assert p + [m] == o;
      InsertNormal(p, Merge(p), m);
    }
  }

  /** Keys in the order of first occurrences are determined position by position. */
  lemma {:induction false} FirstsUpTo(ks: seq<Key>, rs: seq<Key>, rs1: seq<Key>, n: nat)
    requires Firsts(ks, rs) && Firsts(ks, rs1) && n <= |rs|
    ensures n <= |rs1| && rs[..n] == rs1[..n]
  {
    if n > 0 {
      var k := n - 1;
      FirstsUpTo(ks, rs, rs1, k);
      var j := First(rs1, rs[k]);
      NotBefore(ks, rs, rs1, k, j);
      var i := First(rs, rs1[k]);
      NotBefore(ks, rs1, rs, k, i);
      InOrder(ks, rs1, k, j);
      InOrder(ks, rs, k, i);
      assert rs[..n] == rs[..k] + [rs[k]] && rs1[..n] == rs1[..k] + [rs1[k]];
    }
  }

  lemma InOrder(ks: seq<Key>, rs: seq<Key>, i: nat, j: nat)
    requires Firsts(ks, rs) && i <= j < |rs|
    ensures First(ks, rs[i]) <= First(ks, rs[j]) && (First(ks, rs[i]) == First(ks, rs[j]) ==> i == j)
  {}

  lemma NotBefore(ks: seq<Key>, rs: seq<Key>, rs1: seq<Key>, k: nat, j: nat)
    requires Firsts(ks, rs) && k < |rs| && k <= |rs1| && rs[..k] == rs1[..k]
    requires j < |rs1| && rs1[j] == rs[k]
    ensures k <= j
  {
    forall m | 0 <= m < k ensures rs1[m] != rs[k] {
      assert rs[m] == rs[..k][m] && rs1[m] == rs1[..k][m];
      OnlyOnce(ks, rs, m, k);
    }
  }

  /** ... and there is only one. */
  lemma NormalIsUnique<V>(o: seq<Member<V>>, r: seq<Member<V>>, r1: seq<Member<V>>)
    requires IsNormalOf(o, r) && IsNormalOf(o, r1)
    ensures r == r1
  {
    var rs, rs1 := Keys(r), Keys(r1);
    FirstsUpTo(Keys(o), rs, rs1, |r|);
    FirstsUpTo(Keys(o), rs1, rs, |r1|);
    assert rs == rs[..|r|] == rs1[..|r|] == rs1;
    forall i | 0 <= i < |r| ensures r[i] == r1[i] {
      assert r[i].key == rs[i] == rs1[i] == r1[i].key;
      LastDefault(o, r[i].key, r[i].value, r1[i].value);
    }
  }

  lemma {:induction false} LastDefault<V>(o: seq<Member<V>>, key: Key, v: V, w: V)
    requires key in Keys(o)
    ensures Last(o, key, v) == Last(o, key, w)
  {
    if o[|o| - 1].key != key {
      assert Keys(o) == Keys(o[..|o| - 1]) + [o[|o| - 1].key];
      LastDefault(o[..|o| - 1], key, v, w);
    }
  }

  /** The normal form has no repeats, and an object without repeats is its own. */
  lemma NormalNoRepeats<V>(o: seq<Member<V>>, r: seq<Member<V>>)
    requires IsNormalOf(o, r)
    ensures !Repeats(r)
  {
    forall i, j | 0 <= i < j < |r| ensures r[i].key != r[j].key {
      OnlyOnce(Keys(o), Keys(r), i, j);
    }
  }

  lemma NoRepeatsIsNormal<V>(o: seq<Member<V>>)
    requires !Repeats(o)
    ensures IsNormalOf(o, o) && Merge(o) == o
  {
    forall i | 0 <= i < |o| ensures First(Keys(o), o[i].key) == i && o[i].value == Last(o, o[i].key, o[i].value) {
      LastHere(o, i);
    }
    MergeIsNormal(o);
    NormalIsUnique(o, o, Merge(o));
  }

  lemma {:induction false} LastHere<V>(o: seq<Member<V>>, i: nat)
    requires !Repeats(o) && i < |o|
    ensures Last(o, o[i].key, o[i].value) == o[i].value
  {
    if i < |o| - 1 {
      assert o[i].key != o[|o| - 1].key;
      LastHere(o[..|o| - 1], i);
    }
  }
}
