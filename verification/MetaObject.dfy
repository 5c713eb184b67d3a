/** An Object edited in place (jsonvalue/jsonvalue.go), and the generated ApplyMetaUpdate
    (cmd/acpgen/emit.go) that edits only a new one. */
module MetaObject {
  import opened Options
  import opened Members
  import opened MergeAlgorithms
  import opened Json
  import opened MetaPatch

  const ZERO: Member<Value> := Member([], Value.Null)

  /** Set, when the key stands at i. */
  lemma SetParts(o: Meta, i: nat, m: Member<Value>)
    requires i == First(Keys(o), m.key)
    ensures i < |o| ==> o[i].key == m.key && var p := o[i := m]; SetMember(o, m) == p[..i + 1] + Without(p[i + 1..], m.key)
    ensures i >= |o| ==> SetMember(o, m) == o + [m]
  {
    hide Without;
    if i < |o| {
      var p := o[i := m];
      assert p[i + 1..] == o[i + 1..];
      assert p[..i + 1] == o[..i] + [m];
    }
  }

  lemma WithoutNone(o: Meta, from: nat, key: Key)
    requires from <= |o|
    ensures o[from..from] == [] && Without([], key) == []
  {}

  lemma WithoutStep(o: Meta, from: nat, r: nat, key: Key)
    requires from <= r < |o|
    ensures Without(o[from..r + 1], key) == Without(o[from..r], key) + if o[r].key == key then [] else [o[r]]
  {
    assert o[from..r + 1][..r - from] == o[from..r];
  }

  lemma MergeKeepsKeys(o: Meta, key: Key)
    ensures key in Keys(Merge(o)) <==> key in Keys(o)
  {
    MergeIsNormal(o);
  }

  class Object {
    var data: array<Member<Value>>
    var len: nat

    ghost predicate Valid()
      reads this
    {
      len <= data.Length
    }

    function Contents(): Meta
      requires Valid()
      reads this, data
    {
      data[..len]
    }

    /** A new object with the members given. */
    constructor (o: Meta)
      ensures Valid() && Contents() == o && fresh(data)
    {
      data := new Member<Value>[|o|](i requires 0 <= i < |o| => o[i]);
      len := |o|;
    }

    /** The first member with the key, or len. */
    method Find(key: Key) returns (i: nat)
      requires Valid()
      ensures i == First(Keys(Contents()), key)
    {
      i := 0;
      while i < len && data[i].key != key
        invariant i <= len && forall j :: 0 <= j < i ==> data[j].key != key
      {
        i := i + 1;
      }
      ghost var ks := Keys(Contents());
      assert forall j :: 0 <= j < len ==> ks[j] == data[j].key;
    }

    method Set(key: Key, value: Value)
      requires Valid()
      modifies this, data
      ensures Valid() && (data == old(data) || fresh(data))
      ensures Contents() == SetMember(old(Contents()), Member(key, value))
    {
      hide SetMember, Without, First, Keys;
      ghost var was := Contents();
      var i := Find(key);
      SetParts(was, i, Member(key, value));
      if i < len {
        data[i] := data[i].(value := value);
        assert Contents() == was[i := Member(key, value)];
        Drop(i + 1, key);
      } else {
        Add(Member(key, value));
      }
    }

    /** append. */
    method Add(m: Member<Value>)
      requires Valid()
      modifies this, data
      ensures Valid() && (data == old(data) || fresh(data)) && Contents() == old(Contents()) + [m]
    {
      if len == data.Length {
        var was := Contents();
        var n := 2 * len + 1;
        data := new Member<Value>[n](i requires 0 <= i < n => if i < |was| then was[i] else ZERO);
        assert data[..len] == was;
      }
      data[len] := m;
      len := len + 1;
    }

    /** slices.DeleteFunc on the tail from `from`: members with the key go. */
    method Drop(from: nat, key: Key)
      requires Valid() && from <= len
      modifies this`len, data
      ensures Valid() && Contents() == old(Contents())[..from] + Without(old(Contents())[from..], key)
    {
      hide Without;
      ghost var was := Contents();
      var w := from;
      var n := len;
      WithoutNone(was, from, key);
      for r := from to n
        invariant from <= w <= r && data[..w] == was[..from] + Without(was[from..r], key)
        invariant forall j :: r <= j < n ==> data[j] == was[j]
      {
        WithoutStep(was, from, r, key);
        if data[r].key != key {
          data[w] := data[r];
          w := w + 1;
        }
      }
      assert n == |was|;
      assert was[from..n] == was[from..];
      len := w;
    }

    /** Repeated keys are merged into a new array. */
    method Normalize(hash: Key -> nat)
      requires Valid()
      modifies this
      ensures Valid() && (data == old(data) || fresh(data))
      ensures Contents() == if Repeats(old(Contents())) then Merge(old(Contents())) else old(Contents())
    {
      hide Repeats, Merge;
      var was := Contents();
      var repeats := HasRepeats(was, hash);
      if repeats {
        var merged := Merged(was);
        data := new Member<Value>[|merged|](i requires 0 <= i < |merged| => merged[i]);
        len := |merged|;
      }
    }

    /** The last member moves into the place of member i. */
    method RemoveAt(i: nat)
      requires Valid() && i < len
      modifies this`len, data
      ensures Valid() && Contents() == old(Contents())[i := old(Contents())[old(len) - 1]][..old(len) - 1]
    {
      var last := len - 1;
      data[i] := data[last];
      data[last] := ZERO;
      len := last;
    }

    /** SwapDelete. */
    method SwapDelete(key: Key, hash: Key -> nat) returns (ok: bool)
      requires Valid()
      modifies this, data
      ensures Valid() && (data == old(data) || fresh(data))
      ensures Contents() == SwapRemove(if Repeats(old(Contents())) then Merge(old(Contents())) else old(Contents()), key)
      ensures ok <==> key in Keys(old(Contents()))
    {
      hide Repeats, Merge, Keys, First;
      MergeKeepsKeys(Contents(), key);
      Normalize(hash);
      var i := Find(key);
      ok := i < len;
      if ok {
        RemoveAt(i);
      }
    }

    /** One member of an update. */
    method Edit(key: Key, value: Value, hash: Key -> nat)
      requires Valid()
      modifies this, data
      ensures Valid() && (data == old(data) || fresh(data))
      ensures Contents() == PatchMember(old(Contents()), Member(key, value))
    {
      hide Repeats, Merge, SwapRemove, SetMember;
      if value == Value.Null {
        var _ := SwapDelete(key, hash);
      } else {
        Set(key, value);
      }
    }
  }

  ghost predicate Fine(p: Patch<Object>)
    reads if p.Put? then {p.value} else {}
  {
    p.Put? ==> p.value.Valid()
  }

  ghost function Read(p: Patch<Object>): Patch<Meta>
    requires Fine(p)
    reads if p.Put? then {p.value, p.value.data} else {}
  {
    match p
    case Unset => Unset
    case Null => Patch.Null
    case Put(o) => Put(o.Contents())
  }

  /** The j-th key of an object as the wire reads it, with its last value. */
  lemma MergedMember(u: Meta, j: nat, value: Value)
    requires j < |Merge(u)| && value == Last(u, Keys(Merge(u))[j], Value.Null)
    ensures Merge(u)[j] == Member(Keys(Merge(u))[j], value)
  {
    MergeIsNormal(u);
    assert Merge(u)[j].key in Keys(Merge(u)) by { assert Keys(Merge(u))[j] == Merge(u)[j].key; }
    LastDefault(u, Merge(u)[j].key, Merge(u)[j].value, Value.Null);
  }

  lemma PatchStep(o: Meta, ms: Meta, j: nat)
    requires j < |ms|
    ensures PatchMembers(o, ms[..j + 1]) == PatchMember(PatchMembers(o, ms[..j]), ms[j])
  {
    assert ms[..j + 1][..j] == ms[..j];
  }

  lemma PatchNone(o: Meta, ms: Meta)
    ensures PatchMembers(o, ms[..0]) == o
  {}

  /** The update's members as the wire reads them, one by one. */
  method EditAll(meta: Object, u: Meta, hash: Key -> nat)
    requires meta.Valid()
    modifies meta, meta.data
    ensures meta.Valid() && (meta.data == old(meta.data) || fresh(meta.data))
    ensures meta.Contents() == PatchMembers(old(meta.Contents()), Merge(u))
  {
    hide Merge, PatchMember, Last, Firsts, PatchMembers, Repeats, IsNormalOf;
    var keys := KeysOf(u, hash);
    ghost var base, ms := meta.Contents(), Merge(u);
    PatchNone(base, ms);
    for j := 0 to |keys|
      invariant (meta.data == old(meta.data) || fresh(meta.data)) && meta.Valid()
      invariant meta.Contents() == PatchMembers(base, ms[..j])
    {
      PatchStep(base, ms, j);
      var value, _ := Get(u, keys[j], Value.Null);
      MergedMember(u, j, value);
      meta.Edit(keys[j], value, hash);
    }
    assert ms[..|ms|] == ms;
  }

  /** ApplyMetaUpdate: neither the stored object nor the update's is modified. */
  method ApplyMetaUpdate(stored: Patch<Object>, update: Patch<Object>, hash: Key -> nat) returns (r: Patch<Object>)
    requires Fine(stored) && Fine(update)
    ensures Fine(r) && Read(r) == Patched(Read(stored), Read(update))
    ensures update.Put? ==> r.Put? && fresh(r.value) && fresh(r.value.data)
    ensures Read(stored) == old(Read(stored)) && Read(update) == old(Read(update))
  {
    hide Merge, PatchMembers;
    match update
    case Unset => r := stored;
    case Null => r := Patch.Null;
    case Put(given) =>
      var meta := new Object(if stored.Put? then stored.value.Contents() else []);
      EditAll(meta, given.Contents(), hash);
      r := Put(meta);
  }
}
