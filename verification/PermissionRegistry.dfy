/** The registry object over Go slices, edited in place under its mutex. A list that was
    taken out to be walked without the mutex is never written again. */
module PermissionRegistry {
  import opened GoSlices
  import opened Registry

  type Pending = GoSlice<Entry>

  /** The lists in the map: not empty, each alone on an array of the registry's own, and none
      on an array that is being walked. */
  ghost predicate Separate(cancels: map<Key, Pending>, walked: set<Pending>, own: set<array<Entry>>) {
    && (forall k :: k in cancels ==> Wf(cancels[k]) && cancels[k].Slice? && cancels[k].len > 0 && cancels[k].arr in own)
    && (forall k, l :: k in cancels && l in cancels && k != l ==> cancels[k].arr != cancels[l].arr)
    && (forall w :: w in walked ==> Wf(w) && Array(w) <= own)
    && (forall w, k :: w in walked && k in cancels ==> Array(w) !! {cancels[k].arr})
  }

  class Permissions {
    var sequence: nat
    var cancels: map<Key, Pending>
    ghost var walked: set<Pending>
    ghost var own: set<array<Entry>>

    ghost predicate Valid()
      reads this`cancels, this`walked, this`own
    {
      Separate(cancels, walked, own)
    }

    ghost function Abs(): State
      requires Valid()
      reads this, own
    {
      State(sequence, map k | k in cancels :: Elements(cancels[k]))
    }

    constructor ()
      ensures Valid() && Abs() == EMPTY && walked == {} && own == {}
    {
      sequence, cancels, walked, own := 0, map[], {}, {};
    }

    /** The slices being walked keep their elements. */
    twostate predicate Undisturbed()
      requires old(Valid()) && Valid()
      reads this, own
    {
      old(walked) <= walked && old(own) <= own && fresh(own - old(own)) && forall w :: w in old(walked) ==> Elements(w) == old(Elements(w))
    }

    /** The list of a key, nil if there is none. */
    function Listed(k: Key): Pending
      reads this`cancels
    {
      if k in cancels then cancels[k] else Nil
    }

    ghost function Held(k: Key): seq<Entry>
      requires Valid()
      reads this`cancels, this`walked, this`own, own
    {
      Apart(cancels, walked, own, k);
      Elements(Listed(k))
    }

    /** append to the list of a key. */
    method Extend(k: Key, entry: Entry)
      requires Valid()
      modifies this`cancels, this`own, own
      ensures Valid() && Undisturbed() && walked == old(walked)
      ensures cancels.Keys == old(cancels).Keys + {k}
      ensures Held(k) == old(Held(k)) + [entry] && forall l :: l != k ==> Held(l) == old(Held(l))
    {
      hide Separate, Elements, Reach, Wf, Behind, Room, Others;
      Apart(cancels, walked, own, k);
      var r := Grow(Listed(k), [entry], Others(cancels, walked, k));
      Length(r);
      GrownSeparate(cancels, walked, own, k, [entry], r);
      OthersHold(cancels, walked, k);
      own := own + Array(r);
      cancels := cancels[k := r];
    }

    /** What the registry holds, key by key. */
    lemma AbsIs(s: State)
      requires Valid() && sequence == s.sequence && cancels.Keys == s.lists.Keys && forall k :: k in cancels ==> Held(k) == s.lists[k]
      ensures Abs() == s
    {
      hide Separate, Elements;
    }

    lemma HeldIsList()
      requires Valid()
      ensures Abs().lists.Keys == cancels.Keys && forall k :: Held(k) == List(Abs(), k)
    {}

    method Register(k: Key, cancel: nat) returns (generation: nat)
      requires Valid()
      modifies this, own
      ensures Valid() && Undisturbed()
      ensures Abs() == Step(old(Abs()), Event.Register(k, cancel)) && generation == Abs().sequence
    {
      hide Separate, Elements, Held, Valid;
      HeldIsList();
      sequence := sequence + 1;
      Extend(k, Entry(cancel, sequence));
      AbsIs(Step(old(Abs()), Event.Register(k, cancel)));
      return sequence;
    }


    /** A shorter list on the same array, or none, takes the place of the key's. */
    method Replace(k: Key, r: Pending)
      requires Valid() && k in cancels && Wf(r) && (r.Slice? ==> r.len > 0 && r.arr == cancels[k].arr)
      modifies this`cancels
      ensures Valid() && Undisturbed() && walked == old(walked) && own == old(own)
      ensures cancels == if r.Slice? then old(cancels)[k := r] else old(cancels) - {k}
      ensures Held(k) == Elements(r) && forall l :: l != k ==> Held(l) == old(Held(l))
    {
      hide Elements, Reach, Wf;
      cancels := if r.Slice? then cancels[k := r] else cancels - {k};
    }

    /** Closes the gap at i: the elements after it move down in the array. */
    method Shift(k: Key, i: nat)
      requires Valid() && k in cancels && i < cancels[k].len
      modifies cancels[k].arr
      ensures Valid() && Undisturbed()
      ensures var s := cancels[k]; s.arr[s.off..s.off + s.len - 1] == old(Held(k))[..i] + old(Held(k))[i + 1..]
      ensures forall l :: l != k ==> Held(l) == old(Held(l))
    {
      var s := cancels[k];
      ghost var was := Held(k);
      for j := i to s.len - 1
        invariant forall x :: s.off <= x < s.off + s.len ==>
          s.arr[x] == was[if s.off + i <= x < s.off + j then x - s.off + 1 else x - s.off]
      {
        s.arr[s.off + j] := s.arr[s.off + j + 1];
      }
      ghost var now := s.arr[s.off..s.off + s.len - 1];
      assert forall m :: 0 <= m < |now| ==> now[m] == s.arr[s.off + m];
      Shifted(now, was, i);
      forall w | w in walked ensures Elements(w) == old(Elements(w)) { assert Array(w) !! {s.arr}; }
    }

    /** unregister: only the entry of this generation, if it is still listed. */
    method Unregister(k: Key, generation: nat)
      requires Valid()
      modifies this, own
      ensures Valid() && Undisturbed()
      ensures Abs() == Step(old(Abs()), Event.Unregister(k, generation))
    {
      hide Separate, Elements, Held, Reach;
      HeldIsList();
      ghost var target := Step(Abs(), Event.Unregister(k, generation));
      if k !in cancels {
        AbsIs(target);
        return;
      }
      var i := Find(k, generation);
      RemoveAt(Held(k), generation, i);
      HeldLength(k);
      if i < cancels[k].len {
        Delete(k, i);
      }
      AbsIs(target);
    }

    /** append(pending[:i], pending[i+1:]...); an empty list leaves the map. */
    method Delete(k: Key, i: nat)
      requires Valid() && k in cancels && i < cancels[k].len && cancels[k].len == |Held(k)|
      modifies this`cancels, own
      ensures Valid() && Undisturbed() && walked == old(walked) && own == old(own)
      ensures Held(k) == old(Held(k))[..i] + old(Held(k))[i + 1..] && forall l :: l != k ==> Held(l) == old(Held(l))
      ensures cancels.Keys == if Held(k) == [] then old(cancels).Keys - {k} else old(cancels).Keys
    {
      hide Separate, Elements, Held, Reach;
      HeldLength(k);
      var s := cancels[k];
      Shift(k, i);
      ShortElements(k);
      Replace(k, if s.len == 1 then Nil else s.(len := s.len - 1));
    }

    /** The first entry of the generation, or the length of the list. */
    method Find(k: Key, generation: nat) returns (i: nat)
      requires Valid() && k in cancels
      ensures i <= |Held(k)| == cancels[k].len
      ensures i < |Held(k)| ==> Held(k)[i].generation == generation
      ensures forall j :: 0 <= j < i ==> Held(k)[j].generation != generation
    {
      HeldLength(k);
      var list := Elements(cancels[k]);
      i := 0;
      while i < |list| && list[i].generation != generation
        invariant i <= |list| && forall j :: 0 <= j < i ==> list[j].generation != generation
      {
        i := i + 1;
      }
    }

    lemma HeldLength(k: Key)
      requires Valid() && k in cancels
      ensures Wf(cancels[k]) && cancels[k].Slice? && |Held(k)| == cancels[k].len > 0 && cancels[k].arr in own
    {
      Length(cancels[k]);
    }

    lemma ShortElements(k: Key)
      requires Valid() && k in cancels
      ensures var s := cancels[k];
        && Wf(s) && s.Slice? && Wf(s.(len := s.len - 1))
        && Elements(s.(len := s.len - 1)) == s.arr[s.off..s.off + s.len - 1]
        && (s.len == 1 ==> s.arr[s.off..s.off + s.len - 1] == [])
        && Elements<Entry>(Nil) == []
    {}

    /** CancelPermissionRequests: the list is taken out of the map under the mutex; the caller
        walks it without, and it is never written again. */
    method CancelPermissionRequests(k: Key) returns (pending: Pending)
      requires Valid()
      modifies this
      ensures Valid() && Undisturbed() && pending in walked && Wf(pending)
      ensures Elements(pending) == List(old(Abs()), k)
      ensures Abs() == Step(old(Abs()), Event.CancelAll(k))
    {
      hide Separate, Elements, Held, Reach, Behind, Others, Wf;
      HeldIsList();
      pending := Listed(k);
      Apart(cancels, walked, own, k);
      Detach(cancels, walked, own, k);
      HeldElements(k);
      ghost var target := Step(Abs(), Event.CancelAll(k));
      cancels := cancels - {k};
      walked := walked + {pending};
      HeldSame(old(cancels), k);
      AbsIs(target);
    }

    lemma HeldElements(k: Key)
      requires Valid()
      ensures Wf(Listed(k)) && Held(k) == Elements(Listed(k))
    {}

    lemma HeldSame(before: map<Key, Pending>, k: Key)
      requires Valid() && cancels == before - {k}
      ensures forall l :: l in cancels ==> l in before && Wf(before[l]) && Held(l) == Elements(before[l])
    {}

    /** cancelInbound: a copy of the cancel functions, the list staying as it is. */
    method CancelInbound(k: Key) returns (copies: seq<nat>)
      requires Valid()
      ensures |copies| == |List(Abs(), k)| && forall i :: 0 <= i < |copies| ==> copies[i] == List(Abs(), k)[i].cancel
    {
      HeldIsList();
      Apart(cancels, walked, own, k);
      var list := Elements(Listed(k));
      copies := [];
      for i := 0 to |list|
        invariant |copies| == i && forall j :: 0 <= j < i ==> copies[j] == list[j].cancel
      {
        copies := copies + [list[i].cancel];
      }
    }
  }

  lemma Shifted(now: seq<Entry>, was: seq<Entry>, i: nat)
    requires i < |was| && |now| == |was| - 1 && forall m :: 0 <= m < |now| ==> now[m] == was[if i <= m then m + 1 else m]
    ensures now == was[..i] + was[i + 1..]
  {
    var r := was[..i] + was[i + 1..];
    forall m | 0 <= m < |now| ensures now[m] == r[m] { assert i <= m ==> r[m] == was[i + 1..][m - i]; }
  }

  lemma {:induction false} RemoveAt(list: seq<Entry>, generation: nat, i: nat)
    requires i <= |list| && (i < |list| ==> list[i].generation == generation)
    requires forall j :: 0 <= j < i ==> list[j].generation != generation
    ensures Remove(list, generation) == if i < |list| then list[..i] + list[i + 1..] else list
  {
    if i > 0 {
      assert forall j :: 0 <= j < i - 1 ==> list[1..][j] == list[j + 1];
      RemoveAt(list[1..], generation, i - 1);
      assert list == [list[0]] + list[1..];
      if i < |list| { assert list[1..][..i - 1] == list[1..i] && list[1..][i..] == list[i + 1..]; }
    }
  }

  /** A list leaves the map and joins those being walked. */
  lemma Detach(cancels: map<Key, Pending>, walked: set<Pending>, own: set<array<Entry>>, k: Key)
    requires Separate(cancels, walked, own)
    ensures Separate(cancels - {k}, walked + {if k in cancels then cancels[k] else Nil}, own)
  {}

  /** The slices being walked, and the lists of the other keys. */
  ghost function Others(cancels: map<Key, Pending>, walked: set<Pending>, k: Key): set<Pending> {
    walked + set l | l in cancels && l != k :: cancels[l]
  }

  lemma Apart(cancels: map<Key, Pending>, walked: set<Pending>, own: set<array<Entry>>, k: Key)
    requires Separate(cancels, walked, own)
    ensures var list := if k in cancels then cancels[k] else Nil;
      && Wf(list) && Array(list) <= own
      && forall e :: e in Others(cancels, walked, k) ==> Wf(e) && Behind(e, list) && Array(e) !! Array(list) && Array(e) <= own
  {}

  lemma OthersHold(cancels: map<Key, Pending>, walked: set<Pending>, k: Key)
    ensures forall w :: w in walked ==> w in Others(cancels, walked, k)
    ensures forall l :: l in cancels && l != k ==> cancels[l] in Others(cancels, walked, k)
  {}

  lemma AppendSeparate(before: map<Key, Pending>, walked: set<Pending>, own: set<array<Entry>>, k: Key, r: Pending)
    requires Separate(before, walked, own) && Wf(r) && r.Slice? && r.len > 0 && r.arr in own
    requires forall l :: l in before && l != k ==> before[l].arr != r.arr
    requires forall w :: w in walked ==> Array(w) !! {r.arr}
    ensures Separate(before[k := r], walked, own)
  {}

  lemma GrownSeparate(cancels: map<Key, Pending>, walked: set<Pending>, own: set<array<Entry>>, k: Key, items: seq<Entry>, r: Pending)
    requires Separate(cancels, walked, own) && items != [] && Wf(r)
    requires var list := if k in cancels then cancels[k] else Nil;
      if Room(list, |items|) then r == (if list.Slice? then list.(len := list.len + |items|) else Nil) else r.Slice? && r.len > 0 && r.arr !in own
    ensures Separate(cancels[k := r], walked, own + Array(r))
  {
    if k in cancels && Room(cancels[k], |items|) {
      forall w | w in walked ensures Array(w) !! {r.arr} {}
    }
    AppendSeparate(cancels, walked, own + Array(r), k, r);
  }
}
