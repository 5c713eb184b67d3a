/** Go slices: a window onto an array, with a capacity. append writes into the array while
    there is capacity left, which is how two slices can come to share elements. */
module GoSlices {

  datatype GoSlice<T> = Nil | Slice(arr: array<T>, off: nat, len: nat, cap: nat)

  predicate Wf<T>(s: GoSlice<T>) { s.Slice? ==> s.len <= s.cap && s.off + s.cap <= s.arr.Length }

  /** No capacity is left: append will not write into the array. */
  predicate Full<T>(s: GoSlice<T>) { s.Slice? ==> s.len == s.cap }

  function Elements<T>(s: GoSlice<T>): seq<T>
    requires Wf(s)
    reads if s.Slice? then {s.arr} else {}
  {
    if s.Nil? then [] else s.arr[s.off..s.off + s.len]
  }

  lemma Length<T>(s: GoSlice<T>)
    requires Wf(s)
    ensures |Elements(s)| == if s.Slice? then s.len else 0
  {}

  /** All the elements appending to s could reach. */
  function Reach<T>(s: GoSlice<T>): seq<T>
    requires Wf(s)
    reads if s.Slice? then {s.arr} else {}
  {
    if s.Nil? then [] else s.arr[s.off..s.off + s.cap]
  }

  /** slices.Clip. */
  function Clip<T>(s: GoSlice<T>): (r: GoSlice<T>)
    requires Wf(s)
    ensures Wf(r) && Full(r)
  {
    if s.Nil? then Nil else s.(cap := s.len)
  }

  /** The arrays a slice refers to. */
  function Array<T>(s: GoSlice<T>): set<array<T>> { if s.Slice? then {s.arr} else {} }

  predicate Room<T>(s: GoSlice<T>, n: nat) { if s.Nil? then n == 0 else s.len + n <= s.cap }

  /** append: in place while there is room, otherwise into a new array with some spare
      capacity. The elements before stay where they were. */
  method Append<T>(s: GoSlice<T>, items: seq<T>) returns (r: GoSlice<T>)
    requires Wf(s)
    modifies if items != [] && Room(s, |items|) then Array(s) else {}
    ensures Wf(r) && Elements(r) == old(Elements(s)) + items
    ensures Room(s, |items|) && s.Slice? ==>
      && r == s.(len := s.len + |items|)
      && forall i :: 0 <= i < s.arr.Length && !(s.off + s.len <= i < s.off + s.len + |items|) ==> s.arr[i] == old(s.arr[i])
    ensures Room(s, |items|) && s.Nil? ==> r == Nil
    ensures !Room(s, |items|) ==> r.Slice? && fresh(r.arr)
  {
    if Room(s, |items|) {
      if s.Nil? {
        return Nil;
      }
      var base := s.off + s.len;
      for k := 0 to |items|
        invariant forall i :: 0 <= i < s.arr.Length ==>
          s.arr[i] == if base <= i < base + k then items[i - base] else old(s.arr[i])
      {
        s.arr[base + k] := items[k];
      }
      r := s.(len := s.len + |items|);
      assert Elements(r) == old(Elements(s)) + items;
    } else {
      var extra: nat :| true;
      var all := Elements(s) + items;
      var arr := new T[|all| + extra](i requires 0 <= i < |all| + extra => if i < |all| then all[i] else items[0]);
      r := Slice(arr, 0, |all|, |all| + extra);
    }
  }

  /** t, if it may still grow in place, grows past every element s can reach. */
  ghost predicate Behind<T>(s: GoSlice<T>, t: GoSlice<T>) {
    s.Slice? && t.Slice? && !Full(t) && s.arr == t.arr ==> s.off + s.cap <= t.off + t.len
  }

  /** append, seen from slices it cannot grow into: they keep their elements. */
  method Grow<T>(s: GoSlice<T>, items: seq<T>, ghost others: set<GoSlice<T>>) returns (r: GoSlice<T>)
    requires Wf(s) && forall e :: e in others ==> Wf(e) && Behind(e, s)
    modifies if items != [] && Room(s, |items|) then Array(s) else {}
    ensures Wf(r) && Elements(r) == old(Elements(s)) + items
    ensures Room(s, |items|) ==> r == if s.Slice? then s.(len := s.len + |items|) else Nil
    ensures !Room(s, |items|) ==> r.Slice? && fresh(r.arr)
    ensures forall e :: e in others ==> Reach(e) == old(Reach(e)) && Elements(e) == old(Elements(e))
  {
    r := Append(s, items);
    forall e | e in others ensures Reach(e) == old(Reach(e)) && Elements(e) == old(Elements(e)) {
      assert Wf(e) && Behind(e, s);
    }
  }
}
