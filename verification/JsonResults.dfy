/** What every value Parse returns is like, whatever its text: no key repeats at any level,
    strings are valid UTF-8, integers stand in their own class and range, and nothing nests
    deeper than MaxDepth. So a float-free result survives printing unchanged. */
module JsonResults {
  import opened Members
  import opened Json
  import opened JsonGrammar
  import opened JsonReading
  import opened JsonRoundTrip

  /** Normal, with floats allowed. */
  predicate Proper(v: Value) {
    match v
    case Str(s) => Utf8(s)
    case I64(n) => MIN_I64 <= n <= MAX_I64
    case U64(n) => MAX_I64 < n <= MAX_U64
    case Arr(items) => forall i :: 0 <= i < |items| ==> Proper(items[i])
    case Obj(members) => ProperMembers(members) && forall i :: 0 <= i < |members| ==> Proper(members[i].value)
    case _ => true
  }

  predicate ProperMembers(members: seq<Member<Value>>) {
    !Repeats(members) && forall i :: 0 <= i < |members| ==> Utf8(members[i].key)
  }

  /** Proper, and room for it under depth. */
  predicate Good(v: Value, depth: int) { Proper(v) && Fits(depth, Depth(v)) }

  predicate AllGood(items: seq<Value>, depth: int) { forall i :: 0 <= i < |items| ==> Good(items[i], depth) }

  predicate AllMembersGood(members: seq<Member<Value>>, depth: int) {
    ProperMembers(members) && forall i :: 0 <= i < |members| ==> Good(members[i].value, depth)
  }

  lemma {:induction false} ItemsGood(items: seq<Value>, depth: int)
    requires AllGood(items, depth) && depth <= MAX_DEPTH
    ensures Fits(depth, DepthItems(items))
  {
    if items != [] { ItemsGood(items[1..], depth); }
  }

  lemma {:induction false} MembersDepth(members: seq<Member<Value>>, depth: int)
    requires depth <= MAX_DEPTH && forall i :: 0 <= i < |members| ==> Good(members[i].value, depth)
    ensures Fits(depth, DepthMembers(members))
  {
    if members != [] { MembersDepth(members[1..], depth); }
  }

  lemma ArrayGood(items: seq<Value>, depth: int)
    requires AllGood(items, depth) && depth <= MAX_DEPTH
    ensures Good(Arr(items), depth - 1)
  {
    ItemsGood(items, depth);
  }

  lemma ObjectGood(members: seq<Member<Value>>, depth: int)
    requires AllMembersGood(members, depth) && depth <= MAX_DEPTH
    ensures Good(Obj(members), depth - 1)
  {
    MembersDepth(members, depth);
  }

  lemma InsertGood(members: seq<Member<Value>>, m: Member<Value>, depth: int)
    requires AllMembersGood(members, depth) && Utf8(m.key) && Good(m.value, depth)
    ensures AllMembersGood(Insert(members, m), depth)
  {
    hide Good, Utf8;
    var p := Insert(members, m);
    forall i, j | 0 <= i < j < |p| ensures p[i].key != p[j].key {
      assert Keys(p)[i] == p[i].key && Keys(p)[j] == p[j].key;
      if m.key in Keys(members) {
        assert Keys(members)[i] == members[i].key && Keys(members)[j] == members[j].key;
      } else {
        assert forall k :: 0 <= k < |members| ==> Keys(members)[k] == members[k].key;
      }
    }
  }

  lemma NumberGood(ok: FloatTest, d: Bytes, i: nat, depth: int)
    requires i < |d| && depth <= MAX_DEPTH
    ensures Number(ok, d, i).Ok? ==> Good(Number(ok, d, i).value, depth)
  {
    hide DigitsValue, NumberEnd;
  }

  lemma {:induction false} ValueGood(ok: FloatTest, d: Bytes, i: nat, depth: int)
    requires depth <= MAX_DEPTH
    ensures ValueAt(ok, d, i, depth).Ok? ==> Good(ValueAt(ok, d, i, depth).value, depth)
    decreases |d| - i, 0
  {
    hide Chars, Number, ArrayAt, ObjectAt, Utf8;
    if i < |d| {
      NumberGood(ok, d, i, depth);
      if depth < MAX_DEPTH {
        if d[i] == 0x5B { ArrayAtGood(ok, d, i, depth + 1); }
        if d[i] == 0x7B { ObjectAtGood(ok, d, i, depth + 1); }
      }
    }
  }

  lemma {:induction false} ArrayAtGood(ok: FloatTest, d: Bytes, i: nat, depth: int)
    requires i < |d| && depth <= MAX_DEPTH
    ensures ArrayAt(ok, d, i, depth).Ok? ==> Good(ArrayAt(ok, d, i, depth).value, depth - 1)
    decreases |d| - i - 1, 3
  {
    hide ItemsAt, Good, Skip;
    ArrayGood([], depth);
    ItemsAtGood(ok, d, Skip(d, i + 1), depth, []);
  }

  lemma {:induction false} ItemsAtGood(ok: FloatTest, d: Bytes, i: nat, depth: int, items: seq<Value>)
    requires i <= |d| && depth <= MAX_DEPTH && AllGood(items, depth)
    ensures ItemsAt(ok, d, i, depth, items).Ok? ==> Good(ItemsAt(ok, d, i, depth, items).value, depth - 1)
    decreases |d| - i, 2
  {
    hide ValueAt, ItemsNext, Good, Skip;
    ValueGood(ok, d, Skip(d, i), depth);
    var r := ValueAt(ok, d, Skip(d, i), depth);
    if r.Ok? { ItemsNextGood(ok, d, r.next, depth, items + [r.value]); }
  }

  lemma {:induction false} ItemsNextGood(ok: FloatTest, d: Bytes, i: nat, depth: int, items: seq<Value>)
    requires i <= |d| && depth <= MAX_DEPTH && AllGood(items, depth)
    ensures ItemsNext(ok, d, i, depth, items).Ok? ==> Good(ItemsNext(ok, d, i, depth, items).value, depth - 1)
    decreases |d| - i, 2
  {
    hide ItemsAt, Good, Skip, AllGood;
    var j := Skip(d, i);
    if j < |d| && d[j] == 0x2C { ItemsAtGood(ok, d, j + 1, depth, items); }
    ArrayGood(items, depth);
  }

  lemma {:induction false} ObjectAtGood(ok: FloatTest, d: Bytes, i: nat, depth: int)
    requires i < |d| && depth <= MAX_DEPTH
    ensures ObjectAt(ok, d, i, depth).Ok? ==> Good(ObjectAt(ok, d, i, depth).value, depth - 1)
    decreases |d| - i - 1, 3
  {
    hide MembersAt, Good, Skip;
    ObjectGood([], depth);
    MembersAtGood(ok, d, Skip(d, i + 1), depth, []);
  }

  lemma {:induction false} MembersAtGood(ok: FloatTest, d: Bytes, i: nat, depth: int, members: seq<Member<Value>>)
    requires i <= |d| && depth <= MAX_DEPTH && AllMembersGood(members, depth)
    ensures MembersAt(ok, d, i, depth, members).Ok? ==> Good(MembersAt(ok, d, i, depth, members).value, depth - 1)
    decreases |d| - i, 2
  {
    hide MemberAt, MembersNext, Good, AllMembersGood, Insert;
    MemberGood(ok, d, i, depth);
    var r := MemberAt(ok, d, i, depth);
    if r.Ok? {
      InsertGood(members, r.value, depth);
      MembersNextGood(ok, d, r.next, depth, Insert(members, r.value));
    }
  }

  lemma {:induction false} MemberGood(ok: FloatTest, d: Bytes, i: nat, depth: int)
    requires i <= |d| && depth <= MAX_DEPTH
    ensures var r := MemberAt(ok, d, i, depth); r.Ok? ==> Utf8(r.value.key) && Good(r.value.value, depth)
    decreases |d| - i, 1
  {
    hide ValueAt, Good, Skip, Chars, Utf8;
    var k := Skip(d, i);
    if k < |d| {
      var key := Chars(d, k + 1, []);
      if key.Ok? && Skip(d, key.next) < |d| { ValueGood(ok, d, Skip(d, Skip(d, key.next) + 1), depth); }
    }
  }

  lemma {:induction false} MembersNextGood(ok: FloatTest, d: Bytes, i: nat, depth: int, members: seq<Member<Value>>)
    requires i <= |d| && depth <= MAX_DEPTH && AllMembersGood(members, depth)
    ensures MembersNext(ok, d, i, depth, members).Ok? ==> Good(MembersNext(ok, d, i, depth, members).value, depth - 1)
    decreases |d| - i, 2
  {
    hide MembersAt, Good, Skip, AllMembersGood;
    var j := Skip(d, i);
    if j < |d| && d[j] == 0x2C { MembersAtGood(ok, d, j + 1, depth, members); }
    ObjectGood(members, depth);
  }

  /** What Parse returns. */
  lemma ParseIsProper(ok: FloatTest, d: Bytes)
    ensures var r := Parse(ok, d); r.Value? ==> Proper(r.value) && Depth(r.value) <= MAX_DEPTH
  {
    hide ValueAt, Proper, Depth, Skip;
    ValueGood(ok, d, Skip(d, 0), 0);
  }

  lemma {:induction false} ProperIsNormal(v: Value)
    requires Proper(v) && FloatFree(v)
    ensures Normal(v)
  {
    match v
    case Arr(items) => forall i | 0 <= i < |items| ensures Normal(items[i]) { ProperIsNormal(items[i]); }
    case Obj(members) => forall i | 0 <= i < |members| ensures Normal(members[i].value) { ProperIsNormal(members[i].value); }
    case _ =>
  }

  /** A float-free value read from any text is read again from its own printed text. */
  lemma ParsePrintParse(ok: FloatTest, d: Bytes)
    ensures var r := Parse(ok, d); r.Value? && FloatFree(r.value) ==> Parse(ok, Print(r.value)) == r
  {
    hide ValueAt, Proper, Depth, Print, FloatFree, Normal, Norm;
    ParseIsProper(ok, d);
    var r := Parse(ok, d);
    if r.Value? && FloatFree(r.value) {
      ProperIsNormal(r.value);
      NormalIsNorm(r.value);
      ParsePrint(ok, r.value, [], []);
      assert [] + Print(r.value) + [] == Print(r.value);
    }
  }
}
