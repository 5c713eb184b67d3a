/** Positions in a text: what stands there, and single steps of the grammar. */
module JsonReading {
  import opened Members
  import opened Json
  import opened JsonGrammar

  // ---- what stands where ----

  lemma AtCut(d: Bytes, i: nat, a: Bytes, b: Bytes)
    requires At(d, i, a + b)
    ensures At(d, i, a) && At(d, i + |a|, b)
  {
    forall k | 0 <= k < |a| ensures d[i + k] == a[k] { assert (a + b)[k] == a[k]; }
    forall k | 0 <= k < |b| ensures d[i + |a| + k] == b[k] { assert (a + b)[|a| + k] == b[k]; }
  }

  lemma AtIndex(d: Bytes, i: nat, t: Bytes, k: nat)
    requires At(d, i, t) && k < |t|
    ensures i + k < |d| && d[i + k] == t[k]
  {}

  lemma AtFits(d: Bytes, i: nat, t: Bytes)
    requires At(d, i, t)
    ensures i + |t| <= |d|
  {}

  lemma AtSelf(d: Bytes)
    ensures At(d, 0, d)
  {}

  lemma AtSlice(d: Bytes, i: nat, t: Bytes)
    requires At(d, i, t)
    ensures i + |t| <= |d| && d[i..i + |t|] == t
  {}

  lemma AtSame(d: Bytes, i: nat, t: Bytes, u: Bytes)
    requires At(d, i, t) && At(d, i, u) && |t| == |u|
    ensures t == u
  {
    forall k | 0 <= k < |t| ensures t[k] == u[k] {
      AtIndex(d, i, t, k);
      AtIndex(d, i, u, k);
    }
  }

  lemma AtJoin(d: Bytes, i: nat, a: Bytes, b: Bytes)
    requires At(d, i, a) && At(d, i + |a|, b)
    ensures At(d, i, a + b)
  {
    forall k | 0 <= k < |a + b| ensures d[i + k] == (a + b)[k] {
      if k >= |a| { AtIndex(d, i + |a|, b, k - |a|); }
    }
  }

  lemma AtOne(d: Bytes, i: nat)
    requires i < |d|
    ensures At(d, i, [d[i]])
  {}

  lemma AppendOne<T>(a: seq<T>, m: T, b: seq<T>)
    ensures a + ([m] + b) == (a + [m]) + b && (b == [] ==> a + ([m] + b) == a + [m])
  {}

  // ---- whitespace ----

  predicate Spaces(s: Bytes) { forall i :: 0 <= i < |s| ==> IsSpace(s[i]) }

  lemma {:induction false} SkipAll(d: Bytes, i: nat, j: nat)
    requires i <= j <= |d| && (forall k :: i <= k < j ==> IsSpace(d[k])) && (j < |d| ==> !IsSpace(d[j]))
    ensures Skip(d, i) == j
    decreases j - i
  {
    if i < j { SkipAll(d, i + 1, j); }
  }

  lemma SkipTwice(ok: FloatTest, d: Bytes, i: nat, depth: int)
    requires i <= |d|
    ensures ItemsAt(ok, d, Skip(d, i), depth, []) == ItemsAt(ok, d, i, depth, [])
    ensures MembersAt(ok, d, Skip(d, i), depth, []) == MembersAt(ok, d, i, depth, [])
  {
    hide ValueAt, ItemsNext, MembersNext, Chars, Insert;
    assert Skip(d, Skip(d, i)) == Skip(d, i);
  }

  // ---- digits ----

  /** No digit, point or exponent continues a number here. */
  predicate Ends(d: Bytes, j: nat) {
    j >= |d| || (!IsDigit(d[j]) && d[j] != 0x2E && d[j] != 0x65 && d[j] != 0x45)
  }

  lemma {:induction false} SkipDigitsTo(d: Bytes, i: nat, j: nat)
    requires i <= j <= |d| && (forall k :: i <= k < j ==> IsDigit(d[k])) && (j < |d| ==> !IsDigit(d[j]))
    ensures SkipDigits(d, i) == j
    decreases j - i
  {
    if i < j { SkipDigitsTo(d, i + 1, j); }
  }

  /** Twenty digits hold every uint64. */
  lemma TwentyDigits()
    ensures MAX_U64 < Tens(20)
  {
    assert Tens(5) == 100000;
    assert Tens(10) == 100000 * Tens(5);
    assert Tens(15) == 100000 * Tens(10);
    assert Tens(20) == 100000 * Tens(15);
  }

  // ---- values ----

  /** What a value starts with. */
  predicate Starts(c: byte) { c == 0x7B || c == 0x5B || c == QUOTE || c == 0x74 || c == 0x66 || c == 0x6E || c == 0x2D || IsDigit(c) }

  predicate Fits(depth: int, v: nat) { depth + v <= MAX_DEPTH }

  function Max(a: nat, b: nat): nat { if a < b then b else a }

  lemma CharsEnd(d: Bytes, i: nat, out: Bytes)
    requires i < |d| && d[i] == QUOTE && Utf8(out)
    ensures Chars(d, i, out) == Ok(out, i + 1)
  {}

  /** One step of each recursive part of the grammar. */
  lemma ValueStep(ok: FloatTest, d: Bytes, i: nat, depth: int)
    requires i < |d|
    ensures d[i] == 0x7B ==> ValueAt(ok, d, i, depth) == if depth < MAX_DEPTH then ObjectAt(ok, d, i, depth + 1) else TooDeep
    ensures d[i] == 0x5B ==> ValueAt(ok, d, i, depth) == if depth < MAX_DEPTH then ArrayAt(ok, d, i, depth + 1) else TooDeep
    ensures d[i] == QUOTE && Chars(d, i + 1, []).Ok? ==>
      ValueAt(ok, d, i, depth) == Ok(Str(Chars(d, i + 1, []).value), Chars(d, i + 1, []).next)
    ensures d[i] == 0x2D || IsDigit(d[i]) ==> ValueAt(ok, d, i, depth) == Number(ok, d, i)
    ensures d[i] == 0x74 ==> ValueAt(ok, d, i, depth) == Literal(d, i, Ascii("true"), Bool(true))
    ensures d[i] == 0x66 ==> ValueAt(ok, d, i, depth) == Literal(d, i, Ascii("false"), Bool(false))
    ensures d[i] == 0x6E ==> ValueAt(ok, d, i, depth) == Literal(d, i, Ascii("null"), Null)
  {}

  lemma ArrayAtStep(ok: FloatTest, d: Bytes, i: nat, depth: int)
    requires i < |d|
    ensures ArrayAt(ok, d, i, depth) == (var j := Skip(d, i + 1);
      if j < |d| && d[j] == 0x5D then Ok(Arr([]), j + 1) else ItemsAt(ok, d, i + 1, depth, []))
  {
    hide ItemsAt, Skip;
    SkipTwice(ok, d, i + 1, depth);
  }

  lemma ObjectAtStep(ok: FloatTest, d: Bytes, i: nat, depth: int)
    requires i < |d|
    ensures ObjectAt(ok, d, i, depth) == (var j := Skip(d, i + 1);
      if j < |d| && d[j] == 0x7D then Ok(Obj([]), j + 1) else MembersAt(ok, d, i + 1, depth, []))
  {
    hide MembersAt, Skip;
    SkipTwice(ok, d, i + 1, depth);
  }

  lemma ItemsAtStep(ok: FloatTest, d: Bytes, i: nat, depth: int, done: seq<Value>)
    requires i <= |d|
    ensures ItemsAt(ok, d, i, depth, done) == (var r := ValueAt(ok, d, Skip(d, i), depth);
      if !r.Ok? then r else
      var e := Skip(d, r.next);
      if e >= |d| then Fail
      else if d[e] == 0x2C then ItemsAt(ok, d, e + 1, depth, done + [r.value])
      else if d[e] == 0x5D then Ok(Arr(done + [r.value]), e + 1)
      else Fail)
  {
    hide ValueAt, Skip;
  }

  lemma MembersAtStep(ok: FloatTest, d: Bytes, i: nat, depth: int, done: seq<Member<Value>>)
    requires i <= |d|
    ensures MembersAt(ok, d, i, depth, done) == (match MemberAt(ok, d, i, depth) {
      case Fail => Fail
      case TooDeep => TooDeep
      case Ok(m, next) =>
        var e := Skip(d, next);
        if e >= |d| then Fail
        else if d[e] == 0x2C then MembersAt(ok, d, e + 1, depth, Insert(done, m))
        else if d[e] == 0x7D then Ok(Obj(Insert(done, m)), e + 1)
        else Fail
    })
  {
    hide MemberAt, Skip, Insert;
  }
}
