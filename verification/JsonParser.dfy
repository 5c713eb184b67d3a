/** The cursor parser of jsonvalue/jsonvalue.go and the string printer of
    internal/jsonline/jsonline.go, proved to compute the grammar of JsonGrammar. */
module JsonParser {
  import opened Members
  import opened MergeAlgorithms
  import opened Json
  import opened JsonGrammar
  import opened Options

  // ---- what the cursor parser relies on ----

  /** A string of ASCII characters needs no validity check. */
  lemma {:induction false} AsciiIsUtf8(s: Bytes)
    requires forall i :: 0 <= i < |s| ==> s[i] < 0x80
    ensures Utf8(s)
    decreases |s|
  {
    if s != [] { AsciiIsUtf8(s[1..]); }
  }

  /** More digits never make a number smaller. */
  lemma {:induction false} PrefixValue(s: Bytes, k: nat)
    requires k <= |s| && forall i :: 0 <= i < |s| ==> IsDigit(s[i])
    ensures DigitsValue(s[..k]) <= DigitsValue(s)
    decreases |s|
  {
    if k < |s| {
      PrefixValue(s[..|s| - 1], k);
      assert s[..|s| - 1][..k] == s[..k];
    } else {
      assert s[..k] == s;
    }
  }

  lemma DigitStep(s: Bytes, k: nat)
    requires k < |s| && forall i :: 0 <= i < |s| ==> IsDigit(s[i])
    ensures DigitsValue(s[..k + 1]) == 10 * DigitsValue(s[..k]) + (s[k] - 0x30)
  {
    assert s[..k + 1][..k] == s[..k];
  }

  /** parseUnsigned: decimal digits that fit u64. */
  method ParseUnsigned(digits: Bytes) returns (n: uint64, ok: bool)
    requires forall i :: 0 <= i < |digits| ==> IsDigit(digits[i])
    ensures ok <==> |digits| <= 20 && DigitsValue(digits) <= MAX_U64
    ensures ok ==> n as int == DigitsValue(digits)
  {
    if |digits| > 20 {
      return 0, false;
    }
    n := 0;
    for k := 0 to |digits|
      invariant n as int == DigitsValue(digits[..k])
    {
      DigitStep(digits, k);
      assert IsDigit(digits[k]);
      var d := (digits[k] - 0x30) as uint64;
      if n > (0xFFFF_FFFF_FFFF_FFFF - d) / 10 {
        PrefixValue(digits, k + 1);
        return 0, false;
      }
      n := n * 10 + d;
    }
    assert digits[..|digits|] == digits;
    return n, true;
  }

  /** parseNegative: the digits of a negative integer that fits i64. */
  method ParseNegative(digits: Bytes) returns (n: int, ok: bool)
    requires forall i :: 0 <= i < |digits| ==> IsDigit(digits[i])
    ensures ok <==> |digits| <= 20 && DigitsValue(digits) <= -MIN_I64
    ensures ok ==> n == -DigitsValue(digits) && MIN_I64 <= n <= 0
  {
    var u, fits := ParseUnsigned(digits);
    if !fits || u > 0x8000_0000_0000_0000 {
      return 0, false;
    }
    return -(u as int), true;
  }

  /** The first k of four hexadecimal digits. */
  function HexPrefix(d: Bytes, i: nat, k: nat): (r: int)
    requires k <= 4 && i + 4 <= |d|
    ensures -1 <= r
  {
    if k == 0 then 0
    else if HexPrefix(d, i, k - 1) < 0 || HexValue(d[i + k - 1]) < 0 then -1
    else 0x10 * HexPrefix(d, i, k - 1) + HexValue(d[i + k - 1])
  }

  lemma HexPrefixAll(d: Bytes, i: nat)
    requires i + 4 <= |d|
    ensures HexPrefix(d, i, 4) == Hex4(d, i)
  {
    assert HexPrefix(d, i, 1) == HexValue(d[i]);
    assert HexPrefix(d, i, 4) == if HexPrefix(d, i, 3) < 0 || HexValue(d[i + 3]) < 0 then -1 else 0x10 * HexPrefix(d, i, 3) + HexValue(d[i + 3]);
    assert HexPrefix(d, i, 2) == if HexPrefix(d, i, 1) < 0 || HexValue(d[i + 1]) < 0 then -1 else 0x10 * HexPrefix(d, i, 1) + HexValue(d[i + 1]);
  }

  lemma {:induction false} HexPrefixFails(d: Bytes, i: nat, k: nat, n: nat)
    requires k <= n <= 4 && i + 4 <= |d| && HexPrefix(d, i, k) < 0
    ensures HexPrefix(d, i, n) < 0
  {
    if k < n { HexPrefixFails(d, i, k, n - 1); }
  }

  /** hex4. */
  method ReadHex4(data: Bytes, at: nat) returns (r: nat, ok: bool)
    ensures (Hex4(data, at) >= 0) == ok && (ok ==> r == Hex4(data, at))
  {
    if at + 4 > |data| {
      return 0, false;
    }
    r := 0;
    for k := 0 to 4
      invariant r == HexPrefix(data, at, k)
    {
      var c := data[at + k];
      if 0x30 <= c <= 0x39 {
        r := r * 16 + (c - 0x30);
      } else if 0x61 <= c <= 0x66 {
        r := r * 16 + (c - 0x61 + 10);
      } else if 0x41 <= c <= 0x46 {
        r := r * 16 + (c - 0x41 + 10);
      } else {
        assert HexPrefix(data, at, k + 1) < 0;
        HexPrefixFails(data, at, k + 1, 4);
        HexPrefixAll(data, at);
        return 0, false;
      }
    }
    HexPrefixAll(data, at);
    return r, true;
  }

  // ---- objects ----

  lemma InsertFound(o: seq<Member<Value>>, m: Member<Value>, at: nat)
    requires at < |o| && at == First(Keys(o), m.key)
    ensures o[at].key == m.key && Insert(o, m) == o[at := m] && IndexOf(o[at := m]) == IndexOf(o)
  {
    assert Keys(o[at := m]) == Keys(o);
  }

  lemma InsertNew(o: seq<Member<Value>>, m: Member<Value>)
    requires First(Keys(o), m.key) == |o|
    ensures m.key !in Keys(o) && Insert(o, m) == o + [m]
  {}

  /** A full index of an object without repeats, built key by key. */
  lemma IndexBuilt(o: seq<Member<Value>>, i: nat)
    requires !Repeats(o) && i < |o|
    ensures IndexOf(o[..i + 1]) == IndexOf(o[..i])[o[i].key := i]
  {
    assert o[..i] + [o[i]] == o[..i + 1];
    IndexNew(o[..i], o[i]);
  }

  method BuildIndex(o: seq<Member<Value>>) returns (index: map<Key, nat>)
    requires !Repeats(o)
    ensures index == IndexOf(o)
  {
    index := map[];
    for i := 0 to |o|
      invariant index == IndexOf(o[..i])
    {
      IndexBuilt(o, i);
      index := index[o[i].key := i];
    }
    assert o[..|o|] == o;
  }

  lemma NoMembers()
    ensures !Repeats<Value>([])
  {}

  lemma InsertKeepsUnique(o: seq<Member<Value>>, m: Member<Value>)
    requires !Repeats(o)
    ensures !Repeats(Insert(o, m))
  {
    var p := Insert(o, m);
    if m.key in Keys(o) {
      forall i, j | 0 <= i < j < |p| ensures p[i].key != p[j].key { assert Keys(p)[i] == Keys(o)[i] && Keys(p)[j] == Keys(o)[j]; }
    } else {
      forall i | 0 <= i < |o| ensures o[i].key != m.key { assert Keys(o)[i] == o[i].key; }
    }
  }

  /** Where the key stands among the members, through the index if there is one. */
  method Find(o: seq<Member<Value>>, index: Option<map<Key, nat>>, key: Key) returns (at: nat)
    requires index.Some? ==> index.value == IndexOf(o)
    ensures at == First(Keys(o), key)
  {
    if index.Some? {
      return if key in index.value then index.value[key] else |o|;
    }
    at := 0;
    while at < |o| && o[at].key != key
      invariant at <= |o| && forall i :: 0 <= i < at ==> o[i].key != key
    {
      at := at + 1;
    }
  }

  /** One member read into an object: repeated keys are found by scanning its members, at
      most SMALL of them, or once it is larger through an index. */
  method PutMember(o: seq<Member<Value>>, index: Option<map<Key, nat>>, m: Member<Value>)
    returns (p: seq<Member<Value>>, q: Option<map<Key, nat>>)
    requires !Repeats(o) && if index.Some? then index.value == IndexOf(o) else |o| <= SMALL
    ensures p == Insert(o, m)
    ensures !Repeats(p) && if q.Some? then q.value == IndexOf(p) else |p| <= SMALL
  {
    hide Repeats, Insert, IndexOf, Keys;
    InsertKeepsUnique(o, m);
    var at := Find(o, index, m.key);
    if at < |o| {
      InsertFound(o, m, at);
      p, q := o[at := o[at].(value := m.value)], index;
    } else {
      InsertNew(o, m);
      p := o + [m];
      if index.Some? {
        IndexNew(o, m);
        q := Some(index.value[m.key := |p| - 1]);
      } else if |p| > SMALL {
        var all := BuildIndex(p);
        q := Some(all);
      } else {
        q := None;
      }
    }
  }

  // ---- the parser ----

  class Parser {
    const data: Bytes
    const accepts: FloatTest
    var i: nat
    var depth: nat
    var tooDeep: bool

    constructor (data: Bytes, accepts: FloatTest)
      ensures this.data == data && this.accepts == accepts && i == 0 && depth == 0 && !tooDeep
    {
      this.data, this.accepts := data, accepts;
      i, depth, tooDeep := 0, 0, false;
    }

    /** The state in which the cursor stands before a token. */
    ghost predicate Ready()
      reads this
    {
      i <= |data| && depth <= MAX_DEPTH && !tooDeep
    }

    method Space()
      requires i <= |data|
      modifies this`i
      ensures i == Skip(data, old(i))
    {
      while i < |data| && IsSpace(data[i])
        invariant old(i) <= i <= |data| && Skip(data, i) == Skip(data, old(i))
      {
        i := i + 1;
      }
    }

    method ReadLiteral(word: Bytes, v: Value) returns (r: Option<Value>)
      requires i <= |data|
      modifies this`i
      ensures match Literal(data, old(i), word, v)
        case Ok(w, next) => r == Some(w) && i == next <= |data|
        case _ => r.None?
    {
      if !At(data, i, word) {
        return None;
      }
      i := i + |word|;
      return Some(v);
    }

    /** string: the text between the quotes, as is while no escape is met. */
    method ReadString() returns (r: Option<Bytes>)
      requires i < |data|
      modifies this`i
      ensures match Chars(data, old(i) + 1, [])
        case Ok(s, next) => r == Some(s) && i == next
        case _ => r.None?
    {
      var start := i + 1;
      var j := start;
      var ascii := true;
      assert data[start..start] == [];
      while j < |data|
        invariant start <= j <= |data|
        invariant Chars(data, start, []) == Chars(data, j, data[start..j])
        invariant ascii ==> forall k :: start <= k < j ==> data[k] < 0x80
      {
        var c := data[j];
        if c == QUOTE {
          var raw := data[start..j];
          if ascii { AsciiIsUtf8(raw); }
          if !ascii && !Utf8(raw) {
            return None;
          }
          i := j + 1;
          return Some(raw);
        } else if c == BACKSLASH {
          r := EscapedString(start);
          return r;
        } else if c < 0x20 {
          return None;
        } else if c >= 0x80 {
          ascii := false;
        }
        assert data[start..j] + [c] == data[start..j + 1];
        j := j + 1;
      }
      return None;
    }

    /** escapedString: the string from start, its escapes decoded. */
    method EscapedString(start: nat) returns (r: Option<Bytes>)
      requires start <= |data|
      modifies this`i
      ensures match Chars(data, start, [])
        case Ok(s, next) => r == Some(s) && i == next
        case _ => r.None?
    {
      var out: Bytes := [];
      var j := start;
      while j < |data|
        invariant start <= j <= |data|
        invariant Chars(data, start, []) == Chars(data, j, out)
      {
        var c := data[j];
        if c == QUOTE {
          if !Utf8(out) {
            return None;
          }
          i := j + 1;
          return Some(out);
        } else if c < 0x20 {
          return None;
        } else if c != BACKSLASH {
          out := out + [c];
          j := j + 1;
        } else {
          var b, next, ok := ReadEscape(j);
          if !ok {
            return None;
          }
          out := out + b;
          j := next;
        }
      }
      return None;
    }

    /** One escape: a short one, or \u with a surrogate paired. */
    method ReadEscape(j: nat) returns (b: Bytes, next: nat, ok: bool)
      requires j < |data|
      ensures ok <==> EscapeAt(data, j).Ok?
      ensures ok ==> EscapeAt(data, j) == Ok(b, next)
    {
      b, next, ok := [], j, false;
      if j + 1 >= |data| {
        return;
      }
      if data[j + 1] != 0x75 {
        var u := Unescape(data[j + 1]);
        if u < 0 {
          return;
        }
        return [u as byte], j + 2, true;
      }
      var r, fits := ReadHex4(data, j + 2);
      if !fits {
        return;
      }
      next := j + 6;
      if 0xD800 <= r <= 0xDFFF {
        if r >= 0xDC00 || next + 6 > |data| || data[next] != BACKSLASH || data[next + 1] != 0x75 {
          return;
        }
        var low, good := ReadHex4(data, next + 2);
        if !good || low < 0xDC00 || low > 0xDFFF {
          return;
        }
        r := 0x10000 + (r - 0xD800) * 0x400 + (low - 0xDC00);
        next := next + 6;
      }
      return RuneBytes(r), next, true;
    }

    /** The digits from j on. */
    method DigitRun(j: nat) returns (k: nat)
      requires j <= |data|
      ensures k == SkipDigits(data, j)
    {
      k := j;
      while k < |data| && IsDigit(data[k])
        invariant j <= k <= |data| && SkipDigits(data, k) == SkipDigits(data, j)
      {
        k := k + 1;
      }
    }

    /** The integer part of the number token at start, or nothing. */
    method IntegerPart(start: nat) returns (j: nat, ok: bool)
      requires start < |data|
      ensures var k := if data[start] == 0x2D then start + 1 else start;
        && ok == (k < |data| && IsDigit(data[k]))
        && (ok ==> j == if data[k] == 0x30 then k + 1 else SkipDigits(data, k))
    {
      hide SkipDigits;
      j := start;
      if data[j] == 0x2D {
        j := j + 1;
      }
      if j < |data| && data[j] == 0x30 {
        return j + 1, true;
      } else if j < |data| && 0x31 <= data[j] <= 0x39 {
        j := DigitRun(j);
        return j, true;
      }
      return start, false;
    }

    /** The fraction at j, if there is one. */
    method FractionPart(j: nat) returns (k: nat, ok: bool)
      requires j <= |data|
      ensures ok <==> Fraction(data, j) >= 0
      ensures ok ==> k == Fraction(data, j)
    {
      if j >= |data| || data[j] != 0x2E {
        return j, true;
      }
      k := DigitRun(j + 1);
      ok := k != j + 1;
    }

    /** The exponent at j, if there is one. */
    method ExponentPart(j: nat) returns (k: nat, ok: bool)
      requires j <= |data|
      ensures ok <==> Exponent(data, j) >= 0
      ensures ok ==> k == Exponent(data, j)
    {
      if j >= |data| || (data[j] != 0x65 && data[j] != 0x45) {
        return j, true;
      }
      k := j + 1;
      if k < |data| && (data[k] == 0x2B || data[k] == 0x2D) {
        k := k + 1;
      }
      var digits := k;
      k := DigitRun(digits);
      ok := k != digits;
    }

    /** The end of the number token at start, and whether it is an integer. */
    method Token(start: nat) returns (end: nat, integer: bool)
      requires start < |data|
      ensures (end, integer) == NumberEnd(data, start)
    {
      hide SkipDigits, Fraction, Exponent, IsDigit;
      var j, digits := IntegerPart(start);
      if !digits {
        return start, false;
      }
      var f, fraction := FractionPart(j);
      if !fraction {
        return start, false;
      }
      var e, exponent := ExponentPart(f);
      if !exponent {
        return start, false;
      }
      return e, e == j;
    }

    method ReadNumber() returns (r: Option<Value>)
      requires i < |data|
      modifies this`i
      ensures match Number(accepts, data, old(i))
        case Ok(v, next) => r == Some(v) && i == next
        case _ => r.None?
    {
      var start := i;
      var end, integer := Token(start);
      if end == start {
        return None;
      }
      i := end;
      var token := data[start..end];
      if integer && token != [0x2D, 0x30] {
        if token[0] == 0x2D {
          var n, ok := ParseNegative(token[1..]);
          if ok {
            return Some(I64(n));
          }
        } else {
          var n, ok := ParseUnsigned(token);
          if ok {
            return Some(if n as int <= MAX_I64 then I64(n as int) else U64(n as int));
          }
        }
      }
      if !accepts(token) {
        return None;
      }
      return Some(Float(token));
    }

    ghost predicate Read<T>(r: Option<T>, p: Parsed<T>, d: nat)
      reads this
    {
      match p
      case Ok(v, next) => r == Some(v) && i == next <= |data| && depth == d && !tooDeep
      case Fail => r.None? && depth == d && !tooDeep
      case TooDeep => r.None? && depth == d + 1 && tooDeep
    }

    method ReadValue() returns (r: Option<Value>)
      requires Ready()
      modifies this
      ensures Read(r, ValueAt(accepts, data, old(i), old(depth)), old(depth))
      decreases |data| - i, 1
    {
      if i >= |data| {
        return None;
      }
      var c := data[i];
      if c == 0x7B || c == 0x5B {
        depth := depth + 1;
        if depth > MAX_DEPTH {
          tooDeep := true;
          return None;
        }
        if c == 0x7B {
          r := ReadObject();
        } else {
          r := ReadArray();
        }
        depth := depth - 1;
        return;
      } else if c == QUOTE {
        var s := ReadString();
        return if s.Some? then Some(Str(s.value)) else None;
      } else if c == 0x74 {
        r := ReadLiteral(Ascii("true"), Bool(true));
      } else if c == 0x66 {
        r := ReadLiteral(Ascii("false"), Bool(false));
      } else if c == 0x6E {
        r := ReadLiteral(Ascii("null"), Value.Null);
      } else if c == 0x2D || IsDigit(c) {
        r := ReadNumber();
      } else {
        return None;
      }
    }

    method ReadArray() returns (r: Option<Value>)
      requires Ready() && i < |data|
      modifies this
      ensures Read(r, ArrayAt(accepts, data, old(i), old(depth)), old(depth))
      decreases |data| - i, 0
    {
      hide Skip, ValueAt;
      ghost var start, d := i, depth;
      i := i + 1;
      var items: seq<Value> := [];
      Space();
      if i < |data| && data[i] == 0x5D {
        i := i + 1;
        return Some(Arr(items));
      }
      while true
        invariant start < i <= |data| && depth == d && !tooDeep
        invariant ArrayAt(accepts, data, start, d) == ItemsAt(accepts, data, i, d, items)
        decreases |data| - i
      {
        Space();
        var item := ReadValue();
        if item.None? {
          return None;
        }
        items := items + [item.value];
        Space();
        if i >= |data| {
          return None;
        }
        if data[i] == 0x2C {
          i := i + 1;
        } else if data[i] == 0x5D {
          i := i + 1;
          return Some(Arr(items));
        } else {
          return None;
        }
      }
    }

    /** A key, a colon and a value. */
    method ReadMember() returns (r: Option<Member<Value>>)
      requires Ready()
      modifies this
      ensures Read(r, MemberAt(accepts, data, old(i), old(depth)), old(depth))
      decreases |data| - i, 2
    {
      hide Skip, Chars, ValueAt;
      Space();
      if i >= |data| || data[i] != QUOTE {
        return None;
      }
      var key := ReadString();
      if key.None? {
        return None;
      }
      Space();
      if i >= |data| || data[i] != 0x3A {
        return None;
      }
      i := i + 1;
      Space();
      var value := ReadValue();
      if value.None? {
        return None;
      }
      return Some(Member(key.value, value.value));
    }

    method ReadObject() returns (r: Option<Value>)
      requires Ready() && i < |data|
      modifies this
      ensures Read(r, ObjectAt(accepts, data, old(i), old(depth)), old(depth))
      decreases |data| - i, 0
    {
      hide Skip, MemberAt, Insert, Repeats, IndexOf, Keys;
      ghost var start, d := i, depth;
      i := i + 1;
      var o: seq<Member<Value>> := [];
      var index: Option<map<Key, nat>> := None;
      NoMembers();
      Space();
      if i < |data| && data[i] == 0x7D {
        i := i + 1;
        return Some(Obj(o));
      }
      while true
        invariant start < i <= |data| && depth == d && !tooDeep
        invariant !Repeats(o) && if index.Some? then index.value == IndexOf(o) else |o| <= SMALL
        invariant ObjectAt(accepts, data, start, d) == MembersAt(accepts, data, i, d, o)
        decreases |data| - i
      {
        var m := ReadMember();
        if m.None? {
          return None;
        }
        o, index := PutMember(o, index, m.value);
        Space();
        if i >= |data| {
          return None;
        }
        if data[i] == 0x2C {
          i := i + 1;
        } else if data[i] == 0x7D {
          i := i + 1;
          return Some(Obj(o));
        } else {
          return None;
        }
      }
    }
  }

  /** Parse, run on the cursor parser. */
  method RunParse(data: Bytes, accepts: FloatTest) returns (r: Outcome)
    ensures r == Parse(accepts, data)
  {
    var p := new Parser(data, accepts);
    p.Space();
    var value := p.ReadValue();
    if p.tooDeep {
      return ErrTooDeep;
    }
    if value.None? {
      return ErrInvalid;
    }
    p.Space();
    if p.i != |p.data| {
      return ErrInvalid;
    }
    return Outcome.Value(value.value);
  }

  // ---- the string printer ----

  lemma {:induction false} EscapeAppend(s: Bytes, c: byte)
    ensures EscapeAll(s + [c]) == EscapeAll(s) + Escape(c)
  {
    hide Escape;
    if s == [] {
      assert EscapeAll([c]) == Escape(c) + EscapeAll([]);
    } else {
      EscapeAppend(s[1..], c);
      assert (s + [c])[1..] == s[1..] + [c];
    }
  }

  lemma AppendAfter(a: Bytes, b: Bytes, c: Bytes)
    ensures a + b + c == a + (b + c)
  {}

  /** Quote. */
  method Quote(s: Bytes) returns (out: Bytes)
    ensures out == Quoted(s)
  {
    out := [QUOTE];
    for k := 0 to |s|
      invariant out == [QUOTE] + EscapeAll(s[..k])
    {
      var c := s[k];
      if c == QUOTE || c == BACKSLASH {
        out := out + [BACKSLASH, c];
      } else if c == 0x08 {
        out := out + [BACKSLASH, 0x62];
      } else if c == 0x09 {
        out := out + [BACKSLASH, 0x74];
      } else if c == 0x0A {
        out := out + [BACKSLASH, 0x6E];
      } else if c == 0x0C {
        out := out + [BACKSLASH, 0x66];
      } else if c == 0x0D {
        out := out + [BACKSLASH, 0x72];
      } else if c < 0x20 {
        out := out + [BACKSLASH, 0x75, 0x30, 0x30, Hex(c / 16), Hex(c % 16)];
      } else {
        out := out + [c];
      }
      AppendAfter([QUOTE], EscapeAll(s[..k]), Escape(c));
      EscapeAppend(s[..k], c);
      assert s[..k] + [c] == s[..k + 1];
    }
    assert s[..|s|] == s;
    out := out + [QUOTE];
  }
}
