/** What Parse computes (jsonvalue/jsonvalue.go), as a function of the text and a position:
    the specification its cursor parser is proved against. */
module JsonGrammar {
  import opened Members
  import opened Json

  /** Whether serde_json accepts a number token as an f64: only overflow is refused. The
      evaluation of floats is not part of this model, so any such test will do. */
  type FloatTest = Bytes -> bool

  datatype Parsed<+T> = Fail | TooDeep | Ok(value: T, next: nat)

  predicate IsSpace(c: byte) { c == 0x20 || c == 0x09 || c == 0x0A || c == 0x0D }

  predicate IsDigit(c: byte) { 0x30 <= c <= 0x39 }

  /** The first position at or after i that is not whitespace. */
  function Skip(d: Bytes, i: nat): (j: nat)
    requires i <= |d|
    ensures i <= j <= |d| && (j < |d| ==> !IsSpace(d[j]))
    decreases |d| - i
  {
    if i < |d| && IsSpace(d[i]) then Skip(d, i + 1) else i
  }

  /** The first position at or after i that is not a digit. */
  function SkipDigits(d: Bytes, i: nat): (j: nat)
    requires i <= |d|
    ensures i <= j <= |d| && (j < |d| ==> !IsDigit(d[j]))
    ensures forall k :: i <= k < j ==> IsDigit(d[k])
    decreases |d| - i
  {
    if i < |d| && IsDigit(d[i]) then SkipDigits(d, i + 1) else i
  }

  predicate At(d: Bytes, i: nat, t: Bytes) { i + |t| <= |d| && forall k :: 0 <= k < |t| ==> d[i + k] == t[k] }

  function Literal(d: Bytes, i: nat, word: Bytes, v: Value): Parsed<Value> {
    if At(d, i, word) then Ok(v, i + |word|) else Fail
  }

  // ---- strings ----

  function HexValue(c: byte): (r: int)
    ensures -1 <= r < 16
  {
    if IsDigit(c) then c - 0x30
    else if 0x61 <= c <= 0x66 then c - 0x61 + 10
    else if 0x41 <= c <= 0x46 then c - 0x41 + 10
    else -1
  }

  /** The code unit of four hexadecimal digits at i, or -1. */
  function Hex4(d: Bytes, i: nat): (r: int)
    ensures -1 <= r < 0x10000 && (r >= 0 ==> i + 4 <= |d|)
  {
    if i + 4 > |d| then -1
    else
      var a, b, c, e := HexValue(d[i]), HexValue(d[i + 1]), HexValue(d[i + 2]), HexValue(d[i + 3]);
      if a < 0 || b < 0 || c < 0 || e < 0 then -1 else 0x1000 * a + 0x100 * b + 0x10 * c + e
  }

  /** The byte a short escape stands for, or -1. */
  function Unescape(c: byte): int {
    if c == QUOTE || c == BACKSLASH || c == 0x2F then c
    else if c == 0x62 then 0x08
    else if c == 0x66 then 0x0C
    else if c == 0x6E then 0x0A
    else if c == 0x72 then 0x0D
    else if c == 0x74 then 0x09
    else -1
  }

  /** The escape at i, decoded: its bytes and where it ends. A surrogate must be paired. */
  function EscapeAt(d: Bytes, i: nat): (r: Parsed<Bytes>)
    requires i < |d|
    ensures r.Ok? ==> i < r.next <= |d|
  {
    if i + 1 >= |d| then Fail
    else if d[i + 1] != 0x75 then
      var u := Unescape(d[i + 1]);
      if u < 0 then Fail else Ok([u as byte], i + 2)
    else
      var r := Hex4(d, i + 2);
      if r < 0 then Fail
      else if !(0xD800 <= r <= 0xDFFF) then Ok(RuneBytes(r), i + 6)
      else if r >= 0xDC00 || i + 12 > |d| || d[i + 6] != BACKSLASH || d[i + 7] != 0x75 then Fail
      else
        var low := Hex4(d, i + 8);
        if low < 0xDC00 || low > 0xDFFF then Fail
        else Ok(RuneBytes(0x10000 + (r - 0xD800) * 0x400 + (low - 0xDC00)), i + 12)
  }

  /** The rest of a string from i, where `out` is what was read of it: up to its closing
      quote, with no control character, and valid UTF-8 once decoded. */
  function Chars(d: Bytes, i: nat, out: Bytes): (r: Parsed<Bytes>)
    ensures !r.TooDeep? && (r.Ok? ==> i < r.next <= |d| && Utf8(r.value))
    decreases |d| - i
  {
    if i >= |d| then Fail
    else if d[i] == QUOTE then (if Utf8(out) then Ok(out, i + 1) else Fail)
    else if d[i] < 0x20 then Fail
    else if d[i] != BACKSLASH then Chars(d, i + 1, out + [d[i]])
    else
      match EscapeAt(d, i)
      case Ok(b, next) => Chars(d, next, out + b)
      case _ => Fail
  }

  // ---- numbers ----

  /** The value of decimal digits. */
  function DigitsValue(s: Bytes): (n: int)
    requires forall i :: 0 <= i < |s| ==> IsDigit(s[i])
    ensures n >= 0
  {
    if s == [] then 0 else assert IsDigit(s[|s| - 1]); 10 * DigitsValue(s[..|s| - 1]) + (s[|s| - 1] as int - 0x30)
  }

  /** A power of ten. */
  function Tens(k: nat): nat { if k == 0 then 1 else 10 * Tens(k - 1) }

  /** The end of the number token at i (section 6 of RFC 8259), or i when there is none. */
  function NumberEnd(d: Bytes, i: nat): (r: (nat, bool))
    requires i < |d|
    ensures r.0 <= |d| && i <= r.0
    ensures r.0 > i && r.1 ==> var k := if d[i] == 0x2D then i + 1 else i; k < r.0 && forall j :: k <= j < r.0 ==> IsDigit(d[j])
  {
    var k := if d[i] == 0x2D then i + 1 else i;
    if k >= |d| || !IsDigit(d[k]) then (i, false)
    else
      var j := if d[k] == 0x30 then k + 1 else SkipDigits(d, k);
      var f := Fraction(d, j);
      if f < 0 then (i, false) else
      var e := Exponent(d, f);
      if e < 0 then (i, false) else (e, e == j)
  }

  function Fraction(d: Bytes, j: nat): (r: int)
    requires j <= |d|
    ensures r <= |d| && (r < 0 || j <= r)
  {
    if j >= |d| || d[j] != 0x2E then j
    else
      var k := SkipDigits(d, j + 1);
      if k == j + 1 then -1 else k
  }

  function Exponent(d: Bytes, j: nat): (r: int)
    requires j <= |d|
    ensures r <= |d| && (r < 0 || j <= r)
  {
    if j >= |d| || (d[j] != 0x65 && d[j] != 0x45) then j
    else
      var k := if j + 1 < |d| && (d[j + 1] == 0x2B || d[j + 1] == 0x2D) then j + 2 else j + 1;
      var m := SkipDigits(d, k);
      if m == k then -1 else m
  }

  /** The value of a number token. An integer that fits i64 or u64 is exact; anything else,
      "-0" included, is a float. */
  function NumberValue(ok: FloatTest, token: Bytes, integer: bool): (r: Parsed<Value>)
    requires integer ==> var k := if token != [] && token[0] == 0x2D then 1 else 0;
      k < |token| && forall j :: k <= j < |token| ==> IsDigit(token[j])
    ensures r.Ok? ==> r.next == 0
  {
    if integer && token[0] == 0x2D && token != [0x2D, 0x30] && |token| <= 21 && DigitsValue(token[1..]) <= -MIN_I64
    then Ok(I64(-DigitsValue(token[1..])), 0)
    else if integer && token[0] != 0x2D && |token| <= 20 && DigitsValue(token) <= MAX_U64
    then Ok(if DigitsValue(token) <= MAX_I64 then I64(DigitsValue(token)) else U64(DigitsValue(token)), 0)
    else if ok(token) then Ok(Float(token), 0)
    else Fail
  }

  function Number(ok: FloatTest, d: Bytes, i: nat): (r: Parsed<Value>)
    requires i < |d|
    ensures !r.TooDeep? && (r.Ok? ==> i < r.next <= |d|)
  {
    var (end, integer) := NumberEnd(d, i);
    if end == i then Fail
    else
      match NumberValue(ok, d[i..end], integer)
      case Ok(v, _) => Ok(v, end)
      case _ => Fail
  }

  // ---- values ----

  /** The value at i, with `depth` arrays and objects open around it; a negative depth leaves
      room for more than MAX_DEPTH. */
  function ValueAt(ok: FloatTest, d: Bytes, i: nat, depth: int): (r: Parsed<Value>)
    ensures r.Ok? ==> i < r.next <= |d|
    decreases |d| - i, 0
  {
    if i >= |d| then Fail
    else if d[i] == 0x7B || d[i] == 0x5B then
      if depth + 1 > MAX_DEPTH then TooDeep
      else if d[i] == 0x7B then ObjectAt(ok, d, i, depth + 1)
      else ArrayAt(ok, d, i, depth + 1)
    else if d[i] == QUOTE then
      match Chars(d, i + 1, [])
      case Ok(s, next) => Ok(Str(s), next)
      case _ => Fail
    else if d[i] == 0x74 then Literal(d, i, Ascii("true"), Bool(true))
    else if d[i] == 0x66 then Literal(d, i, Ascii("false"), Bool(false))
    else if d[i] == 0x6E then Literal(d, i, Ascii("null"), Null)
    else if d[i] == 0x2D || IsDigit(d[i]) then Number(ok, d, i)
    else Fail
  }

  function ArrayAt(ok: FloatTest, d: Bytes, i: nat, depth: int): (r: Parsed<Value>)
    requires i < |d|
    ensures r.Ok? ==> i < r.next <= |d|
    decreases |d| - i - 1, 3
  {
    var j := Skip(d, i + 1);
    if j < |d| && d[j] == 0x5D then Ok(Arr([]), j + 1) else ItemsAt(ok, d, j, depth, [])
  }

  /** The items of an array from i, after those in `items`. */
  function ItemsAt(ok: FloatTest, d: Bytes, i: nat, depth: int, items: seq<Value>): (r: Parsed<Value>)
    requires i <= |d|
    ensures r.Ok? ==> i < r.next <= |d|
    decreases |d| - i, 2
  {
    match ValueAt(ok, d, Skip(d, i), depth)
    case Fail => Fail
    case TooDeep => TooDeep
    case Ok(v, next) => ItemsNext(ok, d, next, depth, items + [v])
  }

  /** A comma or the end of the array. */
  function ItemsNext(ok: FloatTest, d: Bytes, i: nat, depth: int, items: seq<Value>): (r: Parsed<Value>)
    requires i <= |d|
    ensures r.Ok? ==> i < r.next <= |d|
    decreases |d| - i, 2
  {
    var j := Skip(d, i);
    if j >= |d| then Fail
    else if d[j] == 0x2C then ItemsAt(ok, d, j + 1, depth, items)
    else if d[j] == 0x5D then Ok(Arr(items), j + 1)
    else Fail
  }

  function ObjectAt(ok: FloatTest, d: Bytes, i: nat, depth: int): (r: Parsed<Value>)
    requires i < |d|
    ensures r.Ok? ==> i < r.next <= |d|
    decreases |d| - i - 1, 3
  {
    var j := Skip(d, i + 1);
    if j < |d| && d[j] == 0x7D then Ok(Obj([]), j + 1) else MembersAt(ok, d, j, depth, [])
  }

  /** The members of an object from i, after those in `members`; a repeated key keeps its
      first position and takes the new value. */
  function MembersAt(ok: FloatTest, d: Bytes, i: nat, depth: int, members: seq<Member<Value>>): (r: Parsed<Value>)
    requires i <= |d|
    ensures r.Ok? ==> i < r.next <= |d|
    decreases |d| - i, 2
  {
    match MemberAt(ok, d, i, depth)
    case Fail => Fail
    case TooDeep => TooDeep
    case Ok(m, next) => MembersNext(ok, d, next, depth, Insert(members, m))
  }

  /** A key, a colon and a value. */
  function MemberAt(ok: FloatTest, d: Bytes, i: nat, depth: int): (r: Parsed<Member<Value>>)
    requires i <= |d|
    ensures r.Ok? ==> i < r.next <= |d|
    decreases |d| - i, 1
  {
    var k := Skip(d, i);
    if k >= |d| || d[k] != QUOTE then Fail
    else
      match Chars(d, k + 1, [])
      case Fail => Fail
      case TooDeep => Fail
      case Ok(key, next) =>
        var c := Skip(d, next);
        if c >= |d| || d[c] != 0x3A then Fail
        else
          match ValueAt(ok, d, Skip(d, c + 1), depth)
          case Fail => Fail
          case TooDeep => TooDeep
          case Ok(v, after) => Ok(Member(key, v), after)
  }

  /** A comma or the end of the object. */
  function MembersNext(ok: FloatTest, d: Bytes, i: nat, depth: int, members: seq<Member<Value>>): (r: Parsed<Value>)
    requires i <= |d|
    ensures r.Ok? ==> i < r.next <= |d|
    decreases |d| - i, 2
  {
    var j := Skip(d, i);
    if j >= |d| then Fail
    else if d[j] == 0x2C then MembersAt(ok, d, j + 1, depth, members)
    else if d[j] == 0x7D then Ok(Obj(members), j + 1)
    else Fail
  }

  datatype Outcome = Value(value: Value) | ErrInvalid | ErrTooDeep

  /** Parse: one value with optional whitespace around it. */
  function Parse(ok: FloatTest, d: Bytes): Outcome {
    match ValueAt(ok, d, Skip(d, 0), 0)
    case TooDeep => ErrTooDeep
    case Fail => ErrInvalid
    case Ok(v, next) => if Skip(d, next) == |d| then Outcome.Value(v) else ErrInvalid
  }
}
