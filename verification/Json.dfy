/** JSON values as jsonvalue/jsonvalue.go holds them, their normal form, and the printer
    (JSON text per sections 4 to 7 of RFC 8259). */
module Json {
  import opened Members

  type Bytes = seq<byte>

  /** A decoded value. I64 and U64 are Go's int64 and uint64; a Float is kept as its token,
      since floating point is not part of this model. */
  datatype Value =
    | Null | Bool(b: bool) | Str(s: Bytes) | I64(n: int) | U64(n: int) | Float(token: Bytes)
    | Arr(items: seq<Value>) | Obj(members: seq<Member<Value>>)

  newtype uint64 = x: int | 0 <= x <= 0xFFFF_FFFF_FFFF_FFFF

  const MAX_U64: int := 0xFFFF_FFFF_FFFF_FFFF
  const MAX_I64: int := 0x7FFF_FFFF_FFFF_FFFF
  const MIN_I64: int := -0x8000_0000_0000_0000

  /** How deeply Parse nests arrays and objects. */
  const MAX_DEPTH: nat := 10000

  // ---- UTF-8 (section 4 of RFC 3629) ----

  predicate Cont(c: byte) { 0x80 <= c <= 0xBF }

  /** The length of the well-formed sequence s starts with, or 0. */
  function RuneLen(s: Bytes): (n: nat)
    ensures n <= |s|
  {
    if s == [] then 0
    else if s[0] < 0x80 then 1
    else if |s| >= 2 && 0xC2 <= s[0] <= 0xDF && Cont(s[1]) then 2
    else if |s| >= 3 && 0xE0 <= s[0] <= 0xEF && Cont(s[1]) && Cont(s[2])
            && (s[0] == 0xE0 ==> s[1] >= 0xA0) && (s[0] == 0xED ==> s[1] <= 0x9F) then 3
    else if |s| >= 4 && 0xF0 <= s[0] <= 0xF4 && Cont(s[1]) && Cont(s[2]) && Cont(s[3])
            && (s[0] == 0xF0 ==> s[1] >= 0x90) && (s[0] == 0xF4 ==> s[1] <= 0x8F) then 4
    else 0
  }

  predicate Utf8(s: Bytes) {
    s == [] || (RuneLen(s) > 0 && Utf8(s[RuneLen(s)..]))
  }

  /** utf8.AppendRune. */
  function RuneBytes(r: nat): Bytes {
    if r < 0x80 then [r]
    else if r < 0x800 then [0xC0 + r / 0x40, 0x80 + r % 0x40]
    else if 0xD800 <= r <= 0xDFFF || r > 0x10FFFF then [0xEF, 0xBF, 0xBD]
    else if r < 0x10000 then [0xE0 + r / 0x1000, 0x80 + r / 0x40 % 0x40, 0x80 + r % 0x40]
    else [0xF0 + r / 0x40000, 0x80 + r / 0x1000 % 0x40, 0x80 + r / 0x40 % 0x40, 0x80 + r % 0x40]
  }

  // ---- the printer ----

  const QUOTE: byte := 0x22
  const BACKSLASH: byte := 0x5C

  function Ascii(s: string): Bytes
    requires forall i :: 0 <= i < |s| ==> s[i] as int < 128
  {
    seq(|s|, i requires 0 <= i < |s| => s[i] as byte)
  }

  /** A lowercase hexadecimal digit. */
  function Hex(n: nat): byte
    requires n < 16
  {
    if n < 10 then 0x30 + n else 0x61 + (n - 10)
  }

  /** One byte of a string, escaped as serde_json escapes it. */
  function Escape(c: byte): Bytes {
    if c == QUOTE then [BACKSLASH, QUOTE]
    else if c == BACKSLASH then [BACKSLASH, BACKSLASH]
    else if c == 0x08 then [BACKSLASH, 0x62]
    else if c == 0x09 then [BACKSLASH, 0x74]
    else if c == 0x0A then [BACKSLASH, 0x6E]
    else if c == 0x0C then [BACKSLASH, 0x66]
    else if c == 0x0D then [BACKSLASH, 0x72]
    else if c < 0x20 then [BACKSLASH, 0x75, 0x30, 0x30, Hex(c / 16), Hex(c % 16)]
    else [c]
  }

  function EscapeAll(s: Bytes): Bytes { if s == [] then [] else Escape(s[0]) + EscapeAll(s[1..]) }

  function Quoted(s: Bytes): Bytes { [QUOTE] + EscapeAll(s) + [QUOTE] }

  function Digits(n: nat): (d: Bytes)
    ensures d != []
  {
    (if n < 10 then [] else Digits(n / 10)) + [0x30 + n % 10]
  }

  function Decimal(n: int): Bytes { if n < 0 then [0x2D] + Digits(-n) else Digits(n) }

  /** The size of what is printed for a value, used to order recursion. */
  function Size(v: Value): nat
  {
    match v
    case Arr(items) => 1 + SizeItems(items)
    case Obj(members) => 1 + SizeMembers(members)
    case _ => 1
  }

  function SizeItems(items: seq<Value>): nat { if items == [] then 0 else Size(items[0]) + SizeItems(items[1..]) }

  function SizeMembers(members: seq<Member<Value>>): nat {
    if members == [] then 0 else Size(members[0].value) + SizeMembers(members[1..])
  }

  lemma {:induction false} SizeAppend(o: seq<Member<Value>>, m: Member<Value>)
    ensures SizeMembers(o + [m]) == SizeMembers(o) + Size(m.value)
  {
    if o != [] {
      SizeAppend(o[1..], m);
      assert (o + [m])[1..] == o[1..] + [m];
    }
  }

  lemma {:induction false} SizeUpdate(o: seq<Member<Value>>, i: nat, m: Member<Value>)
    requires i < |o|
    ensures SizeMembers(o[i := m]) <= SizeMembers(o) + Size(m.value)
  {
    if i > 0 {
      SizeUpdate(o[1..], i - 1, m);
      assert o[i := m][1..] == o[1..][i - 1 := m];
    } else {
      assert o[i := m][1..] == o[1..];
    }
  }

  /** Merging repeated members never makes an object larger. */
  lemma {:induction false} MergeNoLarger(o: seq<Member<Value>>)
    ensures SizeMembers(Merge(o)) <= SizeMembers(o)
  {
    if o != [] {
      var p, m := o[..|o| - 1], o[|o| - 1];
      MergeNoLarger(p);
      assert p + [m] == o;
      SizeAppend(p, m);
      var i := First(Keys(Merge(p)), m.key);
      if i < |Merge(p)| { SizeUpdate(Merge(p), i, m); } else { SizeAppend(Merge(p), m); }
    }
  }

  /** Append: compact, an object's members merged first when a key repeats. */
  function Print(v: Value): Bytes
    decreases Size(v), 0
  {
    match v
    case Null => Ascii("null")
    case Bool(b) => Ascii(if b then "true" else "false")
    case Str(s) => Quoted(s)
    case I64(n) => Decimal(n)
    case U64(n) => Decimal(n)
    case Float(token) => token
    case Arr(items) => [0x5B] + PrintItems(items) + [0x5D]
    case Obj(members) =>
      MergeNoLarger(members);
      [0x7B] + PrintMembers(if Repeats(members) then Merge(members) else members) + [0x7D]
  }

  function PrintItems(items: seq<Value>): Bytes
    decreases SizeItems(items), 1 + |items|
  {
    if items == [] then []
    else Print(items[0]) + (if |items| == 1 then [] else [0x2C] + PrintItems(items[1..]))
  }

  function PrintMember(m: Member<Value>): Bytes
    decreases Size(m.value), 1
  {
    Quoted(m.key) + [0x3A] + Print(m.value)
  }

  function PrintMembers(members: seq<Member<Value>>): Bytes
    decreases SizeMembers(members), 1 + |members|
  {
    if members == [] then []
    else PrintMember(members[0]) + (if |members| == 1 then [] else [0x2C] + PrintMembers(members[1..]))
  }
}
