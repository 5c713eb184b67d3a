/** The strings of RFC 8259, by the standard's own tables: whitespace, escapes, hexadecimal
    digits and UTF-8; and that the grammar reads exactly their spellings. */
module JsonStrings {
  import opened Members
  import opened Json
  import opened JsonGrammar
  import opened JsonReading

  /** Section 2 of RFC 8259: space, tab, line feed, carriage return. */
  const WHITESPACE: set<byte> := {0x20, 0x09, 0x0A, 0x0D}

  type Blank = s: Bytes | forall i :: 0 <= i < |s| ==> s[i] in WHITESPACE witness []

  /** Section 7 of RFC 8259: what stands after the backslash, and the byte meant. */
  const SHORT: map<byte, byte> :=
    map[0x22 := 0x22, 0x5C := 0x5C, 0x2F := 0x2F, 0x62 := 0x08, 0x66 := 0x0C, 0x6E := 0x0A, 0x72 := 0x0D, 0x74 := 0x09]

  lemma ShortIsUnescape(c: byte)
    ensures Unescape(c) == if c in SHORT then SHORT[c] else -1
  {}

  // ---- hexadecimal ----

  datatype Nibble = Nibble(value: int, upper: bool)

  type HexDigit = h: Nibble | 0 <= h.value < 16 witness Nibble(0, false)

  const LOWER := "0123456789abcdef"
  const UPPER := "0123456789ABCDEF"

  function SpellDigit(h: HexDigit): byte {
    var c := (if h.upper then UPPER else LOWER)[h.value] as int;
    assert c < 256;
    c
  }

  /** Four of them, the first the most significant. */
  datatype Quad = Quad(a: HexDigit, b: HexDigit, c: HexDigit, d: HexDigit)

  function SpellQuad(q: Quad): Bytes { [SpellDigit(q.a), SpellDigit(q.b), SpellDigit(q.c), SpellDigit(q.d)] }

  function CodeUnit(q: Quad): nat { ((q.a.value * 16 + q.b.value) * 16 + q.c.value) * 16 + q.d.value }

  lemma DigitReads(h: HexDigit)
    ensures HexValue(SpellDigit(h)) == h.value
  {}

  lemma DigitSpelled(c: byte) returns (h: HexDigit)
    requires HexValue(c) >= 0
    ensures SpellDigit(h) == c
  {
    h := Nibble(HexValue(c), 0x41 <= c <= 0x46);
  }

  lemma QuadReads(d: Bytes, i: nat, q: Quad)
    requires At(d, i, SpellQuad(q))
    ensures Hex4(d, i) == CodeUnit(q)
  {
    hide SpellDigit;
    AtIndex(d, i, SpellQuad(q), 0);
    AtIndex(d, i, SpellQuad(q), 1);
    AtIndex(d, i, SpellQuad(q), 2);
    AtIndex(d, i, SpellQuad(q), 3);
    DigitReads(q.a);
    DigitReads(q.b);
    DigitReads(q.c);
    DigitReads(q.d);
  }

  lemma QuadSpelled(d: Bytes, i: nat) returns (q: Quad)
    requires Hex4(d, i) >= 0
    ensures At(d, i, SpellQuad(q)) && CodeUnit(q) == Hex4(d, i)
  {
    hide SpellDigit;
    var a := DigitSpelled(d[i]);
    var b := DigitSpelled(d[i + 1]);
    var c := DigitSpelled(d[i + 2]);
    var e := DigitSpelled(d[i + 3]);
    q := Quad(a, b, c, e);
    QuadReads(d, i, q);
  }

  // ---- UTF-8 (section 3 of RFC 3629) ----

  /** The bits of a byte that continues a character, or -1. */
  function Tail(c: byte): int { if c / 64 == 2 then c % 64 else -1 }

  /** The character these bytes encode, in the shortest form and no surrogate, or -1. */
  function Decoded(b: Bytes): int {
    if |b| == 1 then (if b[0] < 128 then b[0] else -1)
    else if |b| == 2 && b[0] / 32 == 6 && Tail(b[1]) >= 0 then
      var v := b[0] % 32 * 64 + Tail(b[1]);
      if v >= 0x80 then v else -1
    else if |b| == 3 && b[0] / 16 == 14 && Tail(b[1]) >= 0 && Tail(b[2]) >= 0 then
      var v := (b[0] % 16 * 64 + Tail(b[1])) * 64 + Tail(b[2]);
      if v >= 0x800 && !(0xD800 <= v <= 0xDFFF) then v else -1
    else if |b| == 4 && b[0] / 8 == 30 && Tail(b[1]) >= 0 && Tail(b[2]) >= 0 && Tail(b[3]) >= 0 then
      var v := ((b[0] % 8 * 64 + Tail(b[1])) * 64 + Tail(b[2])) * 64 + Tail(b[3]);
      if 0x10000 <= v <= 0x10FFFF then v else -1
    else -1
  }

  predicate Scalar(v: int) { 0 <= v <= 0x10FFFF && !(0xD800 <= v <= 0xDFFF) }

  lemma DecodedIsScalar(b: Bytes)
    ensures Decoded(b) >= 0 ==> Scalar(Decoded(b)) && 1 <= |b| <= 4 && (|b| == 1 <==> Decoded(b) < 0x80)
    ensures Decoded(b) >= 0 && |b| > 1 ==> b[0] >= 0xC0 && forall k :: 0 < k < |b| ==> Cont(b[k])
  {}

  lemma Parts64(x: nat, y: nat)
    requires y < 64
    ensures (x * 64 + y) / 64 == x && (x * 64 + y) % 64 == y
  {}

  lemma Shift64(v: nat)
    ensures v / 64 / 64 == v / 0x1000 && v / 0x1000 / 64 == v / 0x40000
    ensures v == v / 64 * 64 + v % 64 && v / 64 == v / 0x1000 * 64 + v / 64 % 64 && v / 0x1000 == v / 0x40000 * 64 + v / 0x1000 % 64
  {}

  lemma TailOf(x: nat)
    requires x < 64
    ensures Tail(0x80 + x) == x
  {}

  lemma Lead(base: nat, x: nat, size: nat)
    requires (size == 8 || size == 16 || size == 32) && x < size
    ensures (base * size + x) / size == base && (base * size + x) % size == x
  {
    if size == 8 {
      assert (base * 8 + x) / 8 == base;
    } else if size == 16 {
      assert (base * 16 + x) / 16 == base;
    } else {
      assert (base * 32 + x) / 32 == base;
    }
  }

  lemma Rune2(v: nat)
    requires 0x80 <= v < 0x800
    ensures Decoded([0xC0 + v / 0x40, 0x80 + v % 0x40]) == v
  {
    hide Tail;
    TailOf(v % 0x40);
    Lead(6, v / 0x40, 32);
  }

  lemma Rune3(v: nat)
    requires 0x800 <= v < 0x10000 && Scalar(v)
    ensures Decoded([0xE0 + v / 0x1000, 0x80 + v / 0x40 % 0x40, 0x80 + v % 0x40]) == v
  {
    hide Tail;
    TailOf(v % 0x40);
    TailOf(v / 0x40 % 0x40);
    Lead(14, v / 0x1000, 16);
    Shift64(v);
  }

  lemma Rune4(v: nat)
    requires 0x10000 <= v <= 0x10FFFF
    ensures Decoded([0xF0 + v / 0x40000, 0x80 + v / 0x1000 % 0x40, 0x80 + v / 0x40 % 0x40, 0x80 + v % 0x40]) == v
  {
    hide Tail;
    TailOf(v % 0x40);
    TailOf(v / 0x40 % 0x40);
    TailOf(v / 0x1000 % 0x40);
    Lead(30, v / 0x40000, 8);
    Shift64(v);
  }

  /** AppendRune writes the bytes that decode to the character ... */
  lemma RuneDecodes(v: nat)
    requires Scalar(v)
    ensures Decoded(RuneBytes(v)) == v
  {
    if 0x80 <= v { hide Decoded; if v < 0x800 { Rune2(v); } else if v < 0x10000 { Rune3(v); } else { Rune4(v); } }
  }

  lemma TailIs(c: byte)
    requires Tail(c) >= 0
    ensures c == 0x80 + Tail(c) && 0 <= Tail(c) < 64
  {}

  lemma LeadIs(c: byte, base: nat, size: nat)
    requires size > 0 && c / size == base
    ensures c == base * size + c % size && 0 <= c % size < size
  {}

  lemma Once2(b: Bytes)
    requires |b| == 2 && Decoded(b) >= 0
    ensures RuneBytes(Decoded(b)) == b
  {
    hide Tail;
    TailIs(b[1]);
    LeadIs(b[0], 6, 32);
    Parts64(b[0] % 32, Tail(b[1]));
  }

  lemma Once3(b: Bytes)
    requires |b| == 3 && Decoded(b) >= 0
    ensures RuneBytes(Decoded(b)) == b
  {
    hide Tail;
    TailIs(b[1]);
    TailIs(b[2]);
    LeadIs(b[0], 14, 16);
    var x := b[0] % 16 * 64 + Tail(b[1]);
    Parts64(b[0] % 16, Tail(b[1]));
    Parts64(x, Tail(b[2]));
    Shift64(x * 64 + Tail(b[2]));
  }

  lemma Once4(b: Bytes)
    requires |b| == 4 && Decoded(b) >= 0
    ensures RuneBytes(Decoded(b)) == b
  {
    hide Tail;
    TailIs(b[1]);
    TailIs(b[2]);
    TailIs(b[3]);
    LeadIs(b[0], 30, 8);
    var x := b[0] % 8 * 64 + Tail(b[1]);
    var y := x * 64 + Tail(b[2]);
    Parts64(b[0] % 8, Tail(b[1]));
    Parts64(x, Tail(b[2]));
    Parts64(y, Tail(b[3]));
    Shift64(y * 64 + Tail(b[3]));
  }

  /** ... and there are no others. */
  lemma DecodedOnce(b: Bytes)
    requires Decoded(b) >= 0
    ensures RuneBytes(Decoded(b)) == b
  {
    DecodedIsScalar(b);
    if |b| == 2 { Once2(b); } else if |b| == 3 { Once3(b); } else if |b| == 4 { Once4(b); }
  }

  /** The sequence a string starts with, if it is well-formed, is the one that decodes. */
  lemma RuneLenDecodes(s: Bytes)
    ensures RuneLen(s) > 0 ==> Decoded(s[..RuneLen(s)]) >= 0
  {}

  lemma DecodesRuneLen(b: Bytes, s: Bytes)
    requires Decoded(b) >= 0
    ensures RuneLen(b + s) == |b|
  {
    assert forall k :: 0 <= k < |b| ==> (b + s)[k] == b[k];
  }

  /** A character in front changes nothing about the rest. */
  lemma Utf8Cons(b: Bytes, s: Bytes)
    requires Decoded(b) >= 0
    ensures Utf8(b + s) <==> Utf8(s)
  {
    hide Decoded;
    DecodedIsScalar(b);
    DecodesRuneLen(b, s);
    assert (b + s)[|b|..] == s;
  }

  lemma Utf8First(s: Bytes) returns (b: Bytes, rest: Bytes)
    requires Utf8(s) && s != []
    ensures s == b + rest && Decoded(b) >= 0 && |b| == RuneLen(s) && Utf8(rest)
  {
    hide Decoded;
    RuneLenDecodes(s);
    b, rest := s[..RuneLen(s)], s[RuneLen(s)..];
  }

  lemma {:induction false} Utf8Cut(a: Bytes, s: Bytes)
    requires Utf8(a)
    ensures Utf8(a + s) <==> Utf8(s)
    decreases |a|
  {
    hide Utf8, Decoded, RuneLen;
    if a == [] {
      assert a + s == s;
    } else {
      var b, rest := Utf8First(a);
      DecodedIsScalar(b);
      Utf8Cut(rest, s);
      Utf8Cons(b, rest + s);
      assert a + s == b + (rest + s);
    }
  }

  // ---- strings ----

  /** One character of a string as it is spelled: its bytes as they are, a short escape, or one
      or two code units in hexadecimal, with the bytes of the character they give. */
  datatype Piece = Plain(bytes: Bytes) | Short(c: byte) | Unit(hex: Quad, bytes: Bytes) | Pair(high: Quad, low: Quad, bytes: Bytes)

  /** Section 7 of RFC 8259: only quote, backslash and control characters must be escaped; and
      section 2.1 of RFC 2781: a surrogate stands in a pair only. */
  predicate LegalPiece(p: Piece) {
    match p
    case Plain(b) => Decoded(b) >= 0x20 && Decoded(b) != 0x22 && Decoded(b) != 0x5C
    case Short(c) => c in SHORT
    case Unit(h, b) => !(0xD800 <= CodeUnit(h) <= 0xDFFF) && Decoded(b) == CodeUnit(h)
    case Pair(h, l, b) =>
      && 0xD800 <= CodeUnit(h) < 0xDC00 <= CodeUnit(l) <= 0xDFFF
      && Decoded(b) == 0x10000 + (CodeUnit(h) - 0xD800) * 0x400 + (CodeUnit(l) - 0xDC00)
  }

  type Char = p: Piece | LegalPiece(p) witness Plain([0x20])

  function SpellChar(p: Char): Bytes {
    match p
    case Plain(b) => b
    case Short(c) => [0x5C, c]
    case Unit(h, _) => [0x5C, 0x75] + SpellQuad(h)
    case Pair(h, l, _) => [0x5C, 0x75] + SpellQuad(h) + [0x5C, 0x75] + SpellQuad(l)
  }

  function CharMeaning(p: Char): Bytes {
    match p
    case Plain(b) => b
    case Short(c) => [SHORT[c]]
    case Unit(_, b) => b
    case Pair(_, _, b) => b
  }

  type Text = seq<Char>

  /** What stands between the quotes, closing quote included. */
  function SpellText(t: Text): Bytes { if t == [] then [0x22] else SpellChar(t[0]) + SpellText(t[1..]) }

  function TextMeaning(t: Text): Bytes { if t == [] then [] else CharMeaning(t[0]) + TextMeaning(t[1..]) }

  lemma CharIsCharacter(p: Char)
    ensures Decoded(CharMeaning(p)) >= 0
  {}

  lemma {:induction false} TextIsUtf8(t: Text)
    ensures Utf8(TextMeaning(t))
  {
    hide Utf8, Decoded, CharMeaning;
    if t == [] {
      EmptyUtf8();
    } else {
      CharIsCharacter(t[0]);
      TextIsUtf8(t[1..]);
      Utf8Cons(CharMeaning(t[0]), TextMeaning(t[1..]));
    }
  }

  lemma EmptyUtf8()
    ensures Utf8([])
  {}

  // ---- every spelling is read ----

  /** Bytes that stand for themselves. */
  predicate IsRaw(b: Bytes) { forall k :: 0 <= k < |b| ==> b[k] >= 0x20 && b[k] != QUOTE && b[k] != BACKSLASH }

  lemma {:induction false} RawReads(d: Bytes, i: nat, b: Bytes, out: Bytes)
    requires IsRaw(b) && At(d, i, b)
    ensures Chars(d, i, out) == Chars(d, i + |b|, out + b)
    decreases |b|
  {
    hide At;
    if b == [] {
      assert out + b == out;
    } else {
      assert b == [b[0]] + b[1..];
      AtIndex(d, i, b, 0);
      AtCut(d, i, [b[0]], b[1..]);
      RawReads(d, i + 1, b[1..], out + [b[0]]);
      assert (out + [b[0]]) + b[1..] == out + b;
    }
  }

  lemma PlainIsRaw(b: Bytes)
    requires LegalPiece(Plain(b))
    ensures IsRaw(b)
  {
    DecodedIsScalar(b);
  }

  lemma UnitReads(d: Bytes, i: nat, h: Quad, b: Bytes, out: Bytes)
    requires LegalPiece(Unit(h, b)) && At(d, i, [0x5C, 0x75] + SpellQuad(h))
    ensures Chars(d, i, out) == Chars(d, i + 6, out + b)
  {
    hide Hex4, SpellDigit, RuneBytes, Decoded;
    AtIndex(d, i, [0x5C, 0x75] + SpellQuad(h), 0);
    AtIndex(d, i, [0x5C, 0x75] + SpellQuad(h), 1);
    AtCut(d, i, [0x5C, 0x75], SpellQuad(h));
    QuadReads(d, i + 2, h);
    DecodedOnce(b);
  }

  lemma PairParts(d: Bytes, i: nat, h: Quad, l: Quad)
    requires At(d, i, [0x5C, 0x75] + SpellQuad(h) + [0x5C, 0x75] + SpellQuad(l))
    ensures i + 12 <= |d| && d[i] == d[i + 6] == 0x5C && d[i + 1] == d[i + 7] == 0x75
    ensures Hex4(d, i + 2) == CodeUnit(h) && Hex4(d, i + 8) == CodeUnit(l)
  {
    hide Hex4, SpellDigit, CodeUnit;
    var u: Bytes := [0x5C, 0x75];
    AtFits(d, i, u + SpellQuad(h) + u + SpellQuad(l));
    AtCut(d, i, u + SpellQuad(h) + u, SpellQuad(l));
    AtCut(d, i, u + SpellQuad(h), u);
    AtCut(d, i, u, SpellQuad(h));
    AtIndex(d, i, u, 0);
    AtIndex(d, i, u, 1);
    AtIndex(d, i + 6, u, 0);
    AtIndex(d, i + 6, u, 1);
    QuadReads(d, i + 2, h);
    QuadReads(d, i + 8, l);
  }

  lemma PairReads(d: Bytes, i: nat, h: Quad, l: Quad, b: Bytes, out: Bytes)
    requires LegalPiece(Pair(h, l, b)) && At(d, i, [0x5C, 0x75] + SpellQuad(h) + [0x5C, 0x75] + SpellQuad(l))
    ensures Chars(d, i, out) == Chars(d, i + 12, out + b)
  {
    hide Hex4, SpellQuad, CodeUnit, RuneBytes, Decoded, At;
    PairParts(d, i, h, l);
    DecodedOnce(b);
  }

  lemma CharReads(d: Bytes, i: nat, p: Char, out: Bytes)
    requires At(d, i, SpellChar(p))
    ensures Chars(d, i, out) == Chars(d, i + |SpellChar(p)|, out + CharMeaning(p))
  {
    hide Chars, At, Hex4, CodeUnit, SpellDigit, Decoded;
    match p
    case Plain(b) =>
      PlainIsRaw(b);
      RawReads(d, i, b, out);
    case Short(c) => ShortReads(d, i, c, out);
    case Unit(h, b) => UnitReads(d, i, h, b, out);
    case Pair(h, l, b) => PairReads(d, i, h, l, b, out);
  }

  lemma ShortReads(d: Bytes, i: nat, c: byte, out: Bytes)
    requires c in SHORT && At(d, i, [0x5C, c])
    ensures Chars(d, i, out) == Chars(d, i + 2, out + [SHORT[c]])
  {
    AtIndex(d, i, [0x5C, c], 0);
    AtIndex(d, i, [0x5C, c], 1);
    ShortIsUnescape(c);
    NoShortU();
  }

  lemma NoShortU()
    ensures 0x75 !in SHORT
  {}

  lemma {:induction false} TextReads(d: Bytes, i: nat, t: Text, out: Bytes)
    requires At(d, i, SpellText(t)) && Utf8(out)
    ensures Chars(d, i, out) == Ok(out + TextMeaning(t), i + |SpellText(t)|)
    decreases |t|
  {
    hide At, Chars, SpellChar, CharMeaning, Utf8, Decoded;
    if t == [] {
      AtIndex(d, i, SpellText(t), 0);
      assert out + TextMeaning(t) == out;
      CharsEnd(d, i, out);
    } else {
      AtCut(d, i, SpellChar(t[0]), SpellText(t[1..]));
      CharReads(d, i, t[0], out);
      CharIsCharacter(t[0]);
      CharKeepsUtf8(out, CharMeaning(t[0]));
      assert out + TextMeaning(t) == (out + CharMeaning(t[0])) + TextMeaning(t[1..]);
      TextReads(d, i + |SpellChar(t[0])|, t[1..], out + CharMeaning(t[0]));
    }
  }

  lemma CharKeepsUtf8(out: Bytes, b: Bytes)
    requires Utf8(out) && Decoded(b) >= 0
    ensures Utf8(out + b)
  {
    hide Utf8, Decoded;
    EmptyUtf8();
    Utf8Cons(b, []);
    assert b + [] == b;
    Utf8Cut(out, b);
  }

  /** A string with its opening quote. */
  lemma QuotedReads(d: Bytes, i: nat, t: Text)
    requires At(d, i, [0x22] + SpellText(t))
    ensures i < |d| && d[i] == QUOTE && Chars(d, i + 1, []) == Ok(TextMeaning(t), i + 1 + |SpellText(t)|)
  {
    hide Chars, SpellText, Utf8, At;
    AtCut(d, i, [0x22], SpellText(t));
    AtIndex(d, i, [0x22], 0);
    assert [] + TextMeaning(t) == TextMeaning(t);
    EmptyUtf8();
    TextReads(d, i + 1, t, []);
  }

  // ---- and nothing else is ----

  /** What is read of a string starts with what was read before. */
  lemma {:induction false} CharsExtends(d: Bytes, i: nat, out: Bytes)
    requires Chars(d, i, out).Ok?
    ensures out <= Chars(d, i, out).value && (i < |d| && d[i] == QUOTE ==> Chars(d, i, out).value == out)
    decreases |d| - i
  {
    hide EscapeAt, Utf8;
    if d[i] != QUOTE {
      if d[i] != BACKSLASH {
        CharsExtends(d, i + 1, out + [d[i]]);
        assert out <= out + [d[i]];
      } else {
        var e := EscapeAt(d, i);
        CharsExtends(d, e.next, out + e.value);
        assert out <= out + e.value;
      }
    }
  }

  lemma EscapeStarts(d: Bytes, i: nat)
    requires i < |d| && EscapeAt(d, i).Ok?
    ensures EscapeAt(d, i).value != [] && !Cont(EscapeAt(d, i).value[0])
  {
    hide Hex4;
  }

  lemma EscapeNext(d: Bytes, i: nat, out: Bytes)
    requires i < |d| && d[i] == BACKSLASH && Chars(d, i, out).Ok?
    ensures |out| < |Chars(d, i, out).value| && !Cont(Chars(d, i, out).value[|out|])
  {
    hide EscapeAt, Utf8, Cont;
    var e := EscapeAt(d, i);
    EscapeStarts(d, i);
    CharsExtends(d, e.next, out + e.value);
    assert (out + e.value)[|out|] == e.value[0];
  }

  /** Where a continuation byte comes next, it stands in the text as it is. */
  lemma NextRaw(d: Bytes, i: nat, out: Bytes)
    requires Chars(d, i, out).Ok? && |out| < |Chars(d, i, out).value| && Cont(Chars(d, i, out).value[|out|])
    ensures i < |d| && d[i] == Chars(d, i, out).value[|out|] && Chars(d, i, out) == Chars(d, i + 1, out + [d[i]])
  {
    hide EscapeAt, Utf8, Cont;
    CharsExtends(d, i, out);
    if d[i] == BACKSLASH {
      EscapeNext(d, i, out);
    } else {
      CharsExtends(d, i + 1, out + [d[i]]);
      assert Chars(d, i, out).value[|out|] == (out + [d[i]])[|out|];
    }
  }

  lemma AtNone(d: Bytes, i: nat)
    requires i <= |d|
    ensures At(d, i, [])
  {}

  lemma {:induction false} RawRun(d: Bytes, i: nat, out: Bytes, b: Bytes)
    requires Chars(d, i, out).Ok? && out + b <= Chars(d, i, out).value && forall k :: 0 <= k < |b| ==> Cont(b[k])
    ensures At(d, i, b) && Chars(d, i, out) == Chars(d, i + |b|, out + b)
    decreases |b|
  {
    hide Chars, At, Cont;
    if b == [] {
      assert out + b == out;
      AtNone(d, i);
    } else {
      assert (out + b)[|out|] == b[0];
      NextRaw(d, i, out);
      assert (out + [b[0]]) + b[1..] == out + b;
      RawRun(d, i + 1, out + [b[0]], b[1..]);
      AtOne(d, i);
      AtJoin(d, i, [b[0]], b[1..]);
      assert [b[0]] + b[1..] == b;
    }
  }

  /** An unescaped character, whole: the string could not be valid otherwise. */
  lemma PlainSpelled(d: Bytes, i: nat, out: Bytes) returns (p: Char)
    requires i < |d| && d[i] != QUOTE && d[i] != BACKSLASH && Chars(d, i, out).Ok? && Utf8(out)
    ensures At(d, i, SpellChar(p))
  {
    hide Utf8, Decoded, RuneLen, Cont;
    var value := Chars(d, i, out).value;
    CharsExtends(d, i, out);
    CharsExtends(d, i + 1, out + [d[i]]);
    var rest := value[|out|..];
    assert value == out + rest;
    assert (out + [d[i]])[|out|] == d[i];
    Utf8Cut(out, rest);
    var b, after := Utf8First(rest);
    DecodedIsScalar(b);
    assert b[0] == rest[0] == d[i];
    assert b == [d[i]] + b[1..];
    assert out + b == (out + [d[i]]) + b[1..] && out + b <= value;
    RawRun(d, i + 1, out + [d[i]], b[1..]);
    AtOne(d, i);
    AtJoin(d, i, [d[i]], b[1..]);
    PlainLegal(b);
    p := Plain(b);
  }

  lemma PlainLegal(b: Bytes)
    requires Decoded(b) >= 0 && b[0] >= 0x20 && b[0] != QUOTE && b[0] != BACKSLASH
    ensures LegalPiece(Plain(b))
  {
    DecodedIsScalar(b);
  }

  lemma PairSpelled(d: Bytes, i: nat) returns (p: Char)
    requires i + 12 <= |d| && d[i] == d[i + 6] == 0x5C && d[i + 1] == d[i + 7] == 0x75
    requires 0xD800 <= Hex4(d, i + 2) < 0xDC00 <= Hex4(d, i + 8) <= 0xDFFF
    ensures At(d, i, SpellChar(p))
  {
    hide Hex4, CodeUnit, Decoded, RuneBytes;
    var h := QuadSpelled(d, i + 2);
    var l := QuadSpelled(d, i + 8);
    var v: nat := 0x10000 + (CodeUnit(h) - 0xD800) * 0x400 + (CodeUnit(l) - 0xDC00);
    RuneDecodes(v);
    p := Pair(h, l, RuneBytes(v));
    var u: Bytes := [0x5C, 0x75];
    AtTwo(d, i);
    AtTwo(d, i + 6);
    AtJoin(d, i, u, SpellQuad(h));
    AtJoin(d, i, u + SpellQuad(h), u);
    AtJoin(d, i, u + SpellQuad(h) + u, SpellQuad(l));
  }

  lemma AtTwo(d: Bytes, i: nat)
    requires i + 2 <= |d|
    ensures At(d, i, [d[i], d[i + 1]])
  {}

  lemma UnitSpelled(d: Bytes, i: nat) returns (p: Char)
    requires i + 6 <= |d| && d[i] == 0x5C && d[i + 1] == 0x75 && Hex4(d, i + 2) >= 0 && !(0xD800 <= Hex4(d, i + 2) <= 0xDFFF)
    ensures At(d, i, SpellChar(p))
  {
    hide Hex4, CodeUnit, Decoded, RuneBytes;
    var h := QuadSpelled(d, i + 2);
    RuneDecodes(CodeUnit(h));
    p := Unit(h, RuneBytes(CodeUnit(h)));
    AtTwo(d, i);
    AtJoin(d, i, [0x5C, 0x75], SpellQuad(h));
  }

  lemma EscapeSpelled(d: Bytes, i: nat) returns (p: Char)
    requires i < |d| && d[i] == BACKSLASH && EscapeAt(d, i).Ok?
    ensures At(d, i, SpellChar(p))
  {
    hide Hex4, CodeUnit, SpellChar, Decoded, RuneBytes;
    if d[i + 1] != 0x75 {
      ShortIsUnescape(d[i + 1]);
      p := Short(d[i + 1]);
      AtTwo(d, i);
      ShortIsSpelled(d[i + 1]);
    } else if !(0xD800 <= Hex4(d, i + 2) <= 0xDFFF) {
      p := UnitSpelled(d, i);
    } else {
      p := PairSpelled(d, i);
    }
  }

  lemma ShortIsSpelled(c: byte)
    requires c in SHORT
    ensures SpellChar(Short(c)) == [0x5C, c]
  {}

  lemma CharSpelled(d: Bytes, i: nat, out: Bytes) returns (p: Char)
    requires i < |d| && d[i] != QUOTE && Chars(d, i, out).Ok? && Utf8(out)
    ensures At(d, i, SpellChar(p))
  {
    hide SpellChar, EscapeAt, Utf8;
    if d[i] == BACKSLASH { p := EscapeSpelled(d, i); } else { p := PlainSpelled(d, i, out); }
  }

  /** Whatever is read as a string is the spelling of one. */
  lemma {:induction false} TextSpelled(d: Bytes, i: nat, out: Bytes) returns (t: Text)
    requires Chars(d, i, out).Ok? && Utf8(out)
    ensures At(d, i, SpellText(t)) && Chars(d, i, out) == Ok(out + TextMeaning(t), i + |SpellText(t)|)
    decreases |d| - i
  {
    hide At, SpellChar, CharMeaning, EscapeAt, Utf8, Decoded;
    if d[i] == QUOTE {
      t := [];
      AtOne(d, i);
      assert out + TextMeaning(t) == out;
    } else {
      var p := CharSpelled(d, i, out);
      CharReads(d, i, p, out);
      CharShows(p);
      CharIsCharacter(p);
      CharKeepsUtf8(out, CharMeaning(p));
      var rest := TextSpelled(d, i + |SpellChar(p)|, out + CharMeaning(p));
      t := [p] + rest;
      AtJoin(d, i, SpellChar(p), SpellText(rest));
      assert out + TextMeaning(t) == (out + CharMeaning(p)) + TextMeaning(rest);
    }
  }

  lemma CharShows(p: Char)
    ensures SpellChar(p) != []
  {
    if p.Plain? { DecodedIsScalar(p.bytes); }
  }

  lemma QuotedSpelled(d: Bytes, i: nat) returns (t: Text)
    requires i < |d| && d[i] == QUOTE && Chars(d, i + 1, []).Ok?
    ensures At(d, i, [0x22] + SpellText(t)) && Chars(d, i + 1, []) == Ok(TextMeaning(t), i + 1 + |SpellText(t)|)
  {
    hide Chars, SpellText, TextMeaning, Utf8, At;
    EmptyUtf8();
    t := TextSpelled(d, i + 1, []);
    assert [] + TextMeaning(t) == TextMeaning(t);
    AtOne(d, i);
    AtJoin(d, i, [0x22], SpellText(t));
  }
}
