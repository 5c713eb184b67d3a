/** Number tokens, part by part (section 6 of RFC 8259), and that the grammar reads exactly them. */
module Numerals {
  import opened Members
  import opened Json
  import opened JsonGrammar
  import opened JsonReading

  /** A number token, part by part. */
  datatype Numeral = Numeral(negative: bool, whole: Bytes, fraction: Bytes, exponent: Exp)

  datatype Exp = NoExp | Exp(letter: byte, sign: Sign, digits: Bytes)

  datatype Sign = Unsigned | Plus | Minus

  predicate AllDigits(s: Bytes) { forall i :: 0 <= i < |s| ==> 0x30 <= s[i] <= 0x39 }

  /** What the JSON grammar allows (section 6 of RFC 8259); an empty fraction is none. */
  predicate WellFormed(n: Numeral) {
    && AllDigits(n.whole) && n.whole != [] && (n.whole[0] == 0x30 ==> |n.whole| == 1)
    && AllDigits(n.fraction)
    && (n.exponent.Exp? ==> (n.exponent.letter == 0x65 || n.exponent.letter == 0x45) && AllDigits(n.exponent.digits) && n.exponent.digits != [])
  }

  function Head(n: Numeral): Bytes { if n.negative then [0x2D] else [] }

  function Point(n: Numeral): Bytes { if n.fraction == [] then [] else [0x2E] + n.fraction }

  function SignBytes(s: Sign): Bytes { if s.Unsigned? then [] else if s.Plus? then [0x2B] else [0x2D] }

  function Tail(n: Numeral): Bytes {
    if n.exponent.NoExp? then []
    else [n.exponent.letter] + SignBytes(n.exponent.sign) + n.exponent.digits
  }

  function Render(n: Numeral): Bytes { Head(n) + n.whole + Point(n) + Tail(n) }

  // Where the parts of a rendered token stand.

  function WholeAt(n: Numeral): nat { |Head(n)| }

  function PointAt(n: Numeral): nat { WholeAt(n) + |n.whole| }

  function TailAt(n: Numeral): nat { PointAt(n) + |Point(n)| }

  function ExpDigitsAt(n: Numeral): nat
    requires n.exponent.Exp?
  {
    TailAt(n) + 1 + if n.exponent.sign.Unsigned? then 0 else 1
  }

  lemma PartsAt(n: Numeral, d: Bytes, i: nat)
    requires At(d, i, Render(n))
    ensures |Render(n)| == TailAt(n) + |Tail(n)| && i + |Render(n)| <= |d|
    ensures At(d, i, Head(n)) && At(d, i + WholeAt(n), n.whole) && At(d, i + PointAt(n), Point(n)) && At(d, i + TailAt(n), Tail(n))
  {
    hide Head, Point, Tail, At;
    AtFits(d, i, Render(n));
    AtCut(d, i, Head(n) + n.whole + Point(n), Tail(n));
    AtCut(d, i, Head(n) + n.whole, Point(n));
    AtCut(d, i, Head(n), n.whole);
  }

  lemma Parts(n: Numeral, token: Bytes)
    requires token == Render(n)
    ensures |token| == TailAt(n) + |Tail(n)|
    ensures At(token, 0, Head(n)) && At(token, WholeAt(n), n.whole) && At(token, PointAt(n), Point(n)) && At(token, TailAt(n), Tail(n))
  {
    AtSelf(token);
    PartsAt(n, token, 0);
  }

  lemma WholeParts(n: Numeral, token: Bytes)
    requires WellFormed(n) && token == Render(n)
    ensures WholeAt(n) < |token| && (token[0] == 0x2D <==> n.negative) && token[WholeAt(n)] == n.whole[0]
    ensures PointAt(n) < |token| ==> token[PointAt(n)] == (if n.fraction != [] then 0x2E else if n.exponent.Exp? then n.exponent.letter else 0)
    ensures PointAt(n) < |token| <==> n.fraction != [] || n.exponent.Exp?
  {
    hide DigitsValue, Render, At;
    Parts(n, token);
    AtIndex(token, WholeAt(n), n.whole, 0);
    assert IsDigit(n.whole[0]);
    if n.negative { AtIndex(token, 0, Head(n), 0); }
    if n.fraction != [] { AtIndex(token, PointAt(n), Point(n), 0); } else if n.exponent.Exp? { AtIndex(token, TailAt(n), Tail(n), 0); }
  }

  /** What the fraction and the exponent of a token are spelled as. */
  lemma Spelled(n: Numeral)
    requires WellFormed(n)
    ensures n.fraction != [] ==> Point(n) == [0x2E] + n.fraction && |Point(n)| == 1 + |n.fraction|
    ensures Tail(n) != [] <==> n.exponent.Exp?
    ensures n.exponent.Exp? ==> Tail(n)[0] == n.exponent.letter && Tail(n) == ([n.exponent.letter] + SignBytes(n.exponent.sign)) + n.exponent.digits
    ensures n.exponent.Exp? ==> n.exponent.digits != [] && IsDigit(n.exponent.digits[0])
  {}

  lemma PointParts(n: Numeral, token: Bytes)
    requires WellFormed(n) && token == Render(n) && n.fraction != []
    ensures At(token, PointAt(n) + 1, n.fraction) && TailAt(n) == PointAt(n) + 1 + |n.fraction|
    ensures TailAt(n) < |token| <==> n.exponent.Exp?
    ensures TailAt(n) < |token| ==> token[TailAt(n)] == n.exponent.letter
  {
    hide WellFormed, AllDigits, Render, At, Head, Point, Tail;
    Parts(n, token);
    Spelled(n);
    AtCut(token, PointAt(n), [0x2E], n.fraction);
    if n.exponent.Exp? { AtIndex(token, TailAt(n), Tail(n), 0); }
  }

  lemma ExpParts(n: Numeral, token: Bytes)
    requires WellFormed(n) && token == Render(n) && n.exponent.Exp?
    ensures var i := TailAt(n) + 1; var e := n.exponent;
      && TailAt(n) < i < |token| && token[TailAt(n)] == e.letter
      && ExpDigitsAt(n) + |e.digits| == |token| && At(token, ExpDigitsAt(n), e.digits)
      && (token[i] == 0x2B || token[i] == 0x2D <==> !e.sign.Unsigned?)
      && (token[i] == 0x2B <==> e.sign.Plus?)
  {
    hide WellFormed, AllDigits, Render, At, Head, Point, Tail;
    Parts(n, token);
    Spelled(n);
    var e, sign := n.exponent, SignBytes(n.exponent.sign);
    AtCut(token, TailAt(n), [e.letter] + sign, e.digits);
    AtCut(token, TailAt(n), [e.letter], sign);
    AtIndex(token, TailAt(n), [e.letter], 0);
    AtIndex(token, ExpDigitsAt(n), e.digits, 0);
    if sign != [] { AtIndex(token, TailAt(n) + 1, sign, 0); }
  }

  // ---- the grammar reads exactly these ----

  /** No fraction and no exponent. */
  predicate IsInteger(n: Numeral) { n.fraction == [] && n.exponent.NoExp? }

  lemma SliceJoin(d: Bytes, a: nat, b: nat, c: nat)
    requires a <= b <= c <= |d|
    ensures d[a..b] + d[b..c] == d[a..c]
  {}

  lemma FractionSpelled(d: Bytes, j: nat) returns (fraction: Bytes)
    requires j <= |d| && Fraction(d, j) >= 0
    ensures AllDigits(fraction) && d[j..Fraction(d, j)] == (if fraction == [] then [] else [0x2E] + fraction)
    ensures fraction == [] <==> Fraction(d, j) == j
  {
    var f := Fraction(d, j);
    if f == j {
      fraction := [];
    } else {
      fraction := d[j + 1..f];
      assert d[j..f] == [d[j]] + d[j + 1..f];
    }
  }

  lemma ExponentSpelled(d: Bytes, f: nat) returns (e: Exp)
    requires f <= |d| && Exponent(d, f) >= 0
    ensures e.Exp? ==> (e.letter == 0x65 || e.letter == 0x45) && AllDigits(e.digits) && e.digits != []
    ensures d[f..Exponent(d, f)] == if e.NoExp? then [] else [e.letter] + SignBytes(e.sign) + e.digits
    ensures e.NoExp? <==> Exponent(d, f) == f
  {
    var m := Exponent(d, f);
    if m == f {
      e := NoExp;
    } else {
      var sign := if d[f + 1] == 0x2B then Plus else if d[f + 1] == 0x2D then Minus else Unsigned;
      var k := f + 1 + |SignBytes(sign)|;
      e := Exp(d[f], sign, d[k..m]);
      assert d[f..k] == [d[f]] + SignBytes(sign);
      SliceJoin(d, f, k, m);
    }
  }

  lemma NumberEndParts(d: Bytes, i: nat)
    requires i < |d| && NumberEnd(d, i).0 > i
    ensures var k := if d[i] == 0x2D then i + 1 else i;
      && k < |d| && IsDigit(d[k])
      && (var j := if d[k] == 0x30 then k + 1 else SkipDigits(d, k);
          var f := Fraction(d, j);
          f >= 0 && Exponent(d, f) >= 0 && NumberEnd(d, i) == (Exponent(d, f), Exponent(d, f) == j))
  {
    hide SkipDigits, Fraction, Exponent;
  }

  lemma PartsRender(d: Bytes, i: nat, k: nat, j: nat, f: nat, m: nat, n: Numeral)
    requires i <= k <= j <= f <= m <= |d|
    requires d[i..k] == Head(n) && d[k..j] == n.whole && d[j..f] == Point(n) && d[f..m] == Tail(n)
    ensures d[i..m] == Render(n)
  {
    hide Head, Point, Tail;
    SliceJoin(d, i, k, j);
    SliceJoin(d, i, j, f);
    SliceJoin(d, i, f, m);
  }

  /** Every token the grammar accepts is spelled by a numeral. */
  lemma TokenSpelled(d: Bytes, i: nat) returns (n: Numeral)
    requires i < |d| && NumberEnd(d, i).0 > i
    ensures WellFormed(n) && d[i..NumberEnd(d, i).0] == Render(n) && NumberEnd(d, i).1 == IsInteger(n)
  {
    hide SkipDigits, Fraction, Exponent, NumberEnd, AllDigits, Render;
    NumberEndParts(d, i);
    var k := if d[i] == 0x2D then i + 1 else i;
    var j := if d[k] == 0x30 then k + 1 else SkipDigits(d, k);
    var f := Fraction(d, j);
    var fraction := FractionSpelled(d, j);
    var e := ExponentSpelled(d, f);
    var m := Exponent(d, f);
    n := Numeral(d[i] == 0x2D, d[k..j], fraction, e);
    WholeSpelled(d, k, j);
    assert d[i..k] == Head(n);
    PartsRender(d, i, k, j, f, m, n);
  }

  lemma WholeSpelled(d: Bytes, k: nat, j: nat)
    requires k < |d| && IsDigit(d[k]) && j == if d[k] == 0x30 then k + 1 else SkipDigits(d, k)
    ensures k < j <= |d| && AllDigits(d[k..j]) && (d[k] == 0x30 ==> j == k + 1)
  {}

  lemma FractionReads(d: Bytes, j: nat, fraction: Bytes)
    requires AllDigits(fraction) && fraction != [] && At(d, j, [0x2E] + fraction)
    requires j + 1 + |fraction| < |d| ==> !IsDigit(d[j + 1 + |fraction|])
    ensures Fraction(d, j) == j + 1 + |fraction|
  {
    AtCut(d, j, [0x2E], fraction);
    AtIndex(d, j, [0x2E], 0);
    RunReads(d, j + 1, fraction);
  }

  lemma RunReads(d: Bytes, j: nat, run: Bytes)
    requires AllDigits(run) && At(d, j, run) && (j + |run| < |d| ==> !IsDigit(d[j + |run|]))
    ensures SkipDigits(d, j) == j + |run|
  {
    forall k | j <= k < j + |run| ensures IsDigit(d[k]) { AtIndex(d, j, run, k - j); }
    SkipDigitsTo(d, j, j + |run|);
  }

  lemma ExponentReads(d: Bytes, f: nat, e: Exp)
    requires e.Exp? && (e.letter == 0x65 || e.letter == 0x45) && AllDigits(e.digits) && e.digits != []
    requires At(d, f, [e.letter] + SignBytes(e.sign) + e.digits)
    requires var end := f + 1 + |SignBytes(e.sign)| + |e.digits|; end < |d| ==> !IsDigit(d[end])
    ensures Exponent(d, f) == f + 1 + |SignBytes(e.sign)| + |e.digits|
  {
    var sign := SignBytes(e.sign);
    AtCut(d, f, [e.letter] + sign, e.digits);
    AtCut(d, f, [e.letter], sign);
    AtIndex(d, f, [e.letter], 0);
    AtIndex(d, f + 1 + |sign|, e.digits, 0);
    assert IsDigit(e.digits[0]);
    if sign != [] { AtIndex(d, f + 1, sign, 0); }
    RunReads(d, f + 1 + |sign|, e.digits);
  }

  /** The sign and the first digit. */
  lemma HeadReads(d: Bytes, i: nat, n: Numeral)
    requires WellFormed(n) && At(d, i, Render(n))
    ensures var k := i + WholeAt(n); k < |d| && IsDigit(d[k]) && d[k] == n.whole[0] && At(d, k, n.whole)
    ensures i < |d| && (d[i] == 0x2D <==> n.negative)
  {
    hide Render, At, Point, Tail;
    PartsAt(n, d, i);
    AtIndex(d, i + WholeAt(n), n.whole, 0);
    if n.negative { AtIndex(d, i, Head(n), 0); }
  }

  /** The integer part ends at the point, the exponent or the end. */
  lemma WholeReads(d: Bytes, i: nat, n: Numeral)
    requires WellFormed(n) && At(d, i, Render(n)) && Ends(d, i + |Render(n)|)
    ensures var j := i + PointAt(n); j < |d| ==> !IsDigit(d[j])
    ensures var j := i + PointAt(n); j < |d| && d[j] == 0x2E <==> n.fraction != []
  {
    hide Render, At, Head, Point, Tail, AllDigits;
    PartsAt(n, d, i);
    Spelled(n);
    if n.fraction != [] {
      AtIndex(d, i + PointAt(n), Point(n), 0);
    } else {
      assert Point(n) == [] by { NoPoint(n); }
      if n.exponent.Exp? { AtIndex(d, i + TailAt(n), Tail(n), 0); }
    }
  }

  lemma NoPoint(n: Numeral)
    ensures n.fraction == [] <==> Point(n) == []
  {}

  /** The fraction ends at the exponent or the end. */
  lemma PointReads(d: Bytes, i: nat, n: Numeral)
    requires WellFormed(n) && At(d, i, Render(n)) && Ends(d, i + |Render(n)|)
    ensures i + PointAt(n) <= |d| && Fraction(d, i + PointAt(n)) == i + TailAt(n)
  {
    hide Render, At, Head, Point, Tail, AllDigits, SkipDigits;
    PartsAt(n, d, i);
    Spelled(n);
    NoPoint(n);
    WholeReads(d, i, n);
    HeadReads(d, i, n);
    if n.exponent.Exp? { AtIndex(d, i + TailAt(n), Tail(n), 0); }
    if n.fraction != [] { FractionReads(d, i + PointAt(n), n.fraction); }
  }

  lemma ExponentPartReads(d: Bytes, i: nat, n: Numeral)
    requires WellFormed(n) && At(d, i, Render(n)) && Ends(d, i + |Render(n)|)
    ensures i + TailAt(n) <= |d| && Exponent(d, i + TailAt(n)) == i + |Render(n)|
  {
    hide Render, At, Head, Point, AllDigits, SkipDigits;
    PartsAt(n, d, i);
    PointReads(d, i, n);
    if n.exponent.Exp? { ExponentReads(d, i + TailAt(n), n.exponent); }
  }

  /** And every numeral is read to its end, if nothing there could continue it. */
  lemma NumeralReads(d: Bytes, i: nat, n: Numeral)
    requires WellFormed(n) && At(d, i, Render(n)) && Ends(d, i + |Render(n)|)
    ensures i < |d| && (d[i] == 0x2D || IsDigit(d[i])) && |Render(n)| > 0
    ensures NumberEnd(d, i) == (i + |Render(n)|, IsInteger(n)) && d[i..i + |Render(n)|] == Render(n)
  {
    hide SkipDigits, Fraction, Exponent, Render, Point, Tail, At, NumberEnd, AllDigits;
    PartsAt(n, d, i);
    HeadReads(d, i, n);
    WholeReads(d, i, n);
    PointReads(d, i, n);
    ExponentPartReads(d, i, n);
    NoPoint(n);
    Spelled(n);
    AtSlice(d, i, Render(n));
    if n.whole[0] != 0x30 { RunReads(d, i + WholeAt(n), n.whole); }
    NumberEndOf(d, i, i + WholeAt(n), i + PointAt(n), i + TailAt(n));
  }

  lemma NumberEndOf(d: Bytes, i: nat, k: nat, j: nat, f: nat)
    requires i < |d| && k == (if d[i] == 0x2D then i + 1 else i) && k < |d| && IsDigit(d[k])
    requires j == (if d[k] == 0x30 then k + 1 else SkipDigits(d, k)) && Fraction(d, j) == f && Exponent(d, f) >= 0
    ensures NumberEnd(d, i) == (Exponent(d, f), Exponent(d, f) == j)
  {
    hide SkipDigits, Fraction, Exponent;
  }

  /** A token is spelled by one numeral only. */
  lemma RenderUnique(n: Numeral, m: Numeral)
    requires WellFormed(n) && WellFormed(m) && Render(n) == Render(m)
    ensures n == m
  {
    hide Render, At, Head, Point, Tail, AllDigits, SkipDigits, Fraction;
    var d := Render(n);
    AtSelf(d);
    SamePlaces(d, n, m);
    PartsAt(n, d, 0);
    PartsAt(m, d, 0);
    AtSame(d, WholeAt(n), n.whole, m.whole);
    AtSame(d, PointAt(n), Point(n), Point(m));
    AtSame(d, TailAt(n), Tail(n), Tail(m));
    SamePoint(n, m);
    SameTail(n, m);
  }

  lemma SamePlaces(d: Bytes, n: Numeral, m: Numeral)
    requires WellFormed(n) && WellFormed(m) && d == Render(n) == Render(m)
    ensures n.negative == m.negative && WholeAt(n) == WholeAt(m) && PointAt(n) == PointAt(m) && TailAt(n) == TailAt(m)
  {
    hide Render, At, Point, Tail, SkipDigits, Fraction;
    AtSelf(d);
    HeadReads(d, 0, n);
    HeadReads(d, 0, m);
    WholeReads(d, 0, n);
    WholeReads(d, 0, m);
    if n.whole[0] != 0x30 {
      RunReads(d, WholeAt(n), n.whole);
      RunReads(d, WholeAt(n), m.whole);
    }
    PointReads(d, 0, n);
    PointReads(d, 0, m);
  }

  lemma SamePoint(n: Numeral, m: Numeral)
    requires Point(n) == Point(m)
    ensures n.fraction == m.fraction
  {
    if n.fraction != [] && m.fraction != [] { assert n.fraction == Point(n)[1..] == Point(m)[1..] == m.fraction; }
  }

  lemma SameTail(n: Numeral, m: Numeral)
    requires WellFormed(n) && WellFormed(m) && Tail(n) == Tail(m)
    ensures n.exponent == m.exponent
  {
    hide Tail;
    Spelled(n);
    Spelled(m);
    if n.exponent.Exp? { SameExponent(n.exponent, m.exponent); }
  }

  lemma SameExponent(e: Exp, f: Exp)
    requires e.Exp? && f.Exp? && e.digits != [] && f.digits != [] && IsDigit(e.digits[0]) && IsDigit(f.digits[0])
    requires ([e.letter] + SignBytes(e.sign)) + e.digits == ([f.letter] + SignBytes(f.sign)) + f.digits
    ensures e == f
  {
    var t, u := ([e.letter] + SignBytes(e.sign)) + e.digits, ([f.letter] + SignBytes(f.sign)) + f.digits;
    assert t[0] == e.letter && u[0] == f.letter;
    assert t[1] == if e.sign.Unsigned? then e.digits[0] else SignBytes(e.sign)[0];
    assert u[1] == if f.sign.Unsigned? then f.digits[0] else SignBytes(f.sign)[0];
    var k := 1 + |SignBytes(e.sign)|;
    assert e.digits == t[k..] && f.digits == u[k..];
  }

  // ---- how large they are ----

  lemma LastDigit(s: Bytes)
    requires AllDigits(s) && s != []
    ensures DigitsValue(s) == 10 * DigitsValue(s[..|s| - 1]) + (s[|s| - 1] as int - 0x30)
  {}

  lemma TensStep(n: nat)
    ensures Tens(n + 1) == 10 * Tens(n)
  {}

  lemma {:induction false} LeadingDigit(s: Bytes)
    requires AllDigits(s) && s != [] && s[0] != 0x30
    ensures Tens(|s| - 1) <= DigitsValue(s)
  {
    LastDigit(s);
    if |s| > 1 {
      LeadingDigit(s[..|s| - 1]);
      TensStep(|s| - 2);
    }
  }

  lemma {:induction false} TensGrow(a: nat, b: nat)
    requires a <= b
    ensures Tens(a) <= Tens(b)
  {
    if a < b { TensGrow(a, b - 1); }
  }

  /** What fits a uint64 has at most twenty digits. */
  lemma AtMostTwenty(n: Numeral)
    requires WellFormed(n) && DigitsValue(n.whole) <= MAX_U64
    ensures |n.whole| <= 20
  {
    hide Tens, DigitsValue;
    TwentyDigits();
    if n.whole[0] != 0x30 { LeadingDigit(n.whole); }
    if |n.whole| > 20 { TensGrow(20, |n.whole| - 1); }
  }
}
