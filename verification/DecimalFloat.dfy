/** How a number token is read as an f64 (internal/jsonline/jsonline.go): u64 accumulation of
    its digits, which brackets the exact decimal value, and the scaling loop, over reals. */
module DecimalFloat {
  import opened Members
  import opened Json
  import opened JsonGrammar
  import opened JsonParser
  import opened JsonReading
  import opened Numerals

  /** All its digits as one integer: without exponent, the exact value is this over
      10 to the number of fraction digits. */
  function Exact(n: Numeral): nat
    requires WellFormed(n)
  {
    DigitsValue(n.whole + n.fraction)
  }

  // ---- digits ----

  lemma {:induction false} TensAdd(a: nat, b: nat)
    ensures Tens(a + b) == Tens(a) * Tens(b) && Tens(a) > 0
  {
    if a > 0 { TensAdd(a - 1, b); }
  }

  lemma {:induction false} DigitsBounded(s: Bytes)
    requires AllDigits(s)
    ensures DigitsValue(s) < Tens(|s|)
  {
    if s != [] { DigitsBounded(s[..|s| - 1]); }
  }

  lemma {:induction false} DigitsJoin(s: Bytes, t: Bytes)
    requires AllDigits(s) && AllDigits(t)
    ensures DigitsValue(s + t) == DigitsValue(s) * Tens(|t|) + DigitsValue(t)
    decreases |t|
  {
    hide Tens, DigitsValue;
    if t == [] {
      assert s + t == s;
      NoDigitsJoin(s);
    } else {
      var n := |t| - 1;
      DigitsJoin(s, t[..n]);
      LastDigit(s + t);
      LastDigit(t);
      assert (s + t)[..|s| + n] == s + t[..n];
      assert Tens(n + 1) == 10 * Tens(n) by { TensStep(n); }
      Tenfold(DigitsValue(s), Tens(n));
    }
  }

  lemma NoDigitsJoin(s: Bytes)
    requires AllDigits(s)
    ensures DigitsValue(s) == DigitsValue(s) * Tens(0) + DigitsValue([])
  {}

  // ---- the bracket ----

  /** S * 10^e <= v < (S + slack) * 10^e. */
  predicate Brackets(s: nat, slack: nat, e: nat, v: nat) { s * Tens(e) <= v < (s + slack) * Tens(e) }

  /** More digits, dropped, widen nothing. */
  lemma Dropped(s: nat, slack: nat, e: nat, v: nat, more: Bytes)
    requires Brackets(s, slack, e, v) && AllDigits(more)
    ensures Brackets(s, slack, e + |more|, v * Tens(|more|) + DigitsValue(more))
  {
    hide Tens, DigitsValue;
    var t := Tens(|more|);
    TensAdd(e, |more|);
    DigitsBounded(more);
    Scale(s * Tens(e), v, (s + slack) * Tens(e), t, DigitsValue(more));
    Associate(s, Tens(e), t);
    Associate(s + slack, Tens(e), t);
  }

  /** More digits do not repair a bound that was too low. */
  lemma TooHigh(s: nat, e: nat, v: nat, more: Bytes)
    requires (s + 1) * Tens(e) <= v && AllDigits(more)
    ensures !Brackets(s, 1, e + |more|, v * Tens(|more|) + DigitsValue(more))
  {
    hide Tens, DigitsValue;
    TensAdd(e, |more|);
    Order((s + 1) * Tens(e), v, Tens(|more|));
    Associate(s + 1, Tens(e), Tens(|more|));
  }

  lemma Associate(a: nat, b: nat, c: nat)
    ensures a * b * c == a * (b * c)
  {}

  lemma Scale(low: nat, v: nat, high: nat, t: nat, r: nat)
    requires low <= v < high && r < t
    ensures low * t <= v * t + r < high * t
  {
    assert low * t <= v * t;
    assert (v + 1) * t <= high * t;
    assert (v + 1) * t == v * t + t;
  }

  lemma Widen(s: nat, e: nat, v: nat)
    requires Brackets(s, 1, e, v)
    ensures Brackets(s, 10, e, v)
  {
    hide Tens;
    TensAdd(e, 0);
    assert (s + 1) * Tens(e) <= (s + 10) * Tens(e);
  }

  lemma Exactly(v: nat)
    ensures Brackets(v, 1, 0, v)
  {
    assert Tens(0) == 1;
  }

  lemma AllDigitsRest(run: Bytes, k: nat)
    requires AllDigits(run) && k <= |run|
    ensures AllDigits(run[..k]) && AllDigits(run[k..])
  {}

  /** The first d digits of a run, the others dropped. */
  lemma FirstDigits(run: Bytes, k: nat)
    requires AllDigits(run) && k <= |run|
    ensures Brackets(DigitsValue(run[..k]), 1, |run| - k, DigitsValue(run))
  {
    hide DigitsValue, Brackets;
    AllDigitsRest(run, k);
    var v := DigitsValue(run[..k]);
    Exactly(v);
    Dropped(v, 1, 0, v, run[k..]);
    assert run[..k] + run[k..] == run;
    DigitsJoin(run[..k], run[k..]);
  }

  /** The one fraction digit f that can still be taken after a dropped digit: it is smaller
      than that digit, so the lower bound survives and one unit more is not too much. */
  lemma OneMore(s: nat, e: nat, d: nat, w: nat, f: nat)
    requires d > 0 && Brackets(s, 1, d, w) && Brackets(10 * s + e, 1, d - 1, w) && f < e < 10
    ensures Brackets(10 * s + f, 10, d, 10 * w + f)
    ensures (10 * s + f + 1) * Tens(d) <= 10 * w + f
  {
    var t := Tens(d - 1);
    assert Tens(d) == 10 * t;
    OneMoreOf(s, e, t, w, f);
  }

  lemma OneMoreOf(s: nat, e: nat, t: nat, w: nat, f: nat)
    requires s * (10 * t) <= w < (s + 1) * (10 * t) && (10 * s + e) * t <= w && f < e < 10
    ensures (10 * s + f) * (10 * t) <= (10 * s + f + 1) * (10 * t) <= 10 * w + f < (10 * s + f + 10) * (10 * t)
  {
    Order(10 * s + f + 1, 10 * s + e, t);
    Tenfold(10 * s + f + 1, t);
    Order(10 * s + f, 10 * s + e, t);
    Tenfold(10 * s + f, t);
    Order(10 * s + 10, 10 * s + f + 10, 10 * t);
    Tenfold(s + 1, 10 * t);
  }

  lemma Order(a: nat, b: nat, c: nat)
    requires a <= b
    ensures a * c <= b * c
  {}

  lemma Tenfold(a: nat, b: nat)
    ensures a * (10 * b) == 10 * (a * b) == (10 * a) * b
  {}

  /** overflow!: one more digit does not fit u64. */
  predicate Overflows(s: uint64, digit: uint64) {
    s >= 0x1999_9999_9999_9999 && (s > 0x1999_9999_9999_9999 || digit > 5)
  }

  lemma OverflowsIs(s: uint64, digit: uint64)
    requires digit < 10
    ensures Overflows(s, digit) <==> 10 * s as int + digit as int > MAX_U64
  {}

  /** What reading a run of digits after a value v leaves: either all were taken, or from
      digit k on they were dropped, the first of them not fitting. */
  predicate Taken(v: nat, run: Bytes, k: nat, s: nat)
    requires k <= |run| && AllDigits(run)
  {
    && s == v * Tens(k) + DigitsValue(run[..k]) <= MAX_U64
    && (k < |run| ==> 10 * s + (run[k] as int - 0x30) > MAX_U64)
  }

  /** Reads the digits of run at token[i..]: takes what fits, skips the rest. */
  method TakeDigits(token: Bytes, start: nat, first: uint64, ghost run: Bytes) returns (i: nat, s: uint64, k: nat)
    requires AllDigits(run) && At(token, start, run)
    requires start + |run| < |token| ==> !IsDigit(token[start + |run|])
    ensures i == start + |run| && k <= |run| && Taken(first as int, run, k, s as int)
  {
    i, s, k := start, first, 0;
    assert run[..0] == [];
    forall j | start <= j < start + |run| ensures IsDigit(token[j]) { assert token[start + (j - start)] == run[j - start]; }
    while i < |token| && IsDigit(token[i])
      invariant i == start + k && k <= |run|
      invariant s as int == first as int * Tens(k) + DigitsValue(run[..k])
    {
      assert k < |run| && token[start + k] == token[i];
      var digit := (token[i] - 0x30) as uint64;
      OverflowsIs(s, digit);
      if Overflows(s, digit) {
        while i < |token| && IsDigit(token[i])
          invariant start + k <= i <= start + |run|
        {
          i := i + 1;
        }
        return;
      }
      TakeOne(first as int, run, k);
      s := s * 10 + digit;
      i, k := i + 1, k + 1;
    }
  }

  lemma TakeOne(v: nat, run: Bytes, k: nat)
    requires AllDigits(run) && k < |run|
    ensures v * Tens(k + 1) + DigitsValue(run[..k + 1]) == 10 * (v * Tens(k) + DigitsValue(run[..k])) + (run[k] as int - 0x30)
  {
    assert run[..k + 1][..k] == run[..k];
    assert v * (10 * Tens(k)) == 10 * (v * Tens(k));
    assert IsDigit(run[k]);
  }

  /** Once a digit was dropped, at most one more fits. */
  lemma AtMostOne(s: nat, e: nat, j: nat, t: nat, r: nat)
    requires e < 10 && 10 * s + e > MAX_U64 >= t && t == s * Tens(j) + r
    ensures j <= 1
  {
    TwoMore(s, j);
  }

  lemma TwoMore(s: nat, j: nat)
    ensures j > 1 ==> s * Tens(j) >= 100 * s
  {
    if j > 1 {
      TensAdd(j - 2, 0);
      assert Tens(j) == 100 * Tens(j - 2);
      Order(100, Tens(j), s);
    }
  }

  /** The digits of both parts, bracketed: with nothing dropped, exactly; otherwise at most
      one fraction digit was taken after dropped ones, so the slack is ten. */
  lemma Bracketed(whole: Bytes, fraction: Bytes, k: nat, s: nat, j: nat, t: nat)
    requires AllDigits(whole) && AllDigits(fraction) && k <= |whole| && j <= |fraction|
    requires Taken(0, whole, k, s) && Taken(s, fraction, j, t)
    ensures Brackets(t, 10, (|whole| - k) + (|fraction| - j), DigitsValue(whole + fraction))
    ensures Brackets(t, 1, (|whole| - k) + (|fraction| - j), DigitsValue(whole + fraction)) <==> k == |whole| || j == 0
    ensures k == |whole| && j == |fraction| ==> t == DigitsValue(whole + fraction)
    ensures t == 0 <==> DigitsValue(whole + fraction) == 0
  {
    hide Tens, DigitsValue, Brackets;
    assert 0 * Tens(k) == 0;
    TensAdd(j, 0);
    NotZero(s, Tens(j));
    if k == |whole| {
      assert whole[..k] == whole;
      AllTaken(whole, fraction, s, j, t);
    } else {
      SomeDropped(whole, fraction, k, s, j, t);
    }
    ZeroBracket(t, (|whole| - k) + (|fraction| - j), DigitsValue(whole + fraction));
  }

  lemma NotZero(a: nat, b: nat)
    requires b > 0
    ensures a * b == 0 <==> a == 0
    ensures a * b >= a
  {}

  lemma ZeroBracket(s: nat, e: nat, v: nat)
    requires Brackets(s, 10, e, v)
    ensures v == 0 ==> s == 0
  {
    TensAdd(e, 0);
    NotZero(s, Tens(e));
  }

  lemma AllTaken(whole: Bytes, fraction: Bytes, s: nat, j: nat, t: nat)
    requires AllDigits(whole) && AllDigits(fraction) && j <= |fraction| && s == DigitsValue(whole)
    requires t == s * Tens(j) + DigitsValue(fraction[..j])
    ensures Brackets(t, 10, |fraction| - j, DigitsValue(whole + fraction)) && Brackets(t, 1, |fraction| - j, DigitsValue(whole + fraction))
    ensures j == |fraction| ==> t == DigitsValue(whole + fraction)
  {
    hide Tens, DigitsValue, Brackets;
    var run := whole + fraction;
    assert run[..|whole| + j] == whole + fraction[..j];
    DigitsJoin(whole, fraction[..j]);
    FirstDigits(run, |whole| + j);
    Widen(t, |fraction| - j, DigitsValue(run));
    if j == |fraction| { assert fraction[..j] == fraction; }
  }

  lemma SomeDropped(whole: Bytes, fraction: Bytes, k: nat, s: nat, j: nat, t: nat)
    requires AllDigits(whole) && AllDigits(fraction) && k < |whole| && j <= |fraction|
    requires s == DigitsValue(whole[..k]) && 10 * s + (whole[k] as int - 0x30) > MAX_U64 >= t
    requires t == s * Tens(j) + DigitsValue(fraction[..j])
    ensures Brackets(t, 10, (|whole| - k) + (|fraction| - j), DigitsValue(whole + fraction))
    ensures Brackets(t, 1, (|whole| - k) + (|fraction| - j), DigitsValue(whole + fraction)) <==> j == 0
  {
    hide Tens, DigitsValue, Brackets;
    assert IsDigit(whole[k]);
    AtMostOne(s, whole[k] - 0x30, j, t, DigitsValue(fraction[..j]));
    NoDigits(s, fraction);
    if fraction != [] { OneDigit(s, fraction); }
    if j == 0 { NoneTaken(whole, fraction, k, s); } else { OneTaken(whole, fraction, k, s); }
  }

  lemma NoneTaken(whole: Bytes, fraction: Bytes, k: nat, s: nat)
    requires AllDigits(whole) && AllDigits(fraction) && k < |whole| && s == DigitsValue(whole[..k])
    ensures Brackets(s, 10, (|whole| - k) + |fraction|, DigitsValue(whole + fraction))
    ensures Brackets(s, 1, (|whole| - k) + |fraction|, DigitsValue(whole + fraction))
  {
    hide Tens, DigitsValue, Brackets;
    var d, w := |whole| - k, DigitsValue(whole);
    FirstDigits(whole, k);
    Dropped(s, 1, d, w, fraction);
    Widen(s, d + |fraction|, w * Tens(|fraction|) + DigitsValue(fraction));
    DigitsJoin(whole, fraction);
  }

  lemma OneTaken(whole: Bytes, fraction: Bytes, k: nat, s: nat)
    requires AllDigits(whole) && AllDigits(fraction) && k < |whole| && fraction != [] && s == DigitsValue(whole[..k])
    requires 10 * s + (whole[k] as int - 0x30) > MAX_U64 >= 10 * s + (fraction[0] as int - 0x30)
    ensures Brackets(10 * s + (fraction[0] as int - 0x30), 10, (|whole| - k) + (|fraction| - 1), DigitsValue(whole + fraction))
    ensures !Brackets(10 * s + (fraction[0] as int - 0x30), 1, (|whole| - k) + (|fraction| - 1), DigitsValue(whole + fraction))
  {
    hide Tens, DigitsValue, Brackets;
    var d, w, e, f := |whole| - k, DigitsValue(whole), whole[k] - 0x30, fraction[0] - 0x30;
    assert IsDigit(whole[k]) && IsDigit(fraction[0]);
    FirstDigits(whole, k);
    FirstDigits(whole, k + 1);
    DigitStep(whole, k);
    OneMore(s, e, d, w, f);
    Dropped(10 * s + f, 10, d, 10 * w + f, fraction[1..]);
    TooHigh(10 * s + f, d, 10 * w + f, fraction[1..]);
    PointOne(whole, fraction);
  }

  /** The digits of both parts, the first fraction digit apart. */
  lemma PointOne(whole: Bytes, fraction: Bytes)
    requires AllDigits(whole) && AllDigits(fraction) && fraction != []
    ensures DigitsValue(whole + fraction) ==
      (10 * DigitsValue(whole) + (fraction[0] as int - 0x30)) * Tens(|fraction| - 1) + DigitsValue(fraction[1..])
  {
    hide Tens, DigitsValue;
    assert whole + fraction == (whole + fraction[..1]) + fraction[1..];
    DigitsJoin(whole, fraction[..1]);
    DigitsJoin(whole + fraction[..1], fraction[1..]);
    OneDigit(DigitsValue(whole), fraction);
  }

  // ---- when a digit is taken after a dropped one ----

  /** The greatest uint64 without its last digit: no digit is dropped before this is reached. */
  const FULL: nat := 1844674407370955161

  /** The first 19 digits are those of the greatest uint64, the next is too large for it and
      the first fraction digit is not. */
  predicate Straddles(n: Numeral)
    requires WellFormed(n)
  {
    && |n.whole| > 19 && n.fraction != []
    && DigitsValue(n.whole[..19]) == FULL
    && n.whole[19] > 0x35 && n.fraction[0] <= 0x35
  }

  lemma NineteenDigits()
    ensures Tens(18) == 1000000000000000000 && Tens(19) == 10000000000000000000
  {
    assert Tens(5) == 100000;
    assert Tens(10) == 100000 * Tens(5);
    assert Tens(15) == 100000 * Tens(10);
    assert Tens(18) == 1000 * Tens(15);
  }

  /** A run of digits without leading zero that has this value has 19 digits. */
  lemma HasNineteen(run: Bytes)
    requires AllDigits(run) && run != [] && run[0] != 0x30 && DigitsValue(run) == FULL
    ensures |run| == 19
  {
    hide Tens, DigitsValue;
    NineteenDigits();
    LeadingDigit(run);
    DigitsBounded(run);
    if |run| > 19 { TensGrow(19, |run| - 1); }
    if |run| < 19 { TensGrow(|run|, 18); }
  }

  /** A fraction digit is taken after a dropped integer digit for exactly these tokens. */
  lemma TakenIsStraddling(n: Numeral, k: nat, s: nat, j: nat, t: nat)
    requires WellFormed(n) && k <= |n.whole| && j <= |n.fraction| && Taken(0, n.whole, k, s) && Taken(s, n.fraction, j, t)
    ensures k < |n.whole| && j > 0 <==> Straddles(n)
  {
    hide Tens, DigitsValue;
    assert 0 * Tens(k) == 0;
    if k < |n.whole| && j > 0 { TakesAfterDrop(n, k, s, j, t); }
    if Straddles(n) { DropsAtNineteen(n, k, s, j, t); }
  }

  lemma TakesAfterDrop(n: Numeral, k: nat, s: nat, j: nat, t: nat)
    requires WellFormed(n) && k < |n.whole| && 0 < j <= |n.fraction|
    requires s == DigitsValue(n.whole[..k]) && 10 * s + (n.whole[k] as int - 0x30) > MAX_U64
    requires t == s * Tens(j) + DigitsValue(n.fraction[..j]) <= MAX_U64
    ensures Straddles(n)
  {
    hide Tens, DigitsValue;
    assert IsDigit(n.whole[k]) && IsDigit(n.fraction[0]);
    AtMostOne(s, n.whole[k] - 0x30, j, t, DigitsValue(n.fraction[..j]));
    OneDigit(s, n.fraction);
    assert s == FULL;
    if k == 0 { NoDigits(0, n.whole); }
    HasNineteen(n.whole[..k]);
  }

  lemma DropsAtNineteen(n: Numeral, k: nat, s: nat, j: nat, t: nat)
    requires WellFormed(n) && Straddles(n) && k <= |n.whole| && j <= |n.fraction|
    requires Taken(0, n.whole, k, s) && Taken(s, n.fraction, j, t)
    ensures k == 19 && j > 0
  {
    hide Tens, DigitsValue;
    assert 0 * Tens(k) == 0;
    DigitStep(n.whole, 19);
    assert IsDigit(n.whole[19]);
    if k > 19 { PrefixesGrow(n.whole, 20, k); }
    if k < 19 {
      assert IsDigit(n.whole[k]);
      DigitStep(n.whole, k);
      PrefixesGrow(n.whole, k + 1, 19);
    }
    NoDigits(s, n.fraction);
  }

  lemma PrefixesGrow(s: Bytes, m: nat, k: nat)
    requires m <= k <= |s| && AllDigits(s)
    ensures DigitsValue(s[..m]) <= DigitsValue(s[..k])
  {
    PrefixValue(s[..k], m);
    assert s[..k][..m] == s[..m];
  }

  /** 18446744073709551616, one more than the greatest uint64. */
  const TWO_TO_64: Bytes := [0x31, 0x38, 0x34, 0x34, 0x36, 0x37, 0x34, 0x34, 0x30, 0x37, 0x33, 0x37, 0x30, 0x39, 0x35, 0x35, 0x31, 0x36, 0x31, 0x36]

  function Prefix(w: Bytes, i: nat): nat
    requires i <= |w| && AllDigits(w)
  {
    DigitsValue(w[..i])
  }

  lemma EachDigit(w: Bytes, i: nat)
    requires i < |w| && AllDigits(w)
    ensures Prefix(w, i + 1) == 10 * Prefix(w, i) + (w[i] as int - 0x30)
  {
    hide DigitsValue;
    DigitStep(w, i);
  }

  lemma TwentyDigitValue(w: Bytes)
    requires w == TWO_TO_64
    ensures AllDigits(w) && DigitsValue(w[..19]) == FULL
  {
    NoPrefix(w);
    PrefixSteps(w);
  }

  lemma NoPrefix(w: Bytes)
    requires AllDigits(w)
    ensures Prefix(w, 0) == 0
  {
    assert w[..0] == [];
  }

  lemma PrefixSteps(w: Bytes)
    requires w == TWO_TO_64 && AllDigits(w) && Prefix(w, 0) == 0
    ensures Prefix(w, 19) == FULL
  {
    hide Prefix, AllDigits;
    EachDigit(w, 0);
    EachDigit(w, 1);
    EachDigit(w, 2);
    EachDigit(w, 3);
    EachDigit(w, 4);
    assert Prefix(w, 5) == 18446;
    EachDigit(w, 5);
    EachDigit(w, 6);
    EachDigit(w, 7);
    EachDigit(w, 8);
    EachDigit(w, 9);
    assert Prefix(w, 10) == 1844674407;
    EachDigit(w, 10);
    EachDigit(w, 11);
    EachDigit(w, 12);
    EachDigit(w, 13);
    EachDigit(w, 14);
    assert Prefix(w, 15) == 184467440737095;
    EachDigit(w, 15);
    EachDigit(w, 16);
    EachDigit(w, 17);
    EachDigit(w, 18);
    assert Prefix(w, 19) == FULL;
  }

  /** One such token, 18446744073709551616.0: the last digit of its integer part is dropped,
      its fraction digit is not, and one unit is not enough. */
  lemma StraddlingToken() returns (n: Numeral)
    ensures WellFormed(n) && Render(n) == TWO_TO_64 + [0x2E, 0x30] && Straddles(n)
    ensures Taken(0, n.whole, 19, FULL) && Taken(FULL, n.fraction, 1, 18446744073709551610)
    ensures !Brackets(18446744073709551610, 1, 1, Exact(n)) && Brackets(18446744073709551610, 10, 1, Exact(n))
  {
    hide DigitsValue, Tens, Brackets;
    var w, f: Bytes := TWO_TO_64, [0x30];
    n := Numeral(false, w, f, NoExp);
    assert Render(n) == w + ([0x2E] + f);
    TwentyDigitValue(w);
    OneDigit(FULL, f);
    assert 0 * Tens(19) == 0;
    Bracketed(w, f, 19, FULL, 1, 18446744073709551610);
  }

  lemma NoDigits(s: nat, run: Bytes)
    ensures s * Tens(0) + DigitsValue(run[..0]) == s
  {}

  lemma OneDigit(s: nat, run: Bytes)
    requires run != [] && AllDigits(run)
    ensures s * Tens(1) + DigitsValue(run[..1]) == 10 * s + (run[0] as int - 0x30)
  {
    assert run[..1][..0] == [];
    assert Tens(1) == 10;
    assert IsDigit(run[0]);
    DigitStep(run, 0);
    assert DigitsValue(run[..0]) == 0;
  }

  // ---- ParseFloat ----

  const MAX_I32: int := 0x7FFF_FFFF
  const MIN_I32: int := -0x8000_0000

  /** What ParseFloat decides: an integer read exactly, a result settled by an exponent too
      large to read, or a significand and exponent for fromParts. */
  datatype Reading =
    | Whole(significand: uint64)
    | Settled(accepted: bool)
    | Scaled(significand: uint64, exponent: int)

  /** The exponent digits at token[i..]: their value, or that it does not fit an int32. */
  method TakeExponent(token: Bytes, start: nat, ghost run: Bytes) returns (exp: int, fits: bool)
    requires AllDigits(run) && start + |run| == |token| && At(token, start, run)
    ensures fits <==> DigitsValue(run) <= MAX_I32
    ensures fits ==> exp == DigitsValue(run)
  {
    var i := start;
    exp := 0;
    assert run[..0] == [];
    forall j | start <= j < start + |run| ensures IsDigit(token[j]) { assert token[start + (j - start)] == run[j - start]; }
    while i < |token| && IsDigit(token[i])
      invariant start <= i <= |token| && exp == DigitsValue(run[..i - start]) && 0 <= exp <= MAX_I32
    {
      var k := i - start;
      assert token[start + k] == run[k];
      var digit := token[i] - 0x30;
      DigitStep(run, k);
      if exp >= 214748364 && (exp > 214748364 || digit > 7) {
        PrefixValue(run, k + 1);
        return 0, false;
      }
      exp := exp * 10 + digit;
      i := i + 1;
    }
    assert run[..|run|] == run;
    return exp, true;
  }

  function Signed(e: Exp): int
    requires e.Exp? ==> AllDigits(e.digits)
  {
    if e.NoExp? then 0 else if e.sign.Minus? then -DigitsValue(e.digits) else DigitsValue(e.digits)
  }

  function Clamped(e: Exp, exponent: int): int {
    if e.NoExp? then exponent
    else if e.sign.Minus? then (if exponent < MIN_I32 then MIN_I32 else exponent)
    else if exponent > MAX_I32 then MAX_I32 else exponent
  }

  /** What the digits leave: e0 is the exponent before the token's own is added. */
  ghost predicate Accumulated(n: Numeral, s: nat, e0: int)
    requires WellFormed(n)
  {
    && -|n.fraction| <= e0 <= |n.whole|
    && Brackets(s, 10, (e0 + |n.fraction|) as nat, Exact(n))
    && (e0 == -|n.fraction| ==> s == Exact(n))
    && (s == 0 <==> Exact(n) == 0)
    && (e0 > -|n.fraction| ==> s >= FULL)
    && (Brackets(s, 1, (e0 + |n.fraction|) as nat, Exact(n)) <==> !Straddles(n))
  }

  lemma DroppedIsFull(n: Numeral, k: nat, s: nat, j: nat, t: nat)
    requires WellFormed(n) && k <= |n.whole| && j <= |n.fraction| && Taken(0, n.whole, k, s) && Taken(s, n.fraction, j, t)
    ensures k < |n.whole| || j < |n.fraction| ==> t >= FULL
  {
    hide Tens, DigitsValue;
    TensAdd(j, 0);
    NotZero(s, Tens(j));
    if k < |n.whole| { assert IsDigit(n.whole[k]); }
    if j < |n.fraction| { assert IsDigit(n.fraction[j]); }
  }

  lemma Accumulates(n: Numeral, k: nat, s: nat, j: nat, t: nat)
    requires WellFormed(n) && k <= |n.whole| && j <= |n.fraction| && Taken(0, n.whole, k, s) && Taken(s, n.fraction, j, t)
    ensures Accumulated(n, t, |n.whole| - k - j)
  {
    hide DigitsValue, Brackets, Taken, Straddles;
    DroppedIsFull(n, k, s, j, t);
    TakenIsStraddling(n, k, s, j, t);
    Bracketed(n.whole, n.fraction, k, s, j, t);
  }

  lemma ZeroTaken()
    ensures Taken(0, [0x30], 1, 0)
  {
    var run: Bytes := [0x30];
    assert run[..1] == run;
    assert DigitsValue(run) == 10 * DigitsValue(run[..0]) + 0;
  }

  lemma NoneToTake(s: nat)
    requires s <= MAX_U64
    ensures Taken(s, [], 0, s)
  {}

  /** The integer part. */
  method TakeWhole(token: Bytes, ghost n: Numeral) returns (i: nat, s: uint64, exponent: nat, ghost k: nat)
    requires WellFormed(n) && token == Render(n)
    ensures i == PointAt(n) <= |token| && k <= |n.whole| && exponent == |n.whole| - k && Taken(0, n.whole, k, s as int)
  {
    hide DigitsValue, Taken, Render, Point, Tail, At, AllDigits;
    WholeParts(n, token);
    Parts(n, token);
    i := 0;
    if token[i] == 0x2D {
      i := i + 1;
    }
    if token[i] == 0x30 {
      ZeroTaken();
      assert n.whole == [0x30];
      return i + 1, 0, 0, 1;
    }
    var start, taken := i, 0;
    i, s, taken := TakeDigits(token, start, 0, n.whole);
    exponent, k := i - start - taken, taken;
  }

  /** The fraction, if there is one. */
  method TakeFraction(token: Bytes, ghost n: Numeral, start: nat, first: uint64) returns (i: nat, s: uint64, j: nat)
    requires WellFormed(n) && token == Render(n) && start == PointAt(n)
    ensures i == TailAt(n) && j <= |n.fraction| && Taken(first as int, n.fraction, j, s as int)
  {
    hide DigitsValue, Taken, Render, Head, Tail, At;
    WholeParts(n, token);
    Parts(n, token);
    if start < |token| && token[start] == 0x2E {
      PointParts(n, token);
      i, s, j := TakeDigits(token, start + 1, first, n.fraction);
    } else {
      NoneToTake(first as int);
      return start, first, 0;
    }
  }

  predicate ReadsExponent(n: Numeral)
    requires WellFormed(n)
  {
    n.exponent.Exp? ==> DigitsValue(n.exponent.digits) <= MAX_I32
  }

  /** The exponent of the significand before it is clamped to an int32. */
  function FullExponent(n: Numeral, e0: int): int
    requires WellFormed(n)
  {
    e0 + Signed(n.exponent)
  }

  /** ParseFloat up to fromParts. The accumulation never leaves u64; an integer that fits is
      exact, an exponent that does not fit an int32 settles the result, and otherwise the
      token's exponent is added exactly and then clamped. */
  method ReadFloat(token: Bytes, ghost n: Numeral) returns (r: Reading, ghost s: nat, ghost e0: int)
    requires WellFormed(n) && token == Render(n)
    ensures Accumulated(n, s, e0)
    ensures r.Whole? <==> IsInteger(n) && Exact(n) <= MAX_U64
    ensures r.Whole? ==> r.significand as int == s == Exact(n) && e0 == 0
    ensures r.Scaled? ==> r.significand as int == s && ReadsExponent(n) && r.exponent == Clamped(n.exponent, FullExponent(n, e0))
    ensures r.Settled? ==> !ReadsExponent(n) && (r.accepted <==> Exact(n) == 0 || n.exponent.sign.Minus?)
  {
    hide DigitsValue, Taken, Render, Brackets, At, Point, Tail, Straddles;
    var i, sig, exponent, k := TakeWhole(token, n);
    WholeParts(n, token);
    AtTail(n, token);
    if i == |token| && exponent == 0 {
      WholeExact(n, sig as int);
      return Whole(sig), sig as int, 0;
    }
    NotWhole(n, k, sig as int);
    var first := sig;
    var j;
    i, sig, j := TakeFraction(token, n, i, first);
    Accumulates(n, k, first as int, j, sig as int);
    var scale: int := exponent as int - j;
    s, e0 := sig as int, scale;
    if i < |token| && (token[i] == 0x65 || token[i] == 0x45) {
      ExpParts(n, token);
      i := i + 1;
      var positive := true;
      if token[i] == 0x2B || token[i] == 0x2D {
        positive := token[i] == 0x2B;
        i := i + 1;
      }
      var exp, fits := TakeExponent(token, i, n.exponent.digits);
      if !fits {
        return Settled(sig == 0 || !positive), s, e0;
      }
      if positive {
        scale := if scale + exp < MAX_I32 then scale + exp else MAX_I32;
      } else {
        scale := if scale - exp > MIN_I32 then scale - exp else MIN_I32;
      }
    }
    return Scaled(sig, scale), s, e0;
  }

  lemma WholeExact(n: Numeral, s: nat)
    requires WellFormed(n) && PointAt(n) == |Render(n)| && Taken(0, n.whole, |n.whole|, s)
    ensures IsInteger(n) && s == Exact(n) <= MAX_U64 && Accumulated(n, s, 0)
  {
    hide Tens, DigitsValue;
    assert n.whole[..|n.whole|] == n.whole == n.whole + [];
    assert 0 * Tens(|n.whole|) == 0;
    Exactly(s);
    Widen(s, 0, s);
  }

  /** An integer with a dropped digit does not fit. */
  lemma NotWhole(n: Numeral, k: nat, s: nat)
    requires WellFormed(n) && k <= |n.whole| && Taken(0, n.whole, k, s)
    ensures k < |n.whole| && IsInteger(n) ==> Exact(n) > MAX_U64
  {
    hide Tens, DigitsValue;
    assert n.whole == n.whole + [] && 0 * Tens(k) == 0;
    if k < |n.whole| {
      DigitStep(n.whole, k);
      PrefixValue(n.whole, k + 1);
    }
  }

  lemma AtTail(n: Numeral, token: Bytes)
    requires WellFormed(n) && token == Render(n)
    ensures TailAt(n) < |token| <==> n.exponent.Exp?
    ensures TailAt(n) < |token| ==> token[TailAt(n)] == n.exponent.letter
  {
    hide DigitsValue;
    if n.exponent.Exp? { ExpParts(n, token); }
  }

  // ---- the exact value of a token ----

  function Power(e: int): (p: real)
    ensures p > 0.0
  {
    TensAdd(if e >= 0 then e else -e, 0);
    if e >= 0 then Tens(e) as real else 1.0 / (Tens(-e) as real)
  }

  lemma Quotient(f: real, a: real, b: real)
    requires a > 0.0 && b > 0.0
    ensures f / a * (1.0 / b) == f * (1.0 / (a * b))
  {
    assert f / a * (1.0 / b) * (a * b) == f;
  }

  lemma PowerUp(e: int)
    ensures Power(e + 1) == 10.0 * Power(e)
  {
    if e >= 0 {
      TensStep(e);
    } else {
      TensStep(-e - 1);
      TensAdd(-e - 1, 0);
      Tenth(Tens(-e - 1) as real);
    }
  }

  lemma Tenth(a: real)
    requires a > 0.0
    ensures 10.0 * (1.0 / (10.0 * a)) == 1.0 / a
  {
    Quotient(10.0, 10.0, a);
  }

  lemma {:induction false} PowerAdd(a: nat, e: int)
    ensures Power(a + e) == Tens(a) as real * Power(e)
  {
    hide Power;
    if a > 0 {
      PowerAdd(a - 1, e);
      PowerUp(a - 1 + e);
      TensStep(a - 1);
    }
  }

  /** s * 10^e. */
  function Shifted(s: nat, e: int): real { s as real * Power(e) }

  lemma NotShifted(s: nat, e: int)
    ensures Shifted(s, 0) == s as real && Shifted(0, e) == 0.0
  {
    assert Tens(0) == 1;
  }

  lemma NotBelowZero(s: nat, e: int)
    ensures Shifted(s, e) >= 0.0
  {
    hide Power;
    ScaleReal(0.0, s as real, Power(e));
  }

  /** The absolute value of the number a token spells. */
  function ExactReal(n: Numeral): real
    requires WellFormed(n)
  {
    Shifted(Exact(n), Signed(n.exponent) - |n.fraction|)
  }

  /** What it means: the digits before the point; times ten for each digit after it, all the
      digits; and times or over ten for each unit of the exponent. */
  lemma ExactRealMeans(n: Numeral)
    requires WellFormed(n)
    ensures var plain := n.(exponent := NoExp); var shown := ExactReal(plain);
      && shown * (Tens(|n.fraction|) as real) == DigitsValue(n.whole + n.fraction) as real
      && match n.exponent {
           case NoExp => ExactReal(n) == shown
           case Exp(_, sign, digits) =>
             if sign.Minus? then ExactReal(n) * (Tens(DigitsValue(digits)) as real) == shown
             else ExactReal(n) == shown * (Tens(DigitsValue(digits)) as real)
         }
  {
    hide Power, Tens, DigitsValue;
    var v := Exact(n);
    ShiftUp(v, -|n.fraction|, |n.fraction|);
    NotShifted(v, 0);
    if n.exponent.Exp? {
      var k := DigitsValue(n.exponent.digits);
      if n.exponent.sign.Minus? { ShiftUp(v, -k - |n.fraction|, k); } else { ShiftUp(v, -|n.fraction|, k); }
    }
  }

  /** Ten to the k more. */
  lemma ShiftUp(v: nat, e: int, k: nat)
    ensures Shifted(v, e) * (Tens(k) as real) == Shifted(v, e + k)
  {
    hide Power, Tens;
    PowerAdd(k, e);
    assert v as real * Power(e) * (Tens(k) as real) == v as real * (Tens(k) as real * Power(e));
  }

  /** A bracket on the digits, scaled by a power of ten. */
  lemma Scaled1(s: nat, d: nat, v: nat, e: int)
    ensures s * Tens(d) <= v <==> Shifted(s, d + e) <= Shifted(v, e)
  {
    hide Power, Tens;
    PowerAdd(d, e);
    assert s as real * (Tens(d) as real * Power(e)) == (s * Tens(d)) as real * Power(e);
    ScaleReal((s * Tens(d)) as real, v as real, Power(e));
  }

  lemma ScaleReal(a: real, b: real, p: real)
    requires p > 0.0
    ensures a <= b <==> a * p <= b * p
    ensures a == b ==> a * p == b * p
  {
    if a > b { assert (a - b) * p > 0.0; }
    if a < b { assert (b - a) * p > 0.0; }
  }

  /** s * 10^e <= v < (s + slack) * 10^e, over the reals. */
  predicate BracketsReal(s: nat, slack: nat, e: int, v: real) {
    Shifted(s, e) <= v < Shifted(s + slack, e)
  }

  lemma BracketsScale(s: nat, slack: nat, d: nat, v: nat, e: int)
    ensures Brackets(s, slack, d, v) <==> BracketsReal(s, slack, d + e, Shifted(v, e))
  {
    hide Shifted, Tens;
    Scaled1(s, d, v, e);
    Scaled1(s + slack, d, v, e);
  }

  /** v is at most w, and short of it by less than one part in 10^17. */
  predicate Close(v: real, w: real) { v <= w && 184467440737095516.0 * (w - v) <= w }

  /** The significand and its exponent bracket the exact value: within ten units; within one
      for all tokens but those that straddle; exactly, if no digit was dropped. */
  lemma AccumulatedReal(n: Numeral, s: nat, e0: int)
    requires WellFormed(n) && Accumulated(n, s, e0)
    ensures BracketsReal(s, 10, FullExponent(n, e0), ExactReal(n))
    ensures BracketsReal(s, 1, FullExponent(n, e0), ExactReal(n)) <==> !Straddles(n)
    ensures e0 == -|n.fraction| ==> Shifted(s, FullExponent(n, e0)) == ExactReal(n)
    ensures Close(Shifted(s, FullExponent(n, e0)), ExactReal(n))
  {
    hide Shifted, Tens, Brackets, BracketsReal, DigitsValue, Signed;
    var d: nat, x := e0 + |n.fraction|, Signed(n.exponent) - |n.fraction|;
    BracketsScale(s, 10, d, Exact(n), x);
    BracketsScale(s, 1, d, Exact(n), x);
    BracketIsClose(s, d + x, ExactReal(n));
  }

  lemma BracketIsClose(s: nat, e: int, v: real)
    requires BracketsReal(s, 10, e, v) && (s >= FULL || Shifted(s, e) == v)
    ensures Close(Shifted(s, e), v)
  {
    hide Power;
    var p := Power(e);
    assert (s + 10) as real * p == s as real * p + 10.0 * p;
    if s >= FULL { ScaleReal(1844674407370955160.0, s as real, p); } else { assert s as real * p >= 0.0; }
  }

  // ---- fromParts, over the reals ----

  const LARGEST: int := 308

  lemma PowerStep(f: real, e: int)
    requires e <= -LARGEST
    ensures f / Power(LARGEST) * Power(e + LARGEST) == f * Power(e) && (f > 0.0 ==> f / Power(LARGEST) > 0.0)
  {
    hide Tens;
    var a, b := Tens(LARGEST) as real, Tens(-e - LARGEST) as real;
    TensAdd(LARGEST, -e - LARGEST);
    TensAdd(LARGEST, 0);
    TensAdd(-e - LARGEST, 0);
    Quotient(f, a, b);
    PowerNegative(e);
    PowerNegative(e + LARGEST);
  }

  lemma PowerNegative(e: int)
    requires e <= 0
    ensures Tens(-e) > 0 && Power(e) == 1.0 / (Tens(-e) as real)
  {
    TensAdd(-e, 0);
  }

  lemma Divided(f: real, e: int)
    requires e <= 0
    ensures f / Power(-e) == f * Power(e)
  {
    PowerNegative(e);
    TensAdd(-e, 0);
  }

  lemma PowerZero(f: real, e: int)
    ensures f == 0.0 ==> f * Power(e) == 0.0
  {}

  /** The scaling loop ends; over the reals it computes significand * 10^exponent exactly, and
      it refuses only a positive value whose exponent is past the table. */
  method FromParts(significand: uint64, exponent: int) returns (value: real, finite: bool)
    ensures value >= 0.0 && (finite ==> value == Shifted(significand as int, exponent))
    ensures !finite <==> significand != 0 && exponent > LARGEST
  {
    hide Power, Tens;
    NotBelowZero(significand as int, exponent);
    value := significand as int as real;
    var e := exponent;
    while true
      invariant value >= 0.0 && (value == 0.0 <==> significand == 0)
      invariant value * Power(e) == significand as int as real * Power(exponent)
      invariant exponent >= 0 ==> e == exponent
      invariant exponent < 0 ==> e <= 0
      decreases if e < 0 then -e else 0
    {
      var index := if e < 0 then -e else e;
      if index <= LARGEST {
        if e >= 0 {
          value := value * Power(index);
          return value, true;
        }
        Divided(value, e);
        value := value / Power(index);
        return value, true;
      }
      if value == 0.0 {
        PowerZero(value, e);
        return value, true;
      }
      if e >= 0 {
        return value, false;
      }
      PowerStep(value, e);
      value := value / Power(LARGEST);
      e := e + LARGEST;
    }
  }

  /** A negative exponent was clamped. */
  predicate Underflows(n: Numeral, e0: int)
    requires WellFormed(n)
  {
    n.exponent.Exp? && n.exponent.sign.Minus? && FullExponent(n, e0) < MIN_I32
  }

  /** What ParseFloat refuses by an exponent it reads is too large for any float64. */
  lemma RefusedIsLarge(n: Numeral, s: nat, e0: int)
    requires WellFormed(n) && Accumulated(n, s, e0) && Exact(n) != 0 && FullExponent(n, e0) > LARGEST
    ensures ExactReal(n) >= Power(LARGEST + 1)
  {
    hide Power, Shifted, Tens, Brackets, DigitsValue, Straddles, ExactReal;
    var e := FullExponent(n, e0);
    AccumulatedReal(n, s, e0);
    ShiftedGrows(s, e);
    PowerGrows(e, LARGEST + 1);
  }

  lemma ShiftedGrows(s: nat, e: int)
    requires s > 0
    ensures Shifted(s, e) >= Power(e)
  {
    hide Power;
    Grows(s as real, Power(e));
  }

  lemma PowerGrows(e: int, f: int)
    requires e >= f
    ensures Power(e) >= Power(f)
  {
    hide Power, Tens, Shifted;
    PowerShifted(e - f, f);
    TensAdd(e - f, 0);
    ShiftedGrows(Tens(e - f), f);
  }

  lemma PowerShifted(a: nat, e: int)
    ensures Power(a + e) == Shifted(Tens(a), e)
  {
    hide Power, Tens;
    PowerAdd(a, e);
  }

  lemma Grows(a: real, p: real)
    requires a >= 1.0 && p > 0.0
    ensures a * p >= p
  {
    ScaleReal(1.0, a, p);
  }

  function Abs(x: real): real { if x < 0.0 then -x else x }

  /** ParseFloat, over the reals: any token of the grammar is decided, by its exponent and by
      whether it is zero, and an accepted one has the value of its significand. */
  method ParseFloat(token: Bytes) returns (value: real, accepted: bool, ghost n: Numeral, ghost s: nat, ghost e0: int)
    requires token != [] && NumberEnd(token, 0).0 == |token|
    ensures WellFormed(n) && token == Render(n) && Accumulated(n, s, e0)
    ensures accepted <==> Exact(n) == 0 || (if ReadsExponent(n) then FullExponent(n, e0) <= LARGEST else n.exponent.sign.Minus?)
    ensures accepted && !ReadsExponent(n) ==> value == 0.0
    ensures if token[0] == 0x2D then value <= 0.0 else value >= 0.0
    ensures n.negative <==> token[0] == 0x2D
    ensures accepted && ReadsExponent(n) ==> Abs(value) == Shifted(s, if Underflows(n, e0) then MIN_I32 else FullExponent(n, e0))
    ensures Close(Shifted(s, FullExponent(n, e0)), ExactReal(n))
    ensures IsInteger(n) && Exact(n) <= MAX_U64 ==> accepted && Abs(value) == Exact(n) as real
  {
    hide Shifted, Tens, DigitsValue, Render, NumberEnd, Brackets, Close, BracketsReal, Straddles, WellFormed, ExactReal;
    n := TokenSpelled(token, 0);
    assert token[0..|token|] == token;
    WholeParts(n, token);
    var r;
    r, s, e0 := ReadFloat(token, n);
    AccumulatedReal(n, s, e0);
    NotShifted(s, FullExponent(n, e0));
    match r {
      case Whole(significand) =>
        value, accepted := significand as int as real, true;
      case Settled(yes) =>
        value, accepted := 0.0, yes;
      case Scaled(significand, exponent) =>
        value, accepted := FromParts(significand, exponent);
        NotShifted(s, exponent);
    }
    if token[0] == 0x2D {
      value := -value;
    }
  }
}
