/** Parse undoes Append: printing any float-free value and parsing the text gives the value
    in normal form, or ErrTooDeep exactly when it is nested deeper than MaxDepth. */
module JsonRoundTrip {
  import opened Members
  import opened Json
  import opened JsonGrammar
  import opened JsonReading
  import opened JsonStrings
  import opened Numerals
  import opened JsonText

  // ---- the normal form of a value ----

  /** Repeated keys merged at every level; integers in the class Parse gives them. */
  function Norm(v: Value): Value {
    match v
    case U64(n) => if n <= MAX_I64 then I64(n) else v
    case Arr(items) => Arr(NormItems(items))
    case Obj(members) => Obj(Merge(NormMembers(members)))
    case _ => v
  }

  function NormItems(items: seq<Value>): (r: seq<Value>)
    ensures |r| == |items| && forall i :: 0 <= i < |r| ==> r[i] == Norm(items[i])
  {
    if items == [] then [] else [Norm(items[0])] + NormItems(items[1..])
  }

  function NormMembers(members: seq<Member<Value>>): (r: seq<Member<Value>>)
    ensures |r| == |members| && forall i :: 0 <= i < |r| ==> r[i] == Member(members[i].key, Norm(members[i].value))
    decreases members
  {
    if members == [] then [] else [Member(members[0].key, Norm(members[0].value))] + NormMembers(members[1..])
  }

  /** What Go holds without floats: strings are valid UTF-8 and integers fit their type. */
  predicate FloatFree(v: Value) {
    match v
    case Str(s) => Utf8(s)
    case I64(n) => MIN_I64 <= n <= MAX_I64
    case U64(n) => 0 <= n <= MAX_U64
    case Float(_) => false
    case Arr(items) => forall i :: 0 <= i < |items| ==> FloatFree(items[i])
    case Obj(members) => forall i :: 0 <= i < |members| ==> Utf8(members[i].key) && FloatFree(members[i].value)
    case _ => true
  }

  /** A float-free value in normal form. */
  predicate Normal(v: Value) {
    match v
    case Str(s) => Utf8(s)
    case I64(n) => MIN_I64 <= n <= MAX_I64
    case U64(n) => MAX_I64 < n <= MAX_U64
    case Float(_) => false
    case Arr(items) => forall i :: 0 <= i < |items| ==> Normal(items[i])
    case Obj(members) => !Repeats(members) && forall i :: 0 <= i < |members| ==> Utf8(members[i].key) && Normal(members[i].value)
    case _ => true
  }

  /** How deeply arrays and objects nest. */
  function Depth(v: Value): nat {
    match v
    case Arr(items) => 1 + DepthItems(items)
    case Obj(members) => 1 + DepthMembers(members)
    case _ => 0
  }

  function DepthItems(items: seq<Value>): nat {
    if items == [] then 0 else Max(Depth(items[0]), DepthItems(items[1..]))
  }

  function DepthMembers(members: seq<Member<Value>>): nat
    decreases members
  {
    if members == [] then 0 else Max(Depth(members[0].value), DepthMembers(members[1..]))
  }

  lemma NormIsNormal(v: Value)
    requires FloatFree(v)
    ensures Normal(Norm(v))
  {
    match v
    case Obj(members) =>
      var q := NormMembers(members);
      forall i | 0 <= i < |members| ensures Utf8(q[i].key) && Normal(q[i].value) { NormIsNormal(members[i].value); }
      MergeIsNormal(q);
      NormalNoRepeats(q, Merge(q));
      MergeOnlyOld(q);
    case Arr(items) =>
      forall i | 0 <= i < |items| ensures Normal(NormItems(items)[i]) { NormIsNormal(items[i]); }
    case _ =>
  }

  /** Every merged member has the value of a member with its key. */
  lemma {:induction false} MergeOnlyOld<V>(o: seq<Member<V>>)
    ensures forall i :: 0 <= i < |Merge(o)| ==> Merge(o)[i] in o
  {
    if o != [] {
      var p, m := o[..|o| - 1], o[|o| - 1];
      MergeOnlyOld(p);
      assert o == p + [m];
    }
  }

  // ---- printing sees only the normal form ----

  lemma NormKeys(o: seq<Member<Value>>)
    ensures Keys(NormMembers(o)) == Keys(o)
  {}

  lemma NormSnoc(p: seq<Member<Value>>, m: Member<Value>)
    ensures NormMembers(p + [m]) == NormMembers(p) + [Member(m.key, Norm(m.value))]
  {}

  lemma NormInsert(r: seq<Member<Value>>, m: Member<Value>)
    ensures NormMembers(Insert(r, m)) == Insert(NormMembers(r), Member(m.key, Norm(m.value)))
  {
    NormKeys(r);
    if First(Keys(r), m.key) == |r| { NormSnoc(r, m); }
  }

  /** Merging and normalizing the values commute. */
  lemma {:induction false} MergeNorm(o: seq<Member<Value>>)
    ensures Merge(NormMembers(o)) == NormMembers(Merge(o))
  {
    if o != [] {
      hide Norm, Insert;
      var p, m := o[..|o| - 1], o[|o| - 1];
      assert p + [m] == o;
      MergeNorm(p);
      NormSnoc(p, m);
      MergeSnoc(NormMembers(p), Member(m.key, Norm(m.value)));
      NormInsert(Merge(p), m);
    }
  }

  lemma {:induction false} PrintNorm(v: Value)
    requires FloatFree(v)
    ensures Print(v) == Print(Norm(v))
    decreases Size(v), 0
  {
    match v
    case Arr(items) => PrintNormItems(items);
    case Obj(members) =>
      var q := if Repeats(members) then Merge(members) else members;
      MergeNoLarger(members);
      MergeIsNormal(members);
      NormalNoRepeats(members, Merge(members));
      if !Repeats(members) { NoRepeatsIsNormal(members); }
      MergeOnlyOld(members);
      PrintNormMembers(q);
      MergeNorm(members);
      assert !Repeats(NormMembers(q));
    case _ =>
  }

  lemma {:induction false} PrintNormItems(items: seq<Value>)
    requires forall i :: 0 <= i < |items| ==> FloatFree(items[i])
    ensures PrintItems(items) == PrintItems(NormItems(items))
    decreases SizeItems(items), 1 + |items|
  {
    if items != [] {
      PrintNorm(items[0]);
      PrintNormItems(items[1..]);
    }
  }

  lemma {:induction false} PrintNormMembers(members: seq<Member<Value>>)
    requires forall i :: 0 <= i < |members| ==> FloatFree(members[i].value)
    ensures PrintMembers(members) == PrintMembers(NormMembers(members))
    decreases SizeMembers(members), 1 + |members|
  {
    if members != [] {
      PrintNorm(members[0].value);
      PrintNormMembers(members[1..]);
    }
  }

  // ---- what is printed is a text ----

  lemma HexIsLower(n: nat)
    requires n < 16
    ensures SpellDigit(Nibble(n, false)) == Hex(n)
  {}

  /** How Append spells a byte of its own. */
  function CharOf(c: byte): Char
    requires c < 0x80
  {
    if c == QUOTE || c == BACKSLASH then Short(c)
    else if c == 0x08 then Short(0x62)
    else if c == 0x09 then Short(0x74)
    else if c == 0x0A then Short(0x6E)
    else if c == 0x0C then Short(0x66)
    else if c == 0x0D then Short(0x72)
    else if c < 0x20 then Unit(Quad(Nibble(0, false), Nibble(0, false), Nibble(c / 16, false), Nibble(c % 16, false)), [c])
    else Plain([c])
  }

  lemma CharIsEscape(c: byte)
    requires c < 0x80
    ensures SpellChar(CharOf(c)) == Escape(c) && CharMeaning(CharOf(c)) == [c]
  {
    if c < 0x20 { ControlIsEscape(c); }
  }

  lemma ControlIsEscape(c: byte)
    requires c < 0x20
    ensures SpellChar(CharOf(c)) == Escape(c) && CharMeaning(CharOf(c)) == [c]
  {
    hide SpellDigit, Hex, Decoded;
    HexIsLower(0);
    HexIsLower(c / 16);
    HexIsLower(c % 16);
    assert Hex(0) == 0x30 by { HexZero(); }
  }

  lemma HexZero()
    ensures Hex(0) == 0x30
  {}

  function TextOf(s: Bytes): Text
    requires Utf8(s)
  {
    if s == [] then [] else
    RuneLenDecodes(s);
    var n := RuneLen(s);
    DecodedIsScalar(s[..n]);
    [if n == 1 then CharOf(s[0]) else Plain(s[..n])] + TextOf(s[n..])
  }

  lemma {:induction false} EscapeNone(b: Bytes, s: Bytes)
    requires forall k :: 0 <= k < |b| ==> b[k] >= 0x80
    ensures EscapeAll(b + s) == b + EscapeAll(s)
    decreases |b|
  {
    hide Escape;
    if b == [] {
      assert b + s == s;
    } else {
      EscapeNone(b[1..], s);
      EscapeHigh(b[0]);
      assert (b + s)[0] == b[0] && (b + s)[1..] == b[1..] + s;
      assert [b[0]] + b[1..] == b;
      Bracket([b[0]], b[1..], EscapeAll(s));
    }
  }

  /** The first character of a text. */
  lemma FirstChar(s: Bytes) returns (p: Char)
    requires Utf8(s) && s != []
    ensures var n := RuneLen(s);
      && 0 < n && Utf8(s[n..]) && TextOf(s) == [p] + TextOf(s[n..])
      && SpellChar(p) + EscapeAll(s[n..]) == EscapeAll(s) && CharMeaning(p) == s[..n]
  {
    hide Decoded, Escape;
    var n := RuneLen(s);
    RuneLenDecodes(s);
    DecodedIsScalar(s[..n]);
    if n == 1 {
      p := CharOf(s[0]);
      CharIsEscape(s[0]);
    } else {
      p := Plain(s[..n]);
      EscapeNone(s[..n], s[n..]);
      assert s == s[..n] + s[n..];
    }
  }

  lemma {:induction false} TextIsEscaped(s: Bytes)
    requires Utf8(s)
    ensures SpellText(TextOf(s)) == EscapeAll(s) + [QUOTE] && TextMeaning(TextOf(s)) == s
    decreases |s|
  {
    hide TextOf, Utf8, EscapeAll, CharMeaning, SpellChar, RuneLen;
    if s == [] {
      NoText();
    } else {
      var p := FirstChar(s);
      var n := RuneLen(s);
      TextIsEscaped(s[n..]);
      assert TextOf(s)[0] == p && TextOf(s)[1..] == TextOf(s[n..]);
      assert s == s[..n] + s[n..];
      Bracket(SpellChar(p), EscapeAll(s[n..]), [QUOTE]);
    }
  }

  lemma Bracket(a: Bytes, b: Bytes, c: Bytes)
    ensures (a + b) + c == a + (b + c)
  {}

  lemma NoText()
    requires Utf8([])
    ensures TextOf([]) == [] && EscapeAll([]) == []
  {}

  lemma {:induction false} CharsReads(d: Bytes, i: nat, s: Bytes, out: Bytes)
    requires At(d, i, EscapeAll(s) + [QUOTE]) && Utf8(out + s)
    ensures Chars(d, i, out) == Ok(out + s, i + |EscapeAll(s)| + 1)
    decreases |s|
  {
    hide At, Chars, Escape, Utf8, SpellChar, CharMeaning, CharOf;
    if s == [] {
      AtIndex(d, i, EscapeAll(s) + [QUOTE], 0);
      assert out + s == out;
      CharsEnd(d, i, out);
    } else {
      var c := s[0];
      assert EscapeAll(s) + [QUOTE] == Escape(c) + (EscapeAll(s[1..]) + [QUOTE]);
      AtCut(d, i, Escape(c), EscapeAll(s[1..]) + [QUOTE]);
      if c < 0x80 {
        CharIsEscape(c);
        CharReads(d, i, CharOf(c), out);
      } else {
        EscapeHigh(c);
        RawReads(d, i, [c], out);
      }
      assert out + s == (out + [c]) + s[1..];
      CharsReads(d, i + |Escape(c)|, s[1..], out + [c]);
    }
  }

  lemma EscapeHigh(c: byte)
    requires c >= 0x80
    ensures Escape(c) == [c]
  {}

  /** A byte string is valid UTF-8 exactly if some text means it. */
  lemma Utf8Exactly(s: Bytes)
    ensures Utf8(s) <==> exists t: Text :: TextMeaning(t) == s
  {
    hide Utf8, TextOf, TextMeaning;
    if Utf8(s) { TextIsEscaped(s); }
    forall t: Text | TextMeaning(t) == s ensures Utf8(s) { TextIsUtf8(t); }
  }

  lemma SpellingLength(p: Char)
    ensures |SpellChar(p)| >= 1 && (p.Short? ==> |SpellChar(p)| == 2) && (p.Unit? || p.Pair? ==> |SpellChar(p)| >= 6)
  {
    hide Decoded;
    CharShows(p);
  }

  lemma EscapeLength(c: byte)
    requires c < 0x80
    ensures |Escape(c)| == if c >= 0x20 && c != QUOTE && c != BACKSLASH then 1 else if c in SHORT.Values then 2 else 6
    ensures |Escape(c)| == 6 ==> forall k :: 0 <= k < 6 ==> !(0x41 <= Escape(c)[k] <= 0x46)
  {
    assert SHORT[0x22] == 0x22 && SHORT[0x5C] == 0x5C && SHORT[0x62] == 0x08 && SHORT[0x66] == 0x0C;
    assert SHORT[0x6E] == 0x0A && SHORT[0x72] == 0x0D && SHORT[0x74] == 0x09;
  }

  /** Append escapes no byte that may stand as it is, takes the shortest spelling of the others,
      and writes hexadecimal in lower case. */
  lemma EscapeIsShortest(c: byte, p: Char)
    requires c < 0x80 && CharMeaning(p) == [c]
    ensures |Escape(c)| <= |SpellChar(p)|
    ensures |Escape(c)| == 6 ==> forall k :: 0 <= k < 6 ==> !(0x41 <= Escape(c)[k] <= 0x46)
  {
    hide Escape, SpellChar;
    EscapeLength(c);
    SpellingLength(p);
    if p.Short? { assert SHORT[p.c] in SHORT.Values; }
  }

  lemma {:induction false} DigitsRead(n: nat, k: nat)
    requires n < Tens(k) && k > 0
    ensures |Digits(n)| <= k && AllDigits(Digits(n)) && DigitsValue(Digits(n)) == n
    ensures Digits(n)[0] == 0x30 ==> Digits(n) == [0x30] && n == 0
  {
    hide DigitsValue, Digits, Tens;
    DigitsStep(n, k);
    if n >= 10 {
      DigitsRead(n / 10, k - 1);
      LastDigit(Digits(n));
      assert Digits(n)[..|Digits(n)| - 1] == Digits(n / 10);
    }
  }

  lemma DigitsStep(n: nat, k: nat)
    requires n < Tens(k) && k > 0
    ensures n < 10 ==> Digits(n) == [0x30 + n] && DigitsValue([0x30 + n]) == n
    ensures n >= 10 ==> Digits(n) == Digits(n / 10) + [0x30 + n % 10] && n / 10 < Tens(k - 1) && k > 1
  {}

  predicate Printable(n: int) { MIN_I64 <= n <= MAX_U64 }

  function NumeralOf(n: int): (t: Token)
    requires Printable(n)
    ensures Render(t) == Decimal(n) && NumberMeaning(t) == (if n <= MAX_I64 then I64(n) else U64(n)) && Classed(t)
  {
    hide Tens, Digits, DigitsValue;
    TwentyDigits();
    var digits := Digits(if n < 0 then -n else n);
    DigitsRead(if n < 0 then -n else n, 20);
    assert Head(Numeral(n < 0, digits, [], NoExp)) + digits + [] + [] == Decimal(n);
    Numeral(n < 0, digits, [], NoExp)
  }

  lemma NumberReads(ok: FloatTest, d: Bytes, i: nat, n: int)
    requires Printable(n) && At(d, i, Decimal(n)) && Ends(d, i + |Decimal(n)|)
    ensures i < |d| && (d[i] == 0x2D || IsDigit(d[i]))
    ensures Number(ok, d, i) == Ok(if n <= MAX_I64 then I64(n) else U64(n), i + |Decimal(n)|)
  {
    hide Number, Decimal, Classed, Render, WellFormed, At, Ends;
    NumReads(ok, d, i, NumeralOf(n));
  }

  /** The text Append writes for a value in normal form. */
  function DocOf(v: Value): Doc
    requires Normal(v)
    decreases v
  {
    match v
    case Null => NullText
    case Bool(b) => BoolText(b)
    case Str(s) => StrText(TextOf(s))
    case I64(n) => NumText(NumeralOf(n))
    case U64(n) => NumText(NumeralOf(n))
    case Arr(items) => ArrText([], ItemsOf(items))
    case Obj(members) => ObjText([], EntriesOf(members))
  }

  function ItemsOf(items: seq<Value>): (r: seq<Item>)
    requires forall i :: 0 <= i < |items| ==> Normal(items[i])
    ensures |r| == |items|
    decreases items
  {
    if items == [] then [] else [Item([], DocOf(items[0]), [])] + ItemsOf(items[1..])
  }

  function EntryOf(m: Member<Value>): Entry
    requires Utf8(m.key) && Normal(m.value)
    decreases m
  {
    Entry([], TextOf(m.key), [], Item([], DocOf(m.value), []))
  }

  function EntriesOf(members: seq<Member<Value>>): (r: seq<Entry>)
    requires forall i :: 0 <= i < |members| ==> Utf8(members[i].key) && Normal(members[i].value)
    ensures |r| == |members|
    decreases members
  {
    if members == [] then [] else [EntryOf(members[0])] + EntriesOf(members[1..])
  }

  /** It is what Append writes, it means the value, and it nests as deeply. */
  predicate IsPrintOf(ok: FloatTest, doc: Doc, v: Value) {
    Spell(doc) == Print(v) && Meaning(doc) == v && TextDepth(doc) == Depth(v) && InRange(ok, doc)
  }

  lemma AtomIsText(ok: FloatTest, v: Value)
    requires Normal(v) && !v.Arr? && !v.Obj?
    ensures IsPrintOf(ok, DocOf(v), v)
  {
    hide Utf8, Classed, Render, SpellText, TextMeaning, EscapeAll, Decimal, NumberMeaning;
    if v.Str? { TextIsEscaped(v.s); }
  }

  lemma ArrIsText(ok: FloatTest, items: seq<Value>, r: seq<Item>)
    requires |r| == |items| && (items != [] ==> SpellItems(r) == PrintItems(items) + [0x5D])
    requires ItemsMeaning(r) == items && ItemsTextDepth(r) == DepthItems(items) && ItemsInRange(ok, r)
    ensures IsPrintOf(ok, ArrText([], r), Arr(items))
  {
    hide SpellItems, ItemsMeaning, ItemsTextDepth, DepthItems, ItemsInRange, Spell, Meaning, TextDepth, InRange;
    ArrShape(ok, [], r);
    Bracketed(0x5B, PrintItems(items), 0x5D);
  }

  lemma Bracketed(open: byte, s: Bytes, close: byte)
    ensures [open] + s + [close] == [open] + (s + [close])
    ensures s == [] ==> [open] + ([] + [close]) == [open] + s + [close]
  {}

  lemma ObjIsText(ok: FloatTest, members: seq<Member<Value>>, r: seq<Entry>)
    requires |r| == |members| && !Repeats(members) && (members != [] ==> SpellEntries(r) == PrintMembers(members) + [0x7D])
    requires EntriesMeaning(r) == members && EntriesTextDepth(r) == DepthMembers(members) && EntriesInRange(ok, r)
    ensures IsPrintOf(ok, ObjText([], r), Obj(members))
  {
    hide SpellEntries, EntriesMeaning, EntriesTextDepth, DepthMembers, EntriesInRange, Spell, Meaning, TextDepth, InRange, Merge, Repeats;
    ObjShape(ok, [], r);
    NoRepeatsIsNormal(members);
    Bracketed(0x7B, PrintMembers(members), 0x7D);
  }

  lemma {:induction false} PrintIsText(ok: FloatTest, v: Value)
    requires Normal(v)
    ensures IsPrintOf(ok, DocOf(v), v)
    decreases v
  {
    hide IsPrintOf, ItemsOf, EntriesOf, SpellItems, SpellEntries, ItemsMeaning, EntriesMeaning, ItemsTextDepth, EntriesTextDepth, Repeats, Utf8;
    match v
    case Arr(items) =>
      ItemsAreText(ok, items);
      ArrIsText(ok, items, ItemsOf(items));
    case Obj(members) =>
      EntriesAreText(ok, members);
      ObjIsText(ok, members, EntriesOf(members));
    case _ => AtomIsText(ok, v);
  }

  lemma SpellBare(v: Value, it: Item)
    requires it.before == it.after == [] && Spell(it.doc) == Print(v)
    ensures SpellItem(it) == Print(v)
  {
    hide Spell, Print;
  }

  lemma Append3(a: Bytes, b: Bytes, c: Bytes, close: byte)
    ensures (a + (b + c)) + [close] == a + (b + (c + [close])) && (a + []) + [close] == a + [close]
  {}

  lemma {:induction false} ItemsAreText(ok: FloatTest, items: seq<Value>)
    requires forall i :: 0 <= i < |items| ==> Normal(items[i])
    ensures var r := ItemsOf(items);
      && (items != [] ==> SpellItems(r) == PrintItems(items) + [0x5D])
      && ItemsMeaning(r) == items && ItemsTextDepth(r) == DepthItems(items) && ItemsInRange(ok, r)
    decreases items
  {
    hide Normal, DocOf, Spell, Print, Meaning, TextDepth, Depth, InRange, SpellItems, ItemsMeaning, ItemsTextDepth, ItemsInRange, SpellItem;
    ItemsEmpty(ok);
    if items != [] {
      var it, rest := Item([], DocOf(items[0]), []), ItemsOf(items[1..]);
      PrintIsText(ok, items[0]);
      SpellBare(items[0], it);
      ItemsAreText(ok, items[1..]);
      ItemsShape(ok, it, rest);
      assert items == [items[0]] + items[1..];
      Append3(Print(items[0]), [0x2C], PrintItems(items[1..]), 0x5D);
    }
  }

  lemma {:induction false} EntryIsText(ok: FloatTest, m: Member<Value>)
    requires Utf8(m.key) && Normal(m.value)
    ensures SpellEntry(EntryOf(m)) == PrintMember(m) && EntryMeaning(EntryOf(m)) == m
    ensures TextDepth(EntryOf(m).item.doc) == Depth(m.value) && InRange(ok, EntryOf(m).item.doc)
    decreases m
  {
    hide Normal, DocOf, Spell, Print, Meaning, TextDepth, Depth, InRange, SpellText, TextMeaning, EscapeAll;
    PrintIsText(ok, m.value);
    TextIsEscaped(m.key);
    var e := EntryOf(m);
    assert SpellItem(e.item) == Print(m.value);
    assert SpellKey(e) == Quoted(m.key) + [0x3A];
  }

  lemma {:induction false} EntriesAreText(ok: FloatTest, members: seq<Member<Value>>)
    requires forall i :: 0 <= i < |members| ==> Utf8(members[i].key) && Normal(members[i].value)
    ensures var r := EntriesOf(members);
      && (members != [] ==> SpellEntries(r) == PrintMembers(members) + [0x7D])
      && EntriesMeaning(r) == members && EntriesTextDepth(r) == DepthMembers(members) && EntriesInRange(ok, r)
    decreases members
  {
    hide Normal, EntryOf, SpellEntry, PrintMember, EntryMeaning, TextDepth, Depth, InRange, Utf8, SpellEntries, EntriesMeaning, EntriesTextDepth, EntriesInRange;
    ItemsEmpty(ok);
    if members != [] {
      EntryIsText(ok, members[0]);
      EntriesAreText(ok, members[1..]);
      EntriesShape(ok, EntryOf(members[0]), EntriesOf(members[1..]));
      assert members == [members[0]] + members[1..];
      Append3(PrintMember(members[0]), [0x2C], PrintMembers(members[1..]), 0x7D);
    }
  }

  // ---- the theorem ----

  /** A value in normal form is read back where it was printed, unless it nests too deep. */
  lemma ValueReads(ok: FloatTest, d: Bytes, i: nat, depth: int, v: Value)
    requires Normal(v) && depth <= MAX_DEPTH && At(d, i, Print(v)) && Ends(d, i + |Print(v)|)
    ensures i < |d| && Starts(d[i])
    ensures ValueAt(ok, d, i, depth) == if Fits(depth, Depth(v)) then Ok(v, i + |Print(v)|) else TooDeep
  {
    hide ValueAt, DocOf, Spell, Meaning, TextDepth, InRange, Print, Depth, At, Ends, Starts;
    PrintIsText(ok, v);
    DocReads(ok, d, i, depth, DocOf(v));
  }

  /** Parse undoes Append, whatever whitespace stands around the text: the value comes back
      in normal form and all input is consumed, or it nests deeper than MaxDepth and the
      parser says so. */
  lemma ParsePrint(ok: FloatTest, v: Value, before: Bytes, after: Bytes)
    requires FloatFree(v) && Spaces(before) && Spaces(after)
    ensures Parse(ok, before + Print(v) + after) ==
      if Depth(Norm(v)) <= MAX_DEPTH then Outcome.Value(Norm(v)) else ErrTooDeep
  {
    hide Parse, DocOf, Spell, Meaning, TextDepth, InRange, Print, Norm, Normal, FloatFree, Depth;
    PrintNorm(v);
    NormIsNormal(v);
    PrintIsText(ok, Norm(v));
    TextParses(ok, before + Print(v) + after, Item(before, DocOf(Norm(v)), after));
  }

  /** A value in normal form is its own normal form. */
  lemma {:induction false} NormalIsNorm(v: Value)
    requires Normal(v)
    ensures Norm(v) == v
    decreases v
  {
    match v
    case Arr(items) =>
      forall i | 0 <= i < |items| ensures Norm(items[i]) == items[i] { NormalIsNorm(items[i]); }
      assert NormItems(items) == items;
    case Obj(members) =>
      forall i | 0 <= i < |members| ensures Norm(members[i].value) == members[i].value { NormalIsNorm(members[i].value); }
      assert NormMembers(members) == members;
      NoRepeatsIsNormal(members);
    case _ =>
  }

  /** So normalizing twice changes nothing, and two values, however deep, print alike exactly
      if they have one normal form. */
  lemma PrintDecidesNorm(v: Value, w: Value)
    requires FloatFree(v) && FloatFree(w)
    ensures Print(v) == Print(w) <==> Norm(v) == Norm(w)
    ensures Norm(Norm(v)) == Norm(v)
  {
    hide ValueAt, Print, Norm, Normal, FloatFree, Depth;
    NormIsNormal(v);
    NormIsNormal(w);
    NormalIsNorm(Norm(v));
    PrintNorm(v);
    PrintNorm(w);
    if Print(v) == Print(w) { PrintInjective(Norm(v), Norm(w)); }
  }

  /** Read with enough room above the limit, a text is the print of one normal value only. */
  lemma PrintInjective(v: Value, w: Value)
    requires Normal(v) && Normal(w) && Print(v) == Print(w)
    ensures v == w
  {
    hide ValueAt, Print, Normal, Depth;
    var d, depth := Print(v), MAX_DEPTH - Depth(v) - Depth(w);
    assert At(d, 0, d);
    ValueReads(_ => true, d, 0, depth, v);
    ValueReads(_ => true, d, 0, depth, w);
  }
}
