/** JSON texts (RFC 8259) as trees that keep every choice of spelling: whitespace, escapes,
    forms of a number, repeated keys. Parse accepts exactly the texts these trees spell, and
    returns what they mean. */
module JsonText {
  import opened Members
  import opened Json
  import opened JsonGrammar
  import opened JsonReading
  import opened JsonStrings
  import opened Numerals

  // ---- numbers (section 6 of RFC 8259) ----

  type Token = n: Numeral | WellFormed(n) witness Numeral(false, [0x30], [], NoExp)

  function IntegerOf(n: Token): int { if n.negative then -DigitsValue(n.whole) else DigitsValue(n.whole) }

  /** An integer that fits int64 or uint64; "-0" is not one. */
  predicate Classed(n: Token) {
    IsInteger(n) && !(n.negative && n.whole == [0x30]) && -0x8000_0000_0000_0000 <= IntegerOf(n) < 0x1_0000_0000_0000_0000
  }

  function NumberMeaning(n: Token): Value {
    if !Classed(n) then Float(Render(n)) else if IntegerOf(n) < 0x8000_0000_0000_0000 then I64(IntegerOf(n)) else U64(IntegerOf(n))
  }

  // ---- values ----

  /** One text of a value. The blank of an array or object matters only if it is empty. */
  datatype Doc =
    | NullText | BoolText(b: bool) | StrText(text: Text) | NumText(n: Token)
    | ArrText(blank: Blank, items: seq<Item>) | ObjText(blank: Blank, entries: seq<Entry>)

  datatype Item = Item(before: Blank, doc: Doc, after: Blank)

  /** Whitespace may stand before the key and around the colon. */
  datatype Entry = Entry(before: Blank, key: Text, colon: Blank, item: Item)

  function Spell(doc: Doc): Bytes
    decreases doc
  {
    match doc
    case NullText => Ascii("null")
    case BoolText(b) => Ascii(if b then "true" else "false")
    case StrText(t) => [0x22] + SpellText(t)
    case NumText(n) => Render(n)
    case ArrText(blank, items) => [0x5B] + if items == [] then blank + [0x5D] else SpellItems(items)
    case ObjText(blank, entries) => [0x7B] + if entries == [] then blank + [0x7D] else SpellEntries(entries)
  }

  function SpellItem(it: Item): Bytes
    decreases it
  {
    it.before + Spell(it.doc) + it.after
  }

  /** The items and the closing bracket. */
  function SpellItems(items: seq<Item>): Bytes
    requires items != []
    decreases items
  {
    SpellItem(items[0]) + if |items| == 1 then [0x5D] else [0x2C] + SpellItems(items[1..])
  }

  function SpellKey(e: Entry): Bytes { e.before + ([0x22] + SpellText(e.key)) + e.colon + [0x3A] }

  function SpellEntry(e: Entry): Bytes
    decreases e
  {
    SpellKey(e) + SpellItem(e.item)
  }

  function SpellEntries(entries: seq<Entry>): Bytes
    requires entries != []
    decreases entries
  {
    SpellEntry(entries[0]) + if |entries| == 1 then [0x7D] else [0x2C] + SpellEntries(entries[1..])
  }

  /** The value a text stands for: the last member with a key counts, in the place of the first. */
  function Meaning(doc: Doc): Value
    decreases doc
  {
    match doc
    case NullText => Null
    case BoolText(b) => Bool(b)
    case StrText(t) => Str(TextMeaning(t))
    case NumText(n) => NumberMeaning(n)
    case ArrText(_, items) => Arr(ItemsMeaning(items))
    case ObjText(_, entries) => Obj(Merge(EntriesMeaning(entries)))
  }

  function ItemsMeaning(items: seq<Item>): seq<Value>
    decreases items
  {
    if items == [] then [] else [Meaning(items[0].doc)] + ItemsMeaning(items[1..])
  }

  function EntryMeaning(e: Entry): Member<Value>
    decreases e
  {
    Member(TextMeaning(e.key), Meaning(e.item.doc))
  }

  function EntriesMeaning(entries: seq<Entry>): seq<Member<Value>>
    decreases entries
  {
    if entries == [] then [] else [EntryMeaning(entries[0])] + EntriesMeaning(entries[1..])
  }

  /** How deeply the brackets nest, members that a later one replaces included. */
  function TextDepth(doc: Doc): nat
    decreases doc
  {
    match doc
    case ArrText(_, items) => 1 + ItemsTextDepth(items)
    case ObjText(_, entries) => 1 + EntriesTextDepth(entries)
    case _ => 0
  }

  function ItemsTextDepth(items: seq<Item>): nat
    decreases items
  {
    if items == [] then 0 else Max(TextDepth(items[0].doc), ItemsTextDepth(items[1..]))
  }

  function EntriesTextDepth(entries: seq<Entry>): nat
    decreases entries
  {
    if entries == [] then 0 else Max(TextDepth(entries[0].item.doc), EntriesTextDepth(entries[1..]))
  }

  /** Every number is an integer of its class or accepted as a float. */
  predicate InRange(ok: FloatTest, doc: Doc)
    decreases doc
  {
    match doc
    case NumText(n) => Classed(n) || ok(Render(n))
    case ArrText(_, items) => ItemsInRange(ok, items)
    case ObjText(_, entries) => EntriesInRange(ok, entries)
    case _ => true
  }

  predicate ItemsInRange(ok: FloatTest, items: seq<Item>)
    decreases items
  {
    items == [] || (InRange(ok, items[0].doc) && ItemsInRange(ok, items[1..]))
  }

  predicate EntriesInRange(ok: FloatTest, entries: seq<Entry>)
    decreases entries
  {
    entries == [] || (InRange(ok, entries[0].item.doc) && EntriesInRange(ok, entries[1..]))
  }

  // ---- one layer of a tree ----

  lemma ArrShape(ok: FloatTest, blank: Blank, items: seq<Item>)
    ensures var doc := ArrText(blank, items);
      && Spell(doc) == [0x5B] + (if items == [] then blank + [0x5D] else SpellItems(items))
      && Meaning(doc) == Arr(ItemsMeaning(items)) && TextDepth(doc) == 1 + ItemsTextDepth(items) && (InRange(ok, doc) <==> ItemsInRange(ok, items))
  {
    hide SpellItems, ItemsMeaning, ItemsTextDepth, ItemsInRange;
  }

  lemma ObjShape(ok: FloatTest, blank: Blank, entries: seq<Entry>)
    ensures var doc := ObjText(blank, entries);
      && Spell(doc) == [0x7B] + (if entries == [] then blank + [0x7D] else SpellEntries(entries))
      && Meaning(doc) == Obj(Merge(EntriesMeaning(entries))) && TextDepth(doc) == 1 + EntriesTextDepth(entries)
      && (InRange(ok, doc) <==> EntriesInRange(ok, entries))
  {
    hide SpellEntries, EntriesMeaning, EntriesTextDepth, EntriesInRange, Merge;
  }

  lemma ItemsEmpty(ok: FloatTest)
    ensures ItemsMeaning([]) == [] && ItemsTextDepth([]) == 0 && ItemsInRange(ok, [])
    ensures EntriesMeaning([]) == [] && EntriesTextDepth([]) == 0 && EntriesInRange(ok, [])
  {}

  lemma ItemsShape(ok: FloatTest, it: Item, rest: seq<Item>)
    ensures var items := [it] + rest;
      && SpellItems(items) == SpellItem(it) + (if rest == [] then [0x5D] else [0x2C] + SpellItems(rest))
      && ItemsMeaning(items) == [Meaning(it.doc)] + ItemsMeaning(rest) && ItemsTextDepth(items) == Max(TextDepth(it.doc), ItemsTextDepth(rest))
      && (ItemsInRange(ok, items) <==> InRange(ok, it.doc) && ItemsInRange(ok, rest))
  {
    hide SpellItem, Meaning, TextDepth, InRange;
    assert ([it] + rest)[1..] == rest;
  }

  lemma EntriesShape(ok: FloatTest, e: Entry, rest: seq<Entry>)
    ensures var entries := [e] + rest;
      && SpellEntries(entries) == SpellEntry(e) + (if rest == [] then [0x7D] else [0x2C] + SpellEntries(rest))
      && EntriesMeaning(entries) == [EntryMeaning(e)] + EntriesMeaning(rest)
      && EntriesTextDepth(entries) == Max(TextDepth(e.item.doc), EntriesTextDepth(rest))
      && (EntriesInRange(ok, entries) <==> InRange(ok, e.item.doc) && EntriesInRange(ok, rest))
  {
    hide SpellEntry, EntryMeaning, TextDepth, InRange;
    assert ([e] + rest)[1..] == rest;
  }

  // ---- every such text is read ----

  lemma IntegerSpelled(n: Token)
    requires IsInteger(n)
    ensures Render(n) == if n.negative then [0x2D] + n.whole else n.whole
    ensures (Render(n)[0] == 0x2D <==> n.negative) && (n.negative ==> Render(n)[1..] == n.whole)
    ensures var k := if n.negative then 1 else 0; k < |Render(n)| && forall j :: k <= j < |Render(n)| ==> IsDigit(Render(n)[j])
  {
    assert IsDigit(n.whole[0]);
  }

  lemma NumberMeans(ok: FloatTest, n: Token)
    requires IsInteger(n) ==> var k := if Render(n) != [] && Render(n)[0] == 0x2D then 1 else 0;
      k < |Render(n)| && forall j :: k <= j < |Render(n)| ==> IsDigit(Render(n)[j])
    ensures NumberValue(ok, Render(n), IsInteger(n)) ==
      if Classed(n) || ok(Render(n)) then Ok(NumberMeaning(n), 0) else Fail
  {
    hide DigitsValue, Render;
    if IsInteger(n) {
      IntegerSpelled(n);
      if DigitsValue(n.whole) <= MAX_U64 { AtMostTwenty(n); }
    }
  }

  lemma NumReads(ok: FloatTest, d: Bytes, i: nat, n: Token)
    requires At(d, i, Render(n)) && Ends(d, i + |Render(n)|)
    ensures i < |d| && (d[i] == 0x2D || IsDigit(d[i]))
    ensures Number(ok, d, i) == if Classed(n) || ok(Render(n)) then Ok(NumberMeaning(n), i + |Render(n)|) else Fail
  {
    hide NumberEnd, NumberValue, Render, NumberMeaning, Classed, At;
    NumeralReads(d, i, n);
    if IsInteger(n) { IntegerSpelled(n); }
    NumberMeans(ok, n);
  }

  lemma SkipOver(d: Bytes, i: nat, s: Bytes)
    requires Spaces(s) && At(d, i, s) && (i + |s| < |d| ==> !IsSpace(d[i + |s|]))
    ensures i <= |d| && Skip(d, i) == i + |s|
  {
    forall k | i <= k < i + |s| ensures IsSpace(d[k]) { AtIndex(d, i, s, k - i); }
    SkipAll(d, i, i + |s|);
  }

  lemma SpellStarts(doc: Doc)
    ensures Spell(doc) != [] && Starts(Spell(doc)[0])
  {
    hide SpellText, SpellItems, SpellEntries;
    if doc.NumText? { WholeParts(doc.n, Render(doc.n)); }
  }

  /** Neither whitespace nor a number goes on here. */
  predicate Stops(d: Bytes, e: nat) { e >= |d| || (!IsSpace(d[e]) && Ends(d, e)) }

  lemma AtomReads(ok: FloatTest, d: Bytes, i: nat, depth: int, doc: Doc)
    requires !doc.ArrText? && !doc.ObjText?
    requires InRange(ok, doc) && At(d, i, Spell(doc)) && Ends(d, i + |Spell(doc)|) && i < |d| && d[i] == Spell(doc)[0]
    ensures ValueAt(ok, d, i, depth) == Ok(Meaning(doc), i + |Spell(doc)|)
  {
    hide ValueAt, Chars, Number, SpellText, Utf8, Render, WellFormed, Classed, NumberMeaning, At;
    ValueStep(ok, d, i, depth);
    match doc
    case NullText => LiteralReads(d, i, Ascii("null"), Null);
    case BoolText(b) => LiteralReads(d, i, Ascii(if b then "true" else "false"), Bool(b));
    case StrText(t) => QuotedReads(d, i, t);
    case NumText(n) => NumReads(ok, d, i, n);
  }

  lemma LiteralReads(d: Bytes, i: nat, word: Bytes, v: Value)
    requires At(d, i, word)
    ensures Literal(d, i, word, v) == Ok(v, i + |word|)
  {}

  /** A text is read wherever it stands, unless it nests too deep. */
  lemma {:induction false} DocReads(ok: FloatTest, d: Bytes, i: nat, depth: int, doc: Doc)
    requires InRange(ok, doc) && depth <= MAX_DEPTH && At(d, i, Spell(doc)) && Ends(d, i + |Spell(doc)|)
    ensures i < |d| && Starts(d[i])
    ensures ValueAt(ok, d, i, depth) == if Fits(depth, TextDepth(doc)) then Ok(Meaning(doc), i + |Spell(doc)|) else TooDeep
    decreases doc, 1
  {
    hide ValueAt, Spell, At, Meaning, TextDepth, Starts, InRange, Ends;
    SpellStarts(doc);
    AtIndex(d, i, Spell(doc), 0);
    if doc.ArrText? {
      ArrTextReads(ok, d, i, depth, doc);
    } else if doc.ObjText? {
      ObjTextReads(ok, d, i, depth, doc);
    } else {
      AtomReads(ok, d, i, depth, doc);
      AtomDepth(doc);
    }
  }

  lemma AtomDepth(doc: Doc)
    requires !doc.ArrText? && !doc.ObjText?
    ensures TextDepth(doc) == 0
  {}

  lemma ArrTextReads(ok: FloatTest, d: Bytes, i: nat, depth: int, doc: Doc)
    requires doc.ArrText? && InRange(ok, doc) && depth <= MAX_DEPTH && At(d, i, Spell(doc)) && i < |d|
    ensures ValueAt(ok, d, i, depth) == if Fits(depth, TextDepth(doc)) then Ok(Meaning(doc), i + |Spell(doc)|) else TooDeep
    decreases doc, 0
  {
    hide At, Skip, ValueAt, ArrayAt, Spell, Meaning, TextDepth, InRange, SpellItems, ItemsAt, ItemsMeaning, ItemsTextDepth, ItemsInRange;
    ArrShape(ok, doc.blank, doc.items);
    var rest := if doc.items == [] then doc.blank + [0x5D] else SpellItems(doc.items);
    AtCut(d, i, [0x5B], rest);
    AtIndex(d, i, [0x5B], 0);
    ValueStep(ok, d, i, depth);
    ArrayAtStep(ok, d, i, depth + 1);
    if doc.items == [] {
      ItemsEmpty(ok);
      Brackets(d, i + 1, doc.blank, 0x5D);
    } else if depth < MAX_DEPTH {
      ItemsReads(ok, d, i + 1, depth + 1, [], doc.items);
      assert [] + ItemsMeaning(doc.items) == ItemsMeaning(doc.items);
    }
  }

  /** Nothing but whitespace before a bracket. */
  lemma Brackets(d: Bytes, i: nat, blank: Blank, c: byte)
    requires At(d, i, blank + [c]) && !IsSpace(c)
    ensures i <= |d| && Skip(d, i) == i + |blank| < |d| && d[i + |blank|] == c
  {
    hide At;
    AtCut(d, i, blank, [c]);
    AtIndex(d, i + |blank|, [c], 0);
    SkipOver(d, i, blank);
  }

  lemma MergeNone()
    ensures Merge<Value>([]) == []
  {}

  lemma ObjTextReads(ok: FloatTest, d: Bytes, i: nat, depth: int, doc: Doc)
    requires doc.ObjText? && InRange(ok, doc) && depth <= MAX_DEPTH && At(d, i, Spell(doc)) && i < |d|
    ensures ValueAt(ok, d, i, depth) == if Fits(depth, TextDepth(doc)) then Ok(Meaning(doc), i + |Spell(doc)|) else TooDeep
    decreases doc, 0
  {
    hide At, Skip, ValueAt, ObjectAt, Spell, Meaning, TextDepth, InRange, SpellEntries, MembersAt, Merge, EntriesMeaning, EntriesTextDepth, EntriesInRange;
    ObjShape(ok, doc.blank, doc.entries);
    var rest := if doc.entries == [] then doc.blank + [0x7D] else SpellEntries(doc.entries);
    AtCut(d, i, [0x7B], rest);
    AtIndex(d, i, [0x7B], 0);
    ValueStep(ok, d, i, depth);
    ObjectAtStep(ok, d, i, depth + 1);
    if doc.entries == [] {
      ItemsEmpty(ok);
      MergeNone();
      Brackets(d, i + 1, doc.blank, 0x7D);
    } else if depth < MAX_DEPTH {
      MergeNone();
      EntriesReads(ok, d, i + 1, depth + 1, [], doc.entries);
      assert [] + EntriesMeaning(doc.entries) == EntriesMeaning(doc.entries);
    }
  }

  /** One value between whitespace. */
  lemma {:induction false} ItemReads(ok: FloatTest, d: Bytes, i: nat, depth: int, it: Item)
    requires InRange(ok, it.doc) && depth <= MAX_DEPTH && At(d, i, SpellItem(it)) && Stops(d, i + |SpellItem(it)|)
    ensures var p := i + |it.before|; var q := p + |Spell(it.doc)|;
      && i <= p < q <= |d| && Starts(d[p]) && Skip(d, i) == p && Skip(d, q) == i + |SpellItem(it)|
      && ValueAt(ok, d, p, depth) == if Fits(depth, TextDepth(it.doc)) then Ok(Meaning(it.doc), q) else TooDeep
    decreases it, 1
  {
    hide Spell, ValueAt, Meaning, TextDepth, InRange, At, Skip;
    var p, q := i + |it.before|, i + |it.before| + |Spell(it.doc)|;
    AtFits(d, i, SpellItem(it));
    AtCut(d, i, it.before + Spell(it.doc), it.after);
    AtCut(d, i, it.before, Spell(it.doc));
    SpellStarts(it.doc);
    AtIndex(d, p, Spell(it.doc), 0);
    SkipOver(d, i, it.before);
    SkipOver(d, q, it.after);
    if it.after != [] { AtIndex(d, q, it.after, 0); }
    DocReads(ok, d, p, depth, it.doc);
  }

  /** The first item and what follows it. */
  lemma FirstItem(ok: FloatTest, d: Bytes, i: nat, depth: int, done: seq<Value>, it: Item, more: bool, rest: Bytes)
    requires InRange(ok, it.doc) && depth <= MAX_DEPTH && At(d, i, SpellItem(it) + if more then [0x2C] + rest else [0x5D])
    ensures var next := i + |SpellItem(it)| + 1; var items := done + [Meaning(it.doc)];
      && i < next <= |d| && Skip(d, i) < |d| && Starts(d[Skip(d, i)]) && (more ==> At(d, next, rest))
      && ItemsAt(ok, d, i, depth, done) ==
           if !Fits(depth, TextDepth(it.doc)) then TooDeep else if !more then Ok(Arr(items), next) else ItemsAt(ok, d, next, depth, items)
    decreases it, 2
  {
    hide ItemsAt, ValueAt, Meaning, TextDepth, InRange, At, Skip, SpellItem, Starts;
    var tail := if more then [0x2C] + rest else [0x5D];
    var e := i + |SpellItem(it)|;
    AtCut(d, i, SpellItem(it), tail);
    AtIndex(d, e, tail, 0);
    if more { AtCut(d, e, [0x2C], rest); }
    ItemReads(ok, d, i, depth, it);
    ItemsAtStep(ok, d, i, depth, done);
  }

  lemma {:induction false} ItemsReads(ok: FloatTest, d: Bytes, i: nat, depth: int, done: seq<Value>, items: seq<Item>)
    requires items != [] && ItemsInRange(ok, items) && depth <= MAX_DEPTH && At(d, i, SpellItems(items))
    ensures i < |d| && Skip(d, i) < |d| && Starts(d[Skip(d, i)])
    ensures ItemsAt(ok, d, i, depth, done) ==
      if Fits(depth, ItemsTextDepth(items)) then Ok(Arr(done + ItemsMeaning(items)), i + |SpellItems(items)|) else TooDeep
    decreases items
  {
    hide ItemsAt, Meaning, TextDepth, InRange, At, SpellItem, SpellItems, ItemsMeaning, ItemsTextDepth, ItemsInRange, Skip, Starts;
    var it, rest := items[0], items[1..];
    assert items == [it] + rest;
    ItemsShape(ok, it, rest);
    ItemsEmpty(ok);
    var items1 := done + [Meaning(it.doc)];
    AppendOne(done, Meaning(it.doc), ItemsMeaning(rest));
    FirstItem(ok, d, i, depth, done, it, rest != [], if rest == [] then [] else SpellItems(rest));
    if rest != [] && Fits(depth, TextDepth(it.doc)) {
      ItemsReads(ok, d, i + |SpellItem(it)| + 1, depth, items1, rest);
    }
  }

  /** A key with its quotes and its colon. */
  lemma KeyReads(ok: FloatTest, d: Bytes, i: nat, depth: int, e: Entry)
    requires At(d, i, SpellKey(e))
    ensures var next := i + |SpellKey(e)|;
      && i < next <= |d| && Skip(d, i) < |d| && d[Skip(d, i)] == QUOTE
      && MemberAt(ok, d, i, depth) == match ValueAt(ok, d, Skip(d, next), depth) {
           case Fail => Fail
           case TooDeep => TooDeep
           case Ok(v, after) => Ok(Member(TextMeaning(e.key), v), after)
         }
  {
    hide Chars, ValueAt, Skip, SpellText, TextMeaning, At;
    var q := [0x22] + SpellText(e.key);
    var k := i + |e.before|;
    var c := k + |q| + |e.colon|;
    AtFits(d, i, SpellKey(e));
    AtCut(d, i, e.before + q + e.colon, [0x3A]);
    AtCut(d, i, e.before + q, e.colon);
    AtCut(d, i, e.before, q);
    QuotedReads(d, k, e.key);
    AtIndex(d, c, [0x3A], 0);
    SkipOver(d, i, e.before);
    SkipOver(d, k + |q|, e.colon);
  }

  lemma EntryReads(ok: FloatTest, d: Bytes, i: nat, depth: int, e: Entry)
    requires InRange(ok, e.item.doc) && depth <= MAX_DEPTH && At(d, i, SpellEntry(e)) && Stops(d, i + |SpellEntry(e)|)
    ensures var r := MemberAt(ok, d, i, depth);
      && i < i + |SpellEntry(e)| <= |d| && Skip(d, i) < |d| && d[Skip(d, i)] == QUOTE
      && (if Fits(depth, TextDepth(e.item.doc)) then r.Ok? && r.value == EntryMeaning(e) && Skip(d, r.next) == i + |SpellEntry(e)| else r == TooDeep)
    decreases e, 0
  {
    hide MemberAt, ValueAt, Meaning, TextMeaning, TextDepth, InRange, At, Skip, SpellItem, SpellKey, Stops;
    AtCut(d, i, SpellKey(e), SpellItem(e.item));
    KeyReads(ok, d, i, depth, e);
    ItemReads(ok, d, i + |SpellKey(e)|, depth, e.item);
  }

  lemma FirstEntry(ok: FloatTest, d: Bytes, i: nat, depth: int, done: seq<Member<Value>>, entry: Entry, more: bool, rest: Bytes)
    requires InRange(ok, entry.item.doc) && depth <= MAX_DEPTH && At(d, i, SpellEntry(entry) + if more then [0x2C] + rest else [0x7D])
    ensures var next := i + |SpellEntry(entry)| + 1; var members := Merge(done + [EntryMeaning(entry)]);
      && i < next <= |d| && Skip(d, i) < |d| && d[Skip(d, i)] == QUOTE && (more ==> At(d, next, rest))
      && MembersAt(ok, d, i, depth, Merge(done)) ==
           if !Fits(depth, TextDepth(entry.item.doc)) then TooDeep else if !more then Ok(Obj(members), next) else MembersAt(ok, d, next, depth, members)
    decreases entry, 2
  {
    hide MembersAt, MemberAt, EntryMeaning, TextDepth, InRange, At, Skip, SpellEntry, Insert, Merge;
    var tail := if more then [0x2C] + rest else [0x7D];
    var e := i + |SpellEntry(entry)|;
    AtCut(d, i, SpellEntry(entry), tail);
    AtIndex(d, e, tail, 0);
    if more { AtCut(d, e, [0x2C], rest); }
    EntryReads(ok, d, i, depth, entry);
    MembersAtStep(ok, d, i, depth, Merge(done));
    MergeSnoc(done, EntryMeaning(entry));
  }

  lemma {:induction false} EntriesReads(ok: FloatTest, d: Bytes, i: nat, depth: int, done: seq<Member<Value>>, entries: seq<Entry>)
    requires entries != [] && EntriesInRange(ok, entries) && depth <= MAX_DEPTH && At(d, i, SpellEntries(entries))
    ensures i < |d| && Skip(d, i) < |d| && d[Skip(d, i)] == QUOTE
    ensures MembersAt(ok, d, i, depth, Merge(done)) ==
      if Fits(depth, EntriesTextDepth(entries)) then Ok(Obj(Merge(done + EntriesMeaning(entries))), i + |SpellEntries(entries)|) else TooDeep
    decreases entries
  {
    hide MembersAt, EntryMeaning, TextDepth, InRange, At, SpellEntry, SpellEntries, EntriesMeaning, EntriesTextDepth, EntriesInRange, Skip, Merge;
    var e, rest := entries[0], entries[1..];
    assert entries == [e] + rest;
    EntriesShape(ok, e, rest);
    ItemsEmpty(ok);
    var done1 := done + [EntryMeaning(e)];
    AppendOne(done, EntryMeaning(e), EntriesMeaning(rest));
    FirstEntry(ok, d, i, depth, done, e, rest != [], if rest == [] then [] else SpellEntries(rest));
    if rest != [] && Fits(depth, TextDepth(e.item.doc)) {
      EntriesReads(ok, d, i + |SpellEntry(e)| + 1, depth, done1, rest);
    }
  }

  /** A whole text: a value between whitespace. */
  ghost predicate IsText(ok: FloatTest, d: Bytes, it: Item) { d == SpellItem(it) && InRange(ok, it.doc) }

  lemma TextParses(ok: FloatTest, d: Bytes, it: Item)
    requires IsText(ok, d, it)
    ensures Parse(ok, d) == if TextDepth(it.doc) <= 10000 then Outcome.Value(Meaning(it.doc)) else ErrTooDeep
  {
    hide ValueAt, Spell, Meaning, TextDepth, InRange, At, Skip, SpellItem;
    AtSelf(d);
    ItemReads(ok, d, 0, 0, it);
  }
}
