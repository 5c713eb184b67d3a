/** Parse accepts the texts of JsonText and no other: whatever it accepts is the spelling of
    a tree, which is built here along the grammar. */
module JsonAccepted {
  import opened Members
  import opened Json
  import opened JsonGrammar
  import opened JsonReading
  import opened JsonStrings
  import opened Numerals
  import opened JsonText

  /** The whitespace that Skip skips. */
  lemma {:induction false} Blanks(d: Bytes, i: nat) returns (s: Blank)
    requires i <= |d|
    ensures At(d, i, s) && Skip(d, i) == i + |s|
    decreases |d| - i
  {
    s := [];
    if i < |d| && IsSpace(d[i]) {
      var rest := Blanks(d, i + 1);
      s := [d[i]] + rest;
      AtOne(d, i);
      AtJoin(d, i, [d[i]], rest);
    }
  }

  // ---- numbers ----

  lemma NumSpelled(ok: FloatTest, d: Bytes, i: nat) returns (n: Token)
    requires i < |d| && Number(ok, d, i).Ok?
    ensures At(d, i, Render(n)) && (Classed(n) || ok(Render(n)))
    ensures Number(ok, d, i) == Ok(NumberMeaning(n), i + |Render(n)|)
  {
    hide NumberEnd, NumberValue, Render, WellFormed, Classed, NumberMeaning;
    n := TokenSpelled(d, i);
    if IsInteger(n) { IntegerSpelled(n); }
    NumberMeans(ok, n);
  }

  // ---- values ----

  /** A tree for the value read at i, if one is. */
  predicate Spells(ok: FloatTest, d: Bytes, i: nat, depth: int, doc: Doc) {
    InRange(ok, doc) && Fits(depth, TextDepth(doc)) && At(d, i, Spell(doc))
  }

  lemma AtomSpelled(ok: FloatTest, d: Bytes, i: nat, depth: int) returns (doc: Doc)
    requires depth <= MAX_DEPTH && i < |d| && d[i] != 0x7B && d[i] != 0x5B && ValueAt(ok, d, i, depth).Ok?
    ensures Spells(ok, d, i, depth, doc) && ValueAt(ok, d, i, depth) == Ok(Meaning(doc), i + |Spell(doc)|)
  {
    hide Chars, Number, At, Render, Classed, NumberMeaning, SpellText, TextMeaning, Utf8, WellFormed;
    if d[i] == QUOTE {
      var t := QuotedSpelled(d, i);
      doc := StrText(t);
    } else if d[i] == 0x74 || d[i] == 0x66 {
      doc := BoolText(d[i] == 0x74);
    } else if d[i] == 0x6E {
      doc := NullText;
    } else {
      var n := NumSpelled(ok, d, i);
      doc := NumText(n);
    }
  }

  lemma {:induction false} ValueSpelled(ok: FloatTest, d: Bytes, i: nat, depth: int) returns (doc: Doc)
    requires depth <= MAX_DEPTH && ValueAt(ok, d, i, depth).Ok?
    ensures Spells(ok, d, i, depth, doc) && ValueAt(ok, d, i, depth) == Ok(Meaning(doc), i + |Spell(doc)|)
    decreases |d| - i, 0
  {
    hide ArrayAt, ObjectAt, Chars, Number, Meaning, Spell, Spells;
    if d[i] == 0x5B {
      doc := ArrSpelled(ok, d, i, depth + 1);
    } else if d[i] == 0x7B {
      doc := ObjSpelled(ok, d, i, depth + 1);
    } else {
      doc := AtomSpelled(ok, d, i, depth);
    }
  }

  /** The value after whitespace at i, and the whitespace after it. */
  lemma {:induction false} ItemSpelled(ok: FloatTest, d: Bytes, i: nat, depth: int) returns (it: Item)
    requires i <= |d| && depth <= MAX_DEPTH && ValueAt(ok, d, Skip(d, i), depth).Ok?
    ensures InRange(ok, it.doc) && Fits(depth, TextDepth(it.doc)) && At(d, i, SpellItem(it))
    ensures var r := ValueAt(ok, d, Skip(d, i), depth); r.value == Meaning(it.doc) && Skip(d, r.next) == i + |SpellItem(it)|
    decreases |d| - i, 1
  {
    hide ValueAt, Meaning, Spell, TextDepth, InRange, At, Skip;
    var before := Blanks(d, i);
    var doc := ValueSpelled(ok, d, Skip(d, i), depth);
    var after := Blanks(d, ValueAt(ok, d, Skip(d, i), depth).next);
    it := Item(before, doc, after);
    AtJoin(d, i, before, Spell(doc));
    AtJoin(d, i, before + Spell(doc), after);
  }

  lemma {:induction false} FirstItemSpelled(ok: FloatTest, d: Bytes, i: nat, depth: int, done: seq<Value>) returns (it: Item, more: bool)
    requires i <= |d| && depth <= MAX_DEPTH && ItemsAt(ok, d, i, depth, done).Ok?
    ensures InRange(ok, it.doc) && Fits(depth, TextDepth(it.doc)) && At(d, i, SpellItem(it) + [if more then 0x2C else 0x5D])
    ensures var next := i + |SpellItem(it)| + 1; var items := done + [Meaning(it.doc)];
      i < next <= |d| && ItemsAt(ok, d, i, depth, done) == if more then ItemsAt(ok, d, next, depth, items) else Ok(Arr(items), next)
    decreases |d| - i, 2
  {
    hide ItemsAt, ValueAt, Meaning, TextDepth, InRange, At, Skip, SpellItem;
    ItemsAtStep(ok, d, i, depth, done);
    it := ItemSpelled(ok, d, i, depth);
    var end := i + |SpellItem(it)|;
    more := d[end] == 0x2C;
    AtOne(d, end);
    AtJoin(d, i, SpellItem(it), [d[end]]);
  }

  lemma {:induction false} ItemsSpelled(ok: FloatTest, d: Bytes, i: nat, depth: int, done: seq<Value>) returns (items: seq<Item>)
    requires i <= |d| && depth <= MAX_DEPTH && ItemsAt(ok, d, i, depth, done).Ok?
    ensures items != [] && ItemsInRange(ok, items) && Fits(depth, ItemsTextDepth(items)) && At(d, i, SpellItems(items))
    ensures ItemsAt(ok, d, i, depth, done) == Ok(Arr(done + ItemsMeaning(items)), i + |SpellItems(items)|)
    decreases |d| - i, 3
  {
    hide ItemsAt, Meaning, TextDepth, InRange, At, SpellItem, SpellItems, ItemsMeaning, ItemsTextDepth, ItemsInRange;
    ItemsEmpty(ok);
    var it, more := FirstItemSpelled(ok, d, i, depth, done);
    var rest: seq<Item> := [];
    if more {
      rest := ItemsSpelled(ok, d, i + |SpellItem(it)| + 1, depth, done + [Meaning(it.doc)]);
      AtJoin(d, i, SpellItem(it) + [0x2C], SpellItems(rest));
      assert (SpellItem(it) + [0x2C]) + SpellItems(rest) == SpellItem(it) + ([0x2C] + SpellItems(rest));
    }
    items := [it] + rest;
    ItemsShape(ok, it, rest);
    AppendOne(done, Meaning(it.doc), ItemsMeaning(rest));
  }

  /** The byte at i, the one after the whitespace that follows it, and that whitespace. */
  lemma BracketsSpelled(d: Bytes, i: nat) returns (blank: Blank)
    requires i < |d| && Skip(d, i + 1) < |d|
    ensures At(d, i, [d[i]] + (blank + [d[Skip(d, i + 1)]])) && Skip(d, i + 1) == i + 1 + |blank|
  {
    hide At, Skip;
    blank := Blanks(d, i + 1);
    var j := Skip(d, i + 1);
    AtOne(d, i);
    AtOne(d, j);
    AtJoin(d, i + 1, blank, [d[j]]);
    AtJoin(d, i, [d[i]], blank + [d[j]]);
  }

  lemma {:induction false} ArrSpelled(ok: FloatTest, d: Bytes, i: nat, depth: int) returns (doc: Doc)
    requires i < |d| && d[i] == 0x5B && depth <= MAX_DEPTH && ArrayAt(ok, d, i, depth).Ok?
    ensures Spells(ok, d, i, depth - 1, doc) && ArrayAt(ok, d, i, depth) == Ok(Meaning(doc), i + |Spell(doc)|)
    decreases |d| - i - 1, 4
  {
    hide ArrayAt, ItemsAt, At, Skip, Spell, Meaning, TextDepth, InRange, SpellItems, ItemsMeaning, ItemsTextDepth, ItemsInRange;
    AtOne(d, i);
    ArrayAtStep(ok, d, i, depth);
    ItemsEmpty(ok);
    var j := Skip(d, i + 1);
    if j < |d| && d[j] == 0x5D {
      var blank := BracketsSpelled(d, i);
      doc := ArrText(blank, []);
      ArrShape(ok, blank, []);
    } else {
      var items := ItemsSpelled(ok, d, i + 1, depth, []);
      doc := ArrText([], items);
      ArrShape(ok, [], items);
      AtJoin(d, i, [0x5B], SpellItems(items));
      assert [] + ItemsMeaning(items) == ItemsMeaning(items);
    }
  }

  lemma KeySpelled(ok: FloatTest, d: Bytes, i: nat, depth: int) returns (e: Entry)
    requires i <= |d| && MemberAt(ok, d, i, depth).Ok?
    ensures At(d, i, SpellKey(e))
  {
    hide Chars, ValueAt, Skip, At, SpellText, TextMeaning;
    var before := Blanks(d, i);
    var k := Skip(d, i);
    var key := QuotedSpelled(d, k);
    var q := [0x22] + SpellText(key);
    var colon := Blanks(d, k + |q|);
    AtOne(d, k + |q| + |colon|);
    AtJoin(d, i, before, q);
    AtJoin(d, i, before + q, colon);
    AtJoin(d, i, before + q + colon, [0x3A]);
    e := Entry(before, key, colon, Item([], NullText, []));
  }

  lemma {:induction false} EntrySpelled(ok: FloatTest, d: Bytes, i: nat, depth: int) returns (e: Entry)
    requires i <= |d| && depth <= MAX_DEPTH && MemberAt(ok, d, i, depth).Ok?
    ensures InRange(ok, e.item.doc) && Fits(depth, TextDepth(e.item.doc)) && At(d, i, SpellEntry(e))
    ensures var r := MemberAt(ok, d, i, depth); r.value == EntryMeaning(e) && Skip(d, r.next) == i + |SpellEntry(e)|
    decreases |d| - i, 2
  {
    hide MemberAt, ValueAt, Meaning, TextMeaning, TextDepth, InRange, At, Skip, SpellItem;
    e := KeySpelled(ok, d, i, depth);
    KeyReads(ok, d, i, depth, e);
    var next := i + |SpellKey(e)|;
    var it := ItemSpelled(ok, d, next, depth);
    e := e.(item := it);
    AtJoin(d, i, SpellKey(e), SpellItem(it));
  }

  /** The first member, and whether another one follows. */
  lemma {:induction false} FirstEntrySpelled(ok: FloatTest, d: Bytes, i: nat, depth: int, done: seq<Member<Value>>) returns (e: Entry, more: bool)
    requires i <= |d| && depth <= MAX_DEPTH && MembersAt(ok, d, i, depth, Merge(done)).Ok?
    ensures InRange(ok, e.item.doc) && Fits(depth, TextDepth(e.item.doc)) && At(d, i, SpellEntry(e) + [if more then 0x2C else 0x7D])
    ensures var next := i + |SpellEntry(e)| + 1; var members := Merge(done + [EntryMeaning(e)]);
      i < next <= |d| && MembersAt(ok, d, i, depth, Merge(done)) == if more then MembersAt(ok, d, next, depth, members) else Ok(Obj(members), next)
    decreases |d| - i, 3
  {
    hide MembersAt, MemberAt, EntryMeaning, TextDepth, InRange, At, Skip, SpellEntry, Insert, Merge;
    MembersAtStep(ok, d, i, depth, Merge(done));
    e := EntrySpelled(ok, d, i, depth);
    var end := i + |SpellEntry(e)|;
    more := d[end] == 0x2C;
    MergeSnoc(done, EntryMeaning(e));
    AtOne(d, end);
    AtJoin(d, i, SpellEntry(e), [d[end]]);
  }

  lemma {:induction false} EntriesSpelled(ok: FloatTest, d: Bytes, i: nat, depth: int, done: seq<Member<Value>>) returns (entries: seq<Entry>)
    requires i <= |d| && depth <= MAX_DEPTH && MembersAt(ok, d, i, depth, Merge(done)).Ok?
    ensures entries != [] && EntriesInRange(ok, entries) && Fits(depth, EntriesTextDepth(entries)) && At(d, i, SpellEntries(entries))
    ensures MembersAt(ok, d, i, depth, Merge(done)) == Ok(Obj(Merge(done + EntriesMeaning(entries))), i + |SpellEntries(entries)|)
    decreases |d| - i, 4
  {
    hide MembersAt, EntryMeaning, TextDepth, InRange, At, SpellEntry, Merge, SpellEntries, EntriesMeaning, EntriesTextDepth, EntriesInRange;
    ItemsEmpty(ok);
    var e, more := FirstEntrySpelled(ok, d, i, depth, done);
    var rest: seq<Entry> := [];
    if more {
      rest := EntriesSpelled(ok, d, i + |SpellEntry(e)| + 1, depth, done + [EntryMeaning(e)]);
      AtJoin(d, i, SpellEntry(e) + [0x2C], SpellEntries(rest));
      assert (SpellEntry(e) + [0x2C]) + SpellEntries(rest) == SpellEntry(e) + ([0x2C] + SpellEntries(rest));
    }
    entries := [e] + rest;
    EntriesShape(ok, e, rest);
    AppendOne(done, EntryMeaning(e), EntriesMeaning(rest));
  }

  lemma {:induction false} ObjSpelled(ok: FloatTest, d: Bytes, i: nat, depth: int) returns (doc: Doc)
    requires i < |d| && d[i] == 0x7B && depth <= MAX_DEPTH && ObjectAt(ok, d, i, depth).Ok?
    ensures Spells(ok, d, i, depth - 1, doc) && ObjectAt(ok, d, i, depth) == Ok(Meaning(doc), i + |Spell(doc)|)
    decreases |d| - i - 1, 5
  {
    hide ObjectAt, MembersAt, Merge, At, Skip, Spell, Meaning, TextDepth, InRange, SpellEntries, EntriesMeaning, EntriesTextDepth, EntriesInRange;
    AtOne(d, i);
    ObjectAtStep(ok, d, i, depth);
    MergeNone();
    ItemsEmpty(ok);
    var j := Skip(d, i + 1);
    if j < |d| && d[j] == 0x7D {
      var blank := BracketsSpelled(d, i);
      doc := ObjText(blank, []);
      ObjShape(ok, blank, []);
    } else {
      var entries := EntriesSpelled(ok, d, i + 1, depth, []);
      doc := ObjText([], entries);
      ObjShape(ok, [], entries);
      AtJoin(d, i, [0x7B], SpellEntries(entries));
      assert [] + EntriesMeaning(entries) == EntriesMeaning(entries);
    }
  }

  // ---- the theorem ----

  /** Parse accepts a text exactly if a tree no deeper than MaxDepth spells it, and returns
      what that tree means; a text spelled by a deeper tree is reported as too deep. */
  lemma ParseDecides(ok: FloatTest, d: Bytes, v: Value)
    ensures Parse(ok, d) == Outcome.Value(v) <==>
      exists it: Item :: IsText(ok, d, it) && TextDepth(it.doc) <= 10000 && Meaning(it.doc) == v
  {
    hide ValueAt, Spell, Meaning, TextDepth, InRange, At, Skip;
    if Parse(ok, d) == Outcome.Value(v) {
      var it := ItemSpelled(ok, d, 0, 0);
      WholeText(d, it);
      assert IsText(ok, d, it);
    }
    forall it: Item | IsText(ok, d, it) && TextDepth(it.doc) <= 10000 && Meaning(it.doc) == v
      ensures Parse(ok, d) == Outcome.Value(v)
    {
      TextParses(ok, d, it);
    }
  }

  lemma WholeText(d: Bytes, it: Item)
    requires At(d, 0, SpellItem(it)) && |SpellItem(it)| == |d|
    ensures d == SpellItem(it)
  {}

}
