/** The projection itself (v2/update_projection.go), over Go slices: it computes what module
    Updates says, and later updates never change a value it returned or was given. */
module UpdateProjection {
  import opened Options
  import opened GoSlices
  import opened Updates
  import opened UpdateHistory

  /** Where the projection keeps a slice. The output of a terminal is its content here. */
  datatype Slot = Content(ref: Ref) | Notices | Background

  datatype Stored = Stored(fields: Fields, mark: Mark)

  /** s reaches no further than e. */
  ghost predicate Within(s: Slice, e: Slice) {
    s.Slice? && e.Slice? && s.arr == e.arr && e.off <= s.off && s.off + s.cap <= e.off + e.cap
  }

  function Lookup(slices: map<Slot, Slice>, slot: Slot): Slice { if slot in slices then slices[slot] else Nil }

  ghost predicate Kept(s: Slice, own: set<array<Item>>, arrays: set<array<Item>>) {
    Wf(s) && Array(s) <= arrays && (!Full(s) ==> Array(s) <= own)
  }

  /** No slice can grow into elements that another one, or one outside, can reach; only
      arrays of the projection's own are grown into. */
  ghost predicate Coherent(slices: map<Slot, Slice>, exposed: set<Slice>, own: set<array<Item>>, arrays: set<array<Item>>) {
    && own <= arrays
    && (forall slot :: slot in slices ==> Kept(slices[slot], own, arrays))
    && (forall s, t :: s in slices && t in slices && s != t ==> Behind(slices[s], slices[t]))
    && (forall e :: e in exposed ==> Wf(e) && Array(e) <= arrays)
    && (forall e, t :: e in exposed && t in slices ==> Behind(e, slices[t]))
  }

  /** r may stand in the slot. */
  ghost predicate Admissible(slices: map<Slot, Slice>, exposed: set<Slice>, own: set<array<Item>>, arrays: set<array<Item>>, slot: Slot, r: Slice) {
    && Kept(r, own, arrays)
    && (forall t :: t in slices && t != slot ==> Behind(r, slices[t]) && Behind(slices[t], r))
    && (forall e :: e in exposed ==> Behind(e, r))
  }

  lemma PutKeeps(slices: map<Slot, Slice>, exposed: set<Slice>, own: set<array<Item>>, arrays: set<array<Item>>, slot: Slot, r: Slice)
    requires Coherent(slices, exposed, own, arrays) && Admissible(slices, exposed, own, arrays, slot, r)
    ensures Coherent(slices[slot := r], exposed, own, arrays)
  {
    hide Behind, Kept, Wf;
    var after := slices[slot := r];
    forall s, t | s in after && t in after && s != t ensures Behind(after[s], after[t]) {}
  }

  /** More arrays, its own or not, change nothing. */
  lemma MoreArrays(slices: map<Slot, Slice>, exposed: set<Slice>, own: set<array<Item>>, arrays: set<array<Item>>, more: set<array<Item>>)
    requires Coherent(slices, exposed, own, arrays)
    ensures Coherent(slices, exposed, own + more, arrays + more) && Coherent(slices, exposed, own, arrays + more)
  {
    hide Behind, Wf;
  }

  /** A slice grown in place may stand where it stood. */
  lemma GrownFits(slices: map<Slot, Slice>, exposed: set<Slice>, own: set<array<Item>>, arrays: set<array<Item>>, slot: Slot, n: nat)
    requires Coherent(slices, exposed, own, arrays) && Lookup(slices, slot).Slice? && Room(Lookup(slices, slot), n)
    ensures Admissible(slices, exposed, own, arrays, slot, slices[slot].(len := slices[slot].len + n))
  {
    var s := slices[slot];
    var r := s.(len := s.len + n);
    assert Kept(s, own, arrays);
    forall t | t in slices && t != slot ensures Behind(r, slices[t]) && Behind(slices[t], r) {
      assert Behind(s, slices[t]) && Behind(slices[t], s);
    }
    forall e | e in exposed ensures Behind(e, r) { assert Behind(e, s); }
  }

  /** A slice of a new array may stand anywhere. */
  lemma NewFits(slices: map<Slot, Slice>, exposed: set<Slice>, own: set<array<Item>>, arrays: set<array<Item>>, slot: Slot, r: Slice)
    requires Coherent(slices, exposed, own, arrays) && Wf(r) && Array(r) <= own && Array(r) !! (set t | t in slices && slices[t].Slice? :: slices[t].arr)
    requires Array(r) !! (set e | e in exposed && e.Slice? :: e.arr)
    ensures Admissible(slices, exposed, own, arrays, slot, r)
  {
    if r.Slice? {
      forall t | t in slices && slices[t].Slice? ensures slices[t].arr != r.arr {}
      forall e | e in exposed && e.Slice? ensures e.arr != r.arr {}
    }
  }

  /** A slice without capacity left may stand anywhere, if no slice can grow into it. */
  lemma FullFits(slices: map<Slot, Slice>, exposed: set<Slice>, own: set<array<Item>>, arrays: set<array<Item>>, slot: Slot, r: Slice)
    requires Coherent(slices, exposed, own, arrays) && Wf(r) && Full(r) && Array(r) <= arrays
    requires forall t :: t in slices && t != slot ==> Behind(r, slices[t])
    ensures Admissible(slices, exposed, own, arrays, slot, r)
  {}

  /** What a caller may pass cannot be grown into. */
  lemma GivenBehind(slices: map<Slot, Slice>, exposed: set<Slice>, own: set<array<Item>>, arrays: set<array<Item>>, r: Slice, t: Slot)
    requires Coherent(slices, exposed, own, arrays) && Given(r, exposed, own) && t in slices
    ensures Behind(r, slices[t])
  {
    assert Kept(slices[t], own, arrays);
    if r.Slice? && r.arr in own {
      var e :| e in exposed && Within(r, e);
      assert Behind(e, slices[t]);
    }
  }

  /** The slices outside, and those in the other slots. */
  ghost function Others(slices: map<Slot, Slice>, exposed: set<Slice>, slot: Slot): set<Slice> {
    exposed + set t | t in slices && t != slot :: slices[t]
  }

  /** None of them reaches what the slot's slice grows into. */
  lemma NoneReaches(slices: map<Slot, Slice>, exposed: set<Slice>, own: set<array<Item>>, arrays: set<array<Item>>, slot: Slot)
    requires Coherent(slices, exposed, own, arrays)
    ensures forall e :: e in Others(slices, exposed, slot) ==> Wf(e) && Array(e) <= arrays && Behind(e, Lookup(slices, slot))
    ensures forall t :: t != slot ==> Lookup(slices, t) == Nil || Lookup(slices, t) in Others(slices, exposed, slot)
    ensures forall e :: e in exposed ==> e in Others(slices, exposed, slot)
  {
    hide Kept;
    forall e | e in Others(slices, exposed, slot) ensures Wf(e) && Array(e) <= arrays && Behind(e, Lookup(slices, slot)) {
      if e !in exposed {
        var t :| t in slices && t != slot && e == slices[t];
        AtKept(slices, exposed, own, arrays, t);
      }
    }
  }

  lemma AtKept(slices: map<Slot, Slice>, exposed: set<Slice>, own: set<array<Item>>, arrays: set<array<Item>>, slot: Slot)
    requires Coherent(slices, exposed, own, arrays)
    ensures Kept(Lookup(slices, slot), own, arrays)
    ensures Wf(Lookup(slices, slot)) && Array(Lookup(slices, slot)) <= arrays
    ensures !Full(Lookup(slices, slot)) ==> Array(Lookup(slices, slot)) <= own
  {}

  /** The array a growing slice moved to, if it did. */
  ghost function Added(s: Slice, n: nat, r: Slice): set<array<Item>> { if Room(s, n) then {} else Array(r) }

  /** A slice that grew, in place or into a new array, may stand where it stood. */
  lemma GrowthKeeps(slices: map<Slot, Slice>, exposed: set<Slice>, own: set<array<Item>>, arrays: set<array<Item>>, slot: Slot, n: nat, r: Slice)
    requires Coherent(slices, exposed, own, arrays) && Wf(r)
    requires var s := Lookup(slices, slot);
      if Room(s, n) then r == (if s.Slice? then s.(len := s.len + n) else Nil) else r.Slice? && r.arr !in arrays
    ensures var more := Added(Lookup(slices, slot), n, r); Coherent(slices[slot := r], exposed, own + more, arrays + more)
  {
    hide Coherent, Admissible, Wf;
    var s := Lookup(slices, slot);
    var more := Added(s, n, r);
    MoreArrays(slices, exposed, own, arrays, more);
    if !Room(s, n) {
      Outside(slices, exposed, own, arrays);
      NewFits(slices, exposed, own + more, arrays + more, slot, r);
    } else if s.Slice? {
      GrownFits(slices, exposed, own, arrays, slot, n);
      assert own + more == own && arrays + more == arrays;
    } else {
      NilFits(slices, exposed, own + more, arrays + more, slot);
    }
    PutKeeps(slices, exposed, own + more, arrays + more, slot, r);
  }

  lemma Outside(slices: map<Slot, Slice>, exposed: set<Slice>, own: set<array<Item>>, arrays: set<array<Item>>)
    requires Coherent(slices, exposed, own, arrays)
    ensures (set t | t in slices && slices[t].Slice? :: slices[t].arr) <= arrays
    ensures (set e | e in exposed && e.Slice? :: e.arr) <= arrays
  {
    forall t | t in slices && slices[t].Slice? ensures slices[t].arr in arrays { assert Kept(slices[t], own, arrays); }
  }

  /** A slice nothing grows into may be returned or given. */
  lemma ExposeKeeps(slices: map<Slot, Slice>, exposed: set<Slice>, own: set<array<Item>>, arrays: set<array<Item>>, s: Slice)
    requires Coherent(slices, exposed, own, arrays) && Wf(s) && Array(s) <= arrays
    requires forall t :: t in slices ==> Behind(s, slices[t])
    ensures Coherent(slices, exposed + {s}, own, arrays)
  {
    hide Behind, Wf, Kept;
  }

  /** Clipping only makes a slice reach less. */
  lemma ClipBehind(s: Slice, t: Slice)
    requires Wf(s) && Wf(t)
    ensures Behind(s, t) ==> Behind(Clip(s), t)
    ensures Behind(Clip(t), t) && Array(Clip(s)) == Array(s)
  {}

  /** A slot's slice, clipped, is behind every slot's slice. */
  lemma SnapshotBehind(slices: map<Slot, Slice>, exposed: set<Slice>, own: set<array<Item>>, arrays: set<array<Item>>, slot: Slot, t: Slot)
    requires Coherent(slices, exposed, own, arrays) && t in slices && Wf(Lookup(slices, slot))
    ensures Behind(Clip(Lookup(slices, slot)), slices[t])
  {
    hide Kept, Behind;
    AtKept(slices, exposed, own, arrays, t);
    ClipBehind(Lookup(slices, slot), slices[t]);
    if slot == t { ClipBehind(slices[t], slices[t]); } else if slot !in slices { assert Behind(Nil, slices[t]) by { NilBehind(slices[t]); } }
  }

  lemma DrainedBehind(before: map<Slot, Slice>, exposed: set<Slice>, own: set<array<Item>>, arrays: set<array<Item>>, t: Slot)
    requires Coherent(before, exposed, own, arrays) && t in before[Notices := Nil]
    ensures Behind(Lookup(before, Notices), before[Notices := Nil][t])
  {}

  lemma ClipElements(s: Slice)
    requires Wf(s)
    ensures Elements(Clip(s)) == Elements(s) && Array(Clip(s)) == Array(s)
  {}

  lemma ClipNil(s: Slice)
    requires Wf(s)
    ensures Full(Clip(s))
  {}

  lemma NilBehind(t: Slice)
    ensures Behind(Nil, t)
  {}

  lemma NilFits(slices: map<Slot, Slice>, exposed: set<Slice>, own: set<array<Item>>, arrays: set<array<Item>>, slot: Slot)
    requires Coherent(slices, exposed, own, arrays)
    ensures Admissible(slices, exposed, own, arrays, slot, Nil)
  {}

  /** A slice a caller may pass: its array is foreign, or it lies within a slice that was
      returned or given before. */
  ghost predicate Given(s: Slice, exposed: set<Slice>, own: set<array<Item>>) {
    Wf(s) && (s.Slice? && s.arr in own ==> exists e :: e in exposed && Within(s, e))
  }

  ghost predicate GivenOf(u: Update<Slice>, exposed: set<Slice>, own: set<array<Item>>) {
    && (u.Upsert? && u.content.Put? ==> Given(u.content.value, exposed, own))
    && (u.State? && u.background.Put? ==> Given(u.background.value, exposed, own))
  }

  ghost predicate TakenOf(u: Update<Slice>, exposed: set<Slice>) {
    && (u.Upsert? && u.content.Put? ==> u.content.value in exposed)
    && (u.State? && u.background.Put? ==> u.background.value in exposed)
  }

  lemma GivenWf(s: Slice, exposed: set<Slice>, own: set<array<Item>>)
    requires Given(s, exposed, own)
    ensures Wf(s)
  {}

  lemma ChangeTwice(v: View, ref: Ref)
    ensures forall e, f :: Change(Change(v, ref, e), ref, f) == Change(v, ref, f)
  {
    forall e, f ensures Change(Change(v, ref, e), ref, f) == Change(v, ref, f) {
      assert v.entities[ref := e][ref := f] == v.entities[ref := f];
    }
  }

  /** What a patch says, its collection read now. */
  ghost function Read(p: Patch<Slice>): Patch<seq<Item>>
    requires p.Put? ==> Wf(p.value)
    reads if p.Put? then Array(p.value) else {}
  {
    match p
    case Unset => Unset
    case Null => Null
    case Put(s) => Put(Elements(s))
  }

  ghost predicate WfIn(u: Update<Slice>) {
    && (u.Upsert? && u.content.Put? ==> Wf(u.content.value))
    && (u.State? && u.background.Put? ==> Wf(u.background.value))
  }

  ghost function ArraysIn(u: Update<Slice>): set<array<Item>> {
    (if u.Upsert? && u.content.Put? then Array(u.content.value) else {})
    + if u.State? && u.background.Put? then Array(u.background.value) else {}
  }

  /** An update with its collections read now. */
  ghost function Plain(u: Update<Slice>): Update<seq<Item>>
    requires WfIn(u)
    reads ArraysIn(u)
  {
    match u
    case Upsert(ref, fields, content) => Upsert(ref, fields, Read(content))
    case Chunk(ref, item) => Chunk(ref, item)
    case TerminalUpdate(id, fields, output) => TerminalUpdate(id, fields, output)
    case TerminalChunk(id, data) => TerminalChunk(id, data)
    case SessionInfo(fields) => SessionInfo(fields)
    case Usage(cost, report) => Usage(cost, report)
    case Notice(item) => Notice(item)
    case State(idle, stopReason, failure, background) => State(idle, stopReason, failure, Read(background))
    case Unknown => Unknown
  }

  class Projection {
    const agentTextOnly: bool
    const decode: Decoder
    var timeline: seq<Ref>
    var entities: map<Ref, Stored>
    var slices: map<Slot, Slice>
    var backgroundReported: bool
    var info: Option<Fields>
    var usage: Option<UsageReport>
    /** The arrays append allocated, all arrays referred to, and every slice returned or given. */
    ghost var own: set<array<Item>>
    ghost var arrays: set<array<Item>>
    ghost var exposed: set<Slice>

    function At(slot: Slot): Slice
      reads this`slices
    {
      Lookup(slices, slot)
    }

    ghost predicate Sound()
      reads this`slices, this`exposed, this`own, this`arrays
    {
      Coherent(slices, exposed, own, arrays)
    }

    ghost predicate Valid()
      reads this
    {
      && Sound()
      && Full(At(Background)) && (!backgroundReported ==> At(Background).Nil?)
      && (forall r :: r !in entities ==> At(Content(r)).Nil?)
      && (forall r :: r in timeline ==> r in entities)
    }

    ghost function Held(slot: Slot): seq<Item>
      requires Sound()
      reads this`slices, this`exposed, this`own, this`arrays, arrays
    {
      AtKept(slices, exposed, own, arrays, slot);
      Elements(At(slot))
    }

    ghost function Abs(): View
      requires Sound()
      reads this, arrays
    {
      View(map r | r in entities :: Entity(entities[r].fields, entities[r].mark, Held(Content(r))),
           timeline, Held(Notices), if backgroundReported then Some(Held(Background)) else None, info, usage)
    }

    /** What no operation may change: the slices outside keep their elements, those within
        their capacity included. */
    twostate predicate Isolated()
      requires old(Sound()) && Sound()
      reads this, arrays
    {
      && old(exposed) <= exposed && old(own) <= own && old(arrays) <= arrays
      && fresh(own - old(own))
      && forall e :: e in old(exposed) ==> Reach(e) == old(Reach(e)) && Elements(e) == old(Elements(e))
    }

    constructor (agentTextOnly: bool, decode: Decoder)
      ensures Valid() && Abs() == NO_VIEW && exposed == {} && own == {} && arrays == {}
      ensures this.agentTextOnly == agentTextOnly && this.decode == decode
    {
      this.agentTextOnly, this.decode := agentTextOnly, decode;
      timeline, entities, slices, backgroundReported, info, usage := [], map[], map[], false, None, None;
      own, arrays, exposed := {}, {}, {};
    }

    // ---- the slices ----

    /** The slice in a slot grows by append. */
    method Extend(slot: Slot, items: seq<Item>)
      requires Sound()
      modifies this`slices, this`own, this`arrays, own
      ensures Sound() && Isolated() && exposed == old(exposed)
      ensures Held(slot) == old(Held(slot)) + items
      ensures forall s :: s != slot ==> At(s) == old(At(s)) && Held(s) == old(Held(s))
    {
      hide Coherent, Behind, Others, Wf, Kept, Elements, Reach;
      var s := At(slot);
      AtKept(slices, exposed, own, arrays, slot);
      NoneReaches(slices, exposed, own, arrays, slot);
      var r := Grow(s, items, Others(slices, exposed, slot));
      GrowthKeeps(slices, exposed, own, arrays, slot, |items|, r);
      own, arrays := own + Added(s, |items|, r), arrays + Added(s, |items|, r);
      slices := slices[slot := r];
    }

    /** A slice nothing grows into is returned, or was given. */
    ghost method Expose(s: Slice)
      requires Sound() && Wf(s) && forall t :: t in slices ==> Behind(s, slices[t])
      modifies this`arrays, this`exposed
      ensures Sound() && Isolated() && exposed == old(exposed) + {s} && Array(s) <= arrays
      ensures forall t :: Held(t) == old(Held(t))
    {
      hide Coherent, Behind, Kept, Elements, Reach, Wf, Others;
      NoneReaches(slices, exposed, own, arrays, Notices);
      MoreArrays(slices, exposed, own, arrays, Array(s));
      arrays := arrays + Array(s);
      ExposeKeeps(slices, exposed, own, arrays, s);
      exposed := exposed + {s};
    }

    /** A slice that may stand in a slot is put there. */
    method Place(slot: Slot, r: Slice)
      requires Sound() && Admissible(slices, exposed, own, arrays, slot, r)
      modifies this`slices
      ensures Sound() && Isolated() && slices == old(slices)[slot := r] && Wf(r) && Held(slot) == Elements(r)
      ensures forall t :: t != slot ==> At(t) == old(At(t)) && Held(t) == old(Held(t))
    {
      hide Coherent, Behind, Elements, Reach, Others;
      NoneReaches(slices, exposed, own, arrays, slot);
      PutKeeps(slices, exposed, own, arrays, slot, r);
      slices := slices[slot := r];
    }

    /** A collection an update carries is stored, clipped: later appends allocate. */
    method Keep(slot: Slot, s: Slice)
      requires Sound() && Given(s, exposed, own)
      modifies this`slices, this`arrays, this`exposed
      ensures Sound() && Isolated() && exposed == old(exposed) + {s} && At(slot) == Clip(s)
      ensures Held(slot) == Elements(s)
      ensures forall t :: t != slot ==> At(t) == old(At(t)) && Held(t) == old(Held(t))
    {
      hide Coherent, Admissible, Behind, Kept, Given, Elements, Reach;
      GivenWf(s, exposed, own);
      forall t | t in slices ensures Behind(s, slices[t]) && Behind(Clip(s), slices[t]) {
        GivenBehind(slices, exposed, own, arrays, s, t);
        AtKept(slices, exposed, own, arrays, t);
        ClipBehind(s, slices[t]);
      }
      ClipElements(s);
      Expose(s);
      FullFits(slices, exposed, own, arrays, slot, Clip(s));
      Place(slot, Clip(s));
    }

    /** What stands in a slot loses its spare capacity. */
    method Own(slot: Slot)
      requires Sound()
      modifies this`slices
      ensures Sound() && Isolated() && exposed == old(exposed) && Full(At(slot)) && (old(At(slot)).Nil? ==> At(slot).Nil?)
      ensures forall t :: Held(t) == old(Held(t)) && (t != slot ==> At(t) == old(At(t)))
    {
      hide Coherent, Admissible, Behind, Kept, Elements, Reach;
      AtKept(slices, exposed, own, arrays, slot);
      forall t | t in slices ensures Behind(Clip(At(slot)), slices[t]) { SnapshotBehind(slices, exposed, own, arrays, slot, t); }
      FullFits(slices, exposed, own, arrays, slot, Clip(At(slot)));
      ClipElements(At(slot));
      Place(slot, Clip(At(slot)));
    }

    method Clear(slot: Slot)
      requires Sound()
      modifies this`slices
      ensures Sound() && Isolated() && exposed == old(exposed) && At(slot).Nil? && slices == old(slices)[slot := Nil]
      ensures forall t :: t != slot ==> At(t) == old(At(t)) && Held(t) == old(Held(t))
    {
      hide Coherent, Admissible, Behind, Kept, Elements, Reach;
      NilFits(slices, exposed, own, arrays, slot);
      Place(slot, Nil);
    }

    /** Newly decoded bytes, with whatever spare capacity their array has. */
    method Install(slot: Slot, items: seq<Item>)
      requires Sound()
      modifies this`slices, this`own, this`arrays, own
      ensures Sound() && Isolated() && exposed == old(exposed)
      ensures Held(slot) == items
      ensures forall t :: t != slot ==> At(t) == old(At(t)) && Held(t) == old(Held(t))
    {
      Clear(slot);
      Extend(slot, items);
    }

    /** A snapshot of a slot, clipped. */
    method Snapshot(slot: Slot) returns (s: Slice)
      requires Sound()
      modifies this`exposed
      ensures Sound() && Isolated() && exposed == old(exposed) + {s} && Wf(s) && Full(s) && Elements(s) == Held(slot)
      ensures slices == old(slices) && forall t :: Held(t) == old(Held(t))
    {
      hide Coherent, Admissible, Behind, Kept;
      AtKept(slices, exposed, own, arrays, slot);
      s := Clip(At(slot));
      forall t | t in slices ensures Behind(s, slices[t]) { SnapshotBehind(slices, exposed, own, arrays, slot, t); }
      ExposeKeeps(slices, exposed, own, arrays, s);
      exposed := exposed + {s};
    }

    // ---- applying updates ----

    /** entity. */
    method EntityAt(ref: Ref)
      requires Valid()
      modifies this`entities, this`timeline
      ensures Valid() && Isolated() && ref in entities && Abs() == Touch(old(Abs()), ref)
      ensures entities.Keys == old(entities).Keys + {ref} && entities[ref].mark == Abs().entities[ref].mark
    {
      hide Sound, Held, At, Elements, Reach;
      if ref !in entities {
        NothingHeld(Content(ref));
        entities := entities[ref := Stored(Default(ref).fields, Omitted)];
        timeline := timeline + [ref];
      }
    }

    /** Patches the fields of a stored entity. */
    method PatchFields(ref: Ref, fields: Fields, mark: Mark)
      requires Valid() && ref in entities
      modifies this`entities
      ensures Valid() && Isolated()
      ensures Abs() == Change(old(Abs()), ref, Updates.Entity(old(Abs()).entities[ref].fields + fields, mark, old(Abs()).entities[ref].items))
      ensures entities.Keys == old(entities).Keys
    {
      hide Sound, Held, At, Elements, Reach;
      entities := entities[ref := Stored(entities[ref].fields + fields, mark)];
    }

    /** Only the items of one entity change: other slots stay. */
    ghost predicate OnlyItems(v: View, ref: Ref)
      requires Sound()
      reads this, arrays
    {
      && entities.Keys == v.entities.Keys && timeline == v.timeline && info == v.info && usage == v.usage
      && (forall r :: r in entities ==> entities[r].fields == v.entities[r].fields && entities[r].mark == v.entities[r].mark)
      && (forall r :: r in entities && r != ref ==> Held(Content(r)) == v.entities[r].items)
      && Held(Notices) == v.notices
      && v.background == if backgroundReported then Some(Held(Background)) else None
    }

    lemma ItemsChanged(v: View, ref: Ref)
      requires Sound() && OnlyItems(v, ref) && ref in v.entities
      ensures Abs() == Change(v, ref, v.entities[ref].(items := Held(Content(ref))))
    {
      hide Sound, Held;
    }

    method ExtendContent(ref: Ref, items: seq<Item>)
      requires Valid() && ref in entities
      modifies this`slices, this`own, this`arrays, own
      ensures Valid() && Isolated()
      ensures Abs() == Change(old(Abs()), ref, old(Abs()).entities[ref].(items := old(Abs()).entities[ref].items + items))
    {
      hide Sound, Held, Elements, Reach, At;
      Extend(Content(ref), items);
      ItemsChanged(old(Abs()), ref);
    }

    method OwnContent(ref: Ref)
      requires Valid() && ref in entities
      modifies this`slices
      ensures Valid() && Isolated() && Abs() == old(Abs())
    {
      hide Sound, Held, Elements, Reach, At;
      Own(Content(ref));
      ItemsChanged(old(Abs()), ref);
    }

    method ClearContent(ref: Ref)
      requires Valid() && ref in entities
      modifies this`slices
      ensures Valid() && Isolated()
      ensures Abs() == Change(old(Abs()), ref, old(Abs()).entities[ref].(items := []))
    {
      hide Sound, Held, Elements, Reach, At;
      Clear(Content(ref));
      NothingHeld(Content(ref));
      ItemsChanged(old(Abs()), ref);
    }

    method KeepContent(ref: Ref, s: Slice)
      requires Valid() && ref in entities && Given(s, exposed, own)
      modifies this`slices, this`arrays, this`exposed
      ensures Valid() && Isolated() && s in exposed && Wf(s)
      ensures Abs() == Change(old(Abs()), ref, old(Abs()).entities[ref].(items := Elements(s)))
    {
      hide Sound, Held, Elements, Reach, At, Given;
      GivenWf(s, exposed, own);
      Keep(Content(ref), s);
      ItemsChanged(old(Abs()), ref);
    }

    lemma NothingHeld(slot: Slot)
      requires Sound() && At(slot).Nil?
      ensures Held(slot) == []
    {}

    /** An upsert of a message, thought, tool call or compaction. */
    method ApplyUpsert(ref: Ref, fields: Fields, content: Patch<Slice>)
      requires Valid() && (content.Put? ==> Given(content.value, exposed, own))
      modifies this
      ensures Valid() && Isolated() && (content.Put? ==> content.value in exposed)
      ensures Abs() == Upserted(old(Abs()), ref, fields, Read(content))
    {
      hide Sound, Held, Given, Elements, Reach, At, Abs;
      if content.Put? { GivenWf(content.value, exposed, own); }
      EntityAt(ref);
      ghost var w := Abs();
      PatchFields(ref, fields, Marked(entities[ref].mark, content));
      match content
      case Unset => OwnContent(ref);
      case Null => ClearContent(ref);
      case Put(s) => KeepContent(ref, s);
      ChangeTwice(w, ref);
    }

    /** A chunk appended to the content of an entity. */
    method ApplyChunk(ref: Ref, item: Item)
      requires Valid()
      modifies this, own
      ensures Valid() && Isolated()
      ensures Abs() == Chunked(old(Abs()), ref, item)
    {
      hide Sound, Held, Elements, Reach, At, Abs;
      EntityAt(ref);
      ghost var w := Abs();
      PatchFields(ref, map[], Present);
      ExtendContent(ref, [item]);
      ChangeTwice(w, ref);
      assert w.entities[ref].fields + map[] == w.entities[ref].fields;
    }

    /** applyTerminal: an invalid output snapshot is ignored. */
    method ApplyTerminal(id: string, fields: Fields, output: Patch<string>)
      requires Valid()
      modifies this, own
      ensures Valid() && Isolated()
      ensures Abs() == TerminalApplied(decode, old(Abs()), id, fields, output)
      ensures ItemsOf(Abs(), Ref(Terminal, id)) == match output {
        case Unset => ItemsOf(old(Abs()), Ref(Terminal, id))
        case Null => []
        case Put(data) => if decode(data).Some? then decode(data).value else ItemsOf(old(Abs()), Ref(Terminal, id))
      }
    {
      hide Sound, Held, Elements, Reach, At, Abs;
      var ref := Ref(Terminal, id);
      EntityAt(ref);
      ghost var w := Abs();
      PatchFields(ref, fields, Marked(entities[ref].mark, output));
      ChangeTwice(w, ref);
      match output
      case Unset =>
      case Null => ClearContent(ref);
      case Put(data) =>
        var bytes := decode(data);
        if bytes.Some? {
          InstallContent(ref, bytes.value);
        }
    }

    method ApplyTerminalChunk(id: string, data: string)
      requires Valid()
      modifies this, own
      ensures Valid() && Isolated()
      ensures Abs() == TerminalChunked(decode, old(Abs()), id, data)
    {
      hide Sound, Held, Elements, Reach, At, Abs;
      var ref := Ref(Terminal, id);
      EntityAt(ref);
      ghost var w := Abs();
      assert w.entities[ref].items + [] == w.entities[ref].items;
      assert Change(w, ref, w.entities[ref]) == w;
      var bytes := decode(data);
      if bytes.Some? {
        ExtendContent(ref, bytes.value);
      }
    }

    method InstallContent(ref: Ref, items: seq<Item>)
      requires Valid() && ref in entities
      modifies this`slices, this`own, this`arrays, own
      ensures Valid() && Isolated()
      ensures Abs() == Change(old(Abs()), ref, old(Abs()).entities[ref].(items := items))
    {
      hide Sound, Held, Elements, Reach, At;
      Install(Content(ref), items);
      ItemsChanged(old(Abs()), ref);
    }

    method ApplyNotice(item: Item)
      requires Valid()
      modifies this`slices, this`own, this`arrays, own
      ensures Valid() && Isolated()
      ensures Abs() == old(Abs()).(notices := old(Abs()).notices + [item])
    {
      hide Sound, Held, Elements, Reach, At;
      Extend(Notices, [item]);
      assert Abs().entities == old(Abs()).entities;
    }

    /** applyBackground: a list replaces the one before; omitted or null, none is reported. */
    method ApplyBackground(background: Patch<Slice>)
      requires Valid() && (background.Put? ==> Given(background.value, exposed, own))
      modifies this`slices, this`arrays, this`exposed, this`backgroundReported
      ensures Valid() && Isolated() && (background.Put? ==> background.value in exposed)
      ensures background.Put? ==> Wf(background.value)
      ensures Abs() == old(Abs()).(background := if background.Put? then Some(Elements(background.value)) else None)
    {
      hide Valid, Sound, Held, Abs, Elements, Reach, Wf, Clip;
      if background.Put? {
        ReportBackground(background.value);
      } else {
        ForgetBackground();
      }
    }

    method ReportBackground(s: Slice)
      requires Valid() && Given(s, exposed, own)
      modifies this`slices, this`arrays, this`exposed, this`backgroundReported
      ensures Valid() && Isolated() && s in exposed && Wf(s)
      ensures Abs() == old(Abs()).(background := Some(Elements(s)))
    {
      hide Sound, Held, Elements, Reach, Given, Wf, Clip;
      GivenWf(s, exposed, own);
      Keep(Background, s);
      ClipNil(s);
      backgroundReported := true;
      assert Abs().entities == old(Abs()).entities;
    }

    method ForgetBackground()
      requires Valid()
      modifies this`slices, this`backgroundReported
      ensures Valid() && Isolated()
      ensures Abs() == old(Abs()).(background := None)
    {
      hide Sound, Held, Elements, Reach;
      Clear(Background);
      backgroundReported := false;
      assert Abs().entities == old(Abs()).entities;
    }

    /** A caller may give the collections the update carries. */
    ghost predicate GivenIn(u: Update<Slice>)
      reads this`exposed, this`own
    {
      GivenOf(u, exposed, own)
    }

    /** The collections the update carries were given. */
    ghost predicate Taken(u: Update<Slice>)
      reads this`exposed
    {
      TakenOf(u, exposed)
    }

    lemma GivenInWf(u: Update<Slice>)
      requires GivenIn(u)
      ensures WfIn(u)
    {}

    method ApplyInfo(fields: Fields)
      requires Valid()
      modifies this`info
      ensures Valid() && Isolated()
      ensures Abs() == old(Abs()).(info := Some((if old(Abs()).info.Some? then old(Abs()).info.value else map[]) + fields))
    {
      hide Sound, Held, Elements, Reach, At;
      info := Some((if info.Some? then info.value else map[]) + fields);
      assert Abs().entities == old(Abs()).entities;
    }

    /** applyUsage: an omitted cost keeps the one last reported. */
    method ApplyUsage(cost: Patch<string>, report: Fields)
      requires Valid()
      modifies this`usage
      ensures Valid() && Isolated()
      ensures Abs() == old(Abs()).(usage :=
        Some(UsageReport(if old(Abs()).usage.Some? && cost.Unset? then old(Abs()).usage.value.cost else cost, report)))
    {
      hide Sound, Held, Elements, Reach, At;
      usage := Some(UsageReport(if usage.Some? && cost.Unset? then usage.value.cost else cost, report));
      assert Abs().entities == old(Abs()).entities;
    }

    /** Apply. */
    method Apply(u: Update<Slice>)
      requires Valid() && GivenIn(u)
      modifies this, own
      ensures Valid() && Isolated()
      ensures WfIn(u) && (!(agentTextOnly && !AgentText(u)) ==> Taken(u)) && Plain(u) == old(Plain(u))
      ensures Abs() == if agentTextOnly && !AgentText(u) then old(Abs()) else Applied(decode, old(Abs()), Plain(u))
    {
      hide Sound, Held, Elements, Reach, At, Abs, Given, Wf, Upserted, Chunked, TerminalApplied, TerminalChunked;
      GivenInWf(u);
      if agentTextOnly && !AgentText(u) {
        return;
      }
      match u
      case Upsert(ref, fields, content) => ApplyUpsert(ref, fields, content);
      case Chunk(ref, item) => ApplyChunk(ref, item);
      case TerminalUpdate(id, fields, output) => ApplyTerminal(id, fields, output);
      case TerminalChunk(id, data) => ApplyTerminalChunk(id, data);
      case SessionInfo(fields) => ApplyInfo(fields);
      case Usage(cost, report) => ApplyUsage(cost, report);
      case Notice(item) => ApplyNotice(item);
      case State(_, _, _, background) => ApplyBackground(background);
      case Unknown =>
    }

    // ---- accessors ----

    /** The stored entity: its content is clipped and shares storage with the projection. */
    method Find(ref: Ref) returns (stored: Option<Stored>, content: Slice)
      requires Valid()
      modifies this`exposed
      ensures Valid() && Isolated() && Abs() == old(Abs())
      ensures stored == if ref in entities then Some(entities[ref]) else None
      ensures ref in entities ==> content in exposed && Wf(content) && Full(content) && Elements(content) == Abs().entities[ref].items
    {
      hide Sound, Held, Elements, Reach;
      if ref !in entities {
        return None, Nil;
      }
      content := Snapshot(Content(ref));
      assert Abs().entities == old(Abs()).entities;
      return Some(entities[ref]), content;
    }

    /** DrainNotices: the slice is handed over with its spare capacity, which nothing uses again. */
    method DrainNotices() returns (notices: Slice)
      requires Valid()
      modifies this`slices, this`arrays, this`exposed
      ensures Valid() && Isolated() && notices in exposed && Wf(notices)
      ensures Elements(notices) == old(Abs()).notices && Abs() == old(Abs()).(notices := [])
    {
      hide Sound, Held, Elements, Reach, Behind, Wf;
      notices := At(Notices);
      HeldWf(Notices);
      ghost var after := slices[Notices := Nil];
      forall t | t in after ensures Behind(notices, after[t]) { DrainBehind(t); }
      Clear(Notices);
      NothingHeld(Notices);
      Expose(notices);
      assert Abs().entities == old(Abs()).entities;
    }

    lemma HeldWf(slot: Slot)
      requires Sound()
      ensures Wf(At(slot)) && Held(slot) == Elements(At(slot))
    {
      AtKept(slices, exposed, own, arrays, slot);
    }

    lemma DrainBehind(t: Slot)
      requires Sound() && t in slices[Notices := Nil]
      ensures Behind(At(Notices), slices[Notices := Nil][t])
    {
      DrainedBehind(slices, exposed, own, arrays, t);
    }

    /** Background. */
    method BackgroundList() returns (work: Slice, reported: bool)
      requires Valid()
      modifies this`exposed
      ensures Valid() && Isolated() && Abs() == old(Abs()) && Wf(work) && (reported ==> work in exposed)
      ensures Abs().background == if reported then Some(Elements(work)) else None
    {
      hide Sound, Held, Elements, Reach;
      if !backgroundReported {
        return Nil, false;
      }
      work := Snapshot(Background);
      assert Abs().entities == old(Abs()).entities;
      return work, true;
    }

    /** Text: every Agent message named in the timeline is stored, so none is missing. */
    method Text() returns (text: string)
      requires Valid()
      ensures text == TextOf(Abs())
    {
      hide Sound, Held, TextOfRefs, TextOfItems;
      text := "";
      ghost var v := Abs();
      NoText(v);
      for i := 0 to |timeline|
        invariant text == TextOfRefs(v, timeline[..i])
      {
        var ref := timeline[i];
        TextSnoc(v, timeline[..i], ref);
        assert timeline[..i] + [ref] == timeline[..i + 1];
        if ref.kind.AgentMessage? {
          var items := Blocks(ref);
          var more := JoinText(items);
          text := text + more;
        }
      }
      assert timeline[..|timeline|] == timeline;
    }

    /** The content of a stored entity. */
    method Blocks(ref: Ref) returns (items: seq<Item>)
      requires Valid() && ref in entities
      ensures items == Abs().entities[ref].items
    {
      hide Coherent;
      AtKept(slices, exposed, own, arrays, Content(ref));
      items := Elements(At(Content(ref)));
    }

    /** The collections of an update count as given from here on. */
    ghost method Take(u: Update<Slice>)
      requires Valid() && GivenIn(u)
      modifies this`arrays, this`exposed
      ensures Valid() && Isolated() && Taken(u) && Abs() == old(Abs()) && own == old(own)
    {
      hide Sound, Held, Elements, Reach, Given;
      if u.Upsert? && u.content.Put? { TakeSlice(u.content.value); }
      if u.State? && u.background.Put? { TakeSlice(u.background.value); }
    }

    ghost method TakeSlice(s: Slice)
      requires Valid() && Given(s, exposed, own)
      modifies this`arrays, this`exposed
      ensures Valid() && Isolated() && exposed == old(exposed) + {s} && Abs() == old(Abs()) && own == old(own)
    {
      hide Sound, Held, Behind, Given, Wf, Elements, Reach;
      ValidIsSound();
      GivenWf(s, exposed, own);
      forall t | t in slices ensures Behind(s, slices[t]) { SoundGivenBehind(s, t); }
      Expose(s);
      assert Abs().entities == old(Abs()).entities;
    }

    lemma SoundGivenBehind(s: Slice, t: Slot)
      requires Sound() && Given(s, exposed, own) && t in slices
      ensures Behind(s, slices[t])
    {
      GivenBehind(slices, exposed, own, arrays, s, t);
    }

    ghost method TakeAll(us: seq<Update<Slice>>)
      requires Valid() && forall j :: 0 <= j < |us| ==> GivenIn(us[j])
      modifies this`arrays, this`exposed
      ensures Valid() && Isolated() && Abs() == old(Abs()) && own == old(own)
      ensures forall j :: 0 <= j < |us| ==> Taken(us[j])
    {
      hide Valid, Sound, Abs, Held, Elements, Reach, GivenOf, TakenOf;
      ValidIsSound();
      var i := 0;
      while i < |us|
        invariant i <= |us| && Valid() && Sound() && Isolated() && Abs() == old(Abs()) && own == old(own)
        invariant forall j :: 0 <= j < i ==> Taken(us[j])
        invariant forall j :: 0 <= j < |us| ==> GivenIn(us[j])
      {
        ghost var was := exposed;
        Take(us[i]);
        assert was <= exposed;
        forall j | 0 <= j < |us| ensures GivenIn(us[j]) && (j < i ==> Taken(us[j])) {
          GivenInMore(us[j], was, exposed, own);
          TakenMore(us[j], was, exposed);
        }
        ValidIsSound();
        i := i + 1;
      }
    }

    /** Any list of updates: the projection folds them, and no slice that was returned or
        given changes, the collections of the updates themselves included. */
    method ApplyAll(us: seq<Update<Slice>>)
      requires Valid() && forall j :: 0 <= j < |us| ==> GivenIn(us[j])
      modifies this, own
      ensures Valid() && Isolated() && forall j :: 0 <= j < |us| ==> Taken(us[j]) && WfIn(us[j])
      ensures forall j :: 0 <= j < |us| ==> Plain(us[j]) == old(Plain(us[j]))
      ensures var plain := seq(|us|, j requires 0 <= j < |us| => old(Plain(us[j])));
        Abs() == Fold(decode, agentTextOnly, old(Abs()), plain) && Accounted(decode, agentTextOnly, old(Abs()), plain, Abs())
    {
      hide Valid, Sound, Abs, Held, Elements, Reach, GivenOf, Applied, AgentText, Accounted;
      forall j | 0 <= j < |us| ensures WfIn(us[j]) { GivenInWf(us[j]); }
      ValidIsSound();
      ghost var plain := seq(|us|, j requires 0 <= j < |us| => old(Plain(us[j])));
      ghost var v := Abs();
      TakeAll(us);
      ValidIsSound();
      for i := 0 to |us|
        invariant Valid() && Sound() && Isolated() && Abs() == Fold(decode, agentTextOnly, v, plain[..i])
        invariant forall j :: 0 <= j < |us| ==> Taken(us[j]) && Plain(us[j]) == plain[j]
      {
        TakenGiven(us[i]);
        ghost var was := exposed;
        Apply(us[i]);
        ValidIsSound();
        forall j | 0 <= j < |us| ensures Taken(us[j]) { TakenMore(us[j], was, exposed); }
        forall j | 0 <= j < |us| ensures Plain(us[j]) == plain[j] { }
        PlainKeepsKind(us[i]);
        FoldStep(decode, agentTextOnly, v, plain, i);
      }
      assert plain[..|us|] == plain;
      FoldIsAccounted(decode, agentTextOnly, v, plain);
    }

    lemma TakenGiven(u: Update<Slice>)
      requires Sound() && Taken(u)
      ensures GivenIn(u)
    {
      TakenIsGiven(u, slices, exposed, own, arrays);
    }

    lemma ValidIsSound()
      requires Valid()
      ensures Sound()
    {}
  }

  /** The text blocks of a message, joined. */
  method JoinText(items: seq<Item>) returns (text: string)
    ensures text == TextOfItems(items)
  {
    text := "";
    for k := 0 to |items|
      invariant text == TextOfItems(items[..k])
    {
      assert items[..k + 1][..k] == items[..k];
      if items[k].Text? {
        text := text + items[k].text;
      }
    }
    assert items[..|items|] == items;
  }

  lemma FoldStep(decode: Decoder, only: bool, v: View, us: seq<Update<seq<Item>>>, i: nat)
    requires i < |us|
    ensures Fold(decode, only, v, us[..i + 1]) == (var w := Fold(decode, only, v, us[..i]);
      if only && !AgentText(us[i]) then w else Applied(decode, w, us[i]))
  {
    assert us[..i + 1][..i] == us[..i];
  }

  lemma PlainKeepsKind(u: Update<Slice>)
    requires WfIn(u)
    ensures AgentText(Plain(u)) == AgentText(u)
  {}

  lemma GivenInMore(u: Update<Slice>, exposed: set<Slice>, more: set<Slice>, own: set<array<Item>>)
    requires GivenOf(u, exposed, own) && exposed <= more
    ensures GivenOf(u, more, own)
  {}

  lemma TakenMore(u: Update<Slice>, exposed: set<Slice>, more: set<Slice>)
    requires exposed <= more
    ensures TakenOf(u, exposed) ==> TakenOf(u, more)
  {}

  lemma TakenIsGiven(u: Update<Slice>, slices: map<Slot, Slice>, exposed: set<Slice>, own: set<array<Item>>, arrays: set<array<Item>>)
    requires Coherent(slices, exposed, own, arrays) && TakenOf(u, exposed)
    ensures GivenOf(u, exposed, own) && ArraysIn(u) <= arrays
  {
    forall s | s in exposed ensures Given(s, exposed, own) && Array(s) <= arrays {
      if s.Slice? { assert Within(s, s); }
    }
  }
}
