/** What a projection shows, told from the list of updates alone (v2/update_projection.go):
    every field is its last patch, content is the last collection set and the chunks after it,
    and what a session reports is its last report. */
module UpdateHistory {
  import opened Options
  import opened GoSlices
  import opened Updates

  type List = seq<Update<seq<Item>>>

  /** The projection takes the update; one for text alone takes those of Agent messages. */
  predicate Taken(only: bool, u: Update<seq<Item>>) {
    only ==> (u.Upsert? && u.ref.kind == AgentMessage) || (u.Chunk? && u.ref.kind == AgentMessage)
  }

  predicate Names(u: Update<seq<Item>>, ref: Ref) {
    match u
    case Upsert(r, _, _) => r == ref
    case Chunk(r, _) => r == ref
    case TerminalUpdate(id, _, _) => ref == Ref(Terminal, id)
    case TerminalChunk(id, _) => ref == Ref(Terminal, id)
    case _ => false
  }

  // ---- content ----

  /** The collection or snapshot u sets for ref: null is none, and what does not decode is ignored. */
  function Sets(decode: Decoder, u: Update<seq<Item>>, ref: Ref): Option<seq<Item>> {
    match u
    case Upsert(r, _, Null) => if r == ref then Some([]) else None
    case Upsert(r, _, Put(items)) => if r == ref then Some(items) else None
    case TerminalUpdate(id, _, Null) => if ref == Ref(Terminal, id) then Some([]) else None
    case TerminalUpdate(id, _, Put(data)) => if ref == Ref(Terminal, id) then decode(data) else None
    case _ => None
  }

  /** The items u adds to ref. */
  function Adds(decode: Decoder, u: Update<seq<Item>>, ref: Ref): seq<Item> {
    match u
    case Chunk(r, item) => if r == ref then [item] else []
    case TerminalChunk(id, data) =>
      if ref == Ref(Terminal, id) then (match decode(data) case Some(bytes) => bytes case None => []) else []
    case _ => []
  }

  function NowAdded(decode: Decoder, only: bool, u: Update<seq<Item>>, ref: Ref): seq<Item> { if Taken(only, u) then Adds(decode, u, ref) else [] }

  function AllAdded(decode: Decoder, only: bool, us: List, ref: Ref): seq<Item> {
    if us == [] then []
    else AllAdded(decode, only, us[..|us| - 1], ref) + NowAdded(decode, only, us[|us| - 1], ref)
  }

  predicate SetsAt(decode: Decoder, only: bool, us: List, ref: Ref, k: nat)
    requires k < |us|
  {
    Taken(only, us[k]) && Sets(decode, us[k], ref).Some?
  }

  ghost predicate LastSet(decode: Decoder, only: bool, us: List, ref: Ref, j: nat) {
    j < |us| && SetsAt(decode, only, us, ref, j) && forall k :: j < k < |us| ==> !SetsAt(decode, only, us, ref, k)
  }

  function ItemsOf(v: View, ref: Ref): seq<Item> { if ref in v.entities then v.entities[ref].items else [] }

  /** The items of ref: the last collection set, then what was added since. */
  ghost predicate ContentAccounted(decode: Decoder, only: bool, v: View, us: List, w: View, ref: Ref) {
    && (forall j: nat :: LastSet(decode, only, us, ref, j) ==>
          ItemsOf(w, ref) == Sets(decode, us[j], ref).value + AllAdded(decode, only, us[j + 1..], ref))
    && ((forall k :: 0 <= k < |us| ==> !SetsAt(decode, only, us, ref, k)) ==> ItemsOf(w, ref) == ItemsOf(v, ref) + AllAdded(decode, only, us, ref))
  }

  lemma UpsertItems(decode: Decoder, v: View, r: Ref, fields: Fields, content: Patch<seq<Item>>, ref: Ref)
    ensures ItemsOf(Upserted(v, r, fields, content), ref) == SetOr(decode, v, Upsert(r, fields, content), ref)
  {}

  lemma TerminalItems(decode: Decoder, v: View, id: string, fields: Fields, output: Patch<string>, ref: Ref)
    ensures ItemsOf(TerminalApplied(decode, v, id, fields, output), ref) == SetOr(decode, v, TerminalUpdate(id, fields, output), ref)
  {}

  lemma OtherItems(decode: Decoder, v: View, u: Update<seq<Item>>, ref: Ref)
    requires !u.Upsert? && !u.TerminalUpdate?
    ensures ItemsOf(Applied(decode, v, u), ref) == ItemsOf(v, ref) + Adds(decode, u, ref)
  {}

  function SetOr(decode: Decoder, v: View, u: Update<seq<Item>>, ref: Ref): seq<Item> {
    if Sets(decode, u, ref).Some? then Sets(decode, u, ref).value else ItemsOf(v, ref)
  }

  /** One update taken. */
  lemma StepItems(decode: Decoder, v: View, u: Update<seq<Item>>, ref: Ref)
    ensures ItemsOf(Applied(decode, v, u), ref) == SetOr(decode, v, u, ref) + Adds(decode, u, ref)
  {
    hide Upserted, TerminalApplied, ItemsOf;
    match u
    case Upsert(r, fields, content) => UpsertItems(decode, v, r, fields, content, ref);
    case TerminalUpdate(id, fields, output) => TerminalItems(decode, v, id, fields, output, ref);
    case _ => OtherItems(decode, v, u, ref);
  }

  lemma AddedSnoc(decode: Decoder, only: bool, us: List, u: Update<seq<Item>>, ref: Ref)
    ensures AllAdded(decode, only, us + [u], ref) == AllAdded(decode, only, us, ref) + NowAdded(decode, only, u, ref)
  {
    assert (us + [u])[..|us|] == us;
  }

  lemma SetsAddsNothing(decode: Decoder, u: Update<seq<Item>>, ref: Ref)
    ensures Sets(decode, u, ref).Some? ==> Adds(decode, u, ref) == []
  {}

  /** The last update of a list. */
  lemma StepContent(decode: Decoder, only: bool, v: View, us: List, ref: Ref)
    requires us != []
    ensures var n := |us| - 1; var before := ItemsOf(Fold(decode, only, v, us[..n]), ref);
      && ItemsOf(Fold(decode, only, v, us), ref) ==
           (if SetsAt(decode, only, us, ref, n) then Sets(decode, us[n], ref).value else before + NowAdded(decode, only, us[n], ref))
      && (SetsAt(decode, only, us, ref, n) ==> NowAdded(decode, only, us[n], ref) == [])
  {
    hide Applied, Sets, Adds, Taken, ItemsOf;
    var n := |us| - 1;
    LastUpdate(decode, only, v, us);
    StepItems(decode, Fold(decode, only, v, us[..n]), us[n], ref);
    SetsAddsNothing(decode, us[n], ref);
  }

  lemma SetsEarlier(decode: Decoder, only: bool, us: List, ref: Ref, n: nat)
    requires n < |us|
    ensures forall k: nat :: k < n ==> SetsAt(decode, only, us[..n], ref, k) == SetsAt(decode, only, us, ref, k)
    ensures forall j: nat :: j < n && LastSet(decode, only, us, ref, j) ==> LastSet(decode, only, us[..n], ref, j) && !SetsAt(decode, only, us, ref, n)
  {
    hide Sets, Taken;
  }

  lemma ContentAt(decode: Decoder, only: bool, v: View, us: List, ref: Ref, j: nat)
    requires us != [] && ContentAccounted(decode, only, v, us[..|us| - 1], Fold(decode, only, v, us[..|us| - 1]), ref)
    requires LastSet(decode, only, us, ref, j)
    ensures ItemsOf(Fold(decode, only, v, us), ref) == Sets(decode, us[j], ref).value + AllAdded(decode, only, us[j + 1..], ref)
  {
    hide Fold, Sets, NowAdded, ItemsOf, AllAdded, Taken, SetsAt, LastSet, ContentAccounted;
    LastIsSet(decode, only, us, ref, j);
    if j == |us| - 1 {
      StepContent(decode, only, v, us, ref);
      assert us[j + 1..] == [];
      NoneAdded(decode, only, ref);
    } else {
      ContentEarlier(decode, only, v, us, ref, j);
    }
  }

  lemma ContentEarlier(decode: Decoder, only: bool, v: View, us: List, ref: Ref, j: nat)
    requires us != [] && ContentAccounted(decode, only, v, us[..|us| - 1], Fold(decode, only, v, us[..|us| - 1]), ref)
    requires j < |us| - 1 && LastSet(decode, only, us, ref, j) && Sets(decode, us[j], ref).Some?
    ensures ItemsOf(Fold(decode, only, v, us), ref) == Sets(decode, us[j], ref).value + AllAdded(decode, only, us[j + 1..], ref)
  {
    hide Fold, Sets, NowAdded, ItemsOf, AllAdded, Taken, SetsAt, LastSet, ContentAccounted;
    var n := |us| - 1;
    var before := us[..n];
    assert before[j] == us[j];
    StepContent(decode, only, v, us, ref);
    SetsEarlier(decode, only, us, ref, n);
    AccountedAt(decode, only, v, before, Fold(decode, only, v, before), ref, j);
    AddedFrom(decode, only, us, ref, j + 1);
    Joined(Sets(decode, us[j], ref).value, AllAdded(decode, only, before[j + 1..], ref), NowAdded(decode, only, us[n], ref));
  }

  lemma AccountedAt(decode: Decoder, only: bool, v: View, us: List, w: View, ref: Ref, j: nat)
    requires ContentAccounted(decode, only, v, us, w, ref) && LastSet(decode, only, us, ref, j)
    ensures j < |us| && Sets(decode, us[j], ref).Some?
    ensures ItemsOf(w, ref) == Sets(decode, us[j], ref).value + AllAdded(decode, only, us[j + 1..], ref)
  {}

  lemma LastIsSet(decode: Decoder, only: bool, us: List, ref: Ref, j: nat)
    requires LastSet(decode, only, us, ref, j)
    ensures j < |us| && SetsAt(decode, only, us, ref, j) && Sets(decode, us[j], ref).Some?
  {}

  lemma Joined<T>(a: seq<T>, b: seq<T>, c: seq<T>)
    ensures (a + b) + c == a + (b + c)
  {}

  /** What is added from the j-th update on. */
  lemma AddedFrom(decode: Decoder, only: bool, us: List, ref: Ref, j: nat)
    requires us != [] && j <= |us| - 1
    ensures var n := |us| - 1;
      AllAdded(decode, only, us[j..], ref) == AllAdded(decode, only, us[..n][j..], ref) + NowAdded(decode, only, us[n], ref)
  {
    hide AllAdded, NowAdded;
    var n := |us| - 1;
    AddedSnoc(decode, only, us[..n][j..], us[n], ref);
    assert us[..n][j..] + [us[n]] == us[j..];
  }

  lemma NoneAdded(decode: Decoder, only: bool, ref: Ref)
    ensures AllAdded(decode, only, [], ref) == []
  {}

  lemma ContentUnset(decode: Decoder, only: bool, v: View, us: List, ref: Ref)
    requires us != [] && ContentAccounted(decode, only, v, us[..|us| - 1], Fold(decode, only, v, us[..|us| - 1]), ref)
    requires forall k :: 0 <= k < |us| ==> !SetsAt(decode, only, us, ref, k)
    ensures ItemsOf(Fold(decode, only, v, us), ref) == ItemsOf(v, ref) + AllAdded(decode, only, us, ref)
  {
    hide Fold, Sets, SetsAt, NowAdded, ItemsOf, AllAdded, Taken;
    var n := |us| - 1;
    StepContent(decode, only, v, us, ref);
    SetsEarlier(decode, only, us, ref, n);
    AddedFrom(decode, only, us, ref, 0);
    assert us[0..] == us && us[..n][0..] == us[..n];
    Joined(ItemsOf(v, ref), AllAdded(decode, only, us[..n], ref), NowAdded(decode, only, us[n], ref));
  }

  lemma {:induction false} ContentIsLastSetAndChunks(decode: Decoder, only: bool, v: View, us: List, ref: Ref)
    ensures ContentAccounted(decode, only, v, us, Fold(decode, only, v, us), ref)
  {
    hide Fold, Sets, ItemsOf, AllAdded, Taken;
    if us == [] {
      NoUpdates(decode, only, v, ref);
    } else {
      ContentIsLastSetAndChunks(decode, only, v, us[..|us| - 1], ref);
      forall j: nat | LastSet(decode, only, us, ref, j)
        ensures j < |us| && ItemsOf(Fold(decode, only, v, us), ref) == Sets(decode, us[j], ref).value + AllAdded(decode, only, us[j + 1..], ref)
      {
        ContentAt(decode, only, v, us, ref, j);
      }
      if forall k :: 0 <= k < |us| ==> !SetsAt(decode, only, us, ref, k) { ContentUnset(decode, only, v, us, ref); }
    }
  }

  lemma NoUpdates(decode: Decoder, only: bool, v: View, ref: Ref)
    ensures ContentAccounted(decode, only, v, [], Fold(decode, only, v, []), ref)
  {}

  lemma LastUpdate(decode: Decoder, only: bool, v: View, us: List)
    requires us != []
    ensures var w := Fold(decode, only, v, us[..|us| - 1]); var u := us[|us| - 1];
      Fold(decode, only, v, us) == if Taken(only, u) then Applied(decode, w, u) else w
  {
    hide Applied;
  }

  // ---- everything else is what was said last ----

  /** One thing a projection shows of an entity or of the session. */
  datatype Aspect =
    | Field(ref: Ref, name: string) | ContentMark(ref: Ref)
    | InfoField(name: string) | InfoKnown | LatestUsage | Cost | BackgroundWork

  datatype Fact = Nothing | Known | PatchFact(patch: Patch<string>) | MarkFact(mark: Mark) | ReportFact(report: Fields) | ListFact(items: seq<Item>)

  /** What the projection shows. A compaction seen for the first time is in progress. */
  function Shown(v: View, a: Aspect): Fact {
    match a
    case Field(ref, name) =>
      if ref in v.entities then (if name in v.entities[ref].fields then PatchFact(v.entities[ref].fields[name]) else Nothing)
      else if ref.kind == Compaction && name == "status" then PatchFact(Put("in_progress")) else Nothing
    case ContentMark(ref) => if ref in v.entities then MarkFact(v.entities[ref].mark) else MarkFact(Omitted)
    case InfoField(name) => if v.info.Some? && name in v.info.value then PatchFact(v.info.value[name]) else Nothing
    case InfoKnown => if v.info.Some? then Known else Nothing
    case LatestUsage => if v.usage.Some? then ReportFact(v.usage.value.report) else Nothing
    case Cost => if v.usage.Some? then PatchFact(v.usage.value.cost) else PatchFact(Unset)
    case BackgroundWork => if v.background.Some? then ListFact(v.background.value) else Nothing
  }

  function MarkOf<T>(p: Patch<T>): Option<Fact> {
    match p
    case Unset => None
    case Null => Some(MarkFact(Cleared))
    case Put(_) => Some(MarkFact(Present))
  }

  /** What one update says of it, if anything. */
  function Says(u: Update<seq<Item>>, a: Aspect): Option<Fact> {
    match a
    case Field(ref, name) =>
      if (u.Upsert? || u.TerminalUpdate?) && Names(u, ref) && name in u.fields then Some(PatchFact(u.fields[name])) else None
    case ContentMark(ref) =>
      if !Names(u, ref) then None
      else if u.Chunk? then Some(MarkFact(Present))
      else if u.Upsert? then MarkOf(u.content)
      else if u.TerminalUpdate? then MarkOf(u.output)
      else None
    case InfoField(name) => if u.SessionInfo? && name in u.fields then Some(PatchFact(u.fields[name])) else None
    case InfoKnown => if u.SessionInfo? then Some(Known) else None
    case LatestUsage => if u.Usage? then Some(ReportFact(u.report)) else None
    case Cost => if u.Usage? && u.cost != Unset then Some(PatchFact(u.cost)) else None
    case BackgroundWork => if u.State? then Some(if u.background.Put? then ListFact(u.background.value) else Nothing) else None
  }

  predicate SaysAt(only: bool, us: List, a: Aspect, k: nat)
    requires k < |us|
  {
    Taken(only, us[k]) && Says(us[k], a).Some?
  }

  ghost predicate LastSaid(only: bool, us: List, a: Aspect, j: nat) {
    j < |us| && SaysAt(only, us, a, j) && forall k :: j < k < |us| ==> !SaysAt(only, us, a, k)
  }

  ghost predicate FactAccounted(only: bool, v: View, us: List, w: View, a: Aspect) {
    && (forall j: nat :: LastSaid(only, us, a, j) ==> Shown(w, a) == Says(us[j], a).value)
    && ((forall k :: 0 <= k < |us| ==> !SaysAt(only, us, a, k)) ==> Shown(w, a) == Shown(v, a))
  }

  lemma UpsertShows(v: View, ref: Ref, fields: Fields, content: Patch<seq<Item>>, a: Aspect)
    ensures Shown(Upserted(v, ref, fields, content), a) == SaidOr(Upsert(ref, fields, content), v, a)
  {}

  lemma TerminalShows(decode: Decoder, v: View, id: string, fields: Fields, output: Patch<string>, a: Aspect)
    ensures Shown(TerminalApplied(decode, v, id, fields, output), a) == SaidOr(TerminalUpdate(id, fields, output), v, a)
  {}

  lemma ChunkShows(decode: Decoder, v: View, u: Update<seq<Item>>, a: Aspect)
    requires u.Chunk? || u.TerminalChunk?
    ensures Shown(Applied(decode, v, u), a) == SaidOr(u, v, a)
  {}

  lemma SessionShows(decode: Decoder, v: View, u: Update<seq<Item>>, a: Aspect)
    requires u.SessionInfo? || u.Usage? || u.Notice? || u.State? || u.Unknown?
    ensures Shown(Applied(decode, v, u), a) == SaidOr(u, v, a)
  {}

  function SaidOr(u: Update<seq<Item>>, v: View, a: Aspect): Fact { if Says(u, a).Some? then Says(u, a).value else Shown(v, a) }

  lemma StepShows(decode: Decoder, v: View, u: Update<seq<Item>>, a: Aspect)
    ensures Shown(Applied(decode, v, u), a) == SaidOr(u, v, a)
  {
    hide Shown, SaidOr, Upserted, TerminalApplied;
    match u
    case Upsert(ref, fields, content) => UpsertShows(v, ref, fields, content, a);
    case TerminalUpdate(id, fields, output) => TerminalShows(decode, v, id, fields, output, a);
    case Chunk(_, _) => ChunkShows(decode, v, u, a);
    case TerminalChunk(_, _) => ChunkShows(decode, v, u, a);
    case _ => SessionShows(decode, v, u, a);
  }

  lemma StepFact(decode: Decoder, only: bool, v: View, us: List, a: Aspect)
    requires us != []
    ensures Shown(Fold(decode, only, v, us), a) == (var n := |us| - 1;
      if SaysAt(only, us, a, n) then Says(us[n], a).value else Shown(Fold(decode, only, v, us[..n]), a))
  {
    hide Applied, Says, Shown, Taken;
    LastUpdate(decode, only, v, us);
    StepShows(decode, Fold(decode, only, v, us[..|us| - 1]), us[|us| - 1], a);
  }

  lemma SaidEarlier(only: bool, us: List, a: Aspect, n: nat)
    requires n < |us|
    ensures forall k: nat :: k < n ==> SaysAt(only, us[..n], a, k) == SaysAt(only, us, a, k)
    ensures forall j: nat :: j < n && LastSaid(only, us, a, j) ==> LastSaid(only, us[..n], a, j) && !SaysAt(only, us, a, n)
  {
    hide Says, Taken;
  }

  lemma {:induction false} ShownIsLastSaid(decode: Decoder, only: bool, v: View, us: List, a: Aspect)
    ensures FactAccounted(only, v, us, Fold(decode, only, v, us), a)
  {
    hide Fold, Says, Shown, SaysAt;
    if us == [] {
      NothingSaid(decode, only, v, a);
    } else {
      var n := |us| - 1;
      ShownIsLastSaid(decode, only, v, us[..n], a);
      StepFact(decode, only, v, us, a);
      SaidEarlier(only, us, a, n);
      if forall k :: 0 <= k < |us| ==> !SaysAt(only, us, a, k) { assert !SaysAt(only, us, a, n); }
    }
  }

  lemma NothingSaid(decode: Decoder, only: bool, v: View, a: Aspect)
    ensures FactAccounted(only, v, [], Fold(decode, only, v, []), a)
  {}

  // ---- notices, and which entities there are ----

  function AllNotices(only: bool, us: List): seq<Item> {
    if us == [] then []
    else AllNotices(only, us[..|us| - 1]) + if Taken(only, us[|us| - 1]) && us[|us| - 1].Notice? then [us[|us| - 1].item] else []
  }

  predicate NamedAt(only: bool, us: List, ref: Ref, k: nat)
    requires k < |us|
  {
    Taken(only, us[k]) && Names(us[k], ref)
  }

  ghost predicate Named(only: bool, us: List, ref: Ref) { exists k :: 0 <= k < |us| && NamedAt(only, us, ref, k) }

  lemma {:induction false} NoticesInOrder(decode: Decoder, only: bool, v: View, us: List)
    ensures Fold(decode, only, v, us).notices == v.notices + AllNotices(only, us)
  {
    hide Taken;
    if us != [] {
      NoticesInOrder(decode, only, v, us[..|us| - 1]);
      LastUpdate(decode, only, v, us);
    }
  }

  /** An entity exists once an update named it, and stays. */
  lemma {:induction false} EntitiesAreNamed(decode: Decoder, only: bool, v: View, us: List, ref: Ref)
    ensures ref in Fold(decode, only, v, us).entities <==> ref in v.entities || Named(only, us, ref)
  {
    hide Fold, Applied, Taken, Names;
    if us == [] {
      assert Fold(decode, only, v, us) == v by { NoFold(decode, only, v); }
    } else {
      var n := |us| - 1;
      EntitiesAreNamed(decode, only, v, us[..n], ref);
      LastUpdate(decode, only, v, us);
      StepNames(decode, Fold(decode, only, v, us[..n]), us[n], ref);
      NamedStep(only, us, ref);
    }
  }

  lemma NoFold(decode: Decoder, only: bool, v: View)
    ensures Fold(decode, only, v, []) == v
  {}

  lemma StepNames(decode: Decoder, v: View, u: Update<seq<Item>>, ref: Ref)
    ensures ref in Applied(decode, v, u).entities <==> ref in v.entities || Names(u, ref)
  {}

  lemma NamedStep(only: bool, us: List, ref: Ref)
    requires us != []
    ensures var n := |us| - 1; Named(only, us, ref) <==> Named(only, us[..n], ref) || NamedAt(only, us, ref, n)
  {
    hide Taken, Names;
    var n := |us| - 1;
    assert forall k: nat :: k < n ==> NamedAt(only, us[..n], ref, k) == NamedAt(only, us, ref, k);
  }

  /** The whole account: w is what v shows after the updates. */
  ghost predicate Accounted(decode: Decoder, only: bool, v: View, us: List, w: View) {
    && (forall ref :: ref in w.entities <==> ref in v.entities || Named(only, us, ref))
    && (forall ref :: ContentAccounted(decode, only, v, us, w, ref))
    && (forall a :: FactAccounted(only, v, us, w, a))
    && w.notices == v.notices + AllNotices(only, us)
  }

  lemma FoldIsAccounted(decode: Decoder, only: bool, v: View, us: List)
    ensures Accounted(decode, only, v, us, Fold(decode, only, v, us))
  {
    hide Fold, ContentAccounted, FactAccounted, Named;
    var w := Fold(decode, only, v, us);
    forall ref ensures ref in w.entities <==> ref in v.entities || Named(only, us, ref) { EntitiesAreNamed(decode, only, v, us, ref); }
    forall ref ensures ContentAccounted(decode, only, v, us, w, ref) { ContentIsLastSetAndChunks(decode, only, v, us, ref); }
    forall a ensures FactAccounted(only, v, us, w, a) { ShownIsLastSaid(decode, only, v, us, a); }
    NoticesInOrder(decode, only, v, us);
  }

  // ---- text ----

  /** The text of a message is that of its text blocks, joined in order. */
  lemma {:induction false} TextOfBlocks(a: seq<Item>, b: seq<Item>)
    ensures TextOfItems(a + b) == TextOfItems(a) + TextOfItems(b)
    decreases |b|
  {
    hide TextOfItem, TextOfItems;
    NoItemsNoText();
    if b == [] {
      assert a + b == a;
    } else {
      var n := |b| - 1;
      TextOfBlocks(a, b[..n]);
      LastBlock(a + b);
      LastBlock(b);
      assert (a + b)[..|a| + n] == a + b[..n];
      Joined(TextOfItems(a), TextOfItems(b[..n]), TextOfItem(b[n]));
    }
  }

  lemma LastBlock(items: seq<Item>)
    requires items != []
    ensures TextOfItems(items) == TextOfItems(items[..|items| - 1]) + TextOfItem(items[|items| - 1])
  {}

  lemma TextOfBlock(block: Item)
    ensures TextOfItems([block]) == (match block { case Text(s) => s case _ => "" })
  {
    assert [block][..0] == [];
  }

  /** That of a session is that of its Agent messages, joined in timeline order. */
  lemma {:induction false} TextOfMessages(v: View, a: seq<Ref>, b: seq<Ref>)
    ensures TextOfRefs(v, a + b) == TextOfRefs(v, a) + TextOfRefs(v, b)
    decreases |b|
  {
    hide TextOfRef, TextOfRefs;
    if b == [] {
      assert a + b == a;
      assert TextOfRefs(v, b) == "" by { NoText(v); }
    } else {
      var n := |b| - 1;
      TextOfMessages(v, a, b[..n]);
      LastMessage(v, a + b);
      LastMessage(v, b);
      assert (a + b)[..|a| + n] == a + b[..n];
      Joined(TextOfRefs(v, a), TextOfRefs(v, b[..n]), TextOfRef(v, b[n]));
    }
  }

  lemma LastMessage(v: View, refs: seq<Ref>)
    requires refs != []
    ensures TextOfRefs(v, refs) == TextOfRefs(v, refs[..|refs| - 1]) + TextOfRef(v, refs[|refs| - 1])
  {}

  lemma NoText(v: View)
    ensures TextOfRefs(v, []) == ""
  {}

  lemma TextOfMessage(v: View, ref: Ref)
    ensures TextOfRefs(v, [ref]) == if ref.kind == AgentMessage then TextOfItems(ItemsOf(v, ref)) else ""
  {
    hide TextOfItems, TextOfRef, ItemsOf;
    assert [ref][..0] == [];
    MessageText(v, ref);
  }

  lemma MessageText(v: View, ref: Ref)
    ensures TextOfRef(v, ref) == if ref.kind == AgentMessage then TextOfItems(ItemsOf(v, ref)) else ""
  {
    NoItemsNoText();
  }

  lemma NoItemsNoText()
    ensures TextOfItems([]) == ""
  {}

  /** No Agent message comes after ref in the timeline. */
  ghost predicate IsLastAgent(v: View, ref: Ref) {
    ref.kind == AgentMessage && exists i :: 0 <= i < |v.timeline| && LastAgentAt(v, ref, i)
  }

  predicate LastAgentAt(v: View, ref: Ref, i: nat)
    requires i < |v.timeline|
  {
    v.timeline[i] == ref && forall k :: i < k < |v.timeline| ==> v.timeline[k].kind != AgentMessage
  }

  lemma {:induction false} OthersKeepText(v: View, w: View, refs: seq<Ref>, ref: Ref)
    requires ref !in refs || ref.kind != AgentMessage
    requires forall r :: r in refs && r != ref ==> ItemsOf(w, r) == ItemsOf(v, r)
    ensures TextOfRefs(w, refs) == TextOfRefs(v, refs)
  {
    hide TextOfItems, TextOfRef, ItemsOf;
    if refs != [] {
      var r := refs[|refs| - 1];
      OthersKeepText(v, w, refs[..|refs| - 1], ref);
      assert r in refs;
      MessageText(v, r);
      MessageText(w, r);
    }
  }

  lemma {:induction false} NoAgentNoText(v: View, refs: seq<Ref>)
    requires forall k :: 0 <= k < |refs| ==> refs[k].kind != AgentMessage
    ensures TextOfRefs(v, refs) == ""
  {
    if refs != [] { NoAgentNoText(v, refs[..|refs| - 1]); }
  }

  /** Text streams: a chunk of the last Agent message extends the text by its own. */
  lemma TextStreams(decode: Decoder, only: bool, us: List, ref: Ref, text: string)
    requires IsLastAgent(Fold(decode, only, NO_VIEW, us), ref)
    ensures TextOf(Fold(decode, only, NO_VIEW, us + [Chunk(ref, Text(text))])) == TextOf(Fold(decode, only, NO_VIEW, us)) + text
  {
    hide Fold;
    FoldTimeline(decode, only, us, |us|);
    assert us[..|us|] == us;
    ChunkFold(decode, only, us, ref, Text(text));
    ChunkText(Fold(decode, only, NO_VIEW, us), ref, text);
  }

  lemma ChunkFold(decode: Decoder, only: bool, us: List, ref: Ref, item: Item)
    requires ref.kind == AgentMessage
    ensures Fold(decode, only, NO_VIEW, us + [Chunk(ref, item)]) == Chunked(Fold(decode, only, NO_VIEW, us), ref, item)
  {
    assert (us + [Chunk(ref, item)])[..|us|] == us;
  }

  lemma ChunkText(v: View, ref: Ref, text: string)
    requires TimelineExact(v) && IsLastAgent(v, ref)
    ensures TextOf(Chunked(v, ref, Text(text))) == TextOf(v) + text
  {
    hide TextOfItems, TextOfRefs, ItemsOf, Chunked, TimelineExact;
    var w := Chunked(v, ref, Text(text));
    var i :| 0 <= i < |v.timeline| && LastAgentAt(v, ref, i);
    var a, b := v.timeline[..i], v.timeline[i + 1..];
    OnePlace(v, ref, i);
    ChunkedItems(v, ref, Text(text));
    SplitText(v, a, ref, b);
    SplitText(w, a, ref, b);
    OthersKeepText(v, w, a, ref);
    TextOfBlocks(ItemsOf(v, ref), [Text(text)]);
    TextOfBlock(Text(text));
    Joined(TextOfRefs(v, a), TextOfItems(ItemsOf(v, ref)), text);
  }

  lemma OnePlace(v: View, ref: Ref, i: nat)
    requires TimelineExact(v) && i < |v.timeline| && v.timeline[i] == ref
    ensures ref in v.entities && ref !in v.timeline[..i] && v.timeline == v.timeline[..i] + [ref] + v.timeline[i + 1..]
  {}

  lemma ChunkedItems(v: View, ref: Ref, item: Item)
    requires ref in v.entities
    ensures var w := Chunked(v, ref, item);
      w.timeline == v.timeline && ItemsOf(w, ref) == ItemsOf(v, ref) + [item] && forall r :: r != ref ==> ItemsOf(w, r) == ItemsOf(v, r)
  {}

  lemma SplitText(v: View, a: seq<Ref>, ref: Ref, b: seq<Ref>)
    requires ref.kind == AgentMessage && forall k :: 0 <= k < |b| ==> b[k].kind != AgentMessage
    ensures TextOfRefs(v, a + [ref] + b) == TextOfRefs(v, a) + TextOfItems(ItemsOf(v, ref))
  {
    hide TextOfItems, TextOfRefs, ItemsOf;
    TextOfMessages(v, a, [ref]);
    TextOfMessages(v, a + [ref], b);
    TextOfMessage(v, ref);
    NoAgentNoText(v, b);
  }
}
