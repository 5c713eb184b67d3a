/** What a list of v2 session updates means (v2/update_projection.go): the specification the
    projection is proved against. */
module Updates {
  import opened Options
  import opened GoSlices

  /** One element of any slice an update projection holds. */
  datatype Item = Text(text: string) | Byte(value: nat) | Other(payload: nat)

  type Slice = GoSlice<Item>

  datatype Kind = UserMessage | AgentMessage | AgentThought | ToolCall | Terminal | Compaction

  /** An entity is named by its kind and ID together. */
  datatype Ref = Ref(kind: Kind, id: string)

  /** The patched fields of an entity other than its content, null being stored as such. */
  type Fields = map<string, Patch<string>>

  /** A session update; C is how a collection it carries is represented. The kind of an
      Upsert or Chunk is not Terminal, whose output arrives as text to decode. */
  datatype Update<+C> =
    | Upsert(ref: Ref, fields: Fields, content: Patch<C>)
    | Chunk(ref: Ref, item: Item)
    | TerminalUpdate(id: string, fields: Fields, output: Patch<string>)
    | TerminalChunk(id: string, data: string)
    | SessionInfo(fields: Fields)
    | Usage(cost: Patch<string>, report: Fields)
    | Notice(item: Item)
    | State(idle: bool, stopReason: Option<string>, failure: Option<string>, background: Patch<C>)
    | Unknown

  /** Base64 decoding, left abstract. */
  type Decoder = string -> Option<seq<Item>>

  /** How a content field stands: never set, set to null, or set. */
  datatype Mark = Omitted | Cleared | Present

  datatype Entity = Entity(fields: Fields, mark: Mark, items: seq<Item>)

  datatype UsageReport = UsageReport(cost: Patch<string>, report: Fields)

  datatype View = View(entities: map<Ref, Entity>, timeline: seq<Ref>, notices: seq<Item>,
    background: Option<seq<Item>>, info: Option<Fields>, usage: Option<UsageReport>)

  const NO_VIEW := View(map[], [], [], None, None, None)

  function Default(ref: Ref): Entity {
    Entity(if ref.kind.Compaction? then map["status" := Put("in_progress")] else map[], Omitted, [])
  }

  /** The entity exists; a new one takes the next place in the timeline. */
  function Touch(v: View, ref: Ref): View {
    if ref in v.entities then v else v.(entities := v.entities[ref := Default(ref)], timeline := v.timeline + [ref])
  }

  function Marked<T>(mark: Mark, p: Patch<T>): Mark { if p.Unset? then mark else if p.Null? then Cleared else Present }

  function Patched(items: seq<Item>, p: Patch<seq<Item>>): seq<Item> {
    match p
    case Unset => items
    case Null => []
    case Put(value) => value
  }

  function Change(v: View, ref: Ref, e: Entity): View { v.(entities := v.entities[ref := e]) }

  function Upserted(v: View, ref: Ref, fields: Fields, content: Patch<seq<Item>>): View {
    var w := Touch(v, ref);
    var e := w.entities[ref];
    Change(w, ref, Entity(e.fields + fields, Marked(e.mark, content), Patched(e.items, content)))
  }

  function Chunked(v: View, ref: Ref, item: Item): View {
    var w := Touch(v, ref);
    var e := w.entities[ref];
    Change(w, ref, Entity(e.fields, Present, e.items + [item]))
  }

  /** An invalid output snapshot is ignored, keeping the bytes stored. */
  function Output(decode: Decoder, output: Patch<string>): Patch<seq<Item>> {
    match output
    case Unset => Unset
    case Null => Null
    case Put(data) => if decode(data).Some? then Put(decode(data).value) else Unset
  }

  function TerminalApplied(decode: Decoder, v: View, id: string, fields: Fields, output: Patch<string>): View {
    var ref := Ref(Terminal, id);
    var w := Touch(v, ref);
    var e := w.entities[ref];
    Change(w, ref, Entity(e.fields + fields, Marked(e.mark, output), Patched(e.items, Output(decode, output))))
  }

  /** Even an invalid chunk creates its terminal. */
  function TerminalChunked(decode: Decoder, v: View, id: string, data: string): View {
    var ref := Ref(Terminal, id);
    var w := Touch(v, ref);
    var e := w.entities[ref];
    Change(w, ref, e.(items := e.items + if decode(data).Some? then decode(data).value else []))
  }

  /** Apply. */
  function Applied(decode: Decoder, v: View, u: Update<seq<Item>>): View {
    match u
    case Upsert(ref, fields, content) => Upserted(v, ref, fields, content)
    case Chunk(ref, item) => Chunked(v, ref, item)
    case TerminalUpdate(id, fields, output) => TerminalApplied(decode, v, id, fields, output)
    case TerminalChunk(id, data) => TerminalChunked(decode, v, id, data)
    case SessionInfo(fields) => v.(info := Some((if v.info.Some? then v.info.value else map[]) + fields))
    case Usage(cost, report) =>
      v.(usage := Some(UsageReport(if v.usage.Some? && cost.Unset? then v.usage.value.cost else cost, report)))
    case Notice(item) => v.(notices := v.notices + [item])
    case State(_, _, _, background) => v.(background := if background.Put? then Some(background.value) else None)
    case Unknown => v
  }

  /** An update a projection limited to Agent messages applies. */
  predicate AgentText<C>(u: Update<C>) { (u.Upsert? || u.Chunk?) && u.ref.kind.AgentMessage? }

  function Fold(decode: Decoder, only: bool, v: View, us: seq<Update<seq<Item>>>): View {
    if us == [] then v
    else
      var w := Fold(decode, only, v, us[..|us| - 1]);
      if only && !AgentText(us[|us| - 1]) then w else Applied(decode, w, us[|us| - 1])
  }

  // ---- text ----

  function TextOfItems(items: seq<Item>): string {
    if items == [] then "" else TextOfItems(items[..|items| - 1]) + TextOfItem(items[|items| - 1])
  }

  function TextOfItem(item: Item): string { if item.Text? then item.text else "" }

  function TextOfRef(v: View, ref: Ref): string {
    if ref.kind.AgentMessage? && ref in v.entities then TextOfItems(v.entities[ref].items) else ""
  }

  function TextOfRefs(v: View, refs: seq<Ref>): string {
    if refs == [] then "" else TextOfRefs(v, refs[..|refs| - 1]) + TextOfRef(v, refs[|refs| - 1])
  }

  /** Text: the text of every Agent message in timeline order. */
  function TextOf(v: View): string { TextOfRefs(v, v.timeline) }

  // ---- the filtered fold agrees with the full one ----

  function Agents(refs: seq<Ref>): seq<Ref> {
    if refs == [] then [] else Agents(refs[..|refs| - 1]) + if refs[|refs| - 1].kind.AgentMessage? then [refs[|refs| - 1]] else []
  }

  /** a and b hold the same Agent messages in the same order; a holds nothing else. */
  ghost predicate SameAgents(a: View, b: View) {
    && (forall r: Ref :: r.kind.AgentMessage? ==> (r in a.entities <==> r in b.entities))
    && (forall r: Ref :: r.kind.AgentMessage? && r in a.entities ==> a.entities[r] == b.entities[r])
    && Agents(a.timeline) == Agents(b.timeline)
  }

  lemma AgentsSnoc(refs: seq<Ref>, r: Ref)
    ensures Agents(refs + [r]) == Agents(refs) + if r.kind.AgentMessage? then [r] else []
  {
    assert (refs + [r])[..|refs|] == refs;
  }

  lemma TextSnoc(v: View, refs: seq<Ref>, r: Ref)
    ensures TextOfRefs(v, refs + [r]) == TextOfRefs(v, refs) + TextOfRef(v, r)
  {
    assert (refs + [r])[..|refs|] == refs;
  }

  lemma {:induction false} TextIsAgents(v: View, refs: seq<Ref>)
    ensures TextOfRefs(v, refs) == TextOfRefs(v, Agents(refs))
  {
    if refs != [] {
      var r := refs[|refs| - 1];
      var before := refs[..|refs| - 1];
      TextIsAgents(v, before);
      if r.kind.AgentMessage? {
        TextSnoc(v, Agents(before), r);
      } else {
        assert Agents(refs) == Agents(before);
        assert TextOfRefs(v, refs) == TextOfRefs(v, before);
      }
    }
  }

  lemma {:induction false} SameText(a: View, b: View, refs: seq<Ref>)
    requires SameAgents(a, b)
    ensures TextOfRefs(a, refs) == TextOfRefs(b, refs)
  {
    if refs != [] { SameText(a, b, refs[..|refs| - 1]); }
  }

  /** An update to anything but an Agent message leaves the Agent messages alone. */
  lemma OthersKeepAgents(decode: Decoder, v: View, u: Update<seq<Item>>)
    requires !AgentText(u)
    ensures SameAgents(v, Applied(decode, v, u))
  {
    var w := Applied(decode, v, u);
    if |w.timeline| == |v.timeline| + 1 { AgentsSnoc(v.timeline, w.timeline[|v.timeline|]); }
  }

  lemma AgentsStep(decode: Decoder, a: View, b: View, u: Update<seq<Item>>)
    requires SameAgents(a, b) && AgentText(u)
    ensures SameAgents(Applied(decode, a, u), Applied(decode, b, u))
  {
    AgentsSnoc(a.timeline, u.ref);
    AgentsSnoc(b.timeline, u.ref);
  }

  lemma {:induction false} FoldsAgree(decode: Decoder, us: seq<Update<seq<Item>>>)
    ensures SameAgents(Fold(decode, true, NO_VIEW, us), Fold(decode, false, NO_VIEW, us))
  {
    hide SameAgents, Applied;
    if us != [] {
      var u := us[|us| - 1];
      FoldsAgree(decode, us[..|us| - 1]);
      var a, b := Fold(decode, true, NO_VIEW, us[..|us| - 1]), Fold(decode, false, NO_VIEW, us[..|us| - 1]);
      if AgentText(u) {
        AgentsStep(decode, a, b, u);
      } else {
        OthersKeepAgents(decode, b, u);
        SameAgentsChain(a, b, Applied(decode, b, u));
      }
    } else {
      NoAgents();
    }
  }

  lemma NoAgents()
    ensures SameAgents(NO_VIEW, NO_VIEW)
  {}

  lemma SameAgentsChain(a: View, b: View, c: View)
    requires SameAgents(a, b) && SameAgents(b, c)
    ensures SameAgents(a, c)
  {}

  /** On every list of updates, the projection limited to Agent messages has the same text
      as the full one. */
  lemma TextAgrees(decode: Decoder, us: seq<Update<seq<Item>>>)
    ensures TextOf(Fold(decode, true, NO_VIEW, us)) == TextOf(Fold(decode, false, NO_VIEW, us))
  {
    hide Fold;
    var a, b := Fold(decode, true, NO_VIEW, us), Fold(decode, false, NO_VIEW, us);
    FoldsAgree(decode, us);
    TextIsAgents(a, a.timeline);
    TextIsAgents(b, b.timeline);
    SameText(a, b, Agents(a.timeline));
  }

  /** Every entity has exactly one place in the timeline. */
  ghost predicate TimelineExact(v: View) {
    && (forall r :: r in v.entities <==> r in v.timeline)
    && forall i, j :: 0 <= i < j < |v.timeline| ==> v.timeline[i] != v.timeline[j]
  }

  lemma AppliedTimeline(decode: Decoder, v: View, u: Update<seq<Item>>)
    requires TimelineExact(v)
    ensures TimelineExact(Applied(decode, v, u)) && v.timeline <= Applied(decode, v, u).timeline
  {}

  /** In every projection, full or filtered, each entity keeps the place it first took. */
  lemma {:induction false} FoldTimeline(decode: Decoder, only: bool, us: seq<Update<seq<Item>>>, n: nat)
    requires n <= |us|
    ensures TimelineExact(Fold(decode, only, NO_VIEW, us))
    ensures Fold(decode, only, NO_VIEW, us[..n]).timeline <= Fold(decode, only, NO_VIEW, us).timeline
  {
    hide Applied;
    if n == |us| { assert us[..n] == us; }
    if us != [] {
      var m := |us| - 1;
      FoldTimeline(decode, only, us[..m], if n < |us| then n else m);
      if n < |us| { assert us[..m][..n] == us[..n]; }
      AppliedTimeline(decode, Fold(decode, only, NO_VIEW, us[..m]), us[m]);
    }
  }
}
