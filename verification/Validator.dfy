/** The JSON Schema subset validator for tool arguments (internal/mcpserver/jsonschema.go),
    against what JSON Schema 2020-12 says of the keywords it enforces. A keyword it does not
    enforce is an arbitrary further condition on the value. */
module Validator {

  /** A decoded JSON value; a number keeps its token. */
  datatype Json = Null | Bool(b: bool) | Num(token: string) | Str(s: string) | Arr(items: seq<Json>) | Obj(fields: map<string, Json>)

  /** How number tokens compare, and which are integers: any rule will do. */
  datatype Numbers = Numbers(same: (string, string) -> bool, integer: string -> bool)

  /** What an unenforced keyword with its argument asks of a value. */
  type Extra = (string, Json, Json) -> bool

  // ---- equality of values ----

  /** Equal JSON values: numbers by value, objects by their members in any order. */
  predicate Same(n: Numbers, a: Json, b: Json) {
    match a
    case Num(x) => b.Num? && n.same(x, b.token)
    case Arr(x) => b.Arr? && |x| == |b.items| && forall i :: 0 <= i < |x| ==> Same(n, x[i], b.items[i])
    case Obj(x) => b.Obj? && x.Keys == b.fields.Keys && forall k :: k in x ==> Same(n, x[k], b.fields[k])
    case _ => a == b
  }

  /** jsonEqual, which compares the sizes of objects and looks up each key of the first. */
  predicate JsonEqual(n: Numbers, a: Json, b: Json) {
    match a
    case Num(x) => b.Num? && n.same(x, b.token)
    case Obj(x) =>
      b.Obj? && |x| == |b.fields| && forall k :: k in x ==> k in b.fields && JsonEqual(n, x[k], b.fields[k])
    case Arr(x) => b.Arr? && |x| == |b.items| && forall i :: 0 <= i < |x| ==> JsonEqual(n, x[i], b.items[i])
    case _ => a == b
  }

  lemma SubsetOfSameSize(a: set<string>, b: set<string>)
    requires a <= b && |a| == |b|
    ensures a == b
  {
    var rest := b - a;
    assert b == a + rest && a !! rest;
    assert |rest| == 0;
  }

  lemma {:induction false} JsonEqualIsSame(n: Numbers, a: Json, b: Json)
    ensures JsonEqual(n, a, b) <==> Same(n, a, b)
    decreases a
  {
    match a
    case Arr(x) =>
      if b.Arr? && |x| == |b.items| {
        forall i | 0 <= i < |x| ensures JsonEqual(n, x[i], b.items[i]) <==> Same(n, x[i], b.items[i]) {
          JsonEqualIsSame(n, x[i], b.items[i]);
        }
      }
    case Obj(x) =>
      if b.Obj? {
        forall k | k in x && k in b.fields ensures JsonEqual(n, x[k], b.fields[k]) <==> Same(n, x[k], b.fields[k]) {
          JsonEqualIsSame(n, x[k], b.fields[k]);
        }
        assert |x.Keys| == |x| && |b.fields.Keys| == |b.fields|;
        if |x| == |b.fields| && forall k :: k in x ==> k in b.fields { SubsetOfSameSize(x.Keys, b.fields.Keys); }
      }
    case _ =>
  }

  // ---- types ----

  /** hasType: an unknown type name does not constrain the value. */
  predicate HasType(n: Numbers, v: Json, kind: string) {
    if kind == "null" then v.Null?
    else if kind == "boolean" then v.Bool?
    else if kind == "string" then v.Str?
    else if kind == "object" then v.Obj?
    else if kind == "array" then v.Arr?
    else if kind == "number" then v.Num?
    else if kind == "integer" then v.Num? && n.integer(v.token)
    else true
  }

  /** schemaTypes: the type names listed, none if the keyword is malformed. */
  function SchemaTypes(raw: Json): seq<string> {
    match raw
    case Str(s) => [s]
    case Arr(items) => Strings(items)
    case _ => []
  }

  function Strings(items: seq<Json>): (r: seq<string>)
    ensures forall s :: s in r <==> exists i :: 0 <= i < |items| && items[i] == Str(s)
  {
    if items == [] then []
    else
      var rest := Strings(items[1..]);
      assert forall s :: (exists i :: 0 <= i < |items| && items[i] == Str(s)) <==>
        items[0] == Str(s) || exists i :: 0 <= i < |items[1..]| && items[1..][i] == Str(s) by {
        forall s, i | 0 <= i < |items[1..]| && items[1..][i] == Str(s) ensures items[i + 1] == Str(s) {}
        forall s, i | 0 < i < |items| && items[i] == Str(s) ensures items[1..][i - 1] == Str(s) {}
      }
      if items[0].Str? then [items[0].s] + rest else rest
  }

  // ---- the validator ----

  /** validateValue: whether it returns no error. A schema that is neither a boolean nor an
      object rejects nothing. */
  predicate Validate(n: Numbers, schema: Json, v: Json)
    decreases schema, 2
  {
    match schema
    case Bool(b) => b
    case Obj(s) => ValidateObject(n, schema, v)
    case _ => true
  }

  /** validateObjectSchema: each check in turn, the first that fails being reported. */
  predicate ValidateObject(n: Numbers, schema: Json, v: Json)
    requires schema.Obj?
    decreases schema, 1
  {
    var s := schema.fields;
    && ("type" in s ==> CheckType(n, s["type"], v))
    && ("enum" in s ==> CheckEnum(n, s["enum"], v))
    && ("const" in s ==> JsonEqual(n, s["const"], v))
    && (v.Obj? ==> ValidateProperties(n, schema, v))
    && (v.Arr? && "items" in s ==> CheckItems(n, schema, s["items"], v))
    && ("allOf" in s && s["allOf"].Arr? ==> CheckAll(n, schema, s["allOf"].items, v))
    && ("anyOf" in s && s["anyOf"].Arr? ==> CheckAny(n, schema, s["anyOf"].items, v))
    && ("oneOf" in s && s["oneOf"].Arr? ==> CheckOne(n, schema, s["oneOf"].items, v))
  }

  predicate CheckType(n: Numbers, raw: Json, v: Json) {
    var kinds := SchemaTypes(raw);
    kinds == [] || exists i :: 0 <= i < |kinds| && HasType(n, v, kinds[i])
  }

  predicate CheckEnum(n: Numbers, raw: Json, v: Json) {
    raw.Arr? ==> exists i :: 0 <= i < |raw.items| && JsonEqual(n, raw.items[i], v)
  }

  /** validateProperties. */
  predicate ValidateProperties(n: Numbers, schema: Json, v: Json)
    requires schema.Obj? && v.Obj?
    decreases schema, 0
  {
    && Required(schema.fields, v)
    && forall k :: k in v.fields ==> CheckProperty(n, schema, k, v.fields[k])
  }

  /** A declared property against its schema, any other against additionalProperties. */
  predicate CheckProperty(n: Numbers, schema: Json, k: string, value: Json)
    requires schema.Obj?
    decreases schema, -1
  {
    var s := schema.fields;
    if Declared(s, k) then Validate(n, s["properties"].fields[k], value)
    else "additionalProperties" in s ==>
      s["additionalProperties"] != Bool(false) && Validate(n, s["additionalProperties"], value)
  }

  predicate CheckItems(n: Numbers, schema: Json, items: Json, v: Json)
    requires items < schema && v.Arr?
    decreases schema, 0
  {
    forall i :: 0 <= i < |v.items| ==> Validate(n, items, v.items[i])
  }

  predicate CheckAll(n: Numbers, schema: Json, subs: seq<Json>, v: Json)
    requires forall i :: 0 <= i < |subs| ==> subs[i] < schema
    decreases schema, 0
  {
    forall i :: 0 <= i < |subs| ==> Validate(n, subs[i], v)
  }

  predicate CheckAny(n: Numbers, schema: Json, subs: seq<Json>, v: Json)
    requires forall i :: 0 <= i < |subs| ==> subs[i] < schema
    decreases schema, 0
  {
    exists i :: 0 <= i < |subs| && Validate(n, subs[i], v)
  }

  /** Exactly one match, if every branch is decidable; otherwise at least one. */
  predicate CheckOne(n: Numbers, schema: Json, subs: seq<Json>, v: Json)
    requires forall i :: 0 <= i < |subs| ==> subs[i] < schema
    decreases schema, 0
  {
    if forall i :: 0 <= i < |subs| ==> Decidable(subs[i]) then
      Count(Matches(n, schema, subs, v)) == 1
    else
      exists i :: 0 <= i < |subs| && Validate(n, subs[i], v)
  }

  function Matches(n: Numbers, schema: Json, subs: seq<Json>, v: Json): (r: seq<bool>)
    requires forall i :: 0 <= i < |subs| ==> subs[i] < schema
    ensures |r| == |subs| && forall i :: 0 <= i < |r| ==> r[i] == Validate(n, subs[i], v)
    decreases schema, -1
  {
    seq(|subs|, i requires 0 <= i < |subs| => Validate(n, subs[i], v))
  }

  predicate Declared(s: map<string, Json>, k: string) { "properties" in s && s["properties"].Obj? && k in s["properties"].fields }

  predicate Required(s: map<string, Json>, v: Json)
    requires v.Obj?
  {
    "required" in s && s["required"].Arr? ==>
      forall i :: 0 <= i < |s["required"].items| && s["required"].items[i].Str? ==> s["required"].items[i].s in v.fields
  }

  /** The match counter. */
  function Count(matches: seq<bool>): nat {
    if matches == [] then 0
    else Count(matches[..|matches| - 1]) + if matches[|matches| - 1] then 1 else 0
  }

  const ANNOTATIONS: set<string> :=
    {"title", "description", "default", "examples", "$schema", "$id", "$comment", "deprecated", "readOnly", "writeOnly"}

  const CONSTRAINTS: set<string> :=
    {"type", "enum", "const", "properties", "required", "additionalProperties", "items", "allOf", "anyOf", "oneOf"}

  /** decidable: only enforced keywords, here and in every schema within. */
  predicate Decidable(schema: Json) {
    schema.Obj? ==>
      var s := schema.fields;
      && (forall k :: k in s ==> k in CONSTRAINTS || k in ANNOTATIONS)
      && ("properties" in s && s["properties"].Obj? ==> forall k :: k in s["properties"].fields ==> Decidable(s["properties"].fields[k]))
      && ("additionalProperties" in s ==> Decidable(s["additionalProperties"]))
      && ("items" in s ==> Decidable(s["items"]))
      && ("allOf" in s && s["allOf"].Arr? ==> forall i :: 0 <= i < |s["allOf"].items| ==> Decidable(s["allOf"].items[i]))
      && ("anyOf" in s && s["anyOf"].Arr? ==> forall i :: 0 <= i < |s["anyOf"].items| ==> Decidable(s["anyOf"].items[i]))
      && ("oneOf" in s && s["oneOf"].Arr? ==> forall i :: 0 <= i < |s["oneOf"].items| ==> Decidable(s["oneOf"].items[i]))
  }

  // ---- what the full schema allows ----

  /** Keywords that assert nothing (section 8 of JSON Schema Core 2020-12 and section 9 of its
      Validation vocabulary). */
  const SILENT: set<string> :=
    {"$schema", "$id", "$comment", "title", "description", "default", "deprecated", "readOnly", "writeOnly", "examples"}

  /** A value is allowed when every keyword of the schema holds of it. */
  ghost predicate Allows(n: Numbers, extra: Extra, schema: Json, v: Json)
    decreases schema, 1
  {
    match schema
    case Bool(b) => b
    case Obj(s) => forall k :: k in s ==> Holds(n, extra, schema, k, v)
    case _ => true
  }

  /** One keyword. Malformed arguments ask nothing. */
  ghost predicate Holds(n: Numbers, extra: Extra, schema: Json, k: string, v: Json)
    requires schema.Obj? && k in schema.fields
    decreases schema, 0
  {
    var s := schema.fields;
    var arg := s[k];
    if k == "type" then
      TypeHolds(n, arg, v)
    else if k == "enum" then
      arg.Arr? ==> exists i :: 0 <= i < |arg.items| && Same(n, arg.items[i], v)
    else if k == "const" then
      Same(n, arg, v)
    else if k == "required" then
      v.Obj? && arg.Arr? ==> forall name: string :: Str(name) in arg.items ==> name in v.fields
    else if k == "properties" then
      arg.Obj? && v.Obj? ==> forall p :: p in v.fields && p in arg.fields ==> Allows(n, extra, arg.fields[p], v.fields[p])
    else if k == "additionalProperties" then
      v.Obj? ==> forall p :: p in v.fields && !("properties" in s && s["properties"].Obj? && p in s["properties"].fields) ==>
        Allows(n, extra, arg, v.fields[p])
    else if k == "items" then
      v.Arr? ==> forall i :: 0 <= i < |v.items| ==> Allows(n, extra, arg, v.items[i])
    else if k == "allOf" then
      arg.Arr? ==> forall i :: 0 <= i < |arg.items| ==> Allows(n, extra, arg.items[i], v)
    else if k == "anyOf" then
      arg.Arr? ==> exists i :: 0 <= i < |arg.items| && Allows(n, extra, arg.items[i], v)
    else if k == "oneOf" then
      // Section 10.2.1.3 of JSON Schema Core 2020-12: exactly one.
      arg.Arr? ==> ExactlyOne(Branches(n, extra, schema, arg.items, v))
    else if k in SILENT then true
    else extra(k, arg, v)
  }

  /** Which of the schemas allow the value. */
  ghost function Branches(n: Numbers, extra: Extra, schema: Json, subs: seq<Json>, v: Json): (r: seq<bool>)
    requires forall i :: 0 <= i < |subs| ==> subs[i] < schema
    ensures |r| == |subs| && forall i :: 0 <= i < |r| ==> r[i] == Allows(n, extra, subs[i], v)
    decreases schema, -1
  {
    seq(|subs|, i requires 0 <= i < |subs| => Allows(n, extra, subs[i], v))
  }

  predicate ExactlyOne(b: seq<bool>) { exists i :: 0 <= i < |b| && Alone(b, i) }

  predicate Alone(b: seq<bool>, i: nat)
    requires i < |b|
  {
    b[i] && forall j :: 0 <= j < |b| && j != i ==> !b[j]
  }

  /** The types a value has (section 6.1.1 of JSON Schema Validation 2020-12). */
  function TypesOf(n: Numbers, v: Json): set<string> {
    match v
    case Null => {"null"}
    case Bool(_) => {"boolean"}
    case Num(token) => if n.integer(token) then {"number", "integer"} else {"number"}
    case Str(_) => {"string"}
    case Arr(_) => {"array"}
    case Obj(_) => {"object"}
  }

  /** The value is of the type named, if it is a type's name. */
  predicate IsOfType(n: Numbers, v: Json, kind: string) {
    kind in {"null", "boolean", "object", "array", "number", "string", "integer"} ==> kind in TypesOf(n, v)
  }

  predicate TypeHolds(n: Numbers, arg: Json, v: Json) {
    match arg
    case Str(kind) => IsOfType(n, v, kind)
    case Arr(items) =>
      (exists i :: 0 <= i < |items| && items[i].Str?) ==> exists i :: 0 <= i < |items| && items[i].Str? && IsOfType(n, v, items[i].s)
    case _ => true
  }

  // ---- one-sided, and exact where decidable ----

  /** The validator rejects nothing the schema allows; on a decidable schema it is exact. */
  ghost predicate Agrees(n: Numbers, extra: Extra, schema: Json, v: Json) {
    && (Allows(n, extra, schema, v) ==> Validate(n, schema, v))
    && (Decidable(schema) && Validate(n, schema, v) ==> Allows(n, extra, schema, v))
  }

  lemma HasTypeIs(n: Numbers, v: Json, kind: string)
    ensures HasType(n, v, kind) <==> IsOfType(n, v, kind)
  {}

  lemma TypeAgrees(n: Numbers, raw: Json, v: Json)
    ensures CheckType(n, raw, v) <==> TypeHolds(n, raw, v)
  {
    hide HasType, IsOfType;
    forall kind ensures HasType(n, v, kind) <==> IsOfType(n, v, kind) { HasTypeIs(n, v, kind); }
    if raw.Arr? {
      var kinds := Strings(raw.items);
      if i :| 0 <= i < |raw.items| && raw.items[i].Str? && HasType(n, v, raw.items[i].s) {
        assert raw.items[i].s in kinds;
      }
      if i :| 0 <= i < |kinds| && HasType(n, v, kinds[i]) { assert kinds[i] in kinds; }
      if i :| 0 <= i < |raw.items| && raw.items[i].Str? { assert raw.items[i].s in kinds; }
      if kinds != [] { assert kinds[0] in kinds; }
    } else if raw.Str? {
      assert SchemaTypes(raw) == [raw.s];
      assert HasType(n, v, raw.s) <==> HasType(n, v, SchemaTypes(raw)[0]);
    }
  }

  lemma EnumAgrees(n: Numbers, extra: Extra, schema: Json, v: Json)
    requires schema.Obj? && "enum" in schema.fields
    ensures CheckEnum(n, schema.fields["enum"], v) <==> Holds(n, extra, schema, "enum", v)
  {
    var raw := schema.fields["enum"];
    if raw.Arr? {
      forall i | 0 <= i < |raw.items| ensures JsonEqual(n, raw.items[i], v) <==> Same(n, raw.items[i], v) {
        JsonEqualIsSame(n, raw.items[i], v);
      }
    }
  }

  /** The counter counts the branches that match. */
  lemma {:induction false} CountIsSize(b: seq<bool>)
    ensures Count(b) == |set i | 0 <= i < |b| && b[i]|
  {
    var all := set i | 0 <= i < |b| && b[i];
    if b != [] {
      var n := |b| - 1;
      var p := b[..n];
      CountIsSize(p);
      var before := set i | 0 <= i < |p| && p[i];
      assert all == before + if b[n] then {n} else {};
    }
  }

  /** So it is one exactly if one branch matches and no other does. */
  lemma CountOne(b: seq<bool>)
    ensures Count(b) == 1 <==> ExactlyOne(b)
  {
    CountIsSize(b);
    var all := set i | 0 <= i < |b| && b[i];
    if i :| 0 <= i < |b| && Alone(b, i) { assert all == {i}; }
    if |all| == 1 {
      var i :| i in all;
      assert |all - {i}| == 0;
      forall j | 0 <= j < |b| && j != i ensures !b[j] { assert j !in all - {i}; }
      assert Alone(b, i);
    }
  }

  // The main induction: schemas within a schema are smaller, whatever value they are asked of.

  lemma OneAgrees(n: Numbers, extra: Extra, schema: Json, subs: seq<Json>, v: Json)
    requires forall i :: 0 <= i < |subs| ==> subs[i] < schema
    ensures ExactlyOne(Branches(n, extra, schema, subs, v)) ==> CheckOne(n, schema, subs, v)
    ensures (forall i :: 0 <= i < |subs| ==> Decidable(subs[i])) && CheckOne(n, schema, subs, v) ==>
      ExactlyOne(Branches(n, extra, schema, subs, v))
    decreases schema, 0
  {
    hide Validate, Allows, Decidable, Count, ExactlyOne;
    var allowed, matched := Branches(n, extra, schema, subs, v), Matches(n, schema, subs, v);
    forall i | 0 <= i < |subs| ensures Agrees(n, extra, subs[i], v) { ValidatorAgrees(n, extra, subs[i], v); }
    CountOne(matched);
    if forall i :: 0 <= i < |subs| ==> Decidable(subs[i]) {
      forall i | 0 <= i < |subs| ensures allowed[i] == matched[i] { assert Agrees(n, extra, subs[i], v); }
      assert allowed == matched;
    } else if ExactlyOne(allowed) {
      var i := TheOne(allowed);
      assert Agrees(n, extra, subs[i], v);
    }
  }

  lemma TheOne(b: seq<bool>) returns (i: nat)
    requires ExactlyOne(b)
    ensures i < |b| && b[i]
  {
    i :| i < |b| && Alone(b, i);
  }

  lemma ListAgrees(n: Numbers, extra: Extra, schema: Json, subs: seq<Json>, v: Json)
    requires forall i :: 0 <= i < |subs| ==> subs[i] < schema
    ensures (forall i :: 0 <= i < |subs| ==> Allows(n, extra, subs[i], v)) ==> CheckAll(n, schema, subs, v)
    ensures (exists i :: 0 <= i < |subs| && Allows(n, extra, subs[i], v)) ==> CheckAny(n, schema, subs, v)
    ensures (forall i :: 0 <= i < |subs| ==> Decidable(subs[i])) ==>
      && (CheckAll(n, schema, subs, v) ==> forall i :: 0 <= i < |subs| ==> Allows(n, extra, subs[i], v))
      && (CheckAny(n, schema, subs, v) ==> exists i :: 0 <= i < |subs| && Allows(n, extra, subs[i], v))
    decreases schema, 0
  {
    hide Validate, Allows, Decidable;
    forall i | 0 <= i < |subs| ensures Agrees(n, extra, subs[i], v) { ValidatorAgrees(n, extra, subs[i], v); }
  }

  lemma ItemsAgree(n: Numbers, extra: Extra, schema: Json, items: Json, v: Json)
    requires items < schema && v.Arr?
    ensures (forall i :: 0 <= i < |v.items| ==> Allows(n, extra, items, v.items[i])) ==> CheckItems(n, schema, items, v)
    ensures Decidable(items) && CheckItems(n, schema, items, v) ==> forall i :: 0 <= i < |v.items| ==> Allows(n, extra, items, v.items[i])
    decreases schema, 0
  {
    hide Validate, Allows, Decidable;
    forall i | 0 <= i < |v.items| ensures Agrees(n, extra, items, v.items[i]) { ValidatorAgrees(n, extra, items, v.items[i]); }
  }

  /** What the schema says of one property. */
  ghost predicate PropertyHolds(n: Numbers, extra: Extra, schema: Json, p: string, value: Json)
    requires schema.Obj?
  {
    var s := schema.fields;
    if Declared(s, p) then Allows(n, extra, s["properties"].fields[p], value)
    else "additionalProperties" in s ==> Allows(n, extra, s["additionalProperties"], value)
  }

  lemma PropertyAgrees(n: Numbers, extra: Extra, schema: Json, p: string, value: Json)
    requires schema.Obj?
    ensures PropertyHolds(n, extra, schema, p, value) ==> CheckProperty(n, schema, p, value)
    ensures Decidable(schema) && CheckProperty(n, schema, p, value) ==> PropertyHolds(n, extra, schema, p, value)
    decreases schema, 0
  {
    var s := schema.fields;
    if Declared(s, p) {
      ValidatorAgrees(n, extra, s["properties"].fields[p], value);
    } else if "additionalProperties" in s {
      ValidatorAgrees(n, extra, s["additionalProperties"], value);
    }
  }

  /** The two keywords for properties, taken property by property. */
  lemma PropertiesHold(n: Numbers, extra: Extra, schema: Json, v: Json)
    requires schema.Obj? && v.Obj?
    ensures (forall p :: p in v.fields ==> PropertyHolds(n, extra, schema, p, v.fields[p])) <==>
      && ("properties" in schema.fields ==> Holds(n, extra, schema, "properties", v))
      && ("additionalProperties" in schema.fields ==> Holds(n, extra, schema, "additionalProperties", v))
  {
    var s := schema.fields;
    if forall p :: p in v.fields ==> PropertyHolds(n, extra, schema, p, v.fields[p]) {
      if "properties" in s && s["properties"].Obj? {
        forall p | p in v.fields && p in s["properties"].fields ensures Allows(n, extra, s["properties"].fields[p], v.fields[p]) {
          assert PropertyHolds(n, extra, schema, p, v.fields[p]);
        }
      }
      if "additionalProperties" in s {
        forall p | p in v.fields && !Declared(s, p) ensures Allows(n, extra, s["additionalProperties"], v.fields[p]) {
          assert PropertyHolds(n, extra, schema, p, v.fields[p]);
        }
      }
    }
  }

  lemma PropertiesAgree(n: Numbers, extra: Extra, schema: Json, v: Json)
    requires schema.Obj? && v.Obj?
    ensures Required(schema.fields, v) && (forall p :: p in v.fields ==> PropertyHolds(n, extra, schema, p, v.fields[p])) ==>
      ValidateProperties(n, schema, v)
    ensures Decidable(schema) && ValidateProperties(n, schema, v) ==>
      Required(schema.fields, v) && forall p :: p in v.fields ==> PropertyHolds(n, extra, schema, p, v.fields[p])
    decreases schema, 1
  {
    hide Decidable, PropertyHolds, CheckProperty, Required;
    forall p | p in v.fields
      ensures PropertyHolds(n, extra, schema, p, v.fields[p]) ==> CheckProperty(n, schema, p, v.fields[p])
      ensures Decidable(schema) && CheckProperty(n, schema, p, v.fields[p]) ==> PropertyHolds(n, extra, schema, p, v.fields[p])
    {
      PropertyAgrees(n, extra, schema, p, v.fields[p]);
    }
  }

  /** The check the validator makes for one keyword; the property keywords share one. */
  ghost predicate Check(n: Numbers, schema: Json, k: string, v: Json)
    requires schema.Obj? && k in schema.fields
  {
    var arg := schema.fields[k];
    if k == "type" then CheckType(n, arg, v)
    else if k == "enum" then CheckEnum(n, arg, v)
    else if k == "const" then JsonEqual(n, arg, v)
    else if k == "items" then v.Arr? ==> CheckItems(n, schema, arg, v)
    else if k == "allOf" then arg.Arr? ==> CheckAll(n, schema, arg.items, v)
    else if k == "anyOf" then arg.Arr? ==> CheckAny(n, schema, arg.items, v)
    else if k == "oneOf" then arg.Arr? ==> CheckOne(n, schema, arg.items, v)
    else true
  }

  const PROPERTY_KEYWORDS: set<string> := {"properties", "required", "additionalProperties"}

  lemma KeywordAgrees(n: Numbers, extra: Extra, schema: Json, k: string, v: Json)
    requires schema.Obj? && k in schema.fields && k !in PROPERTY_KEYWORDS
    ensures Holds(n, extra, schema, k, v) ==> Check(n, schema, k, v)
    ensures Decidable(schema) && Check(n, schema, k, v) ==> Holds(n, extra, schema, k, v)
    decreases schema, 1, 1
  {
    hide CheckType, CheckEnum, CheckItems, CheckAll, CheckAny, CheckOne, JsonEqual, Same, TypeHolds;
    var arg := schema.fields[k];
    if k == "type" {
      TypeAgrees(n, arg, v);
    } else if k == "enum" {
      EnumAgrees(n, extra, schema, v);
    } else if k == "const" {
      JsonEqualIsSame(n, arg, v);
    } else if k == "items" {
      if v.Arr? { ItemsAgree(n, extra, schema, arg, v); }
    } else if k == "allOf" || k == "anyOf" {
      if arg.Arr? { ListAgrees(n, extra, schema, arg.items, v); }
    } else if k == "oneOf" {
      OneKeyword(n, extra, schema, v);
    }
  }

  lemma OneKeyword(n: Numbers, extra: Extra, schema: Json, v: Json)
    requires schema.Obj? && "oneOf" in schema.fields
    ensures Holds(n, extra, schema, "oneOf", v) ==> Check(n, schema, "oneOf", v)
    ensures Decidable(schema) && Check(n, schema, "oneOf", v) ==> Holds(n, extra, schema, "oneOf", v)
    decreases schema, 1, 0
  {
    hide CheckOne;
    var arg := schema.fields["oneOf"];
    if arg.Arr? {
      OneAgrees(n, extra, schema, arg.items, v);
    }
  }

  lemma ValidateByKeyword(n: Numbers, schema: Json, v: Json)
    requires schema.Obj?
    ensures ValidateObject(n, schema, v) <==>
      (v.Obj? ==> ValidateProperties(n, schema, v)) && forall k :: k in schema.fields ==> Check(n, schema, k, v)
  {
    hide CheckType, CheckEnum, CheckItems, CheckAll, CheckAny, CheckOne, JsonEqual, ValidateProperties;
    var s := schema.fields;
    if forall k :: k in s ==> Check(n, schema, k, v) {
      forall k | k in s ensures Check(n, schema, k, v) {}
      assert "type" in s ==> Check(n, schema, "type", v);
      assert "enum" in s ==> Check(n, schema, "enum", v);
      assert "const" in s ==> Check(n, schema, "const", v);
      assert "items" in s ==> Check(n, schema, "items", v);
      assert "allOf" in s ==> Check(n, schema, "allOf", v);
      assert "anyOf" in s ==> Check(n, schema, "anyOf", v);
      assert "oneOf" in s ==> Check(n, schema, "oneOf", v);
    }
  }

  /** The validator never rejects a value the full schema allows, whatever the keywords it
      does not enforce ask; on a schema without any such keyword it accepts exactly the
      values allowed, exactly-one oneOf included. */
  lemma {:induction false} ValidatorAgrees(n: Numbers, extra: Extra, schema: Json, v: Json)
    ensures Allows(n, extra, schema, v) ==> Validate(n, schema, v)
    ensures Decidable(schema) ==> (Validate(n, schema, v) <==> Allows(n, extra, schema, v))
    decreases schema, 2
  {
    hide Holds, Check, Decidable, ValidateObject, PropertyHolds, ValidateProperties;
    if schema.Obj? {
      var s := schema.fields;
      ValidateByKeyword(n, schema, v);
      forall k | k in s && k !in PROPERTY_KEYWORDS
        ensures Holds(n, extra, schema, k, v) ==> Check(n, schema, k, v)
        ensures Decidable(schema) && Check(n, schema, k, v) ==> Holds(n, extra, schema, k, v)
      {
        KeywordAgrees(n, extra, schema, k, v);
      }
      forall k | k in s && k in PROPERTY_KEYWORDS ensures Check(n, schema, k, v) && (!v.Obj? ==> Holds(n, extra, schema, k, v)) {
        PropertyKeyword(n, extra, schema, k, v);
      }
      if v.Obj? {
        PropertiesAgree(n, extra, schema, v);
        PropertiesHold(n, extra, schema, v);
        RequiredHolds(n, extra, schema, v);
      }
    }
  }

  lemma PropertyKeyword(n: Numbers, extra: Extra, schema: Json, k: string, v: Json)
    requires schema.Obj? && k in schema.fields && k in PROPERTY_KEYWORDS
    ensures Check(n, schema, k, v) && (!v.Obj? ==> Holds(n, extra, schema, k, v))
  {}

  lemma RequiredHolds(n: Numbers, extra: Extra, schema: Json, v: Json)
    requires schema.Obj? && v.Obj?
    ensures Required(schema.fields, v) <==> ("required" in schema.fields ==> Holds(n, extra, schema, "required", v))
  {
    if "required" in schema.fields && schema.fields["required"].Arr? {
      var items := schema.fields["required"].items;
      if Required(schema.fields, v) {
        forall name: string | Str(name) in items ensures name in v.fields {
          var i :| 0 <= i < |items| && items[i] == Str(name);
          assert items[i].Str? && items[i].s == name;
        }
      }
      forall i | 0 <= i < |items| && items[i].Str? ensures Str(items[i].s) in items { assert items[i] == Str(items[i].s); }
    }
  }

  /** So a decidable schema means the same whatever unenforced keywords mean elsewhere. */
  lemma DecidableIgnoresExtra(n: Numbers, extra: Extra, other: Extra, schema: Json, v: Json)
    requires Decidable(schema)
    ensures Allows(n, extra, schema, v) <==> Allows(n, other, schema, v)
  {
    ValidatorAgrees(n, extra, schema, v);
    ValidatorAgrees(n, other, schema, v);
  }

  // ---- what decidable means ----

  /** c is a schema that s applies, somewhere in the value or beside others. */
  ghost predicate Applies(s: Json, c: Json) {
    s.Obj? &&
    var f := s.fields;
    || ("properties" in f && f["properties"].Obj? && exists k :: k in f["properties"].fields && c == f["properties"].fields[k])
    || ("additionalProperties" in f && c == f["additionalProperties"])
    || ("items" in f && c == f["items"])
    || ("allOf" in f && f["allOf"].Arr? && c in f["allOf"].items)
    || ("anyOf" in f && f["anyOf"].Arr? && c in f["anyOf"].items)
    || ("oneOf" in f && f["oneOf"].Arr? && c in f["oneOf"].items)
  }

  /** sub is applied by schema, n levels down. */
  ghost predicate AppliesWithin(schema: Json, sub: Json, n: nat) {
    if n == 0 then sub == schema else exists c :: Applies(schema, c) && AppliesWithin(c, sub, n - 1)
  }

  /** It has only keywords that the validator enforces, or that assert nothing. */
  predicate OnlyEnforced(s: Json) {
    s.Obj? ==> forall k :: k in s.fields ==>
      k in {"type", "enum", "const", "properties", "required", "additionalProperties", "items", "allOf", "anyOf", "oneOf"} || k in SILENT
  }

  /** Every schema applied, at any depth, has only such keywords. */
  ghost predicate EnforcedThroughout(schema: Json) { forall sub, n: nat :: AppliesWithin(schema, sub, n) ==> OnlyEnforced(sub) }

  lemma DecidableStep(schema: Json)
    ensures Decidable(schema) <==> OnlyEnforced(schema) && forall c :: Applies(schema, c) ==> Decidable(c)
  {
    if schema.Obj? {
      var f := schema.fields;
      if forall c :: Applies(schema, c) ==> Decidable(c) {
        forall k | "properties" in f && f["properties"].Obj? && k in f["properties"].fields ensures Decidable(f["properties"].fields[k]) {
          assert Applies(schema, f["properties"].fields[k]);
        }
        forall i | "allOf" in f && f["allOf"].Arr? && 0 <= i < |f["allOf"].items| ensures Decidable(f["allOf"].items[i]) {
          assert Applies(schema, f["allOf"].items[i]);
        }
        forall i | "anyOf" in f && f["anyOf"].Arr? && 0 <= i < |f["anyOf"].items| ensures Decidable(f["anyOf"].items[i]) {
          assert Applies(schema, f["anyOf"].items[i]);
        }
        forall i | "oneOf" in f && f["oneOf"].Arr? && 0 <= i < |f["oneOf"].items| ensures Decidable(f["oneOf"].items[i]) {
          assert Applies(schema, f["oneOf"].items[i]);
        }
        assert "items" in f ==> Applies(schema, f["items"]);
        assert "additionalProperties" in f ==> Applies(schema, f["additionalProperties"]);
      }
    }
  }

  lemma AppliesSmaller(s: Json, c: Json)
    requires Applies(s, c)
    ensures c < s
  {}

  lemma {:induction false} DecidableWithin(schema: Json, sub: Json, n: nat)
    requires Decidable(schema) && AppliesWithin(schema, sub, n)
    ensures OnlyEnforced(sub)
    decreases n
  {
    hide Decidable, OnlyEnforced, Applies;
    DecidableStep(schema);
    if n > 0 {
      var c :| Applies(schema, c) && AppliesWithin(c, sub, n - 1);
      DecidableWithin(c, sub, n - 1);
    }
  }

  /** decidable holds exactly of the schemas that apply, at any depth, only enforced keywords. */
  lemma {:induction false} DecidableExactly(schema: Json)
    ensures Decidable(schema) <==> EnforcedThroughout(schema)
  {
    hide Decidable, OnlyEnforced, Applies;
    DecidableStep(schema);
    if Decidable(schema) {
      forall sub, n: nat | AppliesWithin(schema, sub, n) ensures OnlyEnforced(sub) { DecidableWithin(schema, sub, n); }
    }
    if EnforcedThroughout(schema) {
      assert AppliesWithin(schema, schema, 0);
      forall c | Applies(schema, c) ensures Decidable(c) {
        AppliesSmaller(schema, c);
        forall sub, n: nat | AppliesWithin(c, sub, n) ensures OnlyEnforced(sub) { assert AppliesWithin(schema, sub, n + 1); }
        DecidableExactly(c);
      }
    }
  }
}
