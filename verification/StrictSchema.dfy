/** Rewriting JSON schemas to strict form (fsq_agent/agent_engine/_schema.py:50-189): shapes,
    inlining of `allOf` and `$ref`, and the form of the result. */
module StrictSchema {
  import opened Wrappers
  import opened SchemaValues

  const SCALARS: set<string> := ANNOTATIONS + {"type", "enum", "const", "format", "pattern", "minLength", "maxLength",
                                               "minimum", "maximum", "exclusiveMinimum", "exclusiveMaximum",
                                               "multipleOf", "minItems", "maxItems"}

  const KINDS: set<string> := {"object", "array", "string", "number", "integer", "boolean", "null"}

  const FORMATS: set<string> := {"date-time", "time", "date", "duration", "email", "hostname", "ipv4", "ipv6", "uuid"}

  /** The shapes of keywords without sub-schemas. */
  predicate ScalarShape(key: string, value: Json) {
    match key
    case "type" =>
      || (value.JText? && value.s in KINDS)
      || (value.JList? && value.items != [] && (forall k | k in value.items :: k.JText? && k.s in KINDS)
          && Distinct(value.items))
    case "title" => value.JText?
    case "description" => value.JText?
    case "pattern" => value.JText?
    case "format" => value.JText? && value.s in FORMATS
    case "minLength" => value.JInt? && value.i >= 0
    case "maxLength" => value.JInt? && value.i >= 0
    case "minItems" => value.JInt? && value.i >= 0
    case "maxItems" => value.JInt? && value.i >= 0
    case "minimum" => value.JInt? || value.JReal?
    case "maximum" => value.JInt? || value.JReal?
    case "exclusiveMinimum" => value.JInt? || value.JReal?
    case "exclusiveMaximum" => value.JInt? || value.JReal?
    case "multipleOf" => (value.JInt? && value.i > 0) || (value.JReal? && value.r > 0.0)
    case "enum" => value.JList? && value.items != []
    case _ => true
  }

  /** _validate_schema_shapes and the keyword checks around it. */
  predicate Shaped(refs: set<string>, s: Schema) {
    && s.scalars.Keys <= SCALARS
    && (forall key | key in s.scalars :: ScalarShape(key, s.scalars[key]))
    && (s.props.Props? ==> Distinct(Names(s.props.entries)))
    && (s.required.Some? ==>
          && Distinct(s.required.value)
          && (s.props.Props? ==> forall name | name in s.required.value :: name in Names(s.props.entries)))
    && s.additional != Some(Otherwise)
    && (s.anyOf.Variants? ==> s.anyOf.schemas != [])
    && (s.allOf.Variants? ==> s.allOf.schemas != [])
    && (s.ref.Some? ==> s.ref.value in refs)
  }

  predicate IsObject(s: Schema) {
    "type" in s.scalars && s.scalars["type"] == JText("object")
  }

  /** The schema has no keyword besides its reference. */
  predicate RefAlone(s: Schema) {
    s.scalars == map[] && s.props.NoProps? && s.required.None? && s.additional.None? && s.items.NoItems?
        && s.anyOf.NoVariants? && s.allOf.NoVariants?
  }

  // ---- merging ----

  predicate ScalarsAgree(base: map<string, Json>, overlay: map<string, Json>) {
    forall key | key in overlay && key !in ANNOTATIONS && key in base :: PythonEqual(base[key], overlay[key])
  }

  /** _merge_constraints, None when two keywords are not equal for Python. */
  function Merge(base: Schema, overlay: Schema): Option<Schema> {
    if !ScalarsAgree(base.scalars, overlay.scalars)
       || (base.ref.Some? && overlay.ref.Some? && base.ref != overlay.ref)
       || (base.props.Props? && overlay.props.Props? && !SameEntries(base.props.entries, overlay.props.entries))
       || (base.required.Some? && overlay.required.Some? && base.required != overlay.required)
       || (base.additional.Some? && overlay.additional.Some? && base.additional != overlay.additional)
       || (base.items.Items? && overlay.items.Items? && !SamePython(base.items.schema, overlay.items.schema))
       || (base.anyOf.Variants? && overlay.anyOf.Variants? && !SameEach(base.anyOf.schemas, overlay.anyOf.schemas))
       || (base.allOf.Variants? && overlay.allOf.Variants?
           && !SameEach(base.allOf.schemas, overlay.allOf.schemas)) then None
    else
      Some(Schema(base.scalars + overlay.scalars,
                  if overlay.ref.Some? then overlay.ref else base.ref,
                  if overlay.props.Props? then overlay.props else base.props,
                  if overlay.required.Some? then overlay.required else base.required,
                  if overlay.additional.Some? then overlay.additional else base.additional,
                  if overlay.items.Items? then overlay.items else base.items,
                  if overlay.anyOf.Variants? then overlay.anyOf else base.anyOf,
                  if overlay.allOf.Variants? then overlay.allOf else base.allOf))
  }

  // ---- the pass ----

  /** A node after its own rewriting: finished, or with a reference inlined and to be rewritten again. */
  datatype Rewritten = Done(schema: Schema) | Again(schema: Schema) | Rejected

  /** _ensure_strict_json_schema. `depth` is how deep the interpreter can still recurse: running out
      of it is an error like any other. */
  function Strict(defs: Table, s: Schema, holdsDefs: bool, depth: nat): Option<Schema>
    decreases depth, 2
  {
    if depth == 0 then None
    else
      match Rewrite(defs, s, holdsDefs, depth)
      case Done(r) => Some(r)
      case Again(r) => Strict(defs, r, holdsDefs, depth - 1)
      case Rejected => None
  }

  /** One visit of a node, up to the inlining of its reference. */
  function Rewrite(defs: Table, s: Schema, holdsDefs: bool, depth: nat): Rewritten
    requires depth > 0
    decreases depth, 1
  {
    if !Shaped(defs.Keys, s) then Rejected
    else
      var own := StrictParts(defs, s, depth);
      if own.None? then Rejected
      else
        var merged := InlineAllOf(defs, own.value, depth);
        if merged.None? then Rejected
        else InlineRef(defs, DropNullDefault(merged.value), holdsDefs)
  }

  /** Closes object nodes and rewrites properties, items and anyOf. */
  function StrictParts(defs: Table, s: Schema, depth: nat): Option<Schema>
    requires depth > 0
    decreases depth, 0
  {
    var props := if s.props.Props? then StrictEntries(defs, s.props.entries, depth - 1) else Some([]);
    var items := if s.items.Items? then Strict(defs, s.items.schema, false, depth - 1) else Some(s);
    var anyOf := if s.anyOf.Variants? then StrictEach(defs, s.anyOf.schemas, depth - 1) else Some([]);
    if props.None? || items.None? || anyOf.None? then None
    else Some(s.(additional := if IsObject(s) then Some(Closed) else s.additional,
                 required := if s.props.Props? then Some(Names(s.props.entries)) else s.required,
                 props := if s.props.Props? then Props(props.value) else NoProps,
                 items := if s.items.Items? then Items(items.value) else NoItems,
                 anyOf := if s.anyOf.Variants? then Variants(anyOf.value) else NoVariants))
  }

  function StrictEntries(defs: Table, entries: seq<Entry>, depth: nat): Option<seq<Entry>>
    decreases depth, 3, |entries|
  {
    if entries == [] then Some([])
    else
      var first := Strict(defs, entries[0].schema, false, depth);
      var rest := StrictEntries(defs, entries[1..], depth);
      if first.Some? && rest.Some? then Some([Entry(entries[0].name, first.value)] + rest.value) else None
  }

  function StrictEach(defs: Table, schemas: seq<Schema>, depth: nat): Option<seq<Schema>>
    decreases depth, 3, |schemas|
  {
    if schemas == [] then Some([])
    else
      var first := Strict(defs, schemas[0], false, depth);
      var rest := StrictEach(defs, schemas[1..], depth);
      if first.Some? && rest.Some? then Some([first.value] + rest.value) else None
  }

  function InlineAllOf(defs: Table, s: Schema, depth: nat): Option<Schema>
    requires depth > 0
    decreases depth, 0
  {
    if s.allOf.NoVariants? then Some(s)
    else if |s.allOf.schemas| != 1 then None
    else
      var nested := Strict(defs, s.allOf.schemas[0], false, depth - 1);
      if nested.None? then None
      else
        var merged := Merge(s, nested.value);
        if merged.None? then None else Some(merged.value.(allOf := NoVariants))
  }

  function DropNullDefault(s: Schema): Schema {
    if "default" in s.scalars && s.scalars["default"] == JNull then s.(scalars := s.scalars - {"default"}) else s
  }

  function InlineRef(defs: Table, s: Schema, holdsDefs: bool): Rewritten {
    if s.ref.None? || (RefAlone(s) && !holdsDefs) then Done(s)
    else if s.ref.value !in defs then Rejected
    else
      var merged := Merge(defs[s.ref.value], s);
      if merged.None? then Rejected else Again(merged.value.(ref := None))
  }

  /** Properties keep their names and order; each is rewritten on its own. */
  lemma {:induction false} EntriesRewritten(defs: Table, entries: seq<Entry>, depth: nat)
    ensures var r := StrictEntries(defs, entries, depth);
            && (r.Some? <==> forall i | 0 <= i < |entries| :: Strict(defs, entries[i].schema, false, depth).Some?)
            && (r.Some? ==>
                  && |r.value| == |entries|
                  && forall i | 0 <= i < |entries| ::
                       r.value[i].name == entries[i].name
                           && Strict(defs, entries[i].schema, false, depth) == Some(r.value[i].schema))
    decreases |entries|
  {
    hide Strict;
    if entries != [] {
      EntriesRewritten(defs, entries[1..], depth);
      assert forall i | 0 <= i < |entries[1..]| :: entries[1..][i] == entries[i + 1];
      assert forall i | 0 < i < |entries| :: entries[i] == entries[1..][i - 1];
    }
  }

  lemma {:induction false} EachRewritten(defs: Table, schemas: seq<Schema>, depth: nat)
    ensures var r := StrictEach(defs, schemas, depth);
            && (r.Some? <==> forall i | 0 <= i < |schemas| :: Strict(defs, schemas[i], false, depth).Some?)
            && (r.Some? ==> |r.value| == |schemas| && forall i | 0 <= i < |schemas| ::
                  Strict(defs, schemas[i], false, depth) == Some(r.value[i]))
    decreases |schemas|
  {
    hide Strict;
    if schemas != [] {
      EachRewritten(defs, schemas[1..], depth);
      assert forall i | 0 <= i < |schemas[1..]| :: schemas[1..][i] == schemas[i + 1];
      assert forall i | 0 < i < |schemas| :: schemas[i] == schemas[1..][i - 1];
    }
  }

  // ---- the form of the result ----

  /** A strict node: no allOf, no null default, a reference only on its own, object nodes closed,
      properties all required, and the same below. */
  predicate StrictForm(refs: set<string>, s: Schema, holdsDefs: bool, depth: nat)
    decreases depth, 0
  {
    && depth > 0
    && Shaped(refs, s)
    && s.allOf.NoVariants?
    && !("default" in s.scalars && s.scalars["default"] == JNull)
    && (s.ref.Some? ==> RefAlone(s) && !holdsDefs)
    && (IsObject(s) ==> s.additional == Some(Closed))
    && PartsStrict(refs, s, depth - 1)
  }

  predicate PartsStrict(refs: set<string>, s: Schema, depth: nat)
    decreases depth, 1
  {
    && (s.props.Props? ==>
          && s.required == Some(Names(s.props.entries))
          && forall i | 0 <= i < |s.props.entries| :: StrictForm(refs, s.props.entries[i].schema, false, depth))
    && (s.items.Items? ==> StrictForm(refs, s.items.schema, false, depth))
    && (s.anyOf.Variants? ==> forall i | 0 <= i < |s.anyOf.schemas| ::
          StrictForm(refs, s.anyOf.schemas[i], false, depth))
  }

  lemma {:induction false} FormDeeper(refs: set<string>, s: Schema, holdsDefs: bool, depth: nat, deeper: nat)
    requires StrictForm(refs, s, holdsDefs, depth) && depth <= deeper
    ensures StrictForm(refs, s, holdsDefs, deeper)
    decreases depth, 0
  {
    PartsDeeper(refs, s, depth - 1, deeper - 1);
  }

  lemma {:induction false} PartsDeeper(refs: set<string>, s: Schema, depth: nat, deeper: nat)
    requires PartsStrict(refs, s, depth) && depth <= deeper
    ensures PartsStrict(refs, s, deeper)
    decreases depth, 1
  {
    if s.props.Props? {
      forall i | 0 <= i < |s.props.entries|
        ensures StrictForm(refs, s.props.entries[i].schema, false, deeper)
      {
        FormDeeper(refs, s.props.entries[i].schema, false, depth, deeper);
      }
    }
    if s.items.Items? {
      FormDeeper(refs, s.items.schema, false, depth, deeper);
    }
    if s.anyOf.Variants? {
      forall i | 0 <= i < |s.anyOf.schemas|
        ensures StrictForm(refs, s.anyOf.schemas[i], false, deeper)
      {
        FormDeeper(refs, s.anyOf.schemas[i], false, depth, deeper);
      }
    }
  }

  /** What holds of a node once its own parts are strict, whatever its reference, allOf and default. */
  predicate HalfStrict(refs: set<string>, s: Schema, depth: nat) {
    Shaped(refs, s) && (IsObject(s) ==> s.additional == Some(Closed)) && PartsStrict(refs, s, depth)
  }

  lemma ShapeKept(refs: set<string>, s: Schema, own: Schema)
    requires Shaped(refs, s) && own.scalars == s.scalars && own.ref == s.ref && own.allOf == s.allOf
    requires (own.props.Props? <==> s.props.Props?)
    requires (s.props.Props? ==> Names(own.props.entries) == Names(s.props.entries))
    requires own.required == if s.props.Props? then Some(Names(s.props.entries)) else s.required
    requires own.additional == s.additional || own.additional == Some(Closed)
    requires (own.anyOf.Variants? <==> s.anyOf.Variants?)
    requires (s.anyOf.Variants? ==> |own.anyOf.schemas| == |s.anyOf.schemas|)
    ensures Shaped(refs, own)
  {
    hide ScalarShape, Names;
  }

  lemma {:induction false} EntriesBecomeStrict(defs: Table, entries: seq<Entry>, depth: nat)
    requires StrictEntries(defs, entries, depth).Some?
    ensures var r := StrictEntries(defs, entries, depth).value;
            Names(r) == Names(entries) && forall i | 0 <= i < |r| :: StrictForm(defs.Keys, r[i].schema, false, depth)
    decreases depth, 2
  {
    hide Strict, StrictForm, StrictEntries;
    EntriesRewritten(defs, entries, depth);
    forall i | 0 <= i < |entries|
      ensures StrictForm(defs.Keys, StrictEntries(defs, entries, depth).value[i].schema, false, depth)
    {
      ResultIsStrict(defs, entries[i].schema, false, depth);
    }
  }

  lemma {:induction false} EachBecomesStrict(defs: Table, schemas: seq<Schema>, depth: nat)
    requires StrictEach(defs, schemas, depth).Some?
    ensures var r := StrictEach(defs, schemas, depth).value;
            |r| == |schemas| && forall i | 0 <= i < |r| :: StrictForm(defs.Keys, r[i], false, depth)
    decreases depth, 2
  {
    hide Strict, StrictForm, StrictEach;
    EachRewritten(defs, schemas, depth);
    forall i | 0 <= i < |schemas|
      ensures StrictForm(defs.Keys, StrictEach(defs, schemas, depth).value[i], false, depth)
    {
      ResultIsStrict(defs, schemas[i], false, depth);
    }
  }

  lemma {:induction false} PartsBecomeStrict(defs: Table, s: Schema, depth: nat)
    requires depth > 0 && Shaped(defs.Keys, s) && StrictParts(defs, s, depth).Some?
    ensures HalfStrict(defs.Keys, StrictParts(defs, s, depth).value, depth - 1)
    ensures StrictParts(defs, s, depth).value.allOf == s.allOf
    decreases depth, 0
  {
    hide Strict, Shaped, StrictForm, Names, StrictEntries, StrictEach;
    var own := StrictParts(defs, s, depth).value;
    if s.props.Props? {
      EntriesBecomeStrict(defs, s.props.entries, depth - 1);
    }
    if s.items.Items? {
      ResultIsStrict(defs, s.items.schema, false, depth - 1);
    }
    if s.anyOf.Variants? {
      EachBecomesStrict(defs, s.anyOf.schemas, depth - 1);
    }
    ShapeKept(defs.Keys, s, own);
  }

  lemma MergeHalfStrict(refs: set<string>, base: Schema, overlay: Schema, depth: nat)
    requires HalfStrict(refs, base, depth) && HalfStrict(refs, overlay, depth) && Merge(base, overlay).Some?
    ensures HalfStrict(refs, Merge(base, overlay).value, depth)
  {
    hide StrictForm, ScalarShape;
    var m := Merge(base, overlay).value;
    forall key | key in m.scalars
      ensures ScalarShape(key, m.scalars[key])
    {
      assert m.scalars[key] == if key in overlay.scalars then overlay.scalars[key] else base.scalars[key];
    }
    assert IsObject(m) ==> IsObject(base) || IsObject(overlay);
  }

  lemma {:induction false} InlinedIsHalfStrict(defs: Table, s: Schema, depth: nat)
    requires depth > 0 && HalfStrict(defs.Keys, s, depth - 1) && InlineAllOf(defs, s, depth).Some?
    ensures HalfStrict(defs.Keys, InlineAllOf(defs, s, depth).value, depth - 1)
    ensures InlineAllOf(defs, s, depth).value.allOf.NoVariants?
    decreases depth, 0
  {
    if s.allOf.Variants? {
      var nested := Strict(defs, s.allOf.schemas[0], false, depth - 1).value;
      ResultIsStrict(defs, s.allOf.schemas[0], false, depth - 1);
      PartsDeeper(defs.Keys, nested, depth - 2, depth - 1);
      MergeHalfStrict(defs.Keys, s, nested, depth - 1);
    }
  }

  lemma DroppedIsHalfStrict(refs: set<string>, s: Schema, depth: nat)
    requires HalfStrict(refs, s, depth)
    ensures HalfStrict(refs, DropNullDefault(s), depth)
    ensures !("default" in DropNullDefault(s).scalars && DropNullDefault(s).scalars["default"] == JNull)
  {
    hide StrictForm, ScalarShape;
  }

  /** Everything the pass returns is in strict form. */
  lemma {:induction false} ResultIsStrict(defs: Table, s: Schema, holdsDefs: bool, depth: nat)
    requires Strict(defs, s, holdsDefs, depth).Some?
    ensures StrictForm(defs.Keys, Strict(defs, s, holdsDefs, depth).value, holdsDefs, depth)
    decreases depth, 1
  {
    hide StrictForm, HalfStrict, StrictParts, InlineAllOf, DropNullDefault;
    var own := StrictParts(defs, s, depth).value;
    PartsBecomeStrict(defs, s, depth);
    InlinedIsHalfStrict(defs, own, depth);
    var merged := InlineAllOf(defs, own, depth).value;
    DroppedIsHalfStrict(defs.Keys, merged, depth - 1);
    var node := DropNullDefault(merged);
    match InlineRef(defs, node, holdsDefs)
    case Done(r) =>
      FormOfHalf(defs.Keys, node, holdsDefs, depth) by {
        assert node.allOf == merged.allOf by { DropKeepsAllOf(merged); }
      }
    case Again(r) =>
      ResultIsStrict(defs, r, holdsDefs, depth - 1);
      FormDeeper(defs.Keys, Strict(defs, r, holdsDefs, depth - 1).value, holdsDefs, depth - 1, depth);
  }

  lemma DropKeepsAllOf(s: Schema)
    ensures DropNullDefault(s).allOf == s.allOf
  {}

  lemma FormOfHalf(refs: set<string>, s: Schema, holdsDefs: bool, depth: nat)
    requires depth > 0 && HalfStrict(refs, s, depth - 1) && s.allOf.NoVariants?
    requires !("default" in s.scalars && s.scalars["default"] == JNull)
    requires s.ref.Some? ==> RefAlone(s) && !holdsDefs
    ensures StrictForm(refs, s, holdsDefs, depth)
  {}

  /** A schema in strict form is left alone. */
  lemma {:induction false} StrictFormIsFixed(defs: Table, s: Schema, holdsDefs: bool, depth: nat)
    requires StrictForm(defs.Keys, s, holdsDefs, depth)
    ensures Strict(defs, s, holdsDefs, depth) == Some(s)
    decreases depth, 0
  {
    RewriteIsFixed(defs, s, holdsDefs, depth);
    hide Rewrite;
  }

  lemma {:induction false} RewriteIsFixed(defs: Table, s: Schema, holdsDefs: bool, depth: nat)
    requires StrictForm(defs.Keys, s, holdsDefs, depth)
    ensures depth > 0 && Rewrite(defs, s, holdsDefs, depth) == Done(s)
    decreases depth - 1, 2
  {
    PartsAreFixed(defs, s, depth);
    hide StrictParts, PartsStrict;
    assert DropNullDefault(s) == s;
  }

  lemma {:induction false} PartsAreFixed(defs: Table, s: Schema, depth: nat)
    requires depth > 0 && PartsStrict(defs.Keys, s, depth - 1) && (IsObject(s) ==> s.additional == Some(Closed))
    ensures StrictParts(defs, s, depth) == Some(s)
    decreases depth - 1, 1
  {
    hide Strict;
    if s.props.Props? {
      forall i | 0 <= i < |s.props.entries|
        ensures Strict(defs, s.props.entries[i].schema, false, depth - 1) == Some(s.props.entries[i].schema)
      {
        StrictFormIsFixed(defs, s.props.entries[i].schema, false, depth - 1);
      }
      EntriesRewritten(defs, s.props.entries, depth - 1);
      assert StrictEntries(defs, s.props.entries, depth - 1).value == s.props.entries;
    }
    if s.items.Items? {
      StrictFormIsFixed(defs, s.items.schema, false, depth - 1);
    }
    if s.anyOf.Variants? {
      forall i | 0 <= i < |s.anyOf.schemas|
        ensures Strict(defs, s.anyOf.schemas[i], false, depth - 1) == Some(s.anyOf.schemas[i])
      {
        StrictFormIsFixed(defs, s.anyOf.schemas[i], false, depth - 1);
      }
      EachRewritten(defs, s.anyOf.schemas, depth - 1);
      assert StrictEach(defs, s.anyOf.schemas, depth - 1).value == s.anyOf.schemas;
    }
  }

  /** The pass is idempotent, also when the table has been rewritten in between. */
  lemma Idempotent(defs: Table, later: Table, s: Schema, holdsDefs: bool, depth: nat)
    requires Strict(defs, s, holdsDefs, depth).Some? && later.Keys == defs.Keys
    ensures var r := Strict(defs, s, holdsDefs, depth).value;
            Strict(later, r, holdsDefs, depth) == Some(r)
  {
    ResultIsStrict(defs, s, holdsDefs, depth);
    StrictFormIsFixed(later, Strict(defs, s, holdsDefs, depth).value, holdsDefs, depth);
  }

  // ---- the pass as the source runs it ----

  /** _ensure_strict_json_schema; the dictionary that the source updates in place is `node`. */
  method EnsureStrictNode(defs: Table, s: Schema, holdsDefs: bool, depth: nat) returns (r: Option<Schema>)
    ensures r == Strict(defs, s, holdsDefs, depth)
    decreases depth, 0
  {
    hide StrictParts, InlineAllOf, Merge, DropNullDefault, RefAlone, Shaped;
    if depth == 0 || !Shaped(defs.Keys, s) {
      return None;
    }
    var own := EnsureStrictParts(defs, s, depth);
    if own.None? {
      return None;
    }
    var inlined := InlineSingleAllOf(defs, own.value, depth);
    if inlined.None? {
      return None;
    }
    var node := DropNullDefault(inlined.value);
    assert Rewrite(defs, s, holdsDefs, depth) == InlineRef(defs, node, holdsDefs);
    hide Rewrite;
    if node.ref.Some? && (holdsDefs || !RefAlone(node)) {
      if node.ref.value !in defs {
        return None;
      }
      var merged := Merge(defs[node.ref.value], node);
      if merged.None? {
        return None;
      }
      node := merged.value.(ref := None);
      r := EnsureStrictNode(defs, node, holdsDefs, depth - 1);
      return;
    }
    r := Some(node);
  }

  method EnsureStrictParts(defs: Table, s: Schema, depth: nat) returns (r: Option<Schema>)
    requires depth > 0
    ensures r == StrictParts(defs, s, depth)
    decreases depth - 1, 2
  {
    hide Strict, StrictEntries, StrictEach;
    var node := s;
    if IsObject(node) {
      node := node.(additional := Some(Closed));
    }
    if s.props.Props? {
      node := node.(required := Some(Names(s.props.entries)));
      var entries := EnsureStrictEntries(defs, s.props.entries, depth - 1);
      if entries.None? {
        return None;
      }
      node := node.(props := Props(entries.value));
    }
    if s.items.Items? {
      var items := EnsureStrictNode(defs, s.items.schema, false, depth - 1);
      if items.None? {
        return None;
      }
      node := node.(items := Items(items.value));
    }
    if s.anyOf.Variants? {
      var variants := EnsureStrictEach(defs, s.anyOf.schemas, depth - 1);
      if variants.None? {
        return None;
      }
      node := node.(anyOf := Variants(variants.value));
    }
    r := Some(node);
  }

  method InlineSingleAllOf(defs: Table, s: Schema, depth: nat) returns (r: Option<Schema>)
    requires depth > 0
    ensures r == InlineAllOf(defs, s, depth)
    decreases depth - 1, 2
  {
    hide Strict, Merge;
    if s.allOf.NoVariants? {
      return Some(s);
    }
    if |s.allOf.schemas| != 1 {
      return None;
    }
    var nested := EnsureStrictNode(defs, s.allOf.schemas[0], false, depth - 1);
    if nested.None? {
      return None;
    }
    var merged := Merge(s, nested.value);
    if merged.None? {
      return None;
    }
    r := Some(merged.value.(allOf := NoVariants));
  }

  method EnsureStrictEntries(defs: Table, entries: seq<Entry>, depth: nat) returns (r: Option<seq<Entry>>)
    ensures r == StrictEntries(defs, entries, depth)
    decreases depth, 1
  {
    EntriesRewritten(defs, entries, depth);
    hide Strict, StrictEntries;
    var done: seq<Entry> := [];
    for i := 0 to |entries|
      invariant |done| == i
      invariant forall k | 0 <= k < i ::
                  done[k].name == entries[k].name
                      && Strict(defs, entries[k].schema, false, depth) == Some(done[k].schema)
    {
      var schema := EnsureStrictNode(defs, entries[i].schema, false, depth);
      if schema.None? {
        return None;
      }
      done := done + [Entry(entries[i].name, schema.value)];
    }
    assert done == StrictEntries(defs, entries, depth).value;
    r := Some(done);
  }

  method EnsureStrictEach(defs: Table, schemas: seq<Schema>, depth: nat) returns (r: Option<seq<Schema>>)
    ensures r == StrictEach(defs, schemas, depth)
    decreases depth, 1
  {
    EachRewritten(defs, schemas, depth);
    hide Strict, StrictEach;
    var done: seq<Schema> := [];
    for i := 0 to |schemas|
      invariant |done| == i
      invariant forall k | 0 <= k < i :: Strict(defs, schemas[k], false, depth) == Some(done[k])
    {
      var schema := EnsureStrictNode(defs, schemas[i], false, depth);
      if schema.None? {
        return None;
      }
      done := done + [schema.value];
    }
    assert done == StrictEach(defs, schemas, depth).value;
    r := Some(done);
  }
}
