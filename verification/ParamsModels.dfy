/** The canonical values of validated params (fsq_agent/case_dsl/_validation.py:15-37, 79-93) and the
    params models whose canonical values are accepted again as they are. */
module ParamsModels {
  import opened Wrappers
  import opened Registry
  import opened CaseNormalise

  /** A value of the interpreter: what validation makes of JSON. */
  datatype Value =
    | Null
    | Bool(b: bool)
    | Int(i: int)
    | Float(r: real)
    | NotFinite
    | Text(s: string)
    | List(items: seq<Value>)
    | Mapping(textual: bool, entries: map<string, Value>)
    | Member(value: Value)
    | Model(fields: seq<Field>)
    | Unsupported

  /** A field of a model instance under its alias; `omissible` when it is not required and null by default. */
  datatype Field = Field(key: string, value: Value, omissible: bool)

  /** canonical_value; None when it raises. */
  function Canonical(v: Value): (r: Option<Json>)
    ensures v.Mapping? ==> (r.Some? <==> v.textual && forall k | k in v.entries :: Canonical(v.entries[k]).Some?)
    ensures v.Mapping? && r.Some? ==>
              && r.value.JObject? && r.value.fields.Keys == v.entries.Keys
              && forall k | k in v.entries :: Canonical(v.entries[k]) == Some(r.value.fields[k])
    decreases v, 0
  {
    match v
    case Null => Some(JNull)
    case Bool(b) => Some(JBool(b))
    case Int(i) => Some(JInt(i))
    case Float(r) => Some(JFloat(r))
    case Text(s) => Some(JText(s))
    case List(items) =>
      var each := CanonicalItems(items);
      if each.None? then None else Some(JList(each.value))
    case Mapping(textual, entries) =>
      if textual && forall k | k in entries :: Canonical(entries[k]).Some?
      then Some(JObject(map k | k in entries :: Canonical(entries[k]).value)) else None
    case Member(value) => Canonical(value)
    case Model(fields) =>
      var params := CanonicalFields(fields);
      if params.None? then None else Some(JObject(params.value))
    case NotFinite => None
    case Unsupported => None
  }

  function CanonicalItems(items: seq<Value>): (r: Option<seq<Json>>)
    ensures r.Some? <==> forall i | 0 <= i < |items| :: Canonical(items[i]).Some?
    ensures r.Some? ==> |r.value| == |items| && forall i | 0 <= i < |items| :: Canonical(items[i]) == Some(r.value[i])
    decreases items, 1
  {
    if items == [] then Some([])
    else
      var first, rest := Canonical(items[0]), CanonicalItems(items[1..]);
      if first.None? || rest.None? then None else Some([first.value] + rest.value)
  }

  predicate Omitted(f: Field) {
    f.omissible && f.value.Null?
  }

  function CanonicalFields(fields: seq<Field>): Option<Params>
    decreases fields, 1
  {
    if fields == [] then Some(map[])
    else
      var first, rest := Canonical(fields[0].value), CanonicalFields(fields[1..]);
      if rest.None? || (!Omitted(fields[0]) && first.None?) then None
      else if Omitted(fields[0]) then rest
      else Some(map[fields[0].key := first.value] + rest.value)
  }

  function AsValue(j: Json): Value
    decreases j
  {
    match j
    case JNull => Null
    case JBool(b) => Bool(b)
    case JInt(i) => Int(i)
    case JFloat(r) => Float(r)
    case JText(s) => Text(s)
    case JList(items) => List(seq(|items|, i requires 0 <= i < |items| => AsValue(items[i])))
    case JObject(fields) => Mapping(true, map k | k in fields :: AsValue(fields[k]))
  }

  /** Canonical values are their own canonical values. */
  lemma {:induction false} CanonicalOfJson(j: Json)
    ensures Canonical(AsValue(j)) == Some(j)
    decreases j
  {
    match j
    case JList(items) =>
      forall i | 0 <= i < |items|
        ensures Canonical(AsValue(items[i])) == Some(items[i])
      {
        CanonicalOfJson(items[i]);
      }
      var each := CanonicalItems(AsValue(j).items);
      assert each.Some? && each.value == items;
    case JObject(fields) =>
      forall k | k in fields
        ensures Canonical(AsValue(fields[k])) == Some(fields[k])
      {
        CanonicalOfJson(fields[k]);
      }
      var r := Canonical(AsValue(j));
      assert r.Some? && r.value.fields == fields;
    case _ =>
  }

  lemma CanonicalIdempotent(v: Value)
    requires Canonical(v).Some?
    ensures Canonical(AsValue(Canonical(v).value)) == Canonical(v)
  {
    CanonicalOfJson(Canonical(v).value);
  }

  // ---- params models ----

  /** A parameter: its alias, what it is without a value, and how its value is validated. */
  datatype Parameter = Parameter(key: string, required: bool, fallback: Value, parse: Json -> Option<Value>)

  /** A params model that forbids other parameters; `check` is its validation of all fields together. */
  datatype ParamsModel = ParamsModel(parameters: seq<Parameter>, check: seq<Field> -> bool)

  function ParseField(p: Parameter, params: Params): Option<Field> {
    var value := if p.key in params then p.parse(params[p.key]) else if p.required then None else Some(p.fallback);
    if value.None? then None else Some(Field(p.key, value.value, !p.required && p.fallback.Null?))
  }

  function ParseFields(parameters: seq<Parameter>, params: Params): (r: Option<seq<Field>>)
    ensures r.Some? <==> forall i | 0 <= i < |parameters| :: ParseField(parameters[i], params).Some?
    ensures r.Some? ==> |r.value| == |parameters| && forall i | 0 <= i < |parameters| ::
              ParseField(parameters[i], params) == Some(r.value[i])
  {
    if parameters == [] then Some([])
    else
      var first, rest := ParseField(parameters[0], params), ParseFields(parameters[1..], params);
      if first.None? || rest.None? then None else Some([first.value] + rest.value)
  }

  predicate Known(model: ParamsModel, key: string) {
    exists i :: 0 <= i < |model.parameters| && model.parameters[i].key == key
  }

  /** model_validate; None when it raises. */
  function Validate(model: ParamsModel, params: Params): Option<Value> {
    if exists key | key in params :: !Known(model, key) then None
    else
      var fields := ParseFields(model.parameters, params);
      if fields.None? || !model.check(fields.value) then None else Some(Model(fields.value))
  }

  /** Validation and canonical_value by the capability's model. */
  function CanonicalParams(models: Capability -> ParamsModel, c: Capability, params: Params): Option<Params> {
    var v := Validate(models(c), params);
    if v.None? then None else CanonicalFields(v.value.fields)
  }

  /** The canonical value of a parameter is validated to the value that it came from. */
  ghost predicate Reparses(p: Parameter) {
    && (forall j | p.parse(j).Some? && Canonical(p.parse(j).value).Some? ::
          p.parse(Canonical(p.parse(j).value).value) == p.parse(j))
    && (!p.required && !p.fallback.Null? && Canonical(p.fallback).Some? ==>
          p.parse(Canonical(p.fallback).value) == Some(p.fallback))
  }

  /** The model has a text type that is never left out, or no text that could pass for a secret. */
  ghost predicate TextIsSettled(model: ParamsModel) {
    || (exists i :: 0 <= i < |model.parameters| && model.parameters[i].key == "textType"
                    && (model.parameters[i].required || !model.parameters[i].fallback.Null?))
    || (forall i | 0 <= i < |model.parameters| && model.parameters[i].key == "text" :: NeverSecret(model.parameters[i]))
  }

  ghost predicate NeverSecret(p: Parameter) {
    && !IsSecret(Canonical(p.fallback))
    && forall j | p.parse(j).Some? :: !IsSecret(Canonical(p.parse(j).value))
  }

  predicate IsSecret(j: Option<Json>) {
    j.Some? && j.value.JObject? && j.value.fields.Keys == {"runtimeSecret"}
  }

  /** Parameters with different names, none of them "timeout", each of which reparses. */
  ghost predicate Regular(model: ParamsModel) {
    && (forall i, j | 0 <= i < j < |model.parameters| :: model.parameters[i].key != model.parameters[j].key)
    && !Known(model, "timeout")
    && (forall i | 0 <= i < |model.parameters| :: Reparses(model.parameters[i]))
    && TextIsSettled(model)
  }

  /** Exactly the fields that are not omitted are written, each under its key. */
  lemma {:induction false} WrittenFields(fields: seq<Field>)
    requires CanonicalFields(fields).Some?
    requires forall i, j | 0 <= i < j < |fields| :: fields[i].key != fields[j].key
    ensures var params := CanonicalFields(fields).value;
            && (forall i | 0 <= i < |fields| && Omitted(fields[i]) :: fields[i].key !in params)
            && (forall i | 0 <= i < |fields| && !Omitted(fields[i]) ::
                  fields[i].key in params && Canonical(fields[i].value) == Some(params[fields[i].key]))
            && (forall key | key in params :: exists i :: 0 <= i < |fields| && fields[i].key == key)
  {
    hide Canonical;
    if fields != [] {
      WrittenFields(fields[1..]);
      var rest := CanonicalFields(fields[1..]).value;
      assert forall i | 0 < i < |fields| :: fields[i] == fields[1..][i - 1];
      assert fields[0].key !in rest;
      forall key | key in CanonicalFields(fields).value
        ensures exists i :: 0 <= i < |fields| && fields[i].key == key
      {
        if key in rest {
          var i :| 0 <= i < |fields[1..]| && fields[1..][i].key == key;
          assert fields[i + 1].key == key;
        } else {
          assert fields[0].key == key;
        }
      }
    }
  }

  /** What a regular model accepts it accepts again in canonical form, with the same result. */
  lemma RegularReparses(model: ParamsModel, params: Params)
    requires Regular(model) && Validate(model, params).Some?
    requires CanonicalFields(Validate(model, params).value.fields).Some?
    ensures var canonical := CanonicalFields(Validate(model, params).value.fields).value;
            && Validate(model, canonical) == Validate(model, params)
            && "timeout" !in canonical && ExpandSecret(canonical) == canonical
  {
    hide Canonical, TextIsSettled, Reparses, CanonicalFields, ParseField, ExpandSecret;
    var fields := Validate(model, params).value.fields;
    var canonical := CanonicalFields(fields).value;
    FieldKeys(model.parameters, params, fields);
    WrittenFields(fields);
    OnlyKnown(model, fields, canonical);
    FieldsReparse(model.parameters, params, canonical, fields);
    NoSecret(model, params, fields, canonical);
  }

  lemma FieldKeys(parameters: seq<Parameter>, params: Params, fields: seq<Field>)
    requires ParseFields(parameters, params) == Some(fields)
    ensures |fields| == |parameters| && forall i | 0 <= i < |fields| :: fields[i].key == parameters[i].key
  {
    hide ParseFields;
    forall i | 0 <= i < |fields|
      ensures fields[i].key == parameters[i].key
    {
      assert ParseField(parameters[i], params) == Some(fields[i]);
    }
  }

  lemma OnlyKnown(model: ParamsModel, fields: seq<Field>, canonical: Params)
    requires |fields| == |model.parameters| && forall i | 0 <= i < |fields| :: fields[i].key == model.parameters[i].key
    requires forall key | key in canonical :: exists i :: 0 <= i < |fields| && fields[i].key == key
    ensures forall key | key in canonical :: Known(model, key)
  {
    forall key | key in canonical
      ensures Known(model, key)
    {
      var i :| 0 <= i < |fields| && fields[i].key == key;
      assert model.parameters[i].key == key;
    }
  }

  lemma FieldsReparse(parameters: seq<Parameter>, params: Params, canonical: Params, fields: seq<Field>)
    requires (forall i | 0 <= i < |parameters| :: Reparses(parameters[i]))
    requires ParseFields(parameters, params) == Some(fields)
    requires |fields| == |parameters| && forall i | 0 <= i < |fields| :: fields[i].key == parameters[i].key
    requires forall i | 0 <= i < |fields| && Omitted(fields[i]) :: fields[i].key !in canonical
    requires forall i | 0 <= i < |fields| && !Omitted(fields[i]) ::
               fields[i].key in canonical && Canonical(fields[i].value) == Some(canonical[fields[i].key])
    ensures ParseFields(parameters, canonical) == Some(fields)
  {
    hide Canonical, Reparses, ParseField, Omitted;
    forall i | 0 <= i < |parameters|
      ensures ParseField(parameters[i], canonical) == Some(fields[i])
    {
      FieldReparses(parameters[i], params, canonical, fields[i]);
    }
    assert ParseFields(parameters, canonical).value == fields;
  }

  lemma FieldReparses(p: Parameter, params: Params, canonical: Params, f: Field)
    requires Reparses(p) && ParseField(p, params) == Some(f)
    requires Omitted(f) ==> p.key !in canonical
    requires !Omitted(f) ==> p.key in canonical && Canonical(f.value) == Some(canonical[p.key])
    ensures ParseField(p, canonical) == Some(f)
  {}

  lemma NoSecret(model: ParamsModel, params: Params, fields: seq<Field>, canonical: Params)
    requires TextIsSettled(model) && ParseFields(model.parameters, params) == Some(fields)
    requires forall i | 0 <= i < |fields| && !Omitted(fields[i]) ::
               fields[i].key in canonical && Canonical(fields[i].value) == Some(canonical[fields[i].key])
    requires forall i | 0 <= i < |fields| && Omitted(fields[i]) :: fields[i].key !in canonical
    requires forall key | key in canonical :: exists i :: 0 <= i < |fields| && fields[i].key == key
    ensures ExpandSecret(canonical) == canonical
  {
    hide Canonical;
    if "textType" !in canonical && "text" in canonical {
      var i :| 0 <= i < |fields| && fields[i].key == "text";
      assert model.parameters[i].key == "text";
      forall k | 0 <= k < |model.parameters| && model.parameters[k].key == "textType"
        ensures !model.parameters[k].required && model.parameters[k].fallback.Null?
      {
        assert fields[k].key == "textType";
      }
      assert NeverSecret(model.parameters[i]);
    }
  }

  /** With regular models the round trip that normalisation rests on holds, and no canonical params
      pass for a timeout. */
  lemma RegularModelsRoundTrip(models: Capability -> ParamsModel, validate: Validation)
    requires forall c :: Regular(models(c))
    requires forall c, p :: validate(c, p) == CanonicalParams(models, c, p)
    ensures RoundTrips(validate)
    ensures forall c, p | validate(c, p).Some? :: "timeout" !in validate(c, p).value
  {
    hide Regular, Validate, CanonicalFields, ExpandSecret;
    forall c, p | validate(c, p).Some?
      ensures validate(c, ExpandSecret(validate(c, p).value - {"timeout"})) == validate(c, p)
      ensures "timeout" !in validate(c, p).value
    {
      RegularReparses(models(c), p);
      var q := validate(c, p).value;
      assert q - {"timeout"} == q;
    }
  }

  /** Normalisation with regular models: it preserves the executable steps of every case, and
      normalising twice is normalising once. */
  lemma RegularModelsNormalize(cs: seq<Capability>, models: Capability -> ParamsModel, validate: Validation,
                               commands: seq<Command>)
    requires forall c :: Regular(models(c))
    requires forall c, p :: validate(c, p) == CanonicalParams(models, c, p)
    requires Unambiguous(cs) && Readable(cs, validate, commands)
    ensures var n := Normalize(cs, validate, commands);
            n.Some? && Steps(cs, validate, n.value) == Steps(cs, validate, commands)
                && Normalize(cs, validate, n.value) == n
  {
    hide Regular, RoundTrips, Unambiguous, CanonicalParams, Steps, Normalize;
    RegularModelsRoundTrip(models, validate);
    forall i | 0 <= i < |commands|
      ensures Settled(Read(cs, validate, commands[i]).value)
    {
      assert Read(cs, validate, commands[i]).Some?;
    }
    StepsPreservedIff(cs, validate, commands);
    NormalizeIdempotentIff(cs, validate, commands);
  }
}
