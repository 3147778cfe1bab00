/** Schemas and the JSON values in them, and when Python and JSON take two of them to be equal
    (fsq_agent/agent_engine/_schema.py:172-175): for Python a boolean is the number 0 or 1. */
module SchemaValues {
  import opened Wrappers

  datatype Json =
    | JNull | JBool(b: bool) | JInt(i: int) | JReal(r: real) | JText(s: string) | JList(items: seq<Json>)
    | JObject(fields: map<string, Json>)

  /** The value of additionalProperties: false, or anything else. */
  datatype Additional = Closed | Otherwise

  datatype Props = NoProps | Props(entries: seq<Entry>)

  datatype Entry = Entry(name: string, schema: Schema)

  datatype Items = NoItems | Items(schema: Schema)

  datatype Variants = NoVariants | Variants(schemas: seq<Schema>)

  /** One schema object. `scalars` holds every keyword without sub-schemas, annotations included;
      references are whole reference texts. */
  datatype Schema = Schema(scalars: map<string, Json>, ref: Option<string>, props: Props, required: Option<seq<string>>,
                           additional: Option<Additional>, items: Items, anyOf: Variants, allOf: Variants)

  /** The entries of the root's $defs and definitions, by reference text. */
  type Table = map<string, Schema>

  const ANNOTATIONS: set<string> := {"title", "description", "default"}

  predicate Distinct<T(==)>(s: seq<T>) {
    forall i, j | 0 <= i < j < |s| :: s[i] != s[j]
  }

  function Names(entries: seq<Entry>): (r: seq<string>)
    ensures |r| == |entries| && forall i | 0 <= i < |r| :: r[i] == entries[i].name
  {
    seq(|entries|, i requires 0 <= i < |entries| => entries[i].name)
  }

  // ---- values ----

  /** The number that Python takes a value to be. */
  function Number(j: Json): Option<real> {
    match j
    case JBool(b) => Some(if b then 1.0 else 0.0)
    case JInt(i) => Some(i as real)
    case JReal(r) => Some(r)
    case _ => None
  }

  /** a == b in Python. */
  predicate PythonEqual(a: Json, b: Json)
    decreases a
  {
    match a
    case JList(items) => b.JList? && |items| == |b.items| && forall i | 0 <= i < |items| ::
        PythonEqual(items[i], b.items[i])
    case JObject(fields) =>
      b.JObject? && fields.Keys == b.fields.Keys && forall k | k in fields :: PythonEqual(fields[k], b.fields[k])
    case _ => if Number(a).Some? then Number(a) == Number(b) else a == b
  }

  /** Equal as JSON values: numbers by their value, booleans are no numbers. */
  predicate JsonEqual(a: Json, b: Json)
    decreases a
  {
    match a
    case JList(items) => b.JList? && |items| == |b.items| && forall i | 0 <= i < |items| ::
        JsonEqual(items[i], b.items[i])
    case JObject(fields) =>
      b.JObject? && fields.Keys == b.fields.Keys && forall k | k in fields :: JsonEqual(fields[k], b.fields[k])
    case JBool(_) => a == b
    case _ => if Number(a).Some? then !b.JBool? && Number(a) == Number(b) else a == b
  }

  /** Equal for Python, different as JSON. */
  predicate Blurred(a: Json, b: Json) {
    PythonEqual(a, b) && !JsonEqual(a, b)
  }

  lemma {:induction false} JsonReflexive(a: Json)
    ensures JsonEqual(a, a)
    decreases a
  {
    match a
    case JList(items) =>
      forall i | 0 <= i < |items|
        ensures JsonEqual(items[i], items[i])
      {
        JsonReflexive(items[i]);
      }
    case JObject(fields) =>
      forall k | k in fields
        ensures JsonEqual(fields[k], fields[k])
      {
        JsonReflexive(fields[k]);
      }
    case _ =>
  }

  lemma {:induction false} JsonSymmetric(a: Json, b: Json)
    requires JsonEqual(a, b)
    ensures JsonEqual(b, a)
    decreases a
  {
    match a
    case JList(items) =>
      forall i | 0 <= i < |items|
        ensures JsonEqual(b.items[i], items[i])
      {
        JsonSymmetric(items[i], b.items[i]);
      }
    case JObject(fields) =>
      forall k | k in fields
        ensures JsonEqual(b.fields[k], fields[k])
      {
        JsonSymmetric(fields[k], b.fields[k]);
      }
    case _ =>
  }

  lemma {:induction false} JsonTransitive(a: Json, b: Json, c: Json)
    requires JsonEqual(a, b) && JsonEqual(b, c)
    ensures JsonEqual(a, c)
    decreases a
  {
    match a
    case JList(items) =>
      forall i | 0 <= i < |items|
        ensures JsonEqual(items[i], c.items[i])
      {
        JsonTransitive(items[i], b.items[i], c.items[i]);
      }
    case JObject(fields) =>
      forall k | k in fields
        ensures JsonEqual(fields[k], c.fields[k])
      {
        JsonTransitive(fields[k], b.fields[k], c.fields[k]);
      }
    case _ =>
  }

  /** Equal values are equal to the same values. */
  lemma JsonSubstitutes(a: Json, b: Json, c: Json)
    requires JsonEqual(a, b)
    ensures JsonEqual(a, c) <==> JsonEqual(b, c)
  {
    hide JsonEqual;
    JsonSymmetric(a, b);
    if JsonEqual(a, c) {
      JsonTransitive(b, a, c);
    }
    if JsonEqual(b, c) {
      JsonTransitive(a, b, c);
    }
  }

  // ---- schemas ----

  /** The schema of a property. */
  function Find(entries: seq<Entry>, name: string): (r: Option<Schema>)
    ensures r.Some? <==> name in Names(entries)
    ensures r.Some? ==> exists i :: 0 <= i < |entries| && entries[i] == Entry(name, r.value)
  {
    if entries == [] then None
    else if entries[0].name == name then
      assert entries[0] == Entry(name, entries[0].schema);
      assert name == Names(entries)[0];
      Some(entries[0].schema)
    else
      var r := Find(entries[1..], name);
      assert forall i | 0 < i < |entries| ::
             entries[i] == entries[1..][i - 1] && Names(entries)[i] == Names(entries[1..])[i - 1];
      assert name in Names(entries[1..]) ==> name in Names(entries) by {
        if name in Names(entries[1..]) {
          var i :| 0 <= i < |entries[1..]| && Names(entries[1..])[i] == name;
          assert Names(entries)[i + 1] == name;
        }
      }
      r
  }

  /** Two dictionaries, each with different keys, that have the same keys. */
  predicate SameNames(p: seq<Entry>, q: seq<Entry>) {
    && Distinct(Names(p)) && Distinct(Names(q))
    && (forall i | 0 <= i < |p| :: p[i].name in Names(q))
    && forall i | 0 <= i < |q| :: q[i].name in Names(p)
  }

  /** x == y in Python, for schema dictionaries: the order of properties does not count. */
  predicate SamePython(x: Schema, y: Schema)
    decreases x, 0
  {
    && x.scalars.Keys == y.scalars.Keys
       && (forall key | key in x.scalars :: PythonEqual(x.scalars[key], y.scalars[key]))
    && x.ref == y.ref && x.required == y.required && x.additional == y.additional
    && (x.props.Props? <==> y.props.Props?) && (x.props.Props? ==> SameEntries(x.props.entries, y.props.entries))
    && (x.items.Items? <==> y.items.Items?) && (x.items.Items? ==> SamePython(x.items.schema, y.items.schema))
    && (x.anyOf.Variants? <==> y.anyOf.Variants?) && (x.anyOf.Variants? ==> SameEach(x.anyOf.schemas, y.anyOf.schemas))
    && (x.allOf.Variants? <==> y.allOf.Variants?) && (x.allOf.Variants? ==> SameEach(x.allOf.schemas, y.allOf.schemas))
  }

  predicate SameEntries(p: seq<Entry>, q: seq<Entry>)
    decreases p, 1
  {
    && SameNames(p, q)
    && forall i | 0 <= i < |p| :: SamePython(p[i].schema, Find(q, p[i].name).value)
  }

  predicate SameEach(a: seq<Schema>, b: seq<Schema>)
    decreases a, 1
  {
    |a| == |b| && forall i | 0 <= i < |a| :: SamePython(a[i], b[i])
  }

  /** Equal as far as instances can tell: values equal as JSON, annotations ignored. */
  ghost predicate Alike(x: Schema, y: Schema)
    decreases x, 0
  {
    && (forall key | key !in ANNOTATIONS :: key in x.scalars <==> key in y.scalars)
    && (forall key | key in x.scalars && key !in ANNOTATIONS :: JsonEqual(x.scalars[key], y.scalars[key]))
    && x.ref == y.ref && x.required == y.required && x.additional == y.additional
    && (x.props.Props? <==> y.props.Props?) && (x.props.Props? ==> AlikeEntries(x.props.entries, y.props.entries))
    && (x.items.Items? <==> y.items.Items?) && (x.items.Items? ==> Alike(x.items.schema, y.items.schema))
    && (x.anyOf.Variants? <==> y.anyOf.Variants?) && (x.anyOf.Variants? ==> AlikeEach(x.anyOf.schemas, y.anyOf.schemas))
    && (x.allOf.Variants? <==> y.allOf.Variants?) && (x.allOf.Variants? ==> AlikeEach(x.allOf.schemas, y.allOf.schemas))
  }

  ghost predicate AlikeEntries(p: seq<Entry>, q: seq<Entry>)
    decreases p, 1
  {
    && SameNames(p, q)
    && forall i | 0 <= i < |p| :: Alike(p[i].schema, Find(q, p[i].name).value)
  }

  ghost predicate AlikeEach(a: seq<Schema>, b: seq<Schema>)
    decreases a, 1
  {
    |a| == |b| && forall i | 0 <= i < |a| :: Alike(a[i], b[i])
  }
}
