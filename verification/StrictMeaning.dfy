/** What a schema accepts (JSON Schema 2020-12 Core, sections 8.2.3.1, 10.2.1 and 10.3.2), and why
    the strict form of a schema accepts nothing that the schema did not accept. */
module StrictMeaning {
  import opened Wrappers
  import opened SchemaValues
  import opened StrictSchema
  import opened StrictGroups
  import opened ValueClashes
  import opened StrictDocument

  /** What a keyword without sub-schemas demands of an instance: keyword, its value, the instance. */
  type Meaning = (string, Json, Json) -> bool

  /** Values that are equal as JSON demand the same. */
  ghost predicate Respects(m: Meaning) {
    forall key, a, b, v | JsonEqual(a, b) :: m(key, a, v) == m(key, b, v)
  }

  /** How additionalProperties: false without `properties` is read: in the plain reading it forbids
      every field. The grouped reading gives way in a group that brings properties: there it is
      lax, which means that it forbids nothing. */
  datatype Reading = Plain | Grouped(lax: bool)

  /** The reading of a schema that nothing is merged with: the group is its own. */
  ghost function Own(defs: Table, s: Schema, reading: Reading): Reading {
    if reading.Plain? then Plain else Grouped(Group(LISTING, defs, s))
  }

  /** Acceptance, unfolded n times: an instance is accepted when it is accepted for every n. */
  ghost predicate Accepts(m: Meaning, defs: Table, s: Schema, v: Json, reading: Reading, n: nat)
    decreases n, 1
  {
    n == 0 ||
    (&& Demands(m, s, v)
     && (s.ref.Some? ==> s.ref.value in defs && Accepts(m, defs, defs[s.ref.value], v, reading, n - 1))
     && Required(s, v)
     && (s.props.Props? ==> FieldsAccept(m, defs, s.props.entries, v, reading, n - 1))
     && OnlyProperties(s, v, reading)
     && (s.items.Items? ==> ElementsAccept(m, defs, s.items.schema, v, reading, n - 1))
     && (s.anyOf.Variants? ==> AnyAccepts(m, defs, s.anyOf.schemas, v, reading, n - 1))
     && (s.allOf.Variants? ==> AllAccept(m, defs, s.allOf.schemas, v, reading, n - 1)))
  }

  predicate Demands(m: Meaning, s: Schema, v: Json) {
    forall key | key in s.scalars && key !in ANNOTATIONS :: m(key, s.scalars[key], v)
  }

  predicate Required(s: Schema, v: Json) {
    v.JObject? && s.required.Some? ==> forall name | name in s.required.value :: name in v.fields
  }

  predicate OnlyProperties(s: Schema, v: Json, reading: Reading) {
    v.JObject? && s.additional == Some(Closed) && (s.props.Props? || reading != Grouped(true)) ==>
      forall name | name in v.fields :: s.props.Props? && name in Names(s.props.entries)
  }

  ghost predicate FieldsAccept(m: Meaning, defs: Table, entries: seq<Entry>, v: Json, reading: Reading, n: nat)
    decreases n, 3
  {
    v.JObject? ==>
      forall i | 0 <= i < |entries| && entries[i].name in v.fields ::
        AcceptsOwn(m, defs, entries[i].schema, v.fields[entries[i].name], reading, n)
  }

  ghost predicate ElementsAccept(m: Meaning, defs: Table, s: Schema, v: Json, reading: Reading, n: nat)
    decreases n, 3
  {
    v.JList? ==> forall i | 0 <= i < |v.items| :: AcceptsOwn(m, defs, s, v.items[i], reading, n)
  }

  ghost predicate AnyAccepts(m: Meaning, defs: Table, schemas: seq<Schema>, v: Json, reading: Reading, n: nat)
    decreases n, 3
  {
    exists i :: 0 <= i < |schemas| && AcceptsOwn(m, defs, schemas[i], v, reading, n)
  }

  /** Members of allOf, and targets of references, are read like the schema they belong to. */
  ghost predicate AllAccept(m: Meaning, defs: Table, schemas: seq<Schema>, v: Json, reading: Reading, n: nat)
    decreases n, 3
  {
    forall i | 0 <= i < |schemas| :: Accepts(m, defs, schemas[i], v, reading, n)
  }

  ghost predicate AcceptsOwn(m: Meaning, defs: Table, s: Schema, v: Json, reading: Reading, n: nat)
    decreases n, 2
  {
    Accepts(m, defs, s, v, Own(defs, s, reading), n)
  }

  /** Unfolding further only rejects more. */
  lemma {:induction false} AcceptsLess(m: Meaning, defs: Table, s: Schema, v: Json, reading: Reading, n: nat)
    requires Accepts(m, defs, s, v, reading, n + 1)
    ensures Accepts(m, defs, s, v, reading, n)
    decreases n, 0
  {
    hide FieldsAccept, ElementsAccept, AnyAccepts, AllAccept, Required, OnlyProperties;
    if n > 0 {
      if s.ref.Some? {
        AcceptsLess(m, defs, defs[s.ref.value], v, reading, n - 1);
      }
      PartsLess(m, defs, s, v, reading, n - 1);
    }
  }

  lemma {:induction false} PartsLess(m: Meaning, defs: Table, s: Schema, v: Json, reading: Reading, n: nat)
    ensures s.props.Props? && FieldsAccept(m, defs, s.props.entries, v, reading, n + 1) ==>
              FieldsAccept(m, defs, s.props.entries, v, reading, n)
    ensures s.items.Items? && ElementsAccept(m, defs, s.items.schema, v, reading, n + 1) ==>
              ElementsAccept(m, defs, s.items.schema, v, reading, n)
    ensures s.anyOf.Variants? && AnyAccepts(m, defs, s.anyOf.schemas, v, reading, n + 1) ==>
              AnyAccepts(m, defs, s.anyOf.schemas, v, reading, n)
    ensures s.allOf.Variants? && AllAccept(m, defs, s.allOf.schemas, v, reading, n + 1) ==>
              AllAccept(m, defs, s.allOf.schemas, v, reading, n)
    decreases n, 2
  {
    hide Accepts, AcceptsOwn;
    forall schema, w | Accepts(m, defs, schema, w, reading, n + 1)
      ensures Accepts(m, defs, schema, w, reading, n)
    {
      AcceptsLess(m, defs, schema, w, reading, n);
    }
    forall schema, w | AcceptsOwn(m, defs, schema, w, reading, n + 1)
      ensures AcceptsOwn(m, defs, schema, w, reading, n)
    {
      OwnLess(m, defs, schema, w, reading, n);
    }
  }

  lemma {:induction false} OwnLess(m: Meaning, defs: Table, s: Schema, v: Json, reading: Reading, n: nat)
    requires AcceptsOwn(m, defs, s, v, reading, n + 1)
    ensures AcceptsOwn(m, defs, s, v, reading, n)
    decreases n, 1
  {
    hide Accepts, Own;
    AcceptsLess(m, defs, s, v, Own(defs, s, reading), n);
  }

  predicate Weaker(a: Reading, b: Reading) {
    a.Plain? || (b.Grouped? && (a.lax ==> b.lax))
  }

  /** A weaker reading accepts more. */
  lemma {:induction false} WeakerAccepts(m: Meaning, defs: Table, s: Schema, v: Json, a: Reading, b: Reading, n: nat)
    requires Accepts(m, defs, s, v, a, n) && Weaker(a, b)
    ensures Accepts(m, defs, s, v, b, n)
    decreases n, 0
  {
    hide FieldsAccept, AnyAccepts, ElementsAccept, AllAccept;
    if n > 0 {
      if s.ref.Some? {
        WeakerAccepts(m, defs, defs[s.ref.value], v, a, b, n - 1);
      }
      WeakerParts(m, defs, s, v, a, b, n - 1);
    }
  }

  lemma {:induction false} WeakerParts(m: Meaning, defs: Table, s: Schema, v: Json, a: Reading, b: Reading, n: nat)
    requires Weaker(a, b)
    ensures s.props.Props? && FieldsAccept(m, defs, s.props.entries, v, a, n) ==>
              FieldsAccept(m, defs, s.props.entries, v, b, n)
    ensures s.items.Items? && ElementsAccept(m, defs, s.items.schema, v, a, n) ==>
              ElementsAccept(m, defs, s.items.schema, v, b, n)
    ensures s.anyOf.Variants? && AnyAccepts(m, defs, s.anyOf.schemas, v, a, n) ==>
              AnyAccepts(m, defs, s.anyOf.schemas, v, b, n)
    ensures s.allOf.Variants? && AllAccept(m, defs, s.allOf.schemas, v, a, n) ==>
              AllAccept(m, defs, s.allOf.schemas, v, b, n)
    decreases n, 2
  {
    hide Accepts, AcceptsOwn;
    forall schema, w | Accepts(m, defs, schema, w, a, n)
      ensures Accepts(m, defs, schema, w, b, n)
    {
      WeakerAccepts(m, defs, schema, w, a, b, n);
    }
    forall schema, w | AcceptsOwn(m, defs, schema, w, a, n)
      ensures AcceptsOwn(m, defs, schema, w, b, n)
    {
      WeakerOwn(m, defs, schema, w, a, b, n);
    }
  }

  lemma {:induction false} WeakerOwn(m: Meaning, defs: Table, s: Schema, v: Json, a: Reading, b: Reading, n: nat)
    requires AcceptsOwn(m, defs, s, v, a, n) && Weaker(a, b)
    ensures AcceptsOwn(m, defs, s, v, b, n)
    decreases n, 1
  {
    hide Accepts, Group;
    WeakerAccepts(m, defs, s, v, Own(defs, s, a), Own(defs, s, b), n);
  }

  // ---- schemas that are alike ----

  lemma {:induction false} AlikeGroup(defs: Table, x: Schema, y: Schema, k: nat)
    requires Alike(x, y)
    ensures GroupWithin(LISTING, defs, x, k) <==> GroupWithin(LISTING, defs, y, k)
    decreases k
  {
    if x.props.Props? {
      AlikeNames(x.props.entries, y.props.entries);
    }
    if k > 0 && x.allOf.Variants? {
      forall i | 0 <= i < |x.allOf.schemas|
        ensures GroupWithin(LISTING, defs, x.allOf.schemas[i], k - 1)
                <==> GroupWithin(LISTING, defs, y.allOf.schemas[i], k - 1)
      {
        AlikeGroup(defs, x.allOf.schemas[i], y.allOf.schemas[i], k - 1);
      }
    }
    hide Alike;
  }

  lemma AlikeNames(p: seq<Entry>, q: seq<Entry>)
    requires AlikeEntries(p, q)
    ensures p == [] <==> q == []
    ensures forall name :: name in Names(p) <==> name in Names(q)
  {
    hide Alike;
    assert p != [] ==> p[0].name in Names(q);
    assert q != [] ==> q[0].name in Names(p);
    forall name
      ensures name in Names(p) <==> name in Names(q)
    {
      if i :| 0 <= i < |p| && Names(p)[i] == name {
        assert p[i].name in Names(q);
      }
      if i :| 0 <= i < |q| && Names(q)[i] == name {
        assert q[i].name in Names(p);
      }
    }
  }

  lemma AlikeOwn(defs: Table, x: Schema, y: Schema, reading: Reading)
    requires Alike(x, y)
    ensures Own(defs, x, reading) == Own(defs, y, reading)
  {
    hide Alike, GroupWithin;
    if Group(LISTING, defs, x) {
      var k := Within(LISTING, defs, x);
      AlikeGroup(defs, x, y, k);
      InGroup(LISTING, defs, y, k);
    }
    if Group(LISTING, defs, y) {
      var k := Within(LISTING, defs, y);
      AlikeGroup(defs, x, y, k);
      InGroup(LISTING, defs, x, k);
    }
  }

  lemma AlikeKeys(m: Meaning, x: Schema, y: Schema, v: Json, reading: Reading)
    requires Alike(x, y) && Respects(m)
    ensures Demands(m, x, v) <==> Demands(m, y, v)
    ensures Required(x, v) <==> Required(y, v)
    ensures OnlyProperties(x, v, reading) <==> OnlyProperties(y, v, reading)
  {
    hide JsonEqual, AlikeEntries, AlikeEach, Names;
    if x.props.Props? {
      AlikeNames(x.props.entries, y.props.entries);
    }
  }

  /** Instances cannot tell schemas that are alike. */
  lemma {:induction false} AlikeAccepts(m: Meaning, defs: Table, x: Schema, y: Schema, v: Json, reading: Reading,
                                        n: nat)
    requires Alike(x, y) && Respects(m)
    ensures Accepts(m, defs, x, v, reading, n) <==> Accepts(m, defs, y, v, reading, n)
    decreases n, 0
  {
    hide FieldsAccept, AnyAccepts, ElementsAccept, AllAccept, AlikeEntries, AlikeEach, JsonEqual, Demands, Required,
         OnlyProperties, Respects;
    if n > 0 {
      AlikeKeys(m, x, y, v, reading);
      if x.props.Props? {
        AlikeFields(m, defs, x.props.entries, y.props.entries, v, reading, n - 1);
      }
      if x.items.Items? {
        AlikeElements(m, defs, x.items.schema, y.items.schema, v, reading, n - 1);
      }
      if x.anyOf.Variants? {
        AlikeVariants(m, defs, x.anyOf.schemas, y.anyOf.schemas, v, reading, n - 1);
      }
      if x.allOf.Variants? {
        AlikeMembers(m, defs, x.allOf.schemas, y.allOf.schemas, v, reading, n - 1);
      }
    }
  }

  lemma {:induction false} AlikeAcceptsOwn(m: Meaning, defs: Table, x: Schema, y: Schema, v: Json, reading: Reading,
                                           n: nat)
    requires Alike(x, y) && Respects(m)
    ensures AcceptsOwn(m, defs, x, v, reading, n) <==> AcceptsOwn(m, defs, y, v, reading, n)
    decreases n, 1
  {
    hide Accepts, Alike, Respects, Own;
    AlikeOwn(defs, x, y, reading);
    AlikeAccepts(m, defs, x, y, v, Own(defs, x, reading), n);
  }

  lemma {:induction false} AlikeFields(m: Meaning, defs: Table, p: seq<Entry>, q: seq<Entry>, v: Json, reading: Reading,
                                       n: nat)
    requires AlikeEntries(p, q) && Respects(m)
    ensures FieldsAccept(m, defs, p, v, reading, n) <==> FieldsAccept(m, defs, q, v, reading, n)
    decreases n, 2
  {
    hide AcceptsOwn, Alike, AlikeEntries, Respects;
    if v.JObject? && FieldsAccept(m, defs, q, v, reading, n) {
      forall i | 0 <= i < |p| && p[i].name in v.fields
        ensures AcceptsOwn(m, defs, p[i].schema, v.fields[p[i].name], reading, n)
      {
        var j := Counterpart(p, q, i);
        AlikeAcceptsOwn(m, defs, p[i].schema, q[j].schema, v.fields[p[i].name], reading, n);
      }
    }
    if v.JObject? && FieldsAccept(m, defs, p, v, reading, n) {
      forall j | 0 <= j < |q| && q[j].name in v.fields
        ensures AcceptsOwn(m, defs, q[j].schema, v.fields[q[j].name], reading, n)
      {
        var i := CounterpartOf(p, q, j);
        AlikeAcceptsOwn(m, defs, p[i].schema, q[j].schema, v.fields[p[i].name], reading, n);
      }
    }
  }

  lemma Counterpart(p: seq<Entry>, q: seq<Entry>, i: nat) returns (j: nat)
    requires AlikeEntries(p, q) && i < |p|
    ensures j < |q| && q[j].name == p[i].name && Alike(p[i].schema, q[j].schema)
  {
    hide Alike;
    var z := Find(q, p[i].name).value;
    j :| 0 <= j < |q| && q[j] == Entry(p[i].name, z);
  }

  lemma CounterpartOf(p: seq<Entry>, q: seq<Entry>, j: nat) returns (i: nat)
    requires AlikeEntries(p, q) && j < |q|
    ensures i < |p| && p[i].name == q[j].name && Alike(p[i].schema, q[j].schema)
  {
    hide Alike;
    assert q[j].name in Names(p);
    i :| 0 <= i < |p| && Names(p)[i] == q[j].name;
    FoundAt(q, j);
  }

  lemma FoundAt(p: seq<Entry>, i: nat)
    requires i < |p| && Distinct(Names(p))
    ensures Find(p, p[i].name) == Some(p[i].schema)
  {
    var r := Find(p, p[i].name);
    assert Names(p)[i] == p[i].name;
    var j :| 0 <= j < |p| && p[j] == Entry(p[i].name, r.value);
    assert Names(p)[j] == Names(p)[i];
  }

  lemma {:induction false} AlikeElements(m: Meaning, defs: Table, x: Schema, y: Schema, v: Json, reading: Reading,
                                         n: nat)
    requires Alike(x, y) && Respects(m)
    ensures ElementsAccept(m, defs, x, v, reading, n) <==> ElementsAccept(m, defs, y, v, reading, n)
    decreases n, 2
  {
    hide AcceptsOwn, Alike, Respects;
    if v.JList? {
      forall i | 0 <= i < |v.items|
        ensures AcceptsOwn(m, defs, x, v.items[i], reading, n) <==> AcceptsOwn(m, defs, y, v.items[i], reading, n)
      {
        AlikeAcceptsOwn(m, defs, x, y, v.items[i], reading, n);
      }
    }
  }

  lemma {:induction false} AlikeVariants(m: Meaning, defs: Table, a: seq<Schema>, b: seq<Schema>, v: Json,
                                         reading: Reading, n: nat)
    requires AlikeEach(a, b) && Respects(m)
    ensures AnyAccepts(m, defs, a, v, reading, n) <==> AnyAccepts(m, defs, b, v, reading, n)
    decreases n, 2
  {
    hide AcceptsOwn, Alike, Respects;
    forall i | 0 <= i < |a|
      ensures AcceptsOwn(m, defs, a[i], v, reading, n) <==> AcceptsOwn(m, defs, b[i], v, reading, n)
    {
      AlikeAcceptsOwn(m, defs, a[i], b[i], v, reading, n);
    }
  }

  lemma {:induction false} AlikeMembers(m: Meaning, defs: Table, a: seq<Schema>, b: seq<Schema>, v: Json,
                                        reading: Reading, n: nat)
    requires AlikeEach(a, b) && Respects(m)
    ensures AllAccept(m, defs, a, v, reading, n) <==> AllAccept(m, defs, b, v, reading, n)
    decreases n, 2
  {
    hide Accepts, Alike, Respects;
    forall i | 0 <= i < |a|
      ensures Accepts(m, defs, a[i], v, reading, n) <==> Accepts(m, defs, b[i], v, reading, n)
    {
      AlikeAccepts(m, defs, a[i], b[i], v, reading, n);
    }
  }

  // ---- merging ----

  lemma MergeKeys(m: Meaning, base: Schema, overlay: Schema, v: Json, lax: bool)
    requires Merge(base, overlay).Some? && Respects(m) && Agree(base, overlay)
    requires Lists(base) || Lists(overlay) ==> lax
    ensures var r := Merge(base, overlay).value;
            && (Demands(m, r, v) ==> Demands(m, base, v) && Demands(m, overlay, v))
            && (Required(r, v) ==> Required(base, v) && Required(overlay, v))
            && (OnlyProperties(r, v, Grouped(lax)) ==>
                  OnlyProperties(base, v, Grouped(lax)) && OnlyProperties(overlay, v, Grouped(lax)))
  {
    hide AlikeEntries, AlikeEach, Alike, JsonEqual, PythonEqual, SamePython, SameEntries, SameEach, Names;
    var r := Merge(base, overlay).value;
    if base.props.Props? && overlay.props.Props? {
      AlikeNames(base.props.entries, overlay.props.entries);
    }
    forall key | key !in ANNOTATIONS && (key in base.scalars || key in overlay.scalars)
      ensures key in r.scalars
      ensures key in base.scalars ==> m(key, base.scalars[key], v) == m(key, r.scalars[key], v)
      ensures key in overlay.scalars ==> m(key, overlay.scalars[key], v) == m(key, r.scalars[key], v)
    {}
  }

  /** A merge accepts nothing that either side rejects, where both sides agree as JSON, in a reading
      that is lax where the merge has properties. */
  lemma MergeAccepts(m: Meaning, defs: Table, base: Schema, overlay: Schema, v: Json, lax: bool, n: nat)
    requires Merge(base, overlay).Some? && Accepts(m, defs, Merge(base, overlay).value, v, Grouped(lax), n)
    requires Respects(m) && Agree(base, overlay)
    requires Lists(base) || Lists(overlay) ==> lax
    ensures Accepts(m, defs, base, v, Grouped(lax), n) && Accepts(m, defs, overlay, v, Grouped(lax), n)
  {
    hide FieldsAccept, ElementsAccept, AnyAccepts, AllAccept, AlikeEntries, AlikeEach, Alike, JsonEqual, SamePython,
         SameEntries, SameEach, ScalarsAgree, Demands, Required, OnlyProperties, Respects, Lists;
    if n > 0 {
      MergeKeys(m, base, overlay, v, lax);
      if base.props.Props? && overlay.props.Props? {
        AlikeFields(m, defs, base.props.entries, overlay.props.entries, v, Grouped(lax), n - 1);
      }
      if base.items.Items? && overlay.items.Items? {
        AlikeElements(m, defs, base.items.schema, overlay.items.schema, v, Grouped(lax), n - 1);
      }
      if base.anyOf.Variants? && overlay.anyOf.Variants? {
        AlikeVariants(m, defs, base.anyOf.schemas, overlay.anyOf.schemas, v, Grouped(lax), n - 1);
      }
      if base.allOf.Variants? && overlay.allOf.Variants? {
        AlikeMembers(m, defs, base.allOf.schemas, overlay.allOf.schemas, v, Grouped(lax), n - 1);
      }
    }
  }

  /** Strict forms found within `depth` accept nothing that their schemas reject, where these bring no
      values together that are equal for Python only. */
  ghost predicate StrictRefines(m: Meaning, defs: Table, depth: nat) {
    forall schema, w, lax, k: nat |
        && Strict(defs, schema, false, depth).Some?
        && !Blurs(defs, schema)
        && AcceptsOwn(m, defs, Strict(defs, schema, false, depth).value, w, Grouped(lax), k) ::
      AcceptsOwn(m, defs, schema, w, Grouped(lax), k)
  }

  lemma FieldsRefine(m: Meaning, defs: Table, entries: seq<Entry>, depth: nat, v: Json, lax: bool, n: nat)
    requires StrictRefines(m, defs, depth) && StrictEntries(defs, entries, depth).Some?
    requires forall i | 0 <= i < |entries| :: !Blurs(defs, entries[i].schema)
    requires FieldsAccept(m, defs, StrictEntries(defs, entries, depth).value, v, Grouped(lax), n)
    ensures FieldsAccept(m, defs, entries, v, Grouped(lax), n)
  {
    hide Strict, AcceptsOwn, StrictEntries, Blurs;
    EntriesRewritten(defs, entries, depth);
  }

  lemma VariantsRefine(m: Meaning, defs: Table, schemas: seq<Schema>, depth: nat, v: Json, lax: bool, n: nat)
    requires StrictRefines(m, defs, depth) && StrictEach(defs, schemas, depth).Some?
    requires forall i | 0 <= i < |schemas| :: !Blurs(defs, schemas[i])
    requires AnyAccepts(m, defs, StrictEach(defs, schemas, depth).value, v, Grouped(lax), n)
    ensures AnyAccepts(m, defs, schemas, v, Grouped(lax), n)
  {
    hide Strict, AcceptsOwn, StrictEach, Blurs;
    EachRewritten(defs, schemas, depth);
  }

  lemma ElementsRefine(m: Meaning, defs: Table, schema: Schema, depth: nat, v: Json, lax: bool, n: nat)
    requires StrictRefines(m, defs, depth) && Strict(defs, schema, false, depth).Some? && !Blurs(defs, schema)
    requires ElementsAccept(m, defs, Strict(defs, schema, false, depth).value, v, Grouped(lax), n)
    ensures ElementsAccept(m, defs, schema, v, Grouped(lax), n)
  {
    hide Strict, AcceptsOwn;
  }

  lemma KeysRefine(refs: set<string>, s: Schema, own: Schema, v: Json, reading: Reading)
    requires Shaped(refs, s) && (s.props.Props? <==> own.props.Props?)
    requires s.props.Props? ==>
               Names(own.props.entries) == Names(s.props.entries) && own.required == Some(Names(s.props.entries))
    requires s.props.NoProps? ==> own.required == s.required
    requires own.additional == s.additional || own.additional == Some(Closed)
    requires Required(own, v) && OnlyProperties(own, v, reading)
    ensures Required(s, v) && OnlyProperties(s, v, reading)
  {
    hide ScalarShape, Names;
  }

  /** The own parts of a node, rewritten one by one. */
  lemma {:induction false} PartsRefine(m: Meaning, defs: Table, s: Schema, depth: nat, v: Json, lax: bool, n: nat)
    requires depth > 0 && Shaped(defs.Keys, s) && StrictParts(defs, s, depth).Some?
    requires Respects(m) && !Blurs(defs, s)
    requires Accepts(m, defs, StrictParts(defs, s, depth).value, v, Grouped(lax), n)
    ensures Accepts(m, defs, s, v, Grouped(lax), n)
    decreases depth, 0
  {
    hide Strict, FieldsAccept, AnyAccepts, ElementsAccept, AllAccept, StrictEntries, StrictEach, Required,
         OnlyProperties, StrictRefines, Names, Shaped, Respects, Blurs;
    if n > 0 {
      var own := StrictParts(defs, s, depth).value;
      BelowRefines(m, defs, depth - 1);
      PartsUnblurred(defs, s);
      if s.props.Props? {
        EntriesBecomeStrict(defs, s.props.entries, depth - 1);
        FieldsRefine(m, defs, s.props.entries, depth - 1, v, lax, n - 1);
      }
      if s.anyOf.Variants? {
        VariantsRefine(m, defs, s.anyOf.schemas, depth - 1, v, lax, n - 1);
      }
      if s.items.Items? {
        ElementsRefine(m, defs, s.items.schema, depth - 1, v, lax, n - 1);
      }
      KeysRefine(defs.Keys, s, own, v, Grouped(lax));
    }
  }

  lemma PartsUnblurred(defs: Table, s: Schema)
    requires !Blurs(defs, s)
    ensures s.props.Props? ==> forall i | 0 <= i < |s.props.entries| :: !Blurs(defs, s.props.entries[i].schema)
    ensures s.items.Items? ==> !Blurs(defs, s.items.schema)
    ensures s.anyOf.Variants? ==> forall i | 0 <= i < |s.anyOf.schemas| :: !Blurs(defs, s.anyOf.schemas[i])
    ensures s.allOf.Variants? ==> forall i | 0 <= i < |s.allOf.schemas| :: !Blurs(defs, s.allOf.schemas[i])
    ensures s.ref.Some? && s.ref.value in defs ==> !Blurs(defs, defs[s.ref.value])
  {
    hide Blurs, Draws;
    forall step, z | IsPart(s, step, z)
      ensures !Blurs(defs, z)
    {
      if Blurs(defs, z) {
        PartBlurs(defs, s, step, z);
      }
    }
    if s.props.Props? {
      forall i | 0 <= i < |s.props.entries|
        ensures !Blurs(defs, s.props.entries[i].schema)
      {
        assert s.props.entries[i] == Entry(s.props.entries[i].name, s.props.entries[i].schema);
        assert IsPart(s, Prop(s.props.entries[i].name), s.props.entries[i].schema);
      }
    }
    if s.items.Items? {
      assert IsPart(s, Item, s.items.schema);
    }
    if s.anyOf.Variants? {
      forall i | 0 <= i < |s.anyOf.schemas|
        ensures !Blurs(defs, s.anyOf.schemas[i])
      {
        assert IsPart(s, Variant(i), s.anyOf.schemas[i]);
      }
    }
    if s.allOf.Variants? {
      forall i | 0 <= i < |s.allOf.schemas|
        ensures !Blurs(defs, s.allOf.schemas[i])
      {
        MemberDraws(defs, s, i);
        Unblurred(defs, s, s.allOf.schemas[i]);
      }
    }
    if s.ref.Some? && s.ref.value in defs {
      TargetDraws(defs, s);
      Unblurred(defs, s, defs[s.ref.value]);
    }
  }

  lemma Unblurred(defs: Table, s: Schema, r: Schema)
    requires Draws(defs, s, r) && !Blurs(defs, s)
    ensures !Blurs(defs, r)
  {
    hide Blurs, Draws;
    if Blurs(defs, r) {
      DrawsBlurs(defs, s, r);
    }
  }

  lemma {:induction false} BelowRefines(m: Meaning, defs: Table, depth: nat)
    requires Respects(m)
    ensures StrictRefines(m, defs, depth)
    decreases depth, 3
  {
    hide Strict, Accepts, Group, SameGroup, Blurs, Respects;
    forall schema, w, lax, k: nat |
        && Strict(defs, schema, false, depth).Some?
        && !Blurs(defs, schema)
        && AcceptsOwn(m, defs, Strict(defs, schema, false, depth).value, w, Grouped(lax), k)
      ensures AcceptsOwn(m, defs, schema, w, Grouped(lax), k)
    {
      StrictGroup(LISTING, defs, schema, false, depth);
      SameGroupIff(LISTING, defs, schema, Strict(defs, schema, false, depth).value);
      Refines(m, defs, schema, false, depth, w, Group(LISTING, defs, schema), k);
    }
  }

  lemma {:induction false} InlinedRefines(m: Meaning, defs: Table, s: Schema, depth: nat, v: Json, lax: bool, n: nat)
    requires depth > 0 && InlineAllOf(defs, s, depth).Some? && (Group(LISTING, defs, s) ==> lax)
    requires Respects(m) && !Blurs(defs, s)
    requires Accepts(m, defs, InlineAllOf(defs, s, depth).value, v, Grouped(lax), n)
    ensures Accepts(m, defs, s, v, Grouped(lax), n)
    decreases depth, 0
  {
    hide FieldsAccept, AnyAccepts, ElementsAccept, AllAccept, Accepts, Strict, Group, Lists, SameGroup, Blurs, Draws,
         Respects, Agree, Merge;
    if n == 0 {
      AcceptedAtZero(m, defs, s, v, Grouped(lax));
    } else if s.allOf.Variants? {
      var member := s.allOf.schemas[0];
      var nested := Strict(defs, member, false, depth - 1).value;
      NothingNested(defs, member, depth - 1);
      MergeWithoutAllOf(s, nested);
      MemberAgrees(defs, s, depth - 1);
      MemberListing(defs, s, depth - 1);
      MergeAccepts(m, defs, s.(allOf := NoVariants), nested, v, lax, n);
      Refines(m, defs, member, false, depth - 1, v, lax, n);
      AcceptsLess(m, defs, member, v, Grouped(lax), n - 1);
      WithAllOf(m, defs, s, v, Grouped(lax), n);
    }
  }

  lemma MemberAgrees(defs: Table, s: Schema, depth: nat)
    requires s.allOf.Variants? && |s.allOf.schemas| == 1 && Strict(defs, s.allOf.schemas[0], false, depth).Some?
    requires Merge(s.(allOf := NoVariants), Strict(defs, s.allOf.schemas[0], false, depth).value).Some?
    requires !Blurs(defs, s)
    ensures Agree(s.(allOf := NoVariants), Strict(defs, s.allOf.schemas[0], false, depth).value)
    ensures !Blurs(defs, s.allOf.schemas[0])
  {
    hide Strict, Blurs, Draws, Merge, Agree;
    var member, base := s.allOf.schemas[0], s.(allOf := NoVariants);
    var nested := Strict(defs, member, false, depth).value;
    MemberDraws(defs, s, 0);
    Unblurred(defs, s, member);
    StrictDraws(defs, member, false, depth);
    DrawsTwice(defs, s, member, nested);
    LessDraws(defs, s, base);
    UnblurredAgree(defs, s, base, nested);
  }

  /** The properties that an allOf member brings belong to the group of its node. */
  lemma MemberListing(defs: Table, s: Schema, depth: nat)
    requires s.allOf.Variants? && |s.allOf.schemas| == 1 && Strict(defs, s.allOf.schemas[0], false, depth).Some?
    ensures Lists(s.(allOf := NoVariants)) ==> Group(LISTING, defs, s)
    ensures Lists(Strict(defs, s.allOf.schemas[0], false, depth).value) ==> Group(LISTING, defs, s)
    ensures Group(LISTING, defs, s.allOf.schemas[0]) ==> Group(LISTING, defs, s)
  {
    hide Strict, Group, GroupWithin, SameGroup;
    var member := s.allOf.schemas[0];
    StrictGroup(LISTING, defs, member, false, depth);
    SameGroupIff(LISTING, defs, member, Strict(defs, member, false, depth).value);
    GroupUnfolds(LISTING, defs, Strict(defs, member, false, depth).value);
    GroupUnfolds(LISTING, defs, s);
  }

  lemma AcceptedAtZero(m: Meaning, defs: Table, s: Schema, v: Json, reading: Reading)
    ensures Accepts(m, defs, s, v, reading, 0)
  {}

  lemma MergeWithoutAllOf(base: Schema, overlay: Schema)
    requires overlay.allOf.NoVariants? && Merge(base, overlay).Some?
    ensures Merge(base.(allOf := NoVariants), overlay) == Some(Merge(base, overlay).value.(allOf := NoVariants))
  {}

  lemma WithAllOf(m: Meaning, defs: Table, s: Schema, v: Json, reading: Reading, n: nat)
    requires n > 0 && s.allOf.Variants? && |s.allOf.schemas| == 1
    requires Accepts(m, defs, s.(allOf := NoVariants), v, reading, n)
    requires Accepts(m, defs, s.allOf.schemas[0], v, reading, n - 1)
    ensures Accepts(m, defs, s, v, reading, n)
  {
    OneAccepts(m, defs, s.allOf.schemas, v, reading, n - 1);
    hide FieldsAccept, AnyAccepts, ElementsAccept, AllAccept;
  }

  lemma OneAccepts(m: Meaning, defs: Table, schemas: seq<Schema>, v: Json, reading: Reading, n: nat)
    requires |schemas| == 1 && Accepts(m, defs, schemas[0], v, reading, n)
    ensures AllAccept(m, defs, schemas, v, reading, n)
  {
    hide Accepts;
  }

  lemma DroppedRefines(m: Meaning, defs: Table, s: Schema, v: Json, reading: Reading, n: nat)
    requires Accepts(m, defs, DropNullDefault(s), v, reading, n)
    ensures Accepts(m, defs, s, v, reading, n)
  {
    hide FieldsAccept, AnyAccepts, ElementsAccept, AllAccept;
    var r := DropNullDefault(s);
    assert forall key | key in s.scalars && key !in ANNOTATIONS :: key in r.scalars && r.scalars[key] == s.scalars[key];
  }

  /** Inlining a reference: whatever the merge accepts, both the target and the node accept. */
  lemma {:induction false} RefRefines(m: Meaning, defs: Table, node: Schema, v: Json, lax: bool, n: nat)
    requires node.ref.Some? && node.ref.value in defs && Merge(defs[node.ref.value], node).Some?
    requires Lists(defs[node.ref.value]) || Lists(node) ==> lax
    requires Respects(m) && Agree(defs[node.ref.value], node)
    requires Accepts(m, defs, Merge(defs[node.ref.value], node).value.(ref := None), v, Grouped(lax), n)
    ensures Accepts(m, defs, defs[node.ref.value], v, Grouped(lax), n) && Accepts(m, defs, node, v, Grouped(lax), n)
    decreases n
  {
    hide FieldsAccept, AnyAccepts, ElementsAccept, AllAccept, Alike, AlikeEntries, AlikeEach, JsonEqual, PythonEqual,
         SamePython, SameEntries, SameEach, Respects;
    var base := defs[node.ref.value];
    var again := Merge(base, node).value.(ref := None);
    assert Merge(base.(ref := None), node.(ref := None)) == Some(again);
    MergeAccepts(m, defs, base.(ref := None), node.(ref := None), v, lax, n);
    if n > 0 {
      AcceptsLess(m, defs, again, v, Grouped(lax), n - 1);
      RefRefines(m, defs, node, v, lax, n - 1);
    }
  }

  /** The properties of a reference's target belong to the group of the node. */
  lemma TargetListing(defs: Table, node: Schema)
    requires node.ref.Some? && node.ref.value in defs
    ensures Lists(defs[node.ref.value]) || Lists(node) ==> Group(LISTING, defs, node)
  {
    hide Group;
    GroupUnfolds(LISTING, defs, node);
    GroupUnfolds(LISTING, defs, defs[node.ref.value]);
  }

  /** One visit of a node. */
  lemma {:induction false} RewriteRefines(m: Meaning, defs: Table, s: Schema, holdsDefs: bool, depth: nat, v: Json,
                                          lax: bool, n: nat)
    requires depth > 0 && !Rewrite(defs, s, holdsDefs, depth).Rejected? && (Group(LISTING, defs, s) ==> lax)
    requires Respects(m) && !Blurs(defs, s)
    requires Accepts(m, defs, Rewrite(defs, s, holdsDefs, depth).schema, v, Grouped(lax), n)
    ensures Accepts(m, defs, s, v, Grouped(lax), n)
    decreases depth, 1
  {
    hide Accepts, StrictParts, InlineAllOf, DropNullDefault, Group, Lists, Shaped, SameGroup, Blurs, Draws, Respects,
         Agree, Merge;
    var own := StrictParts(defs, s, depth).value;
    var merged := InlineAllOf(defs, own, depth).value;
    var node := DropNullDefault(merged);
    PartsGroup(LISTING, defs, s, depth);
    SameGroupIff(LISTING, defs, s, own);
    InlinedGroup(LISTING, defs, own, depth);
    SameGroupIff(LISTING, defs, own, merged);
    DroppedGroup(LISTING, defs, merged);
    SameGroupIff(LISTING, defs, merged, node);
    VisitDraws(defs, s, depth);
    Unblurred(defs, s, own);
    if InlineRef(defs, node, holdsDefs).Again? {
      TargetListing(defs, node);
      TargetAgrees(defs, s, node);
      RefRefines(m, defs, node, v, lax, n);
    }
    DroppedRefines(m, defs, merged, v, Grouped(lax), n);
    InlinedRefines(m, defs, own, depth, v, lax, n);
    PartsRefine(m, defs, s, depth, v, lax, n);
  }

  lemma VisitDraws(defs: Table, s: Schema, depth: nat)
    requires depth > 0 && StrictParts(defs, s, depth).Some?
    requires InlineAllOf(defs, StrictParts(defs, s, depth).value, depth).Some?
    ensures Draws(defs, s, StrictParts(defs, s, depth).value)
    ensures Draws(defs, s, DropNullDefault(InlineAllOf(defs, StrictParts(defs, s, depth).value, depth).value))
  {
    hide StrictParts, InlineAllOf, Draws;
    var own := StrictParts(defs, s, depth).value;
    var merged := InlineAllOf(defs, own, depth).value;
    PartsDraw(defs, s, depth);
    InlinedDraw(defs, own, depth);
    DrawsTwice(defs, s, own, merged);
    LessDraws(defs, merged, DropNullDefault(merged));
    DrawsTwice(defs, s, merged, DropNullDefault(merged));
  }

  lemma TargetAgrees(defs: Table, s: Schema, node: Schema)
    requires node.ref.Some? && node.ref.value in defs && Merge(defs[node.ref.value], node).Some?
    requires Draws(defs, s, node) && !Blurs(defs, s)
    ensures Agree(defs[node.ref.value], node)
  {
    hide Draws, Blurs, Merge, Agree;
    TargetDraws(defs, node);
    DrawsTwice(defs, s, node, defs[node.ref.value]);
    UnblurredAgree(defs, s, defs[node.ref.value], node);
  }

  /** At a fixed table, the strict form of a schema accepts nothing that the schema rejects, in a
      reading that is lax if the schema's group brings properties. */
  lemma {:induction false} Refines(m: Meaning, defs: Table, s: Schema, holdsDefs: bool, depth: nat, v: Json, lax: bool,
                                   n: nat)
    requires Strict(defs, s, holdsDefs, depth).Some? && (Group(LISTING, defs, s) ==> lax)
    requires Respects(m) && !Blurs(defs, s)
    requires Accepts(m, defs, Strict(defs, s, holdsDefs, depth).value, v, Grouped(lax), n)
    ensures Accepts(m, defs, s, v, Grouped(lax), n)
    decreases depth, 2
  {
    hide Accepts, Rewrite, Group, SameGroup, Blurs, Draws, Respects;
    if Rewrite(defs, s, holdsDefs, depth).Again? {
      RewriteGroup(LISTING, defs, s, holdsDefs, depth);
      SameGroupIff(LISTING, defs, s, Rewrite(defs, s, holdsDefs, depth).schema);
      RewriteDraws(defs, s, holdsDefs, depth);
      Unblurred(defs, s, Rewrite(defs, s, holdsDefs, depth).schema);
      Refines(m, defs, Rewrite(defs, s, holdsDefs, depth).schema, holdsDefs, depth - 1, v, lax, n);
    }
    RewriteRefines(m, defs, s, holdsDefs, depth, v, lax, n);
  }

  // ---- the root, with its table of definitions ----

  /** Rewriting one definition makes every schema that refers to it accept at most what it did. */
  lemma {:induction false} DefinitionRefines(m: Meaning, defs: Table, name: string, depth: nat, s: Schema, v: Json,
                                             lax: bool, n: nat)
    requires name in defs && Strict(defs, defs[name], false, depth).Some? && (Group(LISTING, defs, s) ==> lax)
    requires Respects(m) && !Blurs(defs, s)
    requires Accepts(m, defs[name := Strict(defs, defs[name], false, depth).value], s, v, Grouped(lax), n)
    ensures Accepts(m, defs, s, v, Grouped(lax), n)
    decreases n, 0
  {
    hide FieldsAccept, AnyAccepts, ElementsAccept, AllAccept, Strict, Group, SameGroup, Blurs, Draws, Respects;
    if n > 0 {
      var later := defs[name := Strict(defs, defs[name], false, depth).value];
      GroupUnfolds(LISTING, defs, s);
      PartsUnblurred(defs, s);
      if s.ref.Some? {
        if s.ref.value == name {
          StrictGroup(LISTING, defs, defs[name], false, depth);
          SameGroupIff(LISTING, defs, defs[name], later[name]);
          StrictDraws(defs, defs[name], false, depth);
          Unblurred(defs, defs[name], later[name]);
          DefinitionRefines(m, defs, name, depth, later[name], v, lax, n - 1);
          Refines(m, defs, defs[name], false, depth, v, lax, n - 1);
        } else {
          DefinitionRefines(m, defs, name, depth, defs[s.ref.value], v, lax, n - 1);
        }
      }
      DefinitionRefinesParts(m, defs, name, depth, s, v, lax, n - 1);
    }
  }

  lemma {:induction false} DefinitionRefinesParts(m: Meaning, defs: Table, name: string, depth: nat, s: Schema, v: Json,
                                                  lax: bool, n: nat)
    requires name in defs && Strict(defs, defs[name], false, depth).Some?
    requires (MemberGroup(LISTING, defs, s.allOf) ==> lax)
    requires Respects(m) && !Blurs(defs, s)
    ensures var later, reading := defs[name := Strict(defs, defs[name], false, depth).value], Grouped(lax);
            && (s.props.Props? && FieldsAccept(m, later, s.props.entries, v, reading, n) ==>
                  FieldsAccept(m, defs, s.props.entries, v, reading, n))
            && (s.items.Items? && ElementsAccept(m, later, s.items.schema, v, reading, n) ==>
                  ElementsAccept(m, defs, s.items.schema, v, reading, n))
            && (s.anyOf.Variants? && AnyAccepts(m, later, s.anyOf.schemas, v, reading, n) ==>
                  AnyAccepts(m, defs, s.anyOf.schemas, v, reading, n))
            && (s.allOf.Variants? && AllAccept(m, later, s.allOf.schemas, v, reading, n) ==>
                  AllAccept(m, defs, s.allOf.schemas, v, reading, n))
    decreases n, 2
  {
    hide Strict, Group, Accepts, AcceptsOwn, Blurs, Respects;
    var later := defs[name := Strict(defs, defs[name], false, depth).value];
    PartsUnblurred(defs, s);
    forall schema, w |
        && Accepts(m, later, schema, w, Grouped(lax), n)
        && (Group(LISTING, defs, schema) ==> lax) && !Blurs(defs, schema)
      ensures Accepts(m, defs, schema, w, Grouped(lax), n)
    {
      DefinitionRefines(m, defs, name, depth, schema, w, lax, n);
    }
    forall schema, w | AcceptsOwn(m, later, schema, w, Grouped(lax), n) && !Blurs(defs, schema)
      ensures AcceptsOwn(m, defs, schema, w, Grouped(lax), n)
    {
      DefinitionRefinesOwn(m, defs, name, depth, schema, w, lax, n);
    }
  }

  lemma {:induction false} DefinitionRefinesOwn(m: Meaning, defs: Table, name: string, depth: nat, s: Schema, v: Json,
                                                lax: bool, n: nat)
    requires name in defs && Strict(defs, defs[name], false, depth).Some?
    requires Respects(m) && !Blurs(defs, s)
    requires AcceptsOwn(m, defs[name := Strict(defs, defs[name], false, depth).value], s, v, Grouped(lax), n)
    ensures AcceptsOwn(m, defs, s, v, Grouped(lax), n)
    decreases n, 1
  {
    hide Strict, Group, Accepts, Blurs, Respects;
    DefinitionGroup(LISTING, defs, name, depth, s);
    DefinitionRefines(m, defs, name, depth, s, v, Group(LISTING, defs, s), n);
  }

  lemma {:induction false} TableRefines(m: Meaning, defs: Table, order: seq<string>, depth: nat, s: Schema, v: Json,
                                        lax: bool, n: nat)
    requires forall name | name in order :: name in defs
    requires StrictTable(defs, order, depth).Some? && (Group(LISTING, defs, s) ==> lax)
    requires Respects(m) && !Blurs(defs, s)
    requires Accepts(m, StrictTable(defs, order, depth).value, s, v, Grouped(lax), n)
    ensures Accepts(m, defs, s, v, Grouped(lax), n)
    decreases |order|
  {
    hide Accepts, Strict, Group, Blurs, Respects;
    if order != [] {
      var first := Strict(defs, defs[order[0]], false, depth).value;
      DefinitionGroup(LISTING, defs, order[0], depth, s);
      if Blurs(defs[order[0] := first], s) {
        DefinitionBlurs(defs, order[0], depth, s);
      }
      TableRefines(m, defs[order[0] := first], order[1..], depth, s, v, lax, n);
      DefinitionRefines(m, defs, order[0], depth, s, v, lax, n);
    }
  }

  lemma {:induction false} TableUnblurred(defs: Table, order: seq<string>, depth: nat, s: Schema)
    requires forall name | name in order :: name in defs
    requires StrictTable(defs, order, depth).Some? && !Blurs(defs, s)
    ensures !Blurs(StrictTable(defs, order, depth).value, s)
    decreases |order|
  {
    hide Strict, Blurs;
    if order != [] {
      var later := defs[order[0] := Strict(defs, defs[order[0]], false, depth).value];
      if Blurs(later, s) {
        DefinitionBlurs(defs, order[0], depth, s);
      }
      TableUnblurred(later, order[1..], depth, s);
    }
  }

  lemma {:induction false} RootRefines(m: Meaning, defs: Table, order: seq<string>, s: Schema, depth: nat, v: Json,
                                       lax: bool, n: nat)
    requires forall name | name in order :: name in defs
    requires StrictRoot(defs, order, s, depth).Some? && (Group(LISTING, defs, s) ==> lax)
    requires Respects(m) && !Blurs(defs, s)
    requires var (table, r) := StrictRoot(defs, order, s, depth).value; Accepts(m, table, r, v, Grouped(lax), n)
    ensures Accepts(m, defs, s, v, Grouped(lax), n)
    decreases depth
  {
    hide Accepts, Rewrite, Strict, StrictTable, Group, SameGroup, Blurs, Draws, Respects;
    var table := StrictTable(defs, order, depth - 1).value;
    TableGroup(LISTING, defs, order, depth - 1, s);
    TableUnblurred(defs, order, depth - 1, s);
    if Rewrite(table, s, order != [], depth).Again? {
      var again := Rewrite(table, s, order != [], depth).schema;
      RewriteGroup(LISTING, table, s, order != [], depth);
      SameGroupIff(LISTING, table, s, again);
      RewriteDraws(table, s, order != [], depth);
      Unblurred(table, s, again);
      RootRefines(m, table, order, again, depth - 1, v, lax, n);
    }
    RewriteRefines(m, table, s, order != [], depth, v, lax, n);
    TableRefines(m, defs, order, depth - 1, s, v, lax, n);
  }

  // ---- the two readings of authored schemas ----

  /** The schemas that come together at the place clash: one has properties and another is closed without
      listing any. */
  ghost predicate ClashAt(defs: Table, s: Schema, path: seq<Step>) {
    Group(Placed(path, Listing), defs, s) && Group(Placed(path, Shutting), defs, s)
  }

  /** Nothing clashes below the schema itself. */
  ghost predicate NoClashBelow(defs: Table, s: Schema) {
    forall path | path != [] :: !ClashAt(defs, s, path)
  }

  ghost predicate NoClash(defs: Table, s: Schema) {
    forall path :: !ClashAt(defs, s, path)
  }

  lemma PartNoClash(defs: Table, s: Schema, step: Step, z: Schema)
    requires IsPart(s, step, z) && NoClashBelow(defs, s)
    ensures NoClash(defs, z)
  {
    hide Group, IsPart;
    forall path
      ensures !ClashAt(defs, z, path)
    {
      assert !ClashAt(defs, s, [step] + path);
      if ClashAt(defs, z, path) {
        PartHolds(Placed(path, Listing), defs, s, step, z);
        PartHolds(Placed(path, Shutting), defs, s, step, z);
      }
    }
  }

  lemma PartsNoClash(defs: Table, s: Schema)
    requires NoClashBelow(defs, s)
    ensures s.props.Props? ==> forall i | 0 <= i < |s.props.entries| :: NoClash(defs, s.props.entries[i].schema)
    ensures s.items.Items? ==> NoClash(defs, s.items.schema)
    ensures s.anyOf.Variants? ==> forall i | 0 <= i < |s.anyOf.schemas| :: NoClash(defs, s.anyOf.schemas[i])
    ensures s.allOf.Variants? ==> forall i | 0 <= i < |s.allOf.schemas| :: NoClashBelow(defs, s.allOf.schemas[i])
    ensures s.ref.Some? && s.ref.value in defs ==> NoClashBelow(defs, defs[s.ref.value])
  {
    hide Group, NoClash, NoClashBelow, Has;
    if s.props.Props? {
      forall i | 0 <= i < |s.props.entries|
        ensures NoClash(defs, s.props.entries[i].schema)
      {
        var entry := s.props.entries[i];
        assert entry == Entry(entry.name, entry.schema);
        PartNoClash(defs, s, Prop(entry.name), entry.schema);
      }
    }
    if s.items.Items? {
      PartNoClash(defs, s, Item, s.items.schema);
    }
    if s.anyOf.Variants? {
      forall i | 0 <= i < |s.anyOf.schemas|
        ensures NoClash(defs, s.anyOf.schemas[i])
      {
        PartNoClash(defs, s, Variant(i), s.anyOf.schemas[i]);
      }
    }
    if s.allOf.Variants? {
      forall i | 0 <= i < |s.allOf.schemas|
        ensures NoClashBelow(defs, s.allOf.schemas[i])
      {
        MergedNoClash(defs, s, s.allOf.schemas[i]);
      }
    }
    if s.ref.Some? && s.ref.value in defs {
      MergedNoClash(defs, s, defs[s.ref.value]);
    }
  }

  lemma MergedNoClash(defs: Table, s: Schema, z: Schema)
    requires NoClashBelow(defs, s)
    requires (s.allOf.Variants? && z in s.allOf.schemas)
               || (s.ref.Some? && s.ref.value in defs && z == defs[s.ref.value])
    ensures NoClashBelow(defs, z)
  {
    hide Group, Has;
    forall path | path != []
      ensures !ClashAt(defs, z, path)
    {
      GroupUnfolds(Placed(path, Listing), defs, s);
      GroupUnfolds(Placed(path, Shutting), defs, s);
      assert !ClashAt(defs, s, path);
    }
  }

  /** Where no group clashes the two readings agree; about instances other than objects they always do. */
  lemma {:induction false} GroupedIsPlain(m: Meaning, defs: Table, s: Schema, v: Json, lax: bool, n: nat)
    requires Accepts(m, defs, s, v, Grouped(lax), n) && NoClashBelow(defs, s)
    requires lax && v.JObject? ==> !Group(SHUTTING, defs, s)
    ensures Accepts(m, defs, s, v, Plain, n)
    decreases n, 0
  {
    hide FieldsAccept, AnyAccepts, ElementsAccept, AllAccept, Group, NoClashBelow, NoClash;
    if n > 0 {
      GroupUnfolds(SHUTTING, defs, s);
      PartsNoClash(defs, s);
      if s.ref.Some? {
        GroupedIsPlain(m, defs, defs[s.ref.value], v, lax, n - 1);
      }
      GroupedPartsPlain(m, defs, s, v, lax, n - 1);
    }
  }

  lemma {:induction false} GroupedPartsPlain(m: Meaning, defs: Table, s: Schema, v: Json, lax: bool, n: nat)
    requires NoClashBelow(defs, s)
    requires (lax && v.JObject? ==> !MemberGroup(SHUTTING, defs, s.allOf))
    ensures var reading := Grouped(lax);
            && (s.props.Props? && FieldsAccept(m, defs, s.props.entries, v, reading, n) ==>
                  FieldsAccept(m, defs, s.props.entries, v, Plain, n))
            && (s.items.Items? && ElementsAccept(m, defs, s.items.schema, v, reading, n) ==>
                  ElementsAccept(m, defs, s.items.schema, v, Plain, n))
            && (s.anyOf.Variants? && AnyAccepts(m, defs, s.anyOf.schemas, v, reading, n) ==>
                  AnyAccepts(m, defs, s.anyOf.schemas, v, Plain, n))
            && (s.allOf.Variants? && AllAccept(m, defs, s.allOf.schemas, v, reading, n) ==>
                  AllAccept(m, defs, s.allOf.schemas, v, Plain, n))
    decreases n, 2
  {
    hide Group, Accepts, AcceptsOwn, NoClash, NoClashBelow;
    PartsNoClash(defs, s);
    forall schema |
        && Accepts(m, defs, schema, v, Grouped(lax), n) && NoClashBelow(defs, schema)
        && (lax && v.JObject? ==> !Group(SHUTTING, defs, schema))
      ensures Accepts(m, defs, schema, v, Plain, n)
    {
      GroupedIsPlain(m, defs, schema, v, lax, n);
    }
    forall schema, w | AcceptsOwn(m, defs, schema, w, Grouped(lax), n) && NoClash(defs, schema)
      ensures AcceptsOwn(m, defs, schema, w, Plain, n)
    {
      GroupedOwnIsPlain(m, defs, schema, w, lax, n);
    }
  }

  lemma {:induction false} GroupedOwnIsPlain(m: Meaning, defs: Table, s: Schema, v: Json, lax: bool, n: nat)
    requires AcceptsOwn(m, defs, s, v, Grouped(lax), n) && NoClash(defs, s)
    ensures AcceptsOwn(m, defs, s, v, Plain, n)
    decreases n, 1
  {
    hide Group, Accepts;
    assert !ClashAt(defs, s, []);
    GroupedIsPlain(m, defs, s, v, Group(LISTING, defs, s), n);
  }

  /** The main property: where no group of the authored document clashes and no values come together
      that are equal for Python only, whatever the strict schema accepts the authored one accepts. A
      clash at the root concerns objects only. */
  lemma StrictAcceptsNoMore(m: Meaning, defs: Table, order: seq<string>, s: Schema, depth: nat, v: Json, n: nat)
    requires forall name | name in order :: name in defs
    requires NoClashBelow(defs, s) && (v.JObject? ==> !ClashAt(defs, s, []))
    requires Respects(m) && !Blurs(defs, s)
    requires EnsureStrict(defs, order, s, depth).Some?
    requires var (table, r) := EnsureStrict(defs, order, s, depth).value; Accepts(m, table, r, v, Plain, n)
    ensures Accepts(m, defs, s, v, Plain, n)
  {
    hide StrictRoot, Group, FieldsAccept, Blurs, Respects;
    if s != EMPTY || order != [] {
      var (table, r) := StrictRoot(defs, order, s, depth).value;
      var lax := Group(LISTING, defs, s);
      WeakerAccepts(m, table, r, v, Plain, Grouped(lax), n);
      RootRefines(m, defs, order, s, depth, v, lax, n);
      GroupedIsPlain(m, defs, s, v, lax, n);
    }
  }
}
