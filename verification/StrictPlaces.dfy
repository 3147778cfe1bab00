/** Places in documents and in instances: what a strict schema accepts around what it accepts at a
    place, and that a schema rejects what it rejects at a place. */
module StrictPlaces {
  import opened Wrappers
  import opened SchemaValues
  import opened StrictSchema
  import opened StrictGroups
  import opened ValueClashes
  import opened StrictDocument
  import opened StrictMeaning

  ghost predicate AlwaysAccepts(m: Meaning, defs: Table, s: Schema, v: Json) {
    forall n: nat :: Accepts(m, defs, s, v, Plain, n)
  }

  /** Whatever scalar keywords mean, the strict schema accepts nothing that the authored one rejects. */
  ghost predicate Faithful(defs: Table, s: Schema, table: Table, r: Schema) {
    forall m, v | Respects(m) && AlwaysAccepts(m, table, r, v) :: AlwaysAccepts(m, defs, s, v)
  }

  /** Some object is accepted under some meaning of the scalar keywords. */
  ghost predicate AcceptsSomeObject(table: Table, r: Schema) {
    exists m, v: Json :: Respects(m) && v.JObject? && AlwaysAccepts(m, table, r, v)
  }

  /** What the instance has at the place. */
  function AtPlace(v: Json, path: seq<Step>): Option<Json> {
    if path == [] then Some(v)
    else
      match path[0]
      case Prop(name) => if v.JObject? && name in v.fields then AtPlace(v.fields[name], path[1..]) else None
      case Item => if v.JList? && v.items != [] then AtPlace(v.items[0], path[1..]) else None
      case Variant(_) => None
  }

  /** No schema on the way to the place, nor there, has variants. */
  ghost predicate NoVariantsOn(defs: Table, s: Schema, path: seq<Step>) {
    forall n: nat | n <= |path| :: !Group(Placed(path[..n], Varied), defs, s)
  }

  // ---- what strict schemas accept ----

  ghost predicate TableIsStrictForm(table: Table, depth: nat) {
    forall name | name in table :: StrictForm(table.Keys, table[name], false, depth)
  }

  lemma StrictRequires(refs: set<string>, s: Schema, holdsDefs: bool, depth: nat)
    requires StrictForm(refs, s, holdsDefs, depth) && s.props.Props?
    ensures s.required == Some(Names(s.props.entries)) && s.ref.None? && s.allOf.NoVariants?
    ensures Distinct(Names(s.props.entries))
  {}

  lemma StrictShape(refs: set<string>, r: Schema, holdsDefs: bool, depth: nat)
    requires StrictForm(refs, r, holdsDefs, depth)
    ensures r.allOf.NoVariants? && (r.ref.Some? ==> RefAlone(r) && r.ref.value in refs)
  {}

  lemma PartUnique(refs: set<string>, r: Schema, holdsDefs: bool, depth: nat, step: Step, x: Schema, y: Schema)
    requires StrictForm(refs, r, holdsDefs, depth) && IsPart(r, step, x) && IsPart(r, step, y)
    ensures x == y && depth > 0 && StrictForm(refs, x, false, depth - 1) && r.ref.None?
  {
    match step
    case Prop(name) =>
      var p := r.props.entries;
      var i :| 0 <= i < |p| && p[i] == Entry(name, x);
      var j :| 0 <= j < |p| && p[j] == Entry(name, y);
      assert Names(p)[i] == Names(p)[j];
    case Item =>
    case Variant(i) =>
  }

  /** Scalar keywords demand nothing of null, lists and objects. */
  ghost predicate Lenient(m: Meaning) {
    forall key, value, v: Json | v.JNull? || v.JList? || v.JObject? :: m(key, value, v)
  }

  /** Where scalar keywords demand nothing of null, strict schemas accept it. */
  lemma {:induction false} NullAccepted(m: Meaning, table: Table, s: Schema, holdsDefs: bool, depth: nat,
                                        tableDepth: nat, n: nat)
    requires Lenient(m)
    requires StrictForm(table.Keys, s, holdsDefs, depth) && TableIsStrictForm(table, tableDepth)
    ensures Accepts(m, table, s, JNull, Plain, n)
    decreases n
  {
    hide AnyAccepts, AllAccept, Names;
    if n > 0 {
      assert Demands(m, s, JNull);
      if s.ref.Some? {
        NullAccepted(m, table, table[s.ref.value], false, tableDepth, tableDepth, n - 1);
      }
      if s.anyOf.Variants? {
        NullAccepted(m, table, s.anyOf.schemas[0], false, depth - 1, tableDepth, n - 1);
        OneOfThem(m, table, s.anyOf.schemas, JNull, n - 1);
      }
    }
  }

  lemma OneOfThem(m: Meaning, table: Table, schemas: seq<Schema>, v: Json, n: nat)
    requires schemas != [] && Accepts(m, table, schemas[0], v, Plain, n)
    ensures AnyAccepts(m, table, schemas, v, Plain, n)
  {
    hide Accepts;
    assert AcceptsOwn(m, table, schemas[0], v, Plain, n);
  }

  /** A strict schema with properties and without variants accepts an object with exactly those fields
      whose values its properties accept. */
  lemma FieldsAccepted(m: Meaning, table: Table, r: Schema, holdsDefs: bool, depth: nat, v: Json, n: nat)
    requires StrictForm(table.Keys, r, holdsDefs, depth) && r.props.Props? && r.anyOf.NoVariants?
    requires v.JObject? && (forall name :: name in v.fields <==> name in Names(r.props.entries))
    requires Lenient(m)
    requires n > 0 && forall i | 0 <= i < |r.props.entries| ::
               Accepts(m, table, r.props.entries[i].schema, v.fields[Names(r.props.entries)[i]], Plain, n - 1)
    ensures Accepts(m, table, r, v, Plain, n)
  {
    hide Accepts, Names, StrictForm;
    StrictRequires(table.Keys, r, holdsDefs, depth);
    assert forall i | 0 <= i < |r.props.entries| ::
        AcceptsOwn(m, table, r.props.entries[i].schema, v.fields[r.props.entries[i].name], Plain, n - 1) by {
      forall i | 0 <= i < |r.props.entries|
        ensures AcceptsOwn(m, table, r.props.entries[i].schema, v.fields[r.props.entries[i].name], Plain, n - 1)
      {
        assert Names(r.props.entries)[i] == r.props.entries[i].name;
      }
    }
    assert FieldsAccept(m, table, r.props.entries, v, Plain, n - 1);
    KeysAccepted(m, table, r, v, n);
  }

  lemma KeysAccepted(m: Meaning, table: Table, r: Schema, v: Json, n: nat)
    requires n > 0 && r.props.Props? && r.ref.None? && r.anyOf.NoVariants? && r.allOf.NoVariants?
    requires r.required == Some(Names(r.props.entries)) && v.JObject?
    requires (forall name :: name in v.fields <==> name in Names(r.props.entries)) && Lenient(m)
    requires FieldsAccept(m, table, r.props.entries, v, Plain, n - 1)
    ensures Accepts(m, table, r, v, Plain, n)
  {
    hide FieldsAccept, Names;
  }

  // ---- around a place ----

  /** Whatever z accepts, r accepts in the place, inside some instance. */
  ghost predicate Leads(table: Table, r: Schema, path: seq<Step>, z: Schema) {
    forall m, u | Lenient(m) && AlwaysAccepts(m, table, z, u) ::
      exists v :: AtPlace(v, path) == Some(u) && AlwaysAccepts(m, table, r, v)
  }

  /** The marks of z, and of what is merged into it, are those that r has in the place. */
  ghost predicate MarksAt(table: Table, r: Schema, path: seq<Step>, z: Schema) {
    forall mark | Group(Placed([], mark), table, z) :: Group(Placed(path, mark), table, r)
  }

  /** A place of a strict schema leads to a strict schema. */
  lemma {:induction false} PlaceNode(table: Table, r: Schema, holdsDefs: bool, depth: nat, tableDepth: nat,
                                     path: seq<Step>, mark: Mark, k: nat)
    returns (z: Schema, below: nat)
    requires StrictForm(table.Keys, r, holdsDefs, depth) && TableIsStrictForm(table, tableDepth)
    requires GroupWithin(Placed(path, mark), table, r, k) && NoVariantsOn(table, r, path)
    ensures StrictForm(table.Keys, z, false, below) && Marked(mark, z)
    ensures Leads(table, r, path, z) && MarksAt(table, r, path, z)
    decreases |path|, k
  {
    hide StrictForm, Group, AlwaysAccepts, IsPart, Lenient, Leads, MarksAt, NoVariantsOn;
    var f := Placed(path, mark);
    StrictShape(table.Keys, r, holdsDefs, depth);
    if path == [] && Marked(mark, r) {
      z, below := r, depth;
      HereLeads(table, r);
      WithoutDefs(table.Keys, r, holdsDefs, depth);
    } else if r.ref.Some? {
      if path != [] {
        NoParts(r, path[0]);
      }
      assert !Has(f, table, r);
      TargetNoVariants(table, r, path);
      z, below := PlaceNode(table, table[r.ref.value], false, tableDepth, tableDepth, path, mark, k - 1);
      TargetLeads(table, r, path, z);
    } else {
      var x :| IsPart(r, path[0], x) && Group(Below(f), table, x);
      var k' := Within(Below(f), table, x);
      PartUnique(table.Keys, r, holdsDefs, depth, path[0], x, x);
      PartNoVariants(table, r, path, x);
      z, below := PlaceNode(table, x, false, depth - 1, tableDepth, path[1..], mark, k');
      PartLeads(table, r, holdsDefs, depth, tableDepth, path, x, z);
    }
  }

  /** What r lacks in the place z lacks; so z has no variants. */
  lemma LacksAt(table: Table, r: Schema, path: seq<Step>, z: Schema)
    requires MarksAt(table, r, path, z) && NoVariantsOn(table, r, path)
    ensures z.anyOf.NoVariants? && !Group(Placed([], Varied), table, z)
  {
    hide Group;
    assert path[..|path|] == path;
    GroupUnfolds(Placed([], Varied), table, z);
  }

  lemma HereLeads(table: Table, r: Schema)
    ensures Leads(table, r, [], r) && MarksAt(table, r, [], r)
  {
    hide AlwaysAccepts, Lenient, Group;
    forall m, u | Lenient(m) && AlwaysAccepts(m, table, r, u)
      ensures exists v :: AtPlace(v, []) == Some(u) && AlwaysAccepts(m, table, r, v)
    {
      assert AtPlace(u, []) == Some(u);
    }
  }

  lemma WithoutDefs(refs: set<string>, s: Schema, holdsDefs: bool, depth: nat)
    requires StrictForm(refs, s, holdsDefs, depth)
    ensures StrictForm(refs, s, false, depth)
  {}

  lemma TargetLeads(table: Table, r: Schema, path: seq<Step>, z: Schema)
    requires RefAlone(r) && r.ref.Some? && r.ref.value in table
    requires Leads(table, table[r.ref.value], path, z) && MarksAt(table, table[r.ref.value], path, z)
    ensures Leads(table, r, path, z) && MarksAt(table, r, path, z)
  {
    hide AlwaysAccepts, Lenient, Group;
    forall m, u | Lenient(m) && AlwaysAccepts(m, table, z, u)
      ensures exists v :: AtPlace(v, path) == Some(u) && AlwaysAccepts(m, table, r, v)
    {
      var v :| AtPlace(v, path) == Some(u) && AlwaysAccepts(m, table, table[r.ref.value], v);
      AloneAccepts(m, table, r, v);
    }
    forall mark | Group(Placed([], mark), table, z)
      ensures Group(Placed(path, mark), table, r)
    {
      GroupUnfolds(Placed(path, mark), table, r);
    }
  }

  lemma PartLeads(table: Table, r: Schema, holdsDefs: bool, depth: nat, tableDepth: nat, path: seq<Step>, x: Schema,
                  z: Schema)
    requires StrictForm(table.Keys, r, holdsDefs, depth) && TableIsStrictForm(table, tableDepth)
    requires path != [] && IsPart(r, path[0], x) && r.anyOf.NoVariants? && r.ref.None? && r.allOf.NoVariants?
    requires Leads(table, x, path[1..], z) && MarksAt(table, x, path[1..], z)
    ensures Leads(table, r, path, z) && MarksAt(table, r, path, z)
  {
    hide AlwaysAccepts, Lenient, Group, IsPart, StrictForm, TableIsStrictForm;
    forall m, u | Lenient(m) && AlwaysAccepts(m, table, z, u)
      ensures exists v :: AtPlace(v, path) == Some(u) && AlwaysAccepts(m, table, r, v)
    {
      var w :| AtPlace(w, path[1..]) == Some(u) && AlwaysAccepts(m, table, x, w);
      var v := Around(m, table, r, holdsDefs, depth, tableDepth, path, x, w, u);
    }
    assert [path[0]] + path[1..] == path;
    forall mark | Group(Placed([], mark), table, z)
      ensures Group(Placed(path, mark), table, r)
    {
      PartHolds(Placed(path[1..], mark), table, r, path[0], x);
    }
  }

  lemma TargetLacks(f: Feature, table: Table, r: Schema)
    requires r.ref.Some? && r.ref.value in table && !Group(f, table, r)
    ensures !Group(f, table, table[r.ref.value])
  {
    hide Group, Has;
    GroupUnfolds(f, table, r);
  }

  lemma TargetNoVariants(table: Table, r: Schema, path: seq<Step>)
    requires r.ref.Some? && r.ref.value in table && NoVariantsOn(table, r, path)
    ensures NoVariantsOn(table, table[r.ref.value], path)
  {
    hide Group;
    forall n: nat | n <= |path|
      ensures !Group(Placed(path[..n], Varied), table, table[r.ref.value])
    {
      TargetLacks(Placed(path[..n], Varied), table, r);
    }
  }

  lemma PartNoVariants(table: Table, r: Schema, path: seq<Step>, z: Schema)
    requires path != [] && IsPart(r, path[0], z) && NoVariantsOn(table, r, path)
    ensures NoVariantsOn(table, z, path[1..]) && r.anyOf.NoVariants?
  {
    hide Group, IsPart;
    forall n: nat | n <= |path[1..]|
      ensures !Group(Placed(path[1..][..n], Varied), table, z)
    {
      assert [path[0]] + path[1..][..n] == path[..n + 1];
      if Group(Placed(path[1..][..n], Varied), table, z) {
        PartHolds(Placed(path[1..][..n], Varied), table, r, path[0], z);
      }
    }
    assert !Group(Placed(path[..0], Varied), table, r);
    GroupUnfolds(Placed(path[..0], Varied), table, r);
  }

  lemma NoParts(r: Schema, step: Step)
    requires RefAlone(r)
    ensures forall z :: !IsPart(r, step, z)
  {}

  lemma AloneAccepts(m: Meaning, table: Table, r: Schema, v: Json)
    requires RefAlone(r) && r.ref.Some? && r.ref.value in table && AlwaysAccepts(m, table, table[r.ref.value], v)
    ensures AlwaysAccepts(m, table, r, v)
  {
    forall n: nat
      ensures Accepts(m, table, r, v, Plain, n)
    {
      assert n > 0 ==> Accepts(m, table, table[r.ref.value], v, Plain, n - 1);
    }
  }

  /** The instance with another in one field or element, and null in all other fields. */
  lemma Around(m: Meaning, table: Table, r: Schema, holdsDefs: bool, depth: nat, tableDepth: nat, path: seq<Step>,
               x: Schema, w: Json, u: Json)
    returns (v: Json)
    requires StrictForm(table.Keys, r, holdsDefs, depth) && TableIsStrictForm(table, tableDepth) && Lenient(m)
    requires path != [] && IsPart(r, path[0], x) && r.anyOf.NoVariants? && r.ref.None? && r.allOf.NoVariants?
    requires AtPlace(w, path[1..]) == Some(u) && AlwaysAccepts(m, table, x, w)
    ensures AtPlace(v, path) == Some(u) && AlwaysAccepts(m, table, r, v)
  {
    hide StrictForm, Accepts, TableIsStrictForm;
    if path[0].Item? {
      v := JList([w]);
      forall n: nat
        ensures Accepts(m, table, r, v, Plain, n)
      {
        ElementAccepted(m, table, r, x, w, n);
      }
    } else {
      var name := path[0].name;
      var i :| 0 <= i < |r.props.entries| && r.props.entries[i] == Entry(name, x);
      assert Names(r.props.entries)[i] == name;
      v := JObject(map other | other in Names(r.props.entries) :: if other == name then w else JNull);
      forall n: nat
        ensures Accepts(m, table, r, v, Plain, n)
      {
        FieldAccepted(m, table, r, holdsDefs, depth, tableDepth, name, x, w, v, n);
      }
    }
  }

  lemma ElementAccepted(m: Meaning, table: Table, r: Schema, z: Schema, w: Json, n: nat)
    requires r.items == Items(z) && r.ref.None? && r.anyOf.NoVariants? && r.allOf.NoVariants?
    requires AlwaysAccepts(m, table, z, w) && Lenient(m)
    ensures Accepts(m, table, r, JList([w]), Plain, n)
  {
    hide FieldsAccept;
    if n > 0 {
      assert Accepts(m, table, z, w, Plain, n - 1);
      assert ElementsAccept(m, table, z, JList([w]), Plain, n - 1);
      assert !JList([w]).JObject?;
      assert r.props.Props? ==> FieldsAccept(m, table, r.props.entries, JList([w]), Plain, n - 1) by {
        NoFields(m, table, r, JList([w]), n - 1);
      }
    }
  }

  lemma NoFields(m: Meaning, table: Table, r: Schema, v: Json, n: nat)
    requires !v.JObject?
    ensures r.props.Props? ==> FieldsAccept(m, table, r.props.entries, v, Plain, n)
  {}

  lemma FieldAccepted(m: Meaning, table: Table, r: Schema, holdsDefs: bool, depth: nat, tableDepth: nat, name: string,
                      z: Schema, w: Json, v: Json, n: nat)
    requires StrictForm(table.Keys, r, holdsDefs, depth) && TableIsStrictForm(table, tableDepth)
    requires IsPart(r, Prop(name), z) && r.anyOf.NoVariants? && AlwaysAccepts(m, table, z, w)
    requires v == JObject(map other | other in Names(r.props.entries) :: if other == name then w else JNull)
    requires Lenient(m)
    ensures Accepts(m, table, r, v, Plain, n)
  {
    hide Accepts, TableIsStrictForm;
    var p := r.props.entries;
    if n == 0 {
      AcceptedAtZero(m, table, r, v, Plain);
    } else {
      forall i | 0 <= i < |p|
        ensures Accepts(m, table, p[i].schema, v.fields[Names(p)[i]], Plain, n - 1)
      {
        if p[i].name == name {
          assert p[i] == Entry(name, p[i].schema);
          PartUnique(table.Keys, r, holdsDefs, depth, Prop(name), p[i].schema, z);
        } else {
          NullAccepted(m, table, p[i].schema, false, depth - 1, tableDepth, n - 1);
        }
      }
      FieldsAccepted(m, table, r, holdsDefs, depth, v, n);
    }
  }

  // ---- rejected at a place ----

  /** A schema with a mark in a place has a schema there, and rejects what that one rejects. */
  lemma {:induction false} PlaceRejects(m: Meaning, defs: Table, s: Schema, path: seq<Step>, mark: Mark, v: Json,
                                        u: Json, k: nat)
    returns (z: Schema)
    requires GroupWithin(Placed(path, mark), defs, s, k) && AtPlace(v, path) == Some(u)
    ensures Marked(mark, z) && (!AlwaysAccepts(m, defs, z, u) ==> !AlwaysAccepts(m, defs, s, v))
    decreases |path|, k
  {
    hide AlwaysAccepts, IsPart, Group;
    var f := Placed(path, mark);
    if s.ref.Some? && s.ref.value in defs && GroupWithin(f, defs, defs[s.ref.value], k - 1) {
      z := PlaceRejects(m, defs, defs[s.ref.value], path, mark, v, u, k - 1);
      if AlwaysAccepts(m, defs, s, v) {
        TargetAccepts(m, defs, s, v);
      }
    } else if Has(f, defs, s) {
      if path == [] {
        z := s;
      } else {
        var x :| IsPart(s, path[0], x) && Group(Below(f), defs, x);
        var k' := Within(Below(f), defs, x);
        var w := if path[0].Prop? then v.fields[path[0].name] else v.items[0];
        z := PlaceRejects(m, defs, x, path[1..], mark, w, u, k');
        if AlwaysAccepts(m, defs, s, v) {
          assert AtPlace(v, [path[0]]) == Some(w);
          PartAccepts(m, defs, s, path[0], x, v, w);
        }
      }
    } else {
      var i :| 0 <= i < |s.allOf.schemas| && GroupWithin(f, defs, s.allOf.schemas[i], k - 1);
      z := PlaceRejects(m, defs, s.allOf.schemas[i], path, mark, v, u, k - 1);
      if AlwaysAccepts(m, defs, s, v) {
        MemberAccepts(m, defs, s, i, v);
      }
    }
  }

  lemma TargetAccepts(m: Meaning, defs: Table, s: Schema, v: Json)
    requires s.ref.Some? && s.ref.value in defs && AlwaysAccepts(m, defs, s, v)
    ensures AlwaysAccepts(m, defs, defs[s.ref.value], v)
  {
    forall n: nat
      ensures Accepts(m, defs, defs[s.ref.value], v, Plain, n)
    {
      assert Accepts(m, defs, s, v, Plain, n + 1);
    }
  }

  lemma MemberAccepts(m: Meaning, defs: Table, s: Schema, i: nat, v: Json)
    requires s.allOf.Variants? && i < |s.allOf.schemas| && AlwaysAccepts(m, defs, s, v)
    ensures AlwaysAccepts(m, defs, s.allOf.schemas[i], v)
  {
    forall n: nat
      ensures Accepts(m, defs, s.allOf.schemas[i], v, Plain, n)
    {
      assert Accepts(m, defs, s, v, Plain, n + 1);
      assert AllAccept(m, defs, s.allOf.schemas, v, Plain, n);
    }
  }

  lemma PartAccepts(m: Meaning, defs: Table, s: Schema, step: Step, x: Schema, v: Json, w: Json)
    requires IsPart(s, step, x) && AtPlace(v, [step]) == Some(w) && AlwaysAccepts(m, defs, s, v)
    ensures AlwaysAccepts(m, defs, x, w)
  {
    forall n: nat
      ensures Accepts(m, defs, x, w, Plain, n)
    {
      assert Accepts(m, defs, s, v, Plain, n + 1);
      if step.Prop? {
        var i :| 0 <= i < |s.props.entries| && s.props.entries[i] == Entry(step.name, x);
        assert FieldsAccept(m, defs, s.props.entries, v, Plain, n);
        assert AcceptsOwn(m, defs, s.props.entries[i].schema, v.fields[s.props.entries[i].name], Plain, n);
      } else {
        assert ElementsAccept(m, defs, x, v, Plain, n);
        assert AcceptsOwn(m, defs, x, v.items[0], Plain, n);
      }
    }
  }

  // ---- the document ----

  /** Where something is held there is a schema. */
  lemma {:induction false} HeldIsPresent(defs: Table, s: Schema, path: seq<Step>, mark: Mark, k: nat)
    requires GroupWithin(Placed(path, mark), defs, s, k)
    ensures GroupWithin(Placed(path, Present), defs, s, k)
    decreases |path|, k
  {
    hide IsPart, Group;
    var f, g := Placed(path, mark), Placed(path, Present);
    if s.ref.Some? && s.ref.value in defs && GroupWithin(f, defs, defs[s.ref.value], k - 1) {
      HeldIsPresent(defs, defs[s.ref.value], path, mark, k - 1);
    } else if Has(f, defs, s) {
      if path != [] {
        var z :| IsPart(s, path[0], z) && Group(Below(f), defs, z);
        var below := Within(Below(f), defs, z);
        HeldIsPresent(defs, z, path[1..], mark, below);
        InGroup(Below(g), defs, z, below);
      }
    } else {
      var i :| 0 <= i < |s.allOf.schemas| && GroupWithin(f, defs, s.allOf.schemas[i], k - 1);
      HeldIsPresent(defs, s.allOf.schemas[i], path, mark, k - 1);
    }
  }

  /** The strict form has the place and still has no variants on the way to it. */
  lemma PlaceStays(defs: Table, order: seq<string>, s: Schema, depth: nat, path: seq<Step>, mark: Mark)
    requires (forall name | name in order :: name in defs) && Kept(Placed(path, mark))
    requires StrictRoot(defs, order, s, depth).Some?
    requires Group(Placed(path, mark), defs, s) && NoVariantsOn(defs, s, path)
    ensures var (table, r) := StrictRoot(defs, order, s, depth).value;
            Group(Placed(path, mark), table, r) && NoVariantsOn(table, r, path)
  {
    hide StrictRoot, Group;
    RootGroup(Placed(path, mark), defs, order, s, depth);
    forall n: nat | n <= |path|
      ensures !Group(Placed(path[..n], Varied), StrictRoot(defs, order, s, depth).value.0,
                     StrictRoot(defs, order, s, depth).value.1)
    {
      RootGroup(Placed(path[..n], Varied), defs, order, s, depth);
    }
  }

  lemma EmptyHasNothing(f: Feature, defs: Table, s: Schema)
    requires Group(f, defs, s) && f != Placed([], Present)
    ensures s != EMPTY
  {
    hide Group;
    GroupUnfolds(f, defs, s);
  }
}
