/** Where schemas that come together in one node clash, one with properties and one closed without any:
    what the strict form then accepts the authored schema rejects. */
module StrictClash {
  import opened Wrappers
  import opened SchemaValues
  import opened StrictSchema
  import opened StrictGroups
  import opened ValueClashes
  import opened StrictDocument
  import opened StrictMeaning
  import opened StrictPlaces

  /** A schema that is closed without properties accepts no object with fields. */
  lemma ShutRejects(m: Meaning, defs: Table, z: Schema, u: Json)
    requires Marked(Shutting, z) && u.JObject? && u.fields != map[]
    ensures !AlwaysAccepts(m, defs, z, u)
  {
    var name :| name in u.fields;
    assert !OnlyProperties(z, u, Plain);
    assert !Accepts(m, defs, z, u, Plain, 1);
  }

  /** An object that a strict schema with properties accepts has fields. */
  lemma ListedFields(m: Meaning, table: Table, r: Schema, holdsDefs: bool, depth: nat, v: Json)
    requires StrictForm(table.Keys, r, holdsDefs, depth) && Lists(r)
    requires v.JObject? && AlwaysAccepts(m, table, r, v)
    ensures v.fields != map[]
  {
    hide StrictForm, FieldsAccept;
    StrictRequires(table.Keys, r, holdsDefs, depth);
    assert Accepts(m, table, r, v, Plain, 1);
    assert Names(r.props.entries)[0] in v.fields;
  }

  /** The object that has null in each field. */
  function Nulls(names: seq<string>): (r: Json)
    ensures r.JObject?
  {
    JObject(map name | name in names :: JNull)
  }

  /** The meaning under which scalar keywords demand nothing. */
  function Anything(key: string, value: Json, instance: Json): bool {
    true
  }

  lemma NullsAccepted(table: Table, r: Schema, holdsDefs: bool, depth: nat, tableDepth: nat)
    requires StrictForm(table.Keys, r, holdsDefs, depth) && TableIsStrictForm(table, tableDepth)
    requires Lists(r) && r.anyOf.NoVariants?
    ensures AlwaysAccepts(Anything, table, r, Nulls(Names(r.props.entries)))
  {
    hide Accepts, TableIsStrictForm;
    var v := Nulls(Names(r.props.entries));
    AcceptedAtZero(Anything, table, r, v, Plain);
    forall n: nat | n > 0
      ensures Accepts(Anything, table, r, v, Plain, n)
    {
      forall i | 0 <= i < |r.props.entries|
        ensures Accepts(Anything, table, r.props.entries[i].schema, JNull, Plain, n - 1)
      {
        NullAccepted(Anything, table, r.props.entries[i].schema, false, depth - 1, tableDepth, n - 1);
      }
      FieldsAccepted(Anything, table, r, holdsDefs, depth, v, n);
    }
  }

  /** Where schemas clash in a place, and no schema on the way has variants, the strict form accepts an
      instance with an object in the place that the authored schema rejects. */
  lemma ClashWitness(defs: Table, order: seq<string>, s: Schema, depth: nat, path: seq<Step>) returns (v: Json)
    requires forall name :: name in order <==> name in defs
    requires EnsureStrict(defs, order, s, depth).Some? && ClashAt(defs, s, path) && NoVariantsOn(defs, s, path)
    ensures AtPlace(v, path).Some? && AtPlace(v, path).value.JObject?
    ensures var (table, r) := EnsureStrict(defs, order, s, depth).value; AlwaysAccepts(Anything, table, r, v)
    ensures !AlwaysAccepts(Anything, defs, s, v)
  {
    hide StrictRoot, Group, StrictForm, GroupWithin, AlwaysAccepts, NoVariantsOn, MarksAt;
    EmptyHasNothing(Placed(path, Listing), defs, s);
    var (table, r) := StrictRoot(defs, order, s, depth).value;
    RootIsStrict(defs, order, s, depth);
    PlaceStays(defs, order, s, depth, path, Listing);
    var k := Within(Placed(path, Listing), table, r);
    var z, below := PlaceNode(table, r, order != [], depth, depth - 1, path, Listing, k);
    LacksAt(table, r, path, z);
    var u := Nulls(Names(z.props.entries));
    NullsAccepted(table, z, false, below, depth - 1);
    ListedFields(Anything, table, z, false, below, u);
    v :| AtPlace(v, path) == Some(u) && AlwaysAccepts(Anything, table, r, v);
    k := Within(Placed(path, Shutting), defs, s);
    var shut := PlaceRejects(Anything, defs, s, path, Shutting, v, u, k);
    ShutRejects(Anything, defs, shut, u);
  }

  /** Where the schemas merged into the root clash, no object at all is accepted both by the strict form
      and by the authored schema; and some object is accepted by the strict form, unless the root has
      variants. */
  lemma ClashFails(defs: Table, order: seq<string>, s: Schema, depth: nat)
    requires forall name :: name in order <==> name in defs
    requires EnsureStrict(defs, order, s, depth).Some? && ClashAt(defs, s, [])
    ensures var (table, r) := EnsureStrict(defs, order, s, depth).value;
            && (forall m, v: Json | v.JObject? && AlwaysAccepts(m, table, r, v) :: !AlwaysAccepts(m, defs, s, v))
            && (NoVariantsOn(defs, s, []) ==> AcceptsSomeObject(table, r))
  {
    hide StrictRoot, AlwaysAccepts, StrictForm, GroupWithin, Group, Has, NoVariantsOn;
    var (table, r) := EnsureStrict(defs, order, s, depth).value;
    RootLists(defs, order, s, depth);
    RootIsStrict(defs, order, s, depth);
    var k := Within(SHUTTING, defs, s);
    forall m, v: Json | v.JObject? && AlwaysAccepts(m, table, r, v)
      ensures !AlwaysAccepts(m, defs, s, v)
    {
      ListedFields(m, table, r, order != [], depth, v);
      var shut := PlaceRejects(m, defs, s, [], Shutting, v, v, k);
      ShutRejects(m, defs, shut, v);
    }
    if NoVariantsOn(defs, s, []) {
      var v := ClashWitness(defs, order, s, depth, []);
      assert Respects(Anything) && v.JObject? && AlwaysAccepts(Anything, table, r, v);
    }
  }

  /** A group with properties gives its strict form properties. */
  lemma RootLists(defs: Table, order: seq<string>, s: Schema, depth: nat)
    requires forall name :: name in order <==> name in defs
    requires EnsureStrict(defs, order, s, depth).Some? && Group(LISTING, defs, s)
    ensures EnsureStrict(defs, order, s, depth) == StrictRoot(defs, order, s, depth)
    ensures Lists(EnsureStrict(defs, order, s, depth).value.1)
  {
    hide StrictRoot, GroupWithin, Group, Shaped, PartsStrict;
    GroupUnfolds(LISTING, defs, s);
    assert EnsureStrict(defs, order, s, depth) == StrictRoot(defs, order, s, depth);
    var (table, r) := StrictRoot(defs, order, s, depth).value;
    RootGroup(LISTING, defs, order, s, depth);
    RootIsStrict(defs, order, s, depth);
    GroupUnfolds(LISTING, table, r);
    RootHasNoReference(defs, order, r, depth);
  }

  lemma RootHasNoReference(defs: Table, order: seq<string>, r: Schema, depth: nat)
    requires (forall name :: name in order <==> name in defs) && StrictForm(defs.Keys, r, order != [], depth)
    ensures r.ref.None?
  {}
}
