/** Where values come together that are equal for Python only, the strict form keeps at most one of
    them: it accepts an instance that the other rejects. */
module ValueLoss {
  import opened Wrappers
  import opened SchemaValues
  import opened StrictSchema
  import opened StrictGroups
  import opened ValueClashes
  import opened StrictDocument
  import opened StrictMeaning
  import opened StrictPlaces

  /** A text that one value of a keyword objects to, under the meaning below. */
  const TELLTALE: Json := JText("telltale")

  /** The one demand is that of the value, as the keyword's, on the telltale text. */
  ghost function Only(lost: string, value: Json): Meaning {
    (key, other, instance) => !(key == lost && JsonEqual(other, value) && instance == TELLTALE)
  }

  lemma OnlyRespects(lost: string, value: Json)
    ensures Respects(Only(lost, value))
  {
    forall key, a, b, v | JsonEqual(a, b)
      ensures Only(lost, value)(key, a, v) == Only(lost, value)(key, b, v)
    {
      JsonSubstitutes(a, b, value);
    }
  }

  // ---- one of two values is lost ----

  /** A strict schema holds at most one value for a keyword in a place. */
  lemma {:induction false} OneValue(table: Table, r: Schema, holdsDefs: bool, depth: nat, tableDepth: nat,
                                    path: seq<Step>, key: string, a: Json, b: Json, k: nat)
    requires StrictForm(table.Keys, r, holdsDefs, depth) && TableIsStrictForm(table, tableDepth)
    requires GroupWithin(Placed(path, Holds(key, a)), table, r, k) && Group(Placed(path, Holds(key, b)), table, r)
    ensures JsonEqual(a, b)
    decreases |path|, k
  {
    hide StrictForm, Group, Has;
    var f, g := Placed(path, Holds(key, a)), Placed(path, Holds(key, b));
    GroupUnfolds(g, table, r);
    StrictShape(table.Keys, r, holdsDefs, depth);
    if r.ref.Some? {
      AloneHasNothing(table, r, path, key, a);
      AloneHasNothing(table, r, path, key, b);
      OneValue(table, table[r.ref.value], false, tableDepth, tableDepth, path, key, a, b, k - 1);
    } else {
      assert Has(f, table, r) && Has(g, table, r);
      OneValueHere(table, r, holdsDefs, depth, tableDepth, path, key, a, b);
    }
  }

  lemma AloneHasNothing(table: Table, r: Schema, path: seq<Step>, key: string, a: Json)
    requires RefAlone(r)
    ensures !Has(Placed(path, Holds(key, a)), table, r)
  {
    hide Group;
  }

  lemma {:induction false} OneValueHere(table: Table, r: Schema, holdsDefs: bool, depth: nat, tableDepth: nat,
                                        path: seq<Step>, key: string, a: Json, b: Json)
    requires StrictForm(table.Keys, r, holdsDefs, depth) && TableIsStrictForm(table, tableDepth)
    requires Has(Placed(path, Holds(key, a)), table, r) && Has(Placed(path, Holds(key, b)), table, r)
    ensures JsonEqual(a, b)
    decreases |path|, 0
  {
    hide StrictForm, Group, GroupWithin;
    var f, g := Placed(path, Holds(key, a)), Placed(path, Holds(key, b));
    if path == [] {
      JsonSymmetric(r.scalars[key], a);
      JsonTransitive(a, r.scalars[key], b);
    } else {
      var x :| IsPart(r, path[0], x) && Group(Below(f), table, x);
      var y :| IsPart(r, path[0], y) && Group(Below(g), table, y);
      PartUnique(table.Keys, r, holdsDefs, depth, path[0], x, y);
      var k := Within(Below(f), table, x);
      OneValue(table, x, false, depth - 1, tableDepth, path[1..], key, a, b, k);
    }
  }

  // ---- an instance that shows which value is lost ----

  /** A strict schema that does not hold the value accepts the text that only the value objects to. */
  lemma {:induction false} TelltaleAccepted(table: Table, r: Schema, holdsDefs: bool, depth: nat, tableDepth: nat,
                                            key: string, lost: Json, n: nat)
    requires StrictForm(table.Keys, r, holdsDefs, depth) && TableIsStrictForm(table, tableDepth)
    requires !Group(Placed([], Varied), table, r) && !Group(Placed([], Holds(key, lost)), table, r)
    ensures Accepts(Only(key, lost), table, r, TELLTALE, Plain, n)
    decreases n
  {
    hide StrictForm, Group, Names, JsonEqual;
    GroupUnfolds(Placed([], Varied), table, r);
    GroupUnfolds(Placed([], Holds(key, lost)), table, r);
    StrictShape(table.Keys, r, holdsDefs, depth);
    if n > 0 && r.ref.Some? {
      TelltaleAccepted(table, table[r.ref.value], false, tableDepth, tableDepth, key, lost, n - 1);
    }
  }

  lemma TelltaleAlways(table: Table, r: Schema, holdsDefs: bool, depth: nat, tableDepth: nat, key: string, lost: Json)
    requires StrictForm(table.Keys, r, holdsDefs, depth) && TableIsStrictForm(table, tableDepth)
    requires !Group(Placed([], Varied), table, r) && !Group(Placed([], Holds(key, lost)), table, r)
    ensures AlwaysAccepts(Only(key, lost), table, r, TELLTALE) && Lenient(Only(key, lost))
  {
    hide StrictForm, Group, Accepts, TableIsStrictForm;
    forall n: nat
      ensures Accepts(Only(key, lost), table, r, TELLTALE, Plain, n)
    {
      TelltaleAccepted(table, r, holdsDefs, depth, tableDepth, key, lost, n);
    }
  }

  lemma ValueRejects(defs: Table, s: Schema, key: string, lost: Json)
    requires key in s.scalars && key !in ANNOTATIONS && JsonEqual(s.scalars[key], lost)
    ensures !AlwaysAccepts(Only(key, lost), defs, s, TELLTALE)
  {
    assert !Only(key, lost)(key, s.scalars[key], TELLTALE);
    assert !Accepts(Only(key, lost), defs, s, TELLTALE, Plain, 1);
  }

  /** A value of the document that its strict form has lost: some instance is accepted by the strict
      form only. */
  lemma LossFails(defs: Table, order: seq<string>, s: Schema, depth: nat, path: seq<Step>, key: string, lost: Json)
    requires forall name :: name in order <==> name in defs
    requires StrictRoot(defs, order, s, depth).Some? && NoVariantsOn(defs, s, path)
    requires Group(Placed(path, Holds(key, lost)), defs, s)
    requires var (table, r) := StrictRoot(defs, order, s, depth).value; !Group(Placed(path, Holds(key, lost)), table, r)
    ensures var (table, r) := StrictRoot(defs, order, s, depth).value; !Faithful(defs, s, table, r)
  {
    hide StrictRoot, Group, StrictForm, GroupWithin, AlwaysAccepts, NoVariantsOn, Only, Respects, Lenient;
    var (table, r) := StrictRoot(defs, order, s, depth).value;
    RootIsStrict(defs, order, s, depth);
    var k := Within(Placed(path, Holds(key, lost)), defs, s);
    HeldIsPresent(defs, s, path, Holds(key, lost), k);
    InGroup(Placed(path, Present), defs, s, k);
    PlaceStays(defs, order, s, depth, path, Present);
    var k' := Within(Placed(path, Present), table, r);
    var z, below := PlaceNode(table, r, order != [], depth, depth - 1, path, Present, k');
    LacksAt(table, r, path, z);
    TelltaleAlways(table, z, false, below, depth - 1, key, lost);
    var v :| AtPlace(v, path) == Some(TELLTALE) && AlwaysAccepts(Only(key, lost), table, r, v);
    var holding := PlaceRejects(Only(key, lost), defs, s, path, Holds(key, lost), v, TELLTALE, k);
    ValueRejects(defs, holding, key, lost);
    OnlyRespects(key, lost);
  }

  /** Where a document holds two values that are equal for Python only, and no schema on the way has
      variants, some instance is accepted by the strict form only. */
  lemma BlurFails(defs: Table, order: seq<string>, s: Schema, depth: nat, path: seq<Step>, key: string, a: Json,
                  b: Json)
    requires forall name :: name in order <==> name in defs
    requires EnsureStrict(defs, order, s, depth).Some?
    requires BlurredAt(defs, s, path, key, a, b) && NoVariantsOn(defs, s, path)
    ensures var (table, r) := EnsureStrict(defs, order, s, depth).value; !Faithful(defs, s, table, r)
  {
    hide StrictRoot, Group, StrictForm, GroupWithin, Faithful, NoVariantsOn, Has;
    EmptyHasNothing(Placed(path, Holds(key, a)), defs, s);
    assert EnsureStrict(defs, order, s, depth) == StrictRoot(defs, order, s, depth);
    var (table, r) := StrictRoot(defs, order, s, depth).value;
    RootIsStrict(defs, order, s, depth);
    if !Group(Placed(path, Holds(key, a)), table, r) {
      LossFails(defs, order, s, depth, path, key, a);
    } else {
      if Group(Placed(path, Holds(key, b)), table, r) {
        var k := Within(Placed(path, Holds(key, a)), table, r);
        OneValue(table, r, order != [], depth, depth - 1, path, key, a, b, k);
      }
      LossFails(defs, order, s, depth, path, key, b);
    }
  }
}
