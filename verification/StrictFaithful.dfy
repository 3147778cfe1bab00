/** Exactly when the strict form of a document is faithful to it, and instances of the two ways in which
    it is not. */
module StrictFaithful {
  import opened Wrappers
  import opened SchemaValues
  import opened StrictSchema
  import opened StrictGroups
  import opened ValueClashes
  import opened StrictDocument
  import opened StrictMeaning
  import opened StrictPlaces
  import opened StrictClash
  import opened ValueLoss

  /** Neither the document nor anything merged into it has variants, in any place. */
  ghost predicate WithoutVariants(defs: Table, s: Schema) {
    forall path :: !Group(Placed(path, Varied), defs, s)
  }

  /** In a place that no schema on the way to has variants, schemas clash or values come together that are
      equal for Python only. */
  ghost predicate FailsAt(defs: Table, s: Schema, path: seq<Step>) {
    && NoVariantsOn(defs, s, path)
    && (ClashAt(defs, s, path) || exists key, a, b :: BlurredAt(defs, s, path, key, a, b))
  }

  /** The two conditions on the authored document, exactly. Its strict form is faithful if nothing clashes
      in any place and no values come together that are equal for Python only; without variants only if.
      With variants it is still unfaithful where either happens in a place that is not below any. If
      nothing clashes but what is merged into the root itself, it is faithful only if it accepts no
      object at all. */
  lemma FaithfulIff(defs: Table, order: seq<string>, s: Schema, depth: nat)
    requires forall name :: name in order <==> name in defs
    requires EnsureStrict(defs, order, s, depth).Some?
    ensures var (table, r) := EnsureStrict(defs, order, s, depth).value;
            && (NoClash(defs, s) && !Blurs(defs, s) ==> Faithful(defs, s, table, r))
            && ((exists path :: FailsAt(defs, s, path)) ==> !Faithful(defs, s, table, r))
            && (WithoutVariants(defs, s) ==> (Faithful(defs, s, table, r) <==> NoClash(defs, s) && !Blurs(defs, s)))
            && (NoClashBelow(defs, s) && !Blurs(defs, s) ==>
                  (Faithful(defs, s, table, r) <==> !ClashAt(defs, s, []) || !AcceptsSomeObject(table, r)))
  {
    hide EnsureStrict, Group, ClashAt, Faithful, AcceptsSomeObject, BlurredAt, NoVariantsOn;
    if NoClashBelow(defs, s) && !Blurs(defs, s) {
      UnblurredFaithful(defs, order, s, depth);
    }
    if path :| FailsAt(defs, s, path) {
      FailsUnfaithful(defs, order, s, depth, path);
    }
    if WithoutVariants(defs, s) {
      if path :| ClashAt(defs, s, path) {
        NoVariantsAnywhere(defs, s, path);
        assert FailsAt(defs, s, path);
      }
      if path, key, a, b :| BlurredAt(defs, s, path, key, a, b) {
        NoVariantsAnywhere(defs, s, path);
        assert FailsAt(defs, s, path);
      }
    }
  }

  lemma NoVariantsAnywhere(defs: Table, s: Schema, path: seq<Step>)
    requires WithoutVariants(defs, s)
    ensures NoVariantsOn(defs, s, path)
  {
    hide Group;
  }

  lemma FailsUnfaithful(defs: Table, order: seq<string>, s: Schema, depth: nat, path: seq<Step>)
    requires forall name :: name in order <==> name in defs
    requires EnsureStrict(defs, order, s, depth).Some? && FailsAt(defs, s, path)
    ensures var (table, r) := EnsureStrict(defs, order, s, depth).value; !Faithful(defs, s, table, r)
  {
    hide EnsureStrict, ClashAt, AlwaysAccepts, BlurredAt, NoVariantsOn;
    if ClashAt(defs, s, path) {
      var v := ClashWitness(defs, order, s, depth, path);
      assert Respects(Anything);
    } else {
      var key, a, b :| BlurredAt(defs, s, path, key, a, b);
      BlurFails(defs, order, s, depth, path, key, a, b);
    }
  }

  lemma UnblurredFaithful(defs: Table, order: seq<string>, s: Schema, depth: nat)
    requires forall name :: name in order <==> name in defs
    requires EnsureStrict(defs, order, s, depth).Some? && NoClashBelow(defs, s) && !Blurs(defs, s)
    ensures var (table, r) := EnsureStrict(defs, order, s, depth).value;
            Faithful(defs, s, table, r) <==> !ClashAt(defs, s, []) || !AcceptsSomeObject(table, r)
  {
    hide EnsureStrict, Accepts, NoClashBelow, ClashAt, Blurs, Respects;
    var (table, r) := EnsureStrict(defs, order, s, depth).value;
    if ClashAt(defs, s, []) {
      ClashFails(defs, order, s, depth);
    }
    if !ClashAt(defs, s, []) || !AcceptsSomeObject(table, r) {
      forall m, v | Respects(m) && AlwaysAccepts(m, table, r, v)
        ensures AlwaysAccepts(m, defs, s, v)
      {
        forall n: nat
          ensures Accepts(m, defs, s, v, Plain, n)
        {
          StrictAcceptsNoMore(m, defs, order, s, depth, v, n);
        }
      }
    }
  }

  // ---- instances ----

  /** {"allOf": [{"properties": {"a": {}}}], "additionalProperties": false} */
  const CLOSED_AROUND_A: Schema := EMPTY.(additional := Some(Closed),
                                          allOf := Variants([EMPTY.(props := Props([Entry("a", EMPTY)]))]))

  /** An instance of a clash: this schema accepts no object with fields, its strict form accepts
      {"a": null}. */
  lemma ClosedWithoutPropertiesFails(m: Meaning, n: nat)
    ensures var v := JObject(map["a" := JNull]);
            && EnsureStrict(map[], [], CLOSED_AROUND_A, 3).Some?
            && Accepts(m, map[], EnsureStrict(map[], [], CLOSED_AROUND_A, 3).value.1, v, Plain, n)
            && !Accepts(m, map[], CLOSED_AROUND_A, v, Plain, n + 1)
  {
    var v := JObject(map["a" := JNull]);
    var entries := [Entry("a", EMPTY)];
    var r := EMPTY.(additional := Some(Closed), props := Props(entries), required := Some(["a"]));
    StrictOfClosedAroundA();
    assert "a" in v.fields;
    assert !OnlyProperties(CLOSED_AROUND_A, v, Plain);
    assert Names(entries) == ["a"];
    if n > 0 {
      assert Accepts(m, map[], EMPTY, JNull, Plain, n - 1);
      assert FieldsAccept(m, map[], entries, v, Plain, n - 1);
    }
  }

  lemma StrictOfClosedAroundA()
    ensures EnsureStrict(map[], [], CLOSED_AROUND_A, 3)
            == Some((map[],
                     EMPTY.(additional := Some(Closed), props := Props([Entry("a", EMPTY)]), required := Some(["a"]))))
  {
    var s, entries := CLOSED_AROUND_A, [Entry("a", EMPTY)];
    var inner := EMPTY.(props := Props(entries));
    var strict := inner.(required := Some(["a"]));
    var r := strict.(additional := Some(Closed));
    assert Names(entries) == ["a"];
    assert StrictForm({}, EMPTY, false, 1);
    StrictFormIsFixed(map[], EMPTY, false, 1);
    assert entries[0].schema == EMPTY;
    EntriesRewritten(map[], entries, 1);
    assert StrictEntries(map[], entries, 1).value == entries;
    assert StrictParts(map[], inner, 2) == Some(strict);
    assert Rewrite(map[], inner, false, 2) == Done(strict);
    assert StrictParts(map[], s, 3) == Some(s);
    assert Merge(s, strict) == Some(r.(allOf := s.allOf));
    assert Rewrite(map[], s, false, 3) == Done(r);
    assert StrictTable(map[], [], 2) == Some(map[]);
  }

  /** {"properties": {"a": {}}} */
  const UNTYPED_A: Schema := EMPTY.(props := Props([Entry("a", EMPTY)]))

  /** An instance of a node that is left open: it has properties but no type. Its strict form still
      accepts {"a": null, "b": null}. */
  lemma UntypedStaysOpen(m: Meaning, n: nat)
    ensures EnsureStrict(map[], [], UNTYPED_A, 2).Some?
    ensures EnsureStrict(map[], [], UNTYPED_A, 2).value.1.additional.None?
    ensures Accepts(m, map[], EnsureStrict(map[], [], UNTYPED_A, 2).value.1, JObject(map["a" := JNull, "b" := JNull]),
                    Plain, n)
  {
    var entries, v := [Entry("a", EMPTY)], JObject(map["a" := JNull, "b" := JNull]);
    var r := UNTYPED_A.(required := Some(["a"]));
    StrictOfUntyped();
    assert EnsureStrict(map[], [], UNTYPED_A, 2) == Some((map[], r));
    if n > 0 {
      assert Accepts(m, map[], EMPTY, JNull, Plain, n - 1);
      assert FieldsAccept(m, map[], entries, v, Plain, n - 1);
    }
  }

  lemma StrictOfUntyped()
    ensures Rewrite(map[], UNTYPED_A, false, 2) == Done(UNTYPED_A.(required := Some(["a"])))
    ensures StrictTable(map[], [], 1) == Some(map[])
  {
    var entries := [Entry("a", EMPTY)];
    assert Names(entries) == ["a"];
    assert StrictForm({}, EMPTY, false, 1);
    StrictFormIsFixed(map[], EMPTY, false, 1);
    assert entries[0].schema == EMPTY;
    EntriesRewritten(map[], entries, 1);
    assert StrictEntries(map[], entries, 1).value == entries;
    assert StrictParts(map[], UNTYPED_A, 2) == Some(UNTYPED_A.(required := Some(["a"])));
  }

  /** {"const": 1, "allOf": [{"const": true}]} */
  const ONE_AND_TRUE: Schema := EMPTY.(scalars := map["const" := JInt(1)], allOf := Variants([TRUE]))

  /** {"const": true} */
  const TRUE: Schema := EMPTY.(scalars := map["const" := JBool(true)])

  /** A meaning in which const accepts the values that are equal to its own. */
  function ConstMeaning(key: string, value: Json, instance: Json): bool {
    key == "const" ==> JsonEqual(value, instance)
  }

  /** An instance of values that are equal for Python only: no instance is accepted by this schema, true
      by its strict form. Nothing clashes. */
  lemma OneAndTrueFails(v: Json, depth: nat, n: nat)
    requires depth >= 2
    ensures EnsureStrict(map[], [], ONE_AND_TRUE, depth) == Some((map[], TRUE))
    ensures Respects(ConstMeaning)
    ensures Accepts(ConstMeaning, map[], TRUE, JBool(true), Plain, n)
    ensures !Accepts(ConstMeaning, map[], ONE_AND_TRUE, v, Plain, n + 2)
    ensures NoClash(map[], ONE_AND_TRUE) && Blurs(map[], ONE_AND_TRUE)
  {
    hide Group, EnsureStrict, Blurs, Respects, Accepts, NoClash;
    StrictOfOneAndTrue(depth);
    ConstRespects();
    TrueAccepted(n);
    OneAndTrueRejects(v, n);
    OneAndTrueBlurs();
    OneAndTrueDoesNotClash();
  }

  lemma OneAndTrueDoesNotClash()
    ensures NoClash(map[], ONE_AND_TRUE)
  {
    hide Group;
    forall path
      ensures !ClashAt(map[], ONE_AND_TRUE, path)
    {
      GroupUnfolds(Placed(path, Listing), map[], ONE_AND_TRUE);
      GroupUnfolds(Placed(path, Listing), map[], TRUE);
      assert !Group(Placed(path, Listing), map[], TRUE);
    }
  }

  lemma StrictOfOneAndTrue(depth: nat)
    requires depth >= 2
    ensures EnsureStrict(map[], [], ONE_AND_TRUE, depth) == Some((map[], TRUE))
  {
    hide Strict, InlineAllOf, StrictParts;
    TrueMerged(depth);
    assert Shaped({}, ONE_AND_TRUE);
    assert Rewrite(map[], ONE_AND_TRUE, false, depth) == Done(TRUE);
    assert StrictTable(map[], [], depth - 1) == Some(map[]);
  }

  lemma TrueMerged(depth: nat)
    requires depth >= 2
    ensures StrictParts(map[], ONE_AND_TRUE, depth) == Some(ONE_AND_TRUE)
    ensures InlineAllOf(map[], ONE_AND_TRUE, depth) == Some(TRUE)
  {
    hide Strict;
    TrueIsFixed(depth - 1);
    assert ONE_AND_TRUE.scalars + TRUE.scalars == TRUE.scalars;
    assert PythonEqual(JInt(1), JBool(true));
    assert Merge(ONE_AND_TRUE, TRUE) == Some(ONE_AND_TRUE.(scalars := TRUE.scalars));
  }

  lemma TrueIsFixed(depth: nat)
    requires depth > 0
    ensures Strict(map[], TRUE, false, depth) == Some(TRUE)
  {
    hide Strict;
    assert StrictForm({}, TRUE, false, depth);
    StrictFormIsFixed(map[], TRUE, false, depth);
  }

  lemma ConstRespects()
    ensures Respects(ConstMeaning)
  {
    forall key, a, b, v | JsonEqual(a, b)
      ensures ConstMeaning(key, a, v) == ConstMeaning(key, b, v)
    {
      JsonSubstitutes(a, b, v);
    }
  }

  lemma TrueAccepted(n: nat)
    ensures Accepts(ConstMeaning, map[], TRUE, JBool(true), Plain, n)
  {}

  lemma OneAndTrueRejects(v: Json, n: nat)
    ensures !Accepts(ConstMeaning, map[], ONE_AND_TRUE, v, Plain, n + 2)
  {
    assert "const" in TRUE.scalars && "const" in ONE_AND_TRUE.scalars;
    if v == JBool(true) {
      assert !ConstMeaning("const", ONE_AND_TRUE.scalars["const"], v);
    } else {
      assert !ConstMeaning("const", TRUE.scalars["const"], v);
      assert !Accepts(ConstMeaning, map[], ONE_AND_TRUE.allOf.schemas[0], v, Plain, n + 1);
    }
  }

  lemma OneAndTrueBlurs()
    ensures Blurs(map[], ONE_AND_TRUE)
  {
    hide Group;
    HoldsOwn(map[], ONE_AND_TRUE, "const");
    HoldsOwn(map[], TRUE, "const");
    MemberDraws(map[], ONE_AND_TRUE, 0);
    assert BlurredAt(map[], ONE_AND_TRUE, [], "const", JInt(1), JBool(true));
  }

  // ---- what the strict form says about objects ----

  /** A closed strict node with properties accepts exactly the objects with exactly those fields,
      as far as field names go. */
  lemma ClosedNodesAreExact(m: Meaning, defs: Table, s: Schema, holdsDefs: bool, depth: nat, v: Json, reading: Reading,
                            n: nat)
    requires StrictForm(defs.Keys, s, holdsDefs, depth) && s.props.Props? && s.additional == Some(Closed)
    requires n > 0 && v.JObject? && Accepts(m, defs, s, v, reading, n)
    ensures forall name :: name in v.fields <==> name in Names(s.props.entries)
  {
    hide StrictForm, Names, FieldsAccept;
    assert s.required == Some(Names(s.props.entries)) by {
      StrictRequires(defs.Keys, s, holdsDefs, depth);
    }
    assert Required(s, v) && OnlyProperties(s, v, reading);
  }
}
