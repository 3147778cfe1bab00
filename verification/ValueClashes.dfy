/** Values that the pass can lose (fsq_agent/agent_engine/_schema.py:172-175): where two schemas that
    come together in one node, or in one place below it, hold values that are equal for Python and
    different as JSON, the merge keeps one of them. */
module ValueClashes {
  import opened Wrappers
  import opened SchemaValues
  import opened StrictSchema
  import opened StrictGroups

  /** The schemas that apply at the place hold both values under the key. */
  ghost predicate BlurredAt(defs: Table, s: Schema, path: seq<Step>, key: string, a: Json, b: Json) {
    Group(Placed(path, Holds(key, a)), defs, s) && Group(Placed(path, Holds(key, b)), defs, s) && Blurred(a, b)
  }

  ghost predicate Blurs(defs: Table, s: Schema) {
    exists path, key, a, b :: BlurredAt(defs, s, path, key, a, b)
  }

  /** The values of r, in every place, are values of s. */
  ghost predicate Draws(defs: Table, s: Schema, r: Schema) {
    forall path, key, a | Group(Placed(path, Holds(key, a)), defs, r) :: Group(Placed(path, Holds(key, a)), defs, s)
  }

  lemma DrawsBlurs(defs: Table, s: Schema, r: Schema)
    requires Draws(defs, s, r) && Blurs(defs, r)
    ensures Blurs(defs, s)
  {
    hide Group, Blurred;
    var path, key, a, b :| BlurredAt(defs, r, path, key, a, b);
    assert BlurredAt(defs, s, path, key, a, b);
  }

  lemma DrawsTwice(defs: Table, s: Schema, mid: Schema, r: Schema)
    requires Draws(defs, s, mid) && Draws(defs, mid, r)
    ensures Draws(defs, s, r)
  {
    hide Group;
  }

  lemma StrictDraws(defs: Table, s: Schema, holdsDefs: bool, depth: nat)
    requires Strict(defs, s, holdsDefs, depth).Some?
    ensures Draws(defs, s, Strict(defs, s, holdsDefs, depth).value)
  {
    hide Group, Strict, SameGroup;
    var r := Strict(defs, s, holdsDefs, depth).value;
    forall path, key, a | Group(Placed(path, Holds(key, a)), defs, r)
      ensures Group(Placed(path, Holds(key, a)), defs, s)
    {
      StrictGroup(Placed(path, Holds(key, a)), defs, s, holdsDefs, depth);
      SameGroupIff(Placed(path, Holds(key, a)), defs, s, r);
    }
  }

  lemma PartsDraw(defs: Table, s: Schema, depth: nat)
    requires depth > 0 && StrictParts(defs, s, depth).Some?
    ensures Draws(defs, s, StrictParts(defs, s, depth).value)
  {
    hide Group, StrictParts, SameGroup;
    forall path, key, a | Group(Placed(path, Holds(key, a)), defs, StrictParts(defs, s, depth).value)
      ensures Group(Placed(path, Holds(key, a)), defs, s)
    {
      PartsGroup(Placed(path, Holds(key, a)), defs, s, depth);
      SameGroupIff(Placed(path, Holds(key, a)), defs, s, StrictParts(defs, s, depth).value);
    }
  }

  lemma InlinedDraw(defs: Table, s: Schema, depth: nat)
    requires depth > 0 && InlineAllOf(defs, s, depth).Some?
    ensures Draws(defs, s, InlineAllOf(defs, s, depth).value)
  {
    hide Group, InlineAllOf, SameGroup;
    forall path, key, a | Group(Placed(path, Holds(key, a)), defs, InlineAllOf(defs, s, depth).value)
      ensures Group(Placed(path, Holds(key, a)), defs, s)
    {
      InlinedGroup(Placed(path, Holds(key, a)), defs, s, depth);
      SameGroupIff(Placed(path, Holds(key, a)), defs, s, InlineAllOf(defs, s, depth).value);
    }
  }

  lemma RewriteDraws(defs: Table, s: Schema, holdsDefs: bool, depth: nat)
    requires depth > 0 && !Rewrite(defs, s, holdsDefs, depth).Rejected?
    ensures Draws(defs, s, Rewrite(defs, s, holdsDefs, depth).schema)
  {
    hide Group, Rewrite, SameGroup;
    forall path, key, a | Group(Placed(path, Holds(key, a)), defs, Rewrite(defs, s, holdsDefs, depth).schema)
      ensures Group(Placed(path, Holds(key, a)), defs, s)
    {
      RewriteGroup(Placed(path, Holds(key, a)), defs, s, holdsDefs, depth);
      SameGroupIff(Placed(path, Holds(key, a)), defs, s, Rewrite(defs, s, holdsDefs, depth).schema);
    }
  }

  /** What a schema with the same or fewer own keywords, references and members holds. */
  lemma LessDraws(defs: Table, s: Schema, r: Schema)
    requires SameOwn(s, r) && (r.ref == s.ref || r.ref.None?) && (r.allOf == s.allOf || r.allOf.NoVariants?)
    ensures Draws(defs, s, r)
  {
    hide Group, Has, SameOwn;
    forall path, key, a | Group(Placed(path, Holds(key, a)), defs, r)
      ensures Group(Placed(path, Holds(key, a)), defs, s)
    {
      var f := Placed(path, Holds(key, a));
      SameHas(f, defs, s, r);
      GroupUnfolds(f, defs, r);
      GroupUnfolds(f, defs, s);
    }
  }

  lemma MemberDraws(defs: Table, s: Schema, i: nat)
    requires s.allOf.Variants? && i < |s.allOf.schemas|
    ensures Draws(defs, s, s.allOf.schemas[i])
  {
    hide Group, Has;
    forall path, key, a | Group(Placed(path, Holds(key, a)), defs, s.allOf.schemas[i])
      ensures Group(Placed(path, Holds(key, a)), defs, s)
    {
      GroupUnfolds(Placed(path, Holds(key, a)), defs, s);
    }
  }

  lemma TargetDraws(defs: Table, s: Schema)
    requires s.ref.Some? && s.ref.value in defs
    ensures Draws(defs, s, defs[s.ref.value])
  {
    hide Group, Has;
    forall path, key, a | Group(Placed(path, Holds(key, a)), defs, defs[s.ref.value])
      ensures Group(Placed(path, Holds(key, a)), defs, s)
    {
      GroupUnfolds(Placed(path, Holds(key, a)), defs, s);
    }
  }

  lemma PartHolds(f: Feature, defs: Table, s: Schema, step: Step, z: Schema)
    requires IsPart(s, step, z) && Group(f, defs, z)
    ensures Group(Placed([step] + f.path, f.mark), defs, s)
  {
    hide Group, IsPart;
    var above := Placed([step] + f.path, f.mark);
    assert Below(above) == f;
    assert Has(above, defs, s);
    GroupUnfolds(above, defs, s);
  }

  lemma PartBlurs(defs: Table, s: Schema, step: Step, z: Schema)
    requires IsPart(s, step, z) && Blurs(defs, z)
    ensures Blurs(defs, s)
  {
    hide Group, Blurred, IsPart;
    var path, key, a, b :| BlurredAt(defs, z, path, key, a, b);
    PartHolds(Placed(path, Holds(key, a)), defs, s, step, z);
    PartHolds(Placed(path, Holds(key, b)), defs, s, step, z);
    assert BlurredAt(defs, s, [step] + path, key, a, b);
  }

  // ---- where two schemas differ that are equal for Python ----

  lemma HoldsOwn(defs: Table, s: Schema, key: string)
    requires key in s.scalars && key !in ANNOTATIONS
    ensures Group(Placed([], Holds(key, s.scalars[key])), defs, s)
  {
    hide Group;
    JsonReflexive(s.scalars[key]);
    GroupUnfolds(Placed([], Holds(key, s.scalars[key])), defs, s);
  }

  /** They hold different values under one key in one place. */
  lemma {:induction false} Differ(defs: Table, x: Schema, y: Schema)
    returns (path: seq<Step>, key: string, a: Json, b: Json)
    requires SamePython(x, y) && !Alike(x, y)
    ensures Group(Placed(path, Holds(key, a)), defs, x) && Group(Placed(path, Holds(key, b)), defs, y) && Blurred(a, b)
    decreases x
  {
    hide Group, PythonEqual, JsonEqual;
    if k :| k in x.scalars && k !in ANNOTATIONS && !JsonEqual(x.scalars[k], y.scalars[k]) {
      path, key, a, b := [], k, x.scalars[k], y.scalars[k];
      HoldsOwn(defs, x, k);
      HoldsOwn(defs, y, k);
    } else if x.props.Props? && !AlikeEntries(x.props.entries, y.props.entries) {
      var p, q := x.props.entries, y.props.entries;
      var i :| 0 <= i < |p| && !Alike(p[i].schema, Find(q, p[i].name).value);
      path, key, a, b := DifferBelow(defs, x, y, Prop(p[i].name), p[i].schema, Find(q, p[i].name).value);
    } else if x.items.Items? && !Alike(x.items.schema, y.items.schema) {
      path, key, a, b := DifferBelow(defs, x, y, Item, x.items.schema, y.items.schema);
    } else if x.anyOf.Variants? && !AlikeEach(x.anyOf.schemas, y.anyOf.schemas) {
      var i :| 0 <= i < |x.anyOf.schemas| && !Alike(x.anyOf.schemas[i], y.anyOf.schemas[i]);
      path, key, a, b := DifferBelow(defs, x, y, Variant(i), x.anyOf.schemas[i], y.anyOf.schemas[i]);
    } else {
      var i :| 0 <= i < |x.allOf.schemas| && !Alike(x.allOf.schemas[i], y.allOf.schemas[i]);
      path, key, a, b := Differ(defs, x.allOf.schemas[i], y.allOf.schemas[i]);
      MemberDraws(defs, x, i);
      MemberDraws(defs, y, i);
    }
  }

  lemma {:induction false} DifferBelow(defs: Table, x: Schema, y: Schema, step: Step, z: Schema, z': Schema)
    returns (path: seq<Step>, key: string, a: Json, b: Json)
    requires IsPart(x, step, z) && IsPart(y, step, z') && z < x && SamePython(z, z') && !Alike(z, z')
    ensures Group(Placed(path, Holds(key, a)), defs, x) && Group(Placed(path, Holds(key, b)), defs, y) && Blurred(a, b)
    decreases x, 0
  {
    hide Group, PythonEqual, JsonEqual, SamePython, Alike, IsPart;
    var below;
    below, key, a, b := Differ(defs, z, z');
    path := [step] + below;
    PartHolds(Placed(below, Holds(key, a)), defs, x, step, z);
    PartHolds(Placed(below, Holds(key, b)), defs, y, step, z');
  }

  // ---- merges without a difference ----

  /** Whatever both sides of a merge have is equal as JSON. */
  ghost predicate Agree(base: Schema, overlay: Schema) {
    && (forall key | key in base.scalars && key in overlay.scalars && key !in ANNOTATIONS ::
          JsonEqual(base.scalars[key], overlay.scalars[key]))
    && (base.props.Props? && overlay.props.Props? ==> AlikeEntries(base.props.entries, overlay.props.entries))
    && (base.items.Items? && overlay.items.Items? ==> Alike(base.items.schema, overlay.items.schema))
    && (base.anyOf.Variants? && overlay.anyOf.Variants? ==> AlikeEach(base.anyOf.schemas, overlay.anyOf.schemas))
    && (base.allOf.Variants? && overlay.allOf.Variants? ==> AlikeEach(base.allOf.schemas, overlay.allOf.schemas))
  }

  lemma Together(defs: Table, s: Schema, x: Schema, y: Schema, path: seq<Step>, key: string, a: Json, b: Json)
    requires Draws(defs, s, x) && Draws(defs, s, y) && Blurred(a, b)
    requires Group(Placed(path, Holds(key, a)), defs, x) && Group(Placed(path, Holds(key, b)), defs, y)
    ensures Blurs(defs, s)
  {
    hide Group, Blurred;
    assert BlurredAt(defs, s, path, key, a, b);
  }

  /** Two sides whose values all belong to a schema that does not blur. */
  lemma UnblurredAgree(defs: Table, s: Schema, base: Schema, overlay: Schema)
    requires Merge(base, overlay).Some? && Draws(defs, s, base) && Draws(defs, s, overlay) && !Blurs(defs, s)
    ensures Agree(base, overlay)
  {
    hide Group, PythonEqual, JsonEqual, SamePython, Alike, Draws, Blurs;
    forall key | key in base.scalars && key in overlay.scalars && key !in ANNOTATIONS
      ensures JsonEqual(base.scalars[key], overlay.scalars[key])
    {
      if !JsonEqual(base.scalars[key], overlay.scalars[key]) {
        HoldsOwn(defs, base, key);
        HoldsOwn(defs, overlay, key);
        Together(defs, s, base, overlay, [], key, base.scalars[key], overlay.scalars[key]);
      }
    }
    if base.props.Props? && overlay.props.Props? {
      var p, q := base.props.entries, overlay.props.entries;
      forall i | 0 <= i < |p|
        ensures Alike(p[i].schema, Find(q, p[i].name).value)
      {
        PartAgrees(defs, s, base, overlay, Prop(p[i].name), p[i].schema, Find(q, p[i].name).value);
      }
    }
    if base.items.Items? && overlay.items.Items? {
      PartAgrees(defs, s, base, overlay, Item, base.items.schema, overlay.items.schema);
    }
    if base.anyOf.Variants? && overlay.anyOf.Variants? {
      forall i | 0 <= i < |base.anyOf.schemas|
        ensures Alike(base.anyOf.schemas[i], overlay.anyOf.schemas[i])
      {
        PartAgrees(defs, s, base, overlay, Variant(i), base.anyOf.schemas[i], overlay.anyOf.schemas[i]);
      }
    }
    if base.allOf.Variants? && overlay.allOf.Variants? {
      forall i | 0 <= i < |base.allOf.schemas|
        ensures Alike(base.allOf.schemas[i], overlay.allOf.schemas[i])
      {
        MembersAgree(defs, s, base, overlay, i);
      }
    }
  }

  lemma PartAgrees(defs: Table, s: Schema, base: Schema, overlay: Schema, step: Step, x: Schema, y: Schema)
    requires Draws(defs, s, base) && Draws(defs, s, overlay) && !Blurs(defs, s)
    requires IsPart(base, step, x) && IsPart(overlay, step, y) && SamePython(x, y)
    ensures Alike(x, y)
  {
    hide Group, SamePython, Alike, Draws, Blurs, IsPart, Blurred;
    if !Alike(x, y) {
      var below, key, a, b := Differ(defs, x, y);
      PartHolds(Placed(below, Holds(key, a)), defs, base, step, x);
      PartHolds(Placed(below, Holds(key, b)), defs, overlay, step, y);
      Together(defs, s, base, overlay, [step] + below, key, a, b);
    }
  }

  lemma MembersAgree(defs: Table, s: Schema, base: Schema, overlay: Schema, i: nat)
    requires Draws(defs, s, base) && Draws(defs, s, overlay) && !Blurs(defs, s)
    requires base.allOf.Variants? && overlay.allOf.Variants? && i < |base.allOf.schemas| && i < |overlay.allOf.schemas|
    requires SamePython(base.allOf.schemas[i], overlay.allOf.schemas[i])
    ensures Alike(base.allOf.schemas[i], overlay.allOf.schemas[i])
  {
    hide Group, SamePython, Alike, Draws, Blurs, Blurred;
    var x, y := base.allOf.schemas[i], overlay.allOf.schemas[i];
    if !Alike(x, y) {
      var path, key, a, b := Differ(defs, x, y);
      MemberDraws(defs, base, i);
      MemberDraws(defs, overlay, i);
      DrawsTwice(defs, s, base, x);
      DrawsTwice(defs, s, overlay, y);
      Together(defs, s, x, y, path, key, a, b);
    }
  }

  /** Rewriting a definition brings no values together that were not together before. */
  lemma DefinitionBlurs(defs: Table, name: string, depth: nat, s: Schema)
    requires name in defs && Strict(defs, defs[name], false, depth).Some?
    requires Blurs(defs[name := Strict(defs, defs[name], false, depth).value], s)
    ensures Blurs(defs, s)
  {
    hide Group, Strict, Blurred;
    var later := defs[name := Strict(defs, defs[name], false, depth).value];
    var path, key, a, b :| BlurredAt(later, s, path, key, a, b);
    DefinitionGroup(Placed(path, Holds(key, a)), defs, name, depth, s);
    DefinitionGroup(Placed(path, Holds(key, b)), defs, name, depth, s);
    assert BlurredAt(defs, s, path, key, a, b);
  }
}
