/** Which schemas the pass puts together in one node (fsq_agent/agent_engine/_schema.py:127-169), and
    what the strict node has because one of them has it. */
module StrictGroups {
  import opened Wrappers
  import opened SchemaValues
  import opened StrictSchema

  /** From a node to a node below it. */
  datatype Step = Prop(name: string) | Item | Variant(index: nat)

  /** What a schema can have itself: properties, closedness, closedness without any properties to go with
      it, variants, a keyword that is no annotation with a value as JSON, a keyword of any kind, the same
      with exactly this value; each has the first. A default of null counts as no keyword. */
  datatype Mark = Present | Listing | Closing | Shutting | Varied | Holds(key: string, value: Json)
                | Keyed(name: string) | Says(name: string, exactly: Json)

  /** What a schema can bring into the node that it is merged into: a mark at a place in or below the
      node. */
  datatype Feature = Placed(path: seq<Step>, mark: Mark)

  /** Features of the node itself. */
  const LISTING: Feature := Placed([], Listing)

  const CLOSING: Feature := Placed([], Closing)

  const SHUTTING: Feature := Placed([], Shutting)

  /** z is the schema of the property, the schema of the items, or the variant. */
  predicate IsPart(s: Schema, step: Step, z: Schema) {
    match step
    case Prop(name) => s.props.Props? && Entry(name, z) in s.props.entries
    case Item => s.items == Items(z)
    case Variant(i) => s.anyOf.Variants? && i < |s.anyOf.schemas| && s.anyOf.schemas[i] == z
  }

  predicate Lists(s: Schema) {
    s.props.Props? && s.props.entries != []
  }

  /** The value that the schema itself has for the keyword. */
  function Own(s: Schema, key: string): Option<Json> {
    if key in s.scalars && !(key == "default" && NullDefault(s)) then Some(s.scalars[key]) else None
  }

  predicate NullDefault(s: Schema) {
    "default" in s.scalars && s.scalars["default"] == JNull
  }

  predicate Marked(mark: Mark, s: Schema) {
    match mark
    case Present => true
    case Listing => Lists(s)
    case Closing => Own(s, "type") == Some(JText("object")) || s.additional == Some(Closed)
    case Shutting => s.additional == Some(Closed) && s.props.NoProps?
    case Varied => s.anyOf.Variants?
    case Holds(key, value) => key !in ANNOTATIONS && key in s.scalars && JsonEqual(s.scalars[key], value)
    case Keyed(key) => Own(s, key).Some?
    case Says(key, value) => Own(s, key) == Some(value)
  }

  function Below(f: Feature): Feature
    requires f.path != []
  {
    Placed(f.path[1..], f.mark)
  }

  ghost predicate Has(f: Feature, defs: Table, s: Schema)
    decreases |f.path|, 0, 0
  {
    if f.path == [] then Marked(f.mark, s) else exists z :: IsPart(s, f.path[0], z) && Group(Below(f), defs, z)
  }

  /** Among the schema, its allOf members, the targets of references, and theirs in turn, one at most
      k - 1 steps away has the feature. */
  ghost predicate GroupWithin(f: Feature, defs: Table, s: Schema, k: nat)
    decreases |f.path|, 1, k
  {
    && k > 0
    && (|| Has(f, defs, s)
        || (s.ref.Some? && s.ref.value in defs && GroupWithin(f, defs, defs[s.ref.value], k - 1))
        || (s.allOf.Variants? && exists i ::
              0 <= i < |s.allOf.schemas| && GroupWithin(f, defs, s.allOf.schemas[i], k - 1)))
  }

  ghost predicate Group(f: Feature, defs: Table, s: Schema)
    decreases |f.path|, 2, 0
  {
    exists k: nat :: GroupWithin(f, defs, s, k)
  }

  ghost predicate TargetGroup(f: Feature, defs: Table, ref: Option<string>) {
    ref.Some? && ref.value in defs && Group(f, defs, defs[ref.value])
  }

  ghost predicate MemberGroup(f: Feature, defs: Table, allOf: Variants) {
    allOf.Variants? && exists i :: 0 <= i < |allOf.schemas| && Group(f, defs, allOf.schemas[i])
  }

  lemma Within(f: Feature, defs: Table, s: Schema) returns (k: nat)
    requires Group(f, defs, s)
    ensures GroupWithin(f, defs, s, k)
  {
    hide GroupWithin;
    k :| GroupWithin(f, defs, s, k);
  }

  lemma InGroup(f: Feature, defs: Table, s: Schema, k: nat)
    requires GroupWithin(f, defs, s, k)
    ensures Group(f, defs, s)
  {
    hide GroupWithin;
  }

  lemma GroupUnfolds(f: Feature, defs: Table, s: Schema)
    ensures Group(f, defs, s) <==> Has(f, defs, s) || TargetGroup(f, defs, s.ref) || MemberGroup(f, defs, s.allOf)
  {
    hide Has, Group;
    if Group(f, defs, s) {
      var k := Within(f, defs, s);
      if s.ref.Some? && s.ref.value in defs && GroupWithin(f, defs, defs[s.ref.value], k - 1) {
        InGroup(f, defs, defs[s.ref.value], k - 1);
      } else if !Has(f, defs, s) {
        var i :| 0 <= i < |s.allOf.schemas| && GroupWithin(f, defs, s.allOf.schemas[i], k - 1);
        InGroup(f, defs, s.allOf.schemas[i], k - 1);
      }
    }
    if Has(f, defs, s) {
      InGroup(f, defs, s, 1);
    }
    if TargetGroup(f, defs, s.ref) {
      var k := Within(f, defs, defs[s.ref.value]);
      InGroup(f, defs, s, k + 1);
    }
    if MemberGroup(f, defs, s.allOf) {
      var i :| 0 <= i < |s.allOf.schemas| && Group(f, defs, s.allOf.schemas[i]);
      var k := Within(f, defs, s.allOf.schemas[i]);
      InGroup(f, defs, s, k + 1);
    }
  }

  lemma {:induction false} GroupWider(f: Feature, defs: Table, s: Schema, k: nat, wider: nat)
    requires GroupWithin(f, defs, s, k) && k <= wider
    ensures GroupWithin(f, defs, s, wider)
    decreases k
  {
    hide Has;
    if s.ref.Some? && s.ref.value in defs && GroupWithin(f, defs, defs[s.ref.value], k - 1) {
      GroupWider(f, defs, defs[s.ref.value], k - 1, wider - 1);
    } else if !Has(f, defs, s) {
      var i :| 0 <= i < |s.allOf.schemas| && GroupWithin(f, defs, s.allOf.schemas[i], k - 1);
      GroupWider(f, defs, s.allOf.schemas[i], k - 1, wider - 1);
    }
  }

  /** Features that the pass never loses. Values it can lose: of two that are equal for Python it keeps
      one. */
  predicate Kept(f: Feature) {
    !f.mark.Shutting? && !f.mark.Holds? && !f.mark.Says?
  }

  /** The second schema brings only what the first does, all of it except values, and nothing is further
      away in its group. */
  ghost predicate SameGroup(f: Feature, defs: Table, s: Schema, r: Schema) {
    && (Group(f, defs, r) ==> Group(f, defs, s))
    && (Kept(f) ==> forall k: nat | GroupWithin(f, defs, s, k) :: GroupWithin(f, defs, r, k))
  }

  lemma SameGroupTwice(f: Feature, defs: Table, s: Schema, mid: Schema, r: Schema)
    requires SameGroup(f, defs, s, mid) && SameGroup(f, defs, mid, r)
    ensures SameGroup(f, defs, s, r)
  {
    hide Group, GroupWithin;
  }

  lemma SameGroupIff(f: Feature, defs: Table, s: Schema, r: Schema)
    requires SameGroup(f, defs, s, r)
    ensures Group(f, defs, r) ==> Group(f, defs, s)
    ensures Kept(f) && Group(f, defs, s) ==> Group(f, defs, r)
  {
    hide GroupWithin, Group, Kept;
    if Kept(f) && Group(f, defs, s) {
      var k := Within(f, defs, s);
      InGroup(f, defs, r, k);
    }
  }

  // ---- schemas that Python takes to be equal ----

  lemma SamePart(x: Schema, y: Schema, step: Step, z: Schema) returns (z': Schema)
    requires SamePython(x, y) && IsPart(x, step, z)
    ensures IsPart(y, step, z') && SamePython(z, z')
  {
    match step
    case Prop(name) => z' := SameFound(x.props.entries, y.props.entries, name, z);
    case Item => z' := y.items.schema;
    case Variant(i) => z' := y.anyOf.schemas[i];
  }

  lemma SameFound(p: seq<Entry>, q: seq<Entry>, name: string, z: Schema) returns (z': Schema)
    requires SameEntries(p, q) && Entry(name, z) in p
    ensures Entry(name, z') in q && SamePython(z, z')
  {
    hide SamePython;
    var i :| 0 <= i < |p| && p[i] == Entry(name, z);
    z' := Find(q, p[i].name).value;
  }

  lemma {:induction false} SamePythonGroup(f: Feature, defs: Table, x: Schema, y: Schema, k: nat)
    requires SamePython(x, y) && Kept(f) && GroupWithin(f, defs, x, k)
    ensures GroupWithin(f, defs, y, k)
    decreases |f.path|, 1, k
  {
    if Has(f, defs, x) {
      SamePythonHas(f, defs, x, y);
    } else if !(x.ref.Some? && x.ref.value in defs && GroupWithin(f, defs, defs[x.ref.value], k - 1)) {
      hide Has;
      var i :| 0 <= i < |x.allOf.schemas| && GroupWithin(f, defs, x.allOf.schemas[i], k - 1);
      SamePythonGroup(f, defs, x.allOf.schemas[i], y.allOf.schemas[i], k - 1);
    }
  }

  lemma {:induction false} SamePythonHas(f: Feature, defs: Table, x: Schema, y: Schema)
    requires SamePython(x, y) && Kept(f) && Has(f, defs, x)
    ensures Has(f, defs, y)
    decreases |f.path|, 0, 0
  {
    hide GroupWithin;
    if f.path != [] {
      var z :| IsPart(x, f.path[0], z) && Group(Below(f), defs, z);
      var z' := SamePart(x, y, f.path[0], z);
      var k := Within(Below(f), defs, z);
      SamePythonGroup(Below(f), defs, z, z', k);
      InGroup(Below(f), defs, z', k);
    } else if f == LISTING {
      assert x.props.entries[0].name in Names(y.props.entries);
    }
  }

  // ---- what the steps of the pass do to the group ----

  /** The same own keywords, as far as features go. */
  predicate SameOwn(s: Schema, r: Schema) {
    && r.props == s.props && r.items == s.items && r.anyOf == s.anyOf && r.additional == s.additional
    && (r.scalars == s.scalars || (Own(s, "default").None? && r.scalars == s.scalars - {"default"}))
  }

  lemma SameHas(f: Feature, defs: Table, s: Schema, r: Schema)
    requires SameOwn(s, r)
    ensures Has(f, defs, r) <==> Has(f, defs, s)
  {
    hide GroupWithin, Group;
    if f.path != [] {
      assert forall z :: IsPart(r, f.path[0], z) <==> IsPart(s, f.path[0], z);
    }
  }

  lemma OwnGroup(f: Feature, defs: Table, s: Schema, own: Schema)
    requires own.ref == s.ref && own.allOf == s.allOf && (Has(f, defs, own) ==> Has(f, defs, s))
    requires Kept(f) && Has(f, defs, s) ==> Has(f, defs, own)
    ensures SameGroup(f, defs, s, own)
  {
    hide Has, Group;
    GroupUnfolds(f, defs, s);
    GroupUnfolds(f, defs, own);
  }

  lemma PartBefore(defs: Table, s: Schema, depth: nat, step: Step, z: Schema) returns (before: Schema)
    requires depth > 0 && StrictParts(defs, s, depth).Some? && IsPart(StrictParts(defs, s, depth).value, step, z)
    ensures IsPart(s, step, before) && Strict(defs, before, false, depth - 1) == Some(z)
  {
    hide Strict, StrictEntries, StrictEach, Names;
    var own := StrictParts(defs, s, depth).value;
    match step
    case Prop(name) =>
      EntriesRewritten(defs, s.props.entries, depth - 1);
      var i :| 0 <= i < |own.props.entries| && own.props.entries[i] == Entry(name, z);
      before := s.props.entries[i].schema;
      assert s.props.entries[i] == Entry(name, before);
    case Item => before := s.items.schema;
    case Variant(i) =>
      EachRewritten(defs, s.anyOf.schemas, depth - 1);
      before := s.anyOf.schemas[i];
  }

  lemma PartAfter(defs: Table, s: Schema, depth: nat, step: Step, z: Schema) returns (later: Schema)
    requires depth > 0 && StrictParts(defs, s, depth).Some? && IsPart(s, step, z)
    ensures IsPart(StrictParts(defs, s, depth).value, step, later) && Strict(defs, z, false, depth - 1) == Some(later)
  {
    hide Strict, StrictEntries, StrictEach, Names;
    var own := StrictParts(defs, s, depth).value;
    match step
    case Prop(name) =>
      EntriesRewritten(defs, s.props.entries, depth - 1);
      var i :| 0 <= i < |s.props.entries| && s.props.entries[i] == Entry(name, z);
      later := own.props.entries[i].schema;
      assert own.props.entries[i] == Entry(name, later);
    case Item => later := own.items.schema;
    case Variant(i) =>
      EachRewritten(defs, s.anyOf.schemas, depth - 1);
      later := own.anyOf.schemas[i];
  }

  lemma {:induction false} PartsHave(f: Feature, defs: Table, s: Schema, depth: nat)
    requires !f.mark.Shutting? && depth > 0 && StrictParts(defs, s, depth).Some?
    ensures var own := StrictParts(defs, s, depth).value;
            && (Has(f, defs, own) ==> Has(f, defs, s)) && (Kept(f) && Has(f, defs, s) ==> Has(f, defs, own))
    decreases depth, 0
  {
    hide Strict, StrictEntries, StrictEach, GroupWithin, Group, SameGroup, Find, IsPart;
    var own := StrictParts(defs, s, depth).value;
    if f.path != [] {
      if Has(f, defs, own) {
        var z :| IsPart(own, f.path[0], z) && Group(Below(f), defs, z);
        var before := PartBefore(defs, s, depth, f.path[0], z);
        StrictGroup(Below(f), defs, before, false, depth - 1);
        SameGroupIff(Below(f), defs, before, z);
      }
      if Kept(f) && Has(f, defs, s) {
        var z :| IsPart(s, f.path[0], z) && Group(Below(f), defs, z);
        var later := PartAfter(defs, s, depth, f.path[0], z);
        StrictGroup(Below(f), defs, z, false, depth - 1);
        SameGroupIff(Below(f), defs, z, later);
      }
    } else if f == LISTING && s.props.Props? {
      EntriesRewritten(defs, s.props.entries, depth - 1);
    }
  }

  lemma {:induction false} PartsGroup(f: Feature, defs: Table, s: Schema, depth: nat)
    requires !f.mark.Shutting? && depth > 0 && StrictParts(defs, s, depth).Some?
    ensures SameGroup(f, defs, s, StrictParts(defs, s, depth).value)
    decreases depth, 1
  {
    hide Strict, StrictEntries, StrictEach, SameGroup, Names, Has;
    PartsHave(f, defs, s, depth);
    OwnGroup(f, defs, s, StrictParts(defs, s, depth).value);
  }

  /** The parts of a merge are those of its sides; where both have one they are equal for Python. */
  lemma MergedPart(base: Schema, overlay: Schema, step: Step, z: Schema)
    requires Merge(base, overlay).Some? && IsPart(Merge(base, overlay).value, step, z)
    ensures IsPart(base, step, z) || IsPart(overlay, step, z)
  {
    hide SamePython, PythonEqual, Names;
  }

  lemma PartMerged(base: Schema, overlay: Schema, step: Step, z: Schema) returns (z': Schema)
    requires Merge(base, overlay).Some? && (IsPart(base, step, z) || IsPart(overlay, step, z))
    ensures IsPart(Merge(base, overlay).value, step, z') && (z' == z || SamePython(z, z'))
  {
    hide SamePython, PythonEqual, Names;
    var m := Merge(base, overlay).value;
    z' := z;
    if !IsPart(m, step, z) {
      match step
      case Prop(name) => z' := SameFound(base.props.entries, overlay.props.entries, name, z);
      case Item => z' := overlay.items.schema;
      case Variant(i) => z' := overlay.anyOf.schemas[i];
    }
  }

  lemma BothListing(p: seq<Entry>, q: seq<Entry>)
    requires SameEntries(p, q)
    ensures p == [] <==> q == []
  {
    assert p != [] ==> p[0].name in Names(q);
    assert q != [] ==> q[0].name in Names(p);
  }

  lemma MergeHas(f: Feature, defs: Table, base: Schema, overlay: Schema)
    requires !f.mark.Shutting? && Merge(base, overlay).Some? && !NullDefault(overlay)
    ensures Has(f, defs, Merge(base, overlay).value) ==> Has(f, defs, base) || Has(f, defs, overlay)
    ensures Kept(f) && (Has(f, defs, base) || Has(f, defs, overlay)) ==> Has(f, defs, Merge(base, overlay).value)
  {
    var m := Merge(base, overlay).value;
    if f.path != [] {
      hide GroupWithin, Group, Merge, SamePython, IsPart;
      if Has(f, defs, m) {
        var z :| IsPart(m, f.path[0], z) && Group(Below(f), defs, z);
        MergedPart(base, overlay, f.path[0], z);
      }
      if Kept(f) && (Has(f, defs, base) || Has(f, defs, overlay)) {
        var z :| (IsPart(base, f.path[0], z) || IsPart(overlay, f.path[0], z)) && Group(Below(f), defs, z);
        var z' := PartMerged(base, overlay, f.path[0], z);
        if z' != z {
          var k := Within(Below(f), defs, z);
          SamePythonGroup(Below(f), defs, z, z', k);
          InGroup(Below(f), defs, z', k);
        }
      }
    } else if f == LISTING && base.props.Props? && overlay.props.Props? {
      BothListing(base.props.entries, overlay.props.entries);
    } else if f == CLOSING && "type" in base.scalars && "type" in overlay.scalars {
      assert PythonEqual(base.scalars["type"], overlay.scalars["type"]);
    }
  }

  lemma {:induction false} InlinedGroup(f: Feature, defs: Table, s: Schema, depth: nat)
    requires !f.mark.Shutting? && depth > 0 && InlineAllOf(defs, s, depth).Some?
    ensures SameGroup(f, defs, s, InlineAllOf(defs, s, depth).value)
    ensures InlineAllOf(defs, s, depth).value.allOf.NoVariants?
    decreases depth, 0
  {
    hide Strict, SameGroup, Merge, Has;
    if s.allOf.Variants? {
      var nested := Strict(defs, s.allOf.schemas[0], false, depth - 1).value;
      StrictGroup(f, defs, s.allOf.schemas[0], false, depth - 1);
      NothingNested(defs, s.allOf.schemas[0], depth - 1);
      MemberMerged(f, defs, s, nested);
    } else {
      OwnGroup(f, defs, s, s);
    }
  }

  /** Merging the one allOf member, already in strict form, into its node. */
  lemma MemberMerged(f: Feature, defs: Table, s: Schema, nested: Schema)
    requires !f.mark.Shutting? && s.allOf.Variants? && |s.allOf.schemas| == 1 && nested.allOf.NoVariants?
    requires Merge(s, nested).Some? && !NullDefault(nested) && SameGroup(f, defs, s.allOf.schemas[0], nested)
    ensures SameGroup(f, defs, s, Merge(s, nested).value.(allOf := NoVariants))
  {
    hide Has, Group, ScalarsAgree, SamePython, SameEntries, SameEach, Kept;
    var merged := Merge(s, nested).value.(allOf := NoVariants);
    MergeHas(f, defs, s, nested);
    SameHas(f, defs, Merge(s, nested).value, merged);
    GroupUnfolds(f, defs, s);
    GroupUnfolds(f, defs, nested);
    GroupUnfolds(f, defs, merged);
    if Kept(f) {
      forall k: nat | GroupWithin(f, defs, s, k)
        ensures GroupWithin(f, defs, merged, k)
      {
        if GroupWithin(f, defs, s.allOf.schemas[0], k - 1) {
          assert GroupWithin(f, defs, nested, k - 1);
          if !Has(f, defs, nested) {
            GroupWider(f, defs, defs[nested.ref.value], k - 2, k - 1);
          }
        }
      }
    }
  }

  lemma NothingNested(defs: Table, s: Schema, depth: nat)
    requires Strict(defs, s, false, depth).Some?
    ensures Strict(defs, s, false, depth).value.allOf.NoVariants?
    ensures !NullDefault(Strict(defs, s, false, depth).value)
  {
    hide Strict;
    ResultIsStrict(defs, s, false, depth);
  }

  lemma DroppedGroup(f: Feature, defs: Table, s: Schema)
    ensures SameGroup(f, defs, s, DropNullDefault(s)) && DropNullDefault(s).allOf == s.allOf
    ensures !NullDefault(DropNullDefault(s))
  {
    hide SameGroup, Has;
    SameHas(f, defs, s, DropNullDefault(s));
    OwnGroup(f, defs, s, DropNullDefault(s));
  }

  /** A schema that refers to itself brings nothing by doing so. */
  lemma {:induction false} SelfReference(f: Feature, defs: Table, name: string, k: nat)
    requires name in defs && (defs[name].ref.Some? ==> defs[name].ref.value == name)
    requires GroupWithin(f, defs, defs[name], k)
    ensures GroupWithin(f, defs, defs[name].(ref := None), k)
  {
    hide Has;
    SameHas(f, defs, defs[name], defs[name].(ref := None));
    if defs[name].ref.Some? && GroupWithin(f, defs, defs[name], k - 1) {
      SelfReference(f, defs, name, k - 1);
      GroupWider(f, defs, defs[name].(ref := None), k - 1, k);
    }
  }

  /** Inlining a reference. */
  lemma AgainGroup(f: Feature, defs: Table, node: Schema)
    requires !f.mark.Shutting? && node.allOf.NoVariants? && node.ref.Some? && node.ref.value in defs
    requires Merge(defs[node.ref.value], node).Some? && !NullDefault(node)
    ensures SameGroup(f, defs, node, Merge(defs[node.ref.value], node).value.(ref := None))
  {
    hide Has, Group, ScalarsAgree, SamePython, SameEntries, SameEach, Kept;
    var base := defs[node.ref.value];
    var again := Merge(base, node).value.(ref := None);
    MergeHas(f, defs, base, node);
    SameHas(f, defs, Merge(base, node).value, again);
    SameHas(f, defs, base, base.(ref := None));
    GroupUnfolds(f, defs, node);
    GroupUnfolds(f, defs, base);
    GroupUnfolds(f, defs, again);
    if Kept(f) {
      forall k: nat | GroupWithin(f, defs, node, k)
        ensures GroupWithin(f, defs, again, k)
      {
        if !Has(f, defs, node) {
          SelfReference(f, defs, node.ref.value, k - 1);
          GroupWider(f, defs, base.(ref := None), k - 1, k);
        }
      }
    }
  }

  /** The strict form of a schema brings what the schema brings. */
  lemma {:induction false} StrictGroup(f: Feature, defs: Table, s: Schema, holdsDefs: bool, depth: nat)
    requires !f.mark.Shutting? && Strict(defs, s, holdsDefs, depth).Some?
    ensures SameGroup(f, defs, s, Strict(defs, s, holdsDefs, depth).value)
    decreases depth, 3
  {
    hide SameGroup, Rewrite;
    RewriteGroup(f, defs, s, holdsDefs, depth);
    if Rewrite(defs, s, holdsDefs, depth).Again? {
      var again := Rewrite(defs, s, holdsDefs, depth).schema;
      StrictGroup(f, defs, again, holdsDefs, depth - 1);
      SameGroupTwice(f, defs, s, again, Strict(defs, again, holdsDefs, depth - 1).value);
    }
  }

  lemma {:induction false} RewriteGroup(f: Feature, defs: Table, s: Schema, holdsDefs: bool, depth: nat)
    requires !f.mark.Shutting? && depth > 0 && !Rewrite(defs, s, holdsDefs, depth).Rejected?
    ensures SameGroup(f, defs, s, Rewrite(defs, s, holdsDefs, depth).schema)
    decreases depth, 2
  {
    hide SameGroup, StrictParts, InlineAllOf, DropNullDefault, Shaped, Merge;
    var own := StrictParts(defs, s, depth).value;
    var merged := InlineAllOf(defs, own, depth).value;
    var node := DropNullDefault(merged);
    PartsGroup(f, defs, s, depth);
    InlinedGroup(f, defs, own, depth);
    SameGroupTwice(f, defs, s, own, merged);
    DroppedGroup(f, defs, merged);
    SameGroupTwice(f, defs, s, merged, node);
    if InlineRef(defs, node, holdsDefs).Again? {
      AgainGroup(f, defs, node);
      SameGroupTwice(f, defs, s, node, InlineRef(defs, node, holdsDefs).schema);
    }
  }

  // ---- definitions are rewritten while others still refer to them ----

  /** Rewriting a definition leaves every group what it was, except for values it loses. */
  lemma DefinitionGroup(f: Feature, defs: Table, name: string, depth: nat, s: Schema)
    requires !f.mark.Shutting? && name in defs && Strict(defs, defs[name], false, depth).Some?
    ensures Group(f, defs[name := Strict(defs, defs[name], false, depth).value], s) ==> Group(f, defs, s)
    ensures Kept(f) && Group(f, defs, s) ==> Group(f, defs[name := Strict(defs, defs[name], false, depth).value], s)
  {
    hide Strict, GroupWithin, Group;
    var later := defs[name := Strict(defs, defs[name], false, depth).value];
    if Group(f, later, s) {
      var k := Within(f, later, s);
      GroupBefore(f, defs, name, depth, s, k);
    }
    if Kept(f) && Group(f, defs, s) {
      var k := Within(f, defs, s);
      GroupAfter(f, defs, name, depth, s, k);
    }
  }

  lemma {:induction false} GroupBefore(f: Feature, defs: Table, name: string, depth: nat, s: Schema, k: nat)
    requires !f.mark.Shutting? && name in defs && Strict(defs, defs[name], false, depth).Some?
    requires GroupWithin(f, defs[name := Strict(defs, defs[name], false, depth).value], s, k)
    ensures Group(f, defs, s)
    decreases |f.path|, 1, k
  {
    hide Strict, Has, Group, SameGroup;
    var later := defs[name := Strict(defs, defs[name], false, depth).value];
    GroupUnfolds(f, defs, s);
    if s.ref.Some? && s.ref.value in later && GroupWithin(f, later, later[s.ref.value], k - 1) {
      GroupBefore(f, defs, name, depth, later[s.ref.value], k - 1);
      StrictGroup(f, defs, defs[name], false, depth);
      SameGroupIff(f, defs, defs[name], Strict(defs, defs[name], false, depth).value);
    } else if Has(f, later, s) {
      HasBefore(f, defs, name, depth, s);
    } else {
      var i :| 0 <= i < |s.allOf.schemas| && GroupWithin(f, later, s.allOf.schemas[i], k - 1);
      GroupBefore(f, defs, name, depth, s.allOf.schemas[i], k - 1);
    }
  }

  lemma {:induction false} HasBefore(f: Feature, defs: Table, name: string, depth: nat, s: Schema)
    requires !f.mark.Shutting? && name in defs && Strict(defs, defs[name], false, depth).Some?
    requires Has(f, defs[name := Strict(defs, defs[name], false, depth).value], s)
    ensures Has(f, defs, s)
    decreases |f.path|, 0, 0
  {
    hide Strict, Group, GroupWithin;
    var later := defs[name := Strict(defs, defs[name], false, depth).value];
    if f.path != [] {
      var z :| IsPart(s, f.path[0], z) && Group(Below(f), later, z);
      var k := Within(Below(f), later, z);
      GroupBefore(Below(f), defs, name, depth, z, k);
    }
  }

  lemma {:induction false} GroupAfter(f: Feature, defs: Table, name: string, depth: nat, s: Schema, k: nat)
    requires Kept(f) && name in defs && Strict(defs, defs[name], false, depth).Some?
    requires GroupWithin(f, defs, s, k)
    ensures Group(f, defs[name := Strict(defs, defs[name], false, depth).value], s)
    decreases |f.path|, 1, k
  {
    hide Strict, Has, Group;
    var later := defs[name := Strict(defs, defs[name], false, depth).value];
    GroupUnfolds(f, later, s);
    if s.ref.Some? && s.ref.value in defs && GroupWithin(f, defs, defs[s.ref.value], k - 1) {
      if s.ref.value == name {
        StrictGroup(f, defs, defs[name], false, depth);
      }
      GroupAfter(f, defs, name, depth, later[s.ref.value], k - 1);
    } else if Has(f, defs, s) {
      HasAfter(f, defs, name, depth, s);
    } else {
      var i :| 0 <= i < |s.allOf.schemas| && GroupWithin(f, defs, s.allOf.schemas[i], k - 1);
      GroupAfter(f, defs, name, depth, s.allOf.schemas[i], k - 1);
    }
  }

  lemma {:induction false} HasAfter(f: Feature, defs: Table, name: string, depth: nat, s: Schema)
    requires Kept(f) && name in defs && Strict(defs, defs[name], false, depth).Some? && Has(f, defs, s)
    ensures Has(f, defs[name := Strict(defs, defs[name], false, depth).value], s)
    decreases |f.path|, 0, 0
  {
    hide Strict, Group, GroupWithin;
    if f.path != [] {
      var z :| IsPart(s, f.path[0], z) && Group(Below(f), defs, z);
      var k := Within(Below(f), defs, z);
      GroupAfter(Below(f), defs, name, depth, z, k);
    }
  }

  // ---- closed nodes ----

  /** Exactly which nodes of the result are closed: one that remains a reference is not; any other is
      if and only if it, one of its allOf members, a target of a reference merged into it, or a
      member or target of these in turn, is of type "object" or was closed by the author. */
  lemma ClosedIff(defs: Table, s: Schema, holdsDefs: bool, depth: nat)
    requires Strict(defs, s, holdsDefs, depth).Some?
    ensures Strict(defs, s, holdsDefs, depth).value.additional == Some(Closed)
            <==> Strict(defs, s, holdsDefs, depth).value.ref.None? && Group(CLOSING, defs, s)
  {
    hide Strict, Group, Shaped, PartsStrict, SameGroup;
    var r := Strict(defs, s, holdsDefs, depth).value;
    StrictGroup(CLOSING, defs, s, holdsDefs, depth);
    ResultIsStrict(defs, s, holdsDefs, depth);
    GroupUnfolds(CLOSING, defs, r);
    SameGroupIff(CLOSING, defs, s, r);
  }
}
