/** Which of the authored schemas that are merged into a node decides each of its keywords, annotations
    included, in every place of a document (fsq_agent/agent_engine/_schema.py:117-175): the member of
    allOf before the node, the node before the target of its reference. */
module StrictPrecedence {
  import opened Wrappers
  import opened SchemaValues
  import opened StrictSchema
  import opened StrictGroups
  import opened StrictDocument

  /** The definitions of a document, the order in which they are rewritten, and how deep the interpreter
      can recurse for each. */
  datatype Document = Document(defs: Table, order: seq<string>, depth: nat)

  /** An authored schema that is merged into a node, and how many definitions had been rewritten when its
      own parts were. */
  datatype Layer = Layer(schema: Schema, stage: nat)

  /** The authored schemas that are merged into a node, the first to decide first, and the reference that
      the node remains. */
  datatype Layers = Layers(schemas: seq<Layer>, ref: Option<string>)

  /** No keywords but references and members. */
  predicate Bare(s: Schema) {
    && s.scalars.Keys <= {"default"} && Own(s, "default").None?
    && s.props.NoProps? && s.required.None? && s.additional.None? && s.items.NoItems? && s.anyOf.NoVariants?
  }

  predicate AllBare(layers: seq<Layer>) {
    forall i | 0 <= i < |layers| :: Bare(layers[i].schema)
  }

  function IndexOf(order: seq<string>, name: string): (i: nat)
    ensures i <= |order| && (i < |order| ==> order[i] == name) && forall j | 0 <= j < i :: order[j] != name
  {
    if order == [] || order[0] == name then 0 else 1 + IndexOf(order[1..], name)
  }

  /** What joins the layers of a node: its allOf member comes first; the target of its reference comes last.
      A target that has not been rewritten yet brings its own member along, which again comes first; one
      that has been rewritten brings all its layers. A node that is nothing but a reference stays one,
      unless it holds the definitions. */
  function Collect(doc: Document, stage: nat, got: seq<Layer>, ref: Option<string>, allOf: Variants, holdsDefs: bool,
                   full: nat, fuel: nat): Option<Layers>
    decreases stage, fuel, 0
  {
    if fuel == 0 then None
    else
      var member := MemberLayers(doc, stage, allOf, full, fuel - 1);
      if member.None? then None
      else
        var all := member.value.schemas + got;
        var open := if member.value.ref.Some? then member.value.ref else ref;
        if open.None? || (!holdsDefs && AllBare(all)) then Some(Layers(all, open))
        else if open.value !in doc.defs then None
        else
          var target, j := doc.defs[open.value], IndexOf(doc.order, open.value);
          if j >= stage then
            Collect(doc, stage, all + [Layer(target, stage)], None, target.allOf, holdsDefs, full, fuel - 1)
          else
            var below := LayersOf(doc, j, target, false, full, full);
            if below.None? then None
            else Collect(doc, stage, all + below.value.schemas, None, NoVariants, holdsDefs, full, fuel - 1)
  }

  function MemberLayers(doc: Document, stage: nat, allOf: Variants, full: nat, fuel: nat): Option<Layers>
    decreases stage, fuel, 2
  {
    if allOf.NoVariants? then Some(Layers([], None))
    else if |allOf.schemas| != 1 then None
    else LayersOf(doc, stage, allOf.schemas[0], false, full, fuel)
  }

  function LayersOf(doc: Document, stage: nat, s: Schema, holdsDefs: bool, full: nat, fuel: nat): Option<Layers>
    decreases stage, fuel, 1
  {
    Collect(doc, stage, [Layer(s, stage)], s.ref, s.allOf, holdsDefs, full, fuel)
  }

  /** The value of a keyword in the first layer that has it. */
  function First(layers: seq<Layer>, key: string): Option<Json> {
    if layers == [] then None
    else if Own(layers[0].schema, key).Some? then Own(layers[0].schema, key)
    else First(layers[1..], key)
  }

  predicate HasKind(s: Schema, step: Step) {
    match step
    case Prop(_) => s.props.Props?
    case Item => s.items.Items?
    case Variant(_) => s.anyOf.Variants?
  }

  /** The first layer with properties, with items, or with variants. */
  function Carrier(layers: seq<Layer>, step: Step): Option<Layer> {
    if layers == [] then None
    else if HasKind(layers[0].schema, step) then Some(layers[0])
    else Carrier(layers[1..], step)
  }

  function Requirement(layers: seq<Layer>): Option<seq<string>> {
    if layers == [] then None
    else if layers[0].schema.required.Some? then layers[0].schema.required
    else Requirement(layers[1..])
  }

  function PartAt(s: Schema, step: Step): Option<Schema> {
    match step
    case Prop(name) => if s.props.Props? then Find(s.props.entries, name) else None
    case Item => if s.items.Items? then Some(s.items.schema) else None
    case Variant(i) => if s.anyOf.Variants? && i < |s.anyOf.schemas| then Some(s.anyOf.schemas[i]) else None
  }

  /** What the authored document decides for a keyword in a place of a node: the first layer that has the
      keyword; below, the part that the first layer with parts of that kind has. */
  function Decided(doc: Document, layer: Layer, holdsDefs: bool, path: seq<Step>, key: string, full: nat): Option<Json>
    decreases |path|
  {
    var all := LayersOf(doc, layer.stage, layer.schema, holdsDefs, full, full);
    if all.None? then None
    else if path == [] then First(all.value.schemas, key)
    else
      var carrier := Carrier(all.value.schemas, path[0]);
      var part := if carrier.None? then None else PartAt(carrier.value.schema, path[0]);
      if part.None? then None
      else Decided(doc, Layer(part.value, carrier.value.stage), false, path[1..], key, full)
  }

  /** The value that is written in a place of a schema. */
  function Written(s: Schema, path: seq<Step>, key: string): Option<Json>
    decreases |path|
  {
    if path == [] then if key in s.scalars then Some(s.scalars[key]) else None
    else
      var part := PartAt(s, path[0]);
      if part.None? then None else Written(part.value, path[1..], key)
  }

  // ---- deeper recursion changes nothing ----

  lemma {:induction false} StrictDeeper(defs: Table, s: Schema, holdsDefs: bool, depth: nat, deeper: nat)
    requires Strict(defs, s, holdsDefs, depth).Some? && depth <= deeper
    ensures Strict(defs, s, holdsDefs, deeper) == Strict(defs, s, holdsDefs, depth)
    decreases depth, 2
  {
    hide Rewrite;
    RewriteDeeper(defs, s, holdsDefs, depth, deeper);
    if Rewrite(defs, s, holdsDefs, depth).Again? {
      StrictDeeper(defs, Rewrite(defs, s, holdsDefs, depth).schema, holdsDefs, depth - 1, deeper - 1);
    }
  }

  lemma {:induction false} RewriteDeeper(defs: Table, s: Schema, holdsDefs: bool, depth: nat, deeper: nat)
    requires 0 < depth <= deeper && !Rewrite(defs, s, holdsDefs, depth).Rejected?
    ensures Rewrite(defs, s, holdsDefs, deeper) == Rewrite(defs, s, holdsDefs, depth)
    decreases depth, 1
  {
    hide StrictParts, InlineAllOf, InlineRef;
    PartsDeeper(defs, s, depth, deeper);
    InlinedDeeper(defs, StrictParts(defs, s, depth).value, depth, deeper);
  }

  lemma {:induction false} InlinedDeeper(defs: Table, s: Schema, depth: nat, deeper: nat)
    requires 0 < depth <= deeper && InlineAllOf(defs, s, depth).Some?
    ensures InlineAllOf(defs, s, deeper) == InlineAllOf(defs, s, depth)
    decreases depth, 0
  {
    hide Strict, Merge;
    if s.allOf.Variants? {
      StrictDeeper(defs, s.allOf.schemas[0], false, depth - 1, deeper - 1);
    }
  }

  lemma {:induction false} PartsDeeper(defs: Table, s: Schema, depth: nat, deeper: nat)
    requires 0 < depth <= deeper && StrictParts(defs, s, depth).Some?
    ensures StrictParts(defs, s, deeper) == StrictParts(defs, s, depth)
    decreases depth, 0
  {
    hide Strict, StrictEntries, StrictEach, IsObject, Names;
    if s.props.Props? {
      EntriesDeeper(defs, s.props.entries, depth - 1, deeper - 1);
    }
    if s.items.Items? {
      StrictDeeper(defs, s.items.schema, false, depth - 1, deeper - 1);
    }
    if s.anyOf.Variants? {
      EachDeeper(defs, s.anyOf.schemas, depth - 1, deeper - 1);
    }
  }

  lemma {:induction false} EntriesDeeper(defs: Table, entries: seq<Entry>, depth: nat, deeper: nat)
    requires depth <= deeper && StrictEntries(defs, entries, depth).Some?
    ensures StrictEntries(defs, entries, deeper) == StrictEntries(defs, entries, depth)
    decreases depth, 3, |entries|
  {
    hide Strict;
    if entries != [] {
      StrictDeeper(defs, entries[0].schema, false, depth, deeper);
      EntriesDeeper(defs, entries[1..], depth, deeper);
    }
  }

  lemma {:induction false} EachDeeper(defs: Table, schemas: seq<Schema>, depth: nat, deeper: nat)
    requires depth <= deeper && StrictEach(defs, schemas, depth).Some?
    ensures StrictEach(defs, schemas, deeper) == StrictEach(defs, schemas, depth)
    decreases depth, 3, |schemas|
  {
    hide Strict;
    if schemas != [] {
      StrictDeeper(defs, schemas[0], false, depth, deeper);
      EachDeeper(defs, schemas[1..], depth, deeper);
    }
  }

  // ---- stages of rewriting the definitions ----

  predicate WellOrdered(doc: Document) {
    Distinct(doc.order) && forall name | name in doc.order :: name in doc.defs
  }

  /** The definitions after the first n have been rewritten. */
  function Stage(doc: Document, n: nat): (r: Option<Table>)
    requires WellOrdered(doc) && n <= |doc.order|
    ensures r.Some? ==> r.value.Keys == doc.defs.Keys
  {
    if n == 0 then Some(doc.defs)
    else
      var before := Stage(doc, n - 1);
      if before.None? then None
      else
        var name := doc.order[n - 1];
        var r := Strict(before.value, before.value[name], false, doc.depth);
        if r.None? then None else Some(before.value[name := r.value])
  }

  lemma {:induction false} StageAt(doc: Document, n: nat, name: string)
    requires WellOrdered(doc) && n <= |doc.order| && Stage(doc, n).Some? && name in doc.defs
    ensures var j := IndexOf(doc.order, name);
            if j < n then
              && Stage(doc, j).Some?
              && Strict(Stage(doc, j).value, doc.defs[name], false, doc.depth) == Some(Stage(doc, n).value[name])
            else Stage(doc, n).value[name] == doc.defs[name]
    decreases n
  {
    hide Strict;
    if n > 0 {
      StageAt(doc, n - 1, name);
    }
  }

  /** Rewriting the definitions one after the other goes through the stages. */
  lemma {:induction false} TableIsStage(doc: Document, n: nat)
    requires WellOrdered(doc) && n <= |doc.order| && StrictTable(doc.defs, doc.order, doc.depth).Some?
    ensures Stage(doc, n).Some?
    ensures (forall name | name in doc.order[n..] :: name in Stage(doc, n).value)
            && StrictTable(Stage(doc, n).value, doc.order[n..], doc.depth)
               == StrictTable(doc.defs, doc.order, doc.depth)
    decreases n
  {
    hide Strict;
    if n == 0 {
      assert doc.order[0..] == doc.order;
    } else {
      TableIsStage(doc, n - 1);
      assert doc.order[n - 1..][0] == doc.order[n - 1] && doc.order[n - 1..][1..] == doc.order[n..];
    }
  }

  // ---- a node and its layers ----

  predicate InStages(doc: Document, n: nat) {
    WellOrdered(doc) && n <= |doc.order| && Stage(doc, n).Some?
  }

  /** z is the strict form of the authored schema x, at the stage of its layer; or, while the node is not
      settled yet, x itself, at the stage of the node. */
  ghost predicate Grown(doc: Document, now: nat, stage: nat, x: Schema, z: Schema, settled: bool, full: nat)
    requires InStages(doc, now)
  {
    || (!settled && stage == now && z == x)
    || (InStages(doc, stage) && exists d: nat :: d <= full && Strict(Stage(doc, stage).value, x, false, d) == Some(z))
  }

  ghost predicate EntriesShown(doc: Document, now: nat, layer: Layer, entries: seq<Entry>, settled: bool, full: nat)
    requires InStages(doc, now)
  {
    var props := layer.schema.props;
    && props.Props? && |props.entries| == |entries|
    && forall i | 0 <= i < |entries| ::
         && entries[i].name == props.entries[i].name
         && Grown(doc, now, layer.stage, props.entries[i].schema, entries[i].schema, settled, full)
  }

  ghost predicate EachShown(doc: Document, now: nat, layer: Layer, schemas: seq<Schema>, settled: bool, full: nat)
    requires InStages(doc, now)
  {
    var variants := layer.schema.anyOf;
    && variants.Variants? && |variants.schemas| == |schemas|
    && forall i | 0 <= i < |schemas| :: Grown(doc, now, layer.stage, variants.schemas[i], schemas[i], settled, full)
  }

  ghost predicate ItemsShown(doc: Document, now: nat, layer: Layer, z: Schema, settled: bool, full: nat)
    requires InStages(doc, now)
  {
    layer.schema.items.Items? && Grown(doc, now, layer.stage, layer.schema.items.schema, z, settled, full)
  }

  /** The parts of a node are those of the layer that carries them, rewritten or yet to be. */
  ghost predicate PartsShown(doc: Document, now: nat, c: Schema, layers: seq<Layer>, settled: bool, full: nat)
    requires InStages(doc, now)
  {
    && (forall step :: HasKind(c, step) <==> Carrier(layers, step).Some?)
    && (forall name :: c.props.Props? && Carrier(layers, Prop(name)).Some? ==>
          EntriesShown(doc, now, Carrier(layers, Prop(name)).value, c.props.entries, settled, full))
    && (c.items.Items? && Carrier(layers, Item).Some? ==>
          ItemsShown(doc, now, Carrier(layers, Item).value, c.items.schema, settled, full))
    && (forall i :: c.anyOf.Variants? && Carrier(layers, Variant(i)).Some? ==>
          EachShown(doc, now, Carrier(layers, Variant(i)).value, c.anyOf.schemas, settled, full))
  }

  /** Each keyword of a node is decided by the first layer that has it. */
  ghost predicate KeysShown(c: Schema, layers: seq<Layer>) {
    && (forall key :: Own(c, key) == First(layers, key))
    && (c.props.NoProps? ==> c.required == Requirement(layers))
    && (c.additional.Some? ==>
          exists i :: 0 <= i < |layers| && (layers[i].schema.additional.Some? || IsObject(layers[i].schema)))
    && (forall i | 0 <= i < |layers| && layers[i].schema.additional.Some? :: c.additional.Some?)
  }

  ghost predicate Shown(doc: Document, now: nat, c: Schema, layers: seq<Layer>, settled: bool, full: nat)
    requires InStages(doc, now)
  {
    KeysShown(c, layers) && PartsShown(doc, now, c, layers, settled, full)
  }

  lemma ShownAlone(doc: Document, now: nat, s: Schema, full: nat)
    requires InStages(doc, now)
    ensures Shown(doc, now, s, [Layer(s, now)], false, full)
  {
    var layers := [Layer(s, now)];
    assert layers[0].schema == s && layers[1..] == [];
  }

  lemma {:induction false} FirstOfBoth(a: seq<Layer>, b: seq<Layer>, key: string, step: Step)
    ensures First(a + b, key) == if First(a, key).Some? then First(a, key) else First(b, key)
    ensures Carrier(a + b, step) == if Carrier(a, step).Some? then Carrier(a, step) else Carrier(b, step)
    ensures Requirement(a + b) == if Requirement(a).Some? then Requirement(a) else Requirement(b)
    decreases a
  {
    if a == [] {
      assert a + b == b;
    } else {
      FirstOfBoth(a[1..], b, key, step);
      assert (a + b)[1..] == a[1..] + b && (a + b)[0] == a[0];
    }
  }

  /** The same own keywords, as far as layers go. */
  lemma ShownSame(doc: Document, now: nat, c: Schema, r: Schema, layers: seq<Layer>, settled: bool, full: nat)
    requires InStages(doc, now) && Shown(doc, now, c, layers, settled, full) && SameOwn(c, r)
    requires r.required == c.required
    ensures Shown(doc, now, r, layers, settled, full)
  {
    hide Grown, EntriesShown, EachShown, ItemsShown;
  }

  lemma {:induction false} GrownStrict(doc: Document, now: nat, stage: nat, x: Schema, z: Schema, depth: nat, full: nat)
    requires InStages(doc, now) && Grown(doc, now, stage, x, z, false, full) && depth <= full
    requires Strict(Stage(doc, now).value, z, false, depth).Some?
    ensures Grown(doc, now, stage, x, Strict(Stage(doc, now).value, z, false, depth).value, true, full)
  {
    hide Strict, Stage;
    if !(stage == now && z == x) {
      var defs := Stage(doc, now).value;
      var d: nat :| d <= full && Strict(Stage(doc, stage).value, x, false, d) == Some(z);
      ResultIsStrict(Stage(doc, stage).value, x, false, d);
      StrictFormIsFixed(defs, z, false, d);
      StrictDeeper(defs, z, false, depth, if d < depth then depth else d);
      StrictDeeper(defs, z, false, d, if d < depth then depth else d);
    }
  }

  /** Rewriting its parts settles a node. */
  lemma PartsSettle(doc: Document, now: nat, c: Schema, layers: seq<Layer>, depth: nat, full: nat)
    requires InStages(doc, now) && 0 < depth <= full && Shown(doc, now, c, layers, false, full)
    requires StrictParts(Stage(doc, now).value, c, depth).Some?
    ensures Shown(doc, now, StrictParts(Stage(doc, now).value, c, depth).value, layers, true, full)
  {
    hide Strict, StrictEntries, StrictEach, Grown, Names, Stage;
    var defs := Stage(doc, now).value;
    var own := StrictParts(defs, c, depth).value;
    if c.props.Props? {
      EntriesRewritten(defs, c.props.entries, depth - 1);
      forall name | Carrier(layers, Prop(name)).Some?
        ensures EntriesShown(doc, now, Carrier(layers, Prop(name)).value, own.props.entries, true, full)
      {
        var layer := Carrier(layers, Prop(name)).value;
        forall i | 0 <= i < |c.props.entries|
          ensures Grown(doc, now, layer.stage, layer.schema.props.entries[i].schema, own.props.entries[i].schema, true,
                        full)
        {
          GrownStrict(doc, now, layer.stage, layer.schema.props.entries[i].schema, c.props.entries[i].schema, depth - 1,
                      full);
        }
      }
    }
    if c.items.Items? && Carrier(layers, Item).Some? {
      var layer := Carrier(layers, Item).value;
      GrownStrict(doc, now, layer.stage, layer.schema.items.schema, c.items.schema, depth - 1, full);
    }
    if c.anyOf.Variants? {
      EachRewritten(defs, c.anyOf.schemas, depth - 1);
      forall i | Carrier(layers, Variant(i)).Some?
        ensures EachShown(doc, now, Carrier(layers, Variant(i)).value, own.anyOf.schemas, true, full)
      {
        var layer := Carrier(layers, Variant(i)).value;
        forall k | 0 <= k < |c.anyOf.schemas|
          ensures Grown(doc, now, layer.stage, layer.schema.anyOf.schemas[k], own.anyOf.schemas[k], true, full)
        {
          GrownStrict(doc, now, layer.stage, layer.schema.anyOf.schemas[k], c.anyOf.schemas[k], depth - 1, full);
        }
      }
    }
    if IsObject(c) {
      ObjectLayer(c, layers);
    }
  }

  lemma ObjectLayer(c: Schema, layers: seq<Layer>)
    requires KeysShown(c, layers) && IsObject(c)
    ensures exists i :: 0 <= i < |layers| && IsObject(layers[i].schema)
  {
    assert Own(c, "type") == First(layers, "type");
    var i := FirstAt(layers, "type");
  }

  lemma {:induction false} FirstAt(layers: seq<Layer>, key: string) returns (i: nat)
    requires First(layers, key).Some?
    ensures i < |layers| && Own(layers[i].schema, key) == First(layers, key)
    decreases layers
  {
    if Own(layers[0].schema, key).Some? {
      i := 0;
    } else {
      i := FirstAt(layers[1..], key);
      i := i + 1;
    }
  }

  lemma ShownLess(doc: Document, now: nat, c: Schema, layers: seq<Layer>, full: nat)
    requires InStages(doc, now) && Shown(doc, now, c, layers, true, full)
    ensures Shown(doc, now, c, layers, false, full)
  {
    hide Strict, Stage;
  }

  /** A settled node is one at any later stage. */
  lemma ShownLater(doc: Document, before: nat, now: nat, c: Schema, layers: seq<Layer>, full: nat)
    requires InStages(doc, before) && InStages(doc, now) && Shown(doc, before, c, layers, true, full)
    ensures Shown(doc, now, c, layers, false, full)
  {
    hide Strict, Stage;
  }

  /** A merge shows the layers of both sides, the overlay's first. */
  lemma MergeShown(doc: Document, now: nat, base: Schema, overlay: Schema, a: seq<Layer>, b: seq<Layer>, settled: bool,
                   full: nat)
    requires InStages(doc, now) && Merge(base, overlay).Some? && !NullDefault(overlay)
    requires Shown(doc, now, base, b, settled, full) && Shown(doc, now, overlay, a, settled, full)
    ensures Shown(doc, now, Merge(base, overlay).value, a + b, settled, full)
  {
    hide Grown, EntriesShown, EachShown, ItemsShown, IsObject, ScalarsAgree, SamePython, SameEntries, SameEach, First,
         Carrier, Requirement;
    var m := Merge(base, overlay).value;
    forall key
      ensures Own(m, key) == First(a + b, key)
    {
      FirstOfBoth(a, b, key, Item);
    }
    forall step
      ensures Carrier(a + b, step) == if Carrier(a, step).Some? then Carrier(a, step) else Carrier(b, step)
      ensures HasKind(m, step) <==> Carrier(a + b, step).Some?
    {
      FirstOfBoth(a, b, "", step);
    }
    FirstOfBoth(a, b, "", Item);
    assert forall i | 0 <= i < |a| :: (a + b)[i] == a[i];
    assert forall i | 0 <= i < |b| :: (a + b)[|a| + i] == b[i];
  }

  /** A node is nothing but a reference when its layers are bare. */
  lemma BareIffAlone(c: Schema, layers: seq<Layer>)
    requires KeysShown(c, layers) && (forall step :: HasKind(c, step) <==> Carrier(layers, step).Some?)
    requires c.allOf.NoVariants? && !NullDefault(c)
    ensures RefAlone(c) <==> AllBare(layers)
  {
    if RefAlone(c) {
      forall i | 0 <= i < |layers|
        ensures Bare(layers[i].schema)
      {
        LayerLacks(c, layers, i);
      }
    }
    if AllBare(layers) {
      NothingInBare(layers);
      forall key
        ensures key !in c.scalars
      {
        assert Own(c, key) == None;
      }
      assert !HasKind(c, Prop("")) && !HasKind(c, Item) && !HasKind(c, Variant(0));
      assert c.additional.None?;
    }
  }

  lemma {:induction false} NothingInBare(layers: seq<Layer>)
    requires AllBare(layers)
    ensures forall key :: First(layers, key) == None
    ensures forall step :: Carrier(layers, step) == None
    ensures Requirement(layers) == None
    decreases layers
  {
    if layers != [] {
      assert Bare(layers[0].schema);
      NothingInBare(layers[1..]);
    }
  }

  lemma LayerLacks(c: Schema, layers: seq<Layer>, i: nat)
    requires KeysShown(c, layers) && (forall step :: HasKind(c, step) <==> Carrier(layers, step).Some?)
    requires RefAlone(c) && i < |layers|
    ensures Bare(layers[i].schema)
  {
    forall key
      ensures Own(layers[i].schema, key).None?
    {
      NotFirst(layers, i, key, Item);
      assert Own(c, key).None?;
    }
    NotFirst(layers, i, "", Prop(""));
    NotFirst(layers, i, "", Item);
    NotFirst(layers, i, "", Variant(0));
    assert !HasKind(c, Prop("")) && !HasKind(c, Item) && !HasKind(c, Variant(0));
    forall key | key in layers[i].schema.scalars
      ensures key == "default"
    {
      assert Own(layers[i].schema, key).None?;
    }
  }

  lemma {:induction false} NotFirst(layers: seq<Layer>, i: nat, key: string, step: Step)
    requires i < |layers|
    ensures Own(layers[i].schema, key).Some? ==> First(layers, key).Some?
    ensures HasKind(layers[i].schema, step) ==> Carrier(layers, step).Some?
    ensures layers[i].schema.required.Some? ==> Requirement(layers).Some?
    decreases layers
  {
    if i > 0 {
      NotFirst(layers[1..], i - 1, key, step);
    }
  }

  /** A node after its parts have been rewritten, its member merged and its default dropped. */
  function Visited(defs: Table, c: Schema, depth: nat): Schema
    requires depth > 0 && StrictParts(defs, c, depth).Some?
    requires InlineAllOf(defs, StrictParts(defs, c, depth).value, depth).Some?
  {
    DropNullDefault(InlineAllOf(defs, StrictParts(defs, c, depth).value, depth).value)
  }

  lemma StrictVisits(defs: Table, c: Schema, holdsDefs: bool, depth: nat)
    requires Strict(defs, c, holdsDefs, depth).Some?
    ensures depth > 0 && StrictParts(defs, c, depth).Some?
    ensures InlineAllOf(defs, StrictParts(defs, c, depth).value, depth).Some?
    ensures var node := Visited(defs, c, depth);
            if node.ref.None? || (RefAlone(node) && !holdsDefs) then Strict(defs, c, holdsDefs, depth) == Some(node)
            else
              && node.ref.value in defs && Merge(defs[node.ref.value], node).Some?
              && Strict(defs, c, holdsDefs, depth)
                 == Strict(defs, Merge(defs[node.ref.value], node).value.(ref := None), holdsDefs, depth - 1)
  {
    hide StrictParts, InlineAllOf, Merge, DropNullDefault, RefAlone;
  }

  /** A visit of a node, and those that follow it, show the layers that it collects. */
  lemma {:induction false} StrictShown(doc: Document, now: nat, c: Schema, got: seq<Layer>, holdsDefs: bool, depth: nat,
                                       full: nat, fuel: nat)
    requires InStages(doc, now) && Shown(doc, now, c, got, false, full)
    requires doc.depth <= full && depth <= fuel <= full && Strict(Stage(doc, now).value, c, holdsDefs, depth).Some?
    ensures var all := Collect(doc, now, got, c.ref, c.allOf, holdsDefs, full, fuel);
            && all.Some? && Strict(Stage(doc, now).value, c, holdsDefs, depth).value.ref == all.value.ref
            && Shown(doc, now, Strict(Stage(doc, now).value, c, holdsDefs, depth).value, all.value.schemas, true, full)
    decreases now, depth, 1
  {
    hide Shown, Strict, Visited, AllBare, RefAlone, MemberLayers, Merge, Stage, LayersOf;
    var defs := Stage(doc, now).value;
    StrictVisits(defs, c, holdsDefs, depth);
    VisitShown(doc, now, c, got, holdsDefs, depth, full, fuel);
    var node, member := Visited(defs, c, depth), MemberLayers(doc, now, c.allOf, full, fuel - 1).value;
    var all := member.schemas + got;
    AloneShown(doc, now, node, all, full);
    if node.ref.Some? && (holdsDefs || !RefAlone(node)) {
      var base := defs[node.ref.value];
      var again := Merge(base, node).value.(ref := None);
      var more := TargetShown(doc, now, node.ref.value, full);
      ReferenceShown(doc, now, base, node, all, more, full);
      StrictShown(doc, now, again, all + more, holdsDefs, depth - 1, full, fuel - 1);
    }
  }

  lemma AloneShown(doc: Document, now: nat, node: Schema, all: seq<Layer>, full: nat)
    requires InStages(doc, now) && Shown(doc, now, node, all, true, full) && node.allOf.NoVariants?
    requires !NullDefault(node)
    ensures RefAlone(node) <==> AllBare(all)
  {
    hide Grown, EntriesShown, EachShown, ItemsShown;
    BareIffAlone(node, all);
  }

  /** The layers of the target of a reference, rewritten or not. */
  lemma {:induction false} TargetShown(doc: Document, now: nat, name: string, full: nat) returns (more: seq<Layer>)
    requires InStages(doc, now) && doc.depth <= full && name in doc.defs
    ensures Shown(doc, now, Stage(doc, now).value[name], more, false, full)
    ensures var target, j := doc.defs[name], IndexOf(doc.order, name);
            if j >= now then more == [Layer(target, now)] && Stage(doc, now).value[name].allOf == target.allOf
            else
              && LayersOf(doc, j, target, false, full, full).Some?
              && more == LayersOf(doc, j, target, false, full, full).value.schemas
              && Stage(doc, now).value[name].allOf == NoVariants
    decreases now, 0, 0
  {
    hide Shown, Strict, Stage, Collect;
    StageAt(doc, now, name);
    var target, j := doc.defs[name], IndexOf(doc.order, name);
    if j >= now {
      more := [Layer(target, now)];
      ShownAlone(doc, now, target, full);
    } else {
      ShownAlone(doc, j, target, full);
      StrictShown(doc, j, target, [Layer(target, j)], false, doc.depth, full, full);
      more := LayersOf(doc, j, target, false, full, full).value.schemas;
      ShownLater(doc, j, now, Stage(doc, now).value[name], more, full);
      NothingNested(Stage(doc, j).value, target, doc.depth);
    }
  }

  lemma ReferenceShown(doc: Document, now: nat, base: Schema, node: Schema, all: seq<Layer>, more: seq<Layer>,
                       full: nat)
    requires InStages(doc, now) && Shown(doc, now, node, all, true, full) && Shown(doc, now, base, more, false, full)
    requires Merge(base, node).Some? && !NullDefault(node) && node.allOf.NoVariants?
    ensures var again := Merge(base, node).value.(ref := None);
            again.allOf == base.allOf && again.ref.None? && Shown(doc, now, again, all + more, false, full)
  {
    hide Shown, Merge, Stage;
    var again := Merge(base, node).value.(ref := None);
    ShownLess(doc, now, node, all, full);
    MergeShown(doc, now, base, node, all, more, false, full);
    MergeKeeps(base, node);
    ShownSame(doc, now, Merge(base, node).value, again, all + more, false, full);
  }

  lemma {:induction false} VisitShown(doc: Document, now: nat, c: Schema, got: seq<Layer>, holdsDefs: bool, depth: nat,
                                      full: nat, fuel: nat)
    requires InStages(doc, now) && Shown(doc, now, c, got, false, full)
    requires doc.depth <= full && 0 < depth <= fuel <= full && StrictParts(Stage(doc, now).value, c, depth).Some?
    requires InlineAllOf(Stage(doc, now).value, StrictParts(Stage(doc, now).value, c, depth).value, depth).Some?
    ensures MemberLayers(doc, now, c.allOf, full, fuel - 1).Some?
    ensures var node, member := Visited(Stage(doc, now).value, c, depth),
                                MemberLayers(doc, now, c.allOf, full, fuel - 1).value;
            && Shown(doc, now, node, member.schemas + got, true, full) && node.allOf.NoVariants? && !NullDefault(node)
            && node.ref == if member.ref.Some? then member.ref else c.ref
    decreases now, depth, 0
  {
    hide Shown, Strict, StrictParts, Merge, Stage, Collect;
    var defs := Stage(doc, now).value;
    var own := StrictParts(defs, c, depth).value;
    PartsSettle(doc, now, c, got, depth, full);
    PartsKeepRef(defs, c, depth);
    var merged := InlineAllOf(defs, own, depth).value;
    if c.allOf.Variants? {
      var m := c.allOf.schemas[0];
      ShownAlone(doc, now, m, full);
      StrictShown(doc, now, m, [Layer(m, now)], false, depth - 1, full, fuel - 1);
      var member := LayersOf(doc, now, m, false, full, fuel - 1).value;
      var nested := Strict(defs, m, false, depth - 1).value;
      NothingNested(defs, m, depth - 1);
      MergeShown(doc, now, own, nested, member.schemas, got, true, full);
      MergeKeeps(own, nested);
      ShownSame(doc, now, Merge(own, nested).value, merged, member.schemas + got, true, full);
      ShownSame(doc, now, merged, DropNullDefault(merged), member.schemas + got, true, full);
    } else {
      assert [] + got == got;
      ShownSame(doc, now, merged, DropNullDefault(merged), got, true, full);
    }
  }

  lemma PartsKeepRef(defs: Table, c: Schema, depth: nat)
    requires depth > 0 && StrictParts(defs, c, depth).Some?
    ensures StrictParts(defs, c, depth).value.ref == c.ref && StrictParts(defs, c, depth).value.allOf == c.allOf
  {}

  lemma MergeKeeps(base: Schema, overlay: Schema)
    requires Merge(base, overlay).Some?
    ensures Merge(base, overlay).value.ref == if overlay.ref.Some? then overlay.ref else base.ref
    ensures Merge(base, overlay).value.allOf == if overlay.allOf.Variants? then overlay.allOf else base.allOf
  {}

  // ---- every place ----

  lemma {:induction false} FindSame(p: seq<Entry>, q: seq<Entry>, name: string) returns (i: nat)
    requires |p| == |q| && forall i | 0 <= i < |p| :: p[i].name == q[i].name
    ensures Find(p, name).Some? <==> Find(q, name).Some?
    ensures Find(p, name).Some? ==> i < |p| && Find(p, name).value == p[i].schema && Find(q, name).value == q[i].schema
    decreases p
  {
    i := 0;
    if p != [] && p[0].name != name {
      i := FindSame(p[1..], q[1..], name);
      i := i + 1;
    }
  }

  /** A part of a settled node is the strict form of the part that its carrier has. */
  lemma PartShown(doc: Document, now: nat, c: Schema, layers: seq<Layer>, step: Step, full: nat)
    requires InStages(doc, now) && PartsShown(doc, now, c, layers, true, full)
    ensures var carrier := Carrier(layers, step);
            if PartAt(c, step).None? then carrier.None? || PartAt(carrier.value.schema, step).None?
            else
              && carrier.Some? && PartAt(carrier.value.schema, step).Some?
              && Grown(doc, now, carrier.value.stage, PartAt(carrier.value.schema, step).value, PartAt(c, step).value,
                       true, full)
  {
    hide Grown, Stage, Find, First;
    assert HasKind(c, step) <==> Carrier(layers, step).Some?;
    if HasKind(c, step) {
      var layer := Carrier(layers, step).value;
      match step
      case Prop(name) =>
        var i := FindSame(c.props.entries, layer.schema.props.entries, name);
      case Item => SameCarrier(layers, step);
      case Variant(i) => SameCarrier(layers, step);
    } else {
      SameCarrier(layers, step);
    }
  }

  lemma {:induction false} SameCarrier(layers: seq<Layer>, step: Step)
    ensures Carrier(layers, step).Some? ==> HasKind(Carrier(layers, step).value.schema, step)
    decreases layers
  {
    if layers != [] {
      SameCarrier(layers[1..], step);
    }
  }

  /** What is written in any place of a strict schema is what the authored document decides. */
  lemma {:induction false} PlaceDecided(doc: Document, now: nat, s: Schema, holdsDefs: bool, depth: nat,
                                        path: seq<Step>, key: string, full: nat)
    requires InStages(doc, now) && doc.depth <= full && depth <= full
    requires Strict(Stage(doc, now).value, s, holdsDefs, depth).Some?
    ensures Written(Strict(Stage(doc, now).value, s, holdsDefs, depth).value, path, key)
            == Decided(doc, Layer(s, now), holdsDefs, path, key, full)
    decreases |path|
  {
    hide Strict, Stage, StrictForm, Grown, Collect, KeysShown, PartsShown;
    var r := Strict(Stage(doc, now).value, s, holdsDefs, depth).value;
    ShownAlone(doc, now, s, full);
    StrictShown(doc, now, s, [Layer(s, now)], holdsDefs, depth, full, full);
    var layers := LayersOf(doc, now, s, holdsDefs, full, full).value.schemas;
    if path == [] {
      NoNullDefault(Stage(doc, now).value, s, holdsDefs, depth);
      KeyShown(r, layers, key);
    } else {
      PartShown(doc, now, r, layers, path[0], full);
      if PartAt(r, path[0]).Some? {
        var layer := Carrier(layers, path[0]).value;
        var x := PartAt(layer.schema, path[0]).value;
        var d := GrownAt(doc, now, layer.stage, x, PartAt(r, path[0]).value, full);
        PlaceDecided(doc, layer.stage, x, false, d, path[1..], key, full);
      }
    }
  }

  lemma KeyShown(c: Schema, layers: seq<Layer>, key: string)
    requires KeysShown(c, layers)
    ensures Own(c, key) == First(layers, key)
  {}

  lemma GrownAt(doc: Document, now: nat, stage: nat, x: Schema, z: Schema, full: nat) returns (d: nat)
    requires InStages(doc, now) && Grown(doc, now, stage, x, z, true, full)
    ensures InStages(doc, stage) && d <= full && Strict(Stage(doc, stage).value, x, false, d) == Some(z)
  {
    hide Strict, Stage;
    d :| d <= full && Strict(Stage(doc, stage).value, x, false, d) == Some(z);
  }

  lemma NoNullDefault(defs: Table, s: Schema, holdsDefs: bool, depth: nat)
    requires Strict(defs, s, holdsDefs, depth).Some?
    ensures !NullDefault(Strict(defs, s, holdsDefs, depth).value)
  {
    hide Strict;
    ResultIsStrict(defs, s, holdsDefs, depth);
  }

  /** The rest of a node: it remains the reference that its layers leave; it has the property names of the
      first layer with properties, in their order, and as many variants as the first layer with variants;
      without properties it requires what the first layer with a requirement does. */
  lemma NodeDecided(doc: Document, now: nat, s: Schema, holdsDefs: bool, depth: nat, full: nat)
    requires InStages(doc, now) && doc.depth <= full && depth <= full
    requires Strict(Stage(doc, now).value, s, holdsDefs, depth).Some?
    ensures LayersOf(doc, now, s, holdsDefs, full, full).Some?
    ensures var r, layers := Strict(Stage(doc, now).value, s, holdsDefs, depth).value,
                             LayersOf(doc, now, s, holdsDefs, full, full).value;
            && r.ref == layers.ref && r.allOf.NoVariants?
            && (forall step :: HasKind(r, step) <==> Carrier(layers.schemas, step).Some?)
            && (forall name | r.props.Props? :: var from := Carrier(layers.schemas, Prop(name)).value.schema.props;
                  from.Props? && Names(r.props.entries) == Names(from.entries))
            && (forall i | r.anyOf.Variants? :: var from := Carrier(layers.schemas, Variant(i)).value.schema.anyOf;
                  from.Variants? && |r.anyOf.schemas| == |from.schemas|)
            && (r.props.NoProps? ==> r.required == Requirement(layers.schemas))
  {
    hide Strict, Stage, Grown, Collect, First, Carrier, Requirement;
    var r := Strict(Stage(doc, now).value, s, holdsDefs, depth).value;
    ShownAlone(doc, now, s, full);
    StrictShown(doc, now, s, [Layer(s, now)], holdsDefs, depth, full, full);
    NothingNestedIn(Stage(doc, now).value, s, holdsDefs, depth);
    var layers := LayersOf(doc, now, s, holdsDefs, full, full).value;
    forall name | r.props.Props?
      ensures var from := Carrier(layers.schemas, Prop(name)).value.schema.props;
              from.Props? && Names(r.props.entries) == Names(from.entries)
    {
      assert HasKind(r, Prop(name));
      assert EntriesShown(doc, now, Carrier(layers.schemas, Prop(name)).value, r.props.entries, true, full);
    }
    forall i | r.anyOf.Variants?
      ensures var from := Carrier(layers.schemas, Variant(i)).value.schema.anyOf;
              from.Variants? && |r.anyOf.schemas| == |from.schemas|
    {
      assert HasKind(r, Variant(i));
      assert EachShown(doc, now, Carrier(layers.schemas, Variant(i)).value, r.anyOf.schemas, true, full);
    }
  }

  lemma NothingNestedIn(defs: Table, s: Schema, holdsDefs: bool, depth: nat)
    requires Strict(defs, s, holdsDefs, depth).Some?
    ensures Strict(defs, s, holdsDefs, depth).value.allOf.NoVariants?
  {
    hide Strict;
    ResultIsStrict(defs, s, holdsDefs, depth);
  }

  /** What is decided in the three usual cases: a node on its own, one with a member, one with a reference. */
  lemma UsualPrecedence(doc: Document, layer: Layer, holdsDefs: bool, key: string, full: nat)
    requires full >= 2
    ensures var s := layer.schema;
            && (s.allOf.NoVariants? && s.ref.None? ==> Decided(doc, layer, holdsDefs, [], key, full) == Own(s, key))
            && (s.allOf.Variants? && |s.allOf.schemas| == 1 && s.ref.None? ==>
                  var m := s.allOf.schemas[0];
                  m.allOf.NoVariants? && m.ref.None? ==>
                    Decided(doc, layer, holdsDefs, [], key, full)
                    == if Own(m, key).Some? then Own(m, key) else Own(s, key))
            && (s.allOf.NoVariants? && s.ref.Some? && s.ref.value in doc.defs && (holdsDefs || !Bare(s)) ==>
                  var t := doc.defs[s.ref.value];
                  t.allOf.NoVariants? && t.ref.None? ==>
                    Decided(doc, layer, holdsDefs, [], key, full)
                    == if Own(s, key).Some? then Own(s, key) else Own(t, key))
  {
    var s := layer.schema;
    if s.allOf.NoVariants? && s.ref.None? {
      Lonely(doc, layer.stage, s, holdsDefs, full, full, key);
    } else if s.allOf.Variants? && |s.allOf.schemas| == 1 && s.ref.None? {
      var m := s.allOf.schemas[0];
      if m.allOf.NoVariants? && m.ref.None? {
        Lonely(doc, layer.stage, m, false, full, full - 1, key);
        assert MemberLayers(doc, layer.stage, s.allOf, full, full - 1) == Some(Layers([Layer(m, layer.stage)], None));
        assert LayersOf(doc, layer.stage, s, holdsDefs, full, full)
               == Some(Layers([Layer(m, layer.stage)] + [Layer(s, layer.stage)], None));
        FirstOfTwo(Layer(m, layer.stage), Layer(s, layer.stage), key);
      }
    } else if s.allOf.NoVariants? && s.ref.Some? && s.ref.value in doc.defs && (holdsDefs || !Bare(s)) {
      var t := doc.defs[s.ref.value];
      if t.allOf.NoVariants? && t.ref.None? {
        var at := Referring(doc, layer, holdsDefs, full);
        FirstOfTwo(layer, Layer(t, at), key);
      }
    }
  }

  lemma Referring(doc: Document, layer: Layer, holdsDefs: bool, full: nat) returns (at: nat)
    requires full >= 2 && layer.schema.allOf.NoVariants? && layer.schema.ref.Some? && layer.schema.ref.value in doc.defs
    requires holdsDefs || !Bare(layer.schema)
    requires doc.defs[layer.schema.ref.value].allOf.NoVariants? && doc.defs[layer.schema.ref.value].ref.None?
    ensures LayersOf(doc, layer.stage, layer.schema, holdsDefs, full, full)
            == Some(Layers([layer] + [Layer(doc.defs[layer.schema.ref.value], at)], None))
  {
    var s, t := layer.schema, doc.defs[layer.schema.ref.value];
    var j := IndexOf(doc.order, s.ref.value);
    assert [] + [layer] == [layer] && [layer][0] == layer;
    at := if j >= layer.stage then layer.stage else j;
    var more := [layer] + [Layer(t, at)];
    assert MemberLayers(doc, layer.stage, s.allOf, full, full - 1) == Some(Layers([], None));
    assert MemberLayers(doc, layer.stage, NoVariants, full, full - 2) == Some(Layers([], None));
    assert [] + more == more;
    assert Collect(doc, layer.stage, more, None, NoVariants, holdsDefs, full, full - 1) == Some(Layers(more, None));
    if j < layer.stage {
      Lonely(doc, j, t, false, full, full, "");
    }
    assert !AllBare([layer]) || holdsDefs;
  }

  lemma Lonely(doc: Document, stage: nat, s: Schema, holdsDefs: bool, full: nat, fuel: nat, key: string)
    requires fuel > 0 && s.allOf.NoVariants? && s.ref.None?
    ensures LayersOf(doc, stage, s, holdsDefs, full, fuel) == Some(Layers([Layer(s, stage)], None))
    ensures First([Layer(s, stage)], key) == Own(s, key)
  {
    var got := [Layer(s, stage)];
    assert MemberLayers(doc, stage, s.allOf, full, fuel - 1) == Some(Layers([], None));
    assert [] + got == got;
    assert Collect(doc, stage, got, s.ref, s.allOf, holdsDefs, full, fuel) == Some(Layers(got, None));
    FirstOfOne(got[0], key);
  }

  lemma FirstOfOne(a: Layer, key: string)
    ensures First([a], key) == Own(a.schema, key)
  {
    assert [a][1..] == [] && First([a][1..], key) == None;
  }

  lemma FirstOfTwo(a: Layer, b: Layer, key: string)
    ensures First([a] + [b], key) == if Own(a.schema, key).Some? then Own(a.schema, key) else Own(b.schema, key)
  {
    FirstOfOne(a, key);
    FirstOfOne(b, key);
    FirstOfBoth([a], [b], key, Item);
  }

  // ---- the document ----

  lemma {:induction false} SameTable(defs: Table, order: seq<string>, a: nat, b: nat)
    requires forall name | name in order :: name in defs && StrictForm(defs.Keys, defs[name], false, a)
    requires StrictTable(defs, order, b).Some?
    ensures StrictTable(defs, order, b) == Some(defs)
    decreases |order|
  {
    hide Strict, StrictForm;
    if order != [] {
      StrictFormIsFixed(defs, defs[order[0]], false, a);
      StrictDeeper(defs, defs[order[0]], false, a, if a < b then b else a);
      StrictDeeper(defs, defs[order[0]], false, b, if a < b then b else a);
      assert defs[order[0] := defs[order[0]]] == defs;
      SameTable(defs, order[1..], a, b);
    }
  }

  /** The root is rewritten against the definitions after all of them have been. */
  lemma {:induction false} RootByTable(defs: Table, order: seq<string>, s: Schema, depth: nat)
    requires (forall name | name in order :: name in defs) && StrictRoot(defs, order, s, depth).Some?
    ensures var (table, r) := StrictRoot(defs, order, s, depth).value;
            && depth > 0 && StrictTable(defs, order, depth - 1) == Some(table)
            && Strict(table, s, order != [], depth) == Some(r)
    decreases depth
  {
    hide Strict, StrictForm, Rewrite, StrictTable;
    var table := StrictTable(defs, order, depth - 1).value;
    match Rewrite(table, s, order != [], depth)
    case Done(r) => DoneIsStrict(table, s, order != [], depth);
    case Again(next) =>
      TableIsStrict(defs, order, depth - 1);
      RootByTable(table, order, next, depth - 1);
      SameTable(table, order, depth - 1, depth - 2);
      AgainIsStrict(table, s, order != [], depth);
  }

  lemma AgainIsStrict(defs: Table, s: Schema, holdsDefs: bool, depth: nat)
    requires depth > 0 && Rewrite(defs, s, holdsDefs, depth).Again?
    ensures Strict(defs, s, holdsDefs, depth)
            == Strict(defs, Rewrite(defs, s, holdsDefs, depth).schema, holdsDefs, depth - 1)
  {
    hide Rewrite;
  }

  /** Every keyword without sub-schemas, annotations included, in every place of the rewritten root is the
      one that the authored document decides. */
  lemma RootDecided(defs: Table, order: seq<string>, s: Schema, depth: nat, path: seq<Step>, key: string, full: nat)
    requires (forall name | name in order :: name in defs) && Distinct(order)
    requires StrictRoot(defs, order, s, depth).Some? && depth <= full
    ensures depth > 0
    ensures Written(StrictRoot(defs, order, s, depth).value.1, path, key)
            == Decided(Document(defs, order, depth - 1), Layer(s, |order|), order != [], path, key, full)
  {
    hide Strict, StrictRoot, StrictTable, Stage, Decided;
    RootByTable(defs, order, s, depth);
    var doc := Document(defs, order, depth - 1);
    TableIsStage(doc, |order|);
    assert order[|order|..] == [];
    NothingLeft(Stage(doc, |order|).value, doc.depth);
    PlaceDecided(doc, |order|, s, order != [], depth, path, key, full);
  }

  lemma NothingLeft(table: Table, depth: nat)
    ensures StrictTable(table, [], depth) == Some(table)
  {}

  /** The same for the rewritten definitions. */
  lemma DefinitionDecided(defs: Table, order: seq<string>, s: Schema, depth: nat, name: string, path: seq<Step>,
                          key: string, full: nat)
    requires (forall name | name in order :: name in defs) && Distinct(order) && name in order
    requires StrictRoot(defs, order, s, depth).Some? && depth <= full
    ensures depth > 0 && name in StrictRoot(defs, order, s, depth).value.0
    ensures Written(StrictRoot(defs, order, s, depth).value.0[name], path, key)
            == Decided(Document(defs, order, depth - 1), Layer(defs[name], IndexOf(order, name)), false, path, key,
                       full)
  {
    hide Strict, StrictRoot, StrictTable, Stage, Decided;
    RootByTable(defs, order, s, depth);
    var doc := Document(defs, order, depth - 1);
    TableIsStage(doc, |order|);
    assert order[|order|..] == [];
    NothingLeft(Stage(doc, |order|).value, doc.depth);
    StageAt(doc, |order|, name);
    PlaceDecided(doc, IndexOf(order, name), defs[name], false, doc.depth, path, key, full);
  }

  // ---- an instance ----

  function Titled(title: string): Schema {
    EMPTY.(scalars := map["title" := JText(title)])
  }

  /** {"allOf": [{"title": "member"}]}, and {"title": "node"} with a reference to it. */
  const HEADED: Schema := EMPTY.(allOf := Variants([Titled("member")]))

  const REFERRING: Schema := Titled("node").(ref := Some("#/$defs/headed"))

  const BEFORE: Table := map["#/$defs/headed" := HEADED]

  const AFTERWARDS: Table := map["#/$defs/headed" := Titled("member")]

  /** Where the target of a reference has a member of its own, the order of rewriting decides: the member's
      title wins while the target has not been rewritten, the node's once it has. */
  lemma OrderDecides(depth: nat)
    requires depth >= 3
    ensures Strict(BEFORE, HEADED, false, depth) == Some(Titled("member"))
    ensures Strict(BEFORE, REFERRING, false, depth) == Some(Titled("member"))
    ensures Strict(AFTERWARDS, REFERRING, false, depth) == Some(Titled("node"))
  {
    hide Strict;
    Inlined(BEFORE, depth);
    MemberTitle(BEFORE, Titled("node"), depth - 1);
    MemberTitle(BEFORE, EMPTY, depth);
    TitledIsStrict(AFTERWARDS, "node", depth - 1);
    Inlined(AFTERWARDS, depth);
    assert Titled("node").(allOf := Titled("member").allOf) == Titled("node");
    assert EMPTY.(allOf := HEADED.allOf) == HEADED;
  }

  lemma TitledIsStrict(defs: Table, title: string, depth: nat)
    requires depth > 0
    ensures Strict(defs, Titled(title), false, depth) == Some(Titled(title))
  {
    hide Strict;
    assert StrictForm(defs.Keys, Titled(title), false, depth);
    StrictFormIsFixed(defs, Titled(title), false, depth);
  }

  lemma Inlined(defs: Table, depth: nat)
    requires depth > 1 && (defs == BEFORE || defs == AFTERWARDS)
    ensures Strict(defs, REFERRING, false, depth)
            == Strict(defs, Titled("node").(allOf := defs["#/$defs/headed"].allOf), false, depth - 1)
  {
    var base := defs["#/$defs/headed"];
    assert StrictParts(defs, REFERRING, depth) == Some(REFERRING);
    assert InlineAllOf(defs, REFERRING, depth) == Some(REFERRING);
    assert DropNullDefault(REFERRING) == REFERRING && "title" in REFERRING.scalars;
    assert Shaped(defs.Keys, REFERRING);
    assert base.scalars + REFERRING.scalars == REFERRING.scalars;
    assert Rewrite(defs, REFERRING, false, depth)
           == Again(Titled("node").(allOf := base.allOf)) by {
      assert Merge(base, REFERRING) == Some(REFERRING.(allOf := base.allOf));
    }
  }

  lemma MemberTitle(defs: Table, s: Schema, depth: nat)
    requires depth > 1 && (s == EMPTY || s == Titled("node"))
    ensures Strict(defs, s.(allOf := HEADED.allOf), false, depth) == Some(Titled("member"))
  {
    hide Strict;
    var whole := s.(allOf := HEADED.allOf);
    TitledIsStrict(defs, "member", depth - 1);
    assert StrictParts(defs, whole, depth) == Some(whole);
    assert whole.scalars + Titled("member").scalars == Titled("member").scalars;
    assert InlineAllOf(defs, whole, depth) == Some(Titled("member"));
    assert Rewrite(defs, whole, false, depth) == Done(Titled("member"));
    DoneIsStrict(defs, whole, false, depth);
  }
}
