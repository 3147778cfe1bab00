/** The whole pass on a document (fsq_agent/agent_engine/_schema.py:50-57, 117-125): the definitions are
    rewritten before the rest of the root. */
module StrictDocument {
  import opened Wrappers
  import opened SchemaValues
  import opened StrictSchema
  import opened StrictGroups

  /** The definitions are rewritten in place, one after the other, before the rest of the root. */
  function StrictTable(defs: Table, order: seq<string>, depth: nat): (r: Option<Table>)
    requires forall name | name in order :: name in defs
    ensures r.Some? ==> r.value.Keys == defs.Keys
    decreases |order|
  {
    if order == [] then Some(defs)
    else
      var first := Strict(defs, defs[order[0]], false, depth);
      if first.None? then None else StrictTable(defs[order[0] := first.value], order[1..], depth)
  }

  /** ensure_strict_json_schema on a document whose definitions come in the given order: the
      rewritten table and the rewritten root. An inlined root is rewritten again from the start. */
  function StrictRoot(defs: Table, order: seq<string>, s: Schema, depth: nat): Option<(Table, Schema)>
    requires forall name | name in order :: name in defs
    decreases depth
  {
    if depth == 0 || !Shaped(defs.Keys, s) then None
    else
      var table := StrictTable(defs, order, depth - 1);
      if table.None? then None
      else
        match Rewrite(table.value, s, order != [], depth)
        case Done(r) => Some((table.value, r))
        case Again(r) => StrictRoot(table.value, order, r, depth - 1)
        case Rejected => None
  }

  const EMPTY: Schema := Schema(map[], None, NoProps, None, None, NoItems, NoVariants, NoVariants)

  const EMPTY_STRICT: Schema := Schema(map["type" := JText("object")], None, Props([]), Some([]), Some(Closed), NoItems,
                                       NoVariants, NoVariants)

  function EnsureStrict(defs: Table, order: seq<string>, s: Schema, depth: nat): Option<(Table, Schema)>
    requires forall name | name in order :: name in defs
  {
    if s == EMPTY && order == [] then Some((defs, EMPTY_STRICT)) else StrictRoot(defs, order, s, depth)
  }

  // ---- what the document brings ----

  lemma {:induction false} TableGroup(f: Feature, defs: Table, order: seq<string>, depth: nat, s: Schema)
    requires !f.mark.Shutting? && forall name | name in order :: name in defs
    requires StrictTable(defs, order, depth).Some?
    ensures Group(f, StrictTable(defs, order, depth).value, s) ==> Group(f, defs, s)
    ensures Kept(f) && Group(f, defs, s) ==> Group(f, StrictTable(defs, order, depth).value, s)
    decreases |order|
  {
    hide Strict, Group;
    if order != [] {
      DefinitionGroup(f, defs, order[0], depth, s);
      TableGroup(f, defs[order[0] := Strict(defs, defs[order[0]], false, depth).value], order[1..], depth, s);
    }
  }

  lemma {:induction false} RootGroup(f: Feature, defs: Table, order: seq<string>, s: Schema, depth: nat)
    requires !f.mark.Shutting? && forall name | name in order :: name in defs
    requires StrictRoot(defs, order, s, depth).Some?
    ensures var (table, r) := StrictRoot(defs, order, s, depth).value;
            (Group(f, table, r) ==> Group(f, defs, s)) && (Kept(f) && Group(f, defs, s) ==> Group(f, table, r))
    decreases depth
  {
    hide Rewrite, Strict, StrictTable, Group, SameGroup;
    var table := StrictTable(defs, order, depth - 1).value;
    TableGroup(f, defs, order, depth - 1, s);
    RewriteGroup(f, table, s, order != [], depth);
    SameGroupIff(f, table, s, Rewrite(table, s, order != [], depth).schema);
    if Rewrite(table, s, order != [], depth).Again? {
      RootGroup(f, table, order, Rewrite(table, s, order != [], depth).schema, depth - 1);
    }
  }

  // ---- idempotence of the whole pass ----

  lemma {:induction false} TableIsStrict(defs: Table, order: seq<string>, depth: nat)
    requires forall name | name in order :: name in defs
    requires StrictTable(defs, order, depth).Some?
    ensures var table := StrictTable(defs, order, depth).value;
            && (forall name | name in order :: StrictForm(defs.Keys, table[name], false, depth))
            && (forall name | name in defs && name !in order :: table[name] == defs[name])
    decreases |order|
  {
    hide Strict, StrictForm;
    if order != [] {
      ResultIsStrict(defs, defs[order[0]], false, depth);
      var later := defs[order[0] := Strict(defs, defs[order[0]], false, depth).value];
      assert later.Keys == defs.Keys;
      TableIsStrict(later, order[1..], depth);
      forall name | name in order
        ensures name == order[0] || name in order[1..]
      {}
    }
  }

  lemma {:induction false} StrictTableIsFixed(defs: Table, order: seq<string>, depth: nat)
    requires forall name | name in order :: name in defs && StrictForm(defs.Keys, defs[name], false, depth)
    ensures StrictTable(defs, order, depth) == Some(defs)
    decreases |order|
  {
    hide Strict, StrictForm;
    if order != [] {
      StrictFormIsFixed(defs, defs[order[0]], false, depth);
      assert defs[order[0] := defs[order[0]]] == defs;
      StrictTableIsFixed(defs, order[1..], depth);
    }
  }

  lemma {:induction false} RootIsStrict(defs: Table, order: seq<string>, s: Schema, depth: nat)
    requires forall name | name in order :: name in defs
    requires StrictRoot(defs, order, s, depth).Some?
    ensures var (table, r) := StrictRoot(defs, order, s, depth).value;
            && depth > 0 && table.Keys == defs.Keys && StrictForm(defs.Keys, r, order != [], depth)
            && forall name | name in order :: StrictForm(defs.Keys, table[name], false, depth - 1)
    decreases depth
  {
    hide Strict, StrictForm, Rewrite, StrictTable;
    var table := StrictTable(defs, order, depth - 1).value;
    TableIsStrict(defs, order, depth - 1);
    match Rewrite(table, s, order != [], depth)
    case Done(r) =>
      assert Strict(table, s, order != [], depth) == Some(r) by {
        DoneIsStrict(table, s, order != [], depth);
      }
      ResultIsStrict(table, s, order != [], depth);
    case Again(next) =>
      RootIsStrict(table, order, next, depth - 1);
      var (last, r) := StrictRoot(table, order, next, depth - 1).value;
      FormDeeper(defs.Keys, r, order != [], depth - 1, depth);
      forall name | name in order
        ensures StrictForm(defs.Keys, last[name], false, depth - 1)
      {
        FormDeeper(defs.Keys, last[name], false, depth - 2, depth - 1);
      }
  }

  lemma DoneIsStrict(defs: Table, s: Schema, holdsDefs: bool, depth: nat)
    requires depth > 0 && Rewrite(defs, s, holdsDefs, depth).Done?
    ensures Strict(defs, s, holdsDefs, depth) == Some(Rewrite(defs, s, holdsDefs, depth).schema)
  {
    hide Rewrite;
  }

  /** Rewriting a rewritten document changes nothing, neither its root nor its definitions. */
  lemma RootIdempotent(defs: Table, order: seq<string>, s: Schema, depth: nat)
    requires forall name | name in order :: name in defs
    requires StrictRoot(defs, order, s, depth).Some?
    ensures var (table, r) := StrictRoot(defs, order, s, depth).value;
            table.Keys == defs.Keys && StrictRoot(table, order, r, depth) == Some((table, r))
  {
    hide StrictRoot, Rewrite, StrictTable;
    RootIsStrict(defs, order, s, depth);
    var (table, r) := StrictRoot(defs, order, s, depth).value;
    StrictTableIsFixed(table, order, depth - 1);
    RewriteIsFixed(table, r, order != [], depth);
    FixedRoot(table, order, r, depth);
  }

  lemma FixedRoot(table: Table, order: seq<string>, r: Schema, depth: nat)
    requires forall name | name in order :: name in table
    requires depth > 0 && StrictTable(table, order, depth - 1) == Some(table)
    requires StrictForm(table.Keys, r, order != [], depth) && Rewrite(table, r, order != [], depth) == Done(r)
    ensures StrictRoot(table, order, r, depth) == Some((table, r))
  {
    hide Rewrite, StrictTable;
  }
}
