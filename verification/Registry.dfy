/** The capability registry (fsq_agent/core/_capabilities.py:7-57), the snapshot it gives out
    (fsq_agent/models/_tools.py:45-80) and the ambiguity check of the case validator
    (fsq_agent/case_dsl/_validation.py:47-54). */
module Registry {
  import opened Wrappers

  /** A capability: its name and its replay alias. The only replay kind is "fsq_command". */
  datatype Capability = Capability(name: string, alias: Option<string>)

  /** The registry's two dictionaries; `order` lists the definitions as they were inserted. */
  datatype Index = Index(definitions: map<string, Capability>, order: seq<Capability>, aliases: map<string, string>)

  const EMPTY: Index := Index(map[], [], map[])

  /** register; None when it raises. */
  function Register(r: Index, c: Capability): Option<Index> {
    if c.name in r.definitions || c.name in r.aliases then None
    else if c.alias.Some? && c.alias.value != c.name then
      if c.alias.value in r.definitions || c.alias.value in r.aliases then None
      else Some(Index(r.definitions[c.name := c], r.order + [c], r.aliases[c.alias.value := c.name]))
    else Some(Index(r.definitions[c.name := c], r.order + [c], r.aliases))
  }

  /** Any sequence of registrations; one that raises leaves the registry as it was. */
  function RegisterAll(cs: seq<Capability>): Index {
    if cs == [] then EMPTY
    else
      var before := RegisterAll(cs[..|cs| - 1]);
      var after := Register(before, cs[|cs| - 1]);
      if after.Some? then after.value else before
  }

  /** CapabilityRegistry.resolve: by hashing. */
  function Resolve(r: Index, s: string): Option<Capability> {
    var name := if s in r.aliases then r.aliases[s] else s;
    if name in r.definitions then Some(r.definitions[name]) else None
  }

  predicate Answers(c: Capability, s: string) {
    c.name == s || c.alias == Some(s)
  }

  /** CapabilityRegistrySnapshot.resolve: the first match of a linear scan. */
  function Scan(cs: seq<Capability>, s: string): (r: Option<Capability>)
    ensures r.Some? ==> r.value in cs && Answers(r.value, s)
    ensures r.None? ==> forall i | 0 <= i < |cs| :: !Answers(cs[i], s)
  {
    if cs == [] then None
    else if Answers(cs[0], s) then Some(cs[0])
    else
      var rest := Scan(cs[1..], s);
      assert forall i | 0 < i < |cs| :: cs[i] == cs[1..][i - 1];
      rest
  }

  /** No text is a name or alias of two capabilities. */
  ghost predicate Unambiguous(cs: seq<Capability>) {
    forall i, j, s | 0 <= i < |cs| && 0 <= j < |cs| && Answers(cs[i], s) && Answers(cs[j], s) :: i == j
  }

  /** What registration keeps: the dictionaries say exactly who answers to what. */
  ghost predicate Consistent(r: Index) {
    && Unambiguous(r.order)
    && (forall c | c in r.order :: c.name in r.definitions && r.definitions[c.name] == c)
    && (forall c | c in r.order && c.alias.Some? && c.alias.value != c.name ::
          c.alias.value in r.aliases && r.aliases[c.alias.value] == c.name)
    && (forall name | name in r.definitions :: r.definitions[name].name == name && r.definitions[name] in r.order)
    && (forall alias | alias in r.aliases ::
          r.aliases[alias] in r.definitions && r.definitions[r.aliases[alias]].alias == Some(alias)
              && alias != r.aliases[alias])
  }

  /** A new capability answers to nothing that an older one answers to. */
  lemma NewIsDifferent(r: Index, c: Capability, i: int, s: string)
    requires Consistent(r) && Register(r, c).Some? && 0 <= i < |r.order| && Answers(c, s)
    ensures !Answers(r.order[i], s)
  {
    assert r.order[i] in r.order;
  }

  lemma RegisterKeeps(r: Index, c: Capability)
    requires Consistent(r) && Register(r, c).Some?
    ensures Consistent(Register(r, c).value)
  {
    MoreIsUnambiguous(r, c);
    hide Unambiguous;
    var r' := Register(r, c).value;
    assert forall d :: d in r'.order <==> d in r.order || d == c;
  }

  lemma MoreIsUnambiguous(r: Index, c: Capability)
    requires Consistent(r) && Register(r, c).Some?
    ensures Unambiguous(r.order + [c])
  {
    var more := r.order + [c];
    assert forall i | 0 <= i < |r.order| :: more[i] == r.order[i];
    forall i, j, s | 0 <= i < |more| && 0 <= j < |more| && Answers(more[i], s) && Answers(more[j], s)
      ensures i == j
    {
      if i < |r.order| && j == |r.order| {
        NewIsDifferent(r, c, i, s);
      }
      if j < |r.order| && i == |r.order| {
        NewIsDifferent(r, c, j, s);
      }
    }
  }

  lemma {:induction false} EveryRegistryIsConsistent(cs: seq<Capability>)
    ensures Consistent(RegisterAll(cs))
  {
    if cs != [] {
      var before := RegisterAll(cs[..|cs| - 1]);
      EveryRegistryIsConsistent(cs[..|cs| - 1]);
      if Register(before, cs[|cs| - 1]).Some? {
        RegisterKeeps(before, cs[|cs| - 1]);
      }
    }
  }

  /** Whoever answers to a text is found, by hashing and by scanning alike. */
  lemma BothFind(r: Index, c: Capability, s: string)
    requires Consistent(r) && c in r.order && Answers(c, s)
    ensures Resolve(r, s) == Some(c) && Scan(r.order, s) == Some(c)
  {
    var i :| 0 <= i < |r.order| && r.order[i] == c;
    var found := Scan(r.order, s);
    var j :| 0 <= j < |r.order| && r.order[j] == found.value;
    assert i == j;
    if s in r.aliases {
      var owner := r.definitions[r.aliases[s]];
      var k :| 0 <= k < |r.order| && r.order[k] == owner;
      assert Answers(owner, s);
      assert i == k;
    }
  }

  /** The hashed lookup agrees with the linear scan on every text, after any sequence of
      registrations. */
  lemma LookupsAgree(cs: seq<Capability>, s: string)
    ensures Resolve(RegisterAll(cs), s) == Scan(RegisterAll(cs).order, s)
  {
    var r := RegisterAll(cs);
    EveryRegistryIsConsistent(cs);
    if Scan(r.order, s).Some? {
      BothFind(r, Scan(r.order, s).value, s);
    } else if Resolve(r, s).Some? {
      var c := Resolve(r, s).value;
      assert c in r.order && Answers(c, s);
      BothFind(r, c, s);
    }
  }

  /** One of the first n capabilities answers to the text. */
  predicate Taken(cs: seq<Capability>, n: nat, s: string)
    requires n <= |cs|
  {
    exists j :: 0 <= j < n && Answers(cs[j], s)
  }

  lemma NoneTaken(cs: seq<Capability>)
    ensures forall s :: !Taken(cs, 0, s)
  {}

  lemma TakenMore(cs: seq<Capability>, n: nat)
    requires n < |cs|
    ensures forall s :: Taken(cs, n + 1, s) <==> Taken(cs, n, s) || Answers(cs[n], s)
  {}

  /** The validator's own check: it goes through the names and aliases of a snapshot and complains
      about any that it has seen. */
  method CheckAmbiguity(cs: seq<Capability>) returns (ok: bool)
    ensures ok <==> Unambiguous(cs)
  {
    assert Unambiguous(cs[..0]);
    hide Unambiguous, Taken;
    assert forall s :: !Taken(cs, 0, s) by { NoneTaken(cs); }
    var names: map<string, Capability> := map[];
    for i := 0 to |cs|
      invariant Unambiguous(cs[..i])
      invariant forall s :: s in names.Keys <==> Taken(cs, i, s)
    {
      var own := {cs[i].name} + if cs[i].alias.Some? then {cs[i].alias.value} else {};
      assert forall s :: s in own <==> Answers(cs[i], s);
      if own * names.Keys != {} {
        var s :| s in own * names.Keys;
        ClashFound(cs, i, s);
        return false;
      }
      forall s | Answers(cs[i], s)
        ensures s !in names.Keys
      {
        assert s in own && s !in own * names.Keys;
      }
      NoClash(cs, i, names.Keys);
      TakenMore(cs, i);
      names := names + map s | s in own :: cs[i];
    }
    assert cs[..|cs|] == cs;
    ok := true;
  }

  lemma ClashFound(cs: seq<Capability>, i: nat, s: string)
    requires i < |cs| && Answers(cs[i], s) && Taken(cs, i, s)
    ensures !Unambiguous(cs)
  {}

  lemma NoClash(cs: seq<Capability>, i: nat, seen: set<string>)
    requires i < |cs| && Unambiguous(cs[..i])
    requires forall s :: s in seen <==> Taken(cs, i, s)
    requires forall s | Answers(cs[i], s) :: s !in seen
    ensures Unambiguous(cs[..i + 1])
  {
    var more := cs[..i + 1];
    forall a, s | 0 <= a < i && Answers(cs[a], s)
      ensures !Answers(cs[i], s)
    {
      assert Taken(cs, i, s);
    }
    forall a, b, s | 0 <= a < |more| && 0 <= b < |more| && Answers(more[a], s) && Answers(more[b], s)
      ensures a == b
    {
      if a < i && b < i {
        assert cs[..i][a] == more[a] && cs[..i][b] == more[b];
      }
    }
  }

  /** It never fires on the snapshot of a registry. */
  lemma NeverAmbiguous(cs: seq<Capability>)
    ensures Unambiguous(RegisterAll(cs).order)
  {
    EveryRegistryIsConsistent(cs);
  }

  class CapabilityRegistry {
    var definitions: map<string, Capability>
    var order: seq<Capability>
    var aliases: map<string, string>

    ghost function Contents(): Index
      reads this
    {
      Index(definitions, order, aliases)
    }

    constructor ()
      ensures Contents() == EMPTY
    {
      definitions, order, aliases := map[], [], map[];
    }

    /** register; false when it raises. */
    method RegisterCapability(c: Capability) returns (ok: bool)
      modifies this
      ensures ok <==> Register(old(Contents()), c).Some?
      ensures Contents() == if ok then Register(old(Contents()), c).value else old(Contents())
    {
      if c.name in definitions || c.name in aliases {
        return false;
      }
      var aliasMap := aliases;
      if c.alias.Some? {
        var alias := c.alias.value;
        if alias != c.name && alias in definitions {
          return false;
        }
        if alias != c.name {
          if alias in aliasMap {
            return false;
          }
          aliasMap := aliasMap[alias := c.name];
        }
      }
      definitions, order, aliases := definitions[c.name := c], order + [c], aliasMap;
      ok := true;
    }
  }
}
