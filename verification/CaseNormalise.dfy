/** Canonical cases (fsq_agent/case_dsl/_serializer.py:24-54, fsq_agent/case_dsl/_validation.py:40-93,
    fsq_agent/case_dsl/_step_adapter.py:14-49, fsq_agent/models/_fsq.py:26-56): what normalisation
    does to the meaning of a case's commands, and how hooks are written and read back. */
module CaseNormalise {
  import opened Wrappers
  import opened Registry

  datatype Json =
    | JNull | JBool(b: bool) | JInt(i: int) | JFloat(r: real) | JText(s: string) | JList(items: seq<Json>)
    | JObject(fields: Params)

  type Params = map<string, Json>

  /** A command: a bare name, a mapping with one textual key, or anything else. */
  datatype Command = Name(name: string) | Single(name: string, payload: Json) | Malformed

  /** Validation by the capability's params model followed by canonical_value: the canonical params. */
  type Validation = (Capability, Params) -> Option<Params>

  /** What a command is read as. */
  datatype Reading = Reading(capability: Capability, params: Params, timeout: Option<int>)

  /** A text given as {"runtimeSecret": x} is short for a text and its textType. */
  function ExpandSecret(params: Params): Params {
    if "textType" !in params && "text" in params && params["text"].JObject?
        && params["text"].fields.Keys == {"runtimeSecret"}
    then params["text" := params["text"].fields["runtimeSecret"]]["textType" := JText("runtimeSecret")]
    else params
  }

  predicate PositiveInt(v: Json) {
    v.JInt? && v.i >= 1
  }

  /** FsqCaseValidator.command; None when it raises. */
  function Read(cs: seq<Capability>, validate: Validation, c: Command): Option<Reading> {
    if c.Malformed? then None
    else
      var payload := if c.Name? || c.payload.JNull? then JObject(map[]) else c.payload;
      var capability := Scan(cs, c.name);
      if capability.None? || capability.value.alias.None? || capability.value.alias.value == "" then None
      else if !payload.JObject? then None
      else if "timeout" in payload.fields && !PositiveInt(payload.fields["timeout"]) then None
      else
        var timeout := if "timeout" in payload.fields then Some(payload.fields["timeout"].i) else None;
        var params := validate(capability.value, ExpandSecret(payload.fields - {"timeout"}));
        if params.None? then None else Some(Reading(capability.value, params.value, timeout))
  }

  /** How a reading is written: under its alias, its timeout among its params. */
  function Write(r: Reading): Command
    requires r.capability.alias.Some?
  {
    Single(r.capability.alias.value,
           JObject(if r.timeout.Some? then r.params["timeout" := JInt(r.timeout.value)] else r.params))
  }

  /** Params models whose validation round-trips: canonical params, taken as the params of a command,
      are their own canonical params. */
  ghost predicate RoundTrips(validate: Validation) {
    forall c, p | validate(c, p).Some? ::
        validate(c, ExpandSecret(validate(c, p).value - {"timeout"})) == validate(c, p)
  }

  /** The canonical params do not pass for a timeout of the step. */
  predicate Settled(r: Reading) {
    r.timeout.Some? || "timeout" !in r.params
  }

  lemma AliasFindsItself(cs: seq<Capability>, c: Capability)
    requires Unambiguous(cs) && c in cs && c.alias.Some?
    ensures Scan(cs, c.alias.value) == Some(c)
  {
    var i :| 0 <= i < |cs| && cs[i] == c;
    var found := Scan(cs, c.alias.value);
    var j :| 0 <= j < |cs| && cs[j] == found.value;
  }

  /** What is written of a reading is read back with the same capability and the same params; as for
      the timeout, params named "timeout" take its place when the command has none. */
  lemma ReadBack(cs: seq<Capability>, validate: Validation, c: Command)
    requires Unambiguous(cs) && RoundTrips(validate) && Read(cs, validate, c).Some?
    ensures var r := Read(cs, validate, c).value;
            && r.capability.alias.Some?
            && var again := Read(cs, validate, Write(r));
               if Settled(r) then again == Some(r)
               else if PositiveInt(r.params["timeout"]) then again == Some(r.(timeout := Some(r.params["timeout"].i)))
               else again == None
  {
    var r := Read(cs, validate, c).value;
    AliasFindsItself(cs, r.capability);
    var payload := Write(r).payload.fields;
    assert payload - {"timeout"} == r.params - {"timeout"};
    hide Scan, ExpandSecret, Unambiguous;
    assert exists p :: validate(r.capability, p) == Some(r.params);
  }

  /** A text given as a runtime secret is read like that text with its type stated. */
  lemma SecretText(cs: seq<Capability>, validate: Validation, name: string, params: Params, secret: Json)
    requires "textType" !in params
    ensures Read(cs, validate, Single(name, JObject(params["text" := JObject(map["runtimeSecret" := secret])])))
            == Read(cs, validate,
                    Single(name, JObject(params["text" := secret]["textType" := JText("runtimeSecret")])))
  {
    var given := params["text" := JObject(map["runtimeSecret" := secret])];
    var stated := params["text" := secret]["textType" := JText("runtimeSecret")];
    assert ExpandSecret(given - {"timeout"}) == stated - {"timeout"};
    assert ExpandSecret(stated - {"timeout"}) == stated - {"timeout"};
  }

  /** Params without a text, with a text that is no runtime secret, or with a stated type are validated as
      they are, but for the timeout, which is a positive integer or missing; the command must be known by an
      alias. */
  lemma OtherParams(cs: seq<Capability>, validate: Validation, name: string, params: Params)
    requires "textType" in params || "text" !in params
             || (forall secret :: params["text"] != JObject(map["runtimeSecret" := secret]))
    ensures var r, found := Read(cs, validate, Single(name, JObject(params))), Scan(cs, name);
            && (r.Some?
                <==> && found.Some? && found.value.alias.Some? && found.value.alias.value != ""
                     && ("timeout" in params ==> exists n :: n > 0 && params["timeout"] == JInt(n))
                     && validate(found.value, params - {"timeout"}).Some?)
            && (r.Some? ==>
                  && r.value.capability == found.value
                  && validate(found.value, params - {"timeout"}) == Some(r.value.params)
                  && (if "timeout" in params then r.value.timeout.Some?
                      && params["timeout"] == JInt(r.value.timeout.value)
                      else r.value.timeout.None?))
  {
    if "text" in params && params["text"].JObject? && params["text"].fields.Keys == {"runtimeSecret"} {
      var fields := params["text"].fields;
      assert "runtimeSecret" in fields;
      assert fields == map["runtimeSecret" := fields["runtimeSecret"]];
    }
    assert ExpandSecret(params - {"timeout"}) == params - {"timeout"};
  }

  // ---- whole cases ----

  /** What a command makes the runner do. */
  datatype Meaning = Meaning(action: string, params: Params, timeout: Option<int>)

  function MeaningOf(r: Reading): Meaning {
    Meaning(r.capability.name, r.params, r.timeout)
  }

  /** normalize on a case's commands; None when the case is rejected. */
  function Normalize(cs: seq<Capability>, validate: Validation, commands: seq<Command>): Option<seq<Command>> {
    if commands == [] then Some([])
    else
      var before := Normalize(cs, validate, commands[..|commands| - 1]);
      var r := Read(cs, validate, commands[|commands| - 1]);
      if before.None? || r.None? then None else Some(before.value + [Write(r.value)])
  }

  /** to_executable_steps, as far as it decides what is executed. */
  function Steps(cs: seq<Capability>, validate: Validation, commands: seq<Command>): Option<seq<Meaning>> {
    if commands == [] then Some([])
    else
      var before := Steps(cs, validate, commands[..|commands| - 1]);
      var r := Read(cs, validate, commands[|commands| - 1]);
      if before.None? || r.None? then None else Some(before.value + [MeaningOf(r.value)])
  }

  predicate Readable(cs: seq<Capability>, validate: Validation, commands: seq<Command>) {
    forall i | 0 <= i < |commands| :: Read(cs, validate, commands[i]).Some?
  }

  lemma {:induction false} NormalizeAt(cs: seq<Capability>, validate: Validation, commands: seq<Command>)
    ensures Normalize(cs, validate, commands).Some? <==> Readable(cs, validate, commands)
    ensures Readable(cs, validate, commands) ==>
              var n := Normalize(cs, validate, commands).value;
              |n| == |commands| && forall i | 0 <= i < |n| :: n[i] == Write(Read(cs, validate, commands[i]).value)
  {
    hide Read, Write;
    if commands != [] {
      NormalizeAt(cs, validate, commands[..|commands| - 1]);
    }
  }

  lemma {:induction false} StepsAt(cs: seq<Capability>, validate: Validation, commands: seq<Command>)
    ensures Steps(cs, validate, commands).Some? <==> Readable(cs, validate, commands)
    ensures Readable(cs, validate, commands) ==>
              var s := Steps(cs, validate, commands).value;
              |s| == |commands| && forall i | 0 <= i < |s| :: s[i] == MeaningOf(Read(cs, validate, commands[i]).value)
  {
    hide Read, MeaningOf;
    if commands != [] {
      StepsAt(cs, validate, commands[..|commands| - 1]);
    }
  }

  /** Normalisation preserves the executable steps exactly when no command without a timeout has
      canonical params named "timeout". */
  lemma StepsPreservedIff(cs: seq<Capability>, validate: Validation, commands: seq<Command>)
    requires Unambiguous(cs) && RoundTrips(validate) && Readable(cs, validate, commands)
    ensures var n := Normalize(cs, validate, commands);
            && n.Some?
            && (Steps(cs, validate, n.value) == Steps(cs, validate, commands)
                <==> forall i | 0 <= i < |commands| :: Settled(Read(cs, validate, commands[i]).value))
  {
    NormalizeAt(cs, validate, commands);
    var n := Normalize(cs, validate, commands).value;
    StepsAt(cs, validate, commands);
    StepsAt(cs, validate, n);
    forall i | 0 <= i < |commands|
      ensures Settled(Read(cs, validate, commands[i]).value) ==>
                Read(cs, validate, n[i]) == Read(cs, validate, commands[i])
      ensures !Settled(Read(cs, validate, commands[i]).value) && Read(cs, validate, n[i]).Some? ==>
                Read(cs, validate, n[i]).value.timeout != Read(cs, validate, commands[i]).value.timeout
    {
      ReadBack(cs, validate, commands[i]);
    }
    hide Read, Steps, Normalize, Write, Settled;
    var s, t := Steps(cs, validate, commands).value, Steps(cs, validate, n);
    if t.Some? {
      assert forall i | 0 <= i < |commands| :: t.value[i] == MeaningOf(Read(cs, validate, n[i]).value);
      if t.value == s {
        forall i | 0 <= i < |commands|
          ensures Settled(Read(cs, validate, commands[i]).value)
        {
          assert t.value[i] == s[i];
        }
      }
    }
  }

  /** What is written stays written, even where params stand in for a missing timeout, as long as
      they are a valid one. */
  predicate StaysWritten(r: Reading) {
    Settled(r) || PositiveInt(r.params["timeout"])
  }

  lemma WriteBack(cs: seq<Capability>, validate: Validation, c: Command)
    requires Unambiguous(cs) && RoundTrips(validate) && Read(cs, validate, c).Some?
    ensures var r := Read(cs, validate, c).value;
            && r.capability.alias.Some?
            && var again := Read(cs, validate, Write(r));
               if StaysWritten(r) then again.Some? && again.value.capability.alias.Some?
                   && Write(again.value) == Write(r) else again.None?
  {
    ReadBack(cs, validate, c);
    var r := Read(cs, validate, c).value;
    if !Settled(r) && PositiveInt(r.params["timeout"]) {
      assert r.params["timeout" := JInt(r.params["timeout"].i)] == r.params;
    }
  }

  /** Normalising a normalised case changes nothing, exactly when each of its readings stays written. */
  lemma NormalizeIdempotentIff(cs: seq<Capability>, validate: Validation, commands: seq<Command>)
    requires Unambiguous(cs) && RoundTrips(validate) && Readable(cs, validate, commands)
    ensures var n := Normalize(cs, validate, commands);
            && n.Some?
            && (Normalize(cs, validate, n.value) == n <==> forall i | 0 <= i < |commands| ::
                  StaysWritten(Read(cs, validate, commands[i]).value))
  {
    hide Read, Normalize, Write, StaysWritten, RoundTrips, Unambiguous;
    NormalizeAt(cs, validate, commands);
    var n := Normalize(cs, validate, commands).value;
    NormalizeAt(cs, validate, n);
    forall i | 0 <= i < |commands|
      ensures Read(cs, validate, n[i]).Some? <==> StaysWritten(Read(cs, validate, commands[i]).value)
      ensures Read(cs, validate, n[i]).Some? ==>
                Read(cs, validate, n[i]).value.capability.alias.Some? && Write(Read(cs, validate, n[i]).value) == n[i]
    {
      WriteBack(cs, validate, commands[i]);
    }
    var again := Normalize(cs, validate, n);
    if again.Some? {
      forall i | 0 <= i < |n|
        ensures again.value[i] == n[i]
      {
        assert Read(cs, validate, n[i]).Some?;
      }
      assert again.value == n;
    }
  }

  /** It does happen: a params model with a default for a parameter named "timeout" gives a step
      that was written without a timeout one. */
  lemma DefaultTimeoutChangesMeaning()
    ensures exists cs, validate, commands ::
              && Unambiguous(cs) && RoundTrips(validate) && Readable(cs, validate, commands)
              && var n := Normalize(cs, validate, commands);
                 n.Some? && Steps(cs, validate, n.value) != Steps(cs, validate, commands)
  {
    var wait := Capability("wait", Some("waitFor"));
    var cs, commands := [wait], [Name("waitFor")];
    var canonical: Params := map["timeout" := JInt(5)];
    var validate: Validation := (c, p) => Some(canonical);
    assert Read(cs, validate, commands[0]) == Some(Reading(wait, canonical, None));
    StepsPreservedIff(cs, validate, commands);
    NormalizeAt(cs, validate, commands);
    assert !Settled(Read(cs, validate, commands[0]).value);
    assert Unambiguous(cs) && RoundTrips(validate) && Readable(cs, validate, commands)
        && var n := Normalize(cs, validate, commands);
           n.Some? && Steps(cs, validate, n.value) != Steps(cs, validate, commands);
  }

  /** normalize, after the checks of the case's configuration: the registry must be unambiguous. */
  method NormalizeCase(cs: seq<Capability>, validate: Validation, commands: seq<Command>)
    returns (r: Option<seq<Command>>)
    ensures r == if Unambiguous(cs) then Normalize(cs, validate, commands) else None
  {
    hide Read, Write, Normalize, Unambiguous;
    var ok := CheckAmbiguity(cs);
    if !ok {
      return None;
    }
    NormalizeAt(cs, validate, commands);
    NothingToNormalize(cs, validate, commands);
    var done: seq<Command> := [];
    for i := 0 to |commands|
      invariant forall k | 0 <= k < i :: Read(cs, validate, commands[k]).Some?
      invariant Normalize(cs, validate, commands[..i]) == Some(done)
    {
      var reading := Read(cs, validate, commands[i]);
      if reading.None? {
        return None;
      }
      ReadHasAlias(cs, validate, commands[i]);
      NormalizeNext(cs, validate, commands, i);
      done := done + [Write(reading.value)];
    }
    assert commands[..|commands|] == commands;
    r := Some(done);
  }

  lemma NothingToNormalize(cs: seq<Capability>, validate: Validation, commands: seq<Command>)
    ensures Normalize(cs, validate, commands[..0]) == Some([])
  {}

  lemma NormalizeNext(cs: seq<Capability>, validate: Validation, commands: seq<Command>, i: nat)
    requires i < |commands| && Normalize(cs, validate, commands[..i]).Some? && Read(cs, validate, commands[i]).Some?
    requires Read(cs, validate, commands[i]).value.capability.alias.Some?
    ensures Normalize(cs, validate, commands[..i + 1])
            == Some(Normalize(cs, validate, commands[..i]).value + [Write(Read(cs, validate, commands[i]).value)])
  {
    hide Read, Write;
    assert commands[..i + 1][..i] == commands[..i];
  }

  lemma ReadHasAlias(cs: seq<Capability>, validate: Validation, c: Command)
    ensures Read(cs, validate, c).Some? ==> Read(cs, validate, c).value.capability.alias.Some?
  {}

  // ---- hooks ----

  datatype HookName = RunCase | RunShell

  datatype HookAction = HookAction(name: HookName, value: string)

  /** A hook: its actions in order. */
  type Hook = seq<HookAction>

  /** A mapping in the file, with its keys in order. */
  type Entry = seq<HookAction>

  predicate HasName(entry: Entry, name: HookName) {
    exists i :: 0 <= i < |entry| && entry[i].name == name
  }

  /** A mapping has each key once, and an entry is not empty. */
  predicate IsEntry(entry: Entry) {
    entry != [] && forall i, j | 0 <= i < j < |entry| :: entry[i].name != entry[j].name
  }

  function Concat<T>(parts: seq<seq<T>>): seq<T> {
    if parts == [] then [] else Concat(parts[..|parts| - 1]) + parts[|parts| - 1]
  }

  lemma {:induction false} ConcatSplit<T>(a: seq<seq<T>>, b: seq<seq<T>>)
    ensures Concat(a + b) == Concat(a) + Concat(b)
    decreases |b|
  {
    if b == [] {
      assert a + b == a;
    } else {
      var before, last := b[..|b| - 1], b[|b| - 1];
      assert (a + b)[..|a + b| - 1] == a + before && (a + b)[|a + b| - 1] == last;
      ConcatSplit(a, before);
      assert (Concat(a) + Concat(before)) + last == Concat(a) + (Concat(before) + last);
    }
  }

  /** FsqCaseHook's reading of an entry: one action per key, in order. */
  function ParseEntry(entry: Entry): Hook {
    entry
  }

  function ParseEntries(entries: seq<Entry>): (r: seq<Hook>)
    ensures |r| == |entries| && forall i | 0 <= i < |r| :: r[i] == ParseEntry(entries[i])
  {
    seq(|entries|, i requires 0 <= i < |entries| => ParseEntry(entries[i]))
  }

  /** Writing the actions of one hook: a new entry starts where a key would come twice. */
  method WriteHook(hook: Hook) returns (entries: seq<Entry>)
    ensures Concat(entries) == hook
    ensures forall i | 0 <= i < |entries| :: IsEntry(entries[i])
    ensures IsEntry(hook) ==> entries == [hook]
  {
    hide Concat, IsEntry, HasName;
    entries := [];
    var entry: Entry := [];
    NothingWritten(hook);
    for i := 0 to |hook|
      invariant Concat(entries) + entry == hook[..i]
      invariant forall k | 0 <= k < |entries| :: IsEntry(entries[k])
      invariant entry == [] ==> i == 0
      invariant entry != [] ==> IsEntry(entry)
      invariant IsEntry(hook) ==> entries == [] && entry == hook[..i]
    {
      OneMoreAction(hook, i, entry);
      if HasName(entry, hook[i].name) {
        ConcatOne(entries, entry);
        entries := entries + [entry];
        entry := [];
        OneMoreAction(hook, i, entry);
      }
      assert hook[..i + 1] == hook[..i] + [hook[i]];
      assert Concat(entries) + (entry + [hook[i]]) == (Concat(entries) + entry) + [hook[i]];
      entry := entry + [hook[i]];
    }
    assert hook[..|hook|] == hook;
    if entry != [] {
      ConcatOne(entries, entry);
      entries := entries + [entry];
    }
  }

  lemma NothingWritten(hook: Hook)
    ensures Concat<HookAction>([]) + [] == hook[..0] && (IsEntry(hook) ==> hook != [])
  {}

  lemma ConcatOne(entries: seq<Entry>, entry: Entry)
    ensures Concat(entries + [entry]) == Concat(entries) + entry
  {
    assert (entries + [entry])[..|entries|] == entries;
  }

  /** An action with a new name keeps an entry one; where names do not repeat there is always one. */
  lemma OneMoreAction(hook: Hook, i: nat, entry: Entry)
    requires i < |hook|
    ensures (entry != [] ==> IsEntry(entry)) && !HasName(entry, hook[i].name) ==> IsEntry(entry + [hook[i]])
    ensures IsEntry(hook) && entry == hook[..i] ==> !HasName(entry, hook[i].name)
    ensures entry == [] ==> !HasName(entry, hook[i].name)
  {}

  /** The hook part of serialize. Read back, the entries are hooks with the same actions in the same
      order; and writing those again gives the same entries. */
  method WriteHooks(hooks: seq<Hook>) returns (entries: seq<Entry>)
    ensures Concat(ParseEntries(entries)) == Concat(hooks)
    ensures forall i | 0 <= i < |entries| :: IsEntry(entries[i])
    ensures (forall i | 0 <= i < |hooks| :: IsEntry(hooks[i])) ==> entries == hooks
  {
    hide Concat, IsEntry;
    entries := [];
    for i := 0 to |hooks|
      invariant Concat(entries) == Concat(hooks[..i])
      invariant forall k | 0 <= k < |entries| :: IsEntry(entries[k])
      invariant (forall k | 0 <= k < |hooks| :: IsEntry(hooks[k])) ==> entries == hooks[..i]
    {
      var own := WriteHook(hooks[i]);
      ConcatSplit(entries, own);
      assert hooks[..i + 1] == hooks[..i] + [hooks[i]];
      ConcatOne(hooks[..i], hooks[i]);
      entries := entries + own;
    }
    assert hooks[..|hooks|] == hooks;
    assert ParseEntries(entries) == entries;
  }
}
