/** Assembling an interaction from a stream of interleaved increments
    (fsq_agent/agent_engine/_google_gemini_conversion.py:85-95, 166-258). None stands for any
    exception; numbers are exact. */
module GoogleStream {
  import opened Wrappers

  datatype Json =
    | JNull | JBool(b: bool) | JInt(i: int) | JFloat(r: real) | JText(s: string) | JList(items: seq<Json>)
    | JObject(fields: Object)

  type Object = map<string, Json>

  datatype Event =
    | Failure
    | Completed(interaction: Json)
    | StatusUpdate(fields: Object)
    | Created(interaction: Json)
    | Start(index: Json, step: Json)
    | Stop(index: Json)
    | Delta(index: Json, delta: Json)
    | Unsupported

  // ---- values ----

  /** _same_json_value */
  predicate Same(left: Json, right: Json)
    decreases left
  {
    match left
    case JInt(i) => (right.JInt? && i == right.i) || (right.JFloat? && i as real == right.r)
    case JFloat(r) => (right.JInt? && r == right.i as real) || (right.JFloat? && r == right.r)
    case JObject(fields) => right.JObject? && fields.Keys == right.fields.Keys && forall k | k in fields ::
        Same(fields[k], right.fields[k])
    case JList(items) => right.JList? && |items| == |right.items| && forall i | 0 <= i < |items| ::
        Same(items[i], right.items[i])
    case _ => left == right
  }

  lemma {:induction false} SameReflexive(a: Json)
    ensures Same(a, a)
    decreases a
  {
    match a
    case JObject(fields) =>
      forall k | k in fields
        ensures Same(fields[k], fields[k])
      {
        SameReflexive(fields[k]);
      }
    case JList(items) =>
      forall i | 0 <= i < |items|
        ensures Same(items[i], items[i])
      {
        SameReflexive(items[i]);
      }
    case _ =>
  }

  lemma {:induction false} SameSymmetric(a: Json, b: Json)
    requires Same(a, b)
    ensures Same(b, a)
    decreases a
  {
    match a
    case JObject(fields) =>
      forall k | k in fields
        ensures Same(b.fields[k], fields[k])
      {
        SameSymmetric(fields[k], b.fields[k]);
      }
    case JList(items) =>
      forall i | 0 <= i < |items|
        ensures Same(b.items[i], items[i])
      {
        SameSymmetric(items[i], b.items[i]);
      }
    case _ =>
  }

  lemma {:induction false} SameTransitive(a: Json, b: Json, c: Json)
    requires Same(a, b) && Same(b, c)
    ensures Same(a, c)
    decreases a
  {
    match a
    case JObject(fields) =>
      forall k | k in fields
        ensures Same(fields[k], c.fields[k])
      {
        SameTransitive(fields[k], b.fields[k], c.fields[k]);
      }
    case JList(items) =>
      forall i | 0 <= i < |items|
        ensures Same(items[i], c.items[i])
      {
        SameTransitive(items[i], b.items[i], c.items[i]);
      }
    case _ =>
  }

  function Get(fields: Object, key: string): Json {
    if key in fields then fields[key] else JNull
  }

  predicate Truthy(v: Json) {
    match v
    case JNull => false
    case JBool(b) => b
    case JInt(i) => i != 0
    case JFloat(r) => r != 0.0
    case JText(s) => s != ""
    case JList(items) => items != []
    case JObject(fields) => fields != map[]
  }

  /** _check_failure, by whether it raises. */
  predicate Fails(response: Object) {
    || Truthy(Get(response, "errors"))
    || Get(response, "status") in {JText("incomplete"), JText("budget_exceeded"), JText("failed"), JText("cancelled")}
  }

  /** A response stands when its errors are empty in one of the ways that Python takes for false, and its
      status is none of four. */
  lemma StandsIff(response: Object)
    ensures !Fails(response)
            <==> && Get(response, "errors") in {JNull, JBool(false), JInt(0), JFloat(0.0), JText(""), JList([]),
                                                JObject(map[])}
                 && Get(response, "status") !in {JText("incomplete"), JText("budget_exceeded"), JText("failed"),
                                                 JText("cancelled")}
  {}

  /** What iterating over a text gives. */
  function Characters(t: string): seq<Json> {
    seq(|t|, i requires 0 <= i < |t| => JText([t[i]]))
  }

  /** x += y in Python, for the values that JSON can hold, None where it raises: a list is extended by the
      elements of a list or the characters of a text. It would be extended by the keys of an object too,
      but their order is not part of this model. */
  function PlusAssign(x: Json, y: Json): Option<Json> {
    var nx := match x { case JBool(b) => JInt(if b then 1 else 0) case _ => x };
    var ny := match y { case JBool(b) => JInt(if b then 1 else 0) case _ => y };
    match (nx, ny)
    case (JInt(i), JInt(j)) => Some(JInt(i + j))
    case (JInt(i), JFloat(r)) => Some(JFloat(i as real + r))
    case (JFloat(r), JInt(i)) => Some(JFloat(r + i as real))
    case (JFloat(r), JFloat(q)) => Some(JFloat(r + q))
    case (JText(s), JText(t)) => Some(JText(s + t))
    case (JList(a), JList(b)) => Some(JList(a + b))
    case (JList(a), JText(t)) => Some(JList(a + Characters(t)))
    case _ => None
  }

  // ---- one step ----

  /** A step that has been started: its content so far, the text of its arguments, and whether it
      has been stopped. */
  datatype Step = Step(content: Object, arguments: Option<string>, stopped: bool)

  function AddText(content: Object, delta: Object): Option<Object> {
    var parts := if "content" in content then content["content"] else JList([]);
    if !parts.JList? then None
    else
      var items := if parts.items == [] then [JObject(map["type" := JText("text"), "text" := JText("")])]
          else parts.items;
      var last := items[|items| - 1];
      if !last.JObject? || "text" !in last.fields then None
      else
        var text := PlusAssign(last.fields["text"], if "text" in delta then delta["text"] else JText(""));
        if text.None? then None
        else Some(content["content" := JList(items[..|items| - 1] + [JObject(last.fields["text" := text.value])])])
  }

  function AddDelta(s: Step, delta: Json): Option<Step> {
    if !delta.JObject? then None
    else
      var d := delta.fields;
      if Get(d, "type") == JText("arguments_delta") then
        var more := if "arguments" in d then d["arguments"] else JText("");
        if more.JText? then Some(s.(arguments := Some((if s.arguments.Some? then s.arguments.value else "") + more.s)))
        else None
      else if Get(d, "type") == JText("text") then
        var content := AddText(s.content, d);
        if content.None? then None else Some(s.(content := content.value))
      else if Get(d, "type") == JText("thought_signature") then
        Some(s.(content := s.content["signature" := Get(d, "signature")]))
      else if Get(d, "type") == JText("thought_summary") then
        var summary := if "summary" in s.content then s.content["summary"] else JList([]);
        if Get(d, "content").JObject? && summary.JList?
        then Some(s.(content := s.content["summary" := JList(summary.items + [d["content"]])]))
        else None
      else None
  }

  /** What one event of a step does to it: it starts once, then grows, then stops once. */
  function Advance(s: Option<Step>, e: Event): Option<Step> {
    match e
    case Start(_, step) => if s.None? && step.JObject? then Some(Step(step.fields, None, false)) else None
    case Stop(_) => if s.Some? && !s.value.stopped then Some(s.value.(stopped := true)) else None
    case Delta(_, delta) => if s.Some? && !s.value.stopped then AddDelta(s.value, delta) else None
    case _ => None
  }

  /** What the events of one step amount to: None when they are rejected. */
  function Fold(own: seq<Event>): Option<Option<Step>> {
    if own == [] then Some(None)
    else
      var before := Fold(own[..|own| - 1]);
      if before.None? then None
      else
        var after := Advance(before.value, own[|own| - 1]);
        if after.None? then None else Some(after)
  }

  // ---- the whole stream ----

  predicate Indexed(e: Event) {
    e.Start? || e.Stop? || e.Delta?
  }

  predicate HasIndex(e: Event, i: nat) {
    Indexed(e) && e.index == JInt(i)
  }

  /** The events of one step, in order. */
  function Own(events: seq<Event>, i: nat): seq<Event> {
    if events == [] then []
    else Own(events[..|events| - 1], i) + if HasIndex(events[|events| - 1], i) then [events[|events| - 1]] else []
  }

  /** Events that stand on their own: status updates, and whether they, or an index, are acceptable. */
  predicate Acceptable(e: Event) {
    match e
    case Failure => false
    case Completed(interaction) => interaction.JObject? && !Fails(interaction.fields)
    case StatusUpdate(fields) =>
      !Fails(fields)
          && Get(fields, "status") in {JText("in_progress"), JText("queued"), JText("requires_action"),
                                       JText("completed")}
    case Created(interaction) => interaction.JObject? ==> !Fails(interaction.fields)
    case Unsupported => false
    case _ => e.index.JInt? && e.index.i >= 0
  }

  datatype State = State(steps: map<nat, Step>, completed: Option<Object>)

  /** GoogleStream.add */
  function Add(s: State, e: Event): Option<State> {
    if s.completed.Some? || !Acceptable(e) then None
    else if e.Completed? then Some(s.(completed := Some(e.interaction.fields)))
    else if !Indexed(e) then Some(s)
    else
      var i: nat := e.index.i;
      var after := Advance(if i in s.steps then Some(s.steps[i]) else None, e);
      if after.None? then None else Some(s.(steps := s.steps[i := after.value]))
  }

  function Run(events: seq<Event>): Option<State> {
    if events == [] then Some(State(map[], None))
    else
      var before := Run(events[..|events| - 1]);
      if before.None? then None else Add(before.value, events[|events| - 1])
  }

  function StepOf(s: State, i: nat): Option<Step> {
    if i in s.steps then Some(s.steps[i]) else None
  }

  /** The terminal document, if the last event is one. */
  function Terminal(events: seq<Event>): Option<Object> {
    if events != [] && events[|events| - 1].Completed? && events[|events| - 1].interaction.JObject?
    then Some(events[|events| - 1].interaction.fields) else None
  }

  predicate AllAcceptable(events: seq<Event>) {
    forall k | 0 <= k < |events| :: Acceptable(events[k])
  }

  predicate NothingAfterTerminal(events: seq<Event>) {
    forall k | 0 <= k < |events| - 1 :: !events[k].Completed?
  }

  ghost predicate StepsAccepted(events: seq<Event>) {
    forall i: nat :: Fold(Own(events, i)).Some?
  }

  /** A stream is accepted when each event is acceptable, nothing follows the terminal event, and
      each step's own events are accepted on their own. */
  ghost predicate AcceptedStream(events: seq<Event>) {
    && AllAcceptable(events)
    && NothingAfterTerminal(events)
    && StepsAccepted(events)
  }

  lemma OwnGrows(events: seq<Event>, e: Event)
    ensures forall i: nat :: Own(events + [e], i) == Own(events, i) + if HasIndex(e, i) then [e] else []
    ensures forall i: nat :: Fold(Own(events + [e], i))
                             == if HasIndex(e, i) then
                                  (if Fold(Own(events, i)).None? then None
                                   else if Advance(Fold(Own(events, i)).value, e).None? then None
                                   else Some(Advance(Fold(Own(events, i)).value, e)))
                                else Fold(Own(events, i))
  {
    assert (events + [e])[..|events|] == events;
    forall i: nat
      ensures Fold(Own(events + [e], i))
              == if HasIndex(e, i) then
                   (if Fold(Own(events, i)).None? then None
                    else if Advance(Fold(Own(events, i)).value, e).None? then None
                    else Some(Advance(Fold(Own(events, i)).value, e)))
                 else Fold(Own(events, i))
    {
      assert (Own(events, i) + [e])[..|Own(events, i)|] == Own(events, i);
      assert Own(events, i) + [] == Own(events, i);
    }
  }

  lemma NoTerminalYet(before: seq<Event>, e: Event)
    requires AllAcceptable(before) && NothingAfterTerminal(before)
    ensures NothingAfterTerminal(before + [e]) <==> Terminal(before).None?
  {
    hide Fails;
    var events := before + [e];
    assert forall k | 0 <= k < |before| :: events[k] == before[k];
    if before != [] {
      assert Acceptable(before[|before| - 1]);
      assert events[|before| - 1] == before[|before| - 1];
    }
  }

  lemma StepsGrow(before: seq<Event>, s: State, e: Event)
    requires forall i: nat :: Fold(Own(before, i)) == Some(StepOf(s, i))
    requires Acceptable(e) && s.completed.None?
    ensures StepsAccepted(before + [e]) <==> Add(s, e).Some?
    ensures Add(s, e).Some? ==> forall i: nat :: Fold(Own(before + [e], i)) == Some(StepOf(Add(s, e).value, i))
  {
    OwnGrows(before, e);
    hide Fold, Own, Advance, Fails;
    if Indexed(e) {
      var i: nat := e.index.i;
      assert HasIndex(e, i) && forall j: nat | j != i :: !HasIndex(e, j);
      if Advance(StepOf(s, i), e).None? {
        assert Fold(Own(before + [e], i)).None?;
      }
    }
  }

  /** An accepted stream grows by exactly the events that `add` accepts. */
  lemma AcceptedGrows(before: seq<Event>, s: State, e: Event)
    requires AcceptedStream(before) && s.completed == Terminal(before)
    requires forall i: nat :: Fold(Own(before, i)) == Some(StepOf(s, i))
    ensures AcceptedStream(before + [e]) <==> Add(s, e).Some?
    ensures Add(s, e).Some? ==> forall i: nat :: Fold(Own(before + [e], i)) == Some(StepOf(Add(s, e).value, i))
  {
    NoTerminalYet(before, e);
    if Acceptable(e) && s.completed.None? {
      StepsGrow(before, s, e);
    }
    hide Fold, Own, Advance, Acceptable, StepsAccepted, NothingAfterTerminal, Terminal;
    var events := before + [e];
    assert events[|before|] == e && forall k | 0 <= k < |before| :: events[k] == before[k];
  }

  /** What starts an accepted stream is accepted. */
  lemma PrefixAccepted(before: seq<Event>, e: Event)
    ensures AcceptedStream(before + [e]) ==> AcceptedStream(before)
  {
    var events := before + [e];
    OwnGrows(before, e);
    assert forall k | 0 <= k < |before| :: events[k] == before[k];
    hide Fold, Own, Advance, Acceptable;
    if AcceptedStream(events) {
      forall k | 0 <= k < |before|
        ensures Acceptable(before[k]) && (k < |before| - 1 ==> !before[k].Completed?)
      {
        assert Acceptable(events[k]) && events[k] == before[k];
      }
      forall i: nat
        ensures Fold(Own(before, i)).Some?
      {
        assert Fold(Own(events, i)).Some?;
      }
    }
  }

  /** The assembled state is the fold of each index's own events, however they are interleaved. */
  lemma {:induction false} Demultiplexed(events: seq<Event>)
    ensures Run(events).Some? <==> AcceptedStream(events)
    ensures Run(events).Some? ==>
              && Run(events).value.completed == Terminal(events)
              && forall i: nat :: Fold(Own(events, i)) == Some(StepOf(Run(events).value, i))
  {
    hide Fold, Own, Advance, AcceptedStream, Acceptable;
    if events == [] {
      NoEvents();
    } else {
      var before, e := events[..|events| - 1], events[|events| - 1];
      assert before + [e] == events;
      Demultiplexed(before);
      if Run(before).Some? {
        AcceptedGrows(before, Run(before).value, e);
        if Add(Run(before).value, e).Some? {
          TerminalIsLast(before, Run(before).value, e);
        }
      } else {
        PrefixAccepted(before, e);
      }
    }
  }

  lemma NoEvents()
    ensures AcceptedStream([]) && forall i: nat :: Fold(Own([], i)) == Some(None)
  {}

  lemma TerminalIsLast(before: seq<Event>, s: State, e: Event)
    requires Add(s, e).Some?
    ensures Add(s, e).value.completed == Terminal(before + [e])
  {}

  // ---- independence of the interleaving ----

  predicate Belongs(e: Event) {
    Indexed(e) && e.index.JInt? && e.index.i >= 0
  }

  /** The events that belong to no step, in order. */
  function Others(events: seq<Event>): seq<Event> {
    if events == [] then []
    else Others(events[..|events| - 1]) + if Belongs(events[|events| - 1]) then [] else [events[|events| - 1]]
  }

  /** The same events of each step in the same order, the same other events in the same order, and
      the terminal event last in both or in neither. */
  ghost predicate Rearranged(a: seq<Event>, b: seq<Event>) {
    && (forall i: nat :: Own(a, i) == Own(b, i))
    && Others(a) == Others(b)
    && (NothingAfterTerminal(a) <==> NothingAfterTerminal(b))
  }

  lemma {:induction false} AcceptableByOthers(events: seq<Event>)
    ensures AllAcceptable(events) <==> AllAcceptable(Others(events))
  {
    hide Fails;
    if events != [] {
      var n := |events| - 1;
      AcceptableByOthers(events[..n]);
      assert forall k | 0 <= k < n :: events[..n][k] == events[k];
      var before, rest := Others(events[..n]), Others(events);
      assert forall k | 0 <= k < |before| :: rest[k] == before[k];
      if !Belongs(events[n]) {
        assert rest[|before|] == events[n];
      }
    }
  }

  lemma {:induction false} OthersAreEvents(events: seq<Event>, e: Event)
    requires e in Others(events)
    ensures e in events
  {
    var n := |events| - 1;
    if e in Others(events[..n]) {
      OthersAreEvents(events[..n], e);
    }
  }

  /** The terminal event is the last of the other events. */
  lemma TerminalOfOthers(events: seq<Event>)
    requires NothingAfterTerminal(events)
    ensures Terminal(events) == Terminal(Others(events))
  {
    if events != [] {
      var n := |events| - 1;
      if Belongs(events[n]) {
        var others := Others(events);
        if others != [] {
          OthersAreEvents(events, others[|others| - 1]);
        }
        assert forall e | e in events :: !e.Completed?;
      }
    }
  }

  /** The result does not depend on how the steps' events are interleaved: two arrangements of the
      same events are both accepted, with the same state, or both rejected. */
  lemma InterleavingIndependent(a: seq<Event>, b: seq<Event>)
    requires Rearranged(a, b)
    ensures Run(a) == Run(b)
  {
    Demultiplexed(a);
    Demultiplexed(b);
    AcceptableByOthers(a);
    AcceptableByOthers(b);
    StepsAcceptedAlike(a, b);
    hide Fold, Own, Others, Run, AllAcceptable, Terminal, StepsAccepted, NothingAfterTerminal;
    assert AcceptedStream(a) <==> AcceptedStream(b);
    if Run(a).Some? {
      TerminalOfOthers(a);
      TerminalOfOthers(b);
      var s, t := Run(a).value, Run(b).value;
      forall i: nat
        ensures StepOf(s, i) == StepOf(t, i)
      {
        assert Fold(Own(a, i)) == Some(StepOf(s, i)) && Fold(Own(b, i)) == Some(StepOf(t, i));
      }
      SameSteps(s, t);
    }
  }

  lemma StepsAcceptedAlike(a: seq<Event>, b: seq<Event>)
    requires forall i: nat :: Own(a, i) == Own(b, i)
    ensures StepsAccepted(a) <==> StepsAccepted(b)
  {
    hide Own, Fold;
    if StepsAccepted(a) {
      forall i: nat
        ensures Fold(Own(b, i)).Some?
      {
        assert Fold(Own(a, i)).Some? && Own(a, i) == Own(b, i);
      }
    }
    if StepsAccepted(b) {
      forall i: nat
        ensures Fold(Own(a, i)).Some?
      {
        assert Fold(Own(b, i)).Some? && Own(a, i) == Own(b, i);
      }
    }
  }

  lemma SameSteps(s: State, t: State)
    requires forall i: nat :: StepOf(s, i) == StepOf(t, i)
    ensures s.steps == t.steps
  {
    forall i: nat
      ensures (i in s.steps <==> i in t.steps) && (i in s.steps ==> s.steps[i] == t.steps[i])
    {
      assert StepOf(s, i) == StepOf(t, i);
    }
  }

  // ---- finishing ----

  type Decoder = string -> Option<Object>

  /** A step with its arguments decoded, or as text when they are no JSON object. */
  function Assemble(s: Step, decode: Decoder): Json {
    if s.arguments.None? then JObject(s.content)
    else
      var decoded := decode(s.arguments.value);
      JObject(s.content["arguments" := if decoded.Some? then JObject(decoded.value) else JText(s.arguments.value)])
  }

  /** Steps 0 to n - 1 exist, all of them stopped, and no others. */
  predicate Contiguous(s: State) {
    forall i | i in s.steps :: i < |s.steps| && s.steps[i].stopped
  }

  lemma {:induction false} Below(n: nat) returns (all: set<nat>)
    ensures |all| == n && forall i: nat :: i in all <==> i < n
  {
    if n == 0 {
      all := {};
    } else {
      all := Below(n - 1);
      all := all + {n - 1};
    }
  }

  lemma SubsetOfSameSize(a: set<nat>, b: set<nat>)
    requires a <= b && |a| == |b|
    ensures a == b
  {
    assert b == a + (b - a);
    assert |b| == |a| + |b - a|;
  }

  /** Contiguous steps leave no gap. */
  lemma NoGap(s: State)
    requires Contiguous(s)
    ensures forall i: nat :: i in s.steps <==> i < |s.steps|
  {
    var all := Below(|s.steps|);
    assert |s.steps.Keys| == |s.steps|;
    SubsetOfSameSize(s.steps.Keys, all);
  }

  function AssembledSteps(s: State, decode: Decoder): (r: seq<Json>)
    requires Contiguous(s)
    ensures |r| == |s.steps| && forall i | 0 <= i < |r| :: i in s.steps && r[i] == Assemble(s.steps[i], decode)
  {
    NoGap(s);
    seq(|s.steps|, i requires 0 <= i < |s.steps| => Assemble(s.steps[i], decode))
  }

  /** GoogleStream.finish */
  function Finish(s: State, decode: Decoder): Option<Object> {
    if s.completed.None? || !Contiguous(s) then None
    else
      var document, observed := s.completed.value, AssembledSteps(s, decode);
      var given := Get(document, "steps");
      if given == JNull then Some(document["steps" := JList(observed)])
      else if observed == [] then Some(document)
      else if given.JList? && |given.items| == |observed| && forall i | 0 <= i < |observed| ::
          Same(observed[i], given.items[i])
      then Some(document)
      else None
  }

  /** A step's own events when it is complete: one start, deltas, one stop. */
  predicate WholeStep(own: seq<Event>) {
    |own| >= 2 && own[0].Start? && own[|own| - 1].Stop? && forall k | 0 < k < |own| - 1 :: own[k].Delta?
  }

  lemma {:induction false} FoldShape(own: seq<Event>)
    requires Fold(own).Some?
    ensures Fold(own).value.None? <==> own == []
    ensures own != [] ==>
              && own[0].Start? && (forall k | 0 < k < |own| - 1 :: own[k].Delta?)
              && (Fold(own).value.value.stopped ==> |own| >= 2 && own[|own| - 1].Stop?)
              && (!Fold(own).value.value.stopped && |own| >= 2 ==> own[|own| - 1].Delta?)
  {
    hide AddDelta;
    if own != [] {
      var n := |own| - 1;
      FoldShape(own[..n]);
      DeltaKeepsOpen(own[..n], own[n]);
    }
  }

  lemma DeltaKeepsOpen(before: seq<Event>, e: Event)
    ensures e.Delta? && Fold(before).Some? && Fold(before).value.Some? && Advance(Fold(before).value, e).Some? ==>
              Advance(Fold(before).value, e).value.stopped == Fold(before).value.value.stopped
  {
    hide Fold;
  }

  /** What a finished stream consists of: step indices without a gap, each started once and stopped
      once; and a document whose steps are the assembled ones, given or filled in. */
  lemma FinishedStream(events: seq<Event>, decode: Decoder)
    requires Run(events).Some? && Finish(Run(events).value, decode).Some?
    ensures var s, document := Run(events).value, Finish(Run(events).value, decode).value;
            && Contiguous(s)
            && (forall i: nat | i < |s.steps| ::
                  WholeStep(Own(events, i)) && Fold(Own(events, i)) == Some(Some(s.steps[i])))
            && (forall i: nat | i >= |s.steps| :: Own(events, i) == [])
            && Terminal(events).Some?
            && (forall key | key != "steps" :: Get(document, key) == Get(Terminal(events).value, key))
            && (|s.steps| > 0 || Get(Terminal(events).value, "steps") == JNull ==>
                  && Get(document, "steps").JList? && |Get(document, "steps").items| == |s.steps|
                  && forall i | 0 <= i < |s.steps| ::
                     Same(AssembledSteps(s, decode)[i], Get(document, "steps").items[i]))
  {
    Demultiplexed(events);
    var s := Run(events).value;
    NoGap(s);
    hide Run, Own, Advance, Same;
    forall i: nat
      ensures i < |s.steps| ==>
                i in s.steps && WholeStep(Own(events, i)) && Fold(Own(events, i)) == Some(Some(s.steps[i]))
      ensures i >= |s.steps| ==> Own(events, i) == []
    {
      assert Fold(Own(events, i)) == Some(StepOf(s, i));
      FoldShape(Own(events, i));
    }
    hide Fold;
    forall i | 0 <= i < |s.steps|
      ensures Same(AssembledSteps(s, decode)[i], AssembledSteps(s, decode)[i])
    {
      SameReflexive(AssembledSteps(s, decode)[i]);
    }
  }

  // ---- terminal steps that nothing was compared with ----

  predicate Starts(events: seq<Event>) {
    exists k :: 0 <= k < |events| && events[k].Start?
  }

  /** Steps come from start events only, and every accepted start event leaves one. */
  lemma {:induction false} StartedIff(events: seq<Event>)
    requires Run(events).Some?
    ensures Run(events).value.steps != map[] <==> Starts(events)
  {
    if events != [] {
      var n := |events| - 1;
      StartedIff(events[..n]);
      var before, after, e := Run(events[..n]).value, Run(events).value, events[n];
      hide AddDelta, Fails;
      if Starts(events[..n]) {
        var k :| 0 <= k < n && events[..n][k].Start?;
        assert events[k].Start?;
      }
      if Indexed(e) {
        var i: nat := e.index.i;
        assert i in after.steps;
      }
      if k :| 0 <= k < |events| && events[k].Start? {
        assert k == n || events[..n][k].Start?;
      }
    }
  }

  /** The steps of the document are the assembled ones. */
  predicate StepsAgree(s: State, document: Object, decode: Decoder)
    requires Contiguous(s)
  {
    var steps := Get(document, "steps");
    && steps.JList? && |steps.items| == |s.steps|
    && forall i | 0 <= i < |s.steps| :: Same(AssembledSteps(s, decode)[i], steps.items[i])
  }

  /** The steps of the returned document are the assembled ones if and only if some step was started
      or the terminal event gives no steps; steps given without a start event are not looked at. */
  lemma StepsAgreeIff(events: seq<Event>, decode: Decoder)
    requires Run(events).Some? && Finish(Run(events).value, decode).Some?
    ensures Contiguous(Run(events).value) && Terminal(events).Some?
    ensures StepsAgree(Run(events).value, Finish(Run(events).value, decode).value, decode)
            <==> Starts(events) || Get(Terminal(events).value, "steps") in {JNull, JList([])}
  {
    var s := Run(events).value;
    StartedIff(events);
    FinishedStream(events, decode);
    hide Run, Own, Advance, Fold, Same, Starts;
    assert |s.steps.Keys| == |s.steps|;
    assert s.steps == map[] <==> |s.steps| == 0;
    var observed := AssembledSteps(s, decode);
    forall i | 0 <= i < |observed|
      ensures Same(observed[i], observed[i])
    {
      SameReflexive(observed[i]);
    }
  }

  /** A stream of a terminal event alone, whose step no increment ever announced, is finished. */
  lemma UnannouncedSteps(decode: Decoder)
    ensures var events := [Completed(JObject(map["steps" := JList([JObject(map["type" := JText("model_output")])])]))];
            && Run(events).Some? && Finish(Run(events).value, decode).Some? && Contiguous(Run(events).value)
            && AssembledSteps(Run(events).value, decode) == []
            && !StepsAgree(Run(events).value, Finish(Run(events).value, decode).value, decode)
  {
    var given := JList([JObject(map["type" := JText("model_output")])]);
    var events := [Completed(JObject(map["steps" := given]))];
    assert events[..0] == [] && Run([]) == Some(State(map[], None));
    assert Run(events) == Add(State(map[], None), events[0]);
    assert |given.items| == 1;
  }

  // ---- the stream as the source keeps it ----

  class Assembler {
    var steps: map<nat, Object>
    var stopped: set<nat>
    var arguments: map<nat, string>
    var completed: Option<Object>

    ghost predicate Valid()
      reads this
    {
      stopped <= steps.Keys && arguments.Keys <= steps.Keys
    }

    ghost function Contents(): State
      reads this
    {
      State(map i | i in steps :: Step(steps[i], if i in arguments then Some(arguments[i]) else None, i in stopped),
            completed)
    }

    constructor ()
      ensures Valid() && Run([]) == Some(Contents())
    {
      steps, stopped, arguments, completed := map[], {}, map[], None;
    }

    /** add; false when it raises, after which the stream is not used again. */
    method AddEvent(e: Event) returns (ok: bool)
      requires Valid()
      modifies this
      ensures Valid()
      ensures ok ==> Add(old(Contents()), e) == Some(Contents())
      ensures !ok ==> Add(old(Contents()), e).None?
    {
      hide Fails, AddDelta;
      if completed.Some? || !Acceptable(e) {
        return false;
      }
      if e.Completed? {
        completed := Some(e.interaction.fields);
        assert Contents().steps == old(Contents()).steps;
        return true;
      }
      if !Indexed(e) {
        return true;
      }
      var i: nat := e.index.i;
      ok := AddStepEvent(i, e);
    }

    method AddStepEvent(i: nat, e: Event) returns (ok: bool)
      requires Valid() && completed.None? && Indexed(e) && e.index == JInt(i)
      modifies this`steps, this`stopped, this`arguments
      ensures Valid()
      ensures ok <==> Advance(StepOf(old(Contents()), i), e).Some?
      ensures ok ==> Contents() == State(old(Contents()).steps[i := Advance(StepOf(old(Contents()), i), e).value], None)
    {
      hide AddDelta;
      match e {
        case Start(_, step) =>
          if i in steps || !step.JObject? {
            return false;
          }
          steps := steps[i := step.fields];
          ok := true;
        case Stop(_) =>
          if i !in steps || i in stopped {
            return false;
          }
          stopped := stopped + {i};
          ok := true;
        case Delta(_, delta) =>
          if i !in steps || i in stopped {
            return false;
          }
          ok := AddStepDelta(i, delta);
      }
    }

    method AddStepDelta(i: nat, delta: Json) returns (ok: bool)
      requires Valid() && i in steps && i !in stopped
      modifies this`steps, this`arguments
      ensures Valid()
      ensures ok <==> AddDelta(old(Contents()).steps[i], delta).Some?
      ensures ok ==>
                var before := old(Contents());
                Contents() == before.(steps := before.steps[i := AddDelta(before.steps[i], delta).value])
    {
      hide AddDelta;
      var before := Step(steps[i], if i in arguments then Some(arguments[i]) else None, false);
      var after := AddDelta(before, delta);
      DeltaParts(before, delta);
      if after.None? {
        return false;
      }
      steps := steps[i := after.value.content];
      if after.value.arguments.Some? {
        arguments := arguments[i := after.value.arguments.value];
      }
      ok := true;
    }

    /** finish; None when it raises. */
    method FinishStream(decode: Decoder) returns (r: Option<Object>)
      requires Valid()
      ensures r == Finish(Contents(), decode)
    {
      hide Same, Assemble;
      ghost var s := Contents();
      assert s.steps.Keys == steps.Keys;
      SameCardinality(s.steps, steps);
      if completed.None? {
        return None;
      }
      if steps.Keys != stopped || exists i | i in steps :: i >= |steps| {
        assert !Contiguous(s);
        return None;
      }
      assert Contiguous(s);
      var observed := DecodeArguments(decode);
      var document, given := completed.value, Get(completed.value, "steps");
      if given == JNull {
        return Some(document["steps" := JList(observed)]);
      }
      if observed != [] {
        if !given.JList? || |given.items| != |observed| {
          return None;
        }
        var same := AllSame(observed, given.items);
        if !same {
          return None;
        }
      }
      r := Some(document);
    }

    method DecodeArguments(decode: Decoder) returns (observed: seq<Json>)
      requires Valid() && Contiguous(Contents())
      ensures observed == AssembledSteps(Contents(), decode)
    {
      ghost var s := Contents();
      assert s.steps.Keys == steps.Keys;
      SameCardinality(s.steps, steps);
      NoGap(s);
      observed := [];
      for i := 0 to |steps|
        invariant |observed| == i
        invariant forall k | 0 <= k < i :: k in s.steps && observed[k] == Assemble(s.steps[k], decode)
      {
        assert i in s.steps;
        var step := steps[i];
        if i in arguments {
          var decoded := decode(arguments[i]);
          step := step["arguments" := if decoded.Some? then JObject(decoded.value) else JText(arguments[i])];
        }
        observed := observed + [JObject(step)];
      }
    }
  }

  method AllSame(a: seq<Json>, b: seq<Json>) returns (same: bool)
    requires |a| == |b|
    ensures same <==> forall i | 0 <= i < |a| :: Same(a[i], b[i])
  {
    hide Same;
    for i := 0 to |a|
      invariant forall k | 0 <= k < i :: Same(a[k], b[k])
    {
      if !Same(a[i], b[i]) {
        return false;
      }
    }
    same := true;
  }

  lemma DeltaParts(s: Step, delta: Json)
    ensures AddDelta(s, delta).Some? ==> AddDelta(s, delta).value.stopped == s.stopped
    ensures AddDelta(s, delta).Some? && s.arguments.Some? ==> AddDelta(s, delta).value.arguments.Some?
  {}

  lemma SameCardinality<A, B>(a: map<nat, A>, b: map<nat, B>)
    requires a.Keys == b.Keys
    ensures |a| == |b|
  {
    assert |a.Keys| == |a| && |b.Keys| == |b|;
  }
}
