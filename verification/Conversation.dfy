/** The agent's turn loop over a two-phase conversation (fsq_agent/agent_engine/_runner.py:41-72,
    99-183, fsq_agent/agent_engine/_openai_backend.py:212-282, fsq_agent/agent_engine/_context.py,
    fsq_agent/agent_engine/_backend.py:55-67). The model's answers, the outcomes of tools, the order
    in which tools complete and cancellation are nondeterministic choices (`*`). */
module Conversation {
  import opened Wrappers

  datatype Item =
    | Input(content: string)
    | Message(text: string)
    | Call(name: Option<string>, callId: Option<string>, arguments: string)
    | Reasoning(summary: string)
    | Output(ofCall: string, output: string)

  datatype Usage = Usage(input: nat, output: nat, total: nat, requests: nat, cached: Option<nat>,
                         reasoning: Option<nat>)

  datatype Turn = Turn(text: string, calls: seq<Item>, usage: Option<Usage>, requiresContinuation: bool,
                       finalization: bool)

  type Task = nat

  /** What is observed of a run: each model request with the history at that moment, what was sent,
      whether tools were advertised, and which tool tasks were running; each tool invocation. */
  datatype Event =
    | Requested(history: seq<Item>, sent: seq<Item>, finalization: bool, toolsOffered: bool, running: set<Task>)
    | Invoked(call: Item)

  // ---- usage ----

  function AddOption(a: Option<nat>, b: Option<nat>): Option<nat> {
    if a.Some? && b.Some? then Some(a.value + b.value) else None
  }

  /** add_usage */
  function AddUsage(total: Option<Usage>, measured: Option<Usage>): Option<Usage> {
    if total.None? then measured
    else if measured.None? then total
    else
      Some(Usage(total.value.input + measured.value.input, total.value.output + measured.value.output,
                 total.value.total + measured.value.total, total.value.requests + measured.value.requests,
                 AddOption(total.value.cached, measured.value.cached),
                 AddOption(total.value.reasoning, measured.value.reasoning)))
  }

  /** The turns whose usage was measured. */
  function Measured(turns: seq<Option<Usage>>): seq<Usage> {
    if turns == [] then []
    else Measured(turns[..|turns| - 1]) + if turns[|turns| - 1].Some? then [turns[|turns| - 1].value] else []
  }

  datatype Counter = InputTokens | OutputTokens | TotalTokens | Requests

  datatype OptionalCounter = CachedTokens | ReasoningTokens

  function Count(u: Usage, c: Counter): nat {
    match c
    case InputTokens => u.input
    case OutputTokens => u.output
    case TotalTokens => u.total
    case Requests => u.requests
  }

  function OptionalCount(u: Usage, c: OptionalCounter): Option<nat> {
    match c
    case CachedTokens => u.cached
    case ReasoningTokens => u.reasoning
  }

  function Sum(usages: seq<Usage>, c: Counter): nat {
    if usages == [] then 0 else Sum(usages[..|usages| - 1], c) + Count(usages[|usages| - 1], c)
  }

  predicate AllReport(usages: seq<Usage>, c: OptionalCounter) {
    forall i | 0 <= i < |usages| :: OptionalCount(usages[i], c).Some?
  }

  function SumReported(usages: seq<Usage>, c: OptionalCounter): nat
    requires AllReport(usages, c)
  {
    if usages == [] then 0 else SumReported(usages[..|usages| - 1], c) + OptionalCount(usages[|usages| - 1], c).value
  }

  /** An optional count is known when every measured turn reports it. */
  function SumOptional(usages: seq<Usage>, c: OptionalCounter): Option<nat> {
    if AllReport(usages, c) then Some(SumReported(usages, c)) else None
  }

  /** The sum over the measured turns, None when there is none. */
  function TotalUsage(turns: seq<Option<Usage>>): Option<Usage> {
    var m := Measured(turns);
    if m == [] then None
    else Some(Usage(Sum(m, InputTokens), Sum(m, OutputTokens), Sum(m, TotalTokens), Sum(m, Requests),
                    SumOptional(m, CachedTokens), SumOptional(m, ReasoningTokens)))
  }

  lemma SumOptionalSnoc(usages: seq<Usage>, u: Usage, c: OptionalCounter)
    ensures usages != [] ==> SumOptional(usages + [u], c) == AddOption(SumOptional(usages, c), OptionalCount(u, c))
    ensures SumOptional([u], c) == OptionalCount(u, c)
  {
    var more := usages + [u];
    assert more[..|usages|] == usages && more[|usages|] == u;
    assert forall i | 0 <= i < |usages| :: more[i] == usages[i];
    assert [u][0] == u && [u][..0] == [];
    if OptionalCount(u, c).Some? {
      assert AllReport([u], c);
      assert SumReported([u], c) == SumReported([], c) + OptionalCount(u, c).value;
    }
  }

  lemma SumSnoc(usages: seq<Usage>, u: Usage, c: Counter)
    ensures Sum(usages + [u], c) == Sum(usages, c) + Count(u, c)
  {
    assert (usages + [u])[..|usages|] == usages;
  }

  /** Adding turn by turn gives the sum over all of them. */
  lemma AddIsTotal(turns: seq<Option<Usage>>, next: Option<Usage>)
    ensures TotalUsage(turns + [next]) == AddUsage(TotalUsage(turns), next)
  {
    assert (turns + [next])[..|turns|] == turns;
    if next.Some? {
      var m, u := Measured(turns), next.value;
      assert (m + [u])[..|m|] == m;
      SumOptionalSnoc(m, u, CachedTokens);
      SumOptionalSnoc(m, u, ReasoningTokens);
      SumSnoc(m, u, InputTokens);
      SumSnoc(m, u, OutputTokens);
      SumSnoc(m, u, TotalTokens);
      SumSnoc(m, u, Requests);
      if m == [] {
        assert m + [u] == [u];
      }
      hide SumOptional, Sum;
    } else {
      assert Measured(turns + [next]) == Measured(turns);
    }
  }

  lemma NoTurns()
    ensures TotalUsage([]) == None && RequestCount([]) == 0 && CallsOf([]) == []
  {}

  // ---- the form of the history ----

  predicate FromModel(item: Item) {
    item.Message? || item.Call? || item.Reasoning?
  }

  function CallsOf(items: seq<Item>): seq<Item> {
    if items == [] then []
    else CallsOf(items[..|items| - 1]) + if items[|items| - 1].Call? then [items[|items| - 1]] else []
  }

  /** One turn: the model's items, then one output per call of the turn, in the order of the calls. */
  datatype Block = Block(items: seq<Item>, outputs: seq<Item>)

  predicate Answers(output: Item, call: Item) {
    output.Output? && call.Call? && call.callId == Some(output.ofCall)
  }

  predicate Answered(b: Block) {
    var calls := CallsOf(b.items);
    && (forall i | 0 <= i < |b.items| :: FromModel(b.items[i]))
    && |b.outputs| == |calls| && forall i | 0 <= i < |calls| :: Answers(b.outputs[i], calls[i])
  }

  function Flatten(blocks: seq<Block>): seq<Item> {
    if blocks == [] then []
    else Flatten(blocks[..|blocks| - 1]) + blocks[|blocks| - 1].items + blocks[|blocks| - 1].outputs
  }

  ghost predicate HistoryOf(input: seq<Item>, history: seq<Item>, blocks: seq<Block>) {
    history == input + Flatten(blocks) && forall i | 0 <= i < |blocks| :: Answered(blocks[i])
  }

  /** The history is the input followed by answered turns. */
  ghost predicate WellFormed(input: seq<Item>, history: seq<Item>) {
    exists blocks :: HistoryOf(input, history, blocks)
  }

  lemma {:induction false} CallsOfBoth(a: seq<Item>, b: seq<Item>)
    ensures CallsOf(a + b) == CallsOf(a) + CallsOf(b)
  {
    if b == [] {
      assert a + b == a;
    } else {
      CallsOfBoth(a, b[..|b| - 1]);
      assert (a + b)[..|a + b| - 1] == a + b[..|b| - 1];
    }
  }

  lemma {:induction false} OutputsAreNoCalls(items: seq<Item>)
    requires forall i | 0 <= i < |items| :: items[i].Output?
    ensures CallsOf(items) == []
  {
    if items != [] {
      OutputsAreNoCalls(items[..|items| - 1]);
    }
  }

  /** The calls of a turn come after those of the turns before; outputs add none. */
  lemma CallsGrow(input: seq<Item>, before: seq<Item>, items: seq<Item>, outputs: seq<Item>)
    requires |input| <= |before| && forall i | 0 <= i < |outputs| :: outputs[i].Output?
    ensures CallsOf((before + items + outputs)[|input|..]) == CallsOf(before[|input|..]) + CallsOf(items)
    ensures CallsOf((before + items)[|input|..]) == CallsOf(before[|input|..]) + CallsOf(items)
  {
    OutputsAreNoCalls(outputs);
    CallsOfBoth(before[|input|..], items);
    CallsOfBoth(before[|input|..] + items, outputs);
    assert (before + items + outputs)[|input|..] == before[|input|..] + items + outputs;
    assert (before + items)[|input|..] == before[|input|..] + items;
  }

  lemma OneMoreTurn(input: seq<Item>, history: seq<Item>, b: Block)
    requires WellFormed(input, history) && Answered(b)
    ensures WellFormed(input, history + b.items + b.outputs)
  {
    var blocks :| HistoryOf(input, history, blocks);
    var more := blocks + [b];
    assert more[..|blocks|] == blocks;
    assert Flatten(more) == Flatten(blocks) + b.items + b.outputs;
    assert history + b.items + b.outputs == input + Flatten(more);
    assert HistoryOf(input, history + b.items + b.outputs, more);
  }

  /** What is sent is the history, except that the text of some tool outputs is replaced. */
  predicate OnlyOutputsReplaced(history: seq<Item>, sent: seq<Item>) {
    && |sent| == |history|
    && forall i | 0 <= i < |history| ::
       sent[i] == history[i] || (history[i].Output? && sent[i].Output? && sent[i].ofCall == history[i].ofCall)
  }

  // ---- laws of the event log ----

  function RequestCount(log: seq<Event>): nat {
    if log == [] then 0 else RequestCount(log[..|log| - 1]) + if log[|log| - 1].Requested? then 1 else 0
  }

  /** The calls that were invoked, in order. */
  function Invocations(log: seq<Event>): seq<Item> {
    if log == [] then [] else Invocations(log[..|log| - 1]) + if log[|log| - 1].Invoked? then [log[|log| - 1].call]
    else []
  }

  /** Every call that the model made was invoked, once and in order. */
  predicate AllInvoked(input: seq<Item>, log: seq<Event>, history: seq<Item>) {
    |input| <= |history| && Invocations(log) == CallsOf(history[|input|..])
  }

  /** What was invoked is the first so many of the calls that the model made. */
  predicate OnlyCalled(input: seq<Item>, log: seq<Event>, history: seq<Item>) {
    |input| <= |history| && Invocations(log) <= CallsOf(history[|input|..])
  }

  ghost predicate LogSafe(input: seq<Item>, log: seq<Event>) {
    RequestsSafe(input, log) && AppendOnly(log) && NothingAfterFinalization(log) && InvokedBefore(input, log)
  }

  /** At each request every call of its history has been invoked. */
  predicate InvokedBefore(input: seq<Item>, log: seq<Event>) {
    forall i | 0 <= i < |log| && log[i].Requested? :: AllInvoked(input, log[..i], log[i].history)
  }

  ghost predicate RequestsSafe(input: seq<Item>, log: seq<Event>) {
    forall i | 0 <= i < |log| && log[i].Requested? :: RequestSafe(input, log[i])
  }

  /** Each request has the histories of all earlier ones as prefixes of its own. */
  predicate AppendOnly(log: seq<Event>) {
    forall i, j | 0 <= i < j < |log| && log[i].Requested? && log[j].Requested? :: log[i].history <= log[j].history
  }

  /** Once a finalization was requested no tool is invoked. */
  predicate NothingAfterFinalization(log: seq<Event>) {
    forall i, j | 0 <= i < j < |log| && log[i].Requested? && log[i].finalization :: !log[j].Invoked?
  }

  ghost predicate RequestSafe(input: seq<Item>, e: Event)
    requires e.Requested?
  {
    && WellFormed(input, e.history) && OnlyOutputsReplaced(e.history, e.sent)
    && (e.finalization ==> !e.toolsOffered) && e.running == {}
  }

  ghost predicate NoFinalization(log: seq<Event>) {
    forall i | 0 <= i < |log| :: log[i].Requested? ==> !log[i].finalization
  }

  lemma AppendOnlyMore(log: seq<Event>, e: Event)
    requires AppendOnly(log)
    requires e.Requested? ==> forall i | 0 <= i < |log| && log[i].Requested? :: log[i].history <= e.history
    ensures AppendOnly(log + [e])
  {
    var more := log + [e];
    forall i, j | 0 <= i < j < |more| && more[i].Requested? && more[j].Requested?
      ensures more[i].history <= more[j].history
    {
      assert more[i] == log[i];
      if j < |log| {
        assert more[j] == log[j];
      }
    }
  }

  lemma NothingAfterMore(log: seq<Event>, e: Event)
    requires NothingAfterFinalization(log) && (e.Invoked? ==> NoFinalization(log))
    ensures NothingAfterFinalization(log + [e])
    ensures NoFinalization(log) && (e.Requested? ==> !e.finalization) ==> NoFinalization(log + [e])
  {
    var more := log + [e];
    assert more[|log|] == e && forall i | 0 <= i < |log| :: more[i] == log[i];
  }

  lemma InvokedBeforeMore(input: seq<Item>, log: seq<Event>, e: Event)
    requires InvokedBefore(input, log) && (e.Requested? ==> AllInvoked(input, log, e.history))
    ensures InvokedBefore(input, log + [e])
  {
    hide AllInvoked;
    var more := log + [e];
    forall i | 0 <= i < |more| && more[i].Requested?
      ensures AllInvoked(input, more[..i], more[i].history)
    {
      assert more[..i] == log[..i];
      assert log[..|log|] == log;
    }
  }

  lemma RequestsSafeMore(input: seq<Item>, log: seq<Event>, e: Event)
    requires RequestsSafe(input, log) && (e.Requested? ==> RequestSafe(input, e))
    ensures RequestsSafe(input, log + [e])
  {
    hide RequestSafe;
    var more := log + [e];
    assert more[|log|] == e && forall i | 0 <= i < |log| :: more[i] == log[i];
  }

  lemma LogEvent(input: seq<Item>, log: seq<Event>, e: Event)
    requires LogSafe(input, log)
    requires e.Requested? ==> RequestSafe(input, e) && forall i | 0 <= i < |log| && log[i].Requested? ::
               log[i].history <= e.history
    requires e.Requested? ==> AllInvoked(input, log, e.history)
    requires e.Invoked? ==> NoFinalization(log)
    ensures LogSafe(input, log + [e])
    ensures Invocations(log + [e]) == Invocations(log) + if e.Invoked? then [e.call] else []
    ensures NoFinalization(log) && (e.Requested? ==> !e.finalization) ==> NoFinalization(log + [e])
    ensures RequestCount(log + [e]) == RequestCount(log) + if e.Requested? then 1 else 0
  {
    assert (log + [e])[..|log|] == log;
    RequestsSafeMore(input, log, e);
    AppendOnlyMore(log, e);
    NothingAfterMore(log, e);
    InvokedBeforeMore(input, log, e);
    hide RequestsSafe, AppendOnly, NothingAfterFinalization, NoFinalization, InvokedBefore, AllInvoked;
  }

  // ---- tool tasks ----

  datatype TaskOutcome = Text(text: string) | TaskFailed | Interrupted

  /** The scope that owns every started tool task. */
  class ToolScope {
    var running: set<Task>
    var outcomes: map<Task, TaskOutcome>
    var next: Task
    /** the call that each task was started for */
    var serves: map<Task, Item>

    constructor ()
      ensures Valid() && running == {}
    {
      running, outcomes, next, serves := {}, map[], 0, map[];
    }

    ghost predicate Valid()
      reads this
    {
      && (forall t | t in running || t in outcomes :: t < next)
      && running !! outcomes.Keys
    }

    method Start(call: Item) returns (t: Task)
      requires Valid()
      modifies this
      ensures Valid() && running == old(running) + {t} && outcomes == old(outcomes) && t !in old(running)
      ensures t !in old(outcomes)
      ensures serves == old(serves)[t := call]
    {
      t := next;
      running, next, serves := running + {t}, next + 1, serves[t := call];
    }

    /** asyncio.wait(..., FIRST_COMPLETED): some of the pending tasks end; false when the waiting
        itself is cancelled. */
    method Wait(pending: set<Task>) returns (ok: bool, completed: set<Task>)
      requires Valid() && pending != {} && pending <= running
      modifies this`running, this`outcomes
      ensures Valid() && running == old(running) - completed && completed <= pending
      ensures outcomes.Keys == old(outcomes).Keys + completed
      ensures forall t | t in old(outcomes) :: outcomes[t] == old(outcomes)[t]
      ensures ok ==> completed != {}
      ensures !ok ==> completed == {}
    {
      ok, completed := *, {};
      if !ok {
        return;
      }
      var first :| first in pending;
      var others: set<Task> := *;
      completed := {first} + others * pending;
      EndTasks(completed);
    }

    ghost predicate Delivered(t: Task, text: string)
      reads this
    {
      t !in running && t in outcomes && outcomes[t] == Text(text)
    }

    /** The task was started for the call and returned the text. */
    ghost predicate Served(t: Task, call: Item, text: string)
      reads this
    {
      t in serves && serves[t] == call && Delivered(t, text)
    }

    /** _tool_results: the texts in the order of the tasks, whatever the order of completion; None
        when a task failed or was interrupted, or the waiting was cancelled. */
    method ToolResults(tasks: seq<Task>) returns (r: Option<seq<string>>)
      requires Valid() && forall i | 0 <= i < |tasks| :: tasks[i] in running
      modifies this`running, this`outcomes
      ensures Valid() && running <= old(running)
      ensures r.Some? ==> |r.value| == |tasks| && forall i | 0 <= i < |tasks| :: Delivered(tasks[i], r.value[i])
    {
      var pending: set<Task> := set t | t in tasks;
      while pending != {}
        invariant Valid() && running <= old(running) && pending <= running
        invariant forall i | 0 <= i < |tasks| :: tasks[i] in pending || Succeeded(tasks[i])
        decreases |pending|
      {
        ghost var before := pending;
        var ok, completed := Wait(pending);
        if !ok {
          return None;
        }
        pending := pending - completed;
        Fewer(before, completed);
        var fine := AllSucceeded(tasks, completed);
        if !fine {
          return None;
        }
      }
      var texts := Texts(tasks);
      r := Some(texts);
    }

    predicate Succeeded(t: Task)
      reads this
    {
      t !in running && t in outcomes && outcomes[t].Text?
    }

    /** Whether the tasks that have just completed all returned a text. */
    method AllSucceeded(tasks: seq<Task>, completed: set<Task>) returns (ok: bool)
      requires Valid() && completed <= outcomes.Keys
      ensures ok ==> forall i | 0 <= i < |tasks| && tasks[i] in completed :: Succeeded(tasks[i])
    {
      for i := 0 to |tasks|
        invariant forall k | 0 <= k < i && tasks[k] in completed :: Succeeded(tasks[k])
      {
        if tasks[i] in completed && !outcomes[tasks[i]].Text? {
          return false;
        }
      }
      ok := true;
    }

    method Texts(tasks: seq<Task>) returns (texts: seq<string>)
      requires forall i | 0 <= i < |tasks| :: Succeeded(tasks[i])
      ensures |texts| == |tasks| && forall i | 0 <= i < |tasks| :: Delivered(tasks[i], texts[i])
    {
      texts := [];
      for i := 0 to |tasks|
        invariant |texts| == i && forall k | 0 <= k < i :: Delivered(tasks[k], texts[k])
      {
        texts := texts + [outcomes[tasks[i]].text];
      }
    }

    /** The end of the scope. The tasks that are then running are cancelled when the scope is left by
        an exception, and joined; a cancellation of the joining cancels those still running and goes on
        joining. A wait that is not cancelled ends when all of them have ended. */
    method Join(primary: bool) returns (interrupted: bool, ghost cancelled: set<Task>)
      requires Valid()
      modifies this`running, this`outcomes
      ensures Valid() && running == {} && outcomes.Keys == old(outcomes).Keys + old(running)
      ensures forall t | t in old(outcomes) :: outcomes[t] == old(outcomes)[t]
      ensures primary ==> cancelled == old(running)
      ensures interrupted ==> old(running) != {}
      ensures !primary && !interrupted ==> cancelled == {}
    {
      var pending := running;
      interrupted, cancelled := false, if primary then pending else {};
      var cancellations: nat :| cancellations >= 0;
      while pending * running != {}
        invariant Valid() && running <= pending == old(running)
        invariant outcomes.Keys == old(outcomes).Keys + (pending - running)
        invariant forall t | t in old(outcomes) :: outcomes[t] == old(outcomes)[t]
        invariant primary ==> cancelled == pending
        invariant interrupted ==> pending != {}
        invariant !primary && !interrupted ==> cancelled == {}
        invariant cancelled <= pending
        decreases running != {}, cancellations
      {
        if cancellations == 0 {
          EndTasks(running);
        } else {
          var ended: set<Task> := *;
          EndTasks(ended * running);
          cancellations, interrupted, cancelled := cancellations - 1, true, cancelled + running;
        }
      }
    }

    method EndTasks(ended: set<Task>)
      requires Valid() && ended <= running
      modifies this`running, this`outcomes
      ensures Valid() && running == old(running) - ended && outcomes.Keys == old(outcomes).Keys + ended
      ensures forall t | t in old(outcomes) :: outcomes[t] == old(outcomes)[t]
    {
      var ends: map<Task, TaskOutcome> := *;
      outcomes := outcomes + map t | t in ended :: if t in ends then ends[t] else Interrupted;
      running := running - ended;
    }
  }

  lemma Fewer(a: set<Task>, b: set<Task>)
    requires b <= a && b != {}
    ensures |a - b| < |a|
  {
    assert a == (a - b) + b;
    assert |(a - b) + b| == |a - b| + |b|;
    var x :| x in b;
    assert |b| == |b - {x}| + 1;
  }

  // ---- the conversation ----

  /** A tool output that a filter may replace: its place in the history and the tool it came from. */
  datatype Entry = Entry(id: nat, callId: string, name: Option<string>, output: string)

  /** The name of the last call with the given id. */
  function NameOf(history: seq<Item>, callId: string): Option<string> {
    if history == [] then None
    else
      var last := history[|history| - 1];
      if last.Call? && last.callId == Some(callId) then last.name else NameOf(history[..|history| - 1], callId)
  }

  function Names(history: seq<Item>): map<string, Option<string>> {
    if history == [] then map[]
    else
      var last := history[|history| - 1];
      if last.Call? && last.callId.Some? then Names(history[..|history| - 1])[last.callId.value := last.name]
      else Names(history[..|history| - 1])
  }

  lemma {:induction false} NamesFindLast(history: seq<Item>, callId: string)
    ensures (if callId in Names(history) then Names(history)[callId] else None) == NameOf(history, callId)
  {
    if history != [] {
      NamesFindLast(history[..|history| - 1], callId);
    }
  }

  /** The entries are exactly the tool outputs of the history, in order. */
  predicate Lists(entries: seq<Entry>, history: seq<Item>) {
    && (forall i | 0 <= i < |entries| ::
          && entries[i].id < |history| && history[entries[i].id] == Output(entries[i].callId, entries[i].output)
          && entries[i].name == NameOf(history, entries[i].callId))
    && (forall i, j | 0 <= i < j < |entries| :: entries[i].id < entries[j].id)
    && (forall k | 0 <= k < |history| && history[k].Output? :: exists i :: 0 <= i < |entries| && entries[i].id == k)
  }

  function FilteredInput(history: seq<Item>, replacements: map<nat, string>): (r: seq<Item>)
    requires forall k | k in replacements :: k < |history| && history[k].Output?
    ensures OnlyOutputsReplaced(history, r)
    ensures forall k | 0 <= k < |history| ::
              r[k] == if k in replacements then history[k].(output := replacements[k]) else history[k]
  {
    seq(|history|,
        k requires 0 <= k < |history| => if k in replacements then history[k].(output := replacements[k])
            else history[k])
  }

  /** The text of the last message of a turn. */
  function LastText(items: seq<Item>): (r: string)
    ensures || ((forall i | 0 <= i < |items| :: !items[i].Message?) && r == "")
            || exists k :: 0 <= k < |items| && items[k].Message? && r == items[k].text
                           && forall i | k < i < |items| :: !items[i].Message?
  {
    if items == [] then ""
    else if items[|items| - 1].Message? then items[|items| - 1].text
    else
      var before := items[..|items| - 1];
      assert forall i | 0 <= i < |before| :: items[i] == before[i];
      LastText(before)
  }

  class OpenAIConversation {
    const input: seq<Item>
    /** the profile asks for a separate finalization: Kimi, with tools and a structured output */
    const twoPhase: bool
    const hasTools: bool
    var history: seq<Item>
    var finalizing: bool
    ghost var log: seq<Event>

    constructor (input: seq<Item>, kimi: bool, hasTools: bool, structured: bool)
      ensures Valid() && Ready() && log == [] && history == input && !finalizing
      ensures this.input == input && twoPhase == (kimi && hasTools && structured) && this.hasTools == hasTools
    {
      this.input, twoPhase, this.hasTools := input, kimi && hasTools && structured, hasTools;
      history, finalizing, log := input, false, [];
      new;
      assert HistoryOf(input, history, []) by {
        assert Flatten([]) == [];
      }
      assert history[|input|..] == [] && CallsOf([]) == [];
    }

    ghost predicate Valid()
      reads this
    {
      && LogSafe(input, log)
      && (forall i | 0 <= i < |log| && log[i].Requested? :: log[i].history <= history)
      && (finalizing ==> twoPhase)
    }

    /** Between turns: every call invoked and answered, and no finalization requested yet. */
    ghost predicate Ready()
      reads this
    {
      WellFormed(input, history) && NoFinalization(log) && AllInvoked(input, log, history)
    }

    /** tool_outputs */
    method ToolOutputs() returns (entries: seq<Entry>)
      ensures Lists(entries, history)
    {
      var names := Names(history);
      entries := [];
      for k := 0 to |history|
        invariant forall i | 0 <= i < |entries| ::
                    && entries[i].id < k && history[entries[i].id] == Output(entries[i].callId, entries[i].output)
                    && entries[i].name == NameOf(history, entries[i].callId)
        invariant forall i, j | 0 <= i < j < |entries| :: entries[i].id < entries[j].id
        invariant forall m | 0 <= m < k && history[m].Output? :: exists i :: 0 <= i < |entries| && entries[i].id == m
      {
        if history[k].Output? {
          var id := history[k].ofCall;
          NamesFindLast(history, id);
          ghost var before := entries;
          entries := entries + [Entry(k, id, if id in names then names[id] else None, history[k].output)];
          assert entries[|before|].id == k;
          forall m | 0 <= m < k && history[m].Output?
            ensures exists i :: 0 <= i < |entries| && entries[i].id == m
          {
            var i :| 0 <= i < |before| && before[i].id == m;
            assert entries[i].id == m;
          }
        }
      }
    }

    ghost method NoteRequest(sent: seq<Item>, running: set<Task>)
      requires running == {}
      requires Valid() && Ready() && OnlyOutputsReplaced(history, sent)
      modifies this`log
      ensures Valid() && RequestCount(log) == RequestCount(old(log)) + 1 && Invocations(log) == Invocations(old(log))
      ensures log == old(log) + [Requested(history, sent, finalizing, hasTools && !finalizing, running)]
      ensures !finalizing ==> NoFinalization(log)
    {
      hide LogSafe, WellFormed, NoFinalization, AllInvoked, Invocations, RequestCount, OnlyOutputsReplaced;
      var e := Requested(history, sent, finalizing, hasTools && !finalizing, running);
      LogEvent(input, log, e);
      assert (log + [e])[|log|] == e && forall i | 0 <= i < |log| :: (log + [e])[i] == log[i];
      log := log + [e];
    }

    method Extend(items: seq<Item>)
      requires Valid()
      modifies this`history
      ensures Valid() && history == old(history) + items
    {
      hide LogSafe;
      history := history + items;
    }

    /** _read_response and response_items: items of the known kinds, or an error. */
    method Respond() returns (ok: bool, items: seq<Item>)
      ensures ok ==> forall i | 0 <= i < |items| :: FromModel(items[i])
    {
      ok, items := *, *;
      ok := ok && forall i | 0 <= i < |items| :: FromModel(items[i]);
    }

    method BeginFinalization()
      requires Valid() && twoPhase
      modifies this`finalizing
      ensures Valid() && finalizing
    {
      hide LogSafe;
      finalizing := true;
    }

    /** request; None when it raises. */
    method Request(replacements: map<nat, string>, ghost running: set<Task>)
      returns (r: Option<Turn>, ghost items: seq<Item>)
      requires Valid() && Ready() && running == {}
      requires forall k | k in replacements :: k < |history| && history[k].Output?
      modifies this
      ensures Valid() && RequestCount(log) == RequestCount(old(log)) + 1
      ensures log == old(log) + [Requested(old(history), FilteredInput(old(history), replacements), old(finalizing),
                                           hasTools && !old(finalizing), running)]
      ensures !old(finalizing) ==> NoFinalization(log)
      ensures Invocations(log) == Invocations(old(log))
      ensures r.None? ==> history == old(history) && finalizing == old(finalizing)
      ensures r.Some? ==>
                && history == old(history) + items && (forall i | 0 <= i < |items| :: FromModel(items[i]))
                && r.value.calls == CallsOf(items) && r.value.text == LastText(items)
                && finalizing == (old(finalizing) || (twoPhase && CallsOf(items) == [] && LastText(items) != ""))
                && r.value.finalization == old(finalizing)
                   && r.value.requiresContinuation == (twoPhase && !old(finalizing))
    {
      hide *;
      var sent := FilteredInput(history, replacements);
      NoteRequest(sent, running);
      var answered, answer := Respond();
      items := answer;
      if !answered {
        return None, items;
      }
      var usage: Option<Usage> := *;
      Extend(answer);
      var text, calls, finalization := LastText(answer), CallsOf(answer), finalizing;
      if twoPhase && !finalizing && calls == [] && text != "" {
        BeginFinalization();
      }
      r := Some(Turn(text, calls, usage, twoPhase && !finalization, finalization));
    }

    /** add_tool_output */
    method AddToolOutput(callId: string, output: string)
      requires Valid()
      modifies this`history
      ensures Valid() && history == old(history) + [Output(callId, output)]
    {
      history := history + [Output(callId, output)];
    }

    ghost method NoteInvocation(call: Item)
      requires Valid() && NoFinalization(log)
      modifies this`log
      ensures Valid() && NoFinalization(log) && RequestCount(log) == RequestCount(old(log))
      ensures log == old(log) + [Invoked(call)]
      ensures Invocations(log) == Invocations(old(log)) + [call]
    {
      hide LogSafe, NoFinalization, Invocations;
      LogEvent(input, log, Invoked(call));
      assert forall i | 0 <= i < |log| :: (log + [Invoked(call)])[i] == log[i];
      log := log + [Invoked(call)];
    }
  }

  datatype Outcome = Finished(text: string) | Raised(reason: string)

  /** The agent's loop over its turns. */
  class Runner {
    const conversation: OpenAIConversation
    const scope: ToolScope
    const tools: set<string>
    const structured: bool

    constructor (conversation: OpenAIConversation, scope: ToolScope, tools: set<string>, structured: bool)
      ensures this.conversation == conversation && this.scope == scope && this.tools == tools
      ensures this.structured == structured
    {
      this.conversation, this.scope, this.tools, this.structured := conversation, scope, tools, structured;
    }

    predicate ValidCall(call: Item) {
      call.Call? && call.name.Some? && call.name.value in tools && call.callId.Some? && call.callId.value != ""
    }

    /** Starts one task per call and waits for all of them. */
    method InvokeTools(calls: seq<Item>) returns (outputs: Option<seq<string>>, tasks: seq<Task>)
      requires conversation.Valid() && NoFinalization(conversation.log) && scope.Valid() && scope.running == {}
      requires forall i | 0 <= i < |calls| :: ValidCall(calls[i])
      modifies conversation`log, scope
      ensures conversation.Valid() && NoFinalization(conversation.log) && scope.Valid()
      ensures RequestCount(conversation.log) == RequestCount(old(conversation.log))
      ensures Invocations(conversation.log) == Invocations(old(conversation.log)) + calls
      ensures outputs.Some? ==> scope.running == {}
      ensures outputs.Some? ==> |outputs.value| == |calls| == |tasks| && forall i | 0 <= i < |calls| ::
                scope.Served(tasks[i], calls[i], outputs.value[i])
    {
      hide NoFinalization, Invocations;
      tasks := [];
      for i := 0 to |calls|
        invariant conversation.Valid() && NoFinalization(conversation.log) && scope.Valid() && |tasks| == i
        invariant RequestCount(conversation.log) == RequestCount(old(conversation.log))
        invariant Invocations(conversation.log) == Invocations(old(conversation.log)) + calls[..i]
        invariant forall t | t in scope.running :: t in tasks
        invariant forall k | 0 <= k < i ::
                    tasks[k] in scope.running && tasks[k] in scope.serves && scope.serves[tasks[k]] == calls[k]
      {
        conversation.NoteInvocation(calls[i]);
        var t := scope.Start(calls[i]);
        tasks := tasks + [t];
      }
      outputs := scope.ToolResults(tasks);
    }

    /** Appends the outputs in the order of the calls; false when an event sink raises in between. */
    method AddOutputs(calls: seq<Item>, outputs: seq<string>) returns (ok: bool, ghost added: nat)
      requires conversation.Valid() && |outputs| == |calls| && forall i | 0 <= i < |calls| :: ValidCall(calls[i])
      modifies conversation`history
      ensures conversation.Valid()
      ensures (forall i | 0 <= i < |calls| :: calls[i].Call? && calls[i].callId.Some?)
              && added <= |calls| && (ok ==> added == |calls|)
              && conversation.history == old(conversation.history) + OutputsOf(calls, outputs)[..added]
    {
      assert forall i | 0 <= i < |calls| :: calls[i].Call? && calls[i].callId.Some? by {
        forall i | 0 <= i < |calls|
          ensures calls[i].Call? && calls[i].callId.Some?
        {
          assert ValidCall(calls[i]);
        }
      }
      for i := 0 to |calls|
        invariant conversation.Valid()
        invariant conversation.history == old(conversation.history) + OutputsOf(calls, outputs)[..i]
      {
        conversation.AddToolOutput(calls[i].callId.value, outputs[i]);
        assert OutputsOf(calls, outputs)[..i + 1]
               == OutputsOf(calls, outputs)[..i] + [Output(calls[i].callId.value, outputs[i])];
        var raises: bool := *;
        if raises {
          return false, i + 1;
        }
      }
      ok, added := true, |calls|;
    }

    function OutputsOf(calls: seq<Item>, outputs: seq<string>): (r: seq<Item>)
      requires |outputs| == |calls| && forall i | 0 <= i < |calls| :: calls[i].Call? && calls[i].callId.Some?
      ensures |r| == |calls|
      ensures forall i | 0 <= i < |r| :: r[i] == Output(calls[i].callId.value, outputs[i]) && Answers(r[i], calls[i])
    {
      seq(|calls|, i requires 0 <= i < |calls| => Output(calls[i].callId.value, outputs[i]))
    }

    /** A turn with calls: invoke them all, then record their outputs; true when something raises. */
    method AnswerCalls(calls: seq<Item>, ghost before: seq<Item>, ghost items: seq<Item>) returns (raised: bool)
      requires conversation.Valid() && scope.Valid() && NoFinalization(conversation.log)
      requires WellFormed(conversation.input, before)
      requires scope.running == {}
      requires conversation.history == before + items && calls == CallsOf(items)
      requires AllInvoked(conversation.input, conversation.log, before)
      requires (forall i | 0 <= i < |items| :: FromModel(items[i]))
      requires forall i | 0 <= i < |calls| :: ValidCall(calls[i])
      modifies conversation`log, conversation`history, scope
      ensures conversation.Valid() && scope.Valid()
      ensures RequestCount(conversation.log) == RequestCount(old(conversation.log))
      ensures OnlyCalled(conversation.input, conversation.log, conversation.history)
      ensures !raised ==> conversation.Ready() && scope.running == {}
    {
      hide NoFinalization, WellFormed, LogSafe, Invocations, CallsOf;
      var outputs, _ := InvokeTools(calls);
      CallsGrow(conversation.input, before, items, []);
      if outputs.None? {
        return true;
      }
      var complete, added := AddOutputs(calls, outputs.value);
      CallsGrow(conversation.input, before, items, OutputsOf(calls, outputs.value)[..added]);
      if complete {
        assert OutputsOf(calls, outputs.value)[..added] == OutputsOf(calls, outputs.value);
        TurnDone(before, items, OutputsOf(calls, outputs.value));
      }
      raised := !complete;
    }

    /** The replacements chosen by the caller's filter, None when they do not refer to tool outputs. */
    method Filter() returns (r: Option<map<nat, string>>)
      ensures r.Some? ==> forall k | k in r.value :: k < |conversation.history| && conversation.history[k].Output?
    {
      var entries := conversation.ToolOutputs();
      var chosen: map<nat, string>, filters: bool := *, *;
      if !filters {
        return Some(map[]);
      }
      var known := set i | 0 <= i < |entries| :: entries[i].id;
      r := if chosen.Keys <= known then Some(chosen) else None;
    }

    /** The turns of run_agent, inside the scope of its tool tasks. */
    method Turns(maxTurns: nat)
      returns (o: Outcome, usage: Option<Usage>, ghost turns: seq<Option<Usage>>, ghost last: seq<Item>)
      requires conversation.Valid() && conversation.Ready() && conversation.log == [] && scope.Valid()
      requires scope.running == {}
      requires conversation.twoPhase ==> structured
      modifies conversation, scope
      ensures conversation.Valid() && scope.Valid()
      ensures RequestCount(conversation.log) <= maxTurns
      ensures usage == TotalUsage(turns)
      ensures OnlyCalled(conversation.input, conversation.log, conversation.history)
      ensures o == Raised("max_turns") ==> RequestCount(conversation.log) == maxTurns
      ensures o.Finished? ==>
                |turns| == RequestCount(conversation.log) && Concludes(last, o.text) && scope.running == {}
    {
      hide NoFinalization, WellFormed, LogSafe, CallsOf, LastText, FilteredInput, TotalUsage, AddUsage, RequestCount,
           FromModel, Measured, Invocations;
      usage, turns, last := None, [], [];
      NoTurns();
      for turn := 0 to maxTurns
        invariant conversation.Valid() && conversation.Ready() && scope.Valid() && scope.running == {}
        invariant RequestCount(conversation.log) == turn && |turns| == turn && usage == TotalUsage(turns)
      {
        var replacements := Filter();
        if replacements.None? {
          return Raised("configuration"), usage, turns, last;
        }
        ghost var before := conversation.history;
        var response, items := conversation.Request(replacements.value, scope.running);
        if response.None? {
          return Raised("request"), usage, turns, last;
        }
        var answer := response.value;
        last := items;
        CallsGrow(conversation.input, before, items, []);
        AddIsTotal(turns, answer.usage);
        usage, turns := AddUsage(usage, answer.usage), turns + [answer.usage];
        var raises: bool := *;
        if answer.finalization {
          if raises || answer.calls != [] || !structured {
            return Raised("invalid_output"), usage, turns, last;
          }
          return Finished(answer.text), usage, turns, last;
        }
        if raises || exists i :: 0 <= i < |answer.calls| && !ValidCall(answer.calls[i]) {
          return Raised("invalid_output"), usage, turns, last;
        }
        if answer.calls != [] {
          var raised := AnswerCalls(answer.calls, before, items);
          if raised {
            return Raised("tool"), usage, turns, last;
          }
          continue;
        }
        TurnDone(before, items, []);
        if answer.requiresContinuation {
          continue;
        }
        if !structured {
          return Finished(answer.text), usage, turns, last;
        }
        if answer.text != "" {
          var invalid: bool := *;
          return if invalid then Raised("invalid_output") else Finished(answer.text), usage, turns, last;
        }
      }
      o := Raised("max_turns");
    }

    /** The result is the text of the last turn, which answers the last request and calls no tool. */
    ghost predicate Concludes(last: seq<Item>, text: string)
      reads conversation
    {
      var log := conversation.log;
      && log != [] && log[|log| - 1].Requested? && conversation.history == log[|log| - 1].history + last
      && CallsOf(last) == [] && text == LastText(last)
      && AllInvoked(conversation.input, log, conversation.history)
      && (conversation.twoPhase ==> log[|log| - 1].finalization)
    }

    lemma TurnDone(before: seq<Item>, items: seq<Item>, outputs: seq<Item>)
      requires WellFormed(conversation.input, before)
      requires (forall i | 0 <= i < |items| :: FromModel(items[i])) && |outputs| == |CallsOf(items)|
      requires forall i | 0 <= i < |outputs| :: Answers(outputs[i], CallsOf(items)[i])
      ensures WellFormed(conversation.input, before + items + outputs)
      ensures outputs == [] ==> WellFormed(conversation.input, before + items)
    {
      hide WellFormed;
      OneMoreTurn(conversation.input, before, Block(items, outputs));
      assert outputs == [] ==> before + items + outputs == before + items;
    }

    /** run_agent: the laws of the log hold for every run, and no tool task outlives it. */
    method RunAgent(maxTurns: nat)
      returns (o: Outcome, usage: Option<Usage>, ghost turns: seq<Option<Usage>>, ghost last: seq<Item>)
      requires conversation.Valid() && conversation.Ready() && conversation.log == [] && scope.Valid()
      requires scope.running == {}
      requires conversation.twoPhase ==> structured
      modifies conversation, scope
      ensures scope.running == {}
      ensures OnlyCalled(conversation.input, conversation.log, conversation.history)
      ensures o == Raised("max_turns") ==> RequestCount(conversation.log) == maxTurns
      ensures LogSafe(conversation.input, conversation.log) && RequestCount(conversation.log) <= maxTurns
      ensures usage == TotalUsage(turns)
      ensures o.Finished? ==> |turns| == RequestCount(conversation.log) && Concludes(last, o.text)
    {
      o, usage, turns, last := Turns(maxTurns);
      var _, _ := scope.Join(o.Raised?);
    }
  }
}
