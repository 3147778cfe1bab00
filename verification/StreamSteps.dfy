/** What a streamed step amounts to, in terms of its own events and not of how they are added up
    (fsq_agent/agent_engine/_google_gemini_conversion.py:206-239). */
module StreamSteps {
  import opened Wrappers
  import opened GoogleStream

  // ---- what the events of a step say ----

  predicate IsDelta(e: Event, kind: string) {
    e.Delta? && e.delta.JObject? && Get(e.delta.fields, "type") == JText(kind)
  }

  /** The increments of one kind, in order. */
  function Deltas(own: seq<Event>, kind: string): seq<Object> {
    if own == [] then []
    else
      var e := own[|own| - 1];
      Deltas(own[..|own| - 1], kind) + if IsDelta(e, kind) then [e.delta.fields] else []
  }

  /** The field of an increment; a missing one is the empty text. */
  function FieldOf(d: Object, key: string): Json {
    if key in d then d[key] else JText("")
  }

  function Fields(deltas: seq<Object>, key: string): (r: seq<Json>)
    ensures |r| == |deltas| && forall i | 0 <= i < |r| :: r[i] == FieldOf(deltas[i], key)
  {
    seq(|deltas|, i requires 0 <= i < |deltas| => FieldOf(deltas[i], key))
  }

  /** The texts one after the other; values of other kinds contribute nothing. */
  function Concat(texts: seq<Json>): string {
    if texts == [] then ""
    else
      var t := texts[|texts| - 1];
      Concat(texts[..|texts| - 1]) + if t.JText? then t.s else ""
  }

  /** The elements of lists and the characters of texts, one after the other. */
  function Elements(values: seq<Json>): seq<Json> {
    if values == [] then []
    else
      var v := values[|values| - 1];
      Elements(values[..|values| - 1]) + Iterated(v)
  }

  /** What iterating over a value gives. */
  function Iterated(v: Json): seq<Json> {
    match v
    case JList(items) => items
    case JText(s) => Characters(s)
    case _ => []
  }

  predicate IsNumber(j: Json) {
    j.JBool? || j.JInt? || j.JFloat?
  }

  function NumberOf(j: Json): real {
    match j
    case JBool(b) => if b then 1.0 else 0.0
    case JInt(i) => i as real
    case JFloat(r) => r
    case _ => 0.0
  }

  function Total(values: seq<Json>): real {
    if values == [] then 0.0 else Total(values[..|values| - 1]) + NumberOf(values[|values| - 1])
  }

  function WholeOf(j: Json): int {
    match j
    case JBool(b) => if b then 1 else 0
    case JInt(i) => i
    case _ => 0
  }

  function WholeTotal(values: seq<Json>): int {
    if values == [] then 0 else WholeTotal(values[..|values| - 1]) + WholeOf(values[|values| - 1])
  }

  predicate SomeFloat(values: seq<Json>) {
    exists i :: 0 <= i < |values| && values[i].JFloat?
  }

  /** What a text field that starts as `first` is in the end: texts are concatenated, a list is extended,
      numbers are added, and stay whole as long as all of them are. */
  function Grown(first: Json, more: seq<Json>): Json {
    if more == [] then first
    else
      match first
      case JText(s) => JText(s + Concat(more))
      case JList(items) => JList(items + Elements(more))
      case _ =>
        if first.JFloat? || SomeFloat(more) then JFloat(NumberOf(first) + Total(more))
        else JInt(WholeOf(first) + WholeTotal(more))
  }

  /** A text takes texts, a list takes lists and texts, a number takes numbers, nothing else takes anything. */
  predicate Takes(first: Json, v: Json) {
    match first
    case JText(_) => v.JText?
    case JList(_) => v.JList? || v.JText?
    case _ => IsNumber(first) && IsNumber(v)
  }

  predicate Fits(first: Json, more: seq<Json>) {
    forall i | 0 <= i < |more| :: Takes(first, more[i])
  }

  // ---- the step ----

  /** The elements of the content that text is added to. */
  function Contents(start: Object): seq<Json> {
    if "content" in start && start["content"].JList? && start["content"].items != [] then start["content"].items
    else [JObject(map["type" := JText("text"), "text" := JText("")])]
  }

  predicate TakesText(start: Object) {
    && ("content" in start ==> start["content"].JList?)
    && var last := Contents(start)[|Contents(start)| - 1];
       last.JObject? && "text" in last.fields
  }

  function FirstText(start: Object): Json
    requires TakesText(start)
  {
    Contents(start)[|Contents(start)| - 1].fields["text"]
  }

  predicate GoodDelta(delta: Json) {
    && delta.JObject?
    && var d := delta.fields;
       || (Get(d, "type") == JText("arguments_delta") && FieldOf(d, "arguments").JText?)
       || Get(d, "type") == JText("text")
       || Get(d, "type") == JText("thought_signature")
       || (Get(d, "type") == JText("thought_summary") && Get(d, "content").JObject?)
  }

  function Texts(own: seq<Event>): seq<Json> {
    Fields(Deltas(own, "text"), "text")
  }

  /** The events that make a step: a start with an object, increments of the known kinds that fit, and at
      most one stop, at the end. */
  predicate WellFormed(own: seq<Event>) {
    && own != [] && own[0].Start? && own[0].step.JObject?
    && (forall k | 0 < k < |own| :: own[k].Delta? || (own[k].Stop? && k == |own| - 1))
    && (forall k | 0 < k < |own| && own[k].Delta? :: GoodDelta(own[k].delta))
    && (Texts(own) != [] ==>
          TakesText(own[0].step.fields) && Fits(FirstText(own[0].step.fields), Texts(own)))
    && (Deltas(own, "thought_summary") != [] && "summary" in own[0].step.fields ==>
          own[0].step.fields["summary"].JList?)
  }

  /** The content with its last element's text grown; everything before it is as it was. */
  function TextChange(start: Object, texts: seq<Json>): Option<Json>
    requires texts != [] ==> TakesText(start)
  {
    if texts == [] then None else Some(JList(WithText(Contents(start), Grown(FirstText(start), texts))))
  }

  /** The elements with another text in the last of them. */
  function WithText(items: seq<Json>, text: Json): seq<Json>
    requires items != [] && items[|items| - 1].JObject?
  {
    items[..|items| - 1] + [JObject(items[|items| - 1].fields["text" := text])]
  }

  /** The summary followed by the contents of the summary increments. */
  function SummaryChange(start: Object, summaries: seq<Object>): Option<Json> {
    if summaries == [] then None
    else
      var initial := if "summary" in start && start["summary"].JList? then start["summary"].items else [];
      Some(JList(initial + seq(|summaries|, i requires 0 <= i < |summaries| => Get(summaries[i], "content"))))
  }

  /** The last signature. */
  function SignatureChange(signatures: seq<Object>): Option<Json> {
    if signatures == [] then None else Some(Get(signatures[|signatures| - 1], "signature"))
  }

  function With(fields: Object, key: string, change: Option<Json>): Object {
    if change.None? then fields else fields[key := change.value]
  }

  function Changed(start: Object, text: Option<Json>, summary: Option<Json>, signature: Option<Json>): Object {
    With(With(With(start, "content", text), "summary", summary), "signature", signature)
  }

  /** The text of all argument increments, one after the other. */
  function ArgumentsOf(arguments: seq<Object>): Option<string> {
    if arguments == [] then None else Some(Concat(Fields(arguments, "arguments")))
  }

  /** The step that the events make: the fields of its start, changed in at most three of them, and the text
      of its arguments beside it. */
  function Assembled(own: seq<Event>): Step
    requires WellFormed(own)
  {
    var start := own[0].step.fields;
    Step(Changed(start, TextChange(start, Texts(own)), SummaryChange(start, Deltas(own, "thought_summary")),
                 SignatureChange(Deltas(own, "thought_signature"))),
         ArgumentsOf(Deltas(own, "arguments_delta")),
         own[|own| - 1].Stop?)
  }

  // ---- it is what adding up gives ----

  /** Adding one more value. */
  lemma GrowsByOne(first: Json, more: seq<Json>, v: Json)
    requires Fits(first, more)
    ensures PlusAssign(Grown(first, more), v).Some? <==> Fits(first, more + [v])
    ensures Fits(first, more + [v]) ==> PlusAssign(Grown(first, more), v) == Some(Grown(first, more + [v]))
  {
    hide Grown;
    GrownKind(first, more);
    assert (more + [v])[|more|] == v && forall i | 0 <= i < |more| :: (more + [v])[i] == more[i];
    if Fits(first, more + [v]) {
      match first
      case JText(s) => TextGrows(s, more, v);
      case JList(items) => ListGrows(items, more, v);
      case _ => NumbersGrow(first, more, v);
    }
  }

  lemma GrownKind(first: Json, more: seq<Json>)
    requires Fits(first, more)
    ensures var r := Grown(first, more);
            && (first.JText? <==> r.JText?) && (first.JList? <==> r.JList?) && (IsNumber(first) <==> IsNumber(r))
  {
    if more != [] {
      assert Takes(first, more[0]);
    }
  }

  lemma TextGrows(s: string, more: seq<Json>, v: Json)
    requires v.JText?
    ensures PlusAssign(Grown(JText(s), more), v) == Some(Grown(JText(s), more + [v]))
  {
    hide Concat;
    SumsGrow(more, v);
    SumsOfNothing();
    assert (s + Concat(more)) + v.s == s + (Concat(more) + v.s);
    assert "" + v.s == v.s;
  }

  lemma ListGrows(items: seq<Json>, more: seq<Json>, v: Json)
    requires v.JText? || v.JList?
    ensures PlusAssign(Grown(JList(items), more), v) == Some(Grown(JList(items), more + [v]))
  {
    hide *;
    var added := Iterated(v);
    var before := if more == [] then items else items + Elements(more);
    ListGrown(items, more);
    ListGrown(items, more + [v]);
    ListPlus(before, v);
    ElementsGrow(items, more, v);
  }

  lemma ElementsGrow(items: seq<Json>, more: seq<Json>, v: Json)
    ensures (if more == [] then items else items + Elements(more)) + Iterated(v) == items + Elements(more + [v])
  {
    hide Iterated;
    assert (more + [v])[..|more|] == more;
    if more == [] {
      assert Elements(more + [v]) == [] + Iterated(v) == Iterated(v);
    } else {
      assert (items + Elements(more)) + Iterated(v) == items + (Elements(more) + Iterated(v));
    }
  }

  lemma ListGrown(items: seq<Json>, more: seq<Json>)
    ensures Grown(JList(items), more) == JList(if more == [] then items else items + Elements(more))
  {}

  lemma ListPlus(items: seq<Json>, v: Json)
    requires v.JText? || v.JList?
    ensures PlusAssign(JList(items), v) == Some(JList(items + Iterated(v)))
  {}

  lemma SumsGrow(more: seq<Json>, v: Json)
    ensures Concat(more + [v]) == Concat(more) + if v.JText? then v.s else ""
    ensures Total(more + [v]) == Total(more) + NumberOf(v) && WholeTotal(more + [v]) == WholeTotal(more) + WholeOf(v)
    ensures SomeFloat(more + [v]) <==> SomeFloat(more) || v.JFloat?
  {
    var all := more + [v];
    assert all[..|more|] == more && all[|more|] == v;
    assert forall i | 0 <= i < |more| :: all[i] == more[i];
  }

  lemma SumsOfNothing()
    ensures Concat([]) == "" && Elements([]) == [] && Total([]) == 0.0 && WholeTotal([]) == 0 && !SomeFloat([])
  {}

  lemma NumbersGrow(first: Json, more: seq<Json>, v: Json)
    requires Fits(first, more) && IsNumber(first) && IsNumber(v)
    ensures PlusAssign(Grown(first, more), v) == Some(Grown(first, more + [v]))
  {
    hide Total, WholeTotal, SomeFloat;
    SumsGrow(more, v);
    if more == [] {
      SumsOfNothing();
    }
    if !SomeFloat(more) {
      WholeIsTotal(more);
    }
  }

  /** Without floats the two sums are the same. */
  lemma {:induction false} WholeIsTotal(values: seq<Json>)
    requires !SomeFloat(values) && forall i | 0 <= i < |values| :: IsNumber(values[i])
    ensures WholeTotal(values) as real == Total(values)
  {
    if values != [] {
      var before := values[..|values| - 1];
      assert forall i | 0 <= i < |before| :: before[i] == values[i];
      WholeIsTotal(before);
    }
  }

  lemma DeltasGrow(own: seq<Event>, e: Event)
    ensures forall kind ::
              Deltas(own + [e], kind) == Deltas(own, kind) + if IsDelta(e, kind) then [e.delta.fields] else []
  {
    assert (own + [e])[..|own|] == own;
  }

  lemma TextsGrow(own: seq<Event>, e: Event)
    ensures Texts(own + [e]) == Texts(own) + if IsDelta(e, "text") then [FieldOf(e.delta.fields, "text")] else []
  {
    DeltasGrow(own, e);
  }

  lemma {:induction false} FoldGrows(own: seq<Event>, e: Event)
    ensures Fold(own + [e])
            == if Fold(own).None? || Advance(Fold(own).value, e).None? then None else Some(Advance(Fold(own).value, e))
  {
    assert (own + [e])[..|own|] == own;
  }

  /** Whether one more event of the step is well-formed, given those before. */
  lemma WellFormedGrows(own: seq<Event>, e: Event)
    requires WellFormed(own)
    ensures WellFormed(own + [e])
            <==> && !own[|own| - 1].Stop? && (e.Stop? || (e.Delta? && GoodDelta(e.delta)))
                 && (IsDelta(e, "text") ==>
                       && TakesText(own[0].step.fields)
                       && Fits(FirstText(own[0].step.fields), Texts(own) + [FieldOf(e.delta.fields, "text")]))
                 && (IsDelta(e, "thought_summary") && "summary" in own[0].step.fields ==>
                       own[0].step.fields["summary"].JList?)
  {
    hide TakesText, Fits, FirstText, GoodDelta, Deltas;
    var all := own + [e];
    DeltasGrow(own, e);
    TextsGrow(own, e);
    assert all[|own|] == e && forall k | 0 <= k < |own| :: all[k] == own[k];
    assert Texts(own) + [] == Texts(own);
    var summaries := Deltas(own, "thought_summary");
    assert summaries + [] == summaries;
    if WellFormed(all) {
      assert all[|own|].Delta? || all[|own|].Stop?;
      assert |own| > 1 ==> all[|own| - 1].Delta?;
    }
    FitsBefore(Texts(own));
  }

  lemma FitsBefore(texts: seq<Json>)
    ensures forall first, v :: Fits(first, texts + [v]) ==> Fits(first, texts)
  {
    forall first, v | Fits(first, texts + [v])
      ensures Fits(first, texts)
    {
      FitsFewer(first, texts, texts + [v]);
    }
  }

  lemma FitsFewer(first: Json, fewer: seq<Json>, more: seq<Json>)
    requires Fits(first, more) && fewer <= more
    ensures Fits(first, fewer)
  {
    forall i | 0 <= i < |fewer|
      ensures Takes(first, fewer[i])
    {
      assert more[i] == fewer[i];
    }
  }

  lemma StartsWell(e: Event)
    ensures Fold([e]).Some? <==> WellFormed([e])
    ensures WellFormed([e]) ==> Fold([e]) == Some(Some(Assembled([e])))
  {
    hide Fold, WellFormed, Assembled, Advance;
    FoldsFirst(e);
    FirstIsWellFormed(e);
    FirstAdvances(e);
  }

  lemma FoldsFirst(e: Event)
    ensures Fold([e]) == if Advance(None, e).None? then None else Some(Advance(None, e))
  {
    hide Advance;
    assert [e][..0] == [] && Fold([e][..0]) == Some(None);
  }

  lemma FirstAdvances(e: Event)
    ensures Advance(None, e) == if e.Start? && e.step.JObject? then Some(Step(e.step.fields, None, false)) else None
  {}

  lemma FirstIsWellFormed(e: Event)
    ensures WellFormed([e]) <==> e.Start? && e.step.JObject?
    ensures WellFormed([e]) ==> Assembled([e]) == Step(e.step.fields, None, false)
  {
    hide Deltas, Texts, GoodDelta, Fits, TakesText, Grown, Concat, FirstText, WithText;
    if e.Start? {
      NoDeltas(e);
    }
  }

  lemma NoDeltas(e: Event)
    ensures !e.Delta? ==> Texts([e]) == [] && forall kind :: Deltas([e], kind) == []
  {
    hide Get, Texts;
    assert [e][..0] == [];
    forall kind
      ensures !e.Delta? ==> Deltas([e], kind) == []
    {
      assert Deltas([e][..0], kind) == [];
    }
    NoTexts([e]);
  }

  lemma NoTexts(own: seq<Event>)
    ensures Deltas(own, "text") == [] ==> Texts(own) == []
  {
    hide Deltas;
  }

  lemma WithTwice(fields: Object, key: string, change: Option<Json>, v: Json)
    ensures With(fields, key, change)[key := v] == With(fields, key, Some(v))
  {}

  lemma WithOther(fields: Object, key: string, change: Option<Json>, other: string, v: Json)
    requires key != other
    ensures With(fields, key, change)[other := v] == With(fields[other := v], key, change)
  {}

  /** Changing a field once more. */
  lemma ChangesAgain(start: Object, a: Option<Json>, b: Option<Json>, c: Option<Json>, v: Json)
    ensures Changed(start, a, b, c)["content" := v] == Changed(start, Some(v), b, c)
    ensures Changed(start, a, b, c)["summary" := v] == Changed(start, a, Some(v), c)
    ensures Changed(start, a, b, c)["signature" := v] == Changed(start, a, b, Some(v))
  {
    hide With;
    var one := With(start, "content", a);
    var two := With(one, "summary", b);
    WithTwice(start, "content", a, v);
    WithTwice(one, "summary", b, v);
    WithTwice(two, "signature", c, v);
    WithOther(one, "summary", b, "content", v);
    WithOther(two, "signature", c, "content", v);
    WithOther(two, "signature", c, "summary", v);
    WithIs(one, "summary", v);
    WithIs(start, "content", v);
  }

  lemma WithIs(fields: Object, key: string, v: Json)
    ensures With(fields, key, Some(v)) == fields[key := v]
  {}

  lemma FieldsNow(start: Object, a: Option<Json>, b: Option<Json>, c: Option<Json>)
    ensures var r := Changed(start, a, b, c);
            && ("content" in r <==> a.Some? || "content" in start)
            && ("content" in r ==> r["content"] == if a.Some? then a.value else start["content"])
            && ("summary" in r <==> b.Some? || "summary" in start)
            && ("summary" in r ==> r["summary"] == if b.Some? then b.value else start["summary"])
            && Get(r, "signature") == (if c.Some? then c.value else Get(start, "signature"))
            && forall key | key !in {"content", "summary", "signature"} ::
                 (key in r <==> key in start) && Get(r, key) == Get(start, key)
  {}

  lemma AddsTextTo(content: Object, d: Object)
    ensures AddText(content, d).Some? ==> TakesText(content)
    ensures TakesText(content) ==>
              var items, v := Contents(content), PlusAssign(FirstText(content), FieldOf(d, "text"));
              AddText(content, d)
              == if v.None? then None
                 else Some(content["content" := JList(WithText(items, v.value))])
  {
    hide PlusAssign;
  }

  lemma TextTwice(items: seq<Json>, a: Json, b: Json)
    requires items != [] && items[|items| - 1].JObject?
    ensures WithText(items, a) != [] && WithText(WithText(items, a), b) == WithText(items, b)
    ensures var last := WithText(items, a)[|WithText(items, a)| - 1];
            last.JObject? && "text" in last.fields && last.fields["text"] == a
  {
    var last := items[|items| - 1].fields;
    assert last["text" := a]["text" := b] == last["text" := b];
    assert WithText(items, a)[..|items| - 1] == items[..|items| - 1];
  }

  /** One more text. */
  lemma AddsText(start: Object, texts: seq<Json>, b: Option<Json>, c: Option<Json>, d: Object)
    requires texts != [] ==> TakesText(start) && Fits(FirstText(start), texts)
    ensures var all, content := texts + [FieldOf(d, "text")], Changed(start, TextChange(start, texts), b, c);
            && (AddText(content, d).Some? <==> TakesText(start) && Fits(FirstText(start), all))
            && (TakesText(start) && Fits(FirstText(start), all) ==>
                  AddText(content, d) == Some(Changed(start, TextChange(start, all), b, c)))
  {
    hide Grown, PlusAssign, Fits, Changed, AddText, WithText;
    var t, content := FieldOf(d, "text"), Changed(start, TextChange(start, texts), b, c);
    FieldsNow(start, TextChange(start, texts), b, c);
    AddsTextTo(content, d);
    if TakesText(start) {
      var items, first := Contents(start), FirstText(start);
      NothingFits(first);
      GrownFromNothing(first);
      GrowsByOne(first, texts, t);
      if texts != [] {
        TextTwice(items, Grown(first, texts), Grown(first, texts + [t]));
      }
      assert TakesText(content) && FirstText(content) == Grown(first, texts);
      if Fits(first, texts + [t]) {
        assert WithText(Contents(content), Grown(first, texts + [t])) == WithText(items, Grown(first, texts + [t]));
        ChangesAgain(start, TextChange(start, texts), b, c, TextChange(start, texts + [t]).value);
      }
    }
  }

  lemma NothingFits(first: Json)
    ensures Fits(first, [])
  {}

  lemma GrownFromNothing(first: Json)
    ensures Grown(first, []) == first
  {}

  /** One more summary. */
  lemma AddsSummary(start: Object, a: Option<Json>, summaries: seq<Object>, c: Option<Json>, d: Object)
    requires "summary" in start ==> start["summary"].JList?
    ensures var content := Changed(start, a, SummaryChange(start, summaries), c);
            && ("summary" in content ==> content["summary"].JList?)
            && var items := if "summary" in content then content["summary"].items else [];
               content["summary" := JList(items + [Get(d, "content")])]
               == Changed(start, a, SummaryChange(start, summaries + [d]), c)
  {
    hide Changed;
    FieldsNow(start, a, SummaryChange(start, summaries), c);
    var content := Changed(start, a, SummaryChange(start, summaries), c);
    var items := if "summary" in content then content["summary"].items else [];
    var initial := if "summary" in start then start["summary"].items else [];
    var all := summaries + [d];
    var contents := seq(|all|, i requires 0 <= i < |all| => Get(all[i], "content"));
    assert items + [Get(d, "content")] == initial + contents by {
      var before := seq(|summaries|, i requires 0 <= i < |summaries| => Get(summaries[i], "content"));
      assert contents == before + [Get(d, "content")];
      assert items == initial + before;
    }
    ChangesAgain(start, a, SummaryChange(start, summaries), c, JList(items + [Get(d, "content")]));
  }

  lemma AddsArguments(arguments: seq<Object>, d: Object)
    requires FieldOf(d, "arguments").JText?
    ensures ArgumentsOf(arguments + [d])
            == Some((if ArgumentsOf(arguments).Some? then ArgumentsOf(arguments).value else "")
                    + FieldOf(d, "arguments").s)
  {
    SumsGrow(Fields(arguments, "arguments"), FieldOf(d, "arguments"));
    assert Fields(arguments + [d], "arguments") == Fields(arguments, "arguments") + [FieldOf(d, "arguments")];
    if arguments == [] {
      assert Fields(arguments, "arguments") == [];
      SumsOfNothing();
    }
  }

  /** What adding one increment does to the assembled step. */
  lemma AddsDelta(own: seq<Event>, e: Event)
    requires WellFormed(own) && !own[|own| - 1].Stop? && e.Delta?
    ensures AddDelta(Assembled(own), e.delta).Some? <==> WellFormed(own + [e])
    ensures WellFormed(own + [e]) ==> AddDelta(Assembled(own), e.delta) == Some(Assembled(own + [e]))
  {
    hide AddText, Changed, TextChange, SummaryChange, ArgumentsOf, Fits, TakesText, Deltas, WellFormed;
    var start := own[0].step.fields by {
      StartsWithObject(own);
    }
    WellFormedGrows(own, e);
    DeltasGrow(own, e);
    TextsGrow(own, e);
    WhatFits(own);
    assert (own + [e])[0] == own[0] && (own + [e])[|own|] == e;
    assert Texts(own) + [] == Texts(own);
    forall kind
      ensures Deltas(own, kind) + [] == Deltas(own, kind)
    {}
    var texts, summaries := TextChange(start, Texts(own)), SummaryChange(start, Deltas(own, "thought_summary"));
    var signatures := SignatureChange(Deltas(own, "thought_signature"));
    if IsDelta(e, "arguments_delta") {
      if GoodDelta(e.delta) {
        AddsArguments(Deltas(own, "arguments_delta"), e.delta.fields);
      }
    } else if IsDelta(e, "text") {
      AddsText(start, Texts(own), summaries, signatures, e.delta.fields);
    } else if IsDelta(e, "thought_signature") {
      ChangesAgain(start, texts, summaries, signatures, Get(e.delta.fields, "signature"));
    } else if IsDelta(e, "thought_summary") {
      if "summary" in start ==> start["summary"].JList? {
        AddsSummary(start, texts, Deltas(own, "thought_summary"), signatures, e.delta.fields);
      } else {
        FieldsNow(start, texts, summaries, signatures);
      }
    }
  }

  lemma StartsWithObject(own: seq<Event>)
    requires WellFormed(own)
    ensures own != [] && own[0].Start? && own[0].step.JObject?
  {}

  lemma WhatFits(own: seq<Event>)
    requires WellFormed(own)
    ensures own != [] && own[0].Start? && own[0].step.JObject?
    ensures var start := own[0].step.fields;
            && (Texts(own) != [] ==> TakesText(start) && Fits(FirstText(start), Texts(own)))
            && (Deltas(own, "thought_summary") != [] && "summary" in start ==> start["summary"].JList?)
            && (Deltas(own, "thought_summary") == [] ==> SummaryChange(start, Deltas(own, "thought_summary")).None?)
  {}

  /** The events of a step are accepted exactly when they are well-formed, and then amount to the step that
      they describe. */
  lemma {:induction false} FoldIsAssembled(own: seq<Event>)
    ensures Fold(own).Some? <==> own == [] || WellFormed(own)
    ensures WellFormed(own) ==> Fold(own) == Some(Some(Assembled(own)))
    decreases |own|
  {
    hide WellFormed, Assembled, AddDelta, Fold;
    if |own| == 1 {
      assert own == [own[0]];
      StartsWell(own[0]);
    } else if own != [] {
      var before, e := own[..|own| - 1], own[|own| - 1];
      assert before + [e] == own;
      FoldIsAssembled(before);
      FoldGrows(before, e);
      NotFirst(before, e);
      if WellFormed(before) {
        StopsOrGrows(before, e);
      }
    } else {
      NothingFolds();
    }
  }

  lemma StopsOrGrows(before: seq<Event>, e: Event)
    requires WellFormed(before)
    ensures Advance(Some(Assembled(before)), e).Some? <==> WellFormed(before + [e])
    ensures WellFormed(before + [e]) ==> Advance(Some(Assembled(before)), e) == Some(Assembled(before + [e]))
  {
    hide AddDelta, Changed, TextChange, SummaryChange, ArgumentsOf, WellFormed, Texts, Deltas, GoodDelta;
    StartsWithObject(before);
    WellFormedGrows(before, e);
    if e.Delta? && !before[|before| - 1].Stop? {
      AddsDelta(before, e);
    } else if e.Stop? && !before[|before| - 1].Stop? {
      DeltasGrow(before, e);
      TextsGrow(before, e);
      forall kind
        ensures Deltas(before, kind) + [] == Deltas(before, kind)
      {}
      assert Texts(before) + [] == Texts(before);
      assert (before + [e])[0] == before[0] && (before + [e])[|before|] == e;
    }
  }

  lemma NothingFolds()
    ensures Fold([]) == Some(None) && !WellFormed([])
  {}

  /** Cutting off the last event leaves a step well-formed. */
  lemma NotFirst(before: seq<Event>, e: Event)
    requires before != []
    ensures WellFormed(before + [e]) ==> WellFormed(before)
  {
    var all := before + [e];
    DeltasGrow(before, e);
    TextsGrow(before, e);
    assert forall k | 0 <= k < |before| :: all[k] == before[k];
    if WellFormed(all) && Texts(before) != [] {
      FitsFewer(FirstText(all[0].step.fields), Texts(before), Texts(all));
    }
  }

  // ---- the stream ----

  predicate NoneOrWellFormed(own: seq<Event>) {
    own == [] || WellFormed(own)
  }

  ghost predicate AllWellFormed(events: seq<Event>) {
    forall i: nat :: NoneOrWellFormed(Own(events, i))
  }

  /** An accepted stream holds, for each index, the step that its own events describe, and no other. */
  lemma StreamAssembled(events: seq<Event>)
    ensures Run(events).Some?
            <==> && AllAcceptable(events) && NothingAfterTerminal(events)
                 && AllWellFormed(events)
    ensures Run(events).Some? ==>
              forall i: nat ::
                StepOf(Run(events).value, i)
                == if WellFormed(Own(events, i)) then Some(Assembled(Own(events, i))) else None
  {
    hide Run, Own, Fold, WellFormed, Assembled, AllAcceptable, NothingAfterTerminal, StepOf, StepsAccepted,
         AllWellFormed;
    Demultiplexed(events);
    StepsWellFormed(events);
    if Run(events).Some? {
      forall i: nat
        ensures StepOf(Run(events).value, i)
                == if WellFormed(Own(events, i)) then Some(Assembled(Own(events, i))) else None
      {
        FoldIsAssembled(Own(events, i));
        NothingFolds();
        assert Fold(Own(events, i)) == Some(StepOf(Run(events).value, i));
      }
    }
  }

  lemma StepsWellFormed(events: seq<Event>)
    ensures StepsAccepted(events) <==> AllWellFormed(events)
  {
    hide Own, Fold, WellFormed;
    if StepsAccepted(events) {
      forall i: nat
        ensures NoneOrWellFormed(Own(events, i))
      {
        assert Fold(Own(events, i)).Some?;
        FoldIsAssembled(Own(events, i));
      }
    }
    if AllWellFormed(events) {
      forall i: nat
        ensures Fold(Own(events, i)).Some?
      {
        assert NoneOrWellFormed(Own(events, i));
        FoldIsAssembled(Own(events, i));
      }
    }
  }

  /** The document of a step: its text, summary and signature are those that the increments make of those of
      its start, and every other field but the arguments is that of its start. */
  lemma StepDocument(own: seq<Event>, decode: Decoder)
    requires WellFormed(own)
    ensures own != [] && own[0].Start? && own[0].step.JObject? && Assemble(Assembled(own), decode).JObject?
    ensures var start, document := own[0].step.fields, Assemble(Assembled(own), decode).fields;
            && (forall key | key !in {"content", "summary", "signature", "arguments"} ::
                  (key in document <==> key in start) && Get(document, key) == Get(start, key))
            && Get(document, "content") == Final(TextChange(start, Texts(own)), start, "content")
            && Get(document, "summary") == Final(SummaryChange(start, Deltas(own, "thought_summary")), start, "summary")
            && Get(document, "signature")
               == Final(SignatureChange(Deltas(own, "thought_signature")), start, "signature")
  {
    hide Deltas, Texts, Changed, TextChange, SummaryChange, SignatureChange, Concat, WellFormed, Assemble, ArgumentsOf;
    WhatFits(own);
    DocumentFields(Assembled(own), decode);
    var start := own[0].step.fields;
    FieldsNow(start, TextChange(start, Texts(own)), SummaryChange(start, Deltas(own, "thought_summary")),
              SignatureChange(Deltas(own, "thought_signature")));
  }

  /** What the increments make of a field, or else what the start has. */
  function Final(change: Option<Json>, start: Object, key: string): Json {
    if change.Some? then change.value else Get(start, key)
  }

  /** The arguments of the document: the text of the increments, decoded where it is a JSON object, or else
      those of the start. */
  lemma StepArguments(own: seq<Event>, decode: Decoder)
    requires WellFormed(own)
    ensures own != [] && own[0].Start? && own[0].step.JObject? && Assemble(Assembled(own), decode).JObject?
    ensures Get(Assemble(Assembled(own), decode).fields, "arguments")
            == if Deltas(own, "arguments_delta") == [] then Get(own[0].step.fields, "arguments")
               else
                 var text := Concat(Fields(Deltas(own, "arguments_delta"), "arguments"));
                 if decode(text).Some? then JObject(decode(text).value) else JText(text)
  {
    hide Deltas, Texts, Changed, TextChange, SummaryChange, SignatureChange, Concat, WellFormed, Assemble;
    WhatFits(own);
    DocumentFields(Assembled(own), decode);
    var start := own[0].step.fields;
    FieldsNow(start, TextChange(start, Texts(own)), SummaryChange(start, Deltas(own, "thought_summary")),
              SignatureChange(Deltas(own, "thought_signature")));
  }

  lemma DocumentFields(s: Step, decode: Decoder)
    ensures var document := Assemble(s, decode);
            && document.JObject?
            && (forall key | key != "arguments" ::
                  (key in document.fields <==> key in s.content) && Get(document.fields, key) == Get(s.content, key))
            && Get(document.fields, "arguments")
               == if s.arguments.None? then Get(s.content, "arguments")
                  else if decode(s.arguments.value).Some? then JObject(decode(s.arguments.value).value)
                  else JText(s.arguments.value)
  {}

  /** {"a":1}, streamed as the arguments of a function call in two pieces. */
  lemma TwoPieces(call: Object)
    ensures var own := [Start(JInt(0), JObject(call)),
                        Delta(JInt(0),
                              JObject(map["type" := JText("arguments_delta"), "arguments" := JText("{\"a\"")])),
                        Delta(JInt(0), JObject(map["type" := JText("arguments_delta"), "arguments" := JText(":1}")]))];
            Fold(own) == Some(Some(Step(call, Some("{\"a\":1}"), false)))
  {
    var one := map["type" := JText("arguments_delta"), "arguments" := JText("{\"a\"")];
    var two := map["type" := JText("arguments_delta"), "arguments" := JText(":1}")];
    var own := [Start(JInt(0), JObject(call)), Delta(JInt(0), JObject(one)), Delta(JInt(0), JObject(two))];
    assert own[..2][..1] == [own[0]] && own[..1] == [own[0]] && own[..1][..0] == [];
    assert Fold(own[..1]) == Some(Some(Step(call, None, false)));
    assert "" + "{\"a\"" == "{\"a\"" && "{\"a\"" + ":1}" == "{\"a\":1}";
    assert own[..2] == [own[0], own[1]];
    assert Fold(own[..2]) == Some(Some(Step(call, Some("{\"a\""), false)));
  }
}
