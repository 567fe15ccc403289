/** src/telemetry.rs: spans that can opt out of diagnostics, and the events recorded below them. */
module SpanTelemetry {
  import opened Wrappers

  /** What a tracing field visitor is handed. */
  datatype Recorded = Flag(truth: bool) | Unsigned(natural: nat) | Signed(number: int) | Str(text: string) | Debug(text: string)

  datatype Field = Field(name: string, value: Recorded)

  datatype Value = BoolValue(truth: bool) | NumberValue(number: int) | TextValue(text: string)

  datatype Fields = Fields(values: map<string, Value>, optedOut: bool)

  const NOTHING := Fields(map[], false)
  const SWITCH := "telemetry_enabled"
  const TEXT_FIELDS := {"worker.stage", "request_id", "route", "method"}

  function TextKey(name: string): string {
    if name == "worker.stage" then "stage" else name
  }

  function Visit(fields: Fields, field: Field): Fields {
    match field.value
    case Flag(truth) =>
      Fields(fields.values[field.name := BoolValue(truth)], fields.optedOut || (field.name == SWITCH && !truth))
    case Unsigned(n) => fields.(values := fields.values[field.name := NumberValue(n)])
    case Signed(n) => fields.(values := fields.values[field.name := NumberValue(n)])
    case Str(text) =>
      if field.name in TEXT_FIELDS then fields.(values := fields.values[TextKey(field.name) := TextValue(text)]) else fields
    case Debug(text) =>
      if field.name in TEXT_FIELDS then fields.(values := fields.values[TextKey(field.name) := TextValue(text)]) else fields
  }

  function VisitAll(fields: Fields, updates: seq<Field>): Fields
    decreases |updates|
  {
    if updates == [] then fields else VisitAll(Visit(fields, updates[0]), updates[1..])
  }

  // ----- spans and what happens to them -----

  /** Spans are numbered in the order they are created; a parent is an earlier span. */
  type SpanId = nat

  datatype Span = Span(parent: Option<SpanId>, fields: Fields)

  datatype Emission = Emission(event: string, values: map<string, Value>)

  datatype Layer = Layer(spans: seq<Span>, sent: seq<Emission>)

  datatype Op =
    | NewSpan(parent: Option<SpanId>, attributes: seq<Field>)
    | Update(span: SpanId, updates: seq<Field>)
    | Event(name: string, target: string, level: string, line: nat, within: Option<SpanId>, fields: seq<Field>)

  ghost predicate Rooted(spans: seq<Span>) {
    forall i :: 0 <= i < |spans| ==> spans[i].parent.Some? ==> spans[i].parent.value < i
  }

  predicate InRange(spans: seq<Span>, scope: seq<SpanId>) {
    forall i :: 0 <= i < |scope| ==> scope[i] < |spans|
  }

  /** The enclosing spans of a span and itself, outermost first. */
  function Scope(spans: seq<Span>, span: SpanId): (scope: seq<SpanId>)
    requires span < |spans|
    ensures InRange(spans[..span + 1], scope)
    decreases span
  {
    var parent := spans[span].parent;
    (if parent.Some? && parent.value < span then Scope(spans, parent.value) else []) + [span]
  }

  function EventScope(spans: seq<Span>, span: Option<SpanId>): (scope: seq<SpanId>)
    ensures InRange(spans, scope)
  {
    if span.Some? && span.value < |spans| then Scope(spans, span.value) else []
  }

  function Merge(a: Fields, b: Fields): Fields {
    Fields(a.values + b.values, a.optedOut || b.optedOut)
  }

  function MergeScope(spans: seq<Span>, scope: seq<SpanId>): Fields
    requires InRange(spans, scope)
  {
    if scope == [] then NOTHING else Merge(MergeScope(spans, scope[..|scope| - 1]), spans[scope[|scope| - 1]].fields)
  }

  /** Everything known about an event: its enclosing spans, then its own fields. */
  function Collected(spans: seq<Span>, event: Op): Fields
    requires event.Event?
  {
    VisitAll(MergeScope(spans, EventScope(spans, event.within)), event.fields)
  }

  predicate Ours(target: string) {
    "silicon_iam" <= target
  }

  function Emitted(spans: seq<Span>, event: Op): seq<Emission>
    requires event.Event?
  {
    var fields := Collected(spans, event);
    if !Ours(event.target) || fields.optedOut then []
    else [Emission(event.name, fields.values["level" := TextValue(event.level)]["target" := TextValue(event.target)]
                               ["line" := NumberValue(event.line)])]
  }

  function Apply(layer: Layer, op: Op): Layer {
    match op
    case NewSpan(parent, attributes) =>
      var enclosing := if parent.Some? && parent.value < |layer.spans| then parent else None;
      layer.(spans := layer.spans + [Span(enclosing, VisitAll(NOTHING, attributes))])
    case Update(span, updates) =>
      if span < |layer.spans| then
        var s := layer.spans[span];
        layer.(spans := layer.spans[span := s.(fields := VisitAll(s.fields, updates))])
      else layer
    case Event(_, _, _, _, _, _) => layer.(sent := layer.sent + Emitted(layer.spans, op))
  }

  function Run(ops: seq<Op>): Layer {
    if ops == [] then Layer([], []) else Apply(Run(ops[..|ops| - 1]), ops[|ops| - 1])
  }

  // ----- opting out, read off the history -----

  predicate OptsOut(updates: seq<Field>) {
    exists i :: 0 <= i < |updates| && updates[i] == Field(SWITCH, Flag(false))
  }

  function SpansIn(ops: seq<Op>): nat {
    if ops == [] then 0 else SpansIn(ops[..|ops| - 1]) + if ops[|ops| - 1].NewSpan? then 1 else 0
  }

  /** The operation at `j` recorded telemetry_enabled=false on that very span. */
  ghost predicate OptedOutAt(ops: seq<Op>, span: SpanId, j: nat)
    requires j < |ops|
  {
    match ops[j]
    case NewSpan(_, attributes) => SpansIn(ops[..j]) == span && OptsOut(attributes)
    case Update(s, updates) => s == span && span < SpansIn(ops[..j]) && OptsOut(updates)
    case Event(_, _, _, _, _, _) => false
  }

  ghost predicate EverOptedOut(ops: seq<Op>, span: SpanId) {
    exists j: nat :: j < |ops| && OptedOutAt(ops, span, j)
  }

  lemma {:induction false} VisitAllOptsOut(fields: Fields, updates: seq<Field>)
    ensures VisitAll(fields, updates).optedOut <==> fields.optedOut || OptsOut(updates)
    decreases |updates|
  {
    if updates != [] {
      VisitAllOptsOut(Visit(fields, updates[0]), updates[1..]);
      assert forall i :: 0 < i < |updates| ==> updates[i] == updates[1..][i - 1];
      assert OptsOut(updates) <==> updates[0] == Field(SWITCH, Flag(false)) || OptsOut(updates[1..]);
    }
  }

  lemma EverOptedOutStep(ops: seq<Op>, span: SpanId)
    requires ops != []
    ensures var n := |ops| - 1;
            EverOptedOut(ops, span) <==> EverOptedOut(ops[..n], span) || OptedOutAt(ops, span, n)
  {
    var n := |ops| - 1;
    var before := ops[..n];
    forall j: nat | j < n ensures OptedOutAt(ops, span, j) <==> OptedOutAt(before, span, j) {
      assert before[..j] == ops[..j];
    }
  }

  /** In every run, a span's flag says exactly whether its history ever opted out. */
  lemma {:induction false} FlagIsHistory(ops: seq<Op>)
    ensures var spans := Run(ops).spans;
            && |spans| == SpansIn(ops) && Rooted(spans)
            && (forall s: SpanId :: s < |spans| ==> (spans[s].fields.optedOut <==> EverOptedOut(ops, s)))
            && (forall s: SpanId :: s >= |spans| ==> !EverOptedOut(ops, s))
  {
    if ops != [] {
      var n := |ops| - 1;
      var before, op := ops[..n], ops[n];
      FlagIsHistory(before);
      assert ops[..n] == before;
      forall s: SpanId ensures EverOptedOut(ops, s) <==> EverOptedOut(before, s) || OptedOutAt(ops, s, n) {
        EverOptedOutStep(ops, s);
      }
      match op {
        case NewSpan(_, attributes) => VisitAllOptsOut(NOTHING, attributes);
        case Update(s, updates) =>
          if s < |Run(before).spans| { VisitAllOptsOut(Run(before).spans[s].fields, updates); }
        case Event(_, _, _, _, _, _) =>
      }
    }
  }

  lemma {:induction false} MergeOptsOut(spans: seq<Span>, scope: seq<SpanId>)
    requires InRange(spans, scope)
    ensures MergeScope(spans, scope).optedOut <==> exists s :: s in scope && spans[s].fields.optedOut
  {
    if scope != [] {
      var rest, last := scope[..|scope| - 1], scope[|scope| - 1];
      MergeOptsOut(spans, rest);
      assert scope == rest + [last];
    }
  }

  /** `outer` is `span` or encloses it. */
  ghost predicate Encloses(spans: seq<Span>, outer: SpanId, span: SpanId)
    requires span < |spans|
    decreases span
  {
    || outer == span
    || (spans[span].parent.Some? && spans[span].parent.value < span && Encloses(spans, outer, spans[span].parent.value))
  }

  lemma {:induction false} ScopeIsEnclosing(spans: seq<Span>, span: SpanId)
    requires span < |spans|
    ensures forall s :: s in Scope(spans, span) <==> Encloses(spans, s, span)
    decreases span
  {
    var parent := spans[span].parent;
    if parent.Some? && parent.value < span {
      ScopeIsEnclosing(spans, parent.value);
    }
  }

  /** An event of a run is recorded exactly when its target is ours and neither it nor any
      enclosing span ever recorded telemetry_enabled=false before it. */
  lemma RecordedIff(ops: seq<Op>, event: Op)
    requires event.Event?
    ensures var spans := Run(ops).spans;
            |Run(ops + [event]).sent| == |Run(ops).sent| + 1 <==>
              && Ours(event.target) && !OptsOut(event.fields)
              && !(event.within.Some? && event.within.value < |spans|
                   && exists s :: Encloses(spans, s, event.within.value) && EverOptedOut(ops, s))
  {
    var spans := Run(ops).spans;
    assert (ops + [event])[..|ops|] == ops;
    FlagIsHistory(ops);
    var scope := EventScope(spans, event.within);
    MergeOptsOut(spans, scope);
    VisitAllOptsOut(MergeScope(spans, scope), event.fields);
    if event.within.Some? && event.within.value < |spans| {
      ScopeIsEnclosing(spans, event.within.value);
    }
  }

  // ----- what a recorded event carries -----

  /** The name and value a visited field is held under, if it is held at all. */
  function Held(field: Field): Option<(string, Value)> {
    match field.value
    case Flag(truth) => Some((field.name, BoolValue(truth)))
    case Unsigned(n) => Some((field.name, NumberValue(n)))
    case Signed(n) => Some((field.name, NumberValue(n)))
    case Str(text) => if field.name in TEXT_FIELDS then Some((TextKey(field.name), TextValue(text))) else None
    case Debug(text) => if field.name in TEXT_FIELDS then Some((TextKey(field.name), TextValue(text))) else None
  }

  /** The i-th update is the last one held under the name. */
  ghost predicate LastHeld(updates: seq<Field>, i: nat, key: string) {
    && i < |updates| && Held(updates[i]).Some? && Held(updates[i]).value.0 == key
    && forall j :: i < j < |updates| && Held(updates[j]).Some? ==> Held(updates[j]).value.0 != key
  }

  ghost predicate NoneHeld(updates: seq<Field>, key: string) {
    forall j :: 0 <= j < |updates| && Held(updates[j]).Some? ==> Held(updates[j]).value.0 != key
  }

  /** Visiting leaves under each name the value of the last update held under it, and what was there
      before where there is none. */
  lemma {:induction false} VisitedLast(fields: Fields, updates: seq<Field>, key: string)
    ensures NoneHeld(updates, key) ==>
              (key in VisitAll(fields, updates).values <==> key in fields.values)
              && (key in fields.values ==> VisitAll(fields, updates).values[key] == fields.values[key])
    ensures forall i: nat :: LastHeld(updates, i, key) ==>
              key in VisitAll(fields, updates).values && VisitAll(fields, updates).values[key] == Held(updates[i]).value.1
    decreases |updates|
  {
    if updates != [] {
      VisitedLast(Visit(fields, updates[0]), updates[1..], key);
      VisitOne(fields, updates[0], key);
      if NoneHeld(updates, key) { RestHolds(updates, key); }
      hide Visit, Held, LastHeld, NoneHeld;
      forall i: nat | LastHeld(updates, i, key)
        ensures key in VisitAll(fields, updates).values && VisitAll(fields, updates).values[key] == Held(updates[i]).value.1
      {
        LastInRest(updates, i, key);
      }
    }
  }

  lemma RestHolds(updates: seq<Field>, key: string)
    requires updates != [] && NoneHeld(updates, key)
    ensures NoneHeld(updates[1..], key) && (Held(updates[0]).Some? ==> Held(updates[0]).value.0 != key)
  {
    hide Held;
  }

  lemma LastInRest(updates: seq<Field>, i: nat, key: string)
    requires updates != [] && LastHeld(updates, i, key)
    ensures if i > 0 then LastHeld(updates[1..], i - 1, key) && updates[1..][i - 1] == updates[i]
            else NoneHeld(updates[1..], key) && Held(updates[0]).Some? && Held(updates[0]).value.0 == key
  {
    hide Held;
  }

  lemma VisitOne(fields: Fields, field: Field, key: string)
    ensures var r, held := Visit(fields, field).values, Held(field);
            if held.Some? && held.value.0 == key then key in r && r[key] == held.value.1
            else (key in r <==> key in fields.values) && (key in fields.values ==> r[key] == fields.values[key])
  {
  }

  /** The span at this place of the scope is the innermost one that holds the name. */
  ghost predicate Innermost(spans: seq<Span>, scope: seq<SpanId>, i: nat, key: string)
    requires InRange(spans, scope)
  {
    && i < |scope| && key in spans[scope[i]].fields.values
    && forall j :: i < j < |scope| ==> key !in spans[scope[j]].fields.values
  }

  /** Of the enclosing spans the innermost one that holds a name wins. */
  lemma {:induction false} InnermostWins(spans: seq<Span>, scope: seq<SpanId>, key: string)
    requires InRange(spans, scope)
    ensures key in MergeScope(spans, scope).values <==> exists i :: 0 <= i < |scope| && key in spans[scope[i]].fields.values
    ensures forall i: nat :: Innermost(spans, scope, i, key) ==>
              key in MergeScope(spans, scope).values
              && MergeScope(spans, scope).values[key] == spans[scope[i]].fields.values[key]
  {
    if scope != [] {
      var n := |scope| - 1;
      InnermostWins(spans, scope[..n], key);
      ScopeMore(spans, scope, key);
      hide Innermost;
      forall i: nat | Innermost(spans, scope, i, key)
        ensures key in MergeScope(spans, scope).values
                && MergeScope(spans, scope).values[key] == spans[scope[i]].fields.values[key]
      {
        OuterInnermost(spans, scope, i, key);
      }
    }
  }

  lemma ScopeMore(spans: seq<Span>, scope: seq<SpanId>, key: string)
    requires InRange(spans, scope) && scope != []
    ensures var n := |scope| - 1;
            (exists i :: 0 <= i < |scope| && key in spans[scope[i]].fields.values) <==>
              key in spans[scope[n]].fields.values || exists i :: 0 <= i < n && key in spans[scope[..n][i]].fields.values
  {
    var n := |scope| - 1;
    assert forall i :: 0 <= i < n ==> scope[..n][i] == scope[i];
  }

  lemma OuterInnermost(spans: seq<Span>, scope: seq<SpanId>, i: nat, key: string)
    requires InRange(spans, scope) && scope != [] && Innermost(spans, scope, i, key)
    ensures var n := |scope| - 1;
            if i < n then Innermost(spans, scope[..n], i, key) && scope[..n][i] == scope[i] && key !in spans[scope[n]].fields.values
            else i == n && key in spans[scope[n]].fields.values
  {
  }

  /** Under the name stands the last value the event itself holds, or else the innermost enclosing
      span's, or nothing. */
  ghost predicate Carries(values: map<string, Value>, spans: seq<Span>, scope: seq<SpanId>, fields: seq<Field>, key: string)
    requires InRange(spans, scope)
  {
    && (forall i: nat :: LastHeld(fields, i, key) ==> key in values && values[key] == Held(fields[i]).value.1)
    && (NoneHeld(fields, key) ==>
          && (key in values <==> exists i :: 0 <= i < |scope| && key in spans[scope[i]].fields.values)
          && forall i: nat :: Innermost(spans, scope, i, key) ==>
               key in values && values[key] == spans[scope[i]].fields.values[key])
  }

  lemma CollectedCarries(spans: seq<Span>, event: Op, key: string)
    requires event.Event?
    ensures Carries(Collected(spans, event).values, spans, EventScope(spans, event.within), event.fields, key)
  {
    var scope := EventScope(spans, event.within);
    VisitedLast(MergeScope(spans, scope), event.fields, key);
    InnermostWins(spans, scope, key);
    hide MergeScope, VisitAll, LastHeld, NoneHeld, EventScope, Innermost, Held;
  }

  lemma OtherNamesKept(values: map<string, Value>, more: map<string, Value>, spans: seq<Span>, scope: seq<SpanId>,
                       fields: seq<Field>, key: string)
    requires InRange(spans, scope) && Carries(values, spans, scope, fields, key)
    requires key in more <==> key in values
    requires key in values ==> more[key] == values[key]
    ensures Carries(more, spans, scope, fields, key)
  {
    hide LastHeld, NoneHeld, Innermost, Held;
  }

  /** A recorded event goes out under its own name with its level, target and line, and carries
      under every other name its own last value or else the innermost enclosing span's. */
  lemma CarriesOwnThenInnermost(ops: seq<Op>, event: Op, key: string)
    requires event.Event? && |Run(ops + [event]).sent| == |Run(ops).sent| + 1
    ensures var sent, spans, n := Run(ops + [event]).sent, Run(ops).spans, |Run(ops).sent|;
            && sent[..n] == Run(ops).sent && sent[n].event == event.name
            && "level" in sent[n].values && "target" in sent[n].values && "line" in sent[n].values
            && sent[n].values["level"] == TextValue(event.level) && sent[n].values["target"] == TextValue(event.target)
            && sent[n].values["line"] == NumberValue(event.line)
            && (key !in {"level", "target", "line"} ==>
                  Carries(sent[n].values, spans, EventScope(spans, event.within), event.fields, key))
  {
    assert (ops + [event])[..|ops|] == ops;
    assert Run(ops + [event]) == Apply(Run(ops), event);
    hide Run, Collected, EventScope, Carries, Emitted;
    var spans := Run(ops).spans;
    EmittedIs(spans, event, key);
    CollectedCarries(spans, event, key);
    if key !in {"level", "target", "line"} {
      OtherNamesKept(Collected(spans, event).values, Emitted(spans, event)[0].values, spans, EventScope(spans, event.within),
                     event.fields, key);
    }
  }

  lemma EmittedIs(spans: seq<Span>, event: Op, key: string)
    requires event.Event? && Emitted(spans, event) != []
    ensures var r, collected := Emitted(spans, event), Collected(spans, event).values;
            && |r| == 1 && r[0].event == event.name
            && "level" in r[0].values && r[0].values["level"] == TextValue(event.level)
            && "target" in r[0].values && r[0].values["target"] == TextValue(event.target)
            && "line" in r[0].values && r[0].values["line"] == NumberValue(event.line)
            && (key !in {"level", "target", "line"} ==>
                  (key in r[0].values <==> key in collected) && (key in collected ==> r[0].values[key] == collected[key]))
  {
    hide Collected;
  }

  /** A span starts with what its attributes hold and takes each update over that; others do not
      change. */
  lemma SpansHold(ops: seq<Op>, op: Op)
    ensures var a, b := Run(ops).spans, Run(ops + [op]).spans;
            && (op.NewSpan? ==>
                  && |b| == |a| + 1 && b[..|a|] == a && b[|a|].fields == VisitAll(NOTHING, op.attributes)
                  && (op.parent.Some? && op.parent.value < |a| ==> b[|a|].parent == op.parent))
            && (op.Update? ==>
                  && |b| == |a| && (forall s :: 0 <= s < |a| && s != op.span ==> b[s] == a[s])
                  && (op.span < |a| ==> b[op.span] == Span(a[op.span].parent, VisitAll(a[op.span].fields, op.updates))))
            && (op.Event? ==> b == a)
  {
    assert (ops + [op])[..|ops|] == ops;
    hide VisitAll;
  }

  // ----- no free-form text leaves the process -----

  const SAFE_TEXT := {"stage", "request_id", "route", "method"}

  /** Text is held only under the four safe keys. */
  ghost predicate SafeFields(values: map<string, Value>) {
    forall k :: k in values && values[k].TextValue? ==> k in SAFE_TEXT
  }

  lemma {:induction false} VisitAllSafe(fields: Fields, updates: seq<Field>)
    requires SafeFields(fields.values)
    ensures SafeFields(VisitAll(fields, updates).values)
    decreases |updates|
  {
    if updates != [] {
      VisitAllSafe(Visit(fields, updates[0]), updates[1..]);
    }
  }

  lemma {:induction false} MergeSafe(spans: seq<Span>, scope: seq<SpanId>)
    requires InRange(spans, scope)
    requires forall i :: 0 <= i < |spans| ==> SafeFields(spans[i].fields.values)
    ensures SafeFields(MergeScope(spans, scope).values)
  {
    if scope != [] {
      MergeSafe(spans, scope[..|scope| - 1]);
    }
  }

  /** In every run, recorded events hold text only under safe keys and the event's own
      static level and target. */
  lemma {:induction false} RunSendsSafeText(ops: seq<Op>)
    ensures SafeLayer(Run(ops))
  {
    if ops != [] {
      RunSendsSafeText(ops[..|ops| - 1]);
      ApplySendsSafeText(Run(ops[..|ops| - 1]), ops[|ops| - 1]);
    }
  }

  ghost predicate SafeLayer(layer: Layer) {
    && (forall i :: 0 <= i < |layer.spans| ==> SafeFields(layer.spans[i].fields.values))
    && forall i :: 0 <= i < |layer.sent| ==> SafeFields(layer.sent[i].values - {"level", "target"})
  }

  lemma ApplySendsSafeText(layer: Layer, op: Op)
    requires SafeLayer(layer)
    ensures SafeLayer(Apply(layer, op))
  {
    match op {
      case NewSpan(_, attributes) => VisitAllSafe(NOTHING, attributes);
      case Update(s, updates) =>
        if s < |layer.spans| { VisitAllSafe(layer.spans[s].fields, updates); }
      case Event(_, _, _, _, within, fields) =>
        var merged := MergeScope(layer.spans, EventScope(layer.spans, within));
        MergeSafe(layer.spans, EventScope(layer.spans, within));
        VisitAllSafe(merged, fields);
        assert SafeFields(Collected(layer.spans, op).values);
    }
  }

  // ----- the layer itself -----

  class StationLayer {
    var spans: seq<Span>
    var sent: seq<Emission>
    ghost var history: seq<Op>

    ghost predicate Valid()
      reads this
    {
      Layer(spans, sent) == Run(history)
    }

    constructor ()
      ensures Valid() && history == []
    {
      spans, sent, history := [], [], [];
    }

    lemma Extended(op: Op)
      requires Valid()
      ensures Run(history + [op]) == Apply(Layer(spans, sent), op)
    {
      assert (history + [op])[..|history|] == history;
    }

    method OnNewSpan(parent: Option<SpanId>, attributes: seq<Field>) returns (id: SpanId)
      requires Valid() && (parent.Some? ==> parent.value < |spans|)
      modifies this
      ensures Valid() && history == old(history) + [NewSpan(parent, attributes)]
      ensures id == |old(spans)| && sent == old(sent)
    {
      Extended(NewSpan(parent, attributes));
      var fields := RecordInto(NOTHING, attributes);
      id, spans := |spans|, spans + [Span(parent, fields)];
      history := history + [NewSpan(parent, attributes)];
    }

    method OnRecord(id: SpanId, updates: seq<Field>)
      requires Valid()
      modifies this
      ensures Valid() && history == old(history) + [Update(id, updates)]
      ensures sent == old(sent)
    {
      Extended(Update(id, updates));
      if id < |spans| {
        var fields := RecordInto(spans[id].fields, updates);
        spans := spans[id := spans[id].(fields := fields)];
      }
      history := history + [Update(id, updates)];
    }

    method OnEvent(event: Op)
      requires Valid() && event.Event?
      modifies this
      ensures Valid() && history == old(history) + [event]
      ensures spans == old(spans)
    {
      Extended(event);
      history := history + [event];
      if !Ours(event.target) { return; }
      var fields := NOTHING;
      var scope := EventScope(spans, event.within);
      var k := 0;
      while k < |scope|
        invariant 0 <= k <= |scope| && fields == MergeScope(spans, scope[..k])
      {
        assert scope[..k + 1][..k] == scope[..k];
        fields := Merge(fields, spans[scope[k]].fields);
        k := k + 1;
      }
      assert scope[..k] == scope;
      fields := RecordInto(fields, event.fields);
      if fields.optedOut { return; }
      sent := sent + [Emission(event.name, fields.values["level" := TextValue(event.level)]
                                           ["target" := TextValue(event.target)]["line" := NumberValue(event.line)])];
    }
  }

  method RecordInto(fields: Fields, updates: seq<Field>) returns (r: Fields)
    ensures r == VisitAll(fields, updates)
  {
    r := fields;
    var k := 0;
    while k < |updates|
      invariant 0 <= k <= |updates| && VisitAll(r, updates[k..]) == VisitAll(fields, updates)
    {
      assert updates[k..][1..] == updates[k + 1..];
      r := Visit(r, updates[k]);
      k := k + 1;
    }
  }
}
