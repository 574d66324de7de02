/** From a captured stream to a terminal result, and the re-reading of a stored capture under another contract. */
module Evaluate {
  import opened Wrappers
  import opened Lifecycle
  import opened Activity
  import X = ActivityExact
  import Fence
  import Schema

  /** A decoded event with what else is read off it: its policy violations, the models it says were served, its text. */
  datatype Captured = Captured(event: Event, violations: seq<string>, models: set<string>, text: seq<Fence.byte>)

  datatype Line = Blank | Broken | Good(captured: Captured)

  datatype Parsed = Parsed(
    events: seq<Captured>, valid: bool, completed: nat, terminalLast: bool, finalText: Option<seq<Fence.byte>>,
    models: set<string>, violations: seq<string>)

  datatype Contract = Contract(output: Fence.Mode, warnIfRejected: bool)

  const DEFAULT := Contract(Fence.Strict, false)

  datatype FailureCode =
    | Cancelled | Timeout | RateLimit429 | PrefillParameterError | PartialParameterError | CliNonzeroExit
    | EventStreamInvalid | PolicyViolation | TurnCompletedMissing | SilentFallbackDetected | ProfileConfigurationInvalid
    | FinalOutputMissing | OutputSchemaInvalid | OtherFailure(name: string)

  datatype SchemaStatus = NotRun | Pass | Fail

  datatype Outcome = Outcome(
    failure: Option<FailureCode>, turnCompleted: bool, output: Option<Fence.Value<Schema.Json>>,
      schemaStatus: SchemaStatus)

  /** The decoder and the searches of the error text, which read standard error and the error events. */
  datatype Runtime = Runtime(
    parse: seq<Fence.byte> -> Option<Schema.Json>, encodable: Schema.Json -> bool,
    rateLimit: (string, seq<Captured>) -> bool, prefill: (string, seq<Captured>) -> bool,
    partial: (string, seq<Captured>) -> bool, toolHint: string -> bool)

  datatype Task = Task(schema: Schema.Json, contract: Contract, allowlist: Option<set<string>>)

  datatype Capture = Capture(
    lines: seq<Line>, encoded: bool, stderr: string, protocol: Protocol, exitCode: Option<int>, started: bool)

  // ----- Reading the stream -----

  function EventsOf(lines: seq<Line>): seq<Captured> {
    if lines == [] || lines[0].Broken? then []
    else if lines[0].Blank? then EventsOf(lines[1..])
    else [lines[0].captured] + EventsOf(lines[1..])
  }

  predicate Breaks(lines: seq<Line>) {
    exists i :: 0 <= i < |lines| && lines[i].Broken?
  }

  function CompletedTurns(events: seq<Captured>): (n: nat)
    ensures n > 0 ==> exists i :: 0 <= i < |events| && events[i].event.kind.TurnCompleted?
  {
    if events == [] then 0
    else CompletedTurns(events[..|events| - 1]) + (if events[|events| - 1].event.kind.TurnCompleted? then 1 else 0)
  }

  predicate IsFinalText(c: Captured) {
    && c.event.kind.ItemCompleted? && c.event.item.Some? && c.event.item.value.kind == Some(AgentMessage)
    && c.event.item.value.hasText
  }

  function FinalText(events: seq<Captured>): Option<seq<Fence.byte>> {
    if events == [] then None
    else if IsFinalText(events[|events| - 1]) then Some(events[|events| - 1].text)
      else FinalText(events[..|events| - 1])
  }

  function ServedModels(events: seq<Captured>): set<string> {
    if events == [] then {} else ServedModels(events[..|events| - 1]) + events[|events| - 1].models
  }

  /** The violations of all events but the exempted ones, in order. */
  function ViolationsBut(events: seq<Captured>, exempt: seq<nat>): seq<string> {
    if events == [] then []
    else
      ViolationsBut(events[..|events| - 1], exempt)
      + (if |events| - 1 in exempt then [] else events[|events| - 1].violations)
  }

  function Summed(events: seq<Captured>): Parsed {
    var completed, last := CompletedTurns(events), events != [] && events[|events| - 1].event.kind.TurnCompleted?;
    Parsed(events, events != [] && completed <= 1 && (completed > 0 ==> last), completed, last,
           FinalText(events), ServedModels(events), ViolationsBut(events, []))
  }

  function Parse(lines: seq<Line>): Parsed {
    var parsed := Summed(EventsOf(lines));
    if Breaks(lines) then parsed.(valid := false) else parsed
  }

  // ----- The verdict -----

  function Bare(events: seq<Captured>): (r: seq<Event>)
    ensures |r| == |events| && forall i :: 0 <= i < |r| ==> r[i] == events[i].event
  {
    seq(|events|, i requires 0 <= i < |events| => events[i].event)
  }

  function ReaderFor(runtime: Runtime, schema: Schema.Json): Fence.Reader<Schema.Json> {
    Fence.Reader(runtime.parse, v => Schema.Validates(v, schema), runtime.encodable)
  }

  /** What the chain of decisions looks at. */
  datatype Facts = Facts(
    cancelled: bool, timedOut: bool, rateLimit: bool, prefill: bool, partial: bool, started: bool, valid: bool,
    violations: seq<string>, exitCode: Option<int>, completed: nat, models: set<string>, allowlist: Option<set<string>>,
    finalText: bool, schemaStatus: SchemaStatus)

  function Decide(f: Facts): Option<FailureCode> {
    if f.cancelled then Some(Cancelled)
    else if f.timedOut then Some(Timeout)
    else if f.rateLimit then Some(RateLimit429)
    else if f.prefill then Some(PrefillParameterError)
    else if f.partial then Some(PartialParameterError)
    else if !f.started then Some(CliNonzeroExit)
    else if !f.valid then Some(EventStreamInvalid)
    else if f.violations != [] then Some(PolicyViolation)
    else if f.exitCode != Some(0) then Some(CliNonzeroExit)
    else if f.completed == 0 then Some(TurnCompletedMissing)
    else if |f.models| > 1 then Some(SilentFallbackDetected)
    else if f.allowlist.None? then Some(ProfileConfigurationInvalid)
    else if |f.models| == 1 && f.models != {"NOT_REPORTED"} && !(f.models <= f.allowlist.value)
      then Some(SilentFallbackDetected)
    else if !f.finalText then Some(FinalOutputMissing)
    else if f.schemaStatus != Pass then Some(OutputSchemaInvalid)
    else None
  }

  predicate Complete(capture: Capture) {
    var parsed := Parse(capture.lines);
    capture.encoded && parsed.valid && parsed.completed == 1 && parsed.terminalLast
  }

  function Report(capture: Capture, runtime: Runtime): Activity.Report {
    var parsed := Parse(capture.lines);
    Classify(Bare(parsed.events), capture.protocol, Complete(capture), runtime.toolHint(capture.stderr))
  }

  /** A supported stream with a terminal event must also obey the lifecycle. */
  predicate StreamValid(capture: Capture, report: Activity.Report) {
    var parsed := Parse(capture.lines);
    && capture.encoded && parsed.valid
    && !(!capture.protocol.Unsupported? && report.lifecycle != [] && parsed.completed == 1)
  }

  function Violations(capture: Capture, contract: Contract, report: Activity.Report): seq<string> {
    ViolationsBut(Parse(capture.lines).events, if contract.warnIfRejected then report.confirmed else [])
    + (if Unknown in report.classifications && contract != DEFAULT
      then ["tool activity not conclusively classified"] else [])
  }

  function Normalization(capture: Capture, task: Task, runtime: Runtime): Option<Fence.Normalized<Schema.Json>> {
    var text := Parse(capture.lines).finalText;
    if text.None? then None
      else Some(Fence.Normalize(text.value, task.contract.output, ReaderFor(runtime, task.schema)))
  }

  /** Whether the output covers the ids that its own schema lists, if it lists any. */
  predicate CoverageHolds(output: Fence.Value<Schema.Json>, schema: Schema.Json) {
    output.Parsed? && Schema.CoverageBySchema(output.json, schema) in {Schema.Pass, Schema.NotApplicable}
  }

  function StatusOf(normalized: Option<Fence.Normalized<Schema.Json>>, task: Task): SchemaStatus {
    if normalized.None? then NotRun
    else if normalized.value.failure.Some? then Fail
    else if task.contract != DEFAULT && !CoverageHolds(normalized.value.value, task.schema) then Fail
    else Pass
  }

  function FactsOf(capture: Capture, task: Task, runtime: Runtime, timedOut: bool, cancelled: bool): Facts {
    var parsed, report := Parse(capture.lines), Report(capture, runtime);
    Facts(cancelled, timedOut, runtime.rateLimit(capture.stderr, parsed.events),
      runtime.prefill(capture.stderr, parsed.events),
          runtime.partial(capture.stderr, parsed.events), capture.started, StreamValid(capture, report),
          Violations(capture, task.contract, report), capture.exitCode, parsed.completed, parsed.models, task.allowlist,
          parsed.finalText.Some?, StatusOf(Normalization(capture, task, runtime), task))
  }

  function Evaluated(capture: Capture, task: Task, runtime: Runtime, timedOut: bool, cancelled: bool): Outcome {
    var facts, normalized :=
      FactsOf(capture, task, runtime, timedOut, cancelled), Normalization(capture, task, runtime);
    Outcome(Decide(facts), facts.completed == 1, if normalized.Some? then Some(normalized.value.value) else None,
            facts.schemaStatus)
  }

  // ----- What is read off a stream -----

  /** The events are the decoded lines from `from` to the first broken one, in order; `at` says where they stand. */
  ghost predicate ReadOff(lines: seq<Line>, from: int, events: seq<Captured>, at: seq<int>) {
    && |at| == |events|
    && (forall k :: 0 <= k < |at| ==> from <= at[k] < |lines| && 0 <= at[k] && lines[at[k]] == Good(events[k]))
    && (forall j, k :: 0 <= j < k < |at| ==> at[j] < at[k])
    && (forall k :: 0 <= k < |at| ==> Unbroken(lines, from, at[k]))
    && (forall i :: from <= i < |lines| && 0 <= i && lines[i].Good? && Unbroken(lines, from, i) ==> i in at)
  }

  ghost predicate Unbroken(lines: seq<Line>, from: int, to: int) {
    forall b :: from <= b < to && 0 <= b < |lines| ==> !lines[b].Broken?
  }

  lemma {:induction false} EventsAreReadOff(lines: seq<Line>, from: nat) returns (at: seq<int>)
    requires from <= |lines|
    ensures ReadOff(lines, from, EventsOf(lines[from..]), at)
    decreases |lines| - from
  {
    at := [];
    if from < |lines| && !lines[from].Broken? {
      assert lines[from..][1..] == lines[from + 1..];
      at := EventsAreReadOff(lines, from + 1);
      if lines[from].Good? {
        GoodIsRead(lines, from, EventsOf(lines[from + 1..]), at);
        at := [from] + at;
      } else {
        BlankReadsNothing(lines, from, EventsOf(lines[from + 1..]), at);
      }
    }
  }

  lemma {:induction false} UnbrokenEarlier(lines: seq<Line>, from: nat)
    requires from < |lines| && !lines[from].Broken?
    ensures forall i :: Unbroken(lines, from, i) <==> Unbroken(lines, from + 1, i)
  {
    forall i ensures Unbroken(lines, from, i) <==> Unbroken(lines, from + 1, i) {
    }
  }

  lemma {:induction false} BlankReadsNothing(lines: seq<Line>, from: nat, events: seq<Captured>, at: seq<int>)
    requires from < |lines| && lines[from].Blank? && ReadOff(lines, from + 1, events, at)
    ensures ReadOff(lines, from, events, at)
  {
    UnbrokenEarlier(lines, from);
  }

  lemma {:induction false} GoodIsRead(lines: seq<Line>, from: nat, events: seq<Captured>, at: seq<int>)
    requires from < |lines| && lines[from].Good? && ReadOff(lines, from + 1, events, at)
    ensures ReadOff(lines, from, [lines[from].captured] + events, [from] + at)
  {
    UnbrokenEarlier(lines, from);
    var all: seq<int> := [from] + at;
    forall k | 0 <= k < |all| ensures Unbroken(lines, from, all[k]) {
    }
    forall i | from <= i < |lines| && lines[i].Good? && Unbroken(lines, from, i) ensures i in all {
      if i > from {
        assert i in at;
        var k :| 0 <= k < |at| && at[k] == i;
        assert all[k + 1] == i;
      } else {
        assert all[0] == i;
      }
    }
  }

  /** A completed agent message with a text. */
  ghost predicate SaysText(c: Captured) {
    && c.event.kind == ItemCompleted && c.event.item.Some? && c.event.item.value.hasText
    && c.event.item.value.kind.Some? && c.event.item.value.kind.value == AgentMessage
  }

  ghost predicate LastToSayText(events: seq<Captured>, k: int) {
    0 <= k < |events| && SaysText(events[k]) && forall j :: k < j < |events| ==> !SaysText(events[j])
  }

  /** The last completed agent message says this text. */
  ghost predicate LastTextIs(events: seq<Captured>, text: seq<Fence.byte>) {
    exists k :: LastToSayText(events, k) && events[k].text == text
  }

  ghost predicate NoText(events: seq<Captured>) {
    forall k :: 0 <= k < |events| ==> !SaysText(events[k])
  }

  /** The final text is that of the last completed agent message, and there is none where there is no such message. */
  lemma {:induction false} FinalTextIsTheLast(events: seq<Captured>, text: seq<Fence.byte>)
    ensures FinalText(events) == Some(text) <==> LastTextIs(events, text)
    ensures FinalText(events) == None <==> NoText(events)
  {
    if events != [] {
      var n := |events| - 1;
      FinalTextIsTheLast(events[..n], text);
      if SaysText(events[n]) {
        assert LastToSayText(events, n);
        assert !NoText(events);
      } else {
        LastTextBefore(events, text);
      }
    }
  }

  lemma {:induction false} LastTextBefore(events: seq<Captured>, text: seq<Fence.byte>)
    requires events != [] && !SaysText(events[|events| - 1])
    ensures LastTextIs(events, text) <==> LastTextIs(events[..|events| - 1], text)
    ensures NoText(events) <==> NoText(events[..|events| - 1])
  {
    var front := events[..|events| - 1];
    forall k ensures LastToSayText(front, k) <==> LastToSayText(events, k) {
      if LastToSayText(front, k) {
        forall j | k < j < |events| ensures !SaysText(events[j]) {
          if j < |front| { assert events[j] == front[j]; }
        }
      }
    }
  }

  /** What is judged as the output of a stream: the text of the last completed agent message among its events. */
  lemma {:induction false} OutputIsTheLastMessage(lines: seq<Line>, text: seq<Fence.byte>)
    ensures Parse(lines).finalText == Some(text) <==> LastTextIs(EventsOf(lines), text)
    ensures Parse(lines).finalText == None <==> NoText(EventsOf(lines))
  {
    FinalTextIsTheLast(EventsOf(lines), text);
  }

  lemma {:induction false} NoneCompleted(events: seq<Captured>)
    ensures CompletedTurns(events) == 0 <==> forall k :: 0 <= k < |events| ==> events[k].event.kind != TurnCompleted
  {
    if events != [] { NoneCompleted(events[..|events| - 1]); }
  }

  lemma {:induction false} ModelsMean(events: seq<Captured>, model: string)
    ensures model in ServedModels(events) <==> exists k :: 0 <= k < |events| && model in events[k].models
  {
    if events != [] { ModelsMean(events[..|events| - 1], model); }
  }

  lemma {:induction false} ViolationsMean(events: seq<Captured>, exempt: seq<nat>, violation: string)
    ensures violation in ViolationsBut(events, exempt) <==>
            exists k :: 0 <= k < |events| && k !in exempt && violation in events[k].violations
  {
    if events != [] { ViolationsMean(events[..|events| - 1], exempt, violation); }
  }

  /** No line is broken, there is an event, and only the last one may complete the turn. */
  ghost predicate WellEnded(lines: seq<Line>) {
    var events := EventsOf(lines);
    && (forall i :: 0 <= i < |lines| ==> lines[i] != Broken) && events != []
    && forall k :: 0 <= k < |events| - 1 ==> events[k].event.kind != TurnCompleted
  }

  /** The turn was completed by the last event. */
  ghost predicate EndsComplete(lines: seq<Line>) {
    var events := EventsOf(lines);
    events != [] && events[|events| - 1].event.kind == TurnCompleted
  }

  lemma {:induction false} ParsedIsWellEnded(lines: seq<Line>)
    ensures Parse(lines).valid <==> WellEnded(lines)
    ensures WellEnded(lines) ==> (Parse(lines).completed == if EndsComplete(lines) then 1 else 0)
    ensures EndsComplete(lines) <==> Parse(lines).terminalLast
  {
    var events := EventsOf(lines);
    if events != [] { NoneCompleted(events[..|events| - 1]); }
  }

  // ----- Which stream is valid, and what violates the policy -----

  /** Decodable, well ended, and, where the turn was completed under a supported protocol, in the lifecycle grammar. */
  ghost predicate SoundStream(capture: Capture) {
    && capture.encoded && WellEnded(capture.lines)
    && (!capture.protocol.Unsupported? && EndsComplete(capture.lines) ==>
          exists t :: Grammatical(Bare(EventsOf(capture.lines)), t, true))
  }

  /** Every event that violates the policy is a confirmed rejection the contract turns into a warning, and a contract
      other than the default leaves no activity unknown. */
  ghost predicate Permitted(capture: Capture, contract: Contract, report: Activity.Report) {
    var events := EventsOf(capture.lines);
    && (forall k :: 0 <= k < |events| && events[k].violations != [] ==>
      contract.warnIfRejected && k in report.confirmed)
    && (Unknown in report.classifications ==> contract == DEFAULT)
  }

  lemma {:induction false} StreamValidMeans(capture: Capture, runtime: Runtime)
    ensures StreamValid(capture, Report(capture, runtime)) <==> SoundStream(capture)
  {
    ParsedIsWellEnded(capture.lines);
    AcceptsExactlyTheGrammar(Bare(EventsOf(capture.lines)), !capture.protocol.Unsupported?);
  }

  ghost predicate AllExempt(events: seq<Captured>, exempt: seq<nat>) {
    forall k :: 0 <= k < |events| && events[k].violations != [] ==> k in exempt
  }

  lemma {:induction false} NoneButExempt(events: seq<Captured>, exempt: seq<nat>)
    ensures ViolationsBut(events, exempt) == [] <==> AllExempt(events, exempt)
  {
    var found := ViolationsBut(events, exempt);
    if found == [] {
      OnlyExemptViolate(events, exempt);
    } else {
      ViolationsMean(events, exempt, found[0]);
    }
  }

  lemma {:induction false} PermittedIff(capture: Capture, contract: Contract, report: Activity.Report)
    ensures Permitted(capture, contract, report) <==>
      && AllExempt(EventsOf(capture.lines), if contract.warnIfRejected then report.confirmed else [])
      && (Unknown in report.classifications ==> contract == DEFAULT)
  {
  }

  lemma {:induction false} PermittedMeans(capture: Capture, contract: Contract, report: Activity.Report)
    ensures Violations(capture, contract, report) == [] <==> Permitted(capture, contract, report)
  {
    NoneButExempt(EventsOf(capture.lines), if contract.warnIfRejected then report.confirmed else []);
    NoViolationsIff(capture, contract, report);
    PermittedIff(capture, contract, report);
  }

  lemma {:induction false} NoViolationsIff(capture: Capture, contract: Contract, report: Activity.Report)
    ensures Violations(capture, contract, report) == [] <==>
      && ViolationsBut(EventsOf(capture.lines), if contract.warnIfRejected then report.confirmed else []) == []
      && (Unknown in report.classifications ==> contract == DEFAULT)
  {
  }

  /** Nothing is unknown in a sound stream that completed its turn under a supported protocol exactly when standard
      error has no hint, every event after the turn start is clean, no work list is left open, and every call ran or
      was refused; and under an unsupported protocol something always is. */
  lemma {:induction false} KnownIff(capture: Capture, runtime: Runtime, t: nat)
    requires SoundStream(capture) && EndsComplete(capture.lines)
    ensures capture.protocol.Unsupported? ==> Unknown in Report(capture, runtime).classifications
    ensures var (events, report) := (Bare(EventsOf(capture.lines)), Report(capture, runtime));
      !capture.protocol.Unsupported? && Grammatical(events, t, true) ==>
        (Unknown !in report.classifications <==>
          && !runtime.toolHint(capture.stderr) && (forall e :: t <= e < |events| ==> X.Clean(events[e]))
          && !X.StepOpen(events, t)
          && forall id :: id in report.calls ==> X.Decided(report, events, capture.protocol, id))
  {
    var events := Bare(EventsOf(capture.lines));
    ParsedIsWellEnded(capture.lines);
    assert Complete(capture);
    if capture.protocol.Unsupported? {
      if Unknown !in Report(capture, runtime).classifications { KnownReport(capture, runtime); }
    } else if Grammatical(events, t, true) {
      X.FindingsAreExact(events, t, capture.protocol, true, runtime.toolHint(capture.stderr));
      X.KnownIffDecided(events, t, capture.protocol, true, runtime.toolHint(capture.stderr));
    }
  }

  // ----- Which code an attempt gets -----

  ghost predicate Reported(capture: Capture, model: string) {
    var events := EventsOf(capture.lines);
    exists k :: 0 <= k < |events| && model in events[k].models
  }

  ghost predicate TwoModels(capture: Capture) {
    exists m, n :: m != n && Reported(capture, m) && Reported(capture, n)
  }

  ghost predicate ForeignModel(capture: Capture, allowlist: set<string>) {
    exists m :: Reported(capture, m) && m != "NOT_REPORTED" && m !in allowlist
  }

  ghost predicate AnyText(capture: Capture) {
    var events := EventsOf(capture.lines);
    exists k :: 0 <= k < |events| && SaysText(events[k])
  }

  /** The last agent message, its fence taken off where the contract tolerates one, is a value of the schema that can be
      written out again and covers the planned ids, which the default contract does not ask. */
  ghost predicate OutputPasses(capture: Capture, task: Task, runtime: Runtime) {
    exists k, value :: LastToSayText(EventsOf(capture.lines), k)
      && runtime.parse(Validated(EventsOf(capture.lines)[k].text, task, runtime)) == Some(value)
      && Schema.Validates(value, task.schema) && runtime.encodable(value)
      && (task.contract == DEFAULT || CoverageHolds(Fence.Parsed(value), task.schema))
  }

  /** What is left of a text for validation. */
  ghost function Validated(text: seq<Fence.byte>, task: Task, runtime: Runtime): seq<Fence.byte> {
    Fence.Normalize(text, task.contract.output, ReaderFor(runtime, task.schema)).text
  }

  lemma {:induction false} ModelsReported(capture: Capture)
    ensures forall m :: m in ServedModels(EventsOf(capture.lines)) <==> Reported(capture, m)
  {
    forall m ensures m in ServedModels(EventsOf(capture.lines)) <==> Reported(capture, m) {
      ModelsMean(EventsOf(capture.lines), m);
    }
  }

  lemma {:induction false} TwoOrFewer(models: set<string>)
    ensures |models| > 1 <==> exists m, n :: m in models && n in models && m != n
    ensures |models| == 1 <==> exists m :: models == {m}
  {
    if m :| m in models {
      var others := models - {m};
      assert models == others + {m};
      if others == {} {
        assert models == {m};
      } else {
        var n :| n in others;
        assert n in models && |others| > 0;
      }
    }
  }

  lemma {:induction false} FallbackMeans(capture: Capture)
    ensures |Parse(capture.lines).models| > 1 <==> TwoModels(capture)
  {
    ModelsReported(capture);
    TwoOrFewer(Parse(capture.lines).models);
  }

  lemma {:induction false} ForeignMeans(capture: Capture, allowlist: set<string>)
    ensures var models := Parse(capture.lines).models;
      !TwoModels(capture) ==>
        (ForeignModel(capture, allowlist) <==>
          |models| == 1 && models != {"NOT_REPORTED"} && !(models <= allowlist))
  {
    var models := Parse(capture.lines).models;
    ModelsReported(capture);
    TwoOrFewer(models);
    if m :| m in models && !TwoModels(capture) { assert models == {m}; }
  }

  lemma {:induction false} TextMeans(capture: Capture)
    ensures Parse(capture.lines).finalText.Some? <==> AnyText(capture)
  {
    FinalTextIsTheLast(EventsOf(capture.lines), []);
  }

  lemma {:induction false} TextPasses(text: seq<Fence.byte>, task: Task, runtime: Runtime)
    ensures StatusOf(Some(Fence.Normalize(text, task.contract.output, ReaderFor(runtime, task.schema))), task) == Pass
       <==> exists value :: runtime.parse(Validated(text, task, runtime)) == Some(value)
              && Schema.Validates(value, task.schema) && runtime.encodable(value)
              && (task.contract == DEFAULT || CoverageHolds(Fence.Parsed(value), task.schema))
  {
    Fence.VerdictIsExact(text, task.contract.output, ReaderFor(runtime, task.schema));
  }

  lemma {:induction false} OutputPassesMeans(capture: Capture, task: Task, runtime: Runtime)
    ensures StatusOf(Normalization(capture, task, runtime), task) == Pass <==> OutputPasses(capture, task, runtime)
  {
    var events := EventsOf(capture.lines);
    var text := Parse(capture.lines).finalText;
    FinalTextIsTheLast(events, if text.Some? then text.value else []);
    if text.Some? {
      var k :| LastToSayText(events, k) && events[k].text == text.value;
      TextPasses(text.value, task, runtime);
      forall j | LastToSayText(events, j) ensures j == k {
      }
    }
  }

  /** What is the case, in terms of the capture. */
  datatype Conditions = Conditions(
    cancelled: bool, timedOut: bool, rateLimit: bool, prefill: bool, partial: bool, started: bool, sound: bool,
    permitted: bool, exitZero: bool, ended: bool, twoModels: bool, configured: bool, foreignModel: bool, text: bool,
    passes: bool)

  ghost function ConditionsOf(capture: Capture, task: Task, runtime: Runtime, timedOut: bool, cancelled: bool)
    : Conditions
  {
    var events := EventsOf(capture.lines);
    Conditions(
      cancelled, timedOut, runtime.rateLimit(capture.stderr, events), runtime.prefill(capture.stderr, events),
      runtime.partial(capture.stderr, events), capture.started, SoundStream(capture),
      Permitted(capture, task.contract, Report(capture, runtime)), capture.exitCode == Some(0),
      EndsComplete(capture.lines), TwoModels(capture), task.allowlist.Some?,
      task.allowlist.Some? && ForeignModel(capture, task.allowlist.value), AnyText(capture),
      OutputPasses(capture, task, runtime))
  }

  /** The condition of each code, and of success. */
  ghost predicate Warranted(code: Option<FailureCode>, c: Conditions) {
    var going := !c.cancelled && !c.timedOut && !c.rateLimit && !c.prefill && !c.partial;
    var allowed := going && c.started && c.sound && c.permitted;
    var finished := allowed && c.exitZero && c.ended;
    var asConfigured := finished && !c.twoModels && c.configured && !c.foreignModel;
    match code
    case Some(Cancelled) => c.cancelled
    case Some(Timeout) => c.timedOut && !c.cancelled
    case Some(RateLimit429) => c.rateLimit && !c.cancelled && !c.timedOut
    case Some(PrefillParameterError) => c.prefill && !c.cancelled && !c.timedOut && !c.rateLimit
    case Some(PartialParameterError) => c.partial && !c.cancelled && !c.timedOut && !c.rateLimit && !c.prefill
    case Some(CliNonzeroExit) => (going && !c.started) || (allowed && !c.exitZero)
    case Some(EventStreamInvalid) => going && c.started && !c.sound
    case Some(PolicyViolation) => going && c.started && c.sound && !c.permitted
    case Some(TurnCompletedMissing) => allowed && c.exitZero && !c.ended
    case Some(SilentFallbackDetected) => finished && (c.twoModels || c.foreignModel)
    case Some(ProfileConfigurationInvalid) => finished && !c.twoModels && !c.configured
    case Some(FinalOutputMissing) => asConfigured && !c.text
    case Some(OutputSchemaInvalid) => asConfigured && c.text && !c.passes
    case Some(OtherFailure(_)) => false
    case None => asConfigured && c.passes
  }

  ghost predicate FactsTell(f: Facts, c: Conditions) {
    && f.cancelled == c.cancelled && f.timedOut == c.timedOut && f.rateLimit == c.rateLimit && f.prefill == c.prefill
    && f.partial == c.partial && f.started == c.started && f.valid == c.sound && (f.violations == [] <==> c.permitted)
    && (f.exitCode == Some(0) <==> c.exitZero) && (c.sound ==> (f.completed != 0 <==> c.ended))
    && (|f.models| > 1 <==> c.twoModels) && f.allowlist.Some? == c.configured
    && (!c.twoModels && c.configured ==>
      (c.foreignModel <==> |f.models| == 1 && f.models != {"NOT_REPORTED"} && !(f.models <= f.allowlist.value)))
    && f.finalText == c.text && (f.schemaStatus == Pass <==> c.passes) && (c.passes ==> c.text)
    && (c.foreignModel ==> c.configured)
  }

  lemma {:induction false} FactsAreTold(capture: Capture, task: Task, runtime: Runtime, timedOut: bool, cancelled: bool)
    ensures FactsTell(FactsOf(capture, task, runtime, timedOut, cancelled),
                      ConditionsOf(capture, task, runtime, timedOut, cancelled))
  {
    StreamValidMeans(capture, runtime);
    PermittedMeans(capture, task.contract, Report(capture, runtime));
    ParsedIsWellEnded(capture.lines);
    FallbackMeans(capture);
    TextMeans(capture);
    OutputPassesMeans(capture, task, runtime);
    if task.allowlist.Some? { ForeignMeans(capture, task.allowlist.value); }
  }

  lemma {:induction false} FactsDecide(f: Facts, c: Conditions, code: Option<FailureCode>)
    requires FactsTell(f, c)
    ensures Decide(f) == code <==> Warranted(code, c)
  {
  }

  /** Every code is given exactly under its condition, and so is success. */
  lemma {:induction false} CodesAreExact(code: Option<FailureCode>, capture: Capture, task: Task, runtime: Runtime,
                                         timedOut: bool, cancelled: bool)
    ensures Evaluated(capture, task, runtime, timedOut, cancelled).failure == code
       <==> Warranted(code, ConditionsOf(capture, task, runtime, timedOut, cancelled))
  {
    FactsAreTold(capture, task, runtime, timedOut, cancelled);
    FactsDecide(FactsOf(capture, task, runtime, timedOut, cancelled),
      ConditionsOf(capture, task, runtime, timedOut, cancelled), code);
  }

  // ----- What success means -----

  lemma {:induction false} NoFailureMeans(f: Facts)
    requires Decide(f).None?
    ensures !f.cancelled && !f.timedOut && f.valid && f.violations == [] && f.exitCode == Some(0) && f.completed != 0
    ensures f.finalText && f.schemaStatus == Pass
  {
  }

  lemma {:induction false} PassMeans(capture: Capture, task: Task, runtime: Runtime)
    requires StatusOf(Normalization(capture, task, runtime), task) == Pass
    ensures var n := Normalization(capture, task, runtime);
      && n.Some? && n.value.value.Parsed? && Schema.Validates(n.value.value.json, task.schema)
      && (task.contract != DEFAULT ==> CoverageHolds(n.value.value, task.schema))
  {
  }

  /** What an evaluation without failure was given. */
  lemma {:induction false} SuccessMeans(capture: Capture, task: Task, runtime: Runtime, timedOut: bool, cancelled: bool)
    requires Evaluated(capture, task, runtime, timedOut, cancelled).failure.None?
    ensures var report := Report(capture, runtime);
      && StreamValid(capture, report) && Violations(capture, task.contract, report) == []
        && Parse(capture.lines).completed == 1
      && StatusOf(Normalization(capture, task, runtime), task) == Pass
      && !cancelled && !timedOut && capture.exitCode == Some(0)
  {
    NoFailureMeans(FactsOf(capture, task, runtime, timedOut, cancelled));
  }

  /** A result that says success has a completed turn and an output that passed its schema. */
  lemma {:induction false} TerminalInvariantsHold(capture: Capture, task: Task, runtime: Runtime, timedOut: bool,
                                                  cancelled: bool)
    ensures var r := Evaluated(capture, task, runtime, timedOut, cancelled);
      r.failure.None? ==>
        && r.turnCompleted && r.schemaStatus == Pass && r.output.Some? && r.output.value.Parsed?
        && Schema.Validates(r.output.value.json, task.schema) && !timedOut && !cancelled && capture.exitCode == Some(0)
  {
    if Evaluated(capture, task, runtime, timedOut, cancelled).failure.None? {
      SuccessMeans(capture, task, runtime, timedOut, cancelled);
      PassMeans(capture, task, runtime);
    }
  }

  /** Success of a supported protocol: the stream is in the lifecycle grammar. */
  lemma {:induction false} SuccessIsGrammatical(capture: Capture, task: Task, runtime: Runtime, timedOut: bool,
                                                cancelled: bool)
    requires Evaluated(capture, task, runtime, timedOut, cancelled).failure.None? && !capture.protocol.Unsupported?
    ensures exists t :: Grammatical(Bare(Parse(capture.lines).events), t, true)
  {
    SuccessMeans(capture, task, runtime, timedOut, cancelled);
    AcceptsExactlyTheGrammar(Bare(Parse(capture.lines).events), true);
  }

  lemma {:induction false} ViolationsOfAll(events: seq<Captured>, exempt: seq<nat>, i: nat)
    requires ViolationsBut(events, exempt) == [] && i < |events| && i !in exempt
    ensures events[i].violations == []
  {
    if i < |events| - 1 { ViolationsOfAll(events[..|events| - 1], exempt, i); }
  }

  lemma {:induction false} NoViolations(capture: Capture, contract: Contract, report: Activity.Report)
    requires Violations(capture, contract, report) == []
    ensures ViolationsBut(Parse(capture.lines).events, if contract.warnIfRejected then report.confirmed else []) == []
    ensures contract != DEFAULT ==> Unknown !in report.classifications
  {
  }

  lemma {:induction false} KnownReport(capture: Capture, runtime: Runtime)
    requires Unknown !in Report(capture, runtime).classifications
    ensures var (events, report) := (Bare(Parse(capture.lines).events), Report(capture, runtime));
      && report.findings == [] && !capture.protocol.Unsupported? && !runtime.toolHint(capture.stderr)
      && (exists t :: Grammatical(events, t, true))
      && forall e :: e in report.confirmed ==> e < |events| && IsRejection(events[e])
  {
    var events := Bare(Parse(capture.lines).events);
    KnownMeansClean(events, capture.protocol, Complete(capture), runtime.toolHint(capture.stderr));
    ConfirmedRejections(events, capture.protocol, Complete(capture), runtime.toolHint(capture.stderr));
    ConfirmedAreEvents(events, capture.protocol, Complete(capture), runtime.toolHint(capture.stderr));
  }

  lemma {:induction false} OnlyExemptViolate(events: seq<Captured>, exempt: seq<nat>)
    requires ViolationsBut(events, exempt) == []
    ensures forall i :: 0 <= i < |events| && events[i].violations != [] ==> i in exempt
  {
    forall i | 0 <= i < |events| && events[i].violations != [] ensures i in exempt {
      if i !in exempt { ViolationsOfAll(events, exempt, i); }
    }
  }

  /** Nothing unknown, and only confirmed rejections violate the policy. */
  ghost predicate OnlyConfirmedRejections(capture: Capture, contract: Contract, report: Activity.Report) {
    var events := Parse(capture.lines).events;
    && Unknown !in report.classifications && report.findings == [] && !capture.protocol.Unsupported?
    && (exists t :: Grammatical(Bare(events), t, true))
    && forall i :: 0 <= i < |events| && events[i].violations != [] ==>
         contract.warnIfRejected && i in report.confirmed && IsRejection(events[i].event)
  }

  lemma {:induction false} ExemptAreConfirmed(events: seq<Captured>, confirmed: seq<nat>, warn: bool)
    requires ViolationsBut(events, if warn then confirmed else []) == []
    requires forall e :: e in confirmed ==> e < |events| && IsRejection(events[e].event)
    ensures forall i :: 0 <= i < |events| && events[i].violations != [] ==>
      warn && i in confirmed && IsRejection(events[i].event)
  {
    OnlyExemptViolate(events, if warn then confirmed else []);
  }

  lemma {:induction false} UnviolatedIsKnown(capture: Capture, contract: Contract, runtime: Runtime)
    requires Violations(capture, contract, Report(capture, runtime)) == [] && contract != DEFAULT
    ensures OnlyConfirmedRejections(capture, contract, Report(capture, runtime))
  {
    var report := Report(capture, runtime);
    NoViolations(capture, contract, report);
    KnownReport(capture, runtime);
    ExemptAreConfirmed(Parse(capture.lines).events, report.confirmed, contract.warnIfRejected);
  }

  /** Success under a contract that asks for more than the default: the protocol is supported, nothing is unknown, and
      every event with a policy violation is a confirmed rejection that the contract turns into a warning. */
  lemma {:induction false} StrictSuccessIsKnown(capture: Capture, task: Task, runtime: Runtime, timedOut: bool,
                                                cancelled: bool)
    requires Evaluated(capture, task, runtime, timedOut, cancelled).failure.None? && task.contract != DEFAULT
    ensures OnlyConfirmedRejections(capture, task.contract, Report(capture, runtime))
  {
    SuccessMeans(capture, task, runtime, timedOut, cancelled);
    UnviolatedIsKnown(capture, task.contract, runtime);
  }

  // ----- Standard error only makes it stricter -----

  /** A pattern found without standard error is found with it, and the tool hint is not found in an empty text. */
  ghost predicate Monotone(runtime: Runtime) {
    && !runtime.toolHint("")
    && forall stderr, events ::
         && (runtime.rateLimit("", events) ==> runtime.rateLimit(stderr, events))
         && (runtime.prefill("", events) ==> runtime.prefill(stderr, events))
         && (runtime.partial("", events) ==> runtime.partial(stderr, events))
  }

  function Silent(capture: Capture): Capture {
    capture.(stderr := "")
  }

  lemma {:induction false} SilentReport(capture: Capture, task: Task, runtime: Runtime)
    requires Monotone(runtime) && Violations(capture, task.contract, Report(capture, runtime)) == []
    ensures Report(Silent(capture), runtime).lifecycle == Report(capture, runtime).lifecycle
    ensures Violations(Silent(capture), task.contract, Report(Silent(capture), runtime)) == []
  {
    NoViolations(capture, task.contract, Report(capture, runtime));
    if task.contract != DEFAULT {
      KnownReport(capture, runtime);
      assert Report(Silent(capture), runtime) == Report(capture, runtime);
    }
  }

  /** What succeeds with some standard error succeeds, with the same output, without it. */
  lemma {:induction false} StderrOnlyMakesStricter(capture: Capture, task: Task, runtime: Runtime, timedOut: bool,
                                                   cancelled: bool)
    requires Monotone(runtime) && Evaluated(capture, task, runtime, timedOut, cancelled).failure.None?
    ensures Evaluated(Silent(capture), task, runtime, timedOut, cancelled)
         == Evaluated(capture, task, runtime, timedOut, cancelled)
  {
    var facts := FactsOf(capture, task, runtime, timedOut, cancelled);
    SuccessMeans(capture, task, runtime, timedOut, cancelled);
    SilentReport(capture, task, runtime);
    var silent := FactsOf(Silent(capture), task, runtime, timedOut, cancelled);
    assert silent.valid && silent.violations == [];
  }

  // ----- Reading a stored capture again -----

  /** A stored attempt: its capture, the task as it was, the recorded failure and the recorded final text, if any. */
  datatype Source = Source(capture: Capture, task: Task, failure: Option<FailureCode>,
    rawFinal: Option<seq<Fence.byte>>)

  datatype Coverage = Covered | Uncovered | NotApplicable

  datatype Derived = Derived(outcome: Outcome, coverage: Coverage)

  predicate Reinterpretable(failure: Option<FailureCode>) {
    failure in {None, Some(PolicyViolation), Some(OutputSchemaInvalid)}
  }

  function RawFinal(capture: Capture): seq<Fence.byte> {
    var text := Parse(capture.lines).finalText;
    if text.Some? then text.value else []
  }

  function CoverageOf(outcome: Outcome, schema: Schema.Json): Coverage {
    if outcome.failure.Some? then NotApplicable
    else if outcome.output.None? || !outcome.output.value.Parsed? then Uncovered
    else match Schema.CoverageBySchema(outcome.output.value.json, schema)
      case Pass => Covered
      case NotApplicable => NotApplicable
      case _ => Uncovered
  }

  function Again(source: Source, contract: Contract, runtime: Runtime): Outcome {
    Evaluated(source.capture, source.task.(contract := contract), runtime,
              source.failure == Some(Timeout), source.failure == Some(Cancelled))
  }

  function Revalidated(source: Source, contract: Contract, runtime: Runtime): Option<Derived> {
    var first := Again(source, contract, runtime);
    if source.rawFinal.Some? && source.rawFinal.value != RawFinal(source.capture) then None
    else
      var coverage := CoverageOf(first, source.task.schema);
      var second := if coverage.Uncovered? then first.(failure := Some(OutputSchemaInvalid), schemaStatus := Fail)
        else first;
      Some(Derived(if Reinterpretable(source.failure) then second else second.(failure := source.failure), coverage))
  }

  /** What an invocation of the task stores. */
  ghost predicate StoredFrom(source: Source, runtime: Runtime, timedOut: bool, cancelled: bool) {
    && source.failure == Evaluated(source.capture, source.task, runtime, timedOut, cancelled).failure
    && (source.rawFinal.Some? ==> source.rawFinal.value == RawFinal(source.capture))
  }

  lemma {:induction false} FlagsDecide(f: Facts)
    ensures f.cancelled ==> Decide(f) == Some(Cancelled)
    ensures !f.cancelled && f.timedOut ==> Decide(f) == Some(Timeout)
    ensures !f.cancelled && !f.timedOut ==> Decide(f) != Some(Cancelled) && Decide(f) != Some(Timeout)
  {
  }

  lemma {:induction false} OwnContractDecidesAgain(source: Source, runtime: Runtime, timedOut: bool, cancelled: bool)
    requires StoredFrom(source, runtime, timedOut, cancelled)
    ensures Again(source, source.task.contract, runtime).failure == source.failure
  {
    FlagsDecide(FactsOf(source.capture, source.task, runtime, timedOut, cancelled));
    assert source.task.(contract := source.task.contract) == source.task;
  }

  lemma {:induction false} CoveredOutcome(outcome: Outcome, output: Fence.Value<Schema.Json>, schema: Schema.Json)
    requires outcome.failure.None? && outcome.output == Some(output) && CoverageHolds(output, schema)
    ensures !CoverageOf(outcome, schema).Uncovered?
  {
  }

  lemma {:induction false} SuccessIsCovered(capture: Capture, task: Task, runtime: Runtime)
    requires Evaluated(capture, task, runtime, false, false).failure.None? && task.contract != DEFAULT
    ensures !CoverageOf(Evaluated(capture, task, runtime, false, false), task.schema).Uncovered?
  {
    SuccessMeans(capture, task, runtime, false, false);
    PassMeans(capture, task, runtime);
    CoveredOutcome(Evaluated(capture, task, runtime, false, false), Normalization(capture, task, runtime).value.value,
      task.schema);
  }

  /** Reading an attempt again under its own contract reproduces its failure, except that a success whose output does
      not cover its ids becomes a schema failure, which only the default contract could have let through. */
  lemma {:induction false} OwnContractReproduces(source: Source, runtime: Runtime, timedOut: bool, cancelled: bool)
    requires StoredFrom(source, runtime, timedOut, cancelled)
    ensures var derived := Revalidated(source, source.task.contract, runtime);
      && derived.Some?
      && (source.failure.Some? ==> derived.value.outcome.failure == source.failure)
      && (source.failure.None? && !derived.value.coverage.Uncovered? ==> derived.value.outcome.failure.None?)
      && (source.failure.None? && derived.value.coverage.Uncovered? ==>
           derived.value.outcome.failure == Some(OutputSchemaInvalid) && source.task.contract == DEFAULT)
  {
    OwnContractDecidesAgain(source, runtime, timedOut, cancelled);
    if source.failure.None? && source.task.contract != DEFAULT {
      SuccessIsCovered(source.capture, source.task, runtime);
    }
  }

  /** Under any contract only a success, a policy violation or a schema failure can come out successful; every other
      failure keeps its code. A derived success satisfies the terminal invariants and is not uncovered. */
  lemma {:induction false} OnlyInterpretationIsReinterpreted(source: Source, contract: Contract, runtime: Runtime)
    requires Revalidated(source, contract, runtime).Some?
    ensures var derived := Revalidated(source, contract, runtime).value;
      && (derived.outcome.failure.None? ==>
           && Reinterpretable(source.failure) && !derived.coverage.Uncovered?
           && derived.outcome.turnCompleted && derived.outcome.schemaStatus == Pass)
      && (!Reinterpretable(source.failure) ==> derived.outcome.failure == source.failure)
  {
    var task := source.task.(contract := contract);
    TerminalInvariantsHold(source.capture, task, runtime, source.failure == Some(Timeout),
      source.failure == Some(Cancelled));
  }

  /** The text a capture ends with, or nothing. */
  ghost predicate EndsWithText(capture: Capture, text: seq<Fence.byte>) {
    var events := EventsOf(capture.lines);
    if NoText(events) then text == [] else LastTextIs(events, text)
  }

  /** A stored attempt is refused exactly when the text stored beside its capture is not the one the capture ends
      with. */
  lemma {:induction false} RefusedIffTextDiffers(source: Source, contract: Contract, runtime: Runtime)
    ensures Revalidated(source, contract, runtime).None? <==>
            source.rawFinal.Some? && !EndsWithText(source.capture, source.rawFinal.value)
  {
    TextMeans(source.capture);
    var found := Parse(source.capture.lines).finalText;
    FinalTextIsTheLast(EventsOf(source.capture.lines), if found.Some? then found.value else []);
    FinalTextIsTheLast(EventsOf(source.capture.lines), if source.rawFinal.Some? then source.rawFinal.value else []);
  }

  /** A derived attempt is successful exactly when its recorded failure is one of interpretation, the capture meets the
      conditions of success under the new contract, and the output does not miss ids of its schema. */
  lemma {:induction false} SuccessfulIffReinterpreted(source: Source, contract: Contract, runtime: Runtime)
    requires Revalidated(source, contract, runtime).Some?
    ensures var task := source.task.(contract := contract);
      var again := Again(source, contract, runtime);
      Revalidated(source, contract, runtime).value.outcome.failure.None? <==>
        && (source.failure in {None, Some(PolicyViolation), Some(OutputSchemaInvalid)})
        && Warranted(None, ConditionsOf(source.capture, task, runtime, false, false))
        && again.output.Some? && CoverageHolds(again.output.value, task.schema)
  {
    var task := source.task.(contract := contract);
    var (late, cut) := (source.failure == Some(Timeout), source.failure == Some(Cancelled));
    DerivedSucceeds(source, contract, runtime);
    if source.failure in {None, Some(PolicyViolation), Some(OutputSchemaInvalid)} {
      assert !late && !cut;
      CodesAreExact(None, source.capture, task, runtime, false, false);
      TerminalInvariantsHold(source.capture, task, runtime, false, false);
      if Again(source, contract, runtime).failure.None? { CoveredMeans(Again(source, contract, runtime), task.schema); }
    }
  }

  lemma {:induction false} CoveredMeans(outcome: Outcome, schema: Schema.Json)
    requires outcome.failure.None? && outcome.output.Some?
    ensures !CoverageOf(outcome, schema).Uncovered? <==> CoverageHolds(outcome.output.value, schema)
  {
  }

  lemma {:induction false} DerivedSucceeds(source: Source, contract: Contract, runtime: Runtime)
    requires Revalidated(source, contract, runtime).Some?
    ensures var again := Again(source, contract, runtime);
      Revalidated(source, contract, runtime).value.outcome.failure.None? <==>
        && source.failure in {None, Some(PolicyViolation), Some(OutputSchemaInvalid)}
        && again.failure.None? && !CoverageOf(again, source.task.schema).Uncovered?
  {
  }

  // ----- The procedures -----

  method ReadLines(lines: seq<Line>) returns (events: seq<Captured>, broken: bool)
    ensures events == EventsOf(lines) && broken == Breaks(lines)
  {
    events, broken := [], false;
    for i := 0 to |lines|
      invariant EventsOf(lines) == events + EventsOf(lines[i..]) && forall k :: 0 <= k < i ==> !lines[k].Broken?
    {
      if lines[i].Broken? { return events, true; }
      if lines[i].Good? { events := events + [lines[i].captured]; }
    }
  }

  method ParseEventStream(lines: seq<Line>) returns (parsed: Parsed)
    ensures parsed == Parse(lines)
  {
    var events, broken := ReadLines(lines);
    parsed := Accumulate(events);
    if broken { parsed := parsed.(valid := false); }
  }

  method Accumulate(events: seq<Captured>) returns (parsed: Parsed)
    ensures parsed == Summed(events)
  {
    var completed, finalText, models, violations := 0, None, {}, [];
    for k := 0 to |events|
      invariant completed == CompletedTurns(events[..k]) && finalText == FinalText(events[..k])
      invariant models == ServedModels(events[..k]) && violations == ViolationsBut(events[..k], [])
    {
      var c := events[k];
      assert events[..k + 1][..k] == events[..k];
      if c.event.kind.TurnCompleted? { completed := completed + 1; }
      models, violations := models + c.models, violations + c.violations;
      if IsFinalText(c) { finalText := Some(c.text); }
    }
    assert events[..|events|] == events;
    var terminalLast := |events| > 0 && events[|events| - 1].event.kind.TurnCompleted?;
    var valid := |events| > 0;
    if completed > 1 { valid := false; }
    if completed > 0 && !terminalLast { valid := false; }
    parsed := Parsed(events, valid, completed, terminalLast, finalText, models, violations);
  }

  method Observed(capture: Capture, runtime: Runtime) returns (parsed: Parsed, report: Activity.Report)
    ensures var p := Parse(capture.lines); parsed == p.(valid := capture.encoded && p.valid)
    ensures report == Report(capture, runtime)
  {
    parsed := ParseEventStream(capture.lines);
    if !capture.encoded { parsed := parsed.(valid := false); }
    report := ClassifyActivity(Bare(parsed.events), capture.protocol,
      parsed.valid && parsed.completed == 1 && parsed.terminalLast, runtime.toolHint(capture.stderr));
  }

  /** The stream's validity and violations, as the tool activity and the contract leave them. */
  method Interpret(capture: Capture, contract: Contract, runtime: Runtime) returns (parsed: Parsed)
    ensures var (p, report) := (Parse(capture.lines), Report(capture, runtime));
      parsed == p.(valid := StreamValid(capture, report), violations := Violations(capture, contract, report))
  {
    var report;
    parsed, report := Observed(capture, runtime);
    if !capture.protocol.Unsupported? && report.lifecycle != [] && parsed.completed == 1 {
      parsed := parsed.(valid := false);
    }
    if contract.warnIfRejected && report.confirmed != [] {
      parsed := parsed.(violations := ViolationsBut(parsed.events, report.confirmed));
    }
    if Unknown in report.classifications && contract != DEFAULT {
      parsed := parsed.(violations := parsed.violations + ["tool activity not conclusively classified"]);
    }
  }

  method ReadOutput(text: Option<seq<Fence.byte>>, task: Task, runtime: Runtime)
    returns (output: Option<Fence.Value<Schema.Json>>, status: SchemaStatus)
    ensures var normalized :=
        if text.None? then None
          else Some(Fence.Normalize(text.value, task.contract.output, ReaderFor(runtime, task.schema)));
      status == StatusOf(normalized, task) && output == if normalized.Some? then Some(normalized.value.value) else None
  {
    if text.None? { return None, NotRun; }
    var n := Fence.NormalizeOutput(text.value, task.contract.output, ReaderFor(runtime, task.schema));
    output, status := Some(n.value), if n.failure.None? then Pass else Fail;
    if status == Pass && task.contract != DEFAULT && !CoverageHolds(n.value, task.schema) { status := Fail; }
  }

  method EvaluateCapture(capture: Capture, task: Task, runtime: Runtime, timedOut: bool, cancelled: bool)
    returns (result: Outcome)
    ensures result == Evaluated(capture, task, runtime, timedOut, cancelled)
  {
    var parsed := Interpret(capture, task.contract, runtime);
    var output, status := ReadOutput(parsed.finalText, task, runtime);
    var failure := Decide(Facts(cancelled, timedOut, runtime.rateLimit(capture.stderr, parsed.events),
      runtime.prefill(capture.stderr, parsed.events), runtime.partial(capture.stderr, parsed.events), capture.started,
      parsed.valid, parsed.violations, capture.exitCode, parsed.completed, parsed.models, task.allowlist,
      parsed.finalText.Some?, status));
    result := Outcome(failure, parsed.completed == 1, output, status);
  }

  method Revalidate(source: Source, contract: Contract, runtime: Runtime) returns (derived: Option<Derived>)
    ensures derived == Revalidated(source, contract, runtime)
  {
    var evaluated := EvaluateCapture(source.capture, source.task.(contract := contract), runtime,
      source.failure == Some(Timeout), source.failure == Some(Cancelled));
    if source.rawFinal.Some? && source.rawFinal.value != RawFinal(source.capture) { return None; }
    var coverage := NotApplicable;
    if evaluated.failure.None? {
      coverage := CoverageOf(evaluated, source.task.schema);
      if coverage.Uncovered? { evaluated := evaluated.(failure := Some(OutputSchemaInvalid), schemaStatus := Fail); }
    }
    if !Reinterpretable(source.failure) { evaluated := evaluated.(failure := source.failure); }
    derived := Some(Derived(evaluated, coverage));
  }
}
