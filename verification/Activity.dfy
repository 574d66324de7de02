/** What an observed stream proves about tool activity, and which refused user-input calls it confirms. */
module Activity {
  import opened Wrappers
  import opened Lifecycle
  import Text

  datatype Protocol = Unsupported | Synthetic | CodexExec

  datatype State = Executed | Rejected | Unknown | Started | NoActivity

  datatype Outcome = PreexecutionRejection | CommandDeclined | Success | ExecutionFailed | Finished(status: Status)

  datatype Call = Call(tool: ItemKind, evidence: seq<nat>, states: seq<State>, outcome: Option<Outcome>, closed: bool)

  datatype Finding =
    | UnsupportedOrIncomplete | OfLifecycle(issue: Issue) | UnfinishedWork | StderrSignal
    | InvalidEventType(index: nat) | UnsupportedEvent(index: nat) | InvalidItem(index: nat)
    | InvalidTextItem(index: nat) | InvalidWorkState(index: nat) | MissingCallIdentity(index: nat)

  datatype Tally = Tally(
    calls: map<string, Call>, order: seq<string>, work: map<string, seq<bool>>, findings: seq<Finding>,
      exempt: seq<nat>)

  datatype CallReport = CallReport(
    tool: ItemKind, evidence: seq<nat>, outcome: Option<Outcome>, closed: bool, classifications: set<State>)

  datatype Report = Report(
    diagnostics: seq<nat>, lifecycle: seq<Issue>, classifications: set<State>, order: seq<string>,
    calls: map<string, CallReport>, findings: seq<Finding>, confirmed: seq<nat>)

  const EMPTY := Tally(map[], [], map[], [], [])

  predicate IsTool(kind: ItemKind) {
    kind in {CommandExecution, McpToolCall, WebSearch, FileChange, CollabToolCall}
  }

  // ----- One call's evidence -----

  /** What one event adds to its call: a state, and an outcome if it settles one. */
  datatype Grade = Grade(state: State, outcome: Option<Outcome>)

  predicate RefusedBeforeExecution(first: bool, event: Event)
    requires event.item.Some?
  {
    event.item.value.noninteractive && event.kind.ItemCompleted? && first
  }

  function GradeCommand(first: bool, kind: Kind, item: Item): Grade {
    if item.status.Declined? && item.exitCode.NoCode? && kind.ItemCompleted? && first
      then Grade(Rejected, Some(CommandDeclined))
    else if kind.ItemCompleted? && item.status in {Completed, Failed} && item.exitCode.Code? then
      Grade(Executed, Some(if item.exitCode.value == 0 then Success else ExecutionFailed))
    else if item.status.InProgress? && kind in {ItemStarted, ItemUpdated} then Grade(Started, None)
    else Grade(Unknown, None)
  }

  function GradeDispatched(kind: Kind, item: Item): Grade {
    if kind.ItemStarted? && item.status.InProgress? then Grade(Executed, None)
    else if kind.ItemCompleted? && item.status in {Completed, Failed} then Grade(Executed, Some(Finished(item.status)))
    else Grade(Unknown, None)
  }

  /** `first` says that no earlier evidence, and no conflict with it, has given the call a state. */
  function GradeOf(first: bool, event: Event, protocol: Protocol): Grade
    requires event.item.Some? && event.item.value.kind.Some?
  {
    var item, kind := event.item.value, event.item.value.kind.value;
    if kind.UserInputRejection? && protocol.Synthetic? then
      if RefusedBeforeExecution(first, event) then Grade(Rejected, Some(PreexecutionRejection))
        else Grade(Unknown, None)
    else if !IsTool(kind) || protocol.Unsupported? then Grade(Unknown, None)
    else match kind
      case CommandExecution => GradeCommand(first, event.kind, item)
      case McpToolCall | CollabToolCall => GradeDispatched(event.kind, item)
      case WebSearch => Grade(if item.hasQuery && item.hasAction then Executed else Unknown, None)
      case _ => Grade(if event.kind.ItemCompleted? && item.status.Completed? then Executed else Unknown, None)
  }

  function Mark(call: Call, state: State): Call {
    call.(states := call.states + [state])
  }

  function Attend(call: Call, index: nat, kind: ItemKind): Call {
    var seen := call.(evidence := call.evidence + [index]);
    if call.tool != kind || call.closed then Mark(seen, Unknown) else seen
  }

  function Graded(call: Call, grade: Grade, completed: bool): Call {
    Mark(call, grade.state).(outcome := if grade.outcome.Some? then grade.outcome else call.outcome,
                             closed := call.closed || completed)
  }

  function CallOf(calls: map<string, Call>, id: string, kind: ItemKind): Call {
    if id in calls then calls[id] else Call(kind, [], [], None, false)
  }

  function Recorded(call: Call, index: nat, event: Event, protocol: Protocol): Call
    requires event.item.Some? && event.item.value.kind.Some?
  {
    var seen := Attend(call, index, event.item.value.kind.value);
    Graded(seen, GradeOf(seen.states == [], event, protocol), event.kind.ItemCompleted?)
  }

  predicate Exempted(call: Call, index: nat, event: Event, protocol: Protocol)
    requires event.item.Some? && event.item.value.kind.Some?
  {
    && event.item.value.kind.value.UserInputRejection? && protocol.Synthetic?
    && RefusedBeforeExecution(Attend(call, index, event.item.value.kind.value).states == [], event)
  }

  function CallId(index: nat, item: Item): string {
    if Named(item.id) then item.id.value else "unidentified-" + Text.Decimal(index)
  }

  function RecordCall(t: Tally, index: nat, event: Event, protocol: Protocol): Tally
    requires event.item.Some? && event.item.value.kind.Some?
  {
    var id := CallId(index, event.item.value);
    var call := CallOf(t.calls, id, event.item.value.kind.value);
    Tally(
      t.calls[id := Recorded(call, index, event, protocol)], if id in t.calls then t.order else t.order + [id], t.work,
      if Named(event.item.value.id) then t.findings else t.findings + [MissingCallIdentity(index)],
      if Exempted(call, index, event, protocol) then t.exempt + [index] else t.exempt)
  }

  // ----- One event -----

  function Find(t: Tally, finding: Finding): Tally {
    t.(findings := t.findings + [finding])
  }

  function Benign(t: Tally, index: nat, item: Item): Tally
    requires item.kind.Some?
  {
    if item.kind.value.TodoList? then
      if item.todo.None? || item.id.None? then Find(t, InvalidWorkState(index))
      else t.(work := t.work[item.id.value := item.todo.value])
    else if !item.hasText then Find(t, InvalidTextItem(index)) else t
  }

  predicate IsBenign(kind: ItemKind) {
    kind in {AgentMessage, Reasoning, TodoList}
  }

  function Examine(t: Tally, index: nat, event: Event, protocol: Protocol): Tally {
    if event.kind.UntypedEvent? then Find(t, InvalidEventType(index))
    else if event.kind in {OtherEvent, TurnFailed, ErrorEvent} then Find(t, UnsupportedEvent(index))
    else if !IsItem(event.kind) then t
    else if event.item.None? || event.item.value.kind.None? then Find(t, InvalidItem(index))
    else if IsBenign(event.item.value.kind.value) then Benign(t, index, event.item.value)
    else RecordCall(t, index, event, protocol)
  }

  function TallyUp(events: seq<Event>, n: nat, diagnostics: seq<nat>, protocol: Protocol): Tally
    requires n <= |events|
  {
    if n == 0 then EMPTY
    else
      var t := TallyUp(events, n - 1, diagnostics, protocol);
      if n - 1 in diagnostics then t else Examine(t, n - 1, events[n - 1], protocol)
  }

  // ----- The report -----

  function Verdict(call: Call): set<State> {
    var states := set s | s in call.states;
    var widened :=
      if !call.closed || (Rejected in states && (Executed in states || Started in states)) then states + {Unknown}
        else states;
    var settled := widened - {Started};
    if settled == {} then {Unknown} else settled
  }

  function ReportCall(call: Call, clean: bool): CallReport {
    CallReport(call.tool, call.evidence, if clean then call.outcome else None, call.closed,
               if clean then Verdict(call) else {Unknown})
  }

  predicate Shown(calls: map<string, CallReport>, state: State) {
    exists id :: id in calls && state in calls[id].classifications
  }

  function Aggregate(calls: map<string, CallReport>): set<State> {
    set s: State | Shown(calls, s)
  }

  function Conclude(aggregate: set<State>, findings: seq<Finding>): set<State> {
    var widened := if findings == [] then aggregate else aggregate + {Unknown};
    if widened == {} then {NoActivity} else widened
  }

  predicate WorkLeft(work: map<string, seq<bool>>) {
    exists id :: id in work && false in work[id]
  }

  function OfLifecycleAll(issues: seq<Issue>): (r: seq<Finding>)
    ensures |r| == |issues|
  {
    if issues == [] then [] else OfLifecycleAll(issues[..|issues| - 1]) + [OfLifecycle(issues[|issues| - 1])]
  }

  function Findings(t: Tally, issues: seq<Issue>, fit: bool, signal: bool): seq<Finding> {
    (if fit then [] else [UnsupportedOrIncomplete]) + OfLifecycleAll(issues) + t.findings
    + (if WorkLeft(t.work) then [UnfinishedWork] else []) + (if signal then [StderrSignal] else [])
  }

  function Summarize(t: Tally, issues: seq<Issue>, diagnostics: seq<nat>, findings: seq<Finding>): Report {
    var calls := map id | id in t.calls :: ReportCall(t.calls[id], issues == []);
    var classifications := Conclude(Aggregate(calls), findings);
    Report(diagnostics, issues, classifications, t.order, calls, findings,
      if Unknown in classifications then [] else t.exempt)
  }

  /** `complete` says that the capture was not cut off, `signal` that standard error hints at a refused tool. */
  function Classify(events: seq<Event>, protocol: Protocol, complete: bool, signal: bool): Report {
    var (issues, diagnostics) := Judge(events, !protocol.Unsupported?);
    var t := TallyUp(events, |events|, diagnostics, protocol);
    Summarize(t, issues, diagnostics, Findings(t, issues, complete && !protocol.Unsupported?, signal))
  }

  // ----- What a confirmed rejection means -----

  /** A call has no evidence exactly when it has no states. */
  ghost predicate Sound(call: Call) {
    (call.evidence == [] <==> call.states == []) && NoActivity !in call.states
  }

  ghost predicate OnlyRejected(call: Call, index: nat) {
    call.evidence == [index] && call.states == [Rejected] && call.closed && call.outcome == Some(PreexecutionRejection)
  }

  predicate IsRejection(event: Event) {
    IsItem(event.kind) && event.item.Some? && event.item.value.kind == Some(UserInputRejection)
  }

  /** The event belongs to the call. */
  ghost predicate Owns(events: seq<Event>, id: string, index: nat) {
    index < |events| && events[index].item.Some? && CallId(index, events[index].item.value) == id
  }

  ghost predicate CallsSound(calls: map<string, Call>, events: seq<Event>, n: nat) {
    forall id :: id in calls ==>
      Sound(calls[id]) && calls[id].evidence != [] && forall e :: e in calls[id].evidence ==>
        e < n && Owns(events, id, e)
  }

  ghost predicate AnyUnknown(calls: map<string, Call>) {
    exists id :: id in calls && Unknown in calls[id].states
  }

  ghost predicate Vouched(calls: map<string, Call>, index: nat) {
    AnyUnknown(calls) || exists id :: id in calls && OnlyRejected(calls[id], index)
  }

  ghost predicate ExemptSound(t: Tally, events: seq<Event>, n: nat, protocol: Protocol)
    requires n <= |events|
  {
    && (forall e :: e in t.exempt ==> e < n && IsRejection(events[e]) && protocol.Synthetic? && Vouched(t.calls, e))
    && (forall e :: 0 <= e < n && IsRejection(events[e]) ==> e in t.exempt || AnyUnknown(t.calls))
  }

  lemma {:induction false} RecordedCall(call: Call, index: nat, event: Event, protocol: Protocol)
    requires event.item.Some? && event.item.value.kind.Some? && Sound(call)
    ensures var r := Recorded(call, index, event, protocol);
      && Sound(r) && r.evidence == call.evidence + [index] && call.states <= r.states
        && (call.closed ==> Unknown in r.states)
  {
    var seen := Attend(call, index, event.item.value.kind.value);
    assert GradeOf(seen.states == [], event, protocol).state != NoActivity;
  }

  lemma {:induction false} ExemptedIsOnlyRejected(call: Call, index: nat, event: Event, protocol: Protocol)
    requires event.item.Some? && event.item.value.kind.Some? && Sound(call)
    requires event.item.value.kind.value.UserInputRejection?
    ensures Exempted(call, index, event, protocol) ==> OnlyRejected(Recorded(call, index, event, protocol), index)
    ensures !Exempted(call, index, event, protocol) ==> Unknown in Recorded(call, index, event, protocol).states
  {
  }

  ghost predicate Recordable(events: seq<Event>, n: nat) {
    && n < |events| && IsItem(events[n].kind) && events[n].item.Some? && events[n].item.value.kind.Some?
    && !IsBenign(events[n].item.value.kind.value)
  }

  lemma {:induction false} RecordKeepsCalls(t: Tally, events: seq<Event>, n: nat, protocol: Protocol)
    requires Recordable(events, n) && CallsSound(t.calls, events, n)
    ensures CallsSound(RecordCall(t, n, events[n], protocol).calls, events, n + 1)
    ensures AnyUnknown(t.calls) ==> AnyUnknown(RecordCall(t, n, events[n], protocol).calls)
  {
    var id := CallId(n, events[n].item.value);
    RecordedCall(CallOf(t.calls, id, events[n].item.value.kind.value), n, events[n], protocol);
    var after := RecordCall(t, n, events[n], protocol).calls;
    if AnyUnknown(t.calls) {
      var other :| other in t.calls && Unknown in t.calls[other].states;
      assert other in after && Unknown in after[other].states;
    }
  }

  lemma {:induction false} RecordKeepsVouched(t: Tally, events: seq<Event>, n: nat, protocol: Protocol, e: nat)
    requires Recordable(events, n) && CallsSound(t.calls, events, n) && Vouched(t.calls, e)
    ensures Vouched(RecordCall(t, n, events[n], protocol).calls, e)
  {
    var id := CallId(n, events[n].item.value);
    RecordedCall(CallOf(t.calls, id, events[n].item.value.kind.value), n, events[n], protocol);
    RecordKeepsCalls(t, events, n, protocol);
    if !AnyUnknown(t.calls) {
      var other :| other in t.calls && OnlyRejected(t.calls[other], e);
      var after := RecordCall(t, n, events[n], protocol).calls;
      assert other in after && (other == id ==> Unknown in after[id].states);
    }
  }

  lemma {:induction false} RecordKeepsExempt(t: Tally, events: seq<Event>, n: nat, protocol: Protocol)
    requires Recordable(events, n) && CallsSound(t.calls, events, n) && ExemptSound(t, events, n, protocol)
    ensures ExemptSound(RecordCall(t, n, events[n], protocol), events, n + 1, protocol)
  {
    var id, kind := CallId(n, events[n].item.value), events[n].item.value.kind.value;
    var call, after := CallOf(t.calls, id, kind), RecordCall(t, n, events[n], protocol);
    assert Sound(call) && id in after.calls;
    RecordKeepsCalls(t, events, n, protocol);
    if kind.UserInputRejection? { ExemptedIsOnlyRejected(call, n, events[n], protocol); }
    forall e | e in after.exempt
      ensures e < n + 1 && IsRejection(events[e]) && protocol.Synthetic? && Vouched(after.calls, e) {
      if e in t.exempt { RecordKeepsVouched(t, events, n, protocol, e); }
    }
  }

  ghost predicate Accounted(t: Tally, events: seq<Event>, n: nat, protocol: Protocol)
    requires n <= |events|
  {
    CallsSound(t.calls, events, n) && ExemptSound(t, events, n, protocol)
  }

  lemma {:induction false} OthersRecordNothing(t: Tally, events: seq<Event>, n: nat, protocol: Protocol)
    requires n < |events| && !Recordable(events, n)
    ensures Examine(t, n, events[n], protocol).calls == t.calls && Examine(t, n, events[n], protocol).exempt == t.exempt
    ensures !IsRejection(events[n])
  {
  }

  lemma {:induction false} SkippedIsAccounted(t: Tally, after: Tally, events: seq<Event>, n: nat, protocol: Protocol)
    requires n < |events| && !IsRejection(events[n]) && Accounted(t, events, n, protocol)
    requires after.calls == t.calls && after.exempt == t.exempt
    ensures Accounted(after, events, n + 1, protocol)
  {
  }

  lemma {:induction false} ExaminedIsAccounted(t: Tally, after: Tally, events: seq<Event>, n: nat, protocol: Protocol)
    requires n < |events| && Accounted(t, events, n, protocol) && after == Examine(t, n, events[n], protocol)
    ensures Accounted(after, events, n + 1, protocol)
  {
    if Recordable(events, n) {
      RecordKeepsCalls(t, events, n, protocol);
      RecordKeepsExempt(t, events, n, protocol);
      assert after == RecordCall(t, n, events[n], protocol);
    } else {
      OthersRecordNothing(t, events, n, protocol);
      SkippedIsAccounted(t, after, events, n, protocol);
    }
  }

  lemma {:induction false} TallyIsAccounted(events: seq<Event>, n: nat, diagnostics: seq<nat>, protocol: Protocol)
    requires n <= |events| && forall d :: d in diagnostics ==> d < |events| && ErrorCompletion(events[d])
    ensures Accounted(TallyUp(events, n, diagnostics, protocol), events, n, protocol)
  {
    if n > 0 {
      TallyIsAccounted(events, n - 1, diagnostics, protocol);
      var t := TallyUp(events, n - 1, diagnostics, protocol);
      if n - 1 in diagnostics {
        SkippedIsAccounted(t, t, events, n - 1, protocol);
      } else {
        ExaminedIsAccounted(t, Examine(t, n - 1, events[n - 1], protocol), events, n - 1, protocol);
      }
    }
  }

  // ----- The report as a whole -----

  lemma {:induction false} NoFindings(t: Tally, issues: seq<Issue>, fit: bool, signal: bool)
    ensures Findings(t, issues, fit, signal) == [] ==>
      issues == [] && fit && !signal && t.findings == [] && !WorkLeft(t.work)
  {
    var (a, c, d) := (if fit then [] else [UnsupportedOrIncomplete], if WorkLeft(t.work) then [UnfinishedWork] else [],
                      if signal then [StderrSignal] else []);
    assert |Findings(t, issues, fit, signal)| == |a| + |issues| + |t.findings| + |c| + |d|;
  }

  /** Nothing unknown means: a supported and complete capture, a stream of the grammar, and no finding at all. */
  lemma {:induction false} KnownMeansClean(events: seq<Event>, protocol: Protocol, complete: bool, signal: bool)
    requires Unknown !in Classify(events, protocol, complete, signal).classifications
    ensures !protocol.Unsupported? && complete && !signal && exists t :: Grammatical(events, t, true)
    ensures Classify(events, protocol, complete, signal).lifecycle == []
    ensures Classify(events, protocol, complete, signal).findings == []
  {
    var (issues, diagnostics) := Judge(events, !protocol.Unsupported?);
    var t := TallyUp(events, |events|, diagnostics, protocol);
    NoFindings(t, issues, complete && !protocol.Unsupported?, signal);
    AcceptsExactlyTheGrammar(events, !protocol.Unsupported?);
  }

  lemma {:induction false} KnownCalls(t: Tally, issues: seq<Issue>, diagnostics: seq<nat>, findings: seq<Finding>)
    requires Unknown !in Summarize(t, issues, diagnostics, findings).classifications
    ensures !AnyUnknown(t.calls)
    ensures forall id :: id in t.calls ==> issues == [] && Unknown !in Verdict(t.calls[id])
  {
    var calls := Summarize(t, issues, diagnostics, findings).calls;
    forall id | id in t.calls
      ensures issues == [] && Unknown !in Verdict(t.calls[id]) && Unknown !in t.calls[id].states {
      if Unknown in calls[id].classifications { assert Shown(calls, Unknown); }
    }
  }

  ghost predicate SoleEvidence(r: Report, index: nat) {
    exists id :: id in r.calls && OnlyEvidence(r, id, index)
  }

  ghost predicate OnlyEvidence(r: Report, id: string, index: nat)
    requires id in r.calls
  {
    && r.calls[id].evidence == [index] && r.calls[id].classifications == {Rejected}
    && r.calls[id].outcome == Some(PreexecutionRejection)
    && forall other :: other in r.calls && other != id ==> index !in r.calls[other].evidence
  }

  lemma {:induction false} RejectedVerdict(call: Call)
    requires call.states == [Rejected] && call.closed
    ensures Verdict(call) == {Rejected}
  {
    var states := set s | s in call.states;
    assert states == {Rejected} && states - {Started} == {Rejected};
  }

  lemma {:induction false} VouchedIsSole(t: Tally, events: seq<Event>, e: nat, r: Report)
    requires Vouched(t.calls, e) && CallsSound(t.calls, events, |events|) && !AnyUnknown(t.calls)
    requires r.calls == map id | id in t.calls :: ReportCall(t.calls[id], true)
    ensures SoleEvidence(r, e)
  {
    var id :| id in t.calls && OnlyRejected(t.calls[id], e);
    assert e in t.calls[id].evidence;
    RejectedVerdict(t.calls[id]);
    assert OnlyEvidence(r, id, e);
  }

  /** A confirmed rejection rests on a stream with nothing unknown, and is the only evidence of its own call, which
      is rejected and nothing else. Nor is one overlooked: with nothing unknown, exactly the rejection events are
      confirmed. */
  lemma {:induction false} ConfirmedRejections(events: seq<Event>, protocol: Protocol, complete: bool, signal: bool)
    ensures var r := Classify(events, protocol, complete, signal);
      && (r.confirmed != [] ==>
        Unknown !in r.classifications && r.lifecycle == [] && r.findings == [] && protocol.Synthetic?)
      && (forall e :: e in r.confirmed ==> SoleEvidence(r, e))
      && (Unknown !in r.classifications ==> forall e :: 0 <= e < |events| ==>
        (e in r.confirmed <==> IsRejection(events[e])))
  {
    var r := Classify(events, protocol, complete, signal);
    if Unknown !in r.classifications {
      var (issues, diagnostics) := Judge(events, !protocol.Unsupported?);
      var t := TallyUp(events, |events|, diagnostics, protocol);
      DiagnosticsLieInTheWindow(events, |events|, !protocol.Unsupported?);
      TallyIsAccounted(events, |events|, diagnostics, protocol);
      KnownMeansClean(events, protocol, complete, signal);
      KnownCalls(t, issues, diagnostics, r.findings);
      if r.confirmed != [] { assert r.confirmed[0] in t.exempt; }
      forall e | e in r.confirmed ensures SoleEvidence(r, e) {
        assert Vouched(t.calls, e);
        VouchedIsSole(t, events, e, r);
      }
    }
  }

  lemma {:induction false} ConfirmedAreEvents(events: seq<Event>, protocol: Protocol, complete: bool, signal: bool)
    ensures forall e :: e in Classify(events, protocol, complete, signal).confirmed ==>
      e < |events| && IsRejection(events[e])
  {
    var diagnostics := Judge(events, !protocol.Unsupported?).1;
    DiagnosticsLieInTheWindow(events, |events|, !protocol.Unsupported?);
    TallyIsAccounted(events, |events|, diagnostics, protocol);
  }

  // ----- What a conclusive call rests on -----

  /** The states of a call that is not unknown are those of its events, all about one tool; only its last event
      completes. */
  ghost predicate Told(call: Call, events: seq<Event>, protocol: Protocol) {
    Unknown !in call.states ==>
      && |call.states| == |call.evidence|
      && (forall i :: 0 <= i < |call.evidence| ==> Tells(call, events, protocol, i))
      && (call.closed <==> call.evidence != [] && Completes(events, call.evidence[|call.evidence| - 1]))
  }

  predicate Completes(events: seq<Event>, index: nat) {
    index < |events| && events[index].kind.ItemCompleted?
  }

  ghost predicate Tells(call: Call, events: seq<Event>, protocol: Protocol, i: nat)
    requires i < |call.evidence| == |call.states|
  {
    var e := call.evidence[i];
    && e < |events| && IsItem(events[e].kind) && events[e].item.Some? && events[e].item.value.kind == Some(call.tool)
    && call.states[i] == GradeOf(i == 0, events[e], protocol).state
    && (i < |call.evidence| - 1 ==> !Completes(events, e))
  }

  lemma {:induction false} RecordedIsTold(call: Call, events: seq<Event>, n: nat, protocol: Protocol)
    requires Recordable(events, n) && Told(call, events, protocol) && Sound(call)
    requires call.evidence == [] ==> call.tool == events[n].item.value.kind.value
    ensures Told(Recorded(call, n, events[n], protocol), events, protocol)
  {
    var r := Recorded(call, n, events[n], protocol);
    if Unknown !in r.states {
      assert Attend(call, n, events[n].item.value.kind.value).states == call.states;
      assert r.states == call.states + [r.states[|call.states|]];
      assert Unknown !in call.states && !call.closed;
      forall i | 0 <= i < |r.evidence| ensures Tells(r, events, protocol, i) {
        if i < |call.evidence| {
          assert Tells(call, events, protocol, i);
          assert r.evidence[i] == call.evidence[i] && r.states[i] == call.states[i];
        }
      }
    }
  }

  ghost predicate AllTold(calls: map<string, Call>, events: seq<Event>, protocol: Protocol) {
    forall id :: id in calls ==> Told(calls[id], events, protocol)
  }

  lemma {:induction false} RecordKeepsTold(t: Tally, events: seq<Event>, n: nat, protocol: Protocol)
    requires Recordable(events, n) && AllTold(t.calls, events, protocol) && CallsSound(t.calls, events, n)
    ensures AllTold(RecordCall(t, n, events[n], protocol).calls, events, protocol)
  {
    var id := CallId(n, events[n].item.value);
    RecordedIsTold(CallOf(t.calls, id, events[n].item.value.kind.value), events, n, protocol);
  }

  lemma {:induction false} TallyIsTold(events: seq<Event>, n: nat, diagnostics: seq<nat>, protocol: Protocol)
    requires n <= |events| && forall d :: d in diagnostics ==> d < |events| && ErrorCompletion(events[d])
    ensures AllTold(TallyUp(events, n, diagnostics, protocol).calls, events, protocol)
  {
    if n > 0 {
      TallyIsTold(events, n - 1, diagnostics, protocol);
      var t := TallyUp(events, n - 1, diagnostics, protocol);
      if n - 1 !in diagnostics {
        TallyNext(events, n - 1, diagnostics, protocol);
        if Recordable(events, n - 1) {
          TallyIsAccounted(events, n - 1, diagnostics, protocol);
          RecordKeepsTold(t, events, n - 1, protocol);
        } else {
          OthersRecordNothing(t, events, n - 1, protocol);
        }
      }
    }
  }

  /** What shows by itself that the tool ran. */
  predicate ShowsExecution(event: Event) {
    && event.item.Some? && event.item.value.kind.Some?
    && var (item, kind) := (event.item.value, event.kind);
       match item.kind.value
       case CommandExecution => kind.ItemCompleted? && item.status in {Completed, Failed} && item.exitCode.Code?
       case McpToolCall | CollabToolCall =>
         (kind.ItemStarted? && item.status.InProgress?) || (kind.ItemCompleted? && item.status in {Completed, Failed})
       case WebSearch => item.hasQuery && item.hasAction
       case FileChange => kind.ItemCompleted? && item.status.Completed?
       case _ => false
  }

  /** What shows by itself that the call was refused and nothing ran. */
  predicate ShowsRefusal(event: Event) {
    && event.kind.ItemCompleted? && event.item.Some?
    && var item := event.item.value;
       || (item.kind == Some(CommandExecution) && item.status.Declined? && item.exitCode.NoCode?)
       || (item.kind == Some(UserInputRejection) && item.noninteractive)
  }

  /** The whole verdict on a call: it ran, as some event of it shows, or its only event shows that it was refused. */
  ghost predicate Conclusive(call: CallReport, events: seq<Event>) {
    && call.closed && call.evidence != [] && Completes(events, call.evidence[|call.evidence| - 1])
    && (|| (call.classifications == {Executed} && exists e ::
      e in call.evidence && e < |events| && ShowsExecution(events[e]))
        || (call.classifications == {Rejected} && |call.evidence| == 1 && ShowsRefusal(events[call.evidence[0]])))
  }

  lemma {:induction false} GradesMean(first: bool, event: Event, protocol: Protocol)
    requires event.item.Some? && event.item.value.kind.Some? && IsItem(event.kind)
    ensures GradeOf(first, event, protocol).state == Executed ==> ShowsExecution(event)
    ensures GradeOf(first, event, protocol).state == Rejected ==> first && ShowsRefusal(event)
    ensures GradeOf(first, event, protocol).state in {Executed, Rejected, Started, Unknown}
  {
  }

  lemma {:induction false} TellsMeans(call: Call, events: seq<Event>, protocol: Protocol, i: nat)
    requires i < |call.evidence| == |call.states| && Tells(call, events, protocol, i)
    ensures var e := call.evidence[i];
      && e < |events| && (call.states[i] == Executed ==> ShowsExecution(events[e]))
      && (call.states[i] == Rejected ==> i == 0 && ShowsRefusal(events[e]) && |call.evidence| == 1)
      && call.states[i] in {Executed, Rejected, Started, Unknown}
  {
    GradesMean(i == 0, events[call.evidence[i]], protocol);
  }

  lemma {:induction false} ToldIsConclusive(call: Call, events: seq<Event>, protocol: Protocol)
    requires Told(call, events, protocol) && Unknown !in Verdict(call) && call.evidence != []
    ensures Conclusive(ReportCall(call, true), events)
  {
    var states := set s | s in call.states;
    assert Unknown !in call.states && call.closed;
    forall i | 0 <= i < |call.states|
      ensures call.states[i] in {Executed, Rejected, Started}
      ensures call.states[i] == Rejected ==> |call.evidence| == 1 && ShowsRefusal(events[call.evidence[0]])
      ensures call.states[i] == Executed ==> call.evidence[i] < |events| && ShowsExecution(events[call.evidence[i]]) {
      assert Tells(call, events, protocol, i);
      TellsMeans(call, events, protocol, i);
      assert call.states[i] in call.states;
    }
    if Rejected in states {
      var i :| 0 <= i < |call.states| && call.states[i] == Rejected;
      assert call.states == [Rejected];
      RejectedVerdict(call);
    } else {
      assert Verdict(call) == {Executed};
      assert Executed in states;
      var i :| 0 <= i < |call.states| && call.states[i] == Executed;
      assert call.evidence[i] in call.evidence;
    }
  }

  /** When nothing is unknown every call is decided: it ran or it was refused, never both, on the evidence of its own
      events. */
  lemma {:induction false} KnownCallsAreConclusive(events: seq<Event>, protocol: Protocol, complete: bool, signal: bool)
    requires Unknown !in Classify(events, protocol, complete, signal).classifications
    ensures var r := Classify(events, protocol, complete, signal);
      forall id :: id in r.calls ==> Conclusive(r.calls[id], events)
  {
    var r := Classify(events, protocol, complete, signal);
    var (issues, diagnostics) := Judge(events, !protocol.Unsupported?);
    var t := TallyUp(events, |events|, diagnostics, protocol);
    DiagnosticsLieInTheWindow(events, |events|, !protocol.Unsupported?);
    TallyIsAccounted(events, |events|, diagnostics, protocol);
    TallyIsTold(events, |events|, diagnostics, protocol);
    KnownCalls(t, issues, diagnostics, r.findings);
    forall id | id in r.calls ensures Conclusive(r.calls[id], events) {
      assert r.calls[id] == ReportCall(t.calls[id], true);
      ToldIsConclusive(t.calls[id], events, protocol);
    }
  }

  lemma {:induction false} VerdictNeverEmpty(call: Call)
    requires Sound(call)
    ensures Verdict(call) != {} && NoActivity !in Verdict(call) && Started !in Verdict(call)
  {
    assert Unknown in Verdict(call) || Verdict(call) != {};
  }

  /** No activity is reported exactly when there are no calls and nothing to object to, and then alone. */
  lemma {:induction false} NothingReported(events: seq<Event>, protocol: Protocol, complete: bool, signal: bool)
    ensures var r := Classify(events, protocol, complete, signal);
      && (NoActivity in r.classifications <==> r.calls == map[] && r.findings == [])
      && (NoActivity in r.classifications ==> r.classifications == {NoActivity})
      && r.classifications != {} && Started !in r.classifications
  {
    var r := Classify(events, protocol, complete, signal);
    var (issues, diagnostics) := Judge(events, !protocol.Unsupported?);
    var t := TallyUp(events, |events|, diagnostics, protocol);
    DiagnosticsLieInTheWindow(events, |events|, !protocol.Unsupported?);
    TallyIsAccounted(events, |events|, diagnostics, protocol);
    forall id | id in t.calls
      ensures r.calls[id].classifications != {} && {NoActivity, Started} !! r.calls[id].classifications {
      VerdictNeverEmpty(t.calls[id]);
    }
    assert NoActivity !in Aggregate(r.calls) && Started !in Aggregate(r.calls);
    if id :| id in r.calls {
      var state :| state in r.calls[id].classifications;
      assert Shown(r.calls, state) && state in Aggregate(r.calls);
    } else {
      assert r.calls == map[];
    }
  }

  // ----- A diagnostic before the turn changes nothing -----

  function Insert(events: seq<Event>, p: nat, extra: Event): (r: seq<Event>)
    requires p <= |events|
    ensures |r| == |events| + 1 && r[p] == extra
    ensures forall i :: 0 <= i < |r| && i != p ==> r[i] == events[if i < p then i else i - 1]
  {
    events[..p] + [extra] + events[p..]
  }

  lemma {:induction false} KindsStep(events: seq<Event>, n: nat, id: string)
    requires 0 < n <= |events|
    ensures Kinds(events, n, id) == if Bears(events[n - 1], id)
      then Kinds(events, n - 1, id) + [events[n - 1].kind] else Kinds(events, n - 1, id)
  {
  }

  /** The extra event is alone in its story. */
  lemma {:induction false} OwnKindsInsert(events: seq<Event>, p: nat, extra: Event, n: nat, id: string)
    requires p <= |events| && n <= |events| + 1 && Bears(extra, id) && forall i :: 0 <= i < |events| ==>
      !Bears(events[i], id)
    ensures Kinds(Insert(events, p, extra), n, id) == if n <= p then [] else [extra.kind]
  {
    if n > 0 {
      OwnKindsInsert(events, p, extra, n - 1, id);
      KindsStep(Insert(events, p, extra), n, id);
    }
  }

  /** The other stories are as before. */
  lemma {:induction false} OtherKindsInsert(events: seq<Event>, p: nat, extra: Event, n: nat, id: string)
    requires p <= |events| && n <= |events| + 1 && !Bears(extra, id)
    ensures Kinds(Insert(events, p, extra), n, id) == Kinds(events, if n <= p then n else n - 1, id)
  {
    if n > 0 {
      OtherKindsInsert(events, p, extra, n - 1, id);
      KindsStep(Insert(events, p, extra), n, id);
      if n <= p { KindsStep(events, n, id); } else if n > p + 1 { KindsStep(events, n - 1, id); }
    }
  }

  ghost predicate Fresh(events: seq<Event>, extra: Event) {
    Identified(extra) && forall i :: 0 <= i < |events| ==> !Bears(events[i], extra.item.value.id.value)
  }

  ghost predicate Insertable(events: seq<Event>, t: nat, p: nat, extra: Event) {
    && Grammatical(events, t, true) && 1 <= p <= t && ErrorCompletion(extra) && Fresh(events, extra)
  }

  /** From the turn start on, the longer stream is the shorter one a position later. */
  ghost predicate Follows(events: seq<Event>, longer: seq<Event>, t: nat) {
    && |longer| == |events| + 1
    && forall i :: t <= i < |events| ==>
      longer[i + 1] == events[i] && (IsItem(events[i].kind) ==> Identified(events[i]))
  }

  lemma {:induction false} InsertFollows(events: seq<Event>, t: nat, p: nat, extra: Event)
    requires Layout(events, t, true) && 1 <= p <= t
    ensures Follows(events, Insert(events, p, extra), t)
  {
  }

  lemma {:induction false} InsertKeepsLayout(events: seq<Event>, t: nat, p: nat, extra: Event)
    requires Layout(events, t, true) && 1 <= p <= t && ErrorCompletion(extra) && Identified(extra)
    ensures Layout(Insert(events, p, extra), t + 1, true)
  {
    var longer := Insert(events, p, extra);
    assert OnlyDiagnostics(longer, t + 1, true);
    InsertFollows(events, t, p, extra);
    forall i | t + 1 < i < |longer| - 1 ensures BodyEvent(longer[i]) { assert longer[i] == events[i - 1]; }
  }

  lemma {:induction false} OneKindInsert(events: seq<Event>, p: nat, extra: Event, id: string, kind: ItemKind)
    requires p <= |events| && OneKind(events, |events|, id, kind) && !Bears(extra, id)
    ensures OneKind(Insert(events, p, extra), |events| + 1, id, kind)
  {
  }

  lemma {:induction false} StoryInsert(events: seq<Event>, p: nat, extra: Event, longer: seq<Event>, id: string)
    requires ItemsTellStories(events) && p <= |events| && ErrorCompletion(extra) && Fresh(events, extra)
    requires longer == Insert(events, p, extra) && Kinds(longer, |longer|, id) != []
    ensures WholeStory(Kinds(longer, |longer|, id)) && exists kind :: OneKind(longer, |longer|, id, kind)
  {
    if Bears(extra, id) {
      OwnKindsInsert(events, p, extra, |longer|, id);
      assert OneKind(longer, |longer|, id, ErrorItem);
    } else {
      OtherKindsInsert(events, p, extra, |longer|, id);
      var kind :| OneKind(events, |events|, id, kind);
      OneKindInsert(events, p, extra, id, kind);
    }
  }

  lemma {:induction false} InsertStaysGrammatical(events: seq<Event>, t: nat, p: nat, extra: Event)
    requires Insertable(events, t, p, extra)
    ensures Grammatical(Insert(events, p, extra), t + 1, true)
  {
    InsertKeepsLayout(events, t, p, extra);
    var longer := Insert(events, p, extra);
    forall id | Kinds(longer, |longer|, id) != []
      ensures WholeStory(Kinds(longer, |longer|, id)) && exists kind :: OneKind(longer, |longer|, id, kind) {
      StoryInsert(events, p, extra, longer, id);
    }
  }

  // ----- Reports one position later -----

  function Later(indices: seq<nat>): (r: seq<nat>)
    ensures |r| == |indices| && forall i :: 0 <= i < |r| ==> r[i] == indices[i] + 1
  {
    seq(|indices|, i requires 0 <= i < |indices| => indices[i] + 1)
  }

  function LaterFinding(finding: Finding): Finding {
    match finding
    case InvalidEventType(i) => InvalidEventType(i + 1)
    case UnsupportedEvent(i) => UnsupportedEvent(i + 1)
    case InvalidItem(i) => InvalidItem(i + 1)
    case InvalidTextItem(i) => InvalidTextItem(i + 1)
    case InvalidWorkState(i) => InvalidWorkState(i + 1)
    case MissingCallIdentity(i) => MissingCallIdentity(i + 1)
    case other => other
  }

  function LaterFindings(findings: seq<Finding>): (r: seq<Finding>)
    ensures |r| == |findings| && forall i :: 0 <= i < |r| ==> r[i] == LaterFinding(findings[i])
  {
    seq(|findings|, i requires 0 <= i < |findings| => LaterFinding(findings[i]))
  }

  function LaterCall(call: Call): Call {
    call.(evidence := Later(call.evidence))
  }

  function LaterTally(t: Tally): Tally {
    Tally(map id | id in t.calls :: LaterCall(t.calls[id]), t.order, t.work, LaterFindings(t.findings), Later(t.exempt))
  }

  function LaterReport(r: Report, diagnostics: seq<nat>): Report {
    Report(diagnostics, r.lifecycle, r.classifications, r.order,
           map id | id in r.calls :: r.calls[id].(evidence := Later(r.calls[id].evidence)),
           LaterFindings(r.findings), Later(r.confirmed))
  }

  lemma {:induction false} RecordedLater(call: Call, n: nat, event: Event, protocol: Protocol)
    requires event.item.Some? && event.item.value.kind.Some?
    ensures Recorded(LaterCall(call), n + 1, event, protocol) == LaterCall(Recorded(call, n, event, protocol))
    ensures Exempted(LaterCall(call), n + 1, event, protocol) == Exempted(call, n, event, protocol)
  {
    var kind := event.item.value.kind.value;
    var seen := Attend(call, n, kind);
    assert Later(call.evidence + [n]) == Later(call.evidence) + [n + 1];
    assert Attend(LaterCall(call), n + 1, kind) == LaterCall(seen);
  }

  lemma {:induction false} RecordLater(t: Tally, n: nat, event: Event, protocol: Protocol)
    requires Identified(event)
    ensures RecordCall(LaterTally(t), n + 1, event, protocol) == LaterTally(RecordCall(t, n, event, protocol))
  {
    var id, kind := event.item.value.id.value, event.item.value.kind.value;
    var call, calls := CallOf(t.calls, id, kind), LaterTally(t).calls;
    assert CallOf(calls, id, kind) == LaterCall(call);
    RecordedLater(call, n, event, protocol);
    assert Later(t.exempt + [n]) == Later(t.exempt) + [n + 1];
    assert LaterTally(RecordCall(t, n, event, protocol)).calls ==
      calls[id := LaterCall(Recorded(call, n, event, protocol))];
  }

  lemma {:induction false} FindLater(findings: seq<Finding>, f: Finding)
    ensures LaterFindings(findings + [f]) == LaterFindings(findings) + [LaterFinding(f)]
  {
  }

  lemma {:induction false} BenignLater(t: Tally, n: nat, item: Item)
    requires item.kind.Some?
    ensures Benign(LaterTally(t), n + 1, item) == LaterTally(Benign(t, n, item))
  {
    FindLater(t.findings, InvalidWorkState(n));
    FindLater(t.findings, InvalidTextItem(n));
  }

  lemma {:induction false} ExamineLater(t: Tally, n: nat, event: Event, protocol: Protocol)
    requires IsItem(event.kind) ==> Identified(event)
    ensures Examine(LaterTally(t), n + 1, event, protocol) == LaterTally(Examine(t, n, event, protocol))
  {
    if IsItem(event.kind) {
      if IsBenign(event.item.value.kind.value) {
        BenignLater(t, n, event.item.value);
      } else {
        RecordLater(t, n, event, protocol);
      }
    } else {
      FindLater(t.findings, InvalidEventType(n));
      FindLater(t.findings, UnsupportedEvent(n));
    }
  }

  // ----- The theorem -----

  lemma {:induction false} IndicesUpTo(t: nat)
    ensures forall i: nat :: i in Indices(t) <==> 1 <= i < t
  {
    if t >= 2 { IndicesUpTo(t - 1); }
  }

  /** Up to the turn start there is nothing but the thread start and diagnostics. */
  lemma {:induction false} NothingBeforeTheTurn(events: seq<Event>, t: nat, n: nat, protocol: Protocol)
    requires Layout(events, t, true) && n <= t
    ensures TallyUp(events, n, Indices(t), protocol) == EMPTY
  {
    if n > 0 {
      IndicesUpTo(t);
      NothingBeforeTheTurn(events, t, n - 1, protocol);
    }
  }

  lemma {:induction false} TallyNext(events: seq<Event>, n: nat, diagnostics: seq<nat>, protocol: Protocol)
    requires n < |events| && n !in diagnostics
    ensures TallyUp(events, n + 1, diagnostics, protocol)
         == Examine(TallyUp(events, n, diagnostics, protocol), n, events[n], protocol)
  {
  }

  lemma {:induction false} TallyLaterStep(events: seq<Event>, longer: seq<Event>, t: nat, n: nat, now: Tally,
                                          later: Tally, protocol: Protocol)
    requires 1 <= t <= n < |events| && Follows(events, longer, t) && later == LaterTally(now)
    ensures Examine(later, n + 1, longer[n + 1], protocol) == LaterTally(Examine(now, n, events[n], protocol))
  {
    ExamineLater(now, n, events[n], protocol);
  }

  lemma {:induction false} AfterTheWindow(t: nat, m: nat)
    requires 1 <= t <= m
    ensures m !in Indices(t) && m + 1 !in Indices(t + 1)
  {
    IndicesUpTo(t);
    IndicesUpTo(t + 1);
  }

  lemma {:induction false} TallyLater(events: seq<Event>, longer: seq<Event>, t: nat, n: nat, protocol: Protocol)
    requires 1 <= t <= n <= |events| && Follows(events, longer, t)
    requires TallyUp(events, t, Indices(t), protocol) == EMPTY
    requires TallyUp(longer, t + 1, Indices(t + 1), protocol) == EMPTY
    ensures TallyUp(longer, n + 1, Indices(t + 1), protocol) == LaterTally(TallyUp(events, n, Indices(t), protocol))
    decreases n
  {
    if n == t {
      assert LaterTally(EMPTY) == EMPTY;
    } else {
      var m := n - 1;
      TallyLater(events, longer, t, m, protocol);
      AfterTheWindow(t, m);
      TallyNext(events, m, Indices(t), protocol);
      TallyNext(longer, m + 1, Indices(t + 1), protocol);
      var now, later := TallyUp(events, m, Indices(t), protocol), TallyUp(longer, m + 1, Indices(t + 1), protocol);
      TallyLaterStep(events, longer, t, m, now, later, protocol);
    }
  }

  lemma {:induction false} InsertTally(events: seq<Event>, longer: seq<Event>, t: nat, protocol: Protocol)
    requires Layout(events, t, true) && Layout(longer, t + 1, true) && Follows(events, longer, t)
    ensures TallyUp(longer, |longer|, Indices(t + 1), protocol) ==
      LaterTally(TallyUp(events, |events|, Indices(t), protocol))
  {
    NothingBeforeTheTurn(events, t, t, protocol);
    NothingBeforeTheTurn(longer, t + 1, t + 1, protocol);
    TallyLater(events, longer, t, |events|, protocol);
  }

  function Reports(calls: map<string, Call>): map<string, CallReport> {
    map id | id in calls :: ReportCall(calls[id], true)
  }

  lemma {:induction false} ReportsLater(calls: map<string, Call>, later: map<string, Call>)
    requires later == map id | id in calls :: LaterCall(calls[id])
    ensures Aggregate(Reports(later)) == Aggregate(Reports(calls))
    ensures Reports(later) == map id | id in calls :: Reports(calls)[id].(evidence := Later(calls[id].evidence))
  {
    forall id | id in calls ensures Verdict(later[id]) == Verdict(calls[id]) {
    }
    forall s ensures Shown(Reports(later), s) <==> Shown(Reports(calls), s) {
      assert forall id :: id in calls ==> Reports(later)[id].classifications == Reports(calls)[id].classifications;
    }
  }

  lemma {:induction false} SummarizeLater(t: Tally, before: seq<nat>, diagnostics: seq<nat>, findings: seq<Finding>)
    ensures Summarize(LaterTally(t), [], diagnostics, LaterFindings(findings))
         == LaterReport(Summarize(t, [], before, findings), diagnostics)
  {
    var later := LaterTally(t);
    ReportsLater(t.calls, later.calls);
    var r := Summarize(later, [], diagnostics, LaterFindings(findings));
    var was := Summarize(t, [], before, findings);
    assert was.calls == Reports(t.calls) && r.calls == Reports(later.calls);
    assert (findings == []) == (LaterFindings(findings) == []);
    assert r.classifications == was.classifications;
    var expected := LaterReport(was, diagnostics);
    assert r.calls == expected.calls && r.findings == expected.findings;
    assert r.confirmed == expected.confirmed;
  }

  lemma {:induction false} FindingsLater(t: Tally, fit: bool, signal: bool)
    ensures Findings(LaterTally(t), [], fit, signal) == LaterFindings(Findings(t, [], fit, signal))
  {
  }

  lemma {:induction false} ClassifyValid(events: seq<Event>, t: nat, protocol: Protocol, complete: bool, signal: bool)
    requires Grammatical(events, t, true) && !protocol.Unsupported?
    ensures var tally := TallyUp(events, |events|, Indices(t), protocol);
      Classify(events, protocol, complete, signal)
        == Summarize(tally, [], Indices(t), Findings(tally, [], complete, signal))
  {
    GrammaticalIsAccepted(events, t, true);
  }

  lemma {:induction false} ShiftedReports(events: seq<Event>, longer: seq<Event>, t: nat, protocol: Protocol,
                                          complete: bool, signal: bool)
    requires Grammatical(events, t, true) && Grammatical(longer, t + 1, true) && Follows(events, longer, t)
    requires !protocol.Unsupported?
    ensures Classify(longer, protocol, complete, signal)
         == LaterReport(Classify(events, protocol, complete, signal), Indices(t + 1))
  {
    ClassifyValid(events, t, protocol, complete, signal);
    ClassifyValid(longer, t + 1, protocol, complete, signal);
    InsertTally(events, longer, t, protocol);
    var tally := TallyUp(events, |events|, Indices(t), protocol);
    FindingsLater(tally, complete, signal);
    SummarizeLater(tally, Indices(t), Indices(t + 1), Findings(tally, [], complete, signal));
  }

  /** Adding a fresh error diagnostic before the turn start of a valid stream changes the report only by moving every
      later position up by one and listing one more diagnostic. */
  lemma {:induction false} DiagnosticsAreHarmless(events: seq<Event>, t: nat, p: nat, extra: Event, protocol: Protocol,
                                                  complete: bool, signal: bool)
    requires Insertable(events, t, p, extra) && !protocol.Unsupported?
    ensures Classify(Insert(events, p, extra), protocol, complete, signal)
         == LaterReport(Classify(events, protocol, complete, signal), Indices(t + 1))
  {
    var longer := Insert(events, p, extra);
    InsertStaysGrammatical(events, t, p, extra);
    InsertFollows(events, t, p, extra);
    ShiftedReports(events, longer, t, protocol, complete, signal);
  }

  // ----- The loop -----

  method ClassifyActivity(events: seq<Event>, protocol: Protocol, complete: bool, signal: bool) returns (report: Report)
    ensures report == Classify(events, protocol, complete, signal)
  {
    var issues, diagnostics := LifecycleIssues(events, !protocol.Unsupported?);
    var calls, order, work, findings, exempt := map[], [], map[], [], [];
    for index: nat := 0 to |events|
      invariant Tally(calls, order, work, findings, exempt) == TallyUp(events, index, diagnostics, protocol)
    {
      if index in diagnostics { continue; }
      var event := events[index];
      if event.kind.UntypedEvent? {
        findings := findings + [InvalidEventType(index)];
        continue;
      }
      if event.kind in {OtherEvent, TurnFailed, ErrorEvent} { findings := findings + [UnsupportedEvent(index)]; }
      if !IsItem(event.kind) { continue; }
      if event.item.None? || event.item.value.kind.None? {
        findings := findings + [InvalidItem(index)];
        continue;
      }
      var item := event.item.value;
      var kind := item.kind.value;
      if IsBenign(kind) {
        if kind in {AgentMessage, Reasoning} && !item.hasText { findings := findings + [InvalidTextItem(index)]; }
        if kind.TodoList? {
          if item.todo.None? || item.id.None? {
            findings := findings + [InvalidWorkState(index)];
          } else {
            work := work[item.id.value := item.todo.value];
          }
        }
        continue;
      }
      calls, order, findings, exempt := Record(calls, order, work, findings, exempt, index, event, protocol);
    }
    report := Summarize(Tally(calls, order, work, findings, exempt), issues, diagnostics,
      Findings(Tally(calls, order, work, findings, exempt), issues, complete && !protocol.Unsupported?, signal));
  }

  /** The part of the loop body that concerns a tool call. */
  method Record(calls0: map<string, Call>, order0: seq<string>, work: map<string, seq<bool>>, findings0: seq<Finding>,
                exempt0: seq<nat>, index: nat, event: Event, protocol: Protocol)
    returns (calls: map<string, Call>, order: seq<string>, findings: seq<Finding>, exempt: seq<nat>)
    requires event.item.Some? && event.item.value.kind.Some?
    ensures Tally(calls, order, work, findings, exempt)
         == RecordCall(Tally(calls0, order0, work, findings0, exempt0), index, event, protocol)
  {
    calls, order, findings, exempt := calls0, order0, findings0, exempt0;
    var item, kind := event.item.value, event.item.value.kind.value;
    if !Named(item.id) { findings := findings + [MissingCallIdentity(index)]; }
    var id := CallId(index, item);
    if id !in calls { order := order + [id]; }
    var call := CallOf(calls, id, kind);
    call := call.(evidence := call.evidence + [index]);
    if call.tool != kind || call.closed { call := Mark(call, Unknown); }
    var first := call.states == [];
    if kind.UserInputRejection? && protocol.Synthetic? && RefusedBeforeExecution(first, event) {
      exempt := exempt + [index];
    }
    call := Graded(call, GradeOf(first, event, protocol), event.kind.ItemCompleted?);
    calls := calls[id := call];
  }
}
