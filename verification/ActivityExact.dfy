/** What exactly is reported about the calls of a stream in the grammar, in terms of its events. */
module ActivityExact {
  import opened Wrappers
  import opened Lifecycle
  import opened Activity

  // ----- The events of a call -----

  /** An item event that names the id and is neither a message, nor a thought, nor a work list. */
  predicate CallEvent(event: Event, id: string) {
    && event.kind in {ItemStarted, ItemUpdated, ItemCompleted} && event.item.Some? && event.item.value.id == Some(id)
    && event.item.value.kind.Some? && event.item.value.kind.value !in {AgentMessage, Reasoning, TodoList}
  }

  function Evidence(events: seq<Event>, from: nat, n: nat, id: string): (r: seq<nat>)
    requires n <= |events|
  {
    if n <= from then []
    else Evidence(events, from, n - 1, id) + (if CallEvent(events[n - 1], id) then [n - 1] else [])
  }

  ghost predicate Ascending(s: seq<nat>) {
    forall i, j :: 0 <= i < j < |s| ==> s[i] < s[j]
  }

  lemma {:induction false} EvidenceIs(events: seq<Event>, from: nat, n: nat, id: string)
    requires n <= |events|
    ensures forall e: nat :: e in Evidence(events, from, n, id) <==> from <= e < n && CallEvent(events[e], id)
    ensures Ascending(Evidence(events, from, n, id))
  {
    if n > from {
      EvidenceIs(events, from, n - 1, id);
      var front := Evidence(events, from, n - 1, id);
      forall i | 0 <= i < |front| ensures front[i] < n - 1 { assert front[i] in front; }
    }
  }

  /** What the events say of a command, before it has finished. */
  predicate ShowsStart(event: Event) {
    && event.kind in {ItemStarted, ItemUpdated} && event.item.Some?
    && event.item.value.kind == Some(CommandExecution) && event.item.value.status.InProgress?
  }

  /** A refusal counts as such for a command under either protocol, and for user input under the synthetic one. */
  predicate Refuses(event: Event, protocol: Protocol) {
    && ShowsRefusal(event)
    && (event.item.value.kind == Some(UserInputRejection) ==> protocol.Synthetic?)
  }

  function StateAt(first: bool, event: Event, protocol: Protocol): State {
    if event.item.Some? && event.item.value.kind.Some? then GradeOf(first, event, protocol).state else Unknown
  }

  function OutcomeAt(first: bool, event: Event, protocol: Protocol): Option<Outcome> {
    if event.item.Some? && event.item.value.kind.Some? then GradeOf(first, event, protocol).outcome else None
  }

  lemma {:induction false} StatesAreExact(first: bool, event: Event, protocol: Protocol)
    requires IsItem(event.kind) && event.item.Some? && event.item.value.kind.Some? && !protocol.Unsupported?
    requires !IsBenign(event.item.value.kind.value)
    ensures var state := StateAt(first, event, protocol);
      && (state == Executed <==> ShowsExecution(event)) && (state == Rejected <==> first && Refuses(event, protocol))
      && (state == Started <==> ShowsStart(event)) && state != NoActivity
  {
  }

  /** Only a completion settles an outcome. */
  lemma {:induction false} OutcomeNeedsCompletion(first: bool, event: Event, protocol: Protocol)
    ensures OutcomeAt(first, event, protocol).Some? ==> event.kind.ItemCompleted?
  {
  }

  // ----- The tally holds exactly the evidence -----

  ghost predicate ExactCall(call: Call, events: seq<Event>, evidence: seq<nat>, protocol: Protocol)
    requires evidence != []
  {
    var last := evidence[|evidence| - 1];
    && call.evidence == evidence && |call.states| == |evidence|
    && (forall i :: 0 <= i < |evidence| ==> ExactAt(call, events, protocol, i))
    && call.closed == Completes(events, last)
    && call.outcome == if call.closed then OutcomeAt(|evidence| == 1, events[last], protocol) else None
  }

  ghost predicate ExactAt(call: Call, events: seq<Event>, protocol: Protocol, i: nat)
    requires i < |call.evidence| == |call.states|
  {
    var e := call.evidence[i];
    && e < |events| && IsItem(events[e].kind) && events[e].item.Some? && events[e].item.value.kind == Some(call.tool)
    && call.states[i] == StateAt(i == 0, events[e], protocol)
    && (i < |call.evidence| - 1 ==> !Completes(events, e))
  }

  lemma {:induction false} FirstIsExact(events: seq<Event>, n: nat, protocol: Protocol)
    requires Recordable(events, n)
    ensures var kind := events[n].item.value.kind.value;
      ExactCall(Recorded(Call(kind, [], [], None, false), n, events[n], protocol), events, [n], protocol)
  {
    OutcomeNeedsCompletion(true, events[n], protocol);
  }

  lemma {:induction false} NextIsExact(call: Call, events: seq<Event>, evidence: seq<nat>, n: nat, protocol: Protocol)
    requires Recordable(events, n) && evidence != [] && ExactCall(call, events, evidence, protocol)
    requires !call.closed && call.tool == events[n].item.value.kind.value
    ensures ExactCall(Recorded(call, n, events[n], protocol), events, evidence + [n], protocol)
  {
    var r := Recorded(call, n, events[n], protocol);
    OutcomeNeedsCompletion(false, events[n], protocol);
    assert r.evidence == evidence + [n] && r.states == call.states + [StateAt(false, events[n], protocol)];
    forall i | 0 <= i < |r.evidence| ensures ExactAt(r, events, protocol, i) {
      if i < |evidence| {
        assert ExactAt(call, events, protocol, i);
        assert r.evidence[i] == evidence[i] && r.states[i] == call.states[i];
      }
    }
  }

  // ----- The stories of the grammar leave no call unfinished or finished twice -----

  lemma {:induction false} SameKind(events: seq<Event>, id: string, i: nat, j: nat)
    requires ItemsTellStories(events) && i < |events| && j < |events| && Bears(events[i], id) && Bears(events[j], id)
    ensures events[i].item.value.kind == events[j].item.value.kind
  {
    if Kinds(events, |events|, id) == [] { NoKindsMeansNoEvents(events, |events|, id, i); }
    var kind :| OneKind(events, |events|, id, kind);
  }

  /** An id that a call event bears is borne by call events only. */
  lemma {:induction false} OnlyCallEvents(events: seq<Event>, t: nat, n: nat, id: string)
    requires Grammatical(events, t, true) && n < |events| && Evidence(events, t, n, id) != []
    requires Bears(events[n], id)
    ensures CallEvent(events[n], id)
  {
    var evidence := Evidence(events, t, n, id);
    EvidenceIs(events, t, n, id);
    assert evidence[0] in evidence;
    CallEventBears(events, t, evidence[0], id);
    SameKind(events, id, evidence[0], n);
  }

  lemma {:induction false} CallEventBears(events: seq<Event>, t: nat, e: nat, id: string)
    requires Layout(events, t, true) && t <= e < |events| && CallEvent(events[e], id)
    ensures Bears(events[e], id)
  {
  }

  lemma {:induction false} LastKind(events: seq<Event>, t: nat, n: nat, id: string)
    requires Grammatical(events, t, true) && n <= |events| && Evidence(events, t, n, id) != []
    ensures var evidence, kinds := Evidence(events, t, n, id), Kinds(events, n, id);
      var last := evidence[|evidence| - 1];
      kinds != [] && last < n && Bears(events[last], id) && kinds[|kinds| - 1] == events[last].kind
  {
    KindsStep(events, n, id);
    if CallEvent(events[n - 1], id) {
      CallEventBears(events, t, n - 1, id);
    } else {
      LastKind(events, t, n - 1, id);
      if Bears(events[n - 1], id) { OnlyCallEvents(events, t, n - 1, id); }
    }
  }

  /** Before its next event a call is not completed. */
  lemma {:induction false} NotYetCompleted(events: seq<Event>, t: nat, n: nat, id: string)
    requires Grammatical(events, t, true) && n < |events| && Evidence(events, t, n, id) != []
    requires Bears(events[n], id)
    ensures var evidence := Evidence(events, t, n, id);
      var last := evidence[|evidence| - 1];
      last < n && Bears(events[last], id) && !Completes(events, last)
  {
    LastKind(events, t, n, id);
    KindsGrow(events, n + 1, |events|, id);
    FitsStory(Kinds(events, n, id), Kinds(events, n + 1, id), events[n].kind, Kinds(events, |events|, id));
  }

  /** At the end every call is completed. */
  lemma {:induction false} CompletedInTheEnd(events: seq<Event>, t: nat, id: string)
    requires Grammatical(events, t, true) && Evidence(events, t, |events|, id) != []
    ensures var evidence := Evidence(events, t, |events|, id); Completes(events, evidence[|evidence| - 1])
  {
    LastKind(events, t, |events|, id);
  }

  // ----- Tallying -----

  ghost predicate ExactFor(calls: map<string, Call>, events: seq<Event>, t: nat, n: nat, protocol: Protocol, id: string)
    requires n <= |events|
  {
    var evidence := Evidence(events, t, n, id);
    if evidence == [] then id !in calls else id in calls && ExactCall(calls[id], events, evidence, protocol)
  }

  ghost predicate Exact(calls: map<string, Call>, events: seq<Event>, t: nat, n: nat, protocol: Protocol)
    requires n <= |events|
  {
    forall id :: ExactFor(calls, events, t, n, protocol, id)
  }

  lemma {:induction false} OwnIsExact(calls: map<string, Call>, events: seq<Event>, t: nat, n: nat, protocol: Protocol,
                                      id: string)
    requires Grammatical(events, t, true) && t <= n < |events| && ExactFor(calls, events, t, n, protocol, id)
    requires Recordable(events, n) && Bears(events[n], id)
    ensures var call := CallOf(calls, id, events[n].item.value.kind.value);
      ExactCall(Recorded(call, n, events[n], protocol), events, Evidence(events, t, n, id) + [n], protocol)
  {
    var evidence := Evidence(events, t, n, id);
    if evidence == [] {
      FirstIsExact(events, n, protocol);
      assert [] + [n] == [n];
    } else {
      NotYetCompleted(events, t, n, id);
      var last := evidence[|evidence| - 1];
      SameKind(events, id, last, n);
      assert ExactAt(calls[id], events, protocol, |evidence| - 1);
      NextIsExact(calls[id], events, evidence, n, protocol);
    }
  }

  lemma {:induction false} RecordedInto(tally: Tally, events: seq<Event>, n: nat, protocol: Protocol)
    requires Recordable(events, n) && Identified(events[n])
    ensures var id, event := events[n].item.value.id.value, events[n];
      RecordCall(tally, n, event, protocol).calls ==
        tally.calls[id := Recorded(CallOf(tally.calls, id, event.item.value.kind.value), n, event, protocol)]
  {
  }

  lemma {:induction false} ExactForOther(calls: map<string, Call>, after: map<string, Call>, events: seq<Event>, t: nat,
                                         n: nat, protocol: Protocol, id: string)
    requires t <= n < |events| && ExactFor(calls, events, t, n, protocol, id) && !CallEvent(events[n], id)
    requires (id in after <==> id in calls) && (id in calls ==> after[id] == calls[id])
    ensures ExactFor(after, events, t, n + 1, protocol, id)
  {
    assert Evidence(events, t, n + 1, id) == Evidence(events, t, n, id);
  }

  lemma {:induction false} ExactForOwn(after: map<string, Call>, events: seq<Event>, t: nat, n: nat, protocol: Protocol,
                                       id: string)
    requires t <= n < |events| && CallEvent(events[n], id) && id in after
    requires ExactCall(after[id], events, Evidence(events, t, n, id) + [n], protocol)
    ensures ExactFor(after, events, t, n + 1, protocol, id)
  {
    assert Evidence(events, t, n + 1, id) == Evidence(events, t, n, id) + [n];
  }

  lemma {:induction false} RecordIsExact(tally: Tally, events: seq<Event>, t: nat, n: nat, protocol: Protocol)
    requires Grammatical(events, t, true) && t <= n < |events| && Exact(tally.calls, events, t, n, protocol)
    requires Recordable(events, n)
    ensures Exact(RecordCall(tally, n, events[n], protocol).calls, events, t, n + 1, protocol)
  {
    assert Identified(events[n]) by { RecordableIsIdentified(events, t, n); }
    var own := events[n].item.value.id.value;
    var after := RecordCall(tally, n, events[n], protocol).calls;
    RecordedInto(tally, events, n, protocol);
    var next := n + 1;
    forall id ensures ExactFor(after, events, t, next, protocol, id) {
      assert ExactFor(tally.calls, events, t, n, protocol, id);
      if id == own {
        OwnIsExact(tally.calls, events, t, n, protocol, id);
        ExactForOwn(after, events, t, n, protocol, id);
      } else {
        ExactForOther(tally.calls, after, events, t, n, protocol, id);
      }
    }
  }

  lemma {:induction false} RecordableIsIdentified(events: seq<Event>, t: nat, n: nat)
    requires Layout(events, t, true) && t <= n < |events| && Recordable(events, n)
    ensures Identified(events[n])
  {
  }

  lemma {:induction false} OtherEventIsExact(calls: map<string, Call>, events: seq<Event>, t: nat, n: nat,
                                             protocol: Protocol)
    requires t <= n < |events| && Exact(calls, events, t, n, protocol) && !Recordable(events, n)
    ensures Exact(calls, events, t, n + 1, protocol)
  {
    var next := n + 1;
    forall id ensures ExactFor(calls, events, t, next, protocol, id) {
      assert ExactFor(calls, events, t, n, protocol, id);
    }
  }

  lemma {:induction false} ExaminedIsExact(tally: Tally, events: seq<Event>, t: nat, n: nat, protocol: Protocol)
    requires Grammatical(events, t, true) && t <= n < |events| && Exact(tally.calls, events, t, n, protocol)
    ensures Exact(Examine(tally, n, events[n], protocol).calls, events, t, n + 1, protocol)
  {
    if Recordable(events, n) {
      RecordIsExact(tally, events, t, n, protocol);
    } else {
      OthersRecordNothing(tally, events, n, protocol);
      OtherEventIsExact(tally.calls, events, t, n, protocol);
    }
  }

  // ----- The verdict on one call -----

  /** Some event shows that the tool ran, and the others show no more than that it was started. */
  ghost predicate Ran(evidence: seq<nat>, events: seq<Event>) {
    && (exists e :: e in evidence && e < |events| && ShowsExecution(events[e]))
    && (forall e :: e in evidence && e < |events| ==> ShowsExecution(events[e]) || ShowsStart(events[e]))
  }

  ghost predicate Refused(evidence: seq<nat>, events: seq<Event>, protocol: Protocol) {
    |evidence| == 1 && evidence[0] < |events| && Refuses(events[evidence[0]], protocol)
  }

  ghost predicate ClassifiedExactly(call: CallReport, events: seq<Event>, protocol: Protocol) {
    && (Executed in call.classifications <==>
          exists e :: e in call.evidence && e < |events| && ShowsExecution(events[e]))
    && (Rejected in call.classifications <==> Refused(call.evidence, events, protocol))
    && (Unknown in call.classifications <==> !Ran(call.evidence, events) && !Refused(call.evidence, events, protocol))
    && call.classifications <= {Executed, Rejected, Unknown}
  }

  lemma {:induction false} StatesOf(call: Call, events: seq<Event>, protocol: Protocol, i: nat)
    requires call.evidence != [] && ExactCall(call, events, call.evidence, protocol) && i < |call.evidence|
    requires !protocol.Unsupported? && !IsBenign(call.tool) && call.closed
    ensures call.evidence[i] < |events|
    ensures var event := events[call.evidence[i]];
      && (call.states[i] == Executed <==> ShowsExecution(event))
      && (call.states[i] == Rejected <==> |call.evidence| == 1 && Refuses(event, protocol))
      && (call.states[i] == Started <==> ShowsStart(event)) && call.states[i] != NoActivity
      && (i == |call.evidence| - 1 ==> call.states[i] != Started)
  {
    assert ExactAt(call, events, protocol, i);
    StatesAreExact(i == 0, events[call.evidence[i]], protocol);
  }

  lemma {:induction false} VerdictIsExact(call: Call, events: seq<Event>, protocol: Protocol)
    requires call.evidence != [] && ExactCall(call, events, call.evidence, protocol)
    requires !protocol.Unsupported? && !IsBenign(call.tool) && call.closed
    ensures ClassifiedExactly(ReportCall(call, true), events, protocol)
  {
    forall i | 0 <= i < |call.evidence|
      ensures call.evidence[i] < |events|
      ensures var event := events[call.evidence[i]];
        && (call.states[i] == Executed <==> ShowsExecution(event))
        && (call.states[i] == Rejected <==> |call.evidence| == 1 && Refuses(event, protocol))
        && (call.states[i] == Started <==> ShowsStart(event)) && call.states[i] != NoActivity
        && (i == |call.evidence| - 1 ==> call.states[i] != Started)
    {
      StatesOf(call, events, protocol, i);
    }
    assert call.states[|call.evidence| - 1] in call.states;
    assert call.evidence[0] in call.evidence && call.states[0] in call.states;
  }

  // ----- The outcome of one call -----

  /** The outcome of a call that this item completes; `alone` says that it is the only evidence. */
  ghost predicate Settles(outcome: Option<Outcome>, item: Item, alone: bool, protocol: Protocol) {
    var command, ended := item.kind == Some(CommandExecution), item.status in {Completed, Failed};
    var dispatched := item.kind in {Some(McpToolCall), Some(CollabToolCall)};
    && (outcome == Some(Success) <==> command && ended && item.exitCode == Code(0))
    && (outcome == Some(ExecutionFailed) <==> command && ended && item.exitCode.Code? && item.exitCode.value != 0)
    && (outcome == Some(CommandDeclined) <==> command && alone && item.status == Declined && item.exitCode == NoCode)
    && (outcome == Some(PreexecutionRejection) <==>
      item.kind == Some(UserInputRejection) && alone && item.noninteractive && protocol == Synthetic)
    && (forall status :: outcome == Some(Finished(status)) <==> dispatched && ended && status == item.status)
  }

  /** The outcome is what the last event says, which completes the call. */
  ghost predicate SettledExactly(call: CallReport, events: seq<Event>, protocol: Protocol) {
    && call.evidence != [] && call.evidence[|call.evidence| - 1] < |events|
    && events[call.evidence[|call.evidence| - 1]].kind == ItemCompleted
    && events[call.evidence[|call.evidence| - 1]].item.Some?
    && Settles(call.outcome, events[call.evidence[|call.evidence| - 1]].item.value, |call.evidence| == 1, protocol)
  }

  lemma {:induction false} OutcomeIsExact(call: Call, events: seq<Event>, protocol: Protocol)
    requires call.evidence != [] && ExactCall(call, events, call.evidence, protocol)
    requires !protocol.Unsupported? && call.closed
    ensures SettledExactly(ReportCall(call, true), events, protocol)
  {
    assert ExactAt(call, events, protocol, |call.evidence| - 1);
  }

  // ----- The findings -----

  predicate Clean(event: Event) {
    && event.kind !in {UntypedEvent, OtherEvent, TurnFailed, ErrorEvent}
    && (event.kind in {ItemStarted, ItemUpdated, ItemCompleted} && event.item.Some? && event.item.value.kind.Some? ==>
      && (event.item.value.kind.value in {AgentMessage, Reasoning} ==> event.item.value.hasText)
      && (event.item.value.kind.value == TodoList ==> event.item.value.todo.Some?))
  }

  /** A well-formed work list under this id. */
  predicate ListEvent(event: Event, id: string) {
    && event.kind in {ItemStarted, ItemUpdated, ItemCompleted} && event.item.Some? && event.item.value.id == Some(id)
    && event.item.value.kind == Some(TodoList) && event.item.value.todo.Some?
  }

  ghost predicate LatestList(events: seq<Event>, t: nat, n: nat, id: string, k: int)
    requires n <= |events|
  {
    t <= k < n && ListEvent(events[k], id) && forall j :: k < j < n ==> !ListEvent(events[j], id)
  }

  /** The latest list of some id has an open step. */
  ghost predicate StepOpen(events: seq<Event>, t: nat) {
    exists id, k :: LatestList(events, t, |events|, id, k) && false in events[k].item.value.todo.value
  }

  ghost predicate AllClean(events: seq<Event>, from: nat, to: nat)
    requires to <= |events|
  {
    forall e :: from <= e < to ==> Clean(events[e])
  }

  lemma {:induction false} ExamineFinds(tally: Tally, n: nat, event: Event, protocol: Protocol)
    requires IsItem(event.kind) ==> Identified(event)
    ensures var after := Examine(tally, n, event, protocol).findings;
      |after| == |tally.findings| + if Clean(event) then 0 else 1
  {
  }

  lemma {:induction false} ItemsIdentified(events: seq<Event>, t: nat, n: nat)
    requires Layout(events, t, true) && t <= n < |events|
    ensures IsItem(events[n].kind) ==> Identified(events[n])
  {
  }

  lemma {:induction false} FindingsStep(before: Tally, after: Tally, events: seq<Event>, t: nat, n: nat,
                                        protocol: Protocol)
    requires Layout(events, t, true) && t <= n < |events| && after == Examine(before, n, events[n], protocol)
    requires before.findings == [] <==> AllClean(events, t, n)
    ensures after.findings == [] <==> AllClean(events, t, n + 1)
  {
    ItemsIdentified(events, t, n);
    ExamineFinds(before, n, events[n], protocol);
  }

  ghost predicate WorkIs(work: map<string, seq<bool>>, events: seq<Event>, t: nat, n: nat)
    requires n <= |events|
  {
    && (forall id, k :: LatestList(events, t, n, id, k) ==> id in work && work[id] == events[k].item.value.todo.value)
    && (forall id :: id in work ==> exists k :: LatestList(events, t, n, id, k))
  }

  lemma {:induction false} ExamineWorks(tally: Tally, n: nat, event: Event, protocol: Protocol)
    requires IsItem(event.kind) ==> Identified(event)
    ensures var after := Examine(tally, n, event, protocol).work;
      if event.item.Some? && event.item.value.id.Some? && ListEvent(event, event.item.value.id.value)
      then after == tally.work[event.item.value.id.value := event.item.value.todo.value] else after == tally.work
  {
  }

  lemma {:induction false} WorkStep(work: map<string, seq<bool>>, after: map<string, seq<bool>>, events: seq<Event>,
                                    t: nat, n: nat)
    requires t <= n < |events| && WorkIs(work, events, t, n)
    requires var event := events[n];
      if event.item.Some? && event.item.value.id.Some? && ListEvent(event, event.item.value.id.value)
      then after == work[event.item.value.id.value := event.item.value.todo.value] else after == work
    ensures WorkIs(after, events, t, n + 1)
  {
    var next := n + 1;
    forall id, k | LatestList(events, t, next, id, k)
      ensures id in after && after[id] == events[k].item.value.todo.value
    {
      if k < n { assert LatestList(events, t, n, id, k); }
    }
    forall id | id in after ensures exists k :: LatestList(events, t, next, id, k) {
      if ListEvent(events[n], id) {
        assert LatestList(events, t, next, id, n);
      } else {
        var k :| LatestList(events, t, n, id, k);
        assert LatestList(events, t, next, id, k);
      }
    }
  }

  lemma {:induction false} WorkNext(before: Tally, after: Tally, events: seq<Event>, t: nat, n: nat, protocol: Protocol)
    requires Layout(events, t, true) && t <= n < |events| && after == Examine(before, n, events[n], protocol)
    requires WorkIs(before.work, events, t, n)
    ensures WorkIs(after.work, events, t, n + 1)
  {
    ItemsIdentified(events, t, n);
    ExamineWorks(before, n, events[n], protocol);
    WorkStep(before.work, after.work, events, t, n);
  }

  // ----- The whole tally -----

  ghost predicate Faithful(tally: Tally, events: seq<Event>, t: nat, n: nat, protocol: Protocol)
    requires n <= |events|
  {
    && Exact(tally.calls, events, t, n, protocol) && WorkIs(tally.work, events, t, n)
    && (tally.findings == [] <==> AllClean(events, t, n))
  }

  lemma {:induction false} TallyStep(events: seq<Event>, t: nat, n: nat, protocol: Protocol, before: Tally)
    returns (after: Tally)
    requires 1 <= t <= n < |events| && before == TallyUp(events, n, Indices(t), protocol)
    ensures after == TallyUp(events, n + 1, Indices(t), protocol) && after == Examine(before, n, events[n], protocol)
  {
    AfterTheWindow(t, n);
    TallyNext(events, n, Indices(t), protocol);
    after := TallyUp(events, n + 1, Indices(t), protocol);
  }

  lemma {:induction false} EmptyIsFaithful(events: seq<Event>, t: nat, protocol: Protocol)
    requires t <= |events|
    ensures Faithful(EMPTY, events, t, t, protocol)
  {
    forall id ensures ExactFor(EMPTY.calls, events, t, t, protocol, id) {
    }
  }

  lemma {:induction false} FaithfulStep(before: Tally, after: Tally, events: seq<Event>, t: nat, n: nat,
                                        protocol: Protocol)
    requires Grammatical(events, t, true) && t <= n < |events| && after == Examine(before, n, events[n], protocol)
    requires Faithful(before, events, t, n, protocol)
    ensures Faithful(after, events, t, n + 1, protocol)
  {
    ExaminedIsExact(before, events, t, n, protocol);
    FindingsStep(before, after, events, t, n, protocol);
    WorkNext(before, after, events, t, n, protocol);
  }

  lemma {:induction false} StartIsFaithful(events: seq<Event>, t: nat, protocol: Protocol)
    requires Grammatical(events, t, true)
    ensures EMPTY == TallyUp(events, t, Indices(t), protocol) && Faithful(EMPTY, events, t, t, protocol)
  {
    NothingBeforeTheTurn(events, t, t, protocol);
    EmptyIsFaithful(events, t, protocol);
  }

  lemma {:induction false} NextIsFaithful(events: seq<Event>, t: nat, n: nat, protocol: Protocol, before: Tally)
    returns (after: Tally)
    requires Grammatical(events, t, true) && t <= n < |events| && Faithful(before, events, t, n, protocol)
    requires before == TallyUp(events, n, Indices(t), protocol)
    ensures after == TallyUp(events, n + 1, Indices(t), protocol) && Faithful(after, events, t, n + 1, protocol)
  {
    after := TallyStep(events, t, n, protocol, before);
    FaithfulStep(before, after, events, t, n, protocol);
  }

  lemma {:induction false} TallyIsFaithful(events: seq<Event>, t: nat, n: nat, protocol: Protocol)
    returns (tally: Tally)
    requires Grammatical(events, t, true) && t <= n <= |events|
    ensures tally == TallyUp(events, n, Indices(t), protocol) && Faithful(tally, events, t, n, protocol)
    decreases n
  {
    if n == t {
      StartIsFaithful(events, t, protocol);
      tally := EMPTY;
    } else {
      tally := TallyIsFaithful(events, t, n - 1, protocol);
      tally := NextIsFaithful(events, t, n - 1, protocol, tally);
    }
  }

  // ----- The calls of the report -----

  /** Everything reported about a call follows from its events, which are exactly those that name its id after the turn
      start. */
  ghost predicate ReportedExactly(call: CallReport, events: seq<Event>, t: nat, id: string, protocol: Protocol) {
    && Ascending(call.evidence)
    && (forall e: nat :: e in call.evidence <==> t <= e < |events| && CallEvent(events[e], id))
    && (forall e :: e in call.evidence && e < |events| ==> events[e].item.value.kind == Some(call.tool))
    && call.closed && ClassifiedExactly(call, events, protocol) && SettledExactly(call, events, protocol)
  }

  lemma {:induction false} CallIsReported(call: Call, events: seq<Event>, t: nat, id: string, protocol: Protocol)
    requires Grammatical(events, t, true) && !protocol.Unsupported?
    requires call.evidence != [] && call.evidence == Evidence(events, t, |events|, id)
    requires ExactCall(call, events, call.evidence, protocol)
    ensures ReportedExactly(ReportCall(call, true), events, t, id, protocol)
  {
    EvidenceIs(events, t, |events|, id);
    CompletedInTheEnd(events, t, id);
    forall e | e in call.evidence ensures e < |events| && events[e].item.value.kind == Some(call.tool) {
      var i :| 0 <= i < |call.evidence| && call.evidence[i] == e;
      assert ExactAt(call, events, protocol, i);
    }
    assert call.evidence[0] in call.evidence;
    VerdictIsExact(call, events, protocol);
    OutcomeIsExact(call, events, protocol);
  }

  /** In a stream of the grammar under a supported protocol the calls are exactly the ids that some event after the turn
      start names, and each is reported exactly as its events say. */
  lemma {:induction false} CallsAreReportedExactly(events: seq<Event>, t: nat, protocol: Protocol, complete: bool,
                                                   signal: bool)
    requires Grammatical(events, t, true) && !protocol.Unsupported?
    ensures var r := Classify(events, protocol, complete, signal);
      && (forall id :: id in r.calls <==> exists e: nat :: t <= e < |events| && CallEvent(events[e], id))
      && (forall id :: id in r.calls ==> ReportedExactly(r.calls[id], events, t, id, protocol))
  {
    var r := Classify(events, protocol, complete, signal);
    ClassifyValid(events, t, protocol, complete, signal);
    var tally := TallyIsFaithful(events, t, |events|, protocol);
    var calls := tally.calls;
    forall id ensures id in r.calls <==> exists e: nat :: t <= e < |events| && CallEvent(events[e], id) {
      assert ExactFor(calls, events, t, |events|, protocol, id);
      EvidenceIs(events, t, |events|, id);
      var evidence := Evidence(events, t, |events|, id);
      if evidence != [] { assert evidence[0] in evidence; }
    }
    forall id | id in r.calls ensures ReportedExactly(r.calls[id], events, t, id, protocol) {
      assert ExactFor(calls, events, t, |events|, protocol, id);
      CallIsReported(calls[id], events, t, id, protocol);
    }
  }

  /** There is no finding exactly on a complete capture without a hint in which every event after the turn start is
      clean and no work list is left with an open step. */
  lemma {:induction false} FindingsAreExact(events: seq<Event>, t: nat, protocol: Protocol, complete: bool,
                                            signal: bool)
    requires Grammatical(events, t, true) && !protocol.Unsupported?
    ensures Classify(events, protocol, complete, signal).findings == [] <==>
      && complete && !signal && (forall e :: t <= e < |events| ==> Clean(events[e])) && !StepOpen(events, t)
  {
    ClassifyValid(events, t, protocol, complete, signal);
    var tally := TallyIsFaithful(events, t, |events|, protocol);
    NoFindings(tally, [], complete, signal);
    if WorkLeft(tally.work) {
      var id :| id in tally.work && false in tally.work[id];
      var k :| LatestList(events, t, |events|, id, k);
      assert StepOpen(events, t);
    }
    if StepOpen(events, t) {
      var id, k :| LatestList(events, t, |events|, id, k) && false in events[k].item.value.todo.value;
      assert id in tally.work && false in tally.work[id];
    }
  }

  // ----- When nothing is unknown -----

  ghost predicate Decided(r: Report, events: seq<Event>, protocol: Protocol, id: string)
    requires id in r.calls
  {
    Ran(r.calls[id].evidence, events) || Refused(r.calls[id].evidence, events, protocol)
  }

  lemma {:induction false} ConcludesUnknown(r: Report, aggregate: set<State>)
    requires aggregate == Aggregate(r.calls) && r.classifications == Conclude(aggregate, r.findings)
    ensures Unknown in r.classifications <==> r.findings != [] || Shown(r.calls, Unknown)
    ensures forall state :: state in {Executed, Rejected} ==> (state in r.classifications <==> Shown(r.calls, state))
  {
  }

  /** Nothing is unknown exactly when there is no finding and every call ran or was refused; a state is reported exactly
      when some call has it. */
  lemma {:induction false} KnownIffDecided(events: seq<Event>, t: nat, protocol: Protocol, complete: bool, signal: bool)
    requires Grammatical(events, t, true) && !protocol.Unsupported?
    ensures var r := Classify(events, protocol, complete, signal);
      && (Unknown !in r.classifications <==>
            r.findings == [] && forall id :: id in r.calls ==> Decided(r, events, protocol, id))
      && (forall state :: state in {Executed, Rejected} ==> (state in r.classifications <==>
            exists id :: id in r.calls && state in r.calls[id].classifications))
  {
    var r := Classify(events, protocol, complete, signal);
    ClassifyValid(events, t, protocol, complete, signal);
    CallsAreReportedExactly(events, t, protocol, complete, signal);
    ConcludesUnknown(r, Aggregate(r.calls));
    forall id | id in r.calls ensures Unknown in r.calls[id].classifications <==> !Decided(r, events, protocol, id) {
      assert ReportedExactly(r.calls[id], events, t, id, protocol);
    }
  }

  // ----- The order of the calls, on any stream -----

  function First(evidence: seq<nat>): nat {
    if evidence == [] then 0 else evidence[0]
  }

  ghost predicate Ordered(order: seq<string>, calls: map<string, Call>) {
    && (forall id :: id in order <==> id in calls)
    && (forall i :: 0 <= i < |order| ==> order[i] in calls)
    && (forall i, j :: 0 <= i < j < |order| ==> First(calls[order[i]].evidence) < First(calls[order[j]].evidence))
  }

  ghost predicate FirstsBelow(calls: map<string, Call>, n: nat) {
    forall id :: id in calls ==> First(calls[id].evidence) < n
  }

  lemma {:induction false} OrderStep(order: seq<string>, calls: map<string, Call>, id: string, call: Call, n: nat)
    requires Ordered(order, calls) && FirstsBelow(calls, n)
    requires First(call.evidence) == if id in calls then First(calls[id].evidence) else n
    ensures Ordered(if id in calls then order else order + [id], calls[id := call])
  {
    forall i | 0 <= i < |order| ensures First(calls[id := call][order[i]].evidence) == First(calls[order[i]].evidence) {
    }
  }

  lemma {:induction false} RecordKeepsOrder(tally: Tally, events: seq<Event>, n: nat, protocol: Protocol)
    requires Recordable(events, n) && CallsSound(tally.calls, events, n) && Ordered(tally.order, tally.calls)
    ensures var after := RecordCall(tally, n, events[n], protocol); Ordered(after.order, after.calls)
  {
    var id := CallId(n, events[n].item.value);
    var call := CallOf(tally.calls, id, events[n].item.value.kind.value);
    RecordedCall(call, n, events[n], protocol);
    forall other | other in tally.calls ensures First(tally.calls[other].evidence) < n {
      assert First(tally.calls[other].evidence) in tally.calls[other].evidence;
    }
    OrderStep(tally.order, tally.calls, id, Recorded(call, n, events[n], protocol), n);
  }

  lemma {:induction false} ExaminedKeepsOrder(before: Tally, after: Tally, events: seq<Event>, n: nat,
                                              protocol: Protocol)
    requires n < |events| && CallsSound(before.calls, events, n) && Ordered(before.order, before.calls)
    requires after == Examine(before, n, events[n], protocol)
    ensures Ordered(after.order, after.calls)
  {
    if Recordable(events, n) {
      RecordableIsRecorded(before, events, n, protocol);
      RecordKeepsOrder(before, events, n, protocol);
    } else {
      OthersKeepOrder(before, events, n, protocol);
    }
  }

  lemma {:induction false} RecordableIsRecorded(tally: Tally, events: seq<Event>, n: nat, protocol: Protocol)
    requires Recordable(events, n)
    ensures Examine(tally, n, events[n], protocol) == RecordCall(tally, n, events[n], protocol)
  {
  }

  lemma {:induction false} OthersKeepOrder(tally: Tally, events: seq<Event>, n: nat, protocol: Protocol)
    requires n < |events| && !Recordable(events, n)
    ensures Examine(tally, n, events[n], protocol).order == tally.order
    ensures Examine(tally, n, events[n], protocol).calls == tally.calls
  {
  }

  /** The calls are listed in the order of their first events. */
  lemma {:induction false} CallsAreInOrder(events: seq<Event>, n: nat, diagnostics: seq<nat>, protocol: Protocol)
    requires n <= |events| && forall d :: d in diagnostics ==> d < |events| && ErrorCompletion(events[d])
    ensures Ordered(TallyUp(events, n, diagnostics, protocol).order, TallyUp(events, n, diagnostics, protocol).calls)
  {
    if n > 0 {
      CallsAreInOrder(events, n - 1, diagnostics, protocol);
      var before, after := TallyUp(events, n - 1, diagnostics, protocol), TallyUp(events, n, diagnostics, protocol);
      if n - 1 !in diagnostics {
        TallyNext(events, n - 1, diagnostics, protocol);
        TallyIsAccounted(events, n - 1, diagnostics, protocol);
        ExaminedKeepsOrder(before, after, events, n - 1, protocol);
      }
    }
  }

  lemma {:induction false} ReportIsInOrder(events: seq<Event>, protocol: Protocol, complete: bool, signal: bool)
    ensures var r := Classify(events, protocol, complete, signal);
      && (forall id :: id in r.order <==> id in r.calls)
      && (forall i :: 0 <= i < |r.order| ==> r.order[i] in r.calls)
      && (forall i, j :: 0 <= i < j < |r.order| ==>
        First(r.calls[r.order[i]].evidence) < First(r.calls[r.order[j]].evidence))
  {
    DiagnosticsLieInTheWindow(events, |events|, !protocol.Unsupported?);
    var diagnostics := Judge(events, !protocol.Unsupported?).1;
    CallsAreInOrder(events, |events|, diagnostics, protocol);
  }
}
