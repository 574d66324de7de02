/** The lifecycle automaton that judges one captured event stream, and the grammar it decides. */
module Lifecycle {
  import opened Wrappers

  // ----- A typed view of the decoded events; None stands for a missing or ill-typed member -----

  datatype Kind =
    | ThreadStarted | TurnStarted | TurnCompleted | TurnFailed
    | ItemStarted | ItemUpdated | ItemCompleted
    | ErrorEvent | OtherEvent | UntypedEvent

  datatype ItemKind =
    | AgentMessage | Reasoning | TodoList
    | CommandExecution | McpToolCall | WebSearch | FileChange | CollabToolCall
    | UserInputRejection | ErrorItem | OtherItem(name: string)

  datatype Status = Declined | InProgress | Completed | Failed | OtherStatus

  datatype ExitCode = NoCode | Code(value: int) | OtherCode

  /** `todo` says of each step of a work list whether it is an object marked completed; `noninteractive` says that
      the item has exactly the members and values of a rejection before execution. */
  datatype Item = Item(
    id: Option<string>, kind: Option<ItemKind>, hasMessage: bool, hasText: bool, todo: Option<seq<bool>>,
    status: Status, exitCode: ExitCode, hasQuery: bool, hasAction: bool, noninteractive: bool)

  datatype Event = Event(kind: Kind, threadId: Option<string>, item: Option<Item>)

  predicate IsItem(kind: Kind) {
    kind in {ItemStarted, ItemUpdated, ItemCompleted}
  }

  predicate IsTerminal(kind: Kind) {
    kind in {TurnCompleted, TurnFailed}
  }

  predicate Named(name: Option<string>) {
    name.Some? && name.value != ""
  }

  predicate Identified(event: Event) {
    event.item.Some? && Named(event.item.value.id) && event.item.value.kind.Some?
  }

  predicate ErrorCompletion(event: Event) {
    event.kind.ItemCompleted? && event.item.Some? && event.item.value.kind == Some(ErrorItem)
      && event.item.value.hasMessage
  }

  // ----- The automaton -----

  datatype Phase = BeforeThread | BeforeTurn | InTurn | Terminal | StreamFailed

  datatype Problem =
    | ThreadStartOutOfOrder | InvalidThreadIdentity | TurnStartOutOfOrder | TerminalOutOfOrder
    | ItemOutsideTurn | InvalidItemIdentity | ConflictingItemLifecycle | ItemUpdateWithoutStart
    | StreamError | EventAfterTerminal | UnknownEventOutsideTurn

  datatype Issue = At(index: nat, problem: Problem) | MissingTerminal | UnfinishedItem

  datatype Seen = Seen(kind: ItemKind, last: Kind)

  datatype Progress = Progress(phase: Phase, items: map<string, Seen>, issues: seq<Issue>, diagnostics: seq<nat>)

  predicate Diagnostic(phase: Phase, event: Event, allow: bool) {
    allow && phase.BeforeTurn? && ErrorCompletion(event)
  }

  function ItemProblem(s: Progress, event: Event, allow: bool): Option<Problem> {
    if !s.phase.InTurn? && !Diagnostic(s.phase, event, allow) then Some(ItemOutsideTurn)
    else if !Identified(event) then Some(InvalidItemIdentity)
    else
      var item := event.item.value;
      if item.id.value in s.items then
        var previous := s.items[item.id.value];
        if previous.kind != item.kind.value || previous.last.ItemCompleted? || event.kind.ItemStarted?
        then Some(ConflictingItemLifecycle) else None
      else if event.kind.ItemUpdated? then Some(ItemUpdateWithoutStart) else None
  }

  function ProblemOf(s: Progress, index: nat, count: nat, event: Event, allow: bool): Option<Problem> {
    match event.kind
    case ThreadStarted =>
      if !s.phase.BeforeThread? || index != 0 then Some(ThreadStartOutOfOrder)
      else if !Named(event.threadId) then Some(InvalidThreadIdentity) else None
    case TurnStarted => if !s.phase.BeforeTurn? then Some(TurnStartOutOfOrder) else None
    case TurnCompleted | TurnFailed =>
      if !s.phase.InTurn? || index + 1 != count then Some(TerminalOutOfOrder) else None
    case ItemStarted | ItemUpdated | ItemCompleted => ItemProblem(s, event, allow)
    case ErrorEvent => Some(StreamError)
    case OtherEvent | UntypedEvent =>
      if s.phase.Terminal? then Some(EventAfterTerminal)
      else if !s.phase.InTurn? then Some(UnknownEventOutsideTurn) else None
  }

  function PhaseAfter(phase: Phase, index: nat, event: Event): Phase {
    match event.kind
    case ThreadStarted => if phase.BeforeThread? && index == 0 && Named(event.threadId) then BeforeTurn else phase
    case TurnStarted => if phase.BeforeTurn? then InTurn else phase
    case TurnCompleted | TurnFailed => Terminal
    case ErrorEvent => StreamFailed
    case _ => phase
  }

  function ItemsAfter(items: map<string, Seen>, event: Event): map<string, Seen> {
    if IsItem(event.kind) && Identified(event)
    then items[event.item.value.id.value := Seen(event.item.value.kind.value, event.kind)] else items
  }

  function Observe(s: Progress, index: nat, count: nat, event: Event, allow: bool): Progress {
    var problem := ProblemOf(s, index, count, event, allow);
    Progress(
      PhaseAfter(s.phase, index, event), ItemsAfter(s.items, event),
      if problem.Some? then s.issues + [At(index, problem.value)] else s.issues,
      if Diagnostic(s.phase, event, allow) && problem.None? then s.diagnostics + [index] else s.diagnostics)
  }

  /** What is known after the first n events. */
  function Scan(events: seq<Event>, n: nat, allow: bool): Progress
    requires n <= |events|
  {
    if n == 0 then Progress(BeforeThread, map[], [], [])
    else Observe(Scan(events, n - 1, allow), n - 1, |events|, events[n - 1], allow)
  }

  predicate Unfinished(items: map<string, Seen>) {
    exists id :: id in items && !items[id].last.ItemCompleted?
  }

  function Judge(events: seq<Event>, allow: bool): (seq<Issue>, seq<nat>) {
    var s := Scan(events, |events|, allow);
    var issues := if s.phase.Terminal? then s.issues else s.issues + [MissingTerminal];
    (if Unfinished(s.items) then issues + [UnfinishedItem] else issues, s.diagnostics)
  }

  // ----- The grammar -----

  predicate Bears(event: Event, id: string) {
    IsItem(event.kind) && Identified(event) && event.item.value.id.value == id
  }

  /** The kinds of the events about one item, in order. */
  function Kinds(events: seq<Event>, n: nat, id: string): seq<Kind>
    requires n <= |events|
  {
    if n == 0 then []
    else Kinds(events, n - 1, id) + (if Bears(events[n - 1], id) then [events[n - 1].kind] else [])
  }

  ghost predicate OpenStory(kinds: seq<Kind>) {
    |kinds| > 0 && kinds[0].ItemStarted? && forall i :: 0 < i < |kinds| ==> kinds[i].ItemUpdated?
  }

  /** "completed", or "started updated* completed". */
  ghost predicate WholeStory(kinds: seq<Kind>) {
    |kinds| > 0 && kinds[|kinds| - 1].ItemCompleted? && (|kinds| == 1 || OpenStory(kinds[..|kinds| - 1]))
  }

  ghost predicate OneKind(events: seq<Event>, n: nat, id: string, kind: ItemKind)
    requires n <= |events|
  {
    forall i :: 0 <= i < n && Bears(events[i], id) ==> events[i].item.value.kind.value == kind
  }

  ghost predicate ItemsTellStories(events: seq<Event>) {
    forall id :: Kinds(events, |events|, id) != [] ==>
      WholeStory(Kinds(events, |events|, id)) && exists kind :: OneKind(events, |events|, id, kind)
  }

  predicate Opening(event: Event) {
    event.kind.ThreadStarted? && Named(event.threadId)
  }

  predicate BodyEvent(event: Event) {
    event.kind in {OtherEvent, UntypedEvent} || (IsItem(event.kind) && Identified(event))
  }

  ghost predicate OnlyDiagnostics(events: seq<Event>, n: nat, allow: bool)
    requires n <= |events|
  {
    forall i :: 1 <= i < n ==> allow && ErrorCompletion(events[i]) && Identified(events[i])
  }

  ghost predicate OnlyBody(events: seq<Event>, from: nat, to: nat)
    requires to <= |events|
  {
    forall i :: from < i < to ==> BodyEvent(events[i])
  }

  /** A thread start, error diagnostics up to the turn start at t, a body, and one final terminal event. */
  ghost predicate Layout(events: seq<Event>, t: nat, allow: bool) {
    && 1 <= t < |events| - 1 && Opening(events[0]) && OnlyDiagnostics(events, t, allow)
    && events[t].kind.TurnStarted? && OnlyBody(events, t, |events| - 1) && IsTerminal(events[|events| - 1].kind)
  }

  ghost predicate Grammatical(events: seq<Event>, t: nat, allow: bool) {
    Layout(events, t, allow) && ItemsTellStories(events)
  }

  // ----- The automaton follows the items -----

  ghost predicate Follows(seen: Seen, kinds: seq<Kind>) {
    kinds != [] && kinds[|kinds| - 1] == seen.last
      && (if seen.last.ItemCompleted? then WholeStory(kinds) else OpenStory(kinds))
  }

  ghost predicate TracksOne(items: map<string, Seen>, events: seq<Event>, n: nat, id: string)
    requires n <= |events|
  {
    if id in items then Follows(items[id], Kinds(events, n, id)) && OneKind(events, n, id, items[id].kind)
    else Kinds(events, n, id) == []
  }

  ghost predicate Tracks(items: map<string, Seen>, events: seq<Event>, n: nat)
    requires n <= |events|
  {
    forall id :: TracksOne(items, events, n, id)
  }

  lemma {:induction false} NoKindsMeansNoEvents(events: seq<Event>, n: nat, id: string, i: nat)
    requires n <= |events| && Kinds(events, n, id) == [] && i < n
    ensures !Bears(events[i], id)
  {
    if i < n - 1 { NoKindsMeansNoEvents(events, n - 1, id, i); }
  }

  lemma {:induction false} NextKind(seen: Seen, kinds: seq<Kind>, kind: Kind)
    requires IsItem(kind) && Follows(seen, kinds) && !seen.last.ItemCompleted? && !kind.ItemStarted?
    ensures Follows(seen.(last := kind), kinds + [kind])
  {
    assert (kinds + [kind])[..|kinds|] == kinds;
  }

  lemma {:induction false} OneKindStep(events: seq<Event>, n: nat, own: string)
    requires n < |events| && Bears(events[n], own)
    requires Kinds(events, n, own) == [] || OneKind(events, n, own, events[n].item.value.kind.value)
    ensures OneKind(events, n + 1, own, events[n].item.value.kind.value)
  {
    if Kinds(events, n, own) == [] {
      forall i | 0 <= i < n ensures !Bears(events[i], own) { NoKindsMeansNoEvents(events, n, own, i); }
    }
  }

  lemma {:induction false} OwnStep(items: map<string, Seen>, events: seq<Event>, n: nat, own: string)
    requires n < |events| && TracksOne(items, events, n, own) && Bears(events[n], own)
    requires var s := Progress(InTurn, items, [], []); ItemProblem(s, events[n], true).None?
    ensures TracksOne(items[own := Seen(events[n].item.value.kind.value, events[n].kind)], events, n + 1, own)
  {
    OneKindStep(events, n, own);
    if own in items {
      NextKind(items[own], Kinds(events, n, own), events[n].kind);
    } else {
      assert Kinds(events, n + 1, own) == [events[n].kind];
    }
  }

  lemma {:induction false} AnotherStep(items: map<string, Seen>, after: map<string, Seen>, events: seq<Event>, n: nat,
                                       id: string)
    requires n < |events| && TracksOne(items, events, n, id) && !Bears(events[n], id)
    requires (id in after <==> id in items) && (id in items ==> after[id] == items[id])
    ensures TracksOne(after, events, n + 1, id)
  {
    assert Kinds(events, n + 1, id) == Kinds(events, n, id);
  }

  lemma {:induction false} TracksStep(s: Progress, events: seq<Event>, n: nat, allow: bool)
    requires n < |events| && Tracks(s.items, events, n)
    requires ProblemOf(s, n, |events|, events[n], allow).None?
    ensures Tracks(ItemsAfter(s.items, events[n]), events, n + 1)
  {
    var after, next := ItemsAfter(s.items, events[n]), n + 1;
    forall id ensures TracksOne(after, events, next, id) {
      assert TracksOne(s.items, events, n, id);
      if Bears(events[n], id) {
        OwnStep(s.items, events, n, id);
      } else {
        AnotherStep(s.items, after, events, n, id);
      }
    }
  }

  // ----- An accepted stream is in the grammar -----

  ghost predicate Stage(events: seq<Event>, n: nat, t: nat, allow: bool, phase: Phase)
    requires n <= |events|
  {
    match phase
    case BeforeThread => n == 0
    case BeforeTurn => n >= 1 && Opening(events[0]) && OnlyDiagnostics(events, n, allow)
    case InTurn =>
      1 <= t < n && Opening(events[0]) && OnlyDiagnostics(events, t, allow) && events[t].kind.TurnStarted?
      && OnlyBody(events, t, n)
    case Terminal => n == |events| && Layout(events, t, allow)
    case StreamFailed => false
  }

  lemma {:induction false} StageStep(s: Progress, events: seq<Event>, n: nat, t: nat, allow: bool)
    requires n < |events| && Stage(events, n, t, allow, s.phase)
    requires ProblemOf(s, n, |events|, events[n], allow).None?
    ensures Stage(events, n + 1, if events[n].kind.TurnStarted? then n else t, allow, PhaseAfter(s.phase, n, events[n]))
  {
  }

  lemma {:induction false} CleanPrefix(events: seq<Event>, n: nat, allow: bool) returns (t: nat)
    requires n <= |events| && Scan(events, n, allow).issues == []
    ensures Stage(events, n, t, allow, Scan(events, n, allow).phase)
    ensures Tracks(Scan(events, n, allow).items, events, n)
  {
    if n == 0 {
      t := 0;
    } else {
      t := CleanPrefix(events, n - 1, allow);
      var s := Scan(events, n - 1, allow);
      StageStep(s, events, n - 1, t, allow);
      TracksStep(s, events, n - 1, allow);
      if events[n - 1].kind.TurnStarted? { t := n - 1; }
    }
  }

  lemma {:induction false} AcceptedIsGrammatical(events: seq<Event>, allow: bool) returns (t: nat)
    requires Judge(events, allow).0 == []
    ensures Grammatical(events, t, allow)
  {
    var s := Scan(events, |events|, allow);
    t := CleanPrefix(events, |events|, allow);
    forall id | Kinds(events, |events|, id) != []
      ensures WholeStory(Kinds(events, |events|, id)) && exists kind :: OneKind(events, |events|, id, kind) {
      assert TracksOne(s.items, events, |events|, id);
      assert id in s.items && OneKind(events, |events|, id, s.items[id].kind);
    }
  }

  // ----- A stream in the grammar is accepted -----

  function PhaseAt(n: nat, t: nat, count: nat): Phase {
    if n == 0 then BeforeThread else if n <= t then BeforeTurn else if n < count then InTurn else Terminal
  }

  function Indices(n: nat): (r: seq<nat>) {
    if n < 2 then [] else Indices(n - 1) + [n - 1]
  }

  lemma {:induction false} KindsGrow(events: seq<Event>, m: nat, n: nat, id: string)
    requires m <= n <= |events|
    ensures Kinds(events, m, id) <= Kinds(events, n, id)
  {
    if m < n { KindsGrow(events, m, n - 1, id); }
  }

  lemma {:induction false} FitsStory(kinds: seq<Kind>, next: seq<Kind>, kind: Kind, whole: seq<Kind>)
    requires WholeStory(whole) && next == kinds + [kind] && next <= whole
    ensures kinds == [] ==> !kind.ItemUpdated?
    ensures kinds != [] ==> !kinds[|kinds| - 1].ItemCompleted? && !kind.ItemStarted?
  {
    assert whole[|kinds|] == kind;
    if kinds != [] { assert whole[|kinds| - 1] == kinds[|kinds| - 1]; }
  }

  /** The next event of an item whose whole story is told is never refused. */
  lemma {:induction false} StoryAdmits(s: Progress, events: seq<Event>, n: nat, allow: bool)
    requires n < |events| && Tracks(s.items, events, n) && ItemsTellStories(events)
    requires IsItem(events[n].kind) && Identified(events[n])
    requires (s.phase.InTurn? || Diagnostic(s.phase, events[n], allow))
    ensures ItemProblem(s, events[n], allow).None?
  {
    var own := events[n].item.value.id.value;
    KindsGrow(events, n + 1, |events|, own);
    FitsStory(Kinds(events, n, own), Kinds(events, n + 1, own), events[n].kind, Kinds(events, |events|, own));
    assert TracksOne(s.items, events, n, own);
    if own in s.items {
      var kind :| OneKind(events, |events|, own, kind);
      SomeEvent(events, n, own);
    }
  }

  lemma {:induction false} SomeEvent(events: seq<Event>, n: nat, id: string)
    requires n <= |events| && Kinds(events, n, id) != []
    ensures exists i :: 0 <= i < n && Bears(events[i], id)
  {
    if !Bears(events[n - 1], id) { SomeEvent(events, n - 1, id); }
  }

  ghost predicate OnTrack(s: Progress, events: seq<Event>, n: nat, t: nat)
    requires n <= |events|
  {
    && s.issues == [] && s.phase == PhaseAt(n, t, |events|) && Tracks(s.items, events, n)
    && s.diagnostics == Indices(if n <= t then n else t)
  }

  /** Apart from the items' own stories, the layout leaves nothing to object to. */
  lemma {:induction false} LayoutAdmits(s: Progress, events: seq<Event>, n: nat, t: nat, allow: bool)
    requires Layout(events, t, allow) && n < |events| && s.phase == PhaseAt(n, t, |events|)
    ensures PhaseAfter(s.phase, n, events[n]) == PhaseAt(n + 1, t, |events|)
    ensures Diagnostic(s.phase, events[n], allow) <==> 0 < n < t
    ensures IsItem(events[n].kind) ==> Identified(events[n]) && (s.phase.InTurn? || 0 < n < t)
    ensures !IsItem(events[n].kind) ==> ProblemOf(s, n, |events|, events[n], allow).None?
  {
  }

  lemma {:induction false} StaysOnTrack(s: Progress, events: seq<Event>, n: nat, t: nat, allow: bool)
    requires Grammatical(events, t, allow) && n < |events| && OnTrack(s, events, n, t)
    ensures OnTrack(Observe(s, n, |events|, events[n], allow), events, n + 1, t)
  {
    LayoutAdmits(s, events, n, t, allow);
    if IsItem(events[n].kind) { StoryAdmits(s, events, n, allow); }
    TracksStep(s, events, n, allow);
  }

  lemma {:induction false} GrammaticalPrefix(events: seq<Event>, n: nat, t: nat, allow: bool)
    requires Grammatical(events, t, allow) && n <= |events|
    ensures OnTrack(Scan(events, n, allow), events, n, t)
  {
    if n > 0 {
      GrammaticalPrefix(events, n - 1, t, allow);
      StaysOnTrack(Scan(events, n - 1, allow), events, n - 1, t, allow);
    }
  }

  lemma {:induction false} GrammaticalIsAccepted(events: seq<Event>, t: nat, allow: bool)
    requires Grammatical(events, t, allow)
    ensures Judge(events, allow) == ([], Indices(t))
  {
    GrammaticalPrefix(events, |events|, t, allow);
    var s := Scan(events, |events|, allow);
    forall id | id in s.items ensures s.items[id].last.ItemCompleted? {
      assert TracksOne(s.items, events, |events|, id);
      assert WholeStory(Kinds(events, |events|, id));
    }
    assert !Unfinished(s.items);
  }

  /** The automaton reports nothing exactly on the streams of the grammar, and then calls diagnostics exactly the
      events between the thread start and the turn start. */
  lemma {:induction false} AcceptsExactlyTheGrammar(events: seq<Event>, allow: bool)
    ensures Judge(events, allow).0 == [] <==> exists t :: Grammatical(events, t, allow)
    ensures forall t :: Grammatical(events, t, allow) ==> Judge(events, allow).1 == Indices(t)
  {
    if Judge(events, allow).0 == [] {
      var t := AcceptedIsGrammatical(events, allow);
    }
    forall t | Grammatical(events, t, allow) ensures Judge(events, allow) == ([], Indices(t)) {
      GrammaticalIsAccepted(events, t, allow);
    }
  }

  // ----- The window for diagnostics, on any stream -----

  predicate Leaves(kind: Kind) {
    kind in {TurnStarted, TurnCompleted, TurnFailed, ErrorEvent}
  }

  ghost predicate WindowOpen(events: seq<Event>, n: nat)
    requires n <= |events|
  {
    n > 0 && Opening(events[0]) && forall i :: 0 < i < n ==> !Leaves(events[i].kind)
  }

  /** The window before the turn opens with a first event that names the thread, and once left never reopens. */
  lemma {:induction false} WindowIsExact(events: seq<Event>, n: nat, allow: bool)
    requires n <= |events|
    ensures Scan(events, n, allow).phase.BeforeTurn? <==> WindowOpen(events, n)
  {
    if n > 0 { WindowIsExact(events, n - 1, allow); }
  }

  /** On any stream whatever, only identified error completions inside the window are called diagnostics. */
  lemma {:induction false} DiagnosticsLieInTheWindow(events: seq<Event>, n: nat, allow: bool)
    requires n <= |events|
    ensures forall i :: i in Scan(events, n, allow).diagnostics ==>
      i < n && allow && WindowOpen(events, i) && ErrorCompletion(events[i]) && Identified(events[i])
  {
    if n > 0 {
      DiagnosticsLieInTheWindow(events, n - 1, allow);
      WindowIsExact(events, n - 1, allow);
    }
  }

  // ----- The loop -----

  method LifecycleIssues(events: seq<Event>, allow: bool) returns (issues: seq<Issue>, diagnostics: seq<nat>)
    ensures (issues, diagnostics) == Judge(events, allow)
    ensures issues == [] <==> exists t :: Grammatical(events, t, allow)
    ensures forall t :: Grammatical(events, t, allow) ==> diagnostics == Indices(t)
  {
    issues, diagnostics := [], [];
    var phase, items := BeforeThread, map[];
    for index: nat := 0 to |events|
      invariant Progress(phase, items, issues, diagnostics) == Scan(events, index, allow)
    {
      var event := events[index];
      var problem: Option<Problem> := None;
      match event.kind {
        case ThreadStarted =>
          if phase != BeforeThread || index != 0 {
            problem := Some(ThreadStartOutOfOrder);
          } else if !Named(event.threadId) {
            problem := Some(InvalidThreadIdentity);
          } else {
            phase := BeforeTurn;
          }
        case TurnStarted =>
          if phase != BeforeTurn { problem := Some(TurnStartOutOfOrder); } else { phase := InTurn; }
        case TurnCompleted | TurnFailed =>
          if phase != InTurn || index != |events| - 1 { problem := Some(TerminalOutOfOrder); }
          phase := Terminal;
        case ItemStarted | ItemUpdated | ItemCompleted =>
          var diagnostic := Diagnostic(phase, event, allow);
          if phase != InTurn && !diagnostic { problem := Some(ItemOutsideTurn); }
          if !Identified(event) {
            problem := if problem.Some? then problem else Some(InvalidItemIdentity);
          } else {
            var item := event.item.value;
            if item.id.value in items {
              var previous := items[item.id.value];
              if previous.kind != item.kind.value || previous.last.ItemCompleted? || event.kind.ItemStarted? {
                problem := if problem.Some? then problem else Some(ConflictingItemLifecycle);
              }
            } else if event.kind.ItemUpdated? {
              problem := if problem.Some? then problem else Some(ItemUpdateWithoutStart);
            }
            items := items[item.id.value := Seen(item.kind.value, event.kind)];
          }
          if diagnostic && problem.None? { diagnostics := diagnostics + [index]; }
        case ErrorEvent =>
          problem := Some(StreamError);
          phase := StreamFailed;
        case OtherEvent | UntypedEvent =>
          if phase == Terminal {
            problem := Some(EventAfterTerminal);
          } else if phase != InTurn {
            problem := Some(UnknownEventOutsideTurn);
          }
      }
      if problem.Some? { issues := issues + [At(index, problem.value)]; }
    }
    if phase != Terminal { issues := issues + [MissingTerminal]; }
    if Unfinished(items) { issues := issues + [UnfinishedItem]; }
    AcceptsExactlyTheGrammar(events, allow);
  }
}
