/** Which issues the lifecycle automaton reports on any stream whatever, in terms of the events alone. */
module LifecycleExact {
  import opened Wrappers
  import opened Lifecycle

  // ----- Where the automaton is -----

  /** The event ends whatever was going on. */
  predicate Ends(event: Event) {
    event.kind in {TurnCompleted, TurnFailed, ErrorEvent}
  }

  /** The first event named the thread, the turn start at t was the first event after it that ends the time before the
      turn, and nothing has ended the turn since. */
  ghost predicate InTurnAt(events: seq<Event>, n: nat)
    requires n <= |events|
  {
    exists t: nat :: TurnBegan(events, n, t)
  }

  ghost predicate TurnBegan(events: seq<Event>, n: nat, t: nat)
    requires n <= |events|
  {
    && 0 < t < n && WindowOpen(events, t) && events[t].kind == TurnStarted
    && forall j :: t < j < n ==> !Ends(events[j])
  }

  /** The last event that ended anything was a terminal one. */
  ghost predicate TerminalAt(events: seq<Event>, n: nat)
    requires n <= |events|
  {
    exists t: nat :: TurnEnded(events, n, t)
  }

  ghost predicate TurnEnded(events: seq<Event>, n: nat, t: nat)
    requires n <= |events|
  {
    t < n && events[t].kind in {TurnCompleted, TurnFailed} && forall j :: t < j < n ==> !Ends(events[j])
  }

  lemma {:induction false} InTurnStep(events: seq<Event>, n: nat)
    requires n < |events|
    ensures InTurnAt(events, n + 1) <==>
            (events[n].kind == TurnStarted && WindowOpen(events, n)) || (!Ends(events[n]) && InTurnAt(events, n))
  {
    var next := n + 1;
    if events[n].kind == TurnStarted && WindowOpen(events, n) { assert TurnBegan(events, next, n); }
    if !Ends(events[n]) && InTurnAt(events, n) {
      var t: nat :| TurnBegan(events, n, t);
      assert TurnBegan(events, next, t);
    }
    if InTurnAt(events, next) {
      var t: nat :| TurnBegan(events, next, t);
      if t < n { assert TurnBegan(events, n, t); }
    }
  }

  lemma {:induction false} TerminalStep(events: seq<Event>, n: nat)
    requires n < |events|
    ensures TerminalAt(events, n + 1) <==>
            events[n].kind in {TurnCompleted, TurnFailed} || (!Ends(events[n]) && TerminalAt(events, n))
  {
    var next := n + 1;
    if events[n].kind in {TurnCompleted, TurnFailed} { assert TurnEnded(events, next, n); }
    if !Ends(events[n]) && TerminalAt(events, n) {
      var t: nat :| TurnEnded(events, n, t);
      assert TurnEnded(events, next, t);
    }
    if TerminalAt(events, next) {
      var t: nat :| TurnEnded(events, next, t);
      if t < n { assert TurnEnded(events, n, t); }
    }
  }

  lemma {:induction false} PhaseIsExact(events: seq<Event>, n: nat, allow: bool)
    requires n <= |events|
    ensures Scan(events, n, allow).phase.InTurn? <==> InTurnAt(events, n)
    ensures Scan(events, n, allow).phase.Terminal? <==> TerminalAt(events, n)
  {
    if n > 0 {
      PhaseIsExact(events, n - 1, allow);
      WindowIsExact(events, n - 1, allow);
      InTurnStep(events, n - 1);
      TerminalStep(events, n - 1);
    }
  }

  // ----- What the automaton remembers of the items -----

  /** The last event so far about the item. */
  ghost predicate LastAbout(events: seq<Event>, n: nat, id: string, j: nat)
    requires n <= |events|
  {
    j < n && Bears(events[j], id) && forall k :: j < k < n ==> !Bears(events[k], id)
  }

  ghost predicate NoneAbout(events: seq<Event>, n: nat, id: string)
    requires n <= |events|
  {
    forall j :: 0 <= j < n ==> !Bears(events[j], id)
  }

  ghost predicate Remembers(items: map<string, Seen>, events: seq<Event>, n: nat, id: string)
    requires n <= |events|
  {
    if id in items then exists j: nat :: SeenAt(items[id], events, n, id, j) else NoneAbout(events, n, id)
  }

  ghost predicate SeenAt(seen: Seen, events: seq<Event>, n: nat, id: string, j: nat)
    requires n <= |events|
  {
    LastAbout(events, n, id, j) && seen == Seen(events[j].item.value.kind.value, events[j].kind)
  }

  lemma {:induction false} RemembersStep(items: map<string, Seen>, events: seq<Event>, n: nat, id: string)
    requires n < |events| && Remembers(items, events, n, id)
    ensures Remembers(ItemsAfter(items, events[n]), events, n + 1, id)
  {
    var next := n + 1;
    if Bears(events[n], id) {
      assert SeenAt(ItemsAfter(items, events[n])[id], events, next, id, n);
    } else if id in items {
      var j: nat :| SeenAt(items[id], events, n, id, j);
      assert SeenAt(items[id], events, next, id, j);
    }
  }

  lemma {:induction false} ItemsAreRemembered(events: seq<Event>, n: nat, allow: bool, id: string)
    requires n <= |events|
    ensures Remembers(Scan(events, n, allow).items, events, n, id)
  {
    if n > 0 {
      ItemsAreRemembered(events, n - 1, allow, id);
      RemembersStep(Scan(events, n - 1, allow).items, events, n - 1, id);
    }
  }

  // ----- The issue of one event -----

  /** An item event that is allowed where it stands: in the turn, or as a diagnostic before it. */
  ghost predicate Placed(events: seq<Event>, i: nat, allow: bool)
    requires i < |events|
  {
    InTurnAt(events, i) || (allow && WindowOpen(events, i) && ErrorCompletion(events[i]))
  }

  /** The last event about the same item had another kind of item, completed it, or is followed by a second start. */
  ghost predicate Conflicts(events: seq<Event>, i: nat)
    requires i < |events| && Identified(events[i])
  {
    exists j: nat :: LastAbout(events, i, events[i].item.value.id.value, j)
      && (events[j].item.value.kind != events[i].item.value.kind || events[j].kind == ItemCompleted
          || events[i].kind == ItemStarted)
  }

  /** The condition of each problem at event i. */
  ghost predicate Warranted(problem: Problem, events: seq<Event>, i: nat, allow: bool)
    requires i < |events|
  {
    var kind := events[i].kind;
    var item := kind in {ItemStarted, ItemUpdated, ItemCompleted};
    match problem
    case ThreadStartOutOfOrder => kind == ThreadStarted && i != 0
    case InvalidThreadIdentity => kind == ThreadStarted && i == 0 && !Named(events[i].threadId)
    case TurnStartOutOfOrder => kind == TurnStarted && !WindowOpen(events, i)
    case TerminalOutOfOrder =>
      kind in {TurnCompleted, TurnFailed} && (!InTurnAt(events, i) || i != |events| - 1)
    case ItemOutsideTurn => item && !Placed(events, i, allow)
    case InvalidItemIdentity => item && Placed(events, i, allow) && !Identified(events[i])
    case ConflictingItemLifecycle =>
      item && Placed(events, i, allow) && Identified(events[i]) && Conflicts(events, i)
    case ItemUpdateWithoutStart =>
      && kind == ItemUpdated && Placed(events, i, allow) && Identified(events[i])
      && NoneAbout(events, i, events[i].item.value.id.value)
    case StreamError => kind == ErrorEvent
    case EventAfterTerminal => kind in {OtherEvent, UntypedEvent} && TerminalAt(events, i)
    case UnknownEventOutsideTurn =>
      kind in {OtherEvent, UntypedEvent} && !TerminalAt(events, i) && !InTurnAt(events, i)
  }

  lemma {:induction false} ItemProblemIsExact(events: seq<Event>, i: nat, allow: bool, problem: Problem)
    requires i < |events| && IsItem(events[i].kind)
    ensures ItemProblem(Scan(events, i, allow), events[i], allow) == Some(problem)
       <==> Warranted(problem, events, i, allow)
  {
    PhaseIsExact(events, i, allow);
    WindowIsExact(events, i, allow);
    if Identified(events[i]) {
      var id := events[i].item.value.id.value;
      ItemsAreRemembered(events, i, allow, id);
      OneLast(events, i, id);
    }
  }

  lemma {:induction false} OneLast(events: seq<Event>, n: nat, id: string)
    requires n <= |events|
    ensures forall j: nat, k: nat :: LastAbout(events, n, id, j) && LastAbout(events, n, id, k) ==> j == k
    ensures forall j: nat :: LastAbout(events, n, id, j) ==> !NoneAbout(events, n, id)
  {
  }

  lemma {:induction false} OpenedOrNot(events: seq<Event>, i: nat, allow: bool)
    requires i < |events|
    ensures Scan(events, 0, allow).phase.BeforeThread?
    ensures i != 0 ==> events[i].kind == ThreadStarted ==>
      ProblemOf(Scan(events, i, allow), i, |events|, events[i], allow) == Some(ThreadStartOutOfOrder)
  {
  }

  lemma {:induction false} ProblemIsExact(events: seq<Event>, i: nat, allow: bool, problem: Problem)
    requires i < |events|
    ensures ProblemOf(Scan(events, i, allow), i, |events|, events[i], allow) == Some(problem)
       <==> Warranted(problem, events, i, allow)
  {
    if IsItem(events[i].kind) {
      ItemProblemIsExact(events, i, allow, problem);
    } else {
      PhaseIsExact(events, i, allow);
      WindowIsExact(events, i, allow);
      OpenedOrNot(events, i, allow);
    }
  }

  // ----- The issues of the stream -----

  lemma {:induction false} IssuesSoFar(events: seq<Event>, n: nat, allow: bool, i: nat, problem: Problem)
    requires n <= |events|
    ensures At(i, problem) in Scan(events, n, allow).issues <==>
            i < n && ProblemOf(Scan(events, i, allow), i, |events|, events[i], allow) == Some(problem)
    ensures MissingTerminal !in Scan(events, n, allow).issues && UnfinishedItem !in Scan(events, n, allow).issues
  {
    if n > 0 { IssuesSoFar(events, n - 1, allow, i, problem); }
  }

  lemma {:induction false} DiagnosticsSoFar(events: seq<Event>, n: nat, allow: bool, i: nat)
    requires n <= |events|
    ensures i in Scan(events, n, allow).diagnostics <==>
            && i < n && Diagnostic(Scan(events, i, allow).phase, events[i], allow)
            && ProblemOf(Scan(events, i, allow), i, |events|, events[i], allow).None?
  {
    if n > 0 { DiagnosticsSoFar(events, n - 1, allow, i); }
  }

  /** On any stream, an event has an issue exactly under the condition of its problem. */
  lemma {:induction false} IssuesAreExact(events: seq<Event>, allow: bool, i: nat, problem: Problem)
    ensures At(i, problem) in Judge(events, allow).0 <==> i < |events| && Warranted(problem, events, i, allow)
  {
    IssuesSoFar(events, |events|, allow, i, problem);
    if i < |events| { ProblemIsExact(events, i, allow, problem); }
  }

  /** The issues of the stream as a whole: its last end is not a terminal event, or some item was left open. */
  lemma {:induction false} EndIssuesAreExact(events: seq<Event>, allow: bool)
    ensures MissingTerminal in Judge(events, allow).0 <==> !TerminalAt(events, |events|)
    ensures UnfinishedItem in Judge(events, allow).0 <==>
            exists id :: LeftOpen(events, |events|, id)
  {
    var s := Scan(events, |events|, allow);
    PhaseIsExact(events, |events|, allow);
    IssuesSoFar(events, |events|, allow, 0, StreamError);
    forall id ensures Remembers(s.items, events, |events|, id) { ItemsAreRemembered(events, |events|, allow, id); }
    forall id ensures (id in s.items && !s.items[id].last.ItemCompleted?) <==> LeftOpen(events, |events|, id) {
      RememberedOpen(s.items, events, |events|, id);
    }
  }

  ghost predicate LeftOpen(events: seq<Event>, n: nat, id: string)
    requires n <= |events|
  {
    exists j: nat :: LastAbout(events, n, id, j) && events[j].kind != ItemCompleted
  }

  lemma {:induction false} RememberedOpen(items: map<string, Seen>, events: seq<Event>, n: nat, id: string)
    requires n <= |events| && Remembers(items, events, n, id)
    ensures (id in items && !items[id].last.ItemCompleted?) <==> LeftOpen(events, n, id)
  {
    if id in items {
      var j: nat :| SeenAt(items[id], events, n, id, j);
      forall k: nat | LastAbout(events, n, id, k) ensures k == j {
      }
    }
  }

  /** The events reported as diagnostics: identified error completions before the turn, the first about their item. */
  lemma {:induction false} DiagnosticsAreExact(events: seq<Event>, allow: bool, i: nat)
    ensures i in Judge(events, allow).1 <==>
            && i < |events| && allow && WindowOpen(events, i) && ErrorCompletion(events[i]) && Identified(events[i])
            && !Conflicts(events, i)
  {
    DiagnosticsSoFar(events, |events|, allow, i);
    if i < |events| {
      WindowIsExact(events, i, allow);
      ProblemIsExact(events, i, allow, ConflictingItemLifecycle);
      ProblemIsExact(events, i, allow, InvalidItemIdentity);
    }
  }
}
