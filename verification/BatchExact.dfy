/** When exactly a retry is allowed, in terms of what is on disk, and that what is allowed can be carried through. */
module BatchExact {
  import opened Batch
  import opened BatchRun

  // ----- What the checks look at -----

  /** The last plan in the listing that retries the cell names this attempt; without such a plan it is the base. */
  ghost predicate LatestAttempt(plans: seq<RetryPlan>, cell: Cell, id: AttemptId) {
    || (id == 0 && forall k :: 0 <= k < |plans| ==> cell !in plans[k].entries)
    || exists k :: RetriedLast(plans, cell, k) && plans[k].entries[cell].attempt == id
  }

  ghost predicate RetriedLast(plans: seq<RetryPlan>, cell: Cell, k: int) {
    0 <= k < |plans| && cell in plans[k].entries && forall j :: k < j < |plans| ==> cell !in plans[j].entries
  }

  lemma {:induction false} LatestMeans(plans: seq<RetryPlan>, cell: Cell, id: AttemptId)
    ensures Latest(plans, cell) == id <==> LatestAttempt(plans, cell, id)
  {
    if plans != [] {
      var n := |plans| - 1;
      if cell in plans[n].entries {
        assert RetriedLast(plans, cell, n);
      } else {
        LatestMeans(plans[..n], cell, id);
        forall k ensures RetriedLast(plans[..n], cell, k) <==> RetriedLast(plans, cell, k) {
        }
      }
    }
  }

  /** No plan gives the cell this attempt, which is not the base either. */
  ghost predicate Unused(plans: seq<RetryPlan>, cell: Cell, id: AttemptId) {
    id != 0 && forall k :: 0 <= k < |plans| && cell in plans[k].entries ==> plans[k].entries[cell].attempt != id
  }

  ghost predicate SucceededAs(s: State, key: Key) {
    key in s.attempts && s.attempts[key] == Success
  }

  /** Neither the base attempt nor any planned retry of the cell succeeded. */
  ghost predicate NoneSucceeded(s: State, cell: Cell) {
    && !SucceededAs(s, Key(cell, 0))
    && forall k :: 0 <= k < |s.plans| && cell in s.plans[k].entries ==>
         !SucceededAs(s, Key(cell, s.plans[k].entries[cell].attempt))
  }

  /** The attempt was begun, is not successful, and no process of it is running or may be running unrecorded. */
  ghost predicate OverAndIdle(s: State, key: Key) {
    && key in s.attempts
    && (|| s.attempts[key] == Failed || s.attempts[key] == PolicyViolation || s.attempts[key] == SchemaInvalid
        || s.attempts[key] == Incomplete)
    && (key in s.markers && s.markers[key] == Started ==> key !in s.alive)
    && (key in s.markers && s.markers[key] == LaunchIntent ==> s.attempts[key] != Incomplete)
  }

  lemma {:induction false} UnusedMeans(plans: seq<RetryPlan>, cell: Cell, id: AttemptId)
    ensures Unused(plans, cell, id) <==> !IsSibling(plans, Key(cell, id))
  {
    if IsSibling(plans, Key(cell, id)) && id != 0 {
      var p :| p in plans && cell in p.entries && p.entries[cell].attempt == id;
      var k :| 0 <= k < |plans| && plans[k] == p;
    }
    assert forall k :: 0 <= k < |plans| ==> plans[k] in plans;
  }

  lemma {:induction false} NoneSucceededMeans(s: State, cell: Cell)
    ensures NoneSucceeded(s, cell) <==> !AlreadySucceeded(s, cell)
  {
    if NoneSucceeded(s, cell) {
      forall id | IsSibling(s.plans, Key(cell, id)) ensures Classify(s, Key(cell, id)) != Success {
        UnusedMeans(s.plans, cell, id);
      }
    } else if SucceededAs(s, Key(cell, 0)) {
      assert IsSibling(s.plans, Key(cell, 0));
    } else {
      var k :| 0 <= k < |s.plans| && cell in s.plans[k].entries
        && SucceededAs(s, Key(cell, s.plans[k].entries[cell].attempt));
      assert s.plans[k] in s.plans;
      assert IsSibling(s.plans, Key(cell, s.plans[k].entries[cell].attempt));
    }
  }

  lemma {:induction false} OverAndIdleMeans(s: State, key: Key)
    ensures OverAndIdle(s, key) <==> Classify(s, key) in ELIGIBLE && NotActive(s, key)
  {
  }

  // ----- Exactly when -----

  /** A retry may be planned exactly when its parent is the latest attempt of the cell, that attempt is over and
      idle, no attempt of the cell succeeded, and the new id is unused. */
  lemma {:induction false} RetryIsAllowedIff(s: State, cell: Cell, link: Link)
    ensures MayRetry(s, cell, link) <==>
            && LatestAttempt(s.plans, cell, link.parent) && OverAndIdle(s, Key(cell, link.parent))
            && NoneSucceeded(s, cell) && Unused(s.plans, cell, link.attempt)
  {
    LatestMeans(s.plans, cell, link.parent);
    OverAndIdleMeans(s, Key(cell, link.parent));
    NoneSucceededMeans(s, cell);
    UnusedMeans(s.plans, cell, link.attempt);
  }

  /** A retry run may start exactly when nobody holds the lock, no plan directory is half-written, and every entry of
      the plan that was not begun yet still has an idle parent and no successful sibling. */
  lemma {:induction false} RetryRunIsAllowedIff(s: State, index: nat)
    requires forall key :: key in s.attempts ==> s.attempts[key] != Planned
    ensures Enabled(s, RunRetry(index)) <==>
            && s.lock == Free && index < |s.plans| && (forall k :: 0 <= k < |s.plans| ==> s.plans[k].complete)
            && forall cell | cell in s.plans[index].entries ::
                 Key(cell, s.plans[index].entries[cell].attempt) in s.attempts
                 || (OverAndIdle(s, Key(cell, s.plans[index].entries[cell].parent)) && NoneSucceeded(s, cell))
  {
    assert (forall k :: 0 <= k < |s.plans| ==> s.plans[k].complete) <==> PlansReadable(s.plans) by {
      assert forall k :: 0 <= k < |s.plans| ==> s.plans[k] in s.plans;
    }
    if index < |s.plans| {
      forall cell | cell in s.plans[index].entries
        ensures MayRun(s, cell, s.plans[index].entries[cell]) <==>
                OverAndIdle(s, Key(cell, s.plans[index].entries[cell].parent)) && NoneSucceeded(s, cell)
      {
        OverAndIdleMeans(s, Key(cell, s.plans[index].entries[cell].parent));
        NoneSucceededMeans(s, cell);
      }
    }
  }

  // ----- What is allowed can be carried through -----

  lemma {:induction false} FreshName(plans: seq<RetryPlan>) returns (name: PlanName)
    ensures forall p :: p in plans ==> p.name < name
  {
    name := 0;
    if plans != [] {
      var n := |plans| - 1;
      var below := FreshName(plans[..n]);
      name := if below <= plans[n].name then plans[n].name + 1 else below;
      forall p | p in plans ensures p.name < name {
        var k :| 0 <= k < |plans| && plans[k] == p;
        if k < n { assert plans[..n][k] == p; }
      }
    }
  }

  lemma {:induction false} LastPosition(plans: seq<RetryPlan>, name: PlanName)
    requires forall p :: p in plans ==> p.name < name
    ensures Position(plans, name) == |plans|
  {
    if plans != [] {
      assert plans[0] in plans;
      assert forall p :: p in plans[1..] ==> p in plans;
      LastPosition(plans[1..], name);
    }
  }

  lemma {:induction false} ListedLast(plans: seq<RetryPlan>, name: PlanName, entries: map<Cell, Link>)
    requires forall p :: p in plans ==> p.name < name
    ensures Sealed(Listed(plans, RetryPlan(name, entries, false)), name) == plans + [RetryPlan(name, entries, true)]
  {
    var plan := RetryPlan(name, entries, false);
    LastPosition(plans, name);
    assert Listed(plans, plan) == plans + [plan];
    var t := Sealed(plans + [plan], name);
    forall i | 0 <= i < |plans| ensures t[i] == plans[i] { assert plans[i] in plans; }
  }

  /** The state after a plan with one entry was created. */
  function WithPlan(s: State, name: PlanName, cell: Cell, link: Link): State {
    s.(plans := s.plans + [RetryPlan(name, map[cell := link], true)], lock := Free)
  }

  lemma {:induction false} PlanCanBeCreated(s: State, cell: Cell, link: Link) returns (steps: seq<Step>, name: PlanName)
    requires s.lock == Free && PlansReadable(s.plans) && MayRetry(s, cell, link)
    ensures Performs(s, steps, WithPlan(s, name, cell, link))
  {
    name := FreshName(s.plans);
    var entries := map[cell := link];
    assert cell in entries;
    assert MayCreate(s, name, entries);
    PerformsMore(s, [], s, CreatePlan(name, entries));
    assert [] + [CreatePlan(name, entries)] == [CreatePlan(name, entries)];
    PerformsMore(s, [CreatePlan(name, entries)], Created(s, name, entries), CompletePlan);
    ListedLast(s.plans, name, entries);
    steps := [CreatePlan(name, entries)] + [CompletePlan];
  }

  lemma {:induction false} NewPlanMayRun(s: State, name: PlanName, cell: Cell, link: Link)
    requires s.lock == Free && PlansReadable(s.plans) && MayRetry(s, cell, link)
    requires Classify(s, Key(cell, link.attempt)) == Planned
    ensures Enabled(WithPlan(s, name, cell, link), RunRetry(|s.plans|))
    ensures Apply(WithPlan(s, name, cell, link), RunRetry(|s.plans|)) ==
      WithPlan(s, name, cell, link).(lock := Running({Key(cell, link.attempt)}, {}))
  {
    var t := WithPlan(s, name, cell, link);
    var plan := t.plans[|s.plans|];
    forall id | IsSibling(t.plans, Key(cell, id)) ensures Classify(t, Key(cell, id)) != Success {
      if id != link.attempt {
        UnusedMeans(s.plans, cell, id);
        if Unused(s.plans, cell, id) { StillUnused(s, t.plans, cell, link, id, plan); }
      }
    }
    assert MayRun(t, cell, link);
    assert EntryKeys(plan) == {Key(cell, link.attempt)};
    assert Unstarted(t, EntryKeys(plan)) == {Key(cell, link.attempt)};
  }

  lemma {:induction false} StillUnused(s: State, plans: seq<RetryPlan>, cell: Cell, link: Link, id: AttemptId,
                                       plan: RetryPlan)
    requires Unused(s.plans, cell, id) && plans == s.plans + [plan] && plan.entries == map[cell := link]
    requires id != link.attempt
    ensures !IsSibling(plans, Key(cell, id))
  {
    UnusedMeans(plans, cell, id);
  }

  /** One scheduled attempt, from the taking of the lock to its release. */
  lemma {:induction false} AttemptCanRun(before: State, steps: seq<Step>, s: State, key: Key, result: Status)
    returns (more: seq<Step>, t: State)
    requires Performs(before, steps, s) && s.lock == Running({key}, {}) && Untouched(s, key) && result in TERMINAL
    ensures Performs(before, more, t) && t.lock == Free && t.plans == s.plans
    ensures t.attempts == s.attempts[key := result] && t.alive == s.alive
  {
    BeginPerforms(before, steps, s, {key}, key);
    assert {key} - {key} == {};
    var s1 := s.(attempts := s.attempts[key := Incomplete], lock := Running({}, {key}));
    more := steps + [Begin(key)];
    IntentPerforms(before, more, s1, {}, key);
    var s2 := s1.(markers := s1.markers[key := LaunchIntent]);
    more := more + [RecordIntent(key)];
    LaunchPerforms(before, more, s2, {}, key);
    var s3 := s2.(launched := s2.launched + {key}, alive := s2.alive + {key});
    more := more + [Launch(key)];
    more, t := AttemptCanEnd(before, more, s3, key, result);
    assert s.attempts[key := Incomplete][key := result] == s.attempts[key := result];
  }

  lemma {:induction false} AttemptCanEnd(before: State, steps: seq<Step>, s: State, key: Key, result: Status)
    returns (more: seq<Step>, t: State)
    requires Performs(before, steps, s) && s.lock == Running({}, {key}) && key in s.launched && key in s.alive
    requires result in TERMINAL
    ensures Performs(before, more, t) && t.lock == Free && t.plans == s.plans
    ensures t.attempts == s.attempts[key := result] && t.alive == s.alive - {key}
  {
    StartedPerforms(before, steps, s, {}, key);
    var s1 := s.(markers := s.markers[key := Started]);
    more := steps + [RecordStarted(key)];
    ExitPerforms(before, more, s1, key);
    var s2 := s1.(alive := s1.alive - {key});
    more := more + [ChildExits(key)];
    SealPerforms(before, more, s2, {}, key, result);
    var s3 := s2.(attempts := s2.attempts[key := result], lock := Running({}, {}));
    more := more + [Seal(key, result)];
    ClosingPerforms(before, more, s3, false);
    more := more + Closing(false);
    t := s3.(lock := Free);
  }

  /** Every retry that is allowed can be planned, run, and sealed with any terminal result, success among them. */
  lemma {:induction false} AllowedRetryCanRun(s: State, cell: Cell, link: Link, result: Status)
    returns (steps: seq<Step>, t: State)
    requires Inv(s) && s.lock == Free && (forall p :: p in s.plans ==> p.complete) && result in TERMINAL
    requires LatestAttempt(s.plans, cell, link.parent) && OverAndIdle(s, Key(cell, link.parent))
    requires NoneSucceeded(s, cell) && Unused(s.plans, cell, link.attempt)
    ensures Performs(s, steps, t) && t.lock == Free
    ensures t.attempts == s.attempts[Key(cell, link.attempt) := result]
    ensures exists name :: t.plans == s.plans + [RetryPlan(name, map[cell := link], true)]
  {
    var key := Key(cell, link.attempt);
    RetryIsAllowedIff(s, cell, link);
    UnusedMeans(s.plans, cell, link.attempt);
    PlannedIsUntouched(s, key);
    var name;
    steps, name := PlanCanBeCreated(s, cell, link);
    var planned := WithPlan(s, name, cell, link);
    NewPlanMayRun(s, name, cell, link);
    PerformsMore(s, steps, planned, RunRetry(|s.plans|));
    steps := steps + [RunRetry(|s.plans|)];
    var running := planned.(lock := Running({key}, {}));
    steps, t := AttemptCanRun(s, steps, running, key, result);
  }

  /** Every planned cell can be run to any terminal result. */
  lemma {:induction false} BaseCanRun(s: State, cell: Cell, result: Status) returns (steps: seq<Step>, t: State)
    requires Inv(s) && s.lock == Free && Key(cell, 0) !in s.attempts && result in TERMINAL
    ensures Performs(s, steps, t) && t.lock == Free && t.plans == s.plans
    ensures t.attempts == s.attempts[Key(cell, 0) := result]
  {
    var key := Key(cell, 0);
    PlannedIsUntouched(s, key);
    PerformsMore(s, [], s, RunBase({cell}));
    assert [] + [RunBase({cell})] == [RunBase({cell})];
    assert BaseKeys({cell}) == {key};
    assert Unstarted(s, {key}) == {key};
    steps, t := AttemptCanRun(s, [RunBase({cell})], s.(lock := Running({key}, {})), key, result);
  }

  // ----- Workers -----

  /** At most two attempts are being run, of different profiles. */
  ghost predicate WorkersApart(s: State) {
    s.lock.Running? ==>
      && |s.lock.active| <= 2
      && forall key, other ::
        key in s.lock.active && other in s.lock.active && key.cell.profile == other.cell.profile ==>
           key == other
  }

  lemma {:induction false} StepKeepsWorkersApart(s: State, step: Step)
    requires WorkersApart(s) && Enabled(s, step)
    ensures WorkersApart(Apply(s, step))
  {
  }

  lemma {:induction false} WorkersStayApart(s: State, steps: seq<Step>)
    requires WorkersApart(s) && ValidRun(s, steps)
    ensures WorkersApart(Run(s, steps))
    decreases |steps|
  {
    if steps != [] {
      StepKeepsWorkersApart(s, steps[0]);
      WorkersStayApart(Apply(s, steps[0]), steps[1..]);
    }
  }

  /** Two waiting attempts of different profiles can be run at the same time. */
  lemma {:induction false} TwoProfilesRunTogether(s: State, key: Key, other: Key)
    requires s.lock.Running? && s.lock.active == {} && key in s.lock.todo && other in s.lock.todo
    requires key !in s.attempts && other !in s.attempts && key.cell.profile != other.cell.profile
    ensures ValidRun(s, [Begin(key), Begin(other)])
    ensures Run(s, [Begin(key), Begin(other)]).lock == Running(s.lock.todo - {key} - {other}, {key, other})
  {
    var steps := [Begin(key), Begin(other)];
    var s1 := Begun(s, key);
    assert s1.lock.active == {key} && s1 == Apply(s, Begin(key));
    assert Begun(s1, other).lock.active == {key, other};
    assert steps[1..] == [Begin(other)];
    assert [Begin(other)][1..] == [];
    assert Run(s1, [Begin(other)]) == Begun(s1, other);
  }
}
