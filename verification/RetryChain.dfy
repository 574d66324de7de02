/** How the naming of retry plans decides whether a cell's attempts form one chain, and with it whether
    at most one child process per cell can be running. */
module RetryChain {
  import opened Batch

  /** In listing order, every retry has the attempt listed before it as its parent. */
  ghost predicate Chain(plans: seq<RetryPlan>, cell: Cell) {
    forall i :: 0 <= i < |plans| && cell in plans[i].entries ==>
      plans[i].entries[cell].parent == Latest(plans[..i], cell)
  }

  /** What whoever names a plan can check beforehand: it is listed after every plan retrying the same cell. */
  ghost predicate NamedLast(plans: seq<RetryPlan>, name: PlanName, cell: Cell) {
    forall p :: p in plans && cell in p.entries ==> p.name < name
  }

  lemma {:induction false} LatestSkips(plans: seq<RetryPlan>, k: nat, cell: Cell)
    requires k <= |plans| && forall i :: k <= i < |plans| ==> cell !in plans[i].entries
    ensures Latest(plans, cell) == Latest(plans[..k], cell)
    decreases |plans|
  {
    if k == |plans| {
      assert plans[..k] == plans;
    } else {
      var front := plans[..|plans| - 1];
      LatestSkips(front, k, cell);
      assert front[..k] == plans[..k];
    }
  }

  /** The latest attempt is the base or belongs to the last plan that retries the cell. */
  lemma {:induction false} LatestBelongs(plans: seq<RetryPlan>, cell: Cell) returns (i: nat)
    requires exists p :: p in plans && cell in p.entries
    ensures i < |plans| && cell in plans[i].entries && Latest(plans, cell) == plans[i].entries[cell].attempt
    ensures forall j :: i < j < |plans| ==> cell !in plans[j].entries
    decreases |plans|
  {
    var last := |plans| - 1;
    if cell in plans[last].entries {
      i := last;
    } else {
      var p :| p in plans && cell in p.entries;
      assert p in plans[..last];
      i := LatestBelongs(plans[..last], cell);
    }
  }

  lemma {:induction false} Shape(plans: seq<RetryPlan>, plan: RetryPlan)
    ensures var k := Position(plans, plan.name);
      && |Listed(plans, plan)| == |plans| + 1 && Listed(plans, plan)[k] == plan
      && (forall i :: 0 <= i < k ==> Listed(plans, plan)[i] == plans[i])
      && (forall i :: k < i <= |plans| ==> Listed(plans, plan)[i] == plans[i - 1])
      && (forall i :: 0 <= i <= k ==> Listed(plans, plan)[..i] == plans[..i])
  {
  }

  /** Named last: the new entry extends the chain and becomes the latest attempt. */
  lemma {:induction false} NamedLastExtends(plans: seq<RetryPlan>, plan: RetryPlan, cell: Cell)
    requires Distinct(plans) && (forall p :: p in plans ==> p.name != plan.name) && Chain(plans, cell)
    requires cell in plan.entries && plan.entries[cell].parent == Latest(plans, cell)
    requires NamedLast(plans, plan.name, cell)
    ensures Chain(Listed(plans, plan), cell) && Latest(Listed(plans, plan), cell) == plan.entries[cell].attempt
  {
    var k, t := Position(plans, plan.name), Listed(plans, plan);
    PositionSplits(plans, plan.name);
    Shape(plans, plan);
    forall i | k <= i < |plans| ensures cell !in plans[i].entries { assert plans[i] in plans; }
    LatestSkips(plans, k, cell);
    forall i | 0 <= i < |t| && cell in t[i].entries ensures t[i].entries[cell].parent == Latest(t[..i], cell) {
      assert i <= k;
    }
    LatestSkips(t, k + 1, cell);
    assert t[..k + 1][..k] == t[..k];
  }

  function Before(k: nat, j: nat): (i: nat) {
    if j <= k then j else j - 1
  }

  lemma {:induction false} LatestInsert(plans: seq<RetryPlan>, plan: RetryPlan, j: nat, cell: Cell)
    requires cell !in plan.entries && j <= |plans| + 1
    ensures Latest(Listed(plans, plan)[..j], cell) == Latest(plans[..Before(Position(plans, plan.name), j)], cell)
    decreases j
  {
    var k, t := Position(plans, plan.name), Listed(plans, plan);
    Shape(plans, plan);
    if j > k {
      assert t[..j][..j - 1] == t[..j - 1];
      LatestInsert(plans, plan, j - 1, cell);
      if j > k + 1 {
        assert plans[..j - 1][..j - 2] == plans[..j - 2];
      }
    }
  }

  /** A cell the new plan does not retry is left alone. */
  lemma {:induction false} OtherCellsKeepChain(plans: seq<RetryPlan>, plan: RetryPlan, cell: Cell)
    requires cell !in plan.entries
    ensures Latest(Listed(plans, plan), cell) == Latest(plans, cell)
    ensures Chain(plans, cell) ==> Chain(Listed(plans, plan), cell)
  {
    var k, t := Position(plans, plan.name), Listed(plans, plan);
    Shape(plans, plan);
    LatestInsert(plans, plan, |t|, cell);
    assert t[..|t|] == t && plans[..|plans|] == plans;
    if Chain(plans, cell) {
      forall i | 0 <= i < |t| && cell in t[i].entries ensures t[i].entries[cell].parent == Latest(t[..i], cell) {
        LatestInsert(plans, plan, i, cell);
        assert plans[Before(k, i)] == t[i];
      }
    }
  }

  /** Two different plans never give a cell the same latest attempt. */
  lemma {:induction false} EarlierLatestDiffers(plans: seq<RetryPlan>, k: nat, i: nat, cell: Cell)
    requires Distinct(plans) && k <= i < |plans| && cell in plans[i].entries
    ensures Latest(plans[..k], cell) != plans[i].entries[cell].attempt
  {
    assert plans[i] in plans;
    if exists q :: q in plans[..k] && cell in q.entries {
      var j := LatestBelongs(plans[..k], cell);
      assert plans[..k][j] == plans[j] && plans[j] in plans && plans[j].name < plans[i].name;
    } else {
      LatestIsSibling(plans[..k], cell);
    }
  }

  /** Named anywhere else, the new entry is listed before its own parent, and the chain is broken. */
  lemma {:induction false} NamedEarlierBreaks(plans: seq<RetryPlan>, plan: RetryPlan, cell: Cell)
    requires Distinct(plans) && (forall p :: p in plans ==> p.name != plan.name)
    requires cell in plan.entries && plan.entries[cell].parent == Latest(plans, cell)
    requires !NamedLast(plans, plan.name, cell)
    ensures !Chain(Listed(plans, plan), cell)
  {
    var k, t := Position(plans, plan.name), Listed(plans, plan);
    PositionSplits(plans, plan.name);
    Shape(plans, plan);
    var p :| p in plans && cell in p.entries && !(p.name < plan.name);
    var at :| 0 <= at < |plans| && plans[at] == p;
    var i := LatestBelongs(plans, cell);
    assert k <= at <= i;
    EarlierLatestDiffers(plans, k, i, cell);
    assert t[k].entries[cell].parent != Latest(t[..k], cell);
  }

  /** Creating a retry plan keeps a cell's attempts one chain exactly when its name is listed last for the cell. */
  lemma {:induction false} ChainKeptIffNamedLast(s: State, name: PlanName, entries: map<Cell, Link>, cell: Cell)
    requires Inv(s) && MayCreate(s, name, entries) && Chain(s.plans, cell) && cell in entries
    ensures Chain(Created(s, name, entries).plans, cell) <==> NamedLast(s.plans, name, cell)
  {
    var plan := RetryPlan(name, entries, false);
    assert MayRetry(s, cell, entries[cell]);
    if NamedLast(s.plans, name, cell) {
      NamedLastExtends(s.plans, plan, cell);
    } else {
      NamedEarlierBreaks(s.plans, plan, cell);
    }
  }

  // ----- Runs whose plans are named in order -----

  ghost predicate InOrder(s: State, step: Step) {
    step.CreatePlan? ==> forall cell :: cell in step.entries ==> NamedLast(s.plans, step.name, cell)
  }

  ghost predicate OrderedRun(s: State, steps: seq<Step>)
    decreases |steps|
  {
    steps == [] || (Enabled(s, steps[0]) && InOrder(s, steps[0]) && OrderedRun(Apply(s, steps[0]), steps[1..]))
  }

  lemma {:induction false} OrderedIsValid(s: State, steps: seq<Step>)
    requires OrderedRun(s, steps)
    ensures ValidRun(s, steps)
    decreases |steps|
  {
    if steps != [] { OrderedIsValid(Apply(s, steps[0]), steps[1..]); }
  }

  /** Every attempt but the latest of its cell is over and has no child process. */
  ghost predicate Settled(s: State) {
    forall key :: IsSibling(s.plans, key) && key.id != Latest(s.plans, key.cell) ==> Over(s, key) && key !in s.alive
  }

  ghost predicate Linear(s: State) {
    Settled(s) && forall cell :: Chain(s.plans, cell)
  }

  /** An eligible parent that passes the process check has no child, recorded or not. */
  lemma {:induction false} EligibleParentIsDead(s: State, key: Key)
    requires ProcessesOk(s) && s.lock == Free && Classify(s, key) in ELIGIBLE && NotActive(s, key)
    ensures Over(s, key) && key !in s.alive
  {
  }

  lemma {:induction false} CreateSettles(s: State, name: PlanName, entries: map<Cell, Link>)
    requires Inv(s) && Linear(s) && s.lock == Free && MayCreate(s, name, entries)
    requires forall cell :: cell in entries ==> NamedLast(s.plans, name, cell)
    ensures Linear(Created(s, name, entries))
  {
    var plan := RetryPlan(name, entries, false);
    var t := Created(s, name, entries);
    ListedMembers(s.plans, plan);
    forall cell
      ensures Chain(t.plans, cell) && Latest(t.plans, cell) == if cell in entries then entries[cell].attempt
        else Latest(s.plans, cell) {
      if cell in entries {
        assert MayRetry(s, cell, entries[cell]);
        NamedLastExtends(s.plans, plan, cell);
      } else {
        OtherCellsKeepChain(s.plans, plan, cell);
      }
    }
    forall key | IsSibling(t.plans, key) && key.id != Latest(t.plans, key.cell)
      ensures Over(t, key) && key !in t.alive {
      CreateSettlesKey(s, name, entries, key);
    }
  }

  lemma {:induction false} CreateSettlesKey(s: State, name: PlanName, entries: map<Cell, Link>, key: Key)
    requires Inv(s) && Settled(s) && s.lock == Free && MayCreate(s, name, entries)
    requires IsSibling(Listed(s.plans, RetryPlan(name, entries, false)), key)
    requires key.id != if key.cell in entries then entries[key.cell].attempt else Latest(s.plans, key.cell)
    ensures Over(s, key) && key !in s.alive
  {
    var plan := RetryPlan(name, entries, false);
    ListedMembers(s.plans, plan);
    assert IsSibling(s.plans, key);
    if key.id == Latest(s.plans, key.cell) {
      assert MayRetry(s, key.cell, entries[key.cell]);
      EligibleParentIsDead(s, key);
    }
  }

  lemma {:induction false} SealedLatest(plans: seq<RetryPlan>, name: PlanName, cell: Cell)
    ensures Latest(Sealed(plans, name), cell) == Latest(plans, cell)
  {
    if plans != [] {
      var n := |plans| - 1;
      assert Sealed(plans, name)[..n] == Sealed(plans[..n], name);
      SealedLatest(plans[..n], name, cell);
    }
  }

  lemma {:induction false} CompleteSettles(s: State)
    requires Linear(s) && s.lock.Creating?
    ensures Linear(Released(s.(plans := Sealed(s.plans, s.lock.name))))
  {
    var name := s.lock.name;
    var t := Released(s.(plans := Sealed(s.plans, name)));
    forall cell ensures Chain(t.plans, cell) {
      forall i | 0 <= i < |t.plans| && cell in t.plans[i].entries
        ensures t.plans[i].entries[cell].parent == Latest(t.plans[..i], cell) {
        assert t.plans[..i] == Sealed(s.plans[..i], name);
        SealedLatest(s.plans[..i], name, cell);
        assert Chain(s.plans, cell);
      }
    }
    forall key | IsSibling(t.plans, key) && key.id != Latest(t.plans, key.cell)
      ensures Over(t, key) && key !in t.alive {
      SealedSiblings(s.plans, name, key);
      SealedLatest(s.plans, name, key.cell);
      assert Over(s, key);
    }
  }

  /** Where no plan changes, an attempt that is over and dead stays so. */
  lemma {:induction false} OverStaysDead(s: State, step: Step, key: Key)
    requires Enabled(s, step) && Over(s, key) && key !in s.alive && !step.CreatePlan? && !step.CompletePlan?
    ensures Over(Apply(s, step), key) && key !in Apply(s, step).alive
  {
  }

  lemma {:induction false} StepKeepsLinear(s: State, step: Step)
    requires Inv(s) && Linear(s) && Enabled(s, step) && InOrder(s, step)
    ensures Linear(Apply(s, step))
  {
    match step
    case CreatePlan(name, entries) => CreateSettles(s, name, entries);
    case CompletePlan => CompleteSettles(s);
    case _ => {
      var t := Apply(s, step);
      assert t.plans == s.plans;
      forall key | IsSibling(s.plans, key) && key.id != Latest(s.plans, key.cell)
        ensures Over(t, key) && key !in t.alive {
        OverStaysDead(s, step, key);
      }
      assert forall cell :: Chain(s.plans, cell) ==> Chain(t.plans, cell);
    }
  }

  lemma {:induction false} RunKeepsLinear(s: State, steps: seq<Step>)
    requires Inv(s) && Linear(s) && OrderedRun(s, steps)
    ensures ValidRun(s, steps) && Inv(Run(s, steps)) && Linear(Run(s, steps))
    decreases |steps|
  {
    OrderedIsValid(s, steps);
    if steps != [] {
      StepKeepsInv(s, steps[0]);
      StepKeepsLinear(s, steps[0]);
      RunKeepsLinear(Apply(s, steps[0]), steps[1..]);
    }
  }

  /** With plans named in order, over any run: a cell's attempts are one parent chain, all but the last are
      over, and at most one child per cell is running, also after crashes that left the launch unrecorded. */
  lemma {:induction false} OneChildPerCell(steps: seq<Step>, key: Key, other: Key)
    requires OrderedRun(INIT, steps)
    ensures ValidRun(INIT, steps)
    ensures var s := Run(INIT, steps);
      && Chain(s.plans, key.cell)
      && (IsSibling(s.plans, key) && key.id != Latest(s.plans, key.cell) ==> Classify(s, key) in ELIGIBLE)
      && (key in s.alive && other in s.alive && key.cell == other.cell ==> key == other)
  {
    RunKeepsLinear(INIT, steps);
    LinearMeansOneChild(Run(INIT, steps), key, other);
  }

  lemma {:induction false} LinearMeansOneChild(s: State, key: Key, other: Key)
    requires Inv(s) && Linear(s)
    ensures Chain(s.plans, key.cell)
    ensures IsSibling(s.plans, key) && key.id != Latest(s.plans, key.cell) ==> Classify(s, key) in ELIGIBLE
    ensures key in s.alive && other in s.alive && key.cell == other.cell ==> key == other
  {
    if IsSibling(s.plans, key) && key.id != Latest(s.plans, key.cell) { assert Over(s, key); }
    if key in s.alive { assert key in s.attempts && IsSibling(s.plans, key); }
    if other in s.alive { assert other in s.attempts && IsSibling(s.plans, other); }
  }

  // ----- Out of order: two children of one cell at once -----

  ghost predicate Reached(steps: seq<Step>, s: State) {
    ValidRun(INIT, steps) && Run(INIT, steps) == s
  }

  lemma {:induction false} RunSnoc(s: State, steps: seq<Step>, last: Step)
    requires ValidRun(s, steps) && Enabled(Run(s, steps), last)
    ensures ValidRun(s, steps + [last]) && Run(s, steps + [last]) == Apply(Run(s, steps), last)
    decreases |steps|
  {
    if steps == [] {
      assert [last][1..] == [];
    } else {
      assert (steps + [last])[1..] == steps[1..] + [last];
      RunSnoc(Apply(s, steps[0]), steps[1..], last);
    }
  }

  lemma {:induction false} Extend(steps: seq<Step>, s: State, step: Step, t: State) returns (more: seq<Step>)
    requires Reached(steps, s) && Enabled(s, step) && Apply(s, step) == t
    ensures more == steps + [step] && Reached(more, t)
  {
    RunSnoc(INIT, steps, step);
    more := steps + [step];
  }

  const HERE := Cell(0, 0)

  function Attempt(id: AttemptId): (key: Key) { Key(HERE, id) }

  function Retry(name: PlanName, parent: AttemptId, attempt: AttemptId): (plan: RetryPlan) {
    RetryPlan(name, map[HERE := Link(parent, attempt)], true)
  }

  /** Run the only unstarted attempt among `keys` and seal it as failed. */
  lemma {:induction false} RunAndFail(steps: seq<Step>, s: State, start: Step, keys: set<Key>, key: Key)
    returns (more: seq<Step>)
    requires Reached(steps, s) && s.lock == Free && Enabled(s, start) && Apply(s, start) == Scheduled(s, keys)
    requires Unstarted(s, keys) == {key} && key !in s.attempts && key !in s.alive
    ensures Reached(more, s.(attempts := s.attempts[key := Failed]))
  {
    var s1 := s.(lock := Running({key}, {}));
    more := Extend(steps, s, start, s1);
    var s2 := s.(lock := Running({}, {key}), attempts := s.attempts[key := Incomplete]);
    assert {key} - {key} == {};
    more := Extend(more, s1, Begin(key), s2);
    var s3 := s.(lock := Running({}, {}), attempts := s.attempts[key := Failed]);
    assert s2.attempts[key := Failed] == s3.attempts;
    more := Extend(more, s2, Seal(key, Failed), s3);
    more := Extend(more, s3, Finish, s.(attempts := s.attempts[key := Failed]));
  }

  /** Run the only unstarted attempt among `keys` up to its launch, before the marker names the child. */
  lemma {:induction false} RunToLaunch(steps: seq<Step>, s: State, start: Step, keys: set<Key>, key: Key)
    returns (more: seq<Step>, t: State)
    requires Reached(steps, s) && s.lock == Free && Enabled(s, start) && Apply(s, start) == Scheduled(s, keys)
    requires Unstarted(s, keys) == {key} && key !in s.attempts && key !in s.markers && key !in s.launched
    ensures Reached(more, t)
    ensures t == State(s.plans, s.attempts[key := Incomplete], s.markers[key := LaunchIntent], s.launched + {key},
                       s.alive + {key}, Running({}, {key}))
  {
    var s1 := s.(lock := Running({key}, {}));
    more := Extend(steps, s, start, s1);
    var s2 := s.(lock := Running({}, {key}), attempts := s.attempts[key := Incomplete]);
    assert {key} - {key} == {};
    more := Extend(more, s1, Begin(key), s2);
    var s3 := s2.(markers := s.markers[key := LaunchIntent]);
    more := Extend(more, s2, RecordIntent(key), s3);
    t := s3.(launched := s.launched + {key}, alive := s.alive + {key});
    more := Extend(more, s3, Launch(key), t);
  }

  lemma {:induction false} FreezeAllowed(s: State, plan: RetryPlan)
    requires s.markers == map[] && PlansReadable(s.plans)
    requires plan.entries.Keys == {HERE} && forall p :: p in s.plans ==> p.name != plan.name
    requires forall key :: key in s.attempts ==> s.attempts[key] == Failed
    requires plan.entries[HERE].parent == Latest(s.plans, HERE) && Attempt(plan.entries[HERE].parent) in s.attempts
    requires !IsSibling(s.plans, Attempt(plan.entries[HERE].attempt))
    ensures MayCreate(s, plan.name, plan.entries)
  {
    assert HERE in plan.entries;
    NoneSucceeded(s);
    assert MayRetry(s, HERE, plan.entries[HERE]);
  }

  /** Freeze a retry of `HERE`: enabled because its parent failed and no attempt succeeded. */
  lemma {:induction false} Freeze(steps: seq<Step>, s: State, plan: RetryPlan, plans: seq<RetryPlan>)
    returns (more: seq<Step>)
    requires Reached(steps, s) && s.lock == Free && s.markers == map[] && PlansReadable(s.plans)
    requires plan.entries.Keys == {HERE} && plan.complete && forall p :: p in s.plans ==> p.name != plan.name
    requires forall key :: key in s.attempts ==> s.attempts[key] == Failed
    requires plan.entries[HERE].parent == Latest(s.plans, HERE) && Attempt(plan.entries[HERE].parent) in s.attempts
    requires !IsSibling(s.plans, Attempt(plan.entries[HERE].attempt))
    requires plans == Listed(s.plans, plan)
    ensures Reached(more, s.(plans := plans))
  {
    var draft := plan.(complete := false);
    FreezeAllowed(s, plan);
    var s1 := s.(plans := Listed(s.plans, draft), lock := Creating(plan.name));
    more := Extend(steps, s, CreatePlan(plan.name, plan.entries), s1);
    Shape(s.plans, draft);
    Shape(s.plans, plan);
    assert forall p :: p in s.plans ==> Manifested(p, plan.name) == p;
    assert Sealed(s1.plans, plan.name) == plans;
    more := Extend(more, s1, CompletePlan, s.(plans := plans));
  }

  /** Base and first retry have run and failed; the retry's plan is named 5. */
  const RETRIED := State([Retry(5, BASE, 1)], map[Attempt(BASE) := Failed, Attempt(1) := Failed], map[], {}, {}, Free)

  lemma {:induction false} RetriedIsReachable() returns (steps: seq<Step>)
    ensures Reached(steps, RETRIED)
  {
    var p5 := Retry(5, BASE, 1);
    assert BaseKeys({HERE}) == {Attempt(BASE)};
    assert Unstarted(INIT, BaseKeys({HERE})) == {Attempt(BASE)};
    steps := RunAndFail([], INIT, RunBase({HERE}), BaseKeys({HERE}), Attempt(BASE));
    var s := State([], map[Attempt(BASE) := Failed], map[], {}, {}, Free);
    assert INIT.(attempts := INIT.attempts[Attempt(BASE) := Failed]) == s;
    steps := Freeze(steps, s, p5, [p5]);
    var t := s.(plans := [p5]);
    SoleEntry(5, BASE, 1);
    assert Unstarted(t, EntryKeys(p5)) == {Attempt(1)};
    assert MayRun(t, HERE, p5.entries[HERE]);
    steps := RunAndFail(steps, t, RunRetry(0), EntryKeys(p5), Attempt(1));
    assert t.(attempts := t.attempts[Attempt(1) := Failed]) == RETRIED;
  }

  const FROZEN := RETRIED.(plans := [Retry(3, 1, 2), Retry(4, 1, 3), Retry(5, BASE, 1)])

  lemma {:induction false} FrozenIsReachable() returns (steps: seq<Step>)
    ensures Reached(steps, FROZEN)
  {
    var p3, p4, p5 := Retry(3, 1, 2), Retry(4, 1, 3), Retry(5, BASE, 1);
    steps := RetriedIsReachable();
    steps := Freeze(steps, RETRIED, p3, [p3, p5]);
    var s := RETRIED.(plans := [p3, p5]);
    assert s.plans[1..] == [p5];
    assert Position([p5], 4) == 0 && Position(s.plans, 4) == 1;
    assert Listed(s.plans, p4) == [p3, p4, p5];
    steps := Freeze(steps, s, p4, [p3, p4, p5]);
  }

  /** The parent that launched the first child is gone; its marker never named the child. */
  const ORPHANED := State(
    FROZEN.plans, FROZEN.attempts[Attempt(2) := Incomplete], map[Attempt(2) := LaunchIntent], {Attempt(2)},
      {Attempt(2)}, Free)

  lemma {:induction false} SoleEntry(name: PlanName, parent: AttemptId, attempt: AttemptId)
    ensures EntryKeys(Retry(name, parent, attempt)) == {Attempt(attempt)}
  {
    var plan := Retry(name, parent, attempt);
    assert HERE in plan.entries;
    assert Key(HERE, plan.entries[HERE].attempt) in EntryKeys(plan);
  }

  lemma {:induction false} NoneSucceeded(s: State)
    requires forall key :: key in s.attempts ==> s.attempts[key] != Success
    ensures !AlreadySucceeded(s, HERE)
  {
  }

  lemma {:induction false} OrphanIsReachable() returns (steps: seq<Step>)
    ensures Reached(steps, ORPHANED)
  {
    var p3 := Retry(3, 1, 2);
    steps := FrozenIsReachable();
    SoleEntry(3, 1, 2);
    assert Unstarted(FROZEN, EntryKeys(p3)) == {Attempt(2)};
    NoneSucceeded(FROZEN);
    assert MayRun(FROZEN, HERE, p3.entries[HERE]);
    var s;
    steps, s := RunToLaunch(steps, FROZEN, RunRetry(0), EntryKeys(p3), Attempt(2));
    assert s.(lock := Free) == ORPHANED;
    steps := Extend(steps, s, Crash, ORPHANED);
  }

  /** A plan named before an existing plan of its cell is not seen as the latest attempt, so a second
      retry can be frozen beside it and both children end up running. */
  lemma {:induction false} OutOfOrderAllowsTwoChildren() returns (steps: seq<Step>)
    ensures ValidRun(INIT, steps) && Attempt(2) in Run(INIT, steps).alive && Attempt(3) in Run(INIT, steps).alive
  {
    var p4 := Retry(4, 1, 3);
    steps := OrphanIsReachable();
    SoleEntry(4, 1, 3);
    assert Unstarted(ORPHANED, EntryKeys(p4)) == {Attempt(3)};
    NoneSucceeded(ORPHANED);
    assert MayRun(ORPHANED, HERE, p4.entries[HERE]);
    var s;
    steps, s := RunToLaunch(steps, ORPHANED, RunRetry(1), EntryKeys(p4), Attempt(3));
  }
}
