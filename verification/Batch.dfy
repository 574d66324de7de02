/** The batch engine as a step system: attempts that are reserved by creating a directory, human-approved
    retry plans, one exclusive lock, child processes with ownership markers, and crashes at any point. */
module Batch {
  type Profile = nat
  type Shard = nat
  type AttemptId = nat

  /** Rank of a retry-plan directory name in the order directories are listed. */
  type PlanName = nat

  datatype Cell = Cell(profile: Profile, shard: Shard)

  datatype Key = Key(cell: Cell, id: AttemptId)

  const BASE: AttemptId := 0

  datatype Status = Planned | Incomplete | Success | Failed | PolicyViolation | SchemaInvalid

  const ELIGIBLE: set<Status> := {Failed, PolicyViolation, SchemaInvalid, Incomplete}
  const TERMINAL: set<Status> := {Success, Failed, PolicyViolation, SchemaInvalid}

  datatype Link = Link(parent: AttemptId, attempt: AttemptId)

  /** A retry plan names each profile/shard at most once; `complete` is false for a directory whose
      creation died before its manifest. */
  datatype RetryPlan = RetryPlan(name: PlanName, entries: map<Cell, Link>, complete: bool)

  datatype Marker = LaunchIntent | Started

  datatype Lock = Free | Creating(name: PlanName) | Running(todo: set<Key>, active: set<Key>)

  /** `plans` is the sorted listing of the retry-plan directories. An attempt absent from `attempts` has no
      directory; `launched` holds the keys whose child process was created, `alive` those still running,
      whether or not the marker says so. */
  datatype State = State(
    plans: seq<RetryPlan>,
    attempts: map<Key, Status>,
    markers: map<Key, Marker>,
    launched: set<Key>,
    alive: set<Key>,
    lock: Lock)

  const INIT := State([], map[], map[], {}, {}, Free)

  // ----- Reading the durable state -----

  predicate IsSibling(plans: seq<RetryPlan>, key: Key) {
    key.id == BASE || exists p :: p in plans && key.cell in p.entries && p.entries[key.cell].attempt == key.id
  }

  /** The attempt the listing shows last for a cell. */
  function Latest(plans: seq<RetryPlan>, cell: Cell): (id: AttemptId) {
    if plans == [] then BASE
    else
      var last := plans[|plans| - 1];
      if cell in last.entries then last.entries[cell].attempt else Latest(plans[..|plans| - 1], cell)
  }

  function Classify(s: State, key: Key): (status: Status) {
    if key in s.attempts then s.attempts[key] else Planned
  }

  /** Only attempts the plans list are looked at for an earlier success. */
  ghost predicate AlreadySucceeded(s: State, cell: Cell) {
    exists id :: IsSibling(s.plans, Key(cell, id)) && Classify(s, Key(cell, id)) == Success
  }

  /** `assert_attempt_not_active`: a live recorded child, or an incomplete attempt whose launch is unknown, blocks. */
  predicate NotActive(s: State, key: Key) {
    key in s.markers ==>
      && !(s.markers[key] == Started && key in s.alive)
      && !(s.markers[key] == LaunchIntent && Classify(s, key) == Incomplete)
  }

  predicate PlansReadable(plans: seq<RetryPlan>) {
    forall p :: p in plans ==> p.complete
  }

  ghost predicate MayRetry(s: State, cell: Cell, link: Link) {
    && link.parent == Latest(s.plans, cell)
    && !AlreadySucceeded(s, cell)
    && Classify(s, Key(cell, link.parent)) in ELIGIBLE
    && NotActive(s, Key(cell, link.parent))
    && !IsSibling(s.plans, Key(cell, link.attempt))
  }

  ghost predicate MayCreate(s: State, name: PlanName, entries: map<Cell, Link>) {
    && PlansReadable(s.plans)
    && (forall p :: p in s.plans ==> p.name != name)
    && entries != map[]
    && forall cell :: cell in entries ==> MayRetry(s, cell, entries[cell])
  }

  ghost predicate MayRun(s: State, cell: Cell, link: Link) {
    && Classify(s, Key(cell, link.parent)) in ELIGIBLE
    && NotActive(s, Key(cell, link.parent))
    && !AlreadySucceeded(s, cell)
  }

  function EntryKeys(plan: RetryPlan): (keys: set<Key>) {
    set cell | cell in plan.entries :: Key(cell, plan.entries[cell].attempt)
  }

  /** Position of a new directory in the sorted listing. */
  function Position(plans: seq<RetryPlan>, name: PlanName): (p: nat)
    ensures p <= |plans|
  {
    if plans == [] || name < plans[0].name then 0 else 1 + Position(plans[1..], name)
  }

  function Listed(plans: seq<RetryPlan>, plan: RetryPlan): (r: seq<RetryPlan>) {
    var p := Position(plans, plan.name);
    plans[..p] + [plan] + plans[p..]
  }

  // ----- The step system -----

  datatype Step =
    | CreatePlan(name: PlanName, entries: map<Cell, Link>)
    | CompletePlan
    | RunBase(cells: set<Cell>)
    | RunRetry(index: nat)
    | Begin(key: Key)
    | RecordIntent(key: Key)
    | Launch(key: Key)
    | RecordStarted(key: Key)
    | ChildExits(key: Key)
    | Seal(key: Key, status: Status)
    | GiveUp(key: Key)
    | Cancel
    | Finish
    | Crash

  ghost predicate Enabled(s: State, step: Step) {
    match step
    case CreatePlan(name, entries) => s.lock == Free && MayCreate(s, name, entries)
    case CompletePlan => s.lock.Creating?
    case RunBase(_) => s.lock == Free
    case RunRetry(index) =>
      && s.lock == Free && PlansReadable(s.plans) && index < |s.plans|
      && forall cell ::
        (cell in s.plans[index].entries && Classify(s, Key(cell, s.plans[index].entries[cell].attempt)) == Planned) ==>
          MayRun(s, cell, s.plans[index].entries[cell])
    case Begin(key) =>
      && s.lock.Running? && key in s.lock.todo && key !in s.attempts
      && |s.lock.active| < 2 && forall other :: other in s.lock.active ==> other.cell.profile != key.cell.profile
    case RecordIntent(key) => s.lock.Running? && key in s.lock.active && key !in s.markers
    case Launch(key) => s.lock.Running? && key in s.lock.active && key in s.markers && key !in s.launched
    case RecordStarted(key) => s.lock.Running? && key in s.lock.active && key in s.launched
    case ChildExits(key) => key in s.alive
    case Seal(key, status) => s.lock.Running? && key in s.lock.active && key !in s.alive && status in TERMINAL
    case GiveUp(key) => s.lock.Running? && key in s.lock.active && key !in s.alive
    case Cancel => s.lock.Running?
    case Finish => s.lock.Running? && s.lock.active == {}
    case Crash => s.lock != Free
  }

  /** The base attempts of the planned cells that were never started. */
  function Unstarted(s: State, keys: set<Key>): (r: set<Key>) {
    set key | key in keys && Classify(s, key) == Planned
  }

  function BaseKeys(cells: set<Cell>): (keys: set<Key>) {
    set cell | cell in cells :: Key(cell, BASE)
  }

  function Created(s: State, name: PlanName, entries: map<Cell, Link>): (t: State) {
    s.(plans := Listed(s.plans, RetryPlan(name, entries, false)), lock := Creating(name))
  }

  function Released(s: State): (t: State) {
    s.(lock := Free)
  }

  /** The attempts among `keys` that have no directory yet become the run's work. */
  function Scheduled(s: State, keys: set<Key>): (t: State) {
    s.(lock := Running(Unstarted(s, keys), {}))
  }

  function Begun(s: State, key: Key): (t: State)
    requires s.lock.Running?
  {
    s.(attempts := s.attempts[key := Incomplete], lock := Running(s.lock.todo - {key}, s.lock.active + {key}))
  }

  function SealedAs(s: State, key: Key, status: Status): (t: State)
    requires s.lock.Running?
  {
    s.(attempts := s.attempts[key := status], lock := Running(s.lock.todo, s.lock.active - {key}))
  }

  ghost function Apply(s: State, step: Step): (t: State)
    requires Enabled(s, step)
  {
    match step
    case CreatePlan(name, entries) => Created(s, name, entries)
    case CompletePlan => Released(s.(plans := Sealed(s.plans, s.lock.name)))
    case RunBase(cells) => Scheduled(s, BaseKeys(cells))
    case RunRetry(index) => Scheduled(s, EntryKeys(s.plans[index]))
    case Begin(key) => Begun(s, key)
    case RecordIntent(key) => s.(markers := s.markers[key := LaunchIntent])
    case Launch(key) => s.(launched := s.launched + {key}, alive := s.alive + {key})
    case RecordStarted(key) => s.(markers := s.markers[key := Started])
    case ChildExits(key) => s.(alive := s.alive - {key})
    case Seal(key, status) => SealedAs(s, key, status)
    case GiveUp(key) => s.(lock := Running(s.lock.todo, s.lock.active - {key}))
    case Cancel => s.(lock := Running({}, s.lock.active))
    case Finish => Released(s)
    case Crash => Released(s)
  }

  function Manifested(plan: RetryPlan, name: PlanName): (r: RetryPlan) {
    if plan.name == name then plan.(complete := true) else plan
  }

  function Sealed(plans: seq<RetryPlan>, name: PlanName): (r: seq<RetryPlan>) {
    seq(|plans|, i requires 0 <= i < |plans| => Manifested(plans[i], name))
  }

  ghost predicate ValidRun(s: State, steps: seq<Step>)
    decreases |steps|
  {
    steps == [] || (Enabled(s, steps[0]) && ValidRun(Apply(s, steps[0]), steps[1..]))
  }

  ghost function Run(s: State, steps: seq<Step>): (t: State)
    requires ValidRun(s, steps)
    decreases |steps|
  {
    if steps == [] then s else Run(Apply(s, steps[0]), steps[1..])
  }

  // ----- The invariant -----

  ghost predicate Distinct(plans: seq<RetryPlan>) {
    && (forall i, j :: 0 <= i < j < |plans| ==> plans[i].name < plans[j].name)
    && (forall p, cell :: p in plans && cell in p.entries ==> p.entries[cell].attempt != BASE)
    && (forall p, q, cell :: p in plans && q in plans && p.name != q.name && cell in p.entries && cell in q.entries
          ==> p.entries[cell].attempt != q.entries[cell].attempt)
  }

  /** An attempt that is over: started, unsuccessful, and in nobody's hands. */
  predicate Over(s: State, key: Key) {
    Classify(s, key) in ELIGIBLE && !Held(s, key)
  }

  /** A retry of a cell presupposes that its base attempt is over. */
  ghost predicate RetriesPresuppose(s: State) {
    forall p :: p in s.plans ==> p.entries != map[] && forall cell :: cell in p.entries ==> Over(s, Key(cell, BASE))
  }

  ghost predicate NoSuccess(s: State, cell: Cell) {
    forall key :: key in s.attempts && key.cell == cell ==> s.attempts[key] != Success
  }

  ghost predicate OneWinner(s: State) {
    forall key, other ::
      (key in s.attempts && other in s.attempts && key.cell == other.cell && s.attempts[key] == Success
        && s.attempts[other] == Success)
      ==> key == other
  }

  /** The attempts the lock holder still means to start or is running. */
  function Work(s: State): (keys: set<Key>) {
    if s.lock.Running? then s.lock.todo + s.lock.active else {}
  }

  ghost predicate TodoFresh(s: State) {
    s.lock.Running? ==> forall key :: key in s.lock.todo ==> key !in s.attempts && IsSibling(s.plans, key)
  }

  ghost predicate ActiveIncomplete(s: State) {
    s.lock.Running? ==> forall key :: key in s.lock.active ==> key in s.attempts && s.attempts[key] == Incomplete
  }

  ghost predicate WorkHasNoWinner(s: State) {
    forall key :: key in Work(s) ==> NoSuccess(s, key.cell)
  }

  ghost predicate OnePerCell(s: State) {
    forall key, other :: key in Work(s) && other in Work(s) && key.cell == other.cell ==> key == other
  }

  ghost predicate LockOk(s: State) {
    TodoFresh(s) && ActiveIncomplete(s) && WorkHasNoWinner(s) && OnePerCell(s)
  }

  ghost predicate ProcessesOk(s: State) {
    && s.alive <= s.launched && s.launched <= s.markers.Keys
    && s.markers.Keys <= s.attempts.Keys
    && forall key :: key in s.alive ==> key in s.attempts && s.attempts[key] == Incomplete
  }

  ghost predicate Inv(s: State) {
    && Distinct(s.plans)
    && RetriesPresuppose(s)
    && (forall key :: key in s.attempts ==> s.attempts[key] != Planned && IsSibling(s.plans, key))
    && OneWinner(s)
    && LockOk(s)
    && ProcessesOk(s)
  }

  lemma {:induction false} PositionSplits(plans: seq<RetryPlan>, name: PlanName)
    requires forall i, j :: 0 <= i < j < |plans| ==> plans[i].name < plans[j].name
    requires forall p :: p in plans ==> p.name != name
    ensures forall i :: 0 <= i < |plans| ==> (plans[i].name < name <==> i < Position(plans, name))
  {
    if plans != [] && plans[0].name < name {
      forall p | p in plans[1..] ensures p.name != name { assert p in plans; }
      PositionSplits(plans[1..], name);
      forall i | 0 <= i < |plans| ensures plans[i].name < name <==> i < Position(plans, name) {
        if i > 0 { assert plans[i] == plans[1..][i - 1]; }
      }
    } else if plans != [] {
      assert plans[0] in plans;
    }
  }

  lemma {:induction false} ListedMembers(plans: seq<RetryPlan>, plan: RetryPlan)
    ensures forall p :: p in Listed(plans, plan) <==> p in plans || p == plan
  {
    var k := Position(plans, plan.name);
    assert plans == plans[..k] + plans[k..];
  }

  lemma {:induction false} LatestIsSibling(plans: seq<RetryPlan>, cell: Cell)
    ensures IsSibling(plans, Key(cell, Latest(plans, cell)))
    ensures (forall p :: p in plans ==> cell !in p.entries) ==> Latest(plans, cell) == BASE
  {
    if plans != [] {
      var last := plans[|plans| - 1];
      assert last in plans;
      if cell !in last.entries {
        LatestIsSibling(plans[..|plans| - 1], cell);
        assert forall p :: p in plans[..|plans| - 1] ==> p in plans;
      }
    }
  }

  lemma {:induction false} ListedStaysSorted(plans: seq<RetryPlan>, plan: RetryPlan)
    requires forall i, j :: 0 <= i < j < |plans| ==> plans[i].name < plans[j].name
    requires forall p :: p in plans ==> p.name != plan.name
    ensures forall i, j :: 0 <= i < j < |Listed(plans, plan)| ==>
      Listed(plans, plan)[i].name < Listed(plans, plan)[j].name
  {
    PositionSplits(plans, plan.name);
    var k := Position(plans, plan.name);
    var t := Listed(plans, plan);
    assert |t| == |plans| + 1;
    assert forall i :: 0 <= i < k ==> t[i] == plans[i];
    assert t[k] == plan;
    assert forall i :: k < i < |t| ==> t[i] == plans[i - 1];
    assert forall i :: 0 <= i < |plans| ==> plans[i] in plans;
  }

  lemma {:induction false} CreateKeepsDistinct(s: State, name: PlanName, entries: map<Cell, Link>)
    requires Inv(s) && MayCreate(s, name, entries)
    ensures Distinct(Listed(s.plans, RetryPlan(name, entries, false)))
  {
    var plan := RetryPlan(name, entries, false);
    var t := Listed(s.plans, plan);
    ListedMembers(s.plans, plan);
    ListedStaysSorted(s.plans, plan);
    forall p, cell | p in s.plans && cell in p.entries && cell in entries
      ensures p.entries[cell].attempt != entries[cell].attempt {
      assert MayRetry(s, cell, entries[cell]);
    }
    forall cell | cell in entries ensures entries[cell].attempt != BASE {
      assert MayRetry(s, cell, entries[cell]);
    }
  }

  lemma {:induction false} CreatePresupposes(s: State, name: PlanName, entries: map<Cell, Link>, cell: Cell)
    requires Inv(s) && s.lock == Free && cell in entries && MayRetry(s, cell, entries[cell])
    ensures Over(s, Key(cell, BASE))
  {
    LatestIsSibling(s.plans, cell);
  }

  /** Releasing or creating changes only the plans: what has to hold of the new ones. */
  lemma {:induction false} PlansChangeKeepsInv(s: State, t: State)
    requires Inv(s) && !t.lock.Running? && !s.lock.Running?
    requires t == s.(plans := t.plans, lock := t.lock)
    requires Distinct(t.plans) && RetriesPresuppose(t)
    requires forall key :: IsSibling(s.plans, key) ==> IsSibling(t.plans, key)
    ensures Inv(t)
  {
    assert Work(t) == {};
  }

  lemma {:induction false} CreateKeepsInv(s: State, name: PlanName, entries: map<Cell, Link>)
    requires Inv(s) && s.lock == Free && MayCreate(s, name, entries)
    ensures Inv(Created(s, name, entries))
  {
    var plan := RetryPlan(name, entries, false);
    var t := Created(s, name, entries);
    CreateKeepsDistinct(s, name, entries);
    ListedMembers(s.plans, plan);
    forall p, cell | p in t.plans && cell in p.entries ensures Over(t, Key(cell, BASE)) {
      if p == plan {
        assert MayRetry(s, cell, entries[cell]);
        CreatePresupposes(s, name, entries, cell);
      }
      assert Over(s, Key(cell, BASE));
    }
    PlansChangeKeepsInv(s, t);
  }

  lemma {:induction false} SealedMembers(plans: seq<RetryPlan>, name: PlanName)
    ensures forall p :: p in plans ==> Manifested(p, name) in Sealed(plans, name)
    ensures forall q :: q in Sealed(plans, name) ==> exists p :: p in plans && q == Manifested(p, name)
  {
    var t := Sealed(plans, name);
    forall p | p in plans ensures Manifested(p, name) in t {
      var i :| 0 <= i < |plans| && plans[i] == p;
      assert t[i] in t;
    }
    forall q | q in t ensures exists p :: p in plans && q == Manifested(p, name) {
      var i :| 0 <= i < |t| && t[i] == q;
      assert plans[i] in plans;
    }
  }

  lemma {:induction false} SealedSiblings(plans: seq<RetryPlan>, name: PlanName, key: Key)
    ensures IsSibling(Sealed(plans, name), key) <==> IsSibling(plans, key)
  {
    SealedMembers(plans, name);
    if key.id != BASE && IsSibling(plans, key) {
      var p :| p in plans && key.cell in p.entries && p.entries[key.cell].attempt == key.id;
      assert Manifested(p, name) in Sealed(plans, name);
    }
  }

  lemma {:induction false} SealedPresupposes(s: State, t: State, name: PlanName)
    requires RetriesPresuppose(s) && t.plans == Sealed(s.plans, name) && !t.lock.Running? && t.attempts == s.attempts
    ensures RetriesPresuppose(t)
  {
    SealedMembers(s.plans, name);
    forall q, cell | q in t.plans && cell in q.entries ensures Over(t, Key(cell, BASE)) {
      var p :| p in s.plans && q == Manifested(p, name);
      PlanMeansBaseIsOver(s, p, cell);
    }
  }

  lemma {:induction false} CompleteKeepsInv(s: State)
    requires Inv(s) && s.lock.Creating?
    ensures Inv(Released(s.(plans := Sealed(s.plans, s.lock.name))))
  {
    var t := Released(s.(plans := Sealed(s.plans, s.lock.name)));
    SealedKeepsPlans(s.plans, s.lock.name);
    forall key | IsSibling(s.plans, key) ensures IsSibling(t.plans, key) {
      SealedSiblings(s.plans, s.lock.name, key);
    }
    SealedPresupposes(s, t, s.lock.name);
    PlansChangeKeepsInv(s, t);
  }

  lemma {:induction false} SealedKeepsPlans(plans: seq<RetryPlan>, name: PlanName)
    requires Distinct(plans)
    ensures Distinct(Sealed(plans, name))
  {
    var t := Sealed(plans, name);
    SealedMembers(plans, name);
    assert forall i :: 0 <= i < |plans| ==> t[i].name == plans[i].name;
  }

  /** A cell whose base attempt never started has no attempt at all. */
  lemma {:induction false} UnstartedCellIsEmpty(s: State, cell: Cell)
    requires Inv(s) && Classify(s, Key(cell, BASE)) == Planned
    ensures NoSuccess(s, cell)
  {
    forall key | key in s.attempts && key.cell == cell && s.attempts[key] == Success ensures false {
      assert key != Key(cell, BASE);
      RetriedMeansBaseIsOver(s, key);
    }
  }

  lemma {:induction false} PlanMeansBaseIsOver(s: State, p: RetryPlan, cell: Cell)
    requires RetriesPresuppose(s) && p in s.plans && cell in p.entries
    ensures Over(s, Key(cell, BASE))
  {
  }

  lemma {:induction false} RetriedMeansBaseIsOver(s: State, key: Key)
    requires RetriesPresuppose(s) && IsSibling(s.plans, key) && key.id != BASE
    ensures Over(s, Key(key.cell, BASE))
  {
    var p :| p in s.plans && key.cell in p.entries;
  }

  lemma {:induction false} ScheduleKeepsInv(s: State, keys: set<Key>)
    requires Inv(s) && s.lock == Free
    requires forall key :: key in Unstarted(s, keys) ==> NoSuccess(s, key.cell) && IsSibling(s.plans, key)
    requires forall key, other :: key in keys && other in keys && key.cell == other.cell ==> key == other
    ensures Inv(Scheduled(s, keys))
  {
    var t := Scheduled(s, keys);
    assert Work(t) == Unstarted(s, keys);
    assert forall cell :: NoSuccess(s, cell) ==> NoSuccess(t, cell);
    assert forall key :: Over(s, key) ==> Over(t, key);
  }

  lemma {:induction false} RunBaseKeepsInv(s: State, cells: set<Cell>)
    requires Inv(s) && s.lock == Free
    ensures Inv(Scheduled(s, BaseKeys(cells)))
  {
    forall key | key in Unstarted(s, BaseKeys(cells)) ensures NoSuccess(s, key.cell) {
      UnstartedCellIsEmpty(s, key.cell);
    }
    ScheduleKeepsInv(s, BaseKeys(cells));
  }

  lemma {:induction false} NoSiblingSuccess(s: State, cell: Cell)
    requires !AlreadySucceeded(s, cell) && forall key :: key in s.attempts ==> IsSibling(s.plans, key)
    ensures NoSuccess(s, cell)
  {
    forall key | key in s.attempts && key.cell == cell ensures s.attempts[key] != Success {
      assert IsSibling(s.plans, Key(cell, key.id));
    }
  }

  lemma {:induction false} RunRetryKeepsInv(s: State, plan: RetryPlan)
    requires Inv(s) && s.lock == Free && plan in s.plans
    requires forall cell :: cell in plan.entries && Classify(s, Key(cell, plan.entries[cell].attempt)) == Planned
                            ==> MayRun(s, cell, plan.entries[cell])
    ensures Inv(Scheduled(s, EntryKeys(plan)))
  {
    forall key | key in Unstarted(s, EntryKeys(plan)) ensures NoSuccess(s, key.cell) {
      assert MayRun(s, key.cell, plan.entries[key.cell]);
      NoSiblingSuccess(s, key.cell);
    }
    ScheduleKeepsInv(s, EntryKeys(plan));
  }

  /** Presuppositions survive as long as attempts that are over stay over. */
  lemma {:induction false} PresuppositionsStay(s: State, t: State)
    requires RetriesPresuppose(s) && t.plans == s.plans
    requires forall key :: Over(s, key) ==> Over(t, key)
    ensures RetriesPresuppose(t)
  {
    forall p, cell | p in s.plans && cell in p.entries ensures Over(t, Key(cell, BASE)) {
      assert Over(s, Key(cell, BASE));
    }
  }

  lemma {:induction false} BeginKeepsLock(s: State, key: Key)
    requires LockOk(s) && s.lock.Running? && key in s.lock.todo && key !in s.attempts
    ensures LockOk(Begun(s, key))
  {
    var t := Begun(s, key);
    assert Work(t) == Work(s);
    forall other | other in Work(t) ensures NoSuccess(t, other.cell) {
      assert NoSuccess(s, other.cell);
    }
  }

  lemma {:induction false} BeginKeepsInv(s: State, key: Key)
    requires Inv(s) && s.lock.Running? && key in s.lock.todo && key !in s.attempts
    ensures Inv(Begun(s, key))
  {
    BeginKeepsLock(s, key);
    PresuppositionsStay(s, Begun(s, key));
  }

  lemma {:induction false} SealKeepsLock(s: State, key: Key, status: Status)
    requires LockOk(s) && s.lock.Running? && key in s.lock.active
    ensures LockOk(SealedAs(s, key, status))
  {
    var t := SealedAs(s, key, status);
    assert key in Work(s) && key !in s.lock.todo;
    assert Work(t) == Work(s) - {key};
    forall other | other in Work(t) ensures NoSuccess(t, other.cell) {
      assert NoSuccess(s, other.cell) && other.cell != key.cell;
    }
  }

  lemma {:induction false} SealKeepsOneWinner(s: State, key: Key, status: Status)
    requires OneWinner(s) && NoSuccess(s, key.cell) && s.lock.Running?
    ensures OneWinner(SealedAs(s, key, status))
  {
  }

  lemma {:induction false} SealKeepsInv(s: State, key: Key, status: Status)
    requires Inv(s) && s.lock.Running? && key in s.lock.active && key !in s.alive && status in TERMINAL
    ensures Inv(SealedAs(s, key, status))
  {
    var t := SealedAs(s, key, status);
    SealKeepsLock(s, key, status);
    assert key in Work(s) && NoSuccess(s, key.cell);
    SealKeepsOneWinner(s, key, status);
    PresuppositionsStay(s, t);
  }

  /** Transitions that change no plan and no attempt and give nobody new work. */
  lemma {:induction false} QuietKeepsInv(s: State, t: State)
    requires Inv(s) && t.plans == s.plans && t.attempts == s.attempts && ProcessesOk(t)
    requires t.lock.Running? ==> s.lock.Running? && t.lock.todo <= s.lock.todo && t.lock.active <= s.lock.active
    ensures Inv(t)
  {
    assert Work(t) <= Work(s);
    assert forall cell :: NoSuccess(s, cell) ==> NoSuccess(t, cell);
    PresuppositionsStay(s, t);
  }

  predicate Quiet(step: Step) {
    !step.CreatePlan? && !step.CompletePlan? && !step.RunBase? && !step.RunRetry? && !step.Begin? && !step.Seal?
  }

  lemma {:induction false} QuietStepKeepsInv(s: State, step: Step)
    requires Inv(s) && Enabled(s, step) && Quiet(step)
    ensures Inv(Apply(s, step))
  {
    QuietKeepsInv(s, Apply(s, step));
  }

  lemma {:induction false} StepKeepsInv(s: State, step: Step)
    requires Inv(s) && Enabled(s, step)
    ensures Inv(Apply(s, step))
  {
    if Quiet(step) {
      QuietStepKeepsInv(s, step);
    } else {
      match step
      case CreatePlan(name, entries) => CreateKeepsInv(s, name, entries);
      case CompletePlan => CompleteKeepsInv(s);
      case RunBase(cells) => RunBaseKeepsInv(s, cells);
      case RunRetry(index) => RunRetryKeepsInv(s, s.plans[index]);
      case Begin(key) => BeginKeepsInv(s, key);
      case Seal(key, status) => SealKeepsInv(s, key, status);
    }
  }

  lemma {:induction false} RunKeepsInv(s: State, steps: seq<Step>)
    requires Inv(s) && ValidRun(s, steps)
    ensures Inv(Run(s, steps))
    decreases |steps|
  {
    if steps != [] {
      StepKeepsInv(s, steps[0]);
      RunKeepsInv(Apply(s, steps[0]), steps[1..]);
    }
  }

  // ----- What every run keeps -----

  /** Whatever runs, retries, cancellations and crashes happen, and however retry plans are named, a
      profile/shard has at most one successful attempt. */
  lemma {:induction false} SingleWinner(steps: seq<Step>, key: Key, other: Key)
    requires ValidRun(INIT, steps)
    requires Classify(Run(INIT, steps), key) == Success && Classify(Run(INIT, steps), other) == Success
    requires key.cell == other.cell
    ensures key == other
  {
    RunKeepsInv(INIT, steps);
  }

  /** Durable facts about attempts only grow: a directory never disappears, a sealed outcome never changes,
      and an attempt nobody holds is never written again. */
  lemma {:induction false} OutcomesAreFinal(s: State, steps: seq<Step>, key: Key)
    requires Inv(s) && ValidRun(s, steps) && key in s.attempts
    requires s.attempts[key] in TERMINAL || !Held(s, key)
    ensures key in Run(s, steps).attempts && Run(s, steps).attempts[key] == s.attempts[key]
    decreases |steps|
  {
    if steps != [] {
      FinalStep(s, steps[0], key);
      StepKeepsInv(s, steps[0]);
      OutcomesAreFinal(Apply(s, steps[0]), steps[1..], key);
    }
  }

  predicate Held(s: State, key: Key) {
    s.lock.Running? && key in s.lock.active
  }

  lemma {:induction false} FinalStep(s: State, step: Step, key: Key)
    requires ActiveIncomplete(s) && Enabled(s, step) && key in s.attempts
    requires s.attempts[key] in TERMINAL || !Held(s, key)
    ensures var t := Apply(s, step); key in t.attempts && t.attempts[key] == s.attempts[key] && !Held(t, key)
  {
  }

  lemma {:induction false} StartedStays(s: State, steps: seq<Step>, key: Key)
    requires ValidRun(s, steps) && key in s.attempts
    ensures key in Run(s, steps).attempts && forall i :: 0 <= i < |steps| ==> steps[i] != Begin(key)
    decreases |steps|
  {
    if steps != [] {
      StartedStays(Apply(s, steps[0]), steps[1..], key);
      forall i | 0 <= i < |steps| ensures steps[i] != Begin(key) {
        if i > 0 { assert steps[i] == steps[1..][i - 1]; }
      }
    }
  }

  /** An attempt is started at most once in a whole run. */
  lemma {:induction false} StartedOnce(s: State, steps: seq<Step>, key: Key, i: nat, j: nat)
    requires ValidRun(s, steps) && i < j < |steps| && steps[i] == Begin(key)
    ensures steps[j] != Begin(key)
    decreases |steps|
  {
    var t := Apply(s, steps[0]);
    assert steps[j] == steps[1..][j - 1];
    if i == 0 {
      StartedStays(t, steps[1..], key);
    } else {
      assert steps[i] == steps[1..][i - 1];
      StartedOnce(t, steps[1..], key, i - 1, j - 1);
    }
  }

  lemma {:induction false} NoRetriesWhereAllSucceeded(s: State, cells: set<Cell>)
    requires Inv(s) && forall cell :: cell in cells ==> Classify(s, Key(cell, BASE)) == Success
    requires forall p, cell :: p in s.plans && cell in p.entries ==> cell in cells
    ensures s.plans == []
  {
    if s.plans != [] {
      var p := s.plans[0];
      assert p in s.plans;
      var cell :| cell in p.entries;
      PlanMeansBaseIsOver(s, p, cell);
      assert false;
    }
  }

  /** Base runs are only ever of these cells. */
  predicate BaseRunsWithin(steps: seq<Step>, cells: set<Cell>) {
    forall i :: 0 <= i < |steps| && steps[i].RunBase? ==> steps[i].cells <= cells
  }

  /** Attempts, scheduled work and retry plans are all of these cells. */
  ghost predicate OfCells(s: State, cells: set<Cell>) {
    && (forall key :: key in s.attempts ==> key.cell in cells)
    && (forall key :: key in Work(s) ==> key.cell in cells)
    && forall p, cell :: p in s.plans && cell in p.entries ==> cell in cells
  }

  lemma {:induction false} PlanIsOfCells(s: State, step: Step, cells: set<Cell>)
    requires OfCells(s, cells) && Enabled(s, step) && (step.CreatePlan? || step.CompletePlan?)
    ensures OfCells(Apply(s, step), cells)
  {
    if step.CreatePlan? {
      ListedMembers(s.plans, RetryPlan(step.name, step.entries, false));
      forall cell | cell in step.entries ensures cell in cells {
        assert MayRetry(s, cell, step.entries[cell]);
        assert Key(cell, step.entries[cell].parent) in s.attempts;
      }
    } else {
      forall p, cell | p in Sealed(s.plans, s.lock.name) && cell in p.entries ensures cell in cells {
        var i :| 0 <= i < |s.plans| && p == Manifested(s.plans[i], s.lock.name);
        assert s.plans[i] in s.plans && cell in s.plans[i].entries;
      }
    }
  }

  lemma {:induction false} StepIsOfCells(s: State, step: Step, cells: set<Cell>)
    requires OfCells(s, cells) && Enabled(s, step) && (step.RunBase? ==> step.cells <= cells)
    ensures OfCells(Apply(s, step), cells)
  {
    if step.CreatePlan? || step.CompletePlan? { PlanIsOfCells(s, step, cells); }
    if step.RunRetry? { assert s.plans[step.index] in s.plans; }
  }

  lemma {:induction false} RunIsOfCells(s: State, steps: seq<Step>, cells: set<Cell>)
    requires OfCells(s, cells) && ValidRun(s, steps) && BaseRunsWithin(steps, cells)
    ensures OfCells(Run(s, steps), cells)
    decreases |steps|
  {
    if steps != [] {
      StepIsOfCells(s, steps[0], cells);
      forall i | 0 <= i < |steps[1..]| && steps[1..][i].RunBase? ensures steps[1..][i].cells <= cells {
        assert steps[1..][i] == steps[i + 1];
      }
      RunIsOfCells(Apply(s, steps[0]), steps[1..], cells);
    }
  }

  /** When every planned base attempt succeeded, no retry plan directory exists, not even a half-written one. */
  lemma {:induction false} AllBaseSuccessMeansNoRetries(steps: seq<Step>, cells: set<Cell>)
    requires ValidRun(INIT, steps)
    requires forall cell :: cell in cells ==> Classify(Run(INIT, steps), Key(cell, BASE)) == Success
    requires forall p, cell :: p in Run(INIT, steps).plans && cell in p.entries ==> cell in cells
    ensures Run(INIT, steps).plans == []
  {
    RunKeepsInv(INIT, steps);
    NoRetriesWhereAllSucceeded(Run(INIT, steps), cells);
  }

  /** Once that is so it stays so: no later run of a batch with these cells leaves a retry plan behind. */
  lemma {:induction false} AllBaseSuccessStaysWithoutRetries(before: seq<Step>, after: seq<Step>, cells: set<Cell>)
    requires ValidRun(INIT, before) && ValidRun(Run(INIT, before), after)
    requires BaseRunsWithin(before, cells) && BaseRunsWithin(after, cells)
    requires forall cell :: cell in cells ==> Classify(Run(INIT, before), Key(cell, BASE)) == Success
    ensures Run(Run(INIT, before), after).plans == []
  {
    var middle := Run(INIT, before);
    RunKeepsInv(INIT, before);
    RunIsOfCells(INIT, before, cells);
    RunIsOfCells(middle, after, cells);
    forall cell | cell in cells ensures Classify(Run(middle, after), Key(cell, BASE)) == Success {
      assert Classify(middle, Key(cell, BASE)) == Success;
      OutcomesAreFinal(middle, after, Key(cell, BASE));
    }
    RunKeepsInv(middle, after);
    NoRetriesWhereAllSucceeded(Run(middle, after), cells);
  }
}
