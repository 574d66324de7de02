/** Freezing retries and running batches, as methods over the durable batch root, and the proof that two
    workers end in the same place as one. */
module BatchRun {
  import opened Wrappers
  import opened Batch

  datatype Action = Executed | SkippedExistingSuccess | IncompleteAttempt | CancelledBeforeStart
    | BlockedExistingFailure

  datatype LedgerRow = LedgerRow(key: Key, prior: Status, action: Action, terminal: Status)

  // ----- One worker or two -----

  /** With a fixed answer per attempt, a run without cancellation or crash does only this. */
  predicate Faithful(outcome: Key -> Status, step: Step) {
    match step
    case Begin(_) => true
    case RecordIntent(_) => true
    case Launch(_) => true
    case RecordStarted(_) => true
    case ChildExits(_) => true
    case Seal(key, status) => status == outcome(key)
    case _ => false
  }

  /** What one worker leaves: every scheduled attempt sealed with its own outcome. */
  function AllSealed(attempts: map<Key, Status>, keys: set<Key>, outcome: Key -> Status): (r: map<Key, Status>) {
    attempts + map key | key in keys :: outcome(key)
  }

  /** The state of a schedule part-way: waiting, in flight, or sealed as `outcome` says. */
  ghost predicate PartWay(before: map<Key, Status>, keys: set<Key>, outcome: Key -> Status, t: State) {
    && t.lock.Running?
    && t.lock.todo <= keys && t.lock.active <= keys && t.lock.todo !! t.lock.active
    && (forall key :: key in t.lock.todo ==> key !in t.attempts)
    && (forall key :: key in t.lock.active ==> key in t.attempts)
    && (forall key :: key in keys - t.lock.todo - t.lock.active ==>
      key in t.attempts && t.attempts[key] == outcome(key))
    && (forall key :: key !in keys ==>
      (key in t.attempts <==> key in before) && (key in before ==> t.attempts[key] == before[key]))
  }

  lemma {:induction false} PartWayStep(before: map<Key, Status>, keys: set<Key>, outcome: Key -> Status, s: State,
                                       step: Step)
    requires PartWay(before, keys, outcome, s) && Faithful(outcome, step) && Enabled(s, step)
    ensures PartWay(before, keys, outcome, Apply(s, step))
  {
  }

  lemma {:induction false} PartWayRun(before: map<Key, Status>, keys: set<Key>, outcome: Key -> Status, s: State,
                                      steps: seq<Step>)
    requires PartWay(before, keys, outcome, s) && ValidRun(s, steps)
    requires forall i :: 0 <= i < |steps| ==> Faithful(outcome, steps[i])
    ensures PartWay(before, keys, outcome, Run(s, steps))
    decreases |steps|
  {
    if steps != [] {
      PartWayStep(before, keys, outcome, s, steps[0]);
      forall i | 0 <= i < |steps[1..]| ensures Faithful(outcome, steps[1..][i]) {
        assert steps[1..][i] == steps[i + 1];
      }
      PartWayRun(before, keys, outcome, Apply(s, steps[0]), steps[1..]);
    }
  }

  /** Every interleaving of the workers that finishes the schedule ends with the same attempts. */
  lemma {:induction false} InterleavingDoesNotMatter(s: State, keys: set<Key>, outcome: Key -> Status, steps: seq<Step>)
    requires ValidRun(Scheduled(s, keys), steps)
    requires forall i :: 0 <= i < |steps| ==> Faithful(outcome, steps[i])
    requires forall key :: key in s.attempts ==> s.attempts[key] != Planned
    requires var lock := Run(Scheduled(s, keys), steps).lock; lock.Running? && lock.todo == {} && lock.active == {}
    ensures Run(Scheduled(s, keys), steps).attempts == AllSealed(s.attempts, Unstarted(s, keys), outcome)
  {
    PartWayRun(s.attempts, Unstarted(s, keys), outcome, Scheduled(s, keys), steps);
  }

  // ----- The run ledger -----

  /** The row of one selected attempt: executed rows carry the status read back after the invocation. */
  function RowFor(key: Key, prior: Status, executed: map<Key, Status>): (row: LedgerRow) {
    if key in executed then LedgerRow(key, prior, Executed, executed[key])
    else
      match prior
      case Success => LedgerRow(key, prior, SkippedExistingSuccess, prior)
      case Incomplete => LedgerRow(key, prior, IncompleteAttempt, prior)
      case Planned => LedgerRow(key, prior, CancelledBeforeStart, prior)
      case _ => LedgerRow(key, prior, BlockedExistingFailure, prior)
  }

  predicate RowPasses(row: LedgerRow) {
    row.terminal == Success && row.action !in {BlockedExistingFailure, IncompleteAttempt, CancelledBeforeStart}
  }

  /** The ledger says PASS exactly when every selected attempt ends successful. */
  lemma {:induction false} PassMeansAllSucceed(specs: seq<Key>, initial: map<Key, Status>, executed: map<Key, Status>,
                                               final: map<Key, Status>)
    requires forall key :: key in specs ==> key in initial && key in final
    requires forall key :: key in specs && key in executed ==> final[key] == executed[key]
    requires forall key :: key in specs && key !in executed ==> final[key] == initial[key]
    ensures (forall i :: 0 <= i < |specs| ==> RowPasses(RowFor(specs[i], initial[specs[i]], executed)))
            <==> (forall i :: 0 <= i < |specs| ==> final[specs[i]] == Success)
  {
    forall i | 0 <= i < |specs|
      ensures RowPasses(RowFor(specs[i], initial[specs[i]], executed)) <==> final[specs[i]] == Success
    {
      assert specs[i] in specs;
    }
  }

  /** The rows of a run, one per selected attempt in the order of the selection. */
  function Ledger(specs: seq<Key>, before: State, executed: map<Key, Status>): (rows: seq<LedgerRow>)
    ensures |rows| == |specs|
  {
    seq(|specs|, i requires 0 <= i < |specs| => RowFor(specs[i], Classify(before, specs[i]), executed))
  }

  predicate AllPass(rows: seq<LedgerRow>) {
    forall i :: 0 <= i < |rows| ==> RowPasses(rows[i])
  }

  /** What a finished run says about one selected attempt. */
  predicate RowTells(row: LedgerRow, key: Key, before: Status, after: Status, outcome: Key -> Status) {
    && row.key == key && row.prior == before && row.terminal == after
    && (row.action == Executed <==> before == Planned && after != Planned)
    && (row.action == CancelledBeforeStart <==> before == Planned && after == Planned)
    && (row.action == SkippedExistingSuccess <==> before == Success)
    && (row.action == IncompleteAttempt <==> before == Incomplete)
    && (row.action == BlockedExistingFailure <==> before != Planned && before != Success && before != Incomplete)
    && (row.action == Executed ==> after == outcome(key))
  }

  lemma {:induction false} RowForTells(key: Key, before: Status, executed: map<Key, Status>, outcome: Key -> Status)
    requires key in executed ==> before == Planned && executed[key] == outcome(key) && outcome(key) in TERMINAL
    ensures RowTells(RowFor(key, before, executed), key, before, if key in executed then executed[key] else before,
      outcome)
  {
  }

  ghost predicate LedgerTells(rows: seq<LedgerRow>, specs: seq<Key>, before: State, after: State,
                              outcome: Key -> Status) {
    && |rows| == |specs|
    && (forall i :: 0 <= i < |specs| ==>
          RowTells(rows[i], specs[i], Classify(before, specs[i]), Classify(after, specs[i]), outcome))
    && (AllPass(rows) <==> forall i :: 0 <= i < |specs| ==> Classify(after, specs[i]) == Success)
  }

  /** What the executed attempts were sealed as, and nothing else has a status it did not have before. */
  ghost predicate ExecutedOf(specs: seq<Key>, before: State, executed: map<Key, Status>, after: State,
                             outcome: Key -> Status) {
    forall key :: key in specs ==>
      if key in executed
      then Classify(before, key) == Planned && executed[key] == outcome(key) == Classify(after, key)
        && outcome(key) in TERMINAL
      else Classify(after, key) == Classify(before, key)
  }

  lemma {:induction false} LedgerIsTelling(specs: seq<Key>, before: State, executed: map<Key, Status>, after: State,
                                           outcome: Key -> Status)
    requires ExecutedOf(specs, before, executed, after, outcome)
    ensures LedgerTells(Ledger(specs, before, executed), specs, before, after, outcome)
  {
    var (initial, final) :=
      (map key | key in specs :: Classify(before, key), map key | key in specs :: Classify(after, key));
    PassMeansAllSucceed(specs, initial, executed, final);
    var rows := Ledger(specs, before, executed);
    forall i | 0 <= i < |specs|
      ensures RowTells(rows[i], specs[i], Classify(before, specs[i]), Classify(after, specs[i]), outcome)
      ensures rows[i] == RowFor(specs[i], initial[specs[i]], executed) && final[specs[i]] == Classify(after, specs[i])
    {
      assert specs[i] in specs;
      RowForTells(specs[i], Classify(before, specs[i]), executed, outcome);
    }
  }

  /** The status each worker reads back after an invocation, over a run. */
  function ReadBack(steps: seq<Step>): (executed: map<Key, Status>) {
    if steps == [] then map[]
    else
      var (front, last) := (ReadBack(steps[..|steps| - 1]), steps[|steps| - 1]);
      if last.Seal? then front[last.key := last.status] else front
  }

  /** The attempts of a schedule that are over. */
  ghost function Finished(keys: set<Key>, t: State): set<Key> {
    if t.lock.Running? then keys - t.lock.todo - t.lock.active else {}
  }

  lemma {:induction false} FinishedStep(before: map<Key, Status>, keys: set<Key>, outcome: Key -> Status, s: State,
                                        step: Step)
    requires PartWay(before, keys, outcome, s) && Faithful(outcome, step) && Enabled(s, step)
    ensures Finished(keys, Apply(s, step)) == if step.Seal? then Finished(keys, s) + {step.key} else Finished(keys, s)
  {
  }

  lemma {:induction false} AllSealedAdds(keys: set<Key>, key: Key, outcome: Key -> Status)
    ensures AllSealed(map[], keys, outcome)[key := outcome(key)] == AllSealed(map[], keys + {key}, outcome)
  {
  }

  lemma {:induction false} ReadBackIsFinished(before: map<Key, Status>, keys: set<Key>, outcome: Key -> Status,
                                              s: State, steps: seq<Step>)
    requires PartWay(before, keys, outcome, s) && Finished(keys, s) == {} && ValidRun(s, steps)
    requires forall i :: 0 <= i < |steps| ==> Faithful(outcome, steps[i])
    ensures ReadBack(steps) == AllSealed(map[], Finished(keys, Run(s, steps)), outcome)
    decreases |steps|
  {
    if steps == [] {
      assert AllSealed(map[], {}, outcome) == map[];
    } else {
      var front, last := steps[..|steps| - 1], steps[|steps| - 1];
      RunFront(s, steps);
      forall i | 0 <= i < |front| ensures Faithful(outcome, front[i]) { assert front[i] == steps[i]; }
      ReadBackIsFinished(before, keys, outcome, s, front);
      PartWayRun(before, keys, outcome, s, front);
      FinishedStep(before, keys, outcome, Run(s, front), last);
      if last.Seal? { AllSealedAdds(Finished(keys, Run(s, front)), last.key, outcome); }
    }
  }

  lemma {:induction false} RunFront(s: State, steps: seq<Step>)
    requires ValidRun(s, steps) && steps != []
    ensures var front := steps[..|steps| - 1];
      && ValidRun(s, front) && Enabled(Run(s, front), steps[|steps| - 1])
      && Run(s, steps) == Apply(Run(s, front), steps[|steps| - 1])
    decreases |steps|
  {
    if |steps| > 1 {
      assert steps[1..][..|steps| - 2] == steps[..|steps| - 1][1..];
      RunFront(Apply(s, steps[0]), steps[1..]);
    }
  }

  /** However the workers interleave, a run that finishes its schedule writes the same ledger: one row per selected
      attempt, which tells what the attempt was before and is after, and PASS exactly when all end successful. */
  lemma {:induction false} InterleavingKeepsLedger(s: State, specs: seq<Key>, outcome: Key -> Status, steps: seq<Step>)
    requires ValidRun(Scheduled(s, Keys(specs)), steps)
    requires forall i :: 0 <= i < |steps| ==> Faithful(outcome, steps[i])
    requires (forall key :: key in s.attempts ==> s.attempts[key] != Planned) && forall key :: outcome(key) in TERMINAL
    requires var lock := Run(Scheduled(s, Keys(specs)), steps).lock;
      lock.Running? && lock.todo == {} && lock.active == {}
    ensures var rows := Ledger(specs, s, ReadBack(steps));
      && rows == Ledger(specs, s, AllSealed(map[], Unstarted(s, Keys(specs)), outcome))
      && LedgerTells(rows, specs, s, Run(Scheduled(s, Keys(specs)), steps), outcome)
  {
    var keys := Unstarted(s, Keys(specs));
    var after := Run(Scheduled(s, Keys(specs)), steps);
    InterleavingDoesNotMatter(s, Keys(specs), outcome, steps);
    ReadBackIsFinished(s.attempts, keys, outcome, Scheduled(s, Keys(specs)), steps);
    assert Finished(keys, after) == keys;
    LedgerIsTelling(specs, s, ReadBack(steps), after, outcome);
  }

  // ----- The order of the rows -----

  /** Rows are listed by profile, shard and attempt, each standing for its place in its own order. */
  predicate Precedes(a: Key, b: Key) {
    || a.cell.profile < b.cell.profile
    || (a.cell.profile == b.cell.profile
        && (a.cell.shard < b.cell.shard || (a.cell.shard == b.cell.shard && a.id < b.id)))
  }

  function Insert(rows: seq<LedgerRow>, row: LedgerRow): seq<LedgerRow> {
    if rows == [] || !Precedes(row.key, rows[|rows| - 1].key) then rows + [row]
    else Insert(rows[..|rows| - 1], row) + [rows[|rows| - 1]]
  }

  function SortRows(rows: seq<LedgerRow>): seq<LedgerRow> {
    if rows == [] then [] else Insert(SortRows(rows[..|rows| - 1]), rows[|rows| - 1])
  }

  /** By profile, within a profile by shard, and within a shard by attempt. */
  ghost predicate InOrder(rows: seq<LedgerRow>) {
    && (forall i, j :: 0 <= i < j < |rows| ==> rows[i].key.cell.profile <= rows[j].key.cell.profile)
    && (forall i, j :: 0 <= i < j < |rows| && rows[i].key.cell.profile == rows[j].key.cell.profile ==>
          rows[i].key.cell.shard <= rows[j].key.cell.shard)
    && (forall i, j :: 0 <= i < j < |rows| && rows[i].key.cell == rows[j].key.cell ==>
          rows[i].key.id < rows[j].key.id)
  }

  ghost predicate Linear(rows: seq<LedgerRow>) {
    forall i, j :: 0 <= i < j < |rows| ==> Precedes(rows[i].key, rows[j].key)
  }

  lemma {:induction false} LinearIsInOrder(rows: seq<LedgerRow>)
    requires Linear(rows)
    ensures InOrder(rows)
  {
    forall i, j | 0 <= i < j < |rows|
      ensures rows[i].key.cell.profile <= rows[j].key.cell.profile
      ensures rows[i].key.cell.profile == rows[j].key.cell.profile ==>
        rows[i].key.cell.shard <= rows[j].key.cell.shard
      ensures rows[i].key.cell == rows[j].key.cell ==> rows[i].key.id < rows[j].key.id
    {
      assert Precedes(rows[i].key, rows[j].key);
    }
  }

  lemma {:induction false} InsertAdds(rows: seq<LedgerRow>, row: LedgerRow)
    ensures multiset(Insert(rows, row)) == multiset(rows) + multiset{row}
    ensures forall x :: x in Insert(rows, row) <==> x in rows || x == row
  {
    if rows != [] && Precedes(row.key, rows[|rows| - 1].key) {
      var front, last := rows[..|rows| - 1], rows[|rows| - 1];
      InsertAdds(front, row);
      assert rows == front + [last];
    }
  }

  lemma {:induction false} InsertKeepsOrder(rows: seq<LedgerRow>, row: LedgerRow)
    requires Linear(rows) && forall i :: 0 <= i < |rows| ==> rows[i].key != row.key
    ensures Linear(Insert(rows, row))
  {
    if rows != [] && Precedes(row.key, rows[|rows| - 1].key) {
      var front, last := rows[..|rows| - 1], rows[|rows| - 1];
      InsertKeepsOrder(front, row);
      InsertAdds(front, row);
      var inserted := Insert(front, row);
      forall i | 0 <= i < |inserted| ensures Precedes(inserted[i].key, last.key) { assert inserted[i] in inserted; }
    }
  }

  /** The written ledger has the rows of the run, each once, in order. */
  lemma {:induction false} SortKeepsRows(rows: seq<LedgerRow>)
    requires forall i, j :: 0 <= i < j < |rows| ==> rows[i].key != rows[j].key
    ensures InOrder(SortRows(rows)) && multiset(SortRows(rows)) == multiset(rows)
    ensures forall x :: x in SortRows(rows) <==> x in rows
  {
    SortIsLinear(rows);
    LinearIsInOrder(SortRows(rows));
  }

  lemma {:induction false} SortIsLinear(rows: seq<LedgerRow>)
    requires forall i, j :: 0 <= i < j < |rows| ==> rows[i].key != rows[j].key
    ensures Linear(SortRows(rows)) && multiset(SortRows(rows)) == multiset(rows)
    ensures forall x :: x in SortRows(rows) <==> x in rows
  {
    if rows != [] {
      var front, last := rows[..|rows| - 1], rows[|rows| - 1];
      SortIsLinear(front);
      assert rows == front + [last];
      forall i | 0 <= i < |SortRows(front)| ensures SortRows(front)[i].key != last.key {
        assert SortRows(front)[i] in front;
      }
      InsertKeepsOrder(SortRows(front), last);
      InsertAdds(SortRows(front), last);
    }
  }

  // ----- The batch root -----

  datatype RequestEntry = RequestEntry(cell: Cell, link: Link)

  predicate DistinctCells(request: seq<RequestEntry>) {
    forall i, j :: 0 <= i < j < |request| ==> request[i].cell != request[j].cell
  }

  function EntryMap(request: seq<RequestEntry>): (m: map<Cell, Link>) {
    if request == [] then map[]
    else EntryMap(request[..|request| - 1])[request[|request| - 1].cell := request[|request| - 1].link]
  }

  lemma {:induction false} EntryMapHolds(request: seq<RequestEntry>)
    requires DistinctCells(request)
    ensures forall cell :: cell in EntryMap(request) <==> exists i :: 0 <= i < |request| && request[i].cell == cell
    ensures forall i :: 0 <= i < |request| ==>
      request[i].cell in EntryMap(request) && EntryMap(request)[request[i].cell] == request[i].link
  {
    if request != [] {
      var n := |request| - 1;
      EntryMapHolds(request[..n]);
      forall cell | cell in EntryMap(request) ensures exists i :: 0 <= i < |request| && request[i].cell == cell {
        if cell == request[n].cell {
        } else {
          var i :| 0 <= i < n && request[..n][i].cell == cell;
          assert request[i].cell == cell;
        }
      }
      forall i | 0 <= i < |request|
        ensures request[i].cell in EntryMap(request) && EntryMap(request)[request[i].cell] == request[i].link {
        if i < n { assert request[..n][i] == request[i]; }
      }
    }
  }

  ghost predicate Performs(before: State, steps: seq<Step>, after: State) {
    ValidRun(before, steps) && Run(before, steps) == after
  }

  lemma {:induction false} PerformsMore(before: State, steps: seq<Step>, middle: State, step: Step)
    requires Performs(before, steps, middle) && Enabled(middle, step)
    ensures Performs(before, steps + [step], Apply(middle, step))
    decreases |steps|
  {
    if steps == [] {
      assert [step][1..] == [];
    } else {
      assert (steps + [step])[1..] == steps[1..] + [step];
      PerformsMore(Apply(before, steps[0]), steps[1..], middle, step);
    }
  }

  predicate DistinctKeys(keys: seq<Key>) {
    forall i, j :: 0 <= i < j < |keys| ==> keys[i] != keys[j]
  }

  lemma {:induction false} AllSealedGrows(attempts: map<Key, Status>, keys: set<Key>, key: Key, outcome: Key -> Status)
    requires key !in keys && key !in attempts
    ensures key !in AllSealed(attempts, keys, outcome)
    ensures AllSealed(attempts, keys, outcome)[key := outcome(key)] == AllSealed(attempts, keys + {key}, outcome)
  {
  }

  function Keys(order: seq<Key>): (keys: set<Key>) {
    set key | key in order
  }

  lemma {:induction false} KeysSplit(order: seq<Key>, i: nat)
    requires i < |order| && DistinctKeys(order)
    ensures order[i] !in order[..i] && order[i] in order && order[i] in Keys(order[i..])
    ensures Keys(order[..i + 1]) == Keys(order[..i]) + {order[i]}
    ensures Keys(order[i..]) - {order[i]} == Keys(order[i + 1..])
  {
    assert order[..i + 1] == order[..i] + [order[i]];
    assert order[i..] == [order[i]] + order[i + 1..];
  }

  /** The first `done` attempts of the order are sealed with their outcomes, and nothing else has changed. */
  ghost predicate Advanced(order: seq<Key>, done: nat, outcome: Key -> Status, start: map<Key, Status>,
                           now: map<Key, Status>, executed: map<Key, Status>)
  {
    && done <= |order| && now == AllSealed(start, Keys(order[..done]), outcome)
    && executed == AllSealed(map[], Keys(order[..done]), outcome)
  }

  lemma {:induction false} NothingAdvanced(order: seq<Key>, outcome: Key -> Status, start: map<Key, Status>)
    ensures Advanced(order, 0, outcome, start, start, map[]) && Keys(order[0..]) == Keys(order)
  {
    assert order[0..] == order;
    assert Keys(order[..0]) == {};
  }

  lemma {:induction false} AdvancedOne(order: seq<Key>, done: nat, outcome: Key -> Status, start: map<Key, Status>,
                                       now: map<Key, Status>, executed: map<Key, Status>)
    requires Advanced(order, done, outcome, start, now, executed) && done < |order| && DistinctKeys(order)
    requires order[done] !in start
    ensures var key := order[done];
      && Advanced(order, done + 1, outcome, start, now[key := outcome(key)], executed[key := outcome(key)])
      && key !in now && key in Keys(order[done..]) && Keys(order[done..]) - {key} == Keys(order[done + 1..])
  {
    var key := order[done];
    KeysSplit(order, done);
    assert key !in Keys(order[..done]);
    AllSealedGrows(start, Keys(order[..done]), key, outcome);
    AllSealedGrows(map[], Keys(order[..done]), key, outcome);
  }

  lemma {:induction false} PerformsAfter(before: State, first: Step, steps: seq<Step>, after: State)
    requires Enabled(before, first) && Performs(Apply(before, first), steps, after)
    ensures Performs(before, [first] + steps, after)
  {
    assert ([first] + steps)[1..] == steps;
  }

  function Closing(cancelled: bool): seq<Step> {
    if cancelled then [Cancel, Finish] else [Finish]
  }

  lemma {:induction false} ClosingPerforms(before: State, steps: seq<Step>, s: State, cancelled: bool)
    requires Performs(before, steps, s) && s.lock.Running? && s.lock.active == {}
    ensures Performs(before, steps + Closing(cancelled), s.(lock := Free))
  {
    if cancelled {
      PerformsMore(before, steps, s, Cancel);
      PerformsMore(before, steps + [Cancel], s.(lock := Running({}, {})), Finish);
      assert steps + [Cancel] + [Finish] == steps + Closing(true);
    } else {
      PerformsMore(before, steps, s, Finish);
    }
  }

  /** A locked run, from taking the lock to releasing it, is a run of the protocol. */
  lemma {:induction false} LockedPerforms(before: State, first: Step, keys: set<Key>, steps: seq<Step>, after: State)
    requires Inv(before) && Enabled(before, first) && Apply(before, first) == Scheduled(before, keys)
    requires Performs(Scheduled(before, keys), steps, after)
    ensures Performs(before, [first] + steps, after) && Inv(after)
  {
    PerformsAfter(before, first, steps, after);
    RunKeepsInv(before, [first] + steps);
  }

  lemma {:induction false} BeginPerforms(before: State, steps: seq<Step>, s: State, todo: set<Key>, key: Key)
    requires Performs(before, steps, s) && s.lock == Running(todo, {}) && key in todo && key !in s.attempts
    ensures Performs(before, steps + [Begin(key)],
      s.(attempts := s.attempts[key := Incomplete], lock := Running(todo - {key}, {key})))
  {
    PerformsMore(before, steps, s, Begin(key));
    assert Apply(s, Begin(key)) == s.(attempts := s.attempts[key := Incomplete], lock := Running(todo - {key}, {key}));
  }

  lemma {:induction false} IntentPerforms(before: State, steps: seq<Step>, s: State, todo: set<Key>, key: Key)
    requires Performs(before, steps, s) && s.lock == Running(todo, {key}) && key !in s.markers
    ensures Performs(before, steps + [RecordIntent(key)], s.(markers := s.markers[key := LaunchIntent]))
  {
    PerformsMore(before, steps, s, RecordIntent(key));
  }

  lemma {:induction false} LaunchPerforms(before: State, steps: seq<Step>, s: State, todo: set<Key>, key: Key)
    requires Performs(before, steps, s) && s.lock == Running(todo, {key}) && key in s.markers && key !in s.launched
    ensures Performs(before, steps + [Launch(key)], s.(launched := s.launched + {key}, alive := s.alive + {key}))
  {
    PerformsMore(before, steps, s, Launch(key));
  }

  lemma {:induction false} StartedPerforms(before: State, steps: seq<Step>, s: State, todo: set<Key>, key: Key)
    requires Performs(before, steps, s) && s.lock == Running(todo, {key}) && key in s.launched
    ensures Performs(before, steps + [RecordStarted(key)], s.(markers := s.markers[key := Started]))
  {
    PerformsMore(before, steps, s, RecordStarted(key));
  }

  lemma {:induction false} ExitPerforms(before: State, steps: seq<Step>, s: State, key: Key)
    requires Performs(before, steps, s) && key in s.alive
    ensures Performs(before, steps + [ChildExits(key)], s.(alive := s.alive - {key}))
  {
    PerformsMore(before, steps, s, ChildExits(key));
  }

  lemma {:induction false} GiveUpPerforms(before: State, steps: seq<Step>, s: State, todo: set<Key>, key: Key)
    requires Performs(before, steps, s) && s.lock == Running(todo, {key}) && key !in s.alive
    ensures Performs(before, steps + [GiveUp(key)], s.(lock := Running(todo, {})))
  {
    PerformsMore(before, steps, s, GiveUp(key));
    assert {key} - {key} == {};
  }

  lemma {:induction false} SealPerforms(before: State, steps: seq<Step>, s: State, todo: set<Key>, key: Key,
                                        result: Status)
    requires Performs(before, steps, s) && s.lock == Running(todo, {key}) && key !in s.alive && result in TERMINAL
    ensures Performs(before, steps + [Seal(key, result)],
      s.(attempts := s.attempts[key := result], lock := Running(todo, {})))
  {
    PerformsMore(before, steps, s, Seal(key, result));
    assert {key} - {key} == {};
  }

  /** Markers and launches changed for these attempts only. */
  ghost predicate OnlyLaunched(keys: set<Key>, markers: map<Key, Marker>, launched: set<Key>,
                               now: map<Key, Marker>, started: set<Key>)
  {
    forall key :: key !in keys ==>
      && (key in now <==> key in markers) && (key in now ==> now[key] == markers[key])
      && (key in started <==> key in launched)
  }

  /** No trace of the attempt is on disk, and no process of it runs. */
  predicate Untouched(s: State, key: Key) {
    key !in s.attempts && key !in s.markers && key !in s.launched && key !in s.alive
  }

  predicate AllUntouched(s: State, order: seq<Key>) {
    forall i :: 0 <= i < |order| ==> Untouched(s, order[i])
  }

  lemma {:induction false} NextUntouched(before: State, now: State, order: seq<Key>, done: nat, outcome: Key -> Status,
                                         executed: map<Key, Status>)
    requires AllUntouched(before, order) && DistinctKeys(order) && done < |order|
    requires Progress(before, now, order, done, outcome, executed)
    ensures Untouched(now, order[done]) && Untouched(before, order[done]) && order[done] in Keys(order[done..])
  {
    KeysSplit(order, done);
    assert order[done] !in Keys(order[..done]);
  }

  /** How far a run has come: the first `done` attempts are sealed, and nothing else on disk has changed. */
  ghost predicate Progress(before: State, now: State, order: seq<Key>, done: nat, outcome: Key -> Status,
                           executed: map<Key, Status>)
  {
    && Advanced(order, done, outcome, before.attempts, now.attempts, executed)
    && now.plans == before.plans && now.alive == before.alive
    && OnlyLaunched(Keys(order[..done]), before.markers, before.launched, now.markers, now.launched)
  }

  lemma {:induction false} ProgressOne(before: State, middle: State, now: State, order: seq<Key>, done: nat,
                                       outcome: Key -> Status, executed: map<Key, Status>)
    requires AllUntouched(before, order) && DistinctKeys(order) && done < |order|
    requires Progress(before, middle, order, done, outcome, executed)
    requires now.attempts == middle.attempts[order[done] := outcome(order[done])]
    requires now.plans == middle.plans && now.alive == middle.alive
    requires OnlyLaunched({order[done]}, middle.markers, middle.launched, now.markers, now.launched)
    ensures Progress(before, now, order, done + 1, outcome, executed[order[done] := outcome(order[done])])
    ensures Keys(order[done..]) - {order[done]} == Keys(order[done + 1..])
  {
    NextUntouched(before, middle, order, done, outcome, executed);
    AdvancedOne(order, done, outcome, before.attempts, middle.attempts, executed);
    KeysSplit(order, done);
  }

  lemma {:induction false} PlannedIsUntouched(s: State, key: Key)
    requires Inv(s) && Classify(s, key) == Planned
    ensures Untouched(s, key)
  {
  }

  lemma {:induction false} UnstartedAreUntouched(s: State, keys: set<Key>, order: seq<Key>)
    requires Inv(s) && Keys(order) == Unstarted(s, keys)
    ensures AllUntouched(s, order)
  {
    forall i | 0 <= i < |order| ensures Untouched(s, order[i]) {
      assert order[i] in Keys(order);
      PlannedIsUntouched(s, order[i]);
    }
  }

  datatype RunResult = RunResult(rows: seq<LedgerRow>, pass: bool, cancelled: bool)

  /** What a finished run reports: the sorted rows, what they say of every selected attempt, and the verdict. Without
      cancellation these are the rows that any number of workers would write. */
  ghost predicate ResultTells(r: RunResult, specs: seq<Key>, before: State, executed: map<Key, Status>, after: State,
                              outcome: Key -> Status)
  {
    && r.rows == SortRows(Ledger(specs, before, executed))
    && LedgerTells(Ledger(specs, before, executed), specs, before, after, outcome)
    && (r.pass <==> forall i :: 0 <= i < |specs| ==> Classify(after, specs[i]) == Success)
    && (!r.cancelled ==> executed == AllSealed(map[], Unstarted(before, Keys(specs)), outcome))
    && forall key :: key in before.attempts ==> key in after.attempts && after.attempts[key] == before.attempts[key]
  }

  /** How the loop over the attempts ends, and what the caller of a run gets: no ledger if an invocation raised. */
  datatype End = Completed | Cancelled | Raised

  datatype RunEnd = Reported(result: RunResult) | Unreported

  /** An invocation raised after the first `done` attempts were sealed: its own attempt has at most its directory. */
  ghost predicate Halted(before: State, now: State, order: seq<Key>, done: nat, outcome: Key -> Status) {
    && done < |order| && now.plans == before.plans && now.alive == before.alive
    && OnlyLaunched(Keys(order[..done + 1]), before.markers, before.launched, now.markers, now.launched)
    && var sealed := AllSealed(before.attempts, Keys(order[..done]), outcome);
       now.attempts == sealed || now.attempts == sealed[order[done] := Incomplete]
  }

  lemma {:induction false} HaltedOne(before: State, middle: State, now: State, order: seq<Key>, done: nat,
                                     outcome: Key -> Status, executed: map<Key, Status>)
    requires DistinctKeys(order) && done < |order| && Progress(before, middle, order, done, outcome, executed)
    requires now.attempts == middle.attempts || now.attempts == middle.attempts[order[done] := Incomplete]
    requires now.plans == middle.plans && now.alive == middle.alive
    requires OnlyLaunched({order[done]}, middle.markers, middle.launched, now.markers, now.launched)
    ensures Halted(before, now, order, done, outcome)
  {
    KeysSplit(order, done);
  }

  /** Such a run leaves every earlier attempt alone, seals what it finished with its outcome, and leaves at most one
      attempt incomplete. */
  ghost predicate HaltTells(specs: seq<Key>, before: State, after: State, outcome: Key -> Status) {
    && (forall key :: key in before.attempts ==>
          key in after.attempts && after.attempts[key] == before.attempts[key])
    && (forall key :: key in after.attempts && key !in before.attempts ==>
          key in specs && (after.attempts[key] == outcome(key) || after.attempts[key] == Incomplete))
    && forall key, other ::
         (&& key in after.attempts && key !in before.attempts && after.attempts[key] == Incomplete
          && other in after.attempts && other !in before.attempts && after.attempts[other] == Incomplete) ==>
            key == other
  }

  ghost predicate EndTells(end: RunEnd, specs: seq<Key>, before: State, executed: map<Key, Status>, after: State,
                           outcome: Key -> Status) {
    match end
    case Reported(result) => ResultTells(result, specs, before, executed, after, outcome)
    case Unreported => HaltTells(specs, before, after, outcome)
  }

  lemma {:induction false} HaltedTells(specs: seq<Key>, before: State, after: State, order: seq<Key>, done: nat,
                                       outcome: Key -> Status)
    requires Halted(before, after, order, done, outcome) && Keys(order) == Unstarted(before, Keys(specs))
    requires (forall key :: outcome(key) in TERMINAL) && forall key :: key in before.attempts ==>
      before.attempts[key] != Planned
    ensures HaltTells(specs, before, after, outcome)
  {
    forall key | key in Keys(order[..done]) ensures key in Keys(order) && key in specs && key !in before.attempts {
      assert key in order;
    }
    assert order[done] in Keys(order);
  }

  lemma {:induction false} ExecutedIsRead(order: seq<Key>, done: nat, outcome: Key -> Status, before: State,
                                          after: State, executed: map<Key, Status>, specs: seq<Key>)
    requires Advanced(order, done, outcome, before.attempts, after.attempts, executed)
    requires forall key :: key in order ==> Classify(before, key) == Planned && outcome(key) in TERMINAL
    ensures ExecutedOf(specs, before, executed, after, outcome)
  {
    forall key | key in Keys(order[..done]) ensures key in order {}
  }

  lemma {:induction false} SelectedTells(order: seq<Key>, done: nat, outcome: Key -> Status, before: State,
                                         after: State, executed: map<Key, Status>, specs: seq<Key>)
    requires Advanced(order, done, outcome, before.attempts, after.attempts, executed)
    requires Keys(order) == Unstarted(before, Keys(specs)) && forall key :: outcome(key) in TERMINAL
    ensures LedgerTells(Ledger(specs, before, executed), specs, before, after, outcome)
    ensures done == |order| ==> executed == AllSealed(map[], Unstarted(before, Keys(specs)), outcome)
  {
    forall key | key in order ensures Classify(before, key) == Planned { assert key in Keys(order); }
    ExecutedIsRead(order, done, outcome, before, after, executed, specs);
    LedgerIsTelling(specs, before, executed, after, outcome);
    if done == |order| { assert order[..done] == order; }
  }

  lemma {:induction false} EarlierUntouched(order: seq<Key>, done: nat, outcome: Key -> Status, before: State,
                                            after: State, executed: map<Key, Status>, keys: set<Key>)
    requires Advanced(order, done, outcome, before.attempts, after.attempts, executed)
    requires Keys(order) == Unstarted(before, keys)
    requires forall key :: key in before.attempts ==> before.attempts[key] != Planned
    ensures forall key :: key in before.attempts ==>
      key in after.attempts && after.attempts[key] == before.attempts[key]
  {
    forall key | key in before.attempts ensures key !in Keys(order[..done]) {
      assert key !in Keys(order);
    }
  }

  class BatchRoot {
    var plans: seq<RetryPlan>
    var attempts: map<Key, Status>
    var markers: map<Key, Marker>
    ghost var launched: set<Key>
    var alive: set<Key>

    constructor ()
      ensures View(Free) == INIT
    {
      plans, attempts, markers, launched, alive := [], map[], map[], {}, {};
    }

    ghost function View(lock: Lock): (s: State)
      reads this
    {
      State(plans, attempts, markers, launched, alive, lock)
    }

    function StatusOf(key: Key): (status: Status)
      reads this
      ensures status == Classify(View(Free), key)
    {
      if key in attempts then attempts[key] else Planned
    }

    predicate Inactive(key: Key)
      reads this
      ensures Inactive(key) == NotActive(View(Free), key)
    {
      key !in markers
        || (!(markers[key] == Started && key in alive)
          && !(markers[key] == LaunchIntent && StatusOf(key) == Incomplete))
    }

    /** Whether any listed attempt of the cell succeeded: the base, then each plan that retries the cell. */
    method Succeeded(cell: Cell) returns (found: bool)
      ensures found <==> AlreadySucceeded(View(Free), cell)
    {
      found := StatusOf(Key(cell, BASE)) == Success;
      ghost var id := BASE;
      for i := 0 to |plans|
        invariant found ==> IsSibling(plans, Key(cell, id)) && StatusOf(Key(cell, id)) == Success
        invariant !found ==> StatusOf(Key(cell, BASE)) != Success
        invariant !found ==> forall k :: 0 <= k < i && cell in plans[k].entries ==>
          StatusOf(Key(cell, plans[k].entries[cell].attempt)) != Success
      {
        if cell in plans[i].entries && StatusOf(Key(cell, plans[i].entries[cell].attempt)) == Success {
          found, id := true, plans[i].entries[cell].attempt;
          assert plans[i] in plans;
        }
      }
      if found {
        assert IsSibling(View(Free).plans, Key(cell, id)) && Classify(View(Free), Key(cell, id)) == Success;
      } else {
        forall other | IsSibling(plans, Key(cell, other)) ensures Classify(View(Free), Key(cell, other)) != Success {
          if other != BASE {
            var p :| p in plans && cell in p.entries && p.entries[cell].attempt == other;
            var k :| 0 <= k < |plans| && plans[k] == p;
          }
        }
      }
    }

    /** The latest planned attempt and whether `wanted` is unused: one pass over the listing. */
    method Siblings(cell: Cell, wanted: AttemptId) returns (latest: AttemptId, unused: bool)
      ensures latest == Latest(plans, cell)
      ensures unused <==> !IsSibling(plans, Key(cell, wanted))
    {
      latest, unused := BASE, wanted != BASE;
      for i := 0 to |plans|
        invariant latest == Latest(plans[..i], cell)
        invariant unused <==>
          wanted != BASE && forall k :: 0 <= k < i && cell in plans[k].entries ==>
            plans[k].entries[cell].attempt != wanted
      {
        assert plans[..i + 1][..i] == plans[..i];
        if cell in plans[i].entries {
          latest := plans[i].entries[cell].attempt;
          unused := unused && latest != wanted;
        }
      }
      assert plans[..|plans|] == plans;
      if wanted != BASE && !unused {
        var k :| 0 <= k < |plans| && cell in plans[k].entries && plans[k].entries[cell].attempt == wanted;
        assert plans[k] in plans;
      }
    }

    /** The checks on one requested retry. */
    method CheckEntry(entry: RequestEntry) returns (ok: bool)
      ensures ok <==> MayRetry(View(Free), entry.cell, entry.link)
    {
      var latest, unused := Siblings(entry.cell, entry.link.attempt);
      var succeeded := Succeeded(entry.cell);
      var parent := Key(entry.cell, entry.link.parent);
      ok := latest == entry.link.parent && !succeeded && Inactive(parent) && StatusOf(parent) in ELIGIBLE && unused;
    }

    /** Freeze an explicit request: all of it or nothing, never over an existing directory. */
    method CreateRetryPlan(name: PlanName, request: seq<RequestEntry>) returns (ok: bool, ghost steps: seq<Step>)
      requires request != [] && DistinctCells(request)
      modifies this`plans
      ensures ok <==> old(MayCreate(View(Free), name, EntryMap(request)))
      ensures ok ==> plans == Sealed(Listed(old(plans), RetryPlan(name, EntryMap(request), false)), name)
      ensures !ok ==> plans == old(plans)
      ensures Performs(old(View(Free)), steps, View(Free))
    {
      ghost var before := View(Free);
      steps := [];
      ok := PlansReadable(plans) && forall p | p in plans :: p.name != name;
      EntryMapHolds(request);
      var i := 0;
      while ok && i < |request|
        invariant 0 <= i <= |request| && View(Free) == before
        invariant ok ==> PlansReadable(plans) && (forall p :: p in plans ==> p.name != name)
        invariant ok ==> forall k :: 0 <= k < i ==> MayRetry(before, request[k].cell, request[k].link)
        invariant !ok ==> !MayCreate(before, name, EntryMap(request))
      {
        ok := CheckEntry(request[i]);
        assert View(Free) == before;
        assert ok <==> MayRetry(before, request[i].cell, EntryMap(request)[request[i].cell]);
        i := i + 1;
      }
      if !ok { return; }
      var entries := EntryMap(request);
      assert request[0].cell in entries;
      assert MayCreate(before, name, entries);
      PerformsMore(before, [], before, CreatePlan(name, entries));
      assert [] + [CreatePlan(name, entries)] == [CreatePlan(name, entries)];
      ghost var created := Created(before, name, entries);
      PerformsMore(before, [CreatePlan(name, entries)], created, CompletePlan);
      steps := [CreatePlan(name, entries)] + [CompletePlan];
      plans := Listed(plans, RetryPlan(name, entries, false));
      plans := Sealed(plans, name);
    }

    /** The validation a retry run does before anything starts: each unstarted entry still has an eligible,
        inactive parent and no successful sibling. */
    method ValidateRetryRun(index: nat) returns (ok: bool)
      requires index < |plans|
      ensures ok <==> Enabled(View(Free), RunRetry(index))
    {
      var entries := plans[index].entries;
      ghost var s := View(Free);
      ok := PlansReadable(plans);
      var rest := entries.Keys;
      while ok && rest != {}
        invariant rest <= entries.Keys
        invariant ok ==> PlansReadable(plans)
        invariant ok ==> forall cell ::
          cell in entries.Keys - rest && StatusOf(Key(cell, entries[cell].attempt)) == Planned ==>
            MayRun(s, cell, entries[cell])
        invariant !ok ==> !Enabled(s, RunRetry(index))
        decreases |rest|
      {
        var cell :| cell in rest;
        var link := entries[cell];
        if StatusOf(Key(cell, link.attempt)) == Planned {
          var succeeded := Succeeded(cell);
          var parent := Key(cell, link.parent);
          ok := StatusOf(parent) in ELIGIBLE && Inactive(parent) && !succeeded;
          assert ok <==> MayRun(s, cell, link);
        }
        rest := rest - {cell};
      }
    }

    /** Run the scheduled attempts one after the other; cancellation is looked at before each, and an invocation that
        raises ends the loop. */
    method Execute(order: seq<Key>, outcome: Key -> Status, calm: bool)
      returns (done: nat, end: End, executed: map<Key, Status>, ghost left: set<Key>, ghost steps: seq<Step>)
      requires DistinctKeys(order)
      requires AllUntouched(View(Free), order) && forall key :: outcome(key) in TERMINAL
      modifies this`attempts, this`markers, this`launched, this`alive
      ensures !end.Raised? ==> Progress(old(View(Free)), View(Free), order, done, outcome, executed)
      ensures end.Completed? ==> done == |order|
      ensures calm ==> end.Completed?
      ensures end.Raised? ==> Halted(old(View(Free)), View(Free), order, done, outcome)
      ensures Performs(old(View(Running(Keys(order), {}))), steps, View(Running(left, {})))
    {
      ghost var first, before := View(Free), View(Running(Keys(order), {}));
      executed, steps, done, end, left := map[], [], 0, Completed, Keys(order);
      NothingAdvanced(order, outcome, attempts);
      while done < |order|
        invariant Progress(first, State(plans, attempts, markers, launched, alive, Free), order, done, outcome,
          executed)
        invariant end == Completed && left == Keys(order[done..])
        invariant Performs(before, steps,
          State(plans, attempts, markers, launched, alive, Running(Keys(order[done..]), {})))
      {
        var cancelled: bool :| calm ==> !cancelled;
        if cancelled {
          end := Cancelled;
          break;
        }
        var ok;
        ok, left, steps := ExecuteOne(order, done, outcome, calm, executed, first, before, steps);
        if !ok {
          end := Raised;
          return;
        }
        executed, done := executed[order[done] := outcome(order[done])], done + 1;
      }
    }

    /** The next attempt of the order, which nothing has touched yet. */
    method ExecuteOne(order: seq<Key>, done: nat, outcome: Key -> Status, calm: bool,
                      ghost executed: map<Key, Status>, ghost first: State, ghost before: State,
                      ghost steps: seq<Step>)
      returns (ok: bool, ghost left: set<Key>, ghost more: seq<Step>)
      requires DistinctKeys(order) && done < |order| && AllUntouched(first, order) && outcome(order[done]) in TERMINAL
      requires Progress(first, View(Free), order, done, outcome, executed)
      requires Performs(before, steps, View(Running(Keys(order[done..]), {})))
      modifies this`attempts, this`markers, this`launched, this`alive
      ensures ok ==>
        && Progress(first, View(Free), order, done + 1, outcome, executed[order[done] := outcome(order[done])])
        && left == Keys(order[done + 1..])
      ensures !ok ==> Halted(first, View(Free), order, done, outcome)
      ensures calm ==> ok
      ensures Performs(before, more, View(Running(left, {})))
    {
      ghost var middle := View(Free);
      NextUntouched(first, middle, order, done, outcome, executed);
      ok, left, more := Invoke(order[done], outcome(order[done]), calm, Keys(order[done..]), before, steps);
      if ok {
        ProgressOne(first, middle, View(Free), order, done, outcome, executed);
      } else {
        HaltedOne(first, middle, View(Free), order, done, outcome, executed);
      }
    }

    /** One adapter invocation: reserve the directory, run the child, and seal the directory with the terminal result.
        It may raise before any of this, or at any later point, with the directory left incomplete. */
    method Invoke(key: Key, result: Status, calm: bool, ghost todo: set<Key>, ghost before: State,
                  ghost steps: seq<Step>)
      returns (ok: bool, ghost left: set<Key>, ghost more: seq<Step>)
      requires key in todo && Untouched(View(Free), key) && result in TERMINAL
      requires Performs(before, steps, View(Running(todo, {})))
      modifies this`attempts, this`markers, this`launched, this`alive
      ensures ok ==> attempts == old(attempts)[key := result] && left == todo - {key}
      ensures !ok ==> attempts == old(attempts) || attempts == old(attempts)[key := Incomplete]
      ensures calm ==> ok && key in launched && key in markers && markers[key] == Started
      ensures alive == old(alive) && OnlyLaunched({key}, old(markers), old(launched), markers, launched)
      ensures Performs(before, more, View(Running(left, {})))
    {
      var reserved: bool :| calm ==> reserved;
      if !reserved { return false, todo, steps; }
      left := todo - {key};
      BeginPerforms(before, steps, View(Running(todo, {})), todo, key);
      more := steps + [Begin(key)];
      attempts := attempts[key := Incomplete];
      ok, more := RunChild(key, calm, left, before, more);
      more := Conclude(key, result, ok, left, before, more);
    }

    /** The terminal result, unless an exception passes it by. */
    method Conclude(key: Key, result: Status, ok: bool, ghost left: set<Key>, ghost before: State,
                    ghost steps: seq<Step>)
      returns (ghost more: seq<Step>)
      requires key in attempts && attempts[key] == Incomplete && key !in alive && result in TERMINAL
      requires Performs(before, steps, View(Running(left, {key})))
      modifies this`attempts
      ensures attempts == if ok then old(attempts)[key := result] else old(attempts)
      ensures Performs(before, more, View(Running(left, {})))
    {
      if !ok {
        GiveUpPerforms(before, steps, View(Running(left, {key})), left, key);
        return steps + [GiveUp(key)];
      }
      SealPerforms(before, steps, View(Running(left, {key})), left, key, result);
      attempts := attempts[key := result];
      more := steps + [Seal(key, result)];
    }

    /** A child process between its two markers, until it exits. An invocation may also end before the first marker,
        or with it when the process could not be created; if the second marker cannot be written the child is killed
        and the exception goes on. */
    method RunChild(key: Key, calm: bool, ghost todo: set<Key>, ghost before: State, ghost steps: seq<Step>)
      returns (ok: bool, ghost more: seq<Step>)
      requires key !in markers && key !in launched && key !in alive
      requires Performs(before, steps, View(Running(todo, {key})))
      modifies this`markers, this`launched, this`alive
      ensures alive == old(alive) && OnlyLaunched({key}, old(markers), old(launched), markers, launched)
      ensures Performs(before, more, View(Running(todo, {key})))
      ensures calm ==> ok && key in launched && key in markers && markers[key] == Started
    {
      var prepared: bool, created: bool :| calm ==> prepared && created;
      ok, more := *, steps;
      if !prepared { return; }
      IntentPerforms(before, steps, View(Running(todo, {key})), todo, key);
      more := steps + [RecordIntent(key)];
      markers := markers[key := LaunchIntent];
      if !created { return; }
      ok, more := Child(key, calm, todo, before, more);
    }

    method Child(key: Key, calm: bool, ghost todo: set<Key>, ghost before: State, ghost steps: seq<Step>)
      returns (ok: bool, ghost more: seq<Step>)
      requires key in markers && key !in launched && key !in alive
      requires Performs(before, steps, View(Running(todo, {key})))
      modifies this`markers, this`launched, this`alive
      ensures alive == old(alive) && OnlyLaunched({key}, old(markers), old(launched), markers, launched)
      ensures Performs(before, more, View(Running(todo, {key})))
      ensures key in launched && (ok || calm ==> key in markers && markers[key] == Started) && (calm ==> ok)
    {
      LaunchPerforms(before, steps, View(Running(todo, {key})), todo, key);
      more := steps + [Launch(key)];
      launched, alive := launched + {key}, alive + {key};
      var recorded: bool :| calm ==> recorded;
      if recorded {
        StartedPerforms(before, more, View(Running(todo, {key})), todo, key);
        more := more + [RecordStarted(key)];
        markers := markers[key := Started];
      }
      ExitPerforms(before, more, View(Running(todo, {key})), key);
      more := more + [ChildExits(key)];
      alive := alive - {key};
      var raised: bool :| calm ==> !raised;
      ok := recorded && !raised;
    }

    /** One ledger row per selected attempt, in order, and the verdict over all rows. */
    method BuildLedger(specs: seq<Key>, initial: map<Key, Status>, executed: map<Key, Status>, ghost before: State)
      returns (rows: seq<LedgerRow>, pass: bool)
      requires forall key :: key in specs ==> key in initial && initial[key] == Classify(before, key)
      ensures rows == Ledger(specs, before, executed)
      ensures pass <==> AllPass(rows)
    {
      rows, pass := [], true;
      for i := 0 to |specs|
        invariant |rows| == i
        invariant forall k :: 0 <= k < i ==> rows[k] == RowFor(specs[k], Classify(before, specs[k]), executed)
        invariant pass <==> AllPass(rows)
      {
        assert specs[i] in specs;
        var row := RowFor(specs[i], initial[specs[i]], executed);
        assert AllPass(rows + [row]) <==> AllPass(rows) && RowPasses(row) by {
          assert (rows + [row])[..i] == rows && (rows + [row])[i] == row;
        }
        pass := pass && RowPasses(row);
        rows := rows + [row];
      }
    }

    /** The locked part of a run, from the schedule to the release of the lock, with its ledger and verdict. `calm` says
        that no cancellation is asked for and no invocation raises. */
    method RunSelected(specs: seq<Key>, outcome: Key -> Status, calm: bool)
      returns (r: RunEnd, ghost executed: map<Key, Status>, ghost steps: seq<Step>)
      requires DistinctKeys(specs) && Inv(View(Free))
      requires forall key :: outcome(key) in TERMINAL
      modifies this`attempts, this`markers, this`launched, this`alive
      ensures Performs(Scheduled(old(View(Free)), Keys(specs)), steps, View(Free)) && steps != []
      ensures steps[|steps| - 1] == Finish
      ensures EndTells(r, specs, old(View(Free)), executed, View(Free), outcome)
      ensures calm ==> r.Reported? && !r.result.cancelled
    {
      ghost var s0 := View(Free);
      var initial := map key | key in specs :: StatusOf(key);
      var order := Selected(specs);
      assert Keys(order) == Unstarted(s0, Keys(specs));
      UnstartedAreUntouched(s0, Keys(specs), order);
      var done, end, results;
      ghost var left;
      done, end, results, left, steps := Execute(order, outcome, calm);
      executed := results;
      ClosingPerforms(Scheduled(s0, Keys(specs)), steps, View(Running(left, {})), !end.Completed?);
      steps := steps + Closing(!end.Completed?);
      if end.Raised? {
        HaltedTells(specs, s0, View(Free), order, done, outcome);
        return Unreported, executed, steps;
      }
      var rows, pass := BuildLedger(specs, initial, results, s0);
      SelectedTells(order, done, outcome, s0, View(Free), executed, specs);
      EarlierUntouched(order, done, outcome, s0, View(Free), executed, Keys(specs));
      r := Reported(RunResult(SortRows(rows), pass, end.Cancelled?));
    }

    /** A run of the base attempts of the planned cells. */
    method RunBasePlan(cells: set<Cell>, specs: seq<Key>, outcome: Key -> Status, calm: bool)
      returns (r: Option<RunEnd>, ghost executed: map<Key, Status>, ghost steps: seq<Step>)
      requires DistinctKeys(specs) && Keys(specs) == BaseKeys(cells) && Inv(View(Free))
      requires forall key :: outcome(key) in TERMINAL
      modifies this`attempts, this`markers, this`launched, this`alive
      ensures r.Some? <==> specs != []
      ensures r.None? ==> steps == []
      ensures r.Some? ==> steps != [] && steps[0] == RunBase(cells) && steps[|steps| - 1] == Finish
      ensures Performs(old(View(Free)), steps, View(Free)) && Inv(View(Free))
      ensures r.Some? ==> EndTells(r.value, specs, old(View(Free)), executed, View(Free), outcome)
      ensures r.Some? && calm ==> r.value.Reported? && !r.value.result.cancelled
    {
      ghost var s0 := View(Free);
      executed, steps := map[], [];
      if specs == [] { return None, executed, steps; }
      var end;
      end, executed, steps := RunSelected(specs, outcome, calm);
      LockedPerforms(s0, RunBase(cells), Keys(specs), steps, View(Free));
      steps := [RunBase(cells)] + steps;
      r := Some(end);
    }

    /** A run of the attempts of one retry plan; it is validated before anything starts. */
    method RunRetryPlan(index: nat, specs: seq<Key>, outcome: Key -> Status, calm: bool)
      returns (r: Option<RunEnd>, ghost executed: map<Key, Status>, ghost steps: seq<Step>)
      requires index < |plans| && DistinctKeys(specs) && Keys(specs) == EntryKeys(plans[index]) && Inv(View(Free))
      requires forall key :: outcome(key) in TERMINAL
      modifies this`attempts, this`markers, this`launched, this`alive
      ensures r.Some? <==> specs != [] && old(Enabled(View(Free), RunRetry(index)))
      ensures r.None? ==> steps == []
      ensures r.Some? ==> steps != [] && steps[0] == RunRetry(index) && steps[|steps| - 1] == Finish
      ensures Performs(old(View(Free)), steps, View(Free)) && Inv(View(Free))
      ensures r.Some? ==> EndTells(r.value, specs, old(View(Free)), executed, View(Free), outcome)
      ensures r.Some? && calm ==> r.value.Reported? && !r.value.result.cancelled
    {
      ghost var s0 := View(Free);
      executed, steps := map[], [];
      if specs == [] { return None, executed, steps; }
      var valid := ValidateRetryRun(index);
      if !valid { return None, executed, steps; }
      var end;
      end, executed, steps := RunSelected(specs, outcome, calm);
      LockedPerforms(s0, RunRetry(index), Keys(specs), steps, View(Free));
      steps := [RunRetry(index)] + steps;
      r := Some(end);
    }

    /** The selected attempts that have no directory, in order. */
    method Selected(specs: seq<Key>) returns (order: seq<Key>)
      requires DistinctKeys(specs)
      ensures forall key :: key in order <==> key in specs && StatusOf(key) == Planned
      ensures DistinctKeys(order)
    {
      order := [];
      for i := 0 to |specs|
        invariant forall key :: key in order <==> key in specs[..i] && StatusOf(key) == Planned
        invariant forall k, j :: 0 <= k < j < |order| ==> order[k] != order[j]
      {
        if StatusOf(specs[i]) == Planned {
          assert specs[i] !in specs[..i];
          order := order + [specs[i]];
        }
        assert specs[..i + 1] == specs[..i] + [specs[i]];
      }
      assert specs[..|specs|] == specs;
    }
  }
}
