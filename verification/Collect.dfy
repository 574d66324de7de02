/** Collecting the results of a batch: one successful attempt per profile and shard, validated and covered, in one table
    per profile. */
module Collect {
  import opened Wrappers
  import opened Text
  import B = Batch
  import C = RetryChain
  import E = Evaluate
  import P = Planning
  import R = BatchRun
  import S = Schema

  datatype Problem = NotOneSuccess(shard: string, found: nat) | SchemaMismatch(shard: string)
    | CoverageMismatch(shard: string)

  /** One profile's part of a collection: its result rows in table order, its problems, and its audit. */
  datatype Part = Part(table: seq<S.Json>, problems: seq<Problem>, pass: bool)

  datatype Collection = Collection(parts: seq<Part>, pass: bool)

  // ----- The attempts that count -----

  function Winners(s: B.State, cell: B.Cell, n: nat): seq<B.AttemptId>
    requires n <= |s.plans|
  {
    if n == 0 then (if B.Classify(s, B.Key(cell, B.BASE)) == B.Success then [B.BASE] else [])
    else
      var entries := s.plans[n - 1].entries;
      Winners(s, cell, n - 1)
      + (if cell in entries && B.Classify(s, B.Key(cell, entries[cell].attempt)) == B.Success
        then [entries[cell].attempt] else [])
  }

  /** The successful attempts of a profile and shard, the base first and then in listing order. */
  function Successes(s: B.State, cell: B.Cell): seq<B.AttemptId> {
    Winners(s, cell, |s.plans|)
  }

  ghost predicate WinnersWon(s: B.State, cell: B.Cell, n: nat)
    requires n <= |s.plans|
  {
    && (forall id :: id in Winners(s, cell, n) ==>
      B.IsSibling(s.plans, B.Key(cell, id)) && B.Classify(s, B.Key(cell, id)) == B.Success)
    && (forall id :: id in Winners(s, cell, n) && id != B.BASE ==>
          exists k :: 0 <= k < n && cell in s.plans[k].entries && s.plans[k].entries[cell].attempt == id)
  }

  lemma {:induction false} WinnersAreSuccesses(s: B.State, cell: B.Cell, n: nat)
    requires n <= |s.plans|
    ensures WinnersWon(s, cell, n)
  {
    if n > 0 {
      WinnersAreSuccesses(s, cell, n - 1);
      assert s.plans[n - 1] in s.plans;
    }
  }

  lemma {:induction false} BaseIsWinner(s: B.State, cell: B.Cell, n: nat)
    requires n <= |s.plans| && B.Classify(s, B.Key(cell, B.BASE)) == B.Success
    ensures B.BASE in Winners(s, cell, n)
  {
    if n > 0 { BaseIsWinner(s, cell, n - 1); }
  }

  lemma {:induction false} RetryIsWinner(s: B.State, cell: B.Cell, n: nat, k: nat)
    requires k < n <= |s.plans| && cell in s.plans[k].entries
    requires B.Classify(s, B.Key(cell, s.plans[k].entries[cell].attempt)) == B.Success
    ensures s.plans[k].entries[cell].attempt in Winners(s, cell, n)
  {
    if k < n - 1 { RetryIsWinner(s, cell, n - 1, k); }
  }

  /** After a successful attempt, a later plan's attempt of the cell is another one, and not successful. */
  lemma {:induction false} LaterIsNoWinner(s: B.State, cell: B.Cell, n: nat, id: B.AttemptId)
    requires B.Distinct(s.plans) && B.OneWinner(s) && n < |s.plans| && id in Winners(s, cell, n)
    requires cell in s.plans[n].entries
    ensures B.Classify(s, B.Key(cell, s.plans[n].entries[cell].attempt)) != B.Success
  {
    WinnersAreSuccesses(s, cell, n);
    LaterDiffers(s.plans, cell, n, id);
    assert B.Key(cell, id) != B.Key(cell, s.plans[n].entries[cell].attempt);
  }

  lemma {:induction false} LaterDiffers(plans: seq<B.RetryPlan>, cell: B.Cell, n: nat, id: B.AttemptId)
    requires B.Distinct(plans) && n < |plans| && cell in plans[n].entries
    requires id == B.BASE || exists k :: 0 <= k < n && cell in plans[k].entries && plans[k].entries[cell].attempt == id
    ensures id != plans[n].entries[cell].attempt
  {
    assert plans[n] in plans;
    if id != B.BASE {
      var k :| 0 <= k < n && cell in plans[k].entries && plans[k].entries[cell].attempt == id;
      assert plans[k] in plans && plans[k].name < plans[n].name;
    }
  }

  predicate LaterWins(s: B.State, cell: B.Cell, n: nat)
    requires n < |s.plans|
  {
    cell in s.plans[n].entries && B.Classify(s, B.Key(cell, s.plans[n].entries[cell].attempt)) == B.Success
  }

  ghost predicate Exclusive(s: B.State, cell: B.Cell) {
    forall n :: 0 <= n < |s.plans| && LaterWins(s, cell, n) ==> Winners(s, cell, n) == []
  }

  lemma {:induction false} WinnersExclude(s: B.State, cell: B.Cell)
    requires B.Inv(s)
    ensures Exclusive(s, cell)
  {
    forall n | 0 <= n < |s.plans| && LaterWins(s, cell, n) ensures Winners(s, cell, n) == [] {
      if Winners(s, cell, n) != [] { LaterIsNoWinner(s, cell, n, Winners(s, cell, n)[0]); }
    }
  }

  lemma {:induction false} AtMostOneWinner(s: B.State, cell: B.Cell, n: nat)
    requires Exclusive(s, cell) && n <= |s.plans|
    ensures |Winners(s, cell, n)| <= 1
  {
    if n > 0 {
      AtMostOneWinner(s, cell, n - 1);
      assert LaterWins(s, cell, n - 1) ==> Winners(s, cell, n - 1) == [];
    }
  }

  lemma {:induction false} SuccessIsCandidate(s: B.State, cell: B.Cell)
    requires B.AlreadySucceeded(s, cell)
    ensures Successes(s, cell) != []
  {
    var id :| B.IsSibling(s.plans, B.Key(cell, id)) && B.Classify(s, B.Key(cell, id)) == B.Success;
    if id == B.BASE {
      BaseIsWinner(s, cell, |s.plans|);
    } else {
      var p :| p in s.plans && cell in p.entries && p.entries[cell].attempt == id;
      var k :| 0 <= k < |s.plans| && s.plans[k] == p;
      RetryIsWinner(s, cell, |s.plans|, k);
    }
  }

  lemma {:induction false} OneSuccess(s: B.State, cell: B.Cell)
    requires B.Inv(s)
    ensures |Successes(s, cell)| == if B.AlreadySucceeded(s, cell) then 1 else 0
    ensures forall id :: id in Successes(s, cell) ==> B.Classify(s, B.Key(cell, id)) == B.Success
  {
    WinnersExclude(s, cell);
    AtMostOneWinner(s, cell, |s.plans|);
    WinnersAreSuccesses(s, cell, |s.plans|);
    if Successes(s, cell) != [] { assert Successes(s, cell)[0] in Successes(s, cell); }
    if B.AlreadySucceeded(s, cell) { SuccessIsCandidate(s, cell); }
  }

  /** The attempts to collect. They are not known while a retry plan directory is without its manifest. */
  function Candidates(s: B.State, cell: B.Cell): Option<seq<B.AttemptId>> {
    if B.PlansReadable(s.plans) then Some(Successes(s, cell)) else None
  }

  /** In a state a batch can reach the attempts of all cells can be listed if every retry plan is whole, and then a
      profile and shard has one candidate if any of its attempts succeeded, else none. */
  lemma {:induction false} OneCandidateIffSucceeded(s: B.State, cell: B.Cell)
    requires B.Inv(s)
    ensures Candidates(s, cell).Some? <==> forall p :: p in s.plans ==> p.complete
    ensures Candidates(s, cell).Some? ==>
      && |Candidates(s, cell).value| == (if B.AlreadySucceeded(s, cell) then 1 else 0)
      && forall id :: id in Candidates(s, cell).value ==> B.Classify(s, B.Key(cell, id)) == B.Success
  {
    OneSuccess(s, cell);
  }

  // ----- One shard -----

  predicate ByRecord(a: S.Json, b: S.Json) {
    var (x, y) := (S.Path(a, "record_id"), S.Path(b, "record_id"));
    x.Str? && y.Str? && Le(x.text, y.text)
  }

  /** The rows of one shard's only successful output, in order of record id. */
  function CollectShard(shard: P.Shard, schema: S.Json, found: seq<B.AttemptId>, cell: B.Cell, output: B.Key -> S.Json):
    Result<seq<S.Json>, Problem>
  {
    if |found| != 1 then Err(NotOneSuccess(shard.id, |found|))
    else
      var out := output(B.Key(cell, found[0]));
      if !S.Validates(out, schema) then Err(SchemaMismatch(shard.id))
      else if S.ValidateCoverage(out, shard.records) != S.Pass then Err(CoverageMismatch(shard.id))
      else Ok(SortBy(S.Path(out, "results").items, ByRecord))
  }

  ghost predicate AllNamed(rows: seq<S.Json>) {
    forall i :: 0 <= i < |rows| ==> S.Path(rows[i], "record_id").Str?
  }

  // ----- The ids of rows -----

  function IdsOf(rows: seq<S.Json>): (ids: seq<string>)
    requires AllNamed(rows)
    ensures |ids| == |rows| && forall i :: 0 <= i < |ids| ==> ids[i] == S.RowId(rows[i])
  {
    seq(|rows|, i requires 0 <= i < |rows| => S.RowId(rows[i]))
  }

  lemma {:induction false} ObservedIds(rows: seq<S.Json>)
    requires AllNamed(rows)
    ensures S.Observed(rows) == IdsOf(rows)
  {
    if rows != [] {
      var front := rows[..|rows| - 1];
      ObservedIds(front);
      assert IdsOf(rows) == IdsOf(front) + [S.RowId(rows[|rows| - 1])];
    }
  }

  /** Inserting and sorting rows by record id is inserting and sorting the ids. */
  lemma {:induction false} InsertIds(row: S.Json, rows: seq<S.Json>)
    requires S.Path(row, "record_id").Str? && AllNamed(rows)
    ensures AllNamed(InsertBy(row, rows, ByRecord))
    ensures IdsOf(InsertBy(row, rows, ByRecord)) == InsertBy(S.RowId(row), IdsOf(rows), Le)
  {
    if rows != [] {
      assert ByRecord(row, rows[0]) <==> Le(S.RowId(row), IdsOf(rows)[0]);
      assert IdsOf(rows)[1..] == IdsOf(rows[1..]);
      InsertIds(row, rows[1..]);
    }
  }

  lemma {:induction false} SortIds(rows: seq<S.Json>)
    requires AllNamed(rows)
    ensures AllNamed(SortBy(rows, ByRecord)) && IdsOf(SortBy(rows, ByRecord)) == SortBy(IdsOf(rows), Le)
  {
    if rows != [] {
      SortIds(rows[1..]);
      InsertIds(rows[0], SortBy(rows[1..], ByRecord));
      assert IdsOf(rows)[1..] == IdsOf(rows[1..]);
    }
  }

  lemma {:induction false} SortedIds(rows: seq<S.Json>)
    requires AllNamed(rows)
    ensures SortedBy(rows, ByRecord) <==> SortedBy(IdsOf(rows), Le)
  {
    assert forall i, j :: 0 <= i < j < |rows| ==> (ByRecord(rows[i], rows[j]) <==> Le(IdsOf(rows)[i], IdsOf(rows)[j]));
  }

  ghost predicate ListsRecords(rows: seq<S.Json>, records: seq<string>) {
    AllNamed(rows) && IdsOf(rows) == records
  }

  /** A shard's rows, sorted, are named by exactly the shard's records in order. */
  lemma {:induction false} OutputRows(out: S.Json, schema: S.Json, records: seq<string>)
    requires Distinct(records) && P.Ascending(records) && S.StrictResults(schema)
    requires S.Validates(out, S.Narrowed(schema, records)) && S.ValidateCoverage(out, records) == S.Pass
    ensures ListsRecords(SortBy(S.Path(out, "results").items, ByRecord), records)
  {
    var raw := S.Path(out, "results").items;
    S.OutputFits(out, schema, records);
    S.CoverageIsExactOnce(out, records);
    ObservedIds(raw);
    SortIds(raw);
    SortTextSorts(IdsOf(raw));
    SortKeepsAll(IdsOf(raw), Le);
    P.AscendingIsSorted(records);
    SortedSame(IdsOf(SortBy(raw, ByRecord)), records);
  }

  // ----- One profile -----

  /** A loaded batch: its shards, the schema of its output, the durable state of its attempts and their stored
      outputs. */
  datatype Store = Store(shards: seq<P.Shard>, schema: S.Json, state: B.State, output: B.Key -> S.Json)

  /** What loading a plan has checked, and planning has made sure of. */
  ghost predicate Collectable(store: Store) {
    && Distinct(P.Records(store.shards)) && SortedBy(P.Records(store.shards), Le) && S.StrictResults(store.schema)
    && forall k :: 0 <= k < |store.shards| ==> S.Specialize(store.schema, store.shards[k].records).Some?
  }

  function ShardOf(store: Store, profile: B.Profile, k: nat): Result<seq<S.Json>, Problem>
    requires k < |store.shards| && S.StrictResults(store.schema)
  {
    var cell := B.Cell(profile, k);
    CollectShard(store.shards[k], S.Narrowed(store.schema, store.shards[k].records), Successes(store.state, cell),
      cell, store.output)
  }

  function Outcomes(store: Store, profile: B.Profile): (r: seq<Result<seq<S.Json>, Problem>>)
    requires S.StrictResults(store.schema)
    ensures |r| == |store.shards| && forall k :: 0 <= k < |r| ==> r[k] == ShardOf(store, profile, k)
  {
    seq(|store.shards|, k requires 0 <= k < |store.shards| => ShardOf(store, profile, k))
  }

  function Gather(outcomes: seq<Result<seq<S.Json>, Problem>>): (seq<S.Json>, seq<Problem>) {
    if outcomes == [] then ([], [])
    else
      var (rows, problems) := Gather(outcomes[..|outcomes| - 1]);
      match outcomes[|outcomes| - 1]
      case Ok(more) => (rows + more, problems)
      case Err(problem) => (rows, problems + [problem])
  }

  function Audit(store: Store, rows: seq<S.Json>, problems: seq<Problem>): Part {
    Part(SortBy(rows, ByRecord), problems, S.Covers(S.Observed(rows), P.Records(store.shards)) && problems == [])
  }

  function PartOf(store: Store, profile: B.Profile): Part
    requires S.StrictResults(store.schema)
  {
    var (rows, problems) := Gather(Outcomes(store, profile));
    Audit(store, rows, problems)
  }

  datatype Refusal = RetryPlanUnreadable

  /** What collecting gives for a profile: nothing for any of them if a retry plan of any of them cannot be read. */
  function Collected(store: Store, profile: B.Profile): Result<Part, Refusal>
    requires S.StrictResults(store.schema)
  {
    if B.PlansReadable(store.state.plans) then Ok(PartOf(store, profile)) else Err(RetryPlanUnreadable)
  }

  predicate Passes(collected: Result<Part, Refusal>) {
    collected.Ok? && collected.value.pass
  }

  /** The profile's collection passes and its table lists exactly these records. */
  ghost predicate Lists(collected: Result<Part, Refusal>, records: seq<string>) {
    Passes(collected) && ListsRecords(collected.value.table, records)
  }

  lemma {:induction false} RecordsSnoc(shards: seq<P.Shard>, n: nat)
    requires n < |shards|
    ensures P.Records(shards[..n + 1]) == P.Records(shards[..n]) + shards[n].records
  {
    assert shards[..n + 1][..n] == shards[..n];
  }

  lemma {:induction false} RecordsPrefix(shards: seq<P.Shard>, n: nat)
    requires n <= |shards|
    ensures P.Records(shards[..n]) <= P.Records(shards)
    decreases |shards| - n
  {
    if n == |shards| {
      assert shards[..n] == shards;
    } else {
      RecordsSnoc(shards, n);
      RecordsPrefix(shards, n + 1);
    }
  }

  lemma {:induction false} PartInOrder(whole: seq<string>, a: seq<string>, b: seq<string>)
    requires Distinct(whole) && SortedBy(whole, Le) && a + b <= whole
    ensures Distinct(b) && P.Ascending(b)
  {
    forall i, j | 0 <= i < j < |b| ensures b[i] != b[j] && Le(b[i], b[j]) {
      assert whole[|a| + i] == (a + b)[|a| + i] && whole[|a| + j] == (a + b)[|a| + j];
    }
    P.AscendingIsSorted(b);
  }

  lemma {:induction false} ShardInOrder(store: Store, k: nat)
    requires Collectable(store) && k < |store.shards|
    ensures Distinct(store.shards[k].records) && P.Ascending(store.shards[k].records)
  {
    RecordsSnoc(store.shards, k);
    RecordsPrefix(store.shards, k + 1);
    PartInOrder(P.Records(store.shards), P.Records(store.shards[..k]), store.shards[k].records);
  }

  lemma {:induction false} ShardLists(store: Store, profile: B.Profile, k: nat)
    requires Collectable(store) && k < |store.shards| && ShardOf(store, profile, k).Ok?
    ensures ListsRecords(ShardOf(store, profile, k).value, store.shards[k].records)
  {
    ShardInOrder(store, k);
    OutputRows(store.output(B.Key(B.Cell(profile, k), Successes(store.state, B.Cell(profile, k))[0])), store.schema,
               store.shards[k].records);
  }

  lemma {:induction false} ListsMore(rows: seq<S.Json>, more: seq<S.Json>, a: seq<string>, b: seq<string>)
    requires ListsRecords(rows, a) && ListsRecords(more, b)
    ensures ListsRecords(rows + more, a + b)
  {
  }

  lemma {:induction false} GatherSnoc(front: seq<Result<seq<S.Json>, Problem>>, last: Result<seq<S.Json>, Problem>)
    ensures Gather(front + [last]) ==
      if last.Ok? then (Gather(front).0 + last.value, Gather(front).1)
        else (Gather(front).0, Gather(front).1 + [last.error])
  {
    assert (front + [last])[..|front|] == front;
  }

  lemma {:induction false} GatherClean(outcomes: seq<Result<seq<S.Json>, Problem>>)
    ensures Gather(outcomes).1 == [] <==> forall k :: 0 <= k < |outcomes| ==> outcomes[k].Ok?
  {
    if outcomes != [] { GatherClean(outcomes[..|outcomes| - 1]); }
  }

  lemma {:induction false} GatherLists(outcomes: seq<Result<seq<S.Json>, Problem>>, shards: seq<P.Shard>)
    requires |outcomes| == |shards|
    requires forall k :: 0 <= k < |shards| ==> outcomes[k].Ok? && ListsRecords(outcomes[k].value, shards[k].records)
    ensures ListsRecords(Gather(outcomes).0, P.Records(shards))
  {
    if outcomes != [] {
      var n := |outcomes| - 1;
      GatherLists(outcomes[..n], shards[..n]);
      ListsMore(Gather(outcomes[..n]).0, outcomes[n].value, P.Records(shards[..n]), shards[n].records);
    }
  }

  /** A profile's audit passes exactly when no shard recorded a problem, and then its table lists exactly the planned
      records, once each and in order. */
  lemma {:induction false} AuditPassesIffNoProblems(store: Store, profile: B.Profile)
    requires Collectable(store)
    ensures var part := PartOf(store, profile);
      && (part.pass <==> part.problems == [])
      && (part.pass ==> ListsRecords(part.table, P.Records(store.shards)))
      && (part.pass <==> forall k :: 0 <= k < |store.shards| ==> ShardOf(store, profile, k).Ok?)
  {
    var outcomes := Outcomes(store, profile);
    GatherClean(outcomes);
    if Gather(outcomes).1 == [] {
      forall k | 0 <= k < |store.shards|
        ensures outcomes[k].Ok? && ListsRecords(outcomes[k].value, store.shards[k].records) {
        assert outcomes[k] == ShardOf(store, profile, k);
        ShardLists(store, profile, k);
      }
      GatherLists(outcomes, store.shards);
      CleanAudit(store, Gather(outcomes).0);
    }
  }

  lemma {:induction false} CleanAudit(store: Store, rows: seq<S.Json>)
    requires Collectable(store) && ListsRecords(rows, P.Records(store.shards))
    ensures Audit(store, rows, []) == Part(rows, [], true)
  {
    ObservedIds(rows);
    SortedIds(rows);
    SortedIsKept(rows, ByRecord);
  }

  // ----- What a part records of its shards -----

  /** The attempt is listed for the cell, and successful. */
  ghost predicate ListedSuccess(s: B.State, cell: B.Cell, id: B.AttemptId) {
    B.IsSibling(s.plans, B.Key(cell, id)) && B.Classify(s, B.Key(cell, id)) == B.Success
  }

  lemma {:induction false} TheSuccess(s: B.State, cell: B.Cell, id: B.AttemptId)
    requires B.Inv(s) && ListedSuccess(s, cell, id)
    ensures Successes(s, cell) == [id]
  {
    OneSuccess(s, cell);
    var found := Successes(s, cell);
    assert found[0] in found;
    assert B.Classify(s, B.Key(cell, found[0])) == B.Success;
  }

  /** A shard without a successful attempt is recorded as such; with one, its rows are those of that attempt's output if
      the output fits the shard's schema and covers its records, and otherwise the first check it fails is recorded. */
  lemma {:induction false} ShardIsExact(store: Store, profile: B.Profile, k: nat, id: B.AttemptId)
    requires S.StrictResults(store.schema) && B.Inv(store.state) && k < |store.shards|
    ensures var (cell, shard, r) := (B.Cell(profile, k), store.shards[k], ShardOf(store, profile, k));
      && (r == Err(NotOneSuccess(shard.id, 0)) <==> forall other :: !ListedSuccess(store.state, cell, other))
      && (ListedSuccess(store.state, cell, id) ==>
        var out := store.output(B.Key(cell, id));
        var valid := S.Validates(out, S.Narrowed(store.schema, shard.records));
        var covers := S.ValidateCoverage(out, shard.records) == S.Pass;
        && (r == Err(SchemaMismatch(shard.id)) <==> !valid)
        && (r == Err(CoverageMismatch(shard.id)) <==> valid && !covers)
        && (r.Ok? <==> valid && covers)
        && (r.Ok? ==> multiset(r.value) == multiset(S.Path(out, "results").items)))
  {
    var cell := B.Cell(profile, k);
    OneSuccess(store.state, cell);
    if ListedSuccess(store.state, cell, id) {
      TheSuccess(store.state, cell, id);
      var out := store.output(B.Key(cell, id));
      if ShardOf(store, profile, k).Ok? { SortKeepsAll(S.Path(out, "results").items, ByRecord); }
    }
    if B.AlreadySucceeded(store.state, cell) {
      var other :| B.IsSibling(store.state.plans, B.Key(cell, other))
        && B.Classify(store.state, B.Key(cell, other)) == B.Success;
      assert ListedSuccess(store.state, cell, other);
    }
  }

  ghost predicate ProblemsAt(outcomes: seq<Result<seq<S.Json>, Problem>>, problems: seq<Problem>, at: seq<int>) {
    && |at| == |problems|
    && (forall i :: 0 <= i < |at| ==> 0 <= at[i] < |outcomes| && outcomes[at[i]] == Err(problems[i]))
    && (forall i, j :: 0 <= i < j < |at| ==> at[i] < at[j])
    && (forall k :: 0 <= k < |outcomes| && outcomes[k].Err? ==> k in at)
  }

  lemma {:induction false} GatheredProblems(outcomes: seq<Result<seq<S.Json>, Problem>>) returns (at: seq<int>)
    ensures ProblemsAt(outcomes, Gather(outcomes).1, at)
  {
    at := [];
    if outcomes != [] {
      var n := |outcomes| - 1;
      at := GatheredProblems(outcomes[..n]);
      NextProblem(outcomes, Gather(outcomes[..n]).1, at);
      if outcomes[n].Err? { at := at + [n]; }
    }
  }

  lemma {:induction false} NextProblem(outcomes: seq<Result<seq<S.Json>, Problem>>, problems: seq<Problem>,
                                       at: seq<int>)
    requires outcomes != [] && ProblemsAt(outcomes[..|outcomes| - 1], problems, at)
    ensures var last := outcomes[|outcomes| - 1];
      ProblemsAt(outcomes, if last.Err? then problems + [last.error] else problems,
                 if last.Err? then at + [|outcomes| - 1] else at)
  {
    var n := |outcomes| - 1;
    forall k | 0 <= k < n && outcomes[k].Err? ensures k in at { assert outcomes[..n][k] == outcomes[k]; }
  }

  ghost predicate GivenBy(outcomes: seq<Result<seq<S.Json>, Problem>>, row: S.Json) {
    exists k :: 0 <= k < |outcomes| && outcomes[k].Ok? && row in outcomes[k].value
  }

  lemma {:induction false} GatheredRows(outcomes: seq<Result<seq<S.Json>, Problem>>, row: S.Json)
    ensures row in Gather(outcomes).0 <==> GivenBy(outcomes, row)
  {
    if outcomes != [] {
      var n := |outcomes| - 1;
      GatheredRows(outcomes[..n], row);
      if GivenBy(outcomes[..n], row) {
        var k :| 0 <= k < n && outcomes[..n][k].Ok? && row in outcomes[..n][k].value;
        assert outcomes[k].Ok? && row in outcomes[k].value;
      }
      if GivenBy(outcomes, row) {
        var k :| 0 <= k < |outcomes| && outcomes[k].Ok? && row in outcomes[k].value;
        if k < n { assert outcomes[..n][k] == outcomes[k]; }
      }
    }
  }

  /** A part has the problems of exactly the shards that have one, in the order of the shards, and in its table exactly
      the rows of the others. */
  lemma {:induction false} PartIsExact(store: Store, profile: B.Profile) returns (at: seq<int>)
    requires S.StrictResults(store.schema)
    ensures ProblemsAt(Outcomes(store, profile), PartOf(store, profile).problems, at)
    ensures forall row :: row in PartOf(store, profile).table <==> exists k ::
      0 <= k < |store.shards| && ShardOf(store, profile, k).Ok? && row in ShardOf(store, profile, k).value
  {
    var outcomes := Outcomes(store, profile);
    at := GatheredProblems(outcomes);
    SortKeepsAll(Gather(outcomes).0, ByRecord);
    forall row ensures row in PartOf(store, profile).table <==> exists k ::
      0 <= k < |store.shards| && ShardOf(store, profile, k).Ok? && row in ShardOf(store, profile, k).value
    {
      GatheredRows(outcomes, row);
      if row in PartOf(store, profile).table {
        var k :| 0 <= k < |outcomes| && outcomes[k].Ok? && row in outcomes[k].value;
        assert outcomes[k] == ShardOf(store, profile, k);
      }
      if k :| 0 <= k < |store.shards| && ShardOf(store, profile, k).Ok? && row in ShardOf(store, profile, k).value {
        assert outcomes[k] == ShardOf(store, profile, k);
      }
    }
  }

  // ----- Which collections pass -----

  /** Every successful attempt was interpreted under a contract that asks for more than the default, and its output is
      stored as it was found to be. */
  ghost predicate StrictlyEvaluated(store: Store, key: B.Key)
    requires key.cell.shard < |store.shards| && S.StrictResults(store.schema)
  {
    exists capture, task: E.Task, runtime, timedOut, cancelled ::
      && task.contract != E.DEFAULT && task.schema == S.Narrowed(store.schema, store.shards[key.cell.shard].records)
      && Produced(store.output(key), capture, task, runtime, timedOut, cancelled)
  }

  ghost predicate Produced(output: S.Json, capture: E.Capture, task: E.Task, runtime: E.Runtime, timedOut: bool,
                           cancelled: bool) {
    var r := E.Evaluated(capture, task, runtime, timedOut, cancelled);
    r.failure.None? && r.output.Some? && r.output.value.Parsed? && r.output.value.json == output
  }

  lemma {:induction false} ProducedIsCovered(output: S.Json, capture: E.Capture, task: E.Task, runtime: E.Runtime,
                                             timedOut: bool, cancelled: bool)
    requires Produced(output, capture, task, runtime, timedOut, cancelled) && task.contract != E.DEFAULT
    ensures S.Validates(output, task.schema) && S.CoverageBySchema(output, task.schema) in {S.Pass, S.NotApplicable}
  {
    E.SuccessMeans(capture, task, runtime, timedOut, cancelled);
    E.PassMeans(capture, task, runtime);
  }

  ghost predicate AllStrict(store: Store)
    requires S.StrictResults(store.schema)
  {
    forall key: B.Key :: key.cell.shard < |store.shards| && B.Classify(store.state, key) == B.Success ==>
      StrictlyEvaluated(store, key)
  }

  lemma {:induction false} StrictShardCollects(store: Store, profile: B.Profile, k: nat)
    requires Collectable(store) && B.Inv(store.state) && AllStrict(store) && k < |store.shards|
    ensures ShardOf(store, profile, k).Ok? <==> B.AlreadySucceeded(store.state, B.Cell(profile, k))
  {
    var cell, records := B.Cell(profile, k), store.shards[k].records;
    OneSuccess(store.state, cell);
    var found := Successes(store.state, cell);
    if found != [] {
      assert found[0] in found;
      var key := B.Key(cell, found[0]);
      assert StrictlyEvaluated(store, key);
      StrictOutputPasses(store, key);
    }
  }

  lemma {:induction false} StrictOutputPasses(store: Store, key: B.Key)
    requires Collectable(store) && key.cell.shard < |store.shards| && StrictlyEvaluated(store, key)
    ensures var records := store.shards[key.cell.shard].records;
      S.Validates(store.output(key), S.Narrowed(store.schema, records))
        && S.ValidateCoverage(store.output(key), records) == S.Pass
  {
    var records := store.shards[key.cell.shard].records;
    var capture, task: E.Task, runtime, timedOut, cancelled :|
      && task.contract != E.DEFAULT && task.schema == S.Narrowed(store.schema, records)
      && Produced(store.output(key), capture, task, runtime, timedOut, cancelled);
    ProducedIsCovered(store.output(key), capture, task, runtime, timedOut, cancelled);
    CoveredBySchema(store.output(key), store.schema, records);
  }

  lemma {:induction false} CoveredBySchema(output: S.Json, schema: S.Json, records: seq<string>)
    requires S.Specialize(schema, records).Some? && S.StrictResults(schema)
    requires S.CoverageBySchema(output, S.Narrowed(schema, records)) in {S.Pass, S.NotApplicable}
    ensures S.ValidateCoverage(output, records) == S.Pass
  {
    S.BothCoverageChecksAgree(output, schema, records);
  }

  /** In any state a batch can reach, with every success strictly evaluated, a profile's collection passes exactly when
      every retry plan of the batch can be read and each of the profile's shards has a successful attempt, first or
      retried. */
  lemma {:induction false} CollectsIffAllSucceeded(store: Store, profile: B.Profile, steps: seq<B.Step>)
    requires Collectable(store) && AllStrict(store) && B.ValidRun(B.INIT, steps) && store.state == B.Run(B.INIT, steps)
    ensures Passes(Collected(store, profile))
      <==> (&& B.PlansReadable(store.state.plans)
            && forall k :: 0 <= k < |store.shards| ==> B.AlreadySucceeded(store.state, B.Cell(profile, k)))
    ensures Passes(Collected(store, profile)) ==> Lists(Collected(store, profile), P.Records(store.shards))
  {
    B.RunKeepsInv(B.INIT, steps);
    AuditPassesIffNoProblems(store, profile);
    forall k | 0 <= k < |store.shards|
      ensures ShardOf(store, profile, k).Ok? <==> B.AlreadySucceeded(store.state, B.Cell(profile, k)) {
      StrictShardCollects(store, profile, k);
    }
  }

  /** Once all base attempts of a profile have succeeded, whatever happens afterwards, its collection passes exactly
      when the retry plans can be read, which are then plans of other profiles, and lists the planned records. */
  lemma {:induction false} PassedRunCollects(store: Store, profile: B.Profile, before: seq<B.Step>, after: seq<B.Step>)
    requires Collectable(store) && AllStrict(store)
    requires B.ValidRun(B.INIT, before) && B.ValidRun(B.Run(B.INIT, before), after)
    requires store.state == B.Run(B.Run(B.INIT, before), after)
    requires forall k :: 0 <= k < |store.shards| ==>
      B.Classify(B.Run(B.INIT, before), B.Key(B.Cell(profile, k), B.BASE)) == B.Success
    ensures Passes(Collected(store, profile)) <==> B.PlansReadable(store.state.plans)
    ensures Passes(Collected(store, profile)) ==> Lists(Collected(store, profile), P.Records(store.shards))
    ensures forall p, k :: p in store.state.plans && 0 <= k < |store.shards| ==> B.Cell(profile, k) !in p.entries
  {
    var middle := B.Run(B.INIT, before);
    B.RunKeepsInv(B.INIT, before);
    B.RunKeepsInv(middle, after);
    forall k | 0 <= k < |store.shards|
      ensures B.Classify(store.state, B.Key(B.Cell(profile, k), B.BASE)) == B.Success {
      assert B.Classify(middle, B.Key(B.Cell(profile, k), B.BASE)) == B.Success;
      B.OutcomesAreFinal(middle, after, B.Key(B.Cell(profile, k), B.BASE));
    }
    forall k | 0 <= k < |store.shards| ensures ShardOf(store, profile, k).Ok? {
      BaseSuccessStands(store, profile, k);
    }
    ShardsStand(store, profile);
    forall p, k | p in store.state.plans && 0 <= k < |store.shards| ensures B.Cell(profile, k) !in p.entries {
      NotRetried(store.state, p, B.Cell(profile, k));
    }
  }

  lemma {:induction false} NotRetried(s: B.State, p: B.RetryPlan, cell: B.Cell)
    requires B.RetriesPresuppose(s) && p in s.plans && B.Classify(s, B.Key(cell, B.BASE)) == B.Success
    ensures cell !in p.entries
  {
    if cell in p.entries { B.PlanMeansBaseIsOver(s, p, cell); }
  }

  lemma {:induction false} BaseSuccessStands(store: Store, profile: B.Profile, k: nat)
    requires Collectable(store) && AllStrict(store) && B.Inv(store.state) && k < |store.shards|
    requires B.Classify(store.state, B.Key(B.Cell(profile, k), B.BASE)) == B.Success
    ensures ShardOf(store, profile, k).Ok?
  {
    assert B.IsSibling(store.state.plans, B.Key(B.Cell(profile, k), B.BASE));
    StrictShardCollects(store, profile, k);
  }

  lemma {:induction false} ShardsStand(store: Store, profile: B.Profile)
    requires Collectable(store) && forall k :: 0 <= k < |store.shards| ==> ShardOf(store, profile, k).Ok?
    ensures Passes(Collected(store, profile)) <==> B.PlansReadable(store.state.plans)
    ensures Passes(Collected(store, profile)) ==> Lists(Collected(store, profile), P.Records(store.shards))
  {
    AuditPassesIffNoProblems(store, profile);
  }

  /** The output schema can be specialized for every shard, as planning checks when it writes the tasks. */
  ghost predicate Tasked(store: Store) {
    S.StrictResults(store.schema)
    && forall k :: 0 <= k < |store.shards| ==> S.Specialize(store.schema, store.shards[k].records).Some?
  }

  /** What the loader accepts can be collected. */
  lemma {:induction false} LoadedIsCollectable(plan: P.Plan, store: Store)
    requires P.Load(plan) == Some(store.shards) && Tasked(store)
    ensures Collectable(store)
  {
    SortTextSorts(P.Records(store.shards));
  }

  /** The profiles and shards of a batch. */
  function Cells(profiles: nat, shards: nat): set<B.Cell> {
    set p, k | 0 <= p < profiles && 0 <= k < shards :: B.Cell(p, k)
  }

  /** The run's rows, all of them passing, cover the base attempt of every profile and shard. */
  ghost predicate PassedAll(rows: seq<R.LedgerRow>, specs: seq<B.Key>, outset: B.State, s: B.State,
                            outcome: B.Key -> B.Status, profiles: nat, shards: nat) {
    && R.LedgerTells(rows, specs, outset, s, outcome) && R.AllPass(rows)
    && forall p, k :: 0 <= p < profiles && 0 <= k < shards ==> B.Key(B.Cell(p, k), B.BASE) in specs
  }

  lemma {:induction false} PassedAllSucceeded(rows: seq<R.LedgerRow>, specs: seq<B.Key>, outset: B.State, s: B.State,
                                              outcome: B.Key -> B.Status, profiles: nat, shards: nat)
    requires PassedAll(rows, specs, outset, s, outcome, profiles, shards)
    ensures forall p, k :: 0 <= p < profiles && 0 <= k < shards ==>
      B.Classify(s, B.Key(B.Cell(p, k), B.BASE)) == B.Success
  {
    forall p, k | 0 <= p < profiles && 0 <= k < shards
      ensures B.Classify(s, B.Key(B.Cell(p, k), B.BASE)) == B.Success {
      assert B.Key(B.Cell(p, k), B.BASE) in specs;
    }
  }

  lemma {:induction false} AllProfilesCollect(store: Store, profiles: nat, before: seq<B.Step>, after: seq<B.Step>)
    requires Collectable(store) && AllStrict(store)
    requires B.ValidRun(B.INIT, before) && B.ValidRun(B.Run(B.INIT, before), after)
    requires store.state == B.Run(B.Run(B.INIT, before), after)
    requires B.BaseRunsWithin(before, Cells(profiles, |store.shards|))
    requires B.BaseRunsWithin(after, Cells(profiles, |store.shards|))
    requires forall p, k :: 0 <= p < profiles && 0 <= k < |store.shards| ==>
      B.Classify(B.Run(B.INIT, before), B.Key(B.Cell(p, k), B.BASE)) == B.Success
    ensures store.state.plans == []
    ensures forall p :: 0 <= p < profiles ==> Lists(Collected(store, p), P.Records(store.shards))
  {
    B.AllBaseSuccessStaysWithoutRetries(before, after, Cells(profiles, |store.shards|));
    forall p | 0 <= p < profiles ensures Lists(Collected(store, p), P.Records(store.shards)) {
      PassedRunCollects(store, p, before, after);
    }
  }

  /** From planning to the table: if the plan written for some members is loaded, and a run over the base attempts of
      all its profiles and shards reported PASS (with one worker or two, in whatever order), then after anything that
      happens to the batch later there is no retry plan, and every profile's collection passes and lists exactly the
      members in order. */
  lemma {:induction false} ReportedPassCollects(members: seq<string>, source: map<string, string>, size: nat,
                                                store: Store, profiles: nat, rows: seq<R.LedgerRow>, specs: seq<B.Key>,
                                                outset: B.State, outcome: B.Key -> B.Status, before: seq<B.Step>,
                                                after: seq<B.Step>)
    requires size > 0 && P.MembersOk(members, source)
    requires P.Load(P.PlanOf(members, source, size)) == Some(store.shards) && Tasked(store) && AllStrict(store)
    requires B.ValidRun(B.INIT, before) && B.ValidRun(B.Run(B.INIT, before), after)
    requires store.state == B.Run(B.Run(B.INIT, before), after)
    requires B.BaseRunsWithin(before, Cells(profiles, |store.shards|))
    requires B.BaseRunsWithin(after, Cells(profiles, |store.shards|))
    requires PassedAll(rows, specs, outset, B.Run(B.INIT, before), outcome, profiles, |store.shards|)
    ensures store.state.plans == []
    ensures forall p :: 0 <= p < profiles ==> Lists(Collected(store, p), P.Sorted(members))
  {
    LoadedIsCollectable(P.PlanOf(members, source, size), store);
    P.PlanThenLoad(members, source, size);
    P.PartitionIsExact(P.Sorted(members), size);
    PassedAllSucceeded(rows, specs, outset, B.Run(B.INIT, before), outcome, profiles, |store.shards|);
    AllProfilesCollect(store, profiles, before, after);
  }

  // ----- A retry plan that was not finished -----

  const WINNER := B.Key(B.Cell(0, 0), B.BASE)
  const LOSER := B.Key(B.Cell(1, 0), B.BASE)

  const DRAFT := B.RetryPlan(1, map[LOSER.cell := B.Link(B.BASE, 1)], false)

  /** One profile has succeeded, the other has failed, and the process that was to freeze its retry died after creating
      the directory of the plan. */
  const HALF_WRITTEN := B.State([DRAFT], map[WINNER := B.Success, LOSER := B.Failed], map[], {}, {}, B.Free)

  lemma {:induction false} RunOfWinner() returns (steps: seq<B.Step>)
    ensures C.Reached(steps, B.INIT.(attempts := map[WINNER := B.Success], lock := B.Running({LOSER}, {})))
  {
    var s1 := B.INIT.(lock := B.Running({WINNER, LOSER}, {}));
    assert B.Unstarted(B.INIT, B.BaseKeys({WINNER.cell, LOSER.cell})) == {WINNER, LOSER};
    steps := C.Extend([], B.INIT, B.RunBase({WINNER.cell, LOSER.cell}), s1);
    var s2 := s1.(attempts := map[WINNER := B.Incomplete], lock := B.Running({LOSER}, {WINNER}));
    assert {WINNER, LOSER} - {WINNER} == {LOSER} && {} + {WINNER} == {WINNER};
    assert B.Begun(s1, WINNER).attempts == s2.attempts;
    steps := C.Extend(steps, s1, B.Begin(WINNER), s2);
    assert {WINNER} - {WINNER} == {} && s2.attempts[WINNER := B.Success] == map[WINNER := B.Success];
    steps := C.Extend(steps, s2, B.Seal(WINNER, B.Success),
      B.INIT.(attempts := map[WINNER := B.Success], lock := B.Running({LOSER}, {})));
  }

  lemma {:induction false} RunOfBoth() returns (steps: seq<B.Step>)
    ensures C.Reached(steps, HALF_WRITTEN.(plans := []))
  {
    var s3 := B.INIT.(attempts := map[WINNER := B.Success], lock := B.Running({LOSER}, {}));
    steps := RunOfWinner();
    var s4 := s3.(attempts := s3.attempts[LOSER := B.Incomplete], lock := B.Running({}, {LOSER}));
    assert {LOSER} - {LOSER} == {} && {} + {LOSER} == {LOSER};
    steps := C.Extend(steps, s3, B.Begin(LOSER), s4);
    var s5 := s4.(attempts := HALF_WRITTEN.attempts, lock := B.Running({}, {}));
    assert s4.attempts[LOSER := B.Failed] == s5.attempts;
    steps := C.Extend(steps, s4, B.Seal(LOSER, B.Failed), s5);
    steps := C.Extend(steps, s5, B.Finish, HALF_WRITTEN.(plans := []));
  }

  lemma {:induction false} HalfWrittenIsReachable() returns (steps: seq<B.Step>)
    ensures B.ValidRun(B.INIT, steps) && B.Run(B.INIT, steps) == HALF_WRITTEN
  {
    steps := RunOfBoth();
    var s := HALF_WRITTEN.(plans := []);
    assert B.MayRetry(s, LOSER.cell, DRAFT.entries[LOSER.cell]);
    steps := C.Extend(steps, s, B.CreatePlan(1, DRAFT.entries), HALF_WRITTEN.(lock := B.Creating(1)));
    steps := C.Extend(steps, HALF_WRITTEN.(lock := B.Creating(1)), B.Crash, HALF_WRITTEN);
  }

  /** The unfinished plan of one profile keeps the results of the other, all of whose shards succeeded, from being
      collected. */
  lemma {:induction false} UnfinishedPlanBlocksAll(store: Store)
    requires S.StrictResults(store.schema) && store.state == HALF_WRITTEN && |store.shards| == 1
    ensures forall k :: 0 <= k < |store.shards| ==> B.AlreadySucceeded(store.state, B.Cell(0, k))
    ensures Collected(store, 0) == Err(RetryPlanUnreadable)
  {
    assert B.IsSibling(store.state.plans, WINNER) && B.Classify(store.state, WINNER) == B.Success;
    assert DRAFT in store.state.plans;
  }

  // ----- The loops -----

  method CollectProfile(store: Store, profile: B.Profile) returns (part: Part)
    requires S.StrictResults(store.schema)
    ensures part == PartOf(store, profile)
  {
    var rows, problems := [], [];
    ghost var outcomes := Outcomes(store, profile);
    for k := 0 to |store.shards|
      invariant Gather(outcomes[..k]) == (rows, problems)
    {
      assert outcomes[..k + 1] == outcomes[..k] + [outcomes[k]];
      GatherSnoc(outcomes[..k], outcomes[k]);
      var shard, cell := store.shards[k], B.Cell(profile, k);
      var outcome :=
        CollectShard(shard, S.Narrowed(store.schema, shard.records), Successes(store.state, cell), cell, store.output);
      if outcome.Err? {
        problems := problems + [outcome.error];
        continue;
      }
      rows := rows + outcome.value;
    }
    assert outcomes[..|store.shards|] == outcomes;
    part := Audit(store, rows, problems);
  }

  /** The parts of all profiles and whether all of them pass, unless a retry plan cannot be read. */
  method CollectBatch(store: Store, profiles: nat) returns (r: Result<Collection, Refusal>)
    requires S.StrictResults(store.schema)
    ensures r.Ok? <==> forall p :: p in store.state.plans ==> p.complete
    ensures r.Ok? ==> |r.value.parts| == profiles
    ensures r.Ok? ==> forall p :: 0 <= p < profiles ==> Collected(store, p) == Ok(r.value.parts[p])
    ensures r.Ok? && r.value.pass <==> B.PlansReadable(store.state.plans) && forall p :: 0 <= p < profiles ==>
      Passes(Collected(store, p))
  {
    if exists p | p in store.state.plans :: !p.complete { return Err(RetryPlanUnreadable); }
    var parts, pass := [], true;
    for p := 0 to profiles
      invariant |parts| == p && forall q :: 0 <= q < p ==> parts[q] == PartOf(store, q)
      invariant pass <==> forall q :: 0 <= q < p ==> parts[q].pass
    {
      var part := CollectProfile(store, p);
      parts, pass := parts + [part], pass && part.pass;
    }
    assert forall q :: 0 <= q < profiles ==> Collected(store, q) == Ok(parts[q]);
    r := Ok(Collection(parts, pass));
  }
}
