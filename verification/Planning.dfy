/** Splitting a batch into shards, writing the plan, and reading it back. */
module Planning {
  import opened Wrappers
  import opened Text

  /** One line of the shard plan. */
  datatype Row = Row(shard: string, shardIndex: nat, recordIndex: nat, record: string)

  /** The written plan; `inputs` gives the record ids as they stand in each shard's input file. */
  datatype Plan = Plan(rows: seq<Row>, inputs: map<string, seq<string>>, shardCount: nat, recordCount: nat, size: nat)

  datatype Shard = Shard(id: string, index: nat, records: seq<string>)

  function ShardName(index: nat): string {
    "shard-" + Pad4(index)
  }

  // ----- The partition -----

  function ShardCount(n: nat, size: nat): nat
    requires size > 0
  {
    (n + size - 1) / size
  }

  function Cutoff(n: nat, size: nat, k: nat): (c: nat)
    ensures c <= n
  {
    if k * size < n then k * size else n
  }

  lemma {:induction false} CutoffsAdvance(n: nat, size: nat, k: nat)
    requires size > 0
    ensures Cutoff(n, size, 0) == 0 && Cutoff(n, size, k) <= Cutoff(n, size, k + 1) <= Cutoff(n, size, k) + size
    ensures k < ShardCount(n, size) ==> Cutoff(n, size, k) < Cutoff(n, size, k + 1)
    ensures k + 1 < ShardCount(n, size) ==> Cutoff(n, size, k + 1) == Cutoff(n, size, k) + size
    ensures Cutoff(n, size, ShardCount(n, size)) == n
  {
    assert (k + 1) * size == k * size + size;
    var c := ShardCount(n, size);
    assert c * size <= n + size - 1 < c * size + size;
    if k < c { BelowProduct(k, c, size); }
    if k + 1 < c { BelowProduct(k + 1, c, size); }
  }

  lemma {:induction false} BelowProduct(k: nat, c: nat, size: nat)
    requires k < c
    ensures k * size + size <= c * size
  {
    assert c * size == (c - 1) * size + size;
    if k < c - 1 { BelowProduct(k, c - 1, size); }
  }

  function Chunk(ids: seq<string>, size: nat, k: nat): seq<string>
    requires size > 0
  {
    CutoffsAdvance(|ids|, size, k);
    ids[Cutoff(|ids|, size, k)..Cutoff(|ids|, size, k + 1)]
  }

  function Partition(ids: seq<string>, size: nat, n: nat): (shards: seq<Shard>)
    requires size > 0
    ensures |shards| == n
  {
    if n == 0 then [] else Partition(ids, size, n - 1) + [Shard(ShardName(n), n, Chunk(ids, size, n - 1))]
  }

  function Shards(ids: seq<string>, size: nat): seq<Shard>
    requires size > 0
  {
    Partition(ids, size, ShardCount(|ids|, size))
  }

  function Records(shards: seq<Shard>): seq<string> {
    if shards == [] then [] else Records(shards[..|shards| - 1]) + shards[|shards| - 1].records
  }

  lemma {:induction false} PartitionAt(ids: seq<string>, size: nat, n: nat, k: nat)
    requires size > 0 && k < n
    ensures Partition(ids, size, n)[k] == Shard(ShardName(k + 1), k + 1, Chunk(ids, size, k))
  {
    if k < n - 1 { PartitionAt(ids, size, n - 1, k); }
  }

  lemma {:induction false} PartitionRecords(ids: seq<string>, size: nat, n: nat)
    requires size > 0
    ensures Records(Partition(ids, size, n)) == ids[..Cutoff(|ids|, size, n)]
  {
    CutoffsAdvance(|ids|, size, n);
    if n > 0 {
      PartitionRecords(ids, size, n - 1);
      CutoffsAdvance(|ids|, size, n - 1);
      var shards, a, b := Partition(ids, size, n), Cutoff(|ids|, size, n - 1), Cutoff(|ids|, size, n);
      assert shards[..n - 1] == Partition(ids, size, n - 1) && shards[n - 1].records == ids[a..b];
      assert ids[..a] + ids[a..b] == ids[..b];
    }
  }

  /** As many shards as needed and no more, none empty, none too large, all but the last full; together, in order, they
      hold exactly the batch. */
  lemma {:induction false} PartitionIsExact(ids: seq<string>, size: nat)
    requires size > 0
    ensures var shards := Shards(ids, size);
      && Records(shards) == ids && |shards| == ShardCount(|ids|, size)
      && forall k :: 0 <= k < |shards| ==>
           && shards[k].index == k + 1 && shards[k].id == ShardName(k + 1) && 0 < |shards[k].records| <= size
           && (k + 1 < |shards| ==> |shards[k].records| == size)
  {
    var n := ShardCount(|ids|, size);
    CutoffsAdvance(|ids|, size, n);
    PartitionRecords(ids, size, n);
    forall k | 0 <= k < n ensures var s := Shards(ids, size)[k];
      && s.index == k + 1 && s.id == ShardName(k + 1) && 0 < |s.records| <= size
        && (k + 1 < n ==> |s.records| == size) {
      PartitionAt(ids, size, n, k);
      CutoffsAdvance(|ids|, size, k);
    }
  }

  // ----- The written plan -----

  function RowsOf(shard: Shard, n: nat): (rows: seq<Row>)
    requires n <= |shard.records|
    ensures |rows| == n && forall i :: 0 <= i < n ==> rows[i] == Row(shard.id, shard.index, i + 1, shard.records[i])
  {
    if n == 0 then [] else RowsOf(shard, n - 1) + [Row(shard.id, shard.index, n, shard.records[n - 1])]
  }

  function AllRows(shards: seq<Shard>): seq<Row> {
    if shards == [] then []
    else
      var last := shards[|shards| - 1];
      AllRows(shards[..|shards| - 1]) + RowsOf(last, |last.records|)
  }

  /** The ids as the source file spells them; the index of the source is by the id without surrounding space. */
  function Spelled(records: seq<string>, source: map<string, string>): (r: seq<string>)
    requires forall id :: id in records ==> id in source
    ensures |r| == |records| && forall i :: 0 <= i < |r| ==> r[i] == source[records[i]]
  {
    seq(|records|, i requires 0 <= i < |records| => source[records[i]])
  }

  ghost predicate InSource(shards: seq<Shard>, source: map<string, string>) {
    forall k, id :: 0 <= k < |shards| && id in shards[k].records ==> id in source
  }

  function Inputs(shards: seq<Shard>, source: map<string, string>): map<string, seq<string>>
    requires InSource(shards, source)
  {
    if shards == [] then map[]
    else
      var front, last := shards[..|shards| - 1], shards[|shards| - 1];
      Inputs(front, source)[last.id := Spelled(last.records, source)]
  }

  function Write(shards: seq<Shard>, source: map<string, string>, records: nat, size: nat): Plan
    requires InSource(shards, source)
  {
    Plan(AllRows(shards), Inputs(shards, source), |shards|, records, size)
  }

  // ----- Reading a plan -----

  function Group(rows: seq<Row>, name: string): seq<Row> {
    if rows == [] then []
    else
      var last := rows[|rows| - 1];
      Group(rows[..|rows| - 1], name) + (if last.shard == name then [last] else [])
  }

  /** The shard names in order of first appearance. */
  function Names(rows: seq<Row>): seq<string> {
    if rows == [] then []
    else
      var front, name := Names(rows[..|rows| - 1]), rows[|rows| - 1].shard;
      if name in front then front else front + [name]
  }

  predicate Earlier(a: Row, b: Row) {
    a.recordIndex <= b.recordIndex
  }

  function Column(rows: seq<Row>): (r: seq<string>)
    ensures |r| == |rows| && forall i :: 0 <= i < |r| ==> r[i] == rows[i].record
  {
    seq(|rows|, i requires 0 <= i < |rows| => rows[i].record)
  }

  predicate Ascending(s: seq<string>) {
    SortBy(s, Le) == s
  }

  predicate RowsInOrder(rows: seq<Row>, index: nat) {
    forall i :: 0 <= i < |rows| ==> rows[i].shardIndex == index && rows[i].recordIndex == i + 1
  }

  predicate RecordsFit(plan: Plan, name: string, records: seq<string>) {
    Ascending(records) && |records| <= plan.size && name in plan.inputs && plan.inputs[name] == records
  }

  function ReadShard(plan: Plan, index: nat, name: string): Option<Shard> {
    var rows := SortBy(Group(plan.rows, name), Earlier);
    if RowsInOrder(rows, index) && RecordsFit(plan, name, Column(rows)) then Some(Shard(name, index, Column(rows)))
      else None
  }

  function ReadShards(plan: Plan, names: seq<string>): Option<seq<Shard>> {
    if names == [] then Some([])
    else
      var (front, last) := (ReadShards(plan, names[..|names| - 1]), ReadShard(plan, |names|, names[|names| - 1]));
      if front.Some? && last.Some? then Some(front.value + [last.value]) else None
  }

  predicate WholeBatch(records: seq<string>, count: nat) {
    |records| == count && Distinct(records) && Ascending(records)
  }

  function Load(plan: Plan): Option<seq<Shard>> {
    var names := SortBy(Names(plan.rows), Le);
    if |names| != plan.shardCount then None
    else
      var shards := ReadShards(plan, names);
      if shards.Some? && WholeBatch(Records(shards.value), plan.recordCount) then shards else None
  }

  // ----- Which plans are read back -----

  lemma {:induction false} Regroup<T>(a: seq<T>, b: seq<T>, x: T)
    ensures a + (b + [x]) == (a + b) + [x] && a + (b + []) == a + b
  {
  }

  lemma {:induction false} GroupSnoc(rows: seq<Row>, row: Row, name: string)
    ensures Group(rows + [row], name) == Group(rows, name) + (if row.shard == name then [row] else [])
  {
    assert (rows + [row])[..|rows|] == rows;
  }

  lemma {:induction false} NamesSnoc(rows: seq<Row>, row: Row)
    ensures Names(rows + [row]) == if row.shard in Names(rows) then Names(rows) else Names(rows) + [row.shard]
  {
    assert (rows + [row])[..|rows|] == rows;
  }

  /** Rows that all belong to one shard extend its group and no other. */
  lemma {:induction false} GroupOfBlock(rows: seq<Row>, block: seq<Row>, id: string, name: string)
    requires forall i :: 0 <= i < |block| ==> block[i].shard == id
    ensures Group(rows + block, name) == if id == name then Group(rows, name) + block else Group(rows, name)
  {
    if block == [] {
      assert rows + block == rows && Group(rows, name) + block == Group(rows, name);
    } else {
      var front, last := block[..|block| - 1], block[|block| - 1];
      GroupOfBlock(rows, front, id, name);
      assert block == front + [last];
      Regroup(rows, front, last);
      GroupSnoc(rows + front, last, name);
      Regroup(Group(rows, name), front, last);
    }
  }

  /** They add its name if it is new. */
  lemma {:induction false} NamesOfBlock(rows: seq<Row>, block: seq<Row>, id: string)
    requires forall i :: 0 <= i < |block| ==> block[i].shard == id
    ensures Names(rows + block) == if block == [] || id in Names(rows) then Names(rows) else Names(rows) + [id]
  {
    if block == [] {
      assert rows + block == rows;
    } else {
      var front, last := block[..|block| - 1], block[|block| - 1];
      NamesOfBlock(rows, front, id);
      assert block == front + [last];
      Regroup(rows, front, last);
      NamesSnoc(rows + front, last);
    }
  }

  function Ids(shards: seq<Shard>): (r: seq<string>)
    ensures |r| == |shards| && forall k :: 0 <= k < |r| ==> r[k] == shards[k].id
  {
    seq(|shards|, k requires 0 <= k < |shards| => shards[k].id)
  }

  /** Numbered shards with different names and none empty. */
  ghost predicate Numbered(shards: seq<Shard>) {
    && (forall k :: 0 <= k < |shards| ==> shards[k].index == k + 1 && shards[k].records != [])
    && (forall i, j :: 0 <= i < j < |shards| ==> shards[i].id != shards[j].id)
  }

  lemma {:induction false} LastShard(shards: seq<Shard>)
    requires Numbered(shards) && shards != []
    ensures var (front, last) := (shards[..|shards| - 1], shards[|shards| - 1]);
      && Numbered(front) && last.records != [] && last.id !in Ids(front) && Ids(shards) == Ids(front) + [last.id]
      && AllRows(shards) == AllRows(front) + RowsOf(last, |last.records|)
  {
  }

  lemma {:induction false} WrittenNames(shards: seq<Shard>)
    requires Numbered(shards)
    ensures Names(AllRows(shards)) == Ids(shards)
  {
    if shards != [] {
      var front, last := shards[..|shards| - 1], shards[|shards| - 1];
      LastShard(shards);
      WrittenNames(front);
      NamesOfBlock(AllRows(front), RowsOf(last, |last.records|), last.id);
    }
  }

  lemma {:induction false} NoGroup(shards: seq<Shard>, name: string)
    requires Numbered(shards) && name !in Ids(shards)
    ensures Group(AllRows(shards), name) == []
  {
    if shards != [] {
      var front, last := shards[..|shards| - 1], shards[|shards| - 1];
      LastShard(shards);
      NoGroup(front, name);
      GroupOfBlock(AllRows(front), RowsOf(last, |last.records|), last.id, name);
    }
  }

  lemma {:induction false} WrittenGroup(shards: seq<Shard>, k: nat)
    requires Numbered(shards) && k < |shards|
    ensures Group(AllRows(shards), shards[k].id) == RowsOf(shards[k], |shards[k].records|)
  {
    var front, last := shards[..|shards| - 1], shards[|shards| - 1];
    LastShard(shards);
    GroupOfBlock(AllRows(front), RowsOf(last, |last.records|), last.id, shards[k].id);
    if k < |front| {
      WrittenGroup(front, k);
      assert Ids(front)[k] == shards[k].id;
    } else {
      NoGroup(front, last.id);
    }
  }

  lemma {:induction false} WrittenInput(shards: seq<Shard>, source: map<string, string>, k: nat)
    requires Numbered(shards) && k < |shards| && InSource(shards, source)
    ensures shards[k].id in Inputs(shards, source)
    ensures Inputs(shards, source)[shards[k].id] == Spelled(shards[k].records, source)
  {
    if k < |shards| - 1 {
      LastShard(shards);
      WrittenInput(shards[..|shards| - 1], source, k);
    }
  }

  /** Every id of the shard is spelled in the source without surrounding space. */
  ghost predicate Unpadded(records: seq<string>, source: map<string, string>) {
    forall id :: id in records ==> id in source && source[id] == id
  }

  lemma {:induction false} SpelledIsSame(records: seq<string>, source: map<string, string>)
    requires forall id :: id in records ==> id in source
    ensures Spelled(records, source) == records <==> Unpadded(records, source)
  {
    if Spelled(records, source) == records {
      forall id | id in records ensures source[id] == id {
        var i :| 0 <= i < |records| && records[i] == id;
        assert Spelled(records, source)[i] == source[id];
      }
    }
  }

  lemma {:induction false} RowsRead(plan: Plan, shard: Shard)
    requires Group(plan.rows, shard.id) == RowsOf(shard, |shard.records|) && shard.id in plan.inputs
    requires |shard.records| <= plan.size && Ascending(shard.records)
    ensures ReadShard(plan, shard.index, shard.id) == if plan.inputs[shard.id] == shard.records then Some(shard)
      else None
  {
    var rows := RowsOf(shard, |shard.records|);
    assert SortedBy(rows, Earlier);
    SortedIsKept(rows, Earlier);
    assert Column(rows) == shard.records;
  }

  lemma {:induction false} ShardReadsBack(shards: seq<Shard>, source: map<string, string>, records: nat, size: nat,
                                          k: nat)
    requires Numbered(shards) && k < |shards| && InSource(shards, source)
    requires |shards[k].records| <= size && Ascending(shards[k].records)
    ensures ReadsBack(Write(shards, source, records, size), k + 1, shards[k], source)
  {
    WrittenGroup(shards, k);
    WrittenInput(shards, source, k);
    SpelledIsSame(shards[k].records, source);
    RowsRead(Write(shards, source, records, size), shards[k]);
  }

  ghost predicate Fitting(shards: seq<Shard>, size: nat) {
    forall k :: 0 <= k < |shards| ==> |shards[k].records| <= size && Ascending(shards[k].records)
  }

  ghost predicate AllUnpadded(shards: seq<Shard>, source: map<string, string>) {
    forall k :: 0 <= k < |shards| ==> Unpadded(shards[k].records, source)
  }

  lemma {:induction false} ReadShardsSnoc(plan: Plan, names: seq<string>, name: string)
    ensures ReadShards(plan, names + [name]) ==
      var (front, last) := (ReadShards(plan, names), ReadShard(plan, |names| + 1, name));
      if front.Some? && last.Some? then Some(front.value + [last.value]) else None
  {
    assert (names + [name])[..|names|] == names;
  }

  lemma {:induction false} AllUnpaddedSnoc(front: seq<Shard>, last: Shard, source: map<string, string>)
    ensures AllUnpadded(front + [last], source) <==> AllUnpadded(front, source) && Unpadded(last.records, source)
  {
    var shards := front + [last];
    if AllUnpadded(shards, source) {
      assert Unpadded(shards[|front|].records, source);
      forall k | 0 <= k < |front| ensures Unpadded(front[k].records, source) { assert shards[k] == front[k]; }
    }
  }

  ghost predicate ReadsBack(plan: Plan, index: nat, shard: Shard, source: map<string, string>) {
    ReadShard(plan, index, shard.id) == if Unpadded(shard.records, source) then Some(shard) else None
  }

  ghost predicate AllReadBack(plan: Plan, shards: seq<Shard>, source: map<string, string>) {
    ReadShards(plan, Ids(shards)) == if AllUnpadded(shards, source) then Some(shards) else None
  }

  lemma {:induction false} ReadBackSnoc(plan: Plan, front: seq<Shard>, last: Shard, source: map<string, string>)
    requires AllReadBack(plan, front, source) && ReadsBack(plan, |front| + 1, last, source)
    ensures AllReadBack(plan, front + [last], source)
  {
    var ids, all := Ids(front), front + [last];
    AllUnpaddedSnoc(front, last, source);
    ReadShardsSnoc(plan, ids, last.id);
    assert Ids(all) == ids + [last.id];
    var (first, second) := (ReadShards(plan, ids), ReadShard(plan, |ids| + 1, last.id));
    assert ReadShards(plan, ids + [last.id]) == if first.Some? && second.Some?
      then Some(first.value + [second.value]) else None;
  }

  /** If each of the shards reads back or is refused on its own, so are they all together. */
  lemma {:induction false} ShardsReadBack(plan: Plan, shards: seq<Shard>, source: map<string, string>)
    requires forall k :: 0 <= k < |shards| ==> ReadsBack(plan, k + 1, shards[k], source)
    ensures AllReadBack(plan, shards, source)
  {
    if shards != [] {
      var front, last := shards[..|shards| - 1], shards[|shards| - 1];
      forall k | 0 <= k < |front| ensures ReadsBack(plan, k + 1, front[k], source) {
        assert ReadsBack(plan, k + 1, shards[k], source);
      }
      ShardsReadBack(plan, front, source);
      assert ReadsBack(plan, |front| + 1, last, source);
      ReadBackSnoc(plan, front, last, source);
      assert shards == front + [last];
    }
  }

  lemma {:induction false} ListedReadsBack(shards: seq<Shard>, source: map<string, string>, records: nat, size: nat)
    requires Numbered(shards) && SortedBy(Ids(shards), Le) && InSource(shards, source) && Fitting(shards, size)
    requires WholeBatch(Records(shards), records)
    ensures Load(Write(shards, source, records, size)) == if AllUnpadded(shards, source) then Some(shards) else None
  {
    var plan := Write(shards, source, records, size);
    WrittenNames(shards);
    SortedIsKept(Ids(shards), Le);
    forall k | 0 <= k < |shards| ensures ReadsBack(plan, k + 1, shards[k], source) {
      ShardReadsBack(shards, source, records, size, k);
    }
    ShardsReadBack(plan, shards, source);
  }

  // ----- The bound on the number of shards -----

  /** Shards as planning names them. */
  ghost predicate Named(shards: seq<Shard>) {
    forall k :: 0 <= k < |shards| ==> shards[k].id == ShardName(k + 1)
  }

  lemma {:induction false} NamesInOrder(a: nat, b: nat)
    requires a < b < 10000
    ensures Le(ShardName(a), ShardName(b)) && ShardName(a) != ShardName(b)
  {
    PaddedOrder(a, b);
    LeWithPrefix("shard-", Pad4(a), Pad4(b));
    assert ShardName(a)[6..] == Pad4(a) && ShardName(b)[6..] == Pad4(b);
  }

  lemma {:induction false} PairInOrder(shards: seq<Shard>, i: nat, j: nat)
    requires Named(shards) && |shards| < 10000 && i < j < |shards|
    ensures Le(shards[i].id, shards[j].id) && shards[i].id != shards[j].id
  {
    NamesInOrder(i + 1, j + 1);
  }

  lemma {:induction false} FewAreListedInOrder(shards: seq<Shard>)
    requires Named(shards) && |shards| < 10000
    ensures SortedBy(Ids(shards), Le) && forall i, j :: 0 <= i < j < |shards| ==> shards[i].id != shards[j].id
  {
    forall i, j | 0 <= i < j < |shards| ensures Le(shards[i].id, shards[j].id) && shards[i].id != shards[j].id {
      PairInOrder(shards, i, j);
    }
  }

  lemma {:induction false} InNames(rows: seq<Row>, k: nat)
    requires k < |rows|
    ensures rows[k].shard in Names(rows) && rows[k] in Group(rows, rows[k].shard)
  {
    if k < |rows| - 1 { InNames(rows[..|rows| - 1], k); }
  }

  lemma {:induction false} ReadShardsAt(plan: Plan, names: seq<string>, k: nat)
    requires ReadShards(plan, names).Some? && k < |names|
    ensures ReadShard(plan, k + 1, names[k]).Some?
  {
    if k < |names| - 1 { ReadShardsAt(plan, names[..|names| - 1], k); }
  }

  lemma {:induction false} GroupHasItsIndex(plan: Plan, index: nat, name: string, row: Row)
    requires ReadShard(plan, index, name).Some? && row in Group(plan.rows, name)
    ensures row.shardIndex == index
  {
    SortKeepsAll(Group(plan.rows, name), Earlier);
    var rows := SortBy(Group(plan.rows, name), Earlier);
    var j :| 0 <= j < |rows| && rows[j] == row;
  }

  /** In a plan that is read, every row stands in the shard listed at its own shard index. */
  lemma {:induction false} RowsStandAtTheirIndex(plan: Plan, k: nat)
    requires Load(plan).Some? && k < |plan.rows|
    ensures var (names, row) := (SortBy(Names(plan.rows), Le), plan.rows[k]);
      0 < row.shardIndex <= |names| && names[row.shardIndex - 1] == row.shard
  {
    var names, row := SortBy(Names(plan.rows), Le), plan.rows[k];
    InNames(plan.rows, k);
    SortKeepsAll(Names(plan.rows), Le);
    var i :| 0 <= i < |names| && names[i] == row.shard;
    ReadShardsAt(plan, names, i);
    GroupHasItsIndex(plan, i + 1, row.shard, row);
  }

  lemma {:induction false} RowOfShard(shards: seq<Shard>, k: nat) returns (r: nat)
    requires k < |shards| && shards[k].records != []
    ensures r < |AllRows(shards)| && AllRows(shards)[r].shard == shards[k].id
    ensures AllRows(shards)[r].shardIndex == shards[k].index
  {
    if k == |shards| - 1 {
      r := |AllRows(shards[..k])|;
      assert AllRows(shards)[r] == RowsOf(shards[k], |shards[k].records|)[0];
    } else {
      r := RowOfShard(shards[..|shards| - 1], k);
    }
  }

  lemma {:induction false} ManyAreRefused(shards: seq<Shard>, source: map<string, string>, records: nat, size: nat)
    requires Named(shards) && |shards| >= 10000 && InSource(shards, source)
    requires forall k :: 0 <= k < |shards| ==> shards[k].index == k + 1 && shards[k].records != []
    ensures Load(Write(shards, source, records, size)).None?
  {
    var plan := Write(shards, source, records, size);
    if Load(plan).Some? {
      var names := SortBy(Names(plan.rows), Le);
      var a := RowOfShard(shards, 9998);
      var b := RowOfShard(shards, 9999);
      RowsStandAtTheirIndex(plan, a);
      RowsStandAtTheirIndex(plan, b);
      SortTextSorts(Names(plan.rows));
      assert Le(names[9998], names[9999]);
      LeWithPrefix("shard-", Pad4(9999), Pad4(10000));
      FirstLongNameIsOutOfOrder();
      assert false;
    }
  }

  // ----- The theorem -----

  lemma {:induction false} PartsAscend(ids: seq<string>, from: nat, to: nat)
    requires from <= to <= |ids| && SortedBy(ids, Le)
    ensures Ascending(ids[from..to])
  {
    SortedIsKept(ids[from..to], Le);
  }

  lemma {:induction false} AscendingIsSorted(s: seq<string>)
    ensures Ascending(s) <==> SortedBy(s, Le)
  {
    SortTextSorts(s);
    if SortedBy(s, Le) { SortedIsKept(s, Le); }
  }

  /** A batch in ascending order: what planning writes out is read back as the very same shards exactly when there
      are at most 9999 of them and the source spells every id without surrounding space; otherwise it is refused. */
  lemma {:induction false} LoaderReadsBackIff(ids: seq<string>, source: map<string, string>, size: nat)
    requires size > 0 && Ascending(ids) && Distinct(ids) && forall id :: id in ids ==> id in source
    requires InSource(Shards(ids, size), source)
    ensures Load(Write(Shards(ids, size), source, |ids|, size)) ==
      if ShardCount(|ids|, size) <= 9999 && Unpadded(ids, source) then Some(Shards(ids, size)) else None
  {
    var shards := Shards(ids, size);
    PartitionIsExact(ids, size);
    if |shards| > 9999 {
      ManyAreRefused(shards, source, |ids|, size);
    } else {
      FewAreListedInOrder(shards);
      ShardsFit(ids, size);
      ListedReadsBack(shards, source, |ids|, size);
      UnpaddedShards(shards, source);
    }
  }

  lemma {:induction false} UnpaddedShards(shards: seq<Shard>, source: map<string, string>)
    ensures AllUnpadded(shards, source) <==> Unpadded(Records(shards), source)
  {
    RecordsOfShards(shards);
    if Unpadded(Records(shards), source) {
      forall k | 0 <= k < |shards| ensures Unpadded(shards[k].records, source) {
      }
    }
  }

  lemma {:induction false} ShardsFit(ids: seq<string>, size: nat)
    requires size > 0 && Ascending(ids)
    ensures Fitting(Shards(ids, size), size)
  {
    var shards := Shards(ids, size);
    PartitionIsExact(ids, size);
    AscendingIsSorted(ids);
    forall k | 0 <= k < |shards| ensures Ascending(shards[k].records) {
      PartitionAt(ids, size, |shards|, k);
      CutoffsAdvance(|ids|, size, k);
      PartsAscend(ids, Cutoff(|ids|, size, k), Cutoff(|ids|, size, k + 1));
    }
  }

  lemma {:induction false} RecordsOfShards(shards: seq<Shard>)
    ensures forall id :: id in Records(shards) <==> exists k :: 0 <= k < |shards| && id in shards[k].records
  {
    if shards != [] {
      var front, last := shards[..|shards| - 1], shards[|shards| - 1];
      RecordsOfShards(front);
      forall id ensures id in Records(shards) <==> exists k :: 0 <= k < |shards| && id in shards[k].records {
        if k :| 0 <= k < |shards| && id in shards[k].records { assert k == |front| || id in front[k].records; }
      }
    }
  }

  // ----- The loops -----

  ghost predicate Counted(s: seq<string>) {
    forall x :: multiset(s)[x] <= 1
  }

  lemma {:induction false} DistinctIsCounted(s: seq<string>)
    ensures Distinct(s) <==> Counted(s)
  {
    if s != [] {
      var front, last := s[..|s| - 1], s[|s| - 1];
      DistinctIsCounted(front);
      assert s == front + [last];
      assert multiset(s)[last] == multiset(front)[last] + 1;
      assert last in front <==> last in multiset(front);
      if Counted(s) {
        forall x ensures multiset(front)[x] <= 1 { assert multiset(front)[x] <= multiset(s)[x]; }
      }
      if Distinct(s) {
        forall x ensures multiset(s)[x] <= 1 { assert x != last ==> multiset(s)[x] == multiset(front)[x]; }
      }
    }
  }

  predicate MembersOk(members: seq<string>, source: map<string, string>) {
    members != [] && "" !in members && Distinct(members) && forall id :: id in members ==> id in source
  }

  function Sorted(members: seq<string>): seq<string> {
    SortBy(members, Le)
  }

  lemma {:induction false} SortedMembers(members: seq<string>)
    requires Distinct(members)
    ensures Ascending(Sorted(members)) && Distinct(Sorted(members)) && |Sorted(members)| == |members|
    ensures forall id :: id in Sorted(members) <==> id in members
  {
    SortTextSorts(members);
    AscendingIsSorted(Sorted(members));
    SortKeepsAll(members, Le);
    DistinctIsCounted(members);
    DistinctIsCounted(Sorted(members));
  }

  lemma {:induction false} ChunkOfIds(ids: seq<string>, size: nat, k: nat, id: string)
    requires size > 0 && id in Chunk(ids, size, k)
    ensures id in ids
  {
  }

  lemma {:induction false} PartitionInSource(ids: seq<string>, source: map<string, string>, size: nat, n: nat)
    requires size > 0 && forall id :: id in ids ==> id in source
    ensures InSource(Partition(ids, size, n), source)
  {
    forall k, id | 0 <= k < n && id in Partition(ids, size, n)[k].records ensures id in source {
      PartitionAt(ids, size, n, k);
      ChunkOfIds(ids, size, k, id);
    }
  }

  /** The plan a batch with these members is given. */
  ghost function PlanOf(members: seq<string>, source: map<string, string>, size: nat): Plan
    requires size > 0 && MembersOk(members, source)
  {
    var ids := Sorted(members);
    SortedMembers(members);
    PartitionInSource(ids, source, size, ShardCount(|ids|, size));
    Write(Shards(ids, size), source, |ids|, size)
  }

  /** Planning and then loading gives back the partition of the sorted members, or refuses, by the same condition. */
  lemma {:induction false} PlanThenLoad(members: seq<string>, source: map<string, string>, size: nat)
    requires size > 0 && MembersOk(members, source)
    ensures Load(PlanOf(members, source, size)) ==
      if ShardCount(|members|, size) <= 9999 && Unpadded(members, source) then Some(Shards(Sorted(members), size))
        else None
  {
    SortedMembers(members);
    PartitionInSource(Sorted(members), source, size, ShardCount(|members|, size));
    LoaderReadsBackIff(Sorted(members), source, size);
    assert Unpadded(Sorted(members), source) <==> Unpadded(members, source);
  }

  lemma {:induction false} PartitionStep(ids: seq<string>, source: map<string, string>, size: nat, k: nat)
    requires size > 0 && forall id :: id in ids ==> id in source
    ensures InSource(Partition(ids, size, k), source) && InSource(Partition(ids, size, k + 1), source)
    ensures var (shards, shard) := (Partition(ids, size, k), Shard(ShardName(k + 1), k + 1, Chunk(ids, size, k)));
      && AllRows(Partition(ids, size, k + 1)) == AllRows(shards) + RowsOf(shard, |shard.records|)
      && Inputs(Partition(ids, size, k + 1), source) ==
        Inputs(shards, source)[shard.id := Spelled(shard.records, source)]
  {
    PartitionInSource(ids, source, size, k);
    PartitionInSource(ids, source, size, k + 1);
    assert Partition(ids, size, k + 1)[..k] == Partition(ids, size, k);
  }

  method PlanBatch(members: seq<string>, source: map<string, string>, size: nat) returns (plan: Option<Plan>)
    requires size > 0
    ensures plan == if MembersOk(members, source) then Some(PlanOf(members, source, size)) else None
    ensures plan.Some? <==>
            && members != [] && "" !in members && (forall id :: id in members ==> id in source)
            && forall i, j :: 0 <= i < j < |members| ==> members[i] != members[j]
  {
    if members == [] || "" in members || !Distinct(members) || exists id :: id in members && id !in source {
      return None;
    }
    SortedMembers(members);
    var written := WriteShards(SortBy(members, Le), source, size);
    plan := Some(written);
  }

  method WriteShards(ids: seq<string>, source: map<string, string>, size: nat) returns (plan: Plan)
    requires size > 0 && forall id :: id in ids ==> id in source
    ensures InSource(Shards(ids, size), source) && plan == Write(Shards(ids, size), source, |ids|, size)
  {
    var rows, inputs := [], map[];
    var count := (|ids| + size - 1) / size;
    for k := 0 to count
      invariant InSource(Partition(ids, size, k), source)
      invariant rows == AllRows(Partition(ids, size, k)) && inputs == Inputs(Partition(ids, size, k), source)
    {
      PartitionStep(ids, source, size, k);
      var name := ShardName(k + 1);
      var records := Chunk(ids, size, k);
      inputs := inputs[name := Spelled(records, source)];
      rows := WriteRows(rows, Shard(name, k + 1, records));
    }
    assert count == ShardCount(|ids|, size);
    plan := Plan(rows, inputs, count, |ids|, size);
  }

  method WriteRows(before: seq<Row>, shard: Shard) returns (rows: seq<Row>)
    ensures rows == before + RowsOf(shard, |shard.records|)
  {
    rows := before;
    for i := 0 to |shard.records|
      invariant rows == before + RowsOf(shard, i)
    {
      rows := rows + [Row(shard.id, shard.index, i + 1, shard.records[i])];
    }
  }

  ghost predicate Grouped(rows: seq<Row>, grouped: map<string, seq<Row>>) {
    forall name :: Group(rows, name) == if name in grouped then grouped[name] else []
  }

  method LoadPlan(plan: Plan) returns (loaded: Option<seq<Shard>>)
    ensures loaded == Load(plan)
  {
    var grouped, names := GroupRows(plan.rows);
    names := SortBy(names, Le);
    if |names| != plan.shardCount { return None; }
    var shards := LoadShards(plan, names, grouped);
    if shards.None? { return None; }
    var all := Records(shards.value);
    if |all| != plan.recordCount || !Distinct(all) || SortBy(all, Le) != all { return None; }
    loaded := shards;
  }

  method LoadShards(plan: Plan, names: seq<string>, grouped: map<string, seq<Row>>) returns (r: Option<seq<Shard>>)
    requires Grouped(plan.rows, grouped)
    ensures r == ReadShards(plan, names)
  {
    var shards := [];
    for k := 0 to |names|
      invariant ReadShards(plan, names[..k]) == Some(shards)
    {
      var shard := LoadShard(plan, k + 1, names[k], grouped);
      if shard.None? {
        if ReadShards(plan, names).Some? { ReadShardsAt(plan, names, k); }
        return None;
      }
      assert names[..k + 1] == names[..k] + [names[k]];
      ReadShardsSnoc(plan, names[..k], names[k]);
      shards := shards + [shard.value];
    }
    assert names[..|names|] == names;
    r := Some(shards);
  }

  method LoadShard(plan: Plan, index: nat, name: string, grouped: map<string, seq<Row>>) returns (r: Option<Shard>)
    requires Grouped(plan.rows, grouped)
    ensures r == ReadShard(plan, index, name)
  {
    var rows := SortBy(if name in grouped then grouped[name] else [], Earlier);
    assert rows == SortBy(Group(plan.rows, name), Earlier);
    if !RowsInOrder(rows, index) { return None; }
    var records := Column(rows);
    if !RecordsFit(plan, name, records) { return None; }
    r := Some(Shard(name, index, records));
  }

  function AddRow(grouped: map<string, seq<Row>>, row: Row): map<string, seq<Row>> {
    grouped[row.shard := (if row.shard in grouped then grouped[row.shard] else []) + [row]]
  }

  lemma {:induction false} GroupedStep(rows: seq<Row>, row: Row, grouped: map<string, seq<Row>>)
    requires Grouped(rows, grouped)
    ensures Grouped(rows + [row], AddRow(grouped, row))
  {
    var after, all := AddRow(grouped, row), rows + [row];
    forall name ensures Group(all, name) == if name in after then after[name] else [] {
      GroupSnoc(rows, row, name);
    }
  }

  ghost predicate GroupedSoFar(rows: seq<Row>, names: seq<string>, grouped: map<string, seq<Row>>) {
    names == Names(rows) && Grouped(rows, grouped) && forall name :: name in names <==> name in grouped
  }

  lemma {:induction false} GroupedSoFarStep(rows: seq<Row>, row: Row, names: seq<string>,
                                            grouped: map<string, seq<Row>>)
    requires GroupedSoFar(rows, names, grouped)
    ensures GroupedSoFar(rows + [row], if row.shard in grouped then names else names + [row.shard],
      AddRow(grouped, row))
  {
    NamesSnoc(rows, row);
    GroupedStep(rows, row, grouped);
  }

  method GroupRows(rows: seq<Row>) returns (grouped: map<string, seq<Row>>, names: seq<string>)
    ensures names == Names(rows) && Grouped(rows, grouped)
  {
    grouped, names := map[], [];
    for i := 0 to |rows|
      invariant GroupedSoFar(rows[..i], names, grouped)
    {
      var row := rows[i];
      assert rows[..i + 1] == rows[..i] + [row];
      GroupedSoFarStep(rows[..i], row, names, grouped);
      if row.shard !in grouped { names := names + [row.shard]; }
      grouped := AddRow(grouped, row);
    }
    assert rows[..|rows|] == rows;
  }
}
