/** Which written plans the loader accepts: the rows of some shards in any order, with everything else in agreement. */
module PlanningExact {
  import opened Wrappers
  import opened Text
  import opened Planning

  // ----- Groups and names of rows in any order -----

  lemma {:induction false} CountInGroup(rows: seq<Row>, name: string, row: Row)
    ensures multiset(Group(rows, name))[row] == if row.shard == name then multiset(rows)[row] else 0
  {
    if rows != [] {
      CountInGroup(rows[..|rows| - 1], name, row);
      assert rows == rows[..|rows| - 1] + [rows[|rows| - 1]];
    }
  }

  lemma {:induction false} GroupOfPermuted(a: seq<Row>, b: seq<Row>, name: string)
    requires multiset(a) == multiset(b)
    ensures multiset(Group(a, name)) == multiset(Group(b, name))
  {
    forall row ensures multiset(Group(a, name))[row] == multiset(Group(b, name))[row] {
      CountInGroup(a, name, row);
      CountInGroup(b, name, row);
    }
  }

  lemma {:induction false} GroupIsOfShard(rows: seq<Row>, name: string)
    ensures forall row :: row in Group(rows, name) ==> row.shard == name && row in rows
  {
    if rows != [] { GroupIsOfShard(rows[..|rows| - 1], name); }
  }

  lemma {:induction false} NamesAreOfRows(rows: seq<Row>)
    ensures forall name :: name in Names(rows) <==> Group(rows, name) != []
    ensures Distinct(Names(rows))
  {
    if rows != [] { NamesAreOfRows(rows[..|rows| - 1]); }
  }

  lemma {:induction false} NamesOfPermuted(a: seq<Row>, b: seq<Row>)
    requires multiset(a) == multiset(b)
    ensures SortBy(Names(a), Le) == SortBy(Names(b), Le)
  {
    NamesAreOfRows(a);
    NamesAreOfRows(b);
    forall name ensures name in Names(a) <==> name in Names(b) {
      GroupOfPermuted(a, b, name);
      assert |Group(a, name)| == |multiset(Group(a, name))| && |Group(b, name)| == |multiset(Group(b, name))|;
    }
    SameSorted(Names(a), Names(b));
  }

  lemma {:induction false} SameSorted(a: seq<string>, b: seq<string>)
    requires Distinct(a) && Distinct(b) && forall x :: x in a <==> x in b
    ensures SortBy(a, Le) == SortBy(b, Le)
  {
    DistinctIsCounted(a);
    DistinctIsCounted(b);
    forall x ensures multiset(a)[x] == multiset(b)[x] {
      assert x in a <==> x in multiset(a);
      assert x in b <==> x in multiset(b);
    }
    SortKeepsAll(a, Le);
    SortKeepsAll(b, Le);
    SortTextSorts(a);
    SortTextSorts(b);
    SortedSame(SortBy(a, Le), SortBy(b, Le));
  }

  // ----- The rows of one shard in order -----

  lemma {:induction false} InsertEarlier(row: Row, rows: seq<Row>)
    requires SortedBy(rows, Earlier)
    ensures SortedBy(InsertBy(row, rows, Earlier), Earlier)
  {
    if rows != [] && !Earlier(row, rows[0]) {
      InsertEarlier(row, rows[1..]);
      InsertKeepsAll(row, rows[1..], Earlier);
      var rest := InsertBy(row, rows[1..], Earlier);
      forall i | 0 <= i < |rest| ensures Earlier(rows[0], rest[i]) {
        assert rest[i] in multiset(rest);
        assert rest[i] == row || rest[i] in rows[1..];
      }
    }
  }

  lemma {:induction false} SortEarlierSorts(rows: seq<Row>)
    ensures SortedBy(SortBy(rows, Earlier), Earlier)
  {
    if rows != [] {
      SortEarlierSorts(rows[1..]);
      InsertEarlier(rows[0], SortBy(rows[1..], Earlier));
    }
  }

  ghost predicate Rising(rows: seq<Row>) {
    forall i, j :: 0 <= i < j < |rows| ==> rows[i].recordIndex < rows[j].recordIndex
  }

  lemma {:induction false} SameMembers(a: seq<Row>, b: seq<Row>)
    requires multiset(a) == multiset(b)
    ensures |a| == |b| && forall row :: row in a <==> row in b
  {
    assert |multiset(a)| == |a| && |multiset(b)| == |b|;
    forall row ensures row in a <==> row in b { assert row in multiset(a) <==> row in multiset(b); }
  }

  lemma {:induction false} SameLast(a: seq<Row>, b: seq<Row>)
    requires a != [] && |a| == |b| && SortedBy(a, Earlier) && Rising(b) && forall row :: row in a <==> row in b
    ensures a[|a| - 1] == b[|b| - 1]
  {
    var n := |a| - 1;
    assert b[n] in a && a[n] in b;
    var i :| 0 <= i <= n && a[i] == b[n];
    var k :| 0 <= k <= n && b[k] == a[n];
    assert i < n ==> Earlier(a[i], a[n]);
  }

  lemma {:induction false} SameFront(a: seq<Row>, b: seq<Row>)
    requires multiset(a) == multiset(b) && a != [] && b != [] && a[|a| - 1] == b[|b| - 1]
    ensures multiset(a[..|a| - 1]) == multiset(b[..|b| - 1])
  {
    assert a == a[..|a| - 1] + [a[|a| - 1]] && b == b[..|b| - 1] + [b[|b| - 1]];
    assert multiset(a[..|a| - 1]) == multiset(a) - multiset{a[|a| - 1]};
    assert multiset(b[..|b| - 1]) == multiset(b) - multiset{b[|b| - 1]};
  }

  /** Sorted by record index, rows with different ones are determined. */
  lemma {:induction false} SortedIsRising(a: seq<Row>, b: seq<Row>)
    requires multiset(a) == multiset(b) && SortedBy(a, Earlier) && Rising(b)
    ensures a == b
  {
    SameMembers(a, b);
    if a != [] {
      SameLast(a, b);
      SameFront(a, b);
      SortedIsRising(a[..|a| - 1], b[..|b| - 1]);
      assert a == a[..|a| - 1] + [a[|a| - 1]] && b == b[..|b| - 1] + [b[|b| - 1]];
    }
  }

  // ----- One shard -----

  /** What the loader asks of a shard besides its rows. */
  ghost predicate ShardAgrees(plan: Plan, shard: Shard) {
    && SortedBy(shard.records, Le) && |shard.records| <= plan.size
    && shard.id in plan.inputs && plan.inputs[shard.id] == shard.records
  }

  lemma {:induction false} ReadIsWritten(plan: Plan, shard: Shard)
    requires ReadShard(plan, shard.index, shard.id) == Some(shard)
    ensures multiset(Group(plan.rows, shard.id)) == multiset(RowsOf(shard, |shard.records|)) && ShardAgrees(plan, shard)
  {
    var rows := SortBy(Group(plan.rows, shard.id), Earlier);
    SortKeepsAll(Group(plan.rows, shard.id), Earlier);
    GroupIsOfShard(plan.rows, shard.id);
    AscendingIsSorted(shard.records);
    forall i | 0 <= i < |rows| ensures rows[i] == RowsOf(shard, |shard.records|)[i] {
      assert rows[i] in rows;
    }
    assert rows == RowsOf(shard, |shard.records|);
  }

  lemma {:induction false} WrittenRises(shard: Shard)
    ensures Rising(RowsOf(shard, |shard.records|))
  {
  }

  lemma {:induction false} ReadFromSorted(plan: Plan, shard: Shard)
    requires SortBy(Group(plan.rows, shard.id), Earlier) == RowsOf(shard, |shard.records|)
    requires ShardAgrees(plan, shard) && Ascending(shard.records)
    ensures ReadShard(plan, shard.index, shard.id) == Some(shard)
  {
    assert Column(RowsOf(shard, |shard.records|)) == shard.records;
  }

  lemma {:induction false} WrittenIsRead(plan: Plan, shard: Shard)
    requires multiset(Group(plan.rows, shard.id)) == multiset(RowsOf(shard, |shard.records|))
    requires ShardAgrees(plan, shard)
    ensures ReadShard(plan, shard.index, shard.id) == Some(shard)
  {
    var group, written := Group(plan.rows, shard.id), RowsOf(shard, |shard.records|);
    SortKeepsAll(group, Earlier);
    SortEarlierSorts(group);
    WrittenRises(shard);
    SortedIsRising(SortBy(group, Earlier), written);
    AscendingIsSorted(shard.records);
    ReadFromSorted(plan, shard);
  }

  // ----- All shards -----

  ghost predicate EachRead(plan: Plan, names: seq<string>, shards: seq<Shard>) {
    |shards| == |names| && forall k :: 0 <= k < |names| ==> ReadShard(plan, k + 1, names[k]) == Some(shards[k])
  }

  lemma {:induction false} ReadShardsIs(plan: Plan, names: seq<string>, shards: seq<Shard>)
    ensures ReadShards(plan, names) == Some(shards) <==> EachRead(plan, names, shards)
  {
    if |shards| != |names| {
      ReadShardsLength(plan, names);
    } else if names != [] {
      var n := |names| - 1;
      ReadShardsIs(plan, names[..n], shards[..n]);
      EachReadSnoc(plan, names, shards);
      BothRead(ReadShards(plan, names[..n]), ReadShard(plan, n + 1, names[n]), shards);
    }
  }

  lemma {:induction false} BothRead(front: Option<seq<Shard>>, last: Option<Shard>, shards: seq<Shard>)
    requires shards != []
    ensures (if front.Some? && last.Some? then Some(front.value + [last.value]) else None) == Some(shards)
       <==> front == Some(shards[..|shards| - 1]) && last == Some(shards[|shards| - 1])
  {
    assert shards == shards[..|shards| - 1] + [shards[|shards| - 1]];
    if front.Some? && last.Some? && front.value + [last.value] == shards {
      assert shards[..|shards| - 1] == front.value;
    }
  }

  lemma {:induction false} EachReadSnoc(plan: Plan, names: seq<string>, shards: seq<Shard>)
    requires names != [] && |shards| == |names|
    ensures var n := |names| - 1;
      EachRead(plan, names, shards) <==>
        EachRead(plan, names[..n], shards[..n]) && ReadShard(plan, n + 1, names[n]) == Some(shards[n])
  {
    var n := |names| - 1;
    if EachRead(plan, names[..n], shards[..n]) && ReadShard(plan, n + 1, names[n]) == Some(shards[n]) {
      forall k | 0 <= k < |names| ensures ReadShard(plan, k + 1, names[k]) == Some(shards[k]) {
        if k < n { assert names[..n][k] == names[k] && shards[..n][k] == shards[k]; }
      }
    }
  }

  lemma {:induction false} ReadShardsLength(plan: Plan, names: seq<string>)
    ensures ReadShards(plan, names).Some? ==> |ReadShards(plan, names).value| == |names|
  {
    if names != [] { ReadShardsLength(plan, names[..|names| - 1]); }
  }

  /** The rows are, in any order, exactly those that writing these shards gives; the shards are numbered in the order of
      their different names, none is empty or too large, their input files agree, and together they hold the announced
      number of different records in order. */
  ghost predicate PlanOfShards(plan: Plan, shards: seq<Shard>) {
    && multiset(plan.rows) == multiset(AllRows(shards)) && |shards| == plan.shardCount
    && Numbered(shards) && SortedBy(Ids(shards), Le)
    && (forall k :: 0 <= k < |shards| ==> ShardAgrees(plan, shards[k]))
    && |Records(shards)| == plan.recordCount && Distinct(Records(shards)) && SortedBy(Records(shards), Le)
  }

  lemma {:induction false} NamesOfShards(plan: Plan, shards: seq<Shard>)
    requires multiset(plan.rows) == multiset(AllRows(shards)) && Numbered(shards) && SortedBy(Ids(shards), Le)
    ensures SortBy(Names(plan.rows), Le) == Ids(shards)
  {
    NamesOfPermuted(plan.rows, AllRows(shards));
    WrittenNames(shards);
    SortedIsKept(Ids(shards), Le);
  }

  lemma {:induction false} WrittenAreRead(plan: Plan, shards: seq<Shard>)
    requires multiset(plan.rows) == multiset(AllRows(shards)) && Numbered(shards)
    requires forall k :: 0 <= k < |shards| ==> ShardAgrees(plan, shards[k])
    ensures ReadShards(plan, Ids(shards)) == Some(shards)
  {
    var names := Ids(shards);
    forall k | 0 <= k < |shards| ensures ReadShard(plan, k + 1, names[k]) == Some(shards[k]) {
      ShardIsRead(plan, shards, k);
    }
    ReadShardsIs(plan, names, shards);
  }

  lemma {:induction false} ShardIsRead(plan: Plan, shards: seq<Shard>, k: nat)
    requires multiset(plan.rows) == multiset(AllRows(shards)) && Numbered(shards) && k < |shards|
    requires ShardAgrees(plan, shards[k])
    ensures ReadShard(plan, k + 1, shards[k].id) == Some(shards[k])
  {
    WrittenGroup(shards, k);
    GroupOfPermuted(plan.rows, AllRows(shards), shards[k].id);
    WrittenIsRead(plan, shards[k]);
  }

  lemma {:induction false} WrittenIsLoaded(plan: Plan, shards: seq<Shard>)
    requires PlanOfShards(plan, shards)
    ensures Load(plan) == Some(shards)
  {
    NamesOfShards(plan, shards);
    WrittenAreRead(plan, shards);
    AscendingIsSorted(Records(shards));
  }

  lemma {:induction false} LoadedShards(plan: Plan, shards: seq<Shard>)
    requires Load(plan) == Some(shards)
    ensures Numbered(shards) && Ids(shards) == SortBy(Names(plan.rows), Le) && SortedBy(Ids(shards), Le)
    ensures forall k :: 0 <= k < |shards| ==> ReadShard(plan, shards[k].index, shards[k].id) == Some(shards[k])
  {
    var names := SortBy(Names(plan.rows), Le);
    ReadShardsIs(plan, names, shards);
    NamesAreOfRows(plan.rows);
    SortKeepsAll(Names(plan.rows), Le);
    DistinctIsCounted(Names(plan.rows));
    DistinctIsCounted(names);
    SortTextSorts(Names(plan.rows));
    forall k | 0 <= k < |shards|
      ensures shards[k].id == names[k] && shards[k].index == k + 1 && shards[k].records != []
    {
      assert ReadShard(plan, k + 1, names[k]) == Some(shards[k]);
      assert names[k] in names;
      SortKeepsAll(Group(plan.rows, names[k]), Earlier);
    }
    assert Ids(shards) == names;
  }

  lemma {:induction false} LoadedRows(plan: Plan, shards: seq<Shard>)
    requires Numbered(shards) && Ids(shards) == SortBy(Names(plan.rows), Le)
    requires forall k :: 0 <= k < |shards| ==>
      multiset(Group(plan.rows, shards[k].id)) == multiset(RowsOf(shards[k], |shards[k].records|))
    ensures multiset(plan.rows) == multiset(AllRows(shards))
  {
    forall row ensures multiset(plan.rows)[row] == multiset(AllRows(shards))[row] {
      CountInGroup(plan.rows, row.shard, row);
      CountInGroup(AllRows(shards), row.shard, row);
      if row.shard in Ids(shards) {
        var k :| 0 <= k < |shards| && Ids(shards)[k] == row.shard;
        WrittenGroup(shards, k);
      } else {
        NoGroup(shards, row.shard);
        NamesAreOfRows(plan.rows);
        SortKeepsAll(Names(plan.rows), Le);
      }
    }
  }

  /** The loader accepts a plan, with these shards, exactly when it is a plan of them. */
  lemma {:induction false} LoaderAcceptsIff(plan: Plan, shards: seq<Shard>)
    ensures Load(plan) == Some(shards) <==> PlanOfShards(plan, shards)
  {
    if Load(plan) == Some(shards) {
      LoadedShards(plan, shards);
      forall k | 0 <= k < |shards|
        ensures multiset(Group(plan.rows, shards[k].id)) == multiset(RowsOf(shards[k], |shards[k].records|))
        ensures ShardAgrees(plan, shards[k])
      {
        ReadIsWritten(plan, shards[k]);
      }
      LoadedRows(plan, shards);
      AscendingIsSorted(Records(shards));
      SortKeepsAll(Names(plan.rows), Le);
    }
    if PlanOfShards(plan, shards) { WrittenIsLoaded(plan, shards); }
  }
}
