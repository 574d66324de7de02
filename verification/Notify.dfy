/** The notification ledger: concurrent `notify` calls that share one append-only file, lock it for
    short sections only, send outside the lock, and may each stop at any point. */
module Notify {
  import opened Wrappers
  import L = LedgerText

  type Sink = nat

  datatype Kind = TurnCompleted | BatchCompleted | BatchFailed | OtherKind(code: nat)

  /** The fields hashed into an event id; the id is injective on them, so they stand for it. */
  datatype Event = Event(kind: Kind, detail: nat, session: Option<nat>, turn: Option<nat>, run: Option<nat>)

  datatype Key = Key(sink: Sink, event: Event)

  /** `delivery_status` with `failure_code`, where the code tells two NOT_ATTEMPTED rows apart. */
  datatype Status =
    | Reserved
    | ConfigurationError
    | DeliveryUnknown
    | Sent
    | Failed
    | DuplicateSuppressed
    | HarnessSuppressed

  /** `original` is the `original_status` of a duplicate row; None is the code's fallback value. */
  datatype Row =
    | Plain
    | Delivery(key: Key, status: Status, at: int, original: Option<Status>)

  datatype Place =
    | Begin(sinks: seq<Sink>)
    | Between(todo: seq<Sink>)
    | Owns(sink: Sink, at: int, todo: seq<Sink>)
    | Announced(sink: Sink, at: int, todo: seq<Sink>)
    | Finished(sink: Sink, outcome: Status, todo: seq<Sink>)
    | Gone

  datatype Call = Call(event: Event, place: Place)

  /** `torn`: something is cut inside a line, and the ledger no longer parses. `unended`: the last row lacks only its
      line end; it is still read, but the next row will be glued to it. */
  datatype State = State(rows: seq<Row>, torn: bool, unended: bool, calls: seq<Call>, transported: seq<Key>, now: int)

  const INIT := State([], false, false, [], [], 0)

  const WINDOW := 300

  // ----- Views of the ledger -----

  predicate Keyed(row: Row, key: Key) {
    row.Delivery? && row.key == key
  }

  predicate Duplicate(row: Row) {
    row.Delivery? && row.status == DuplicateSuppressed
  }

  predicate HasRow(rows: seq<Row>, key: Key) {
    exists i :: 0 <= i < |rows| && Keyed(rows[i], key)
  }

  /** The statuses of a key's rows in order, duplicates left out. */
  function History(rows: seq<Row>, key: Key): (h: seq<Status>) {
    if rows == [] then []
    else
      var front := History(rows[..|rows| - 1], key);
      var last := rows[|rows| - 1];
      if Keyed(last, key) && last.status != DuplicateSuppressed then front + [last.status] else front
  }

  function Transports(sent: seq<Key>, key: Key): (n: nat) {
    if sent == [] then 0
    else Transports(sent[..|sent| - 1], key) + (if sent[|sent| - 1] == key then 1 else 0)
  }

  /** The status reported for a duplicate: that of the latest row that is not itself a duplicate. */
  function Original(rows: seq<Row>, key: Key): (r: Option<Status>) {
    var h := History(rows, key);
    if h == [] then None else Some(h[|h| - 1])
  }

  predicate SameTurn(a: Event, b: Event) {
    && a.session.Some? && a.session == b.session
    && a.turn.Some? && a.turn == b.turn
    && a.run.Some? && a.run == b.run
  }

  /** A confirmed harness terminal for this sink and turn, recorded within the window before `clock`. */
  predicate Witness(row: Row, key: Key, clock: int) {
    && row.Delivery? && row.key.sink == key.sink && row.status == Sent
    && row.key.event.kind in {BatchCompleted, BatchFailed}
    && SameTurn(key.event, row.key.event)
    && 0 <= clock - row.at <= WINDOW
  }

  predicate HasWitness(rows: seq<Row>, key: Key, clock: int) {
    exists i :: 0 <= i < |rows| && Witness(rows[i], key, clock)
  }

  // ----- The step system -----

  datatype Step =
    | Arrive(event: Event, sinks: seq<Sink>)
    | Observe(c: nat)
    | Decide(c: nat, rowTime: int, checkTime: int)
    | Misconfigured(c: nat)
    | Announce(c: nat)
    | Transport(c: nat, outcome: Status)
    | Record(c: nat, time: int)
    | Context
    | Tick(time: int)
    | Tear(c: nat)
    | Chop(c: nat)
    | Abort(c: nat)

  predicate Enabled(s: State, step: Step) {
    match step
    case Arrive(_, _) => true
    case Observe(c) => c < |s.calls| && s.calls[c].place.Begin? && !s.torn
    case Decide(c, rowTime, checkTime) =>
      && c < |s.calls| && s.calls[c].place.Between? && s.calls[c].place.todo != [] && !s.torn
      && s.now <= rowTime <= checkTime
    case Misconfigured(c) => c < |s.calls| && s.calls[c].place.Owns?
    case Announce(c) => c < |s.calls| && s.calls[c].place.Owns? && !s.torn
    case Transport(c, outcome) => c < |s.calls| && s.calls[c].place.Announced?
      && outcome in {Sent, Failed, DeliveryUnknown}
    case Record(c, time) => c < |s.calls| && s.calls[c].place.Finished? && !s.torn && s.now <= time
    case Context => !s.torn
    case Tick(time) => s.now <= time
    case Tear(c) => c < |s.calls| && !s.torn
    case Chop(c) => c < |s.calls| && !s.torn && !s.unended && s.rows != []
    case Abort(c) => c < |s.calls|
  }

  /** The locked section that looks for earlier rows and, if none matches, reserves the key. */
  function Section(rows: seq<Row>, key: Key, rowTime: int, checkTime: int): (row: Row) {
    if HasRow(rows, key) then
      Delivery(key, DuplicateSuppressed, rowTime, Original(rows, key))
    else if key.event.kind == TurnCompleted && HasWitness(rows, key, checkTime) then
      Delivery(key, HarnessSuppressed, rowTime, None)
    else
      Delivery(key, Reserved, rowTime, None)
  }

  function Moved(s: State, c: nat, place: Place): (t: State)
    requires c < |s.calls|
  {
    s.(calls := s.calls[c := s.calls[c].(place := place)])
  }

  function Appended(s: State, row: Row): (t: State) {
    s.(rows := s.rows + [row], torn := s.torn || s.unended, unended := false)
  }

  function Apply(s: State, step: Step): (t: State)
    requires Enabled(s, step)
  {
    match step
    case Arrive(event, sinks) => s.(calls := s.calls + [Call(event, Begin(sinks))])
    case Observe(c) => Moved(Appended(s, Plain), c, Between(s.calls[c].place.sinks))
    case Decide(c, rowTime, checkTime) =>
      var call := s.calls[c];
      var sink, rest := call.place.todo[0], call.place.todo[1..];
      var row := Section(s.rows, Key(sink, call.event), rowTime, checkTime);
      Moved(Appended(s, row), c,
        if row.status == Reserved then Owns(sink, rowTime, rest) else Between(rest)).(now := checkTime)
    case Misconfigured(c) =>
      var place := s.calls[c].place;
      Moved(s, c, Finished(place.sink, ConfigurationError, place.todo))
    case Announce(c) =>
      var call := s.calls[c];
      var place := call.place;
      Moved(Appended(s, Delivery(Key(place.sink, call.event), DeliveryUnknown, place.at, None)), c,
        Announced(place.sink, place.at, place.todo))
    case Transport(c, outcome) =>
      var call := s.calls[c];
      var place := call.place;
      Moved(s.(transported := s.transported + [Key(place.sink, call.event)]), c,
        Finished(place.sink, outcome, place.todo))
    case Record(c, time) =>
      var call := s.calls[c];
      var place := call.place;
      Moved(Appended(s, Delivery(Key(place.sink, call.event), place.outcome, time, None)), c,
        Between(place.todo)).(now := time)
    case Context => Appended(s, Plain)
    case Tick(time) => s.(now := time)
    case Tear(c) => Moved(s.(torn := true, unended := false), c, Gone)
    case Chop(c) => Moved(s.(unended := true), c, Gone)
    case Abort(c) => Moved(s, c, Gone)
  }

  predicate ValidRun(s: State, steps: seq<Step>)
    decreases |steps|
  {
    steps == [] || (Enabled(s, steps[0]) && ValidRun(Apply(s, steps[0]), steps[1..]))
  }

  function Run(s: State, steps: seq<Step>): (t: State)
    requires ValidRun(s, steps)
    decreases |steps|
  {
    if steps == [] then s else Run(Apply(s, steps[0]), steps[1..])
  }

  // ----- What a decision depends on -----

  ghost predicate Seen(rows: seq<Row>, key: Key) {
    exists i :: 0 <= i < |rows| && rows[i].Delivery? && rows[i].key == key
  }

  /** A batch terminal that was sent to the same sink for the same session, turn and run, not later than `clock` and not
      more than 300 seconds before it. */
  ghost predicate TerminalSent(row: Row, sink: Sink, event: Event, clock: int) {
    && row.Delivery? && row.status == Sent && row.key.sink == sink
    && (row.key.event.kind == BatchCompleted || row.key.event.kind == BatchFailed)
    && row.key.event.session == event.session && event.session.Some?
    && row.key.event.turn == event.turn && event.turn.Some?
    && row.key.event.run == event.run && event.run.Some?
    && row.at <= clock <= row.at + 300
  }

  ghost predicate AnyTerminalSent(rows: seq<Row>, sink: Sink, event: Event, clock: int) {
    exists i :: 0 <= i < |rows| && TerminalSent(rows[i], sink, event, clock)
  }

  /** Which of the three decisions the ledger calls for. */
  ghost predicate CalledFor(rows: seq<Row>, key: Key, clock: int, status: Status) {
    && status in {DuplicateSuppressed, HarnessSuppressed, Reserved}
    && (status == DuplicateSuppressed <==> Seen(rows, key))
    && (status == HarnessSuppressed <==>
          !Seen(rows, key) && key.event.kind == TurnCompleted && AnyTerminalSent(rows, key.sink, key.event, clock))
  }

  lemma {:induction false} SectionIsCalledFor(rows: seq<Row>, key: Key, rowTime: int, checkTime: int)
    ensures var row := Section(rows, key, rowTime, checkTime);
      row.Delivery? && row.key == key && row.at == rowTime && CalledFor(rows, key, checkTime, row.status)
  {
    if HasRow(rows, key) {
      var i :| 0 <= i < |rows| && Keyed(rows[i], key);
      assert rows[i].key == key;
    }
    if i :| 0 <= i < |rows| && rows[i].Delivery? && rows[i].key == key { assert Keyed(rows[i], key); }
    if HasWitness(rows, key, checkTime) {
      var i :| 0 <= i < |rows| && Witness(rows[i], key, checkTime);
      assert TerminalSent(rows[i], key.sink, key.event, checkTime);
    }
    if i :| 0 <= i < |rows| && TerminalSent(rows[i], key.sink, key.event, checkTime) {
      assert Witness(rows[i], key, checkTime);
    }
  }

  /** The decision for a sink is exactly the one its ledger calls for: one row, and a delivery only if it was
      reserved. */
  lemma {:induction false} DecisionIsExact(s: State, c: nat, rowTime: int, checkTime: int)
    requires Enabled(s, Decide(c, rowTime, checkTime))
    ensures var t := Apply(s, Decide(c, rowTime, checkTime));
      var sink, rest := s.calls[c].place.todo[0], s.calls[c].place.todo[1..];
      && |t.rows| == |s.rows| + 1 && s.rows == t.rows[..|s.rows|] && t.transported == s.transported
      && var row := t.rows[|s.rows|];
      && row.Delivery? && row.key == Key(sink, s.calls[c].event) && row.at == rowTime
      && CalledFor(s.rows, row.key, checkTime, row.status)
      && row.original == (if row.status == DuplicateSuppressed then Original(s.rows, row.key) else None)
      && t.calls[c].place == if row.status == Reserved then Owns(sink, rowTime, rest) else Between(rest)
  {
    SectionIsCalledFor(s.rows, Key(s.calls[c].place.todo[0], s.calls[c].event), rowTime, checkTime);
  }

  /** Row j is about the key and is not a duplicate, and every later row is about another key or is a duplicate. */
  ghost predicate LatestReal(rows: seq<Row>, key: Key, j: int) {
    && 0 <= j < |rows| && rows[j].Delivery? && rows[j].key == key && rows[j].status != DuplicateSuppressed
    && forall k :: j < k < |rows| && rows[k].Delivery? && rows[k].key == key ==> rows[k].status == DuplicateSuppressed
  }

  lemma {:induction false} LatestBefore(rows: seq<Row>, key: Key, status: Status)
    requires rows != [] && (!Keyed(rows[|rows| - 1], key) || rows[|rows| - 1].status == DuplicateSuppressed)
    ensures (exists j :: LatestReal(rows, key, j) && rows[j].status == status)
      <==> (exists j :: LatestReal(rows[..|rows| - 1], key, j) && rows[j].status == status)
  {
    var front := rows[..|rows| - 1];
    forall j ensures LatestReal(rows, key, j) <==> LatestReal(front, key, j) {
      if LatestReal(rows, key, j) {
        forall k | j < k < |front| && front[k].Delivery? && front[k].key == key
          ensures front[k].status == DuplicateSuppressed
        {
          assert rows[k] == front[k];
        }
      }
      if LatestReal(front, key, j) {
        assert rows[j] == front[j];
        forall k | j < k < |rows| && rows[k].Delivery? && rows[k].key == key
          ensures rows[k].status == DuplicateSuppressed {
          if k < |front| { assert front[k] == rows[k]; }
        }
      }
    }
  }

  /** What a duplicate row repeats is the status of the latest row that is not a duplicate itself. */
  lemma {:induction false} OriginalIsLatest(rows: seq<Row>, key: Key, status: Status)
    ensures Original(rows, key) == Some(status) <==> exists j :: LatestReal(rows, key, j) && rows[j].status == status
  {
    if rows != [] {
      var n := |rows| - 1;
      OriginalIsLatest(rows[..n], key, status);
      if Keyed(rows[n], key) && rows[n].status != DuplicateSuppressed {
        assert LatestReal(rows, key, n);
      } else {
        LatestBefore(rows, key, status);
      }
    }
  }

  // ----- The invariant -----

  /** The key a call is responsible for between its reservation and its final row. */
  function Owned(call: Call): (k: Option<Key>) {
    if call.place.Owns? || call.place.Announced? || call.place.Finished?
      then Some(Key(call.place.sink, call.event)) else None
  }

  /** Every history is a prefix of one of the two delivery stories, or one suppression. */
  predicate Story(h: seq<Status>) {
    && |h| <= 3
    && (|h| >= 1 ==> h[0] in {Reserved, HarnessSuppressed})
    && (|h| >= 2 ==> h[0] == Reserved && h[1] in {ConfigurationError, DeliveryUnknown})
    && (|h| == 3 ==> h[1] == DeliveryUnknown && h[2] in {Sent, Failed, DeliveryUnknown})
  }

  predicate KeyOk(h: seq<Status>, sends: nat, rowExists: bool) {
    && Story(h)
    && (rowExists <==> h != [])
    && sends <= 1
    && (sends == 1 ==> |h| >= 2 && h[1] == DeliveryUnknown)
  }

  predicate OwnerFits(place: Place, h: seq<Status>, sends: nat) {
    match place
    case Owns(_, _, _) => |h| == 1 && h[0] == Reserved && sends == 0
    case Announced(_, _, _) => |h| == 2 && h[1] == DeliveryUnknown && sends == 0
    case Finished(_, outcome, _) =>
      if outcome == ConfigurationError then |h| == 1 && h[0] == Reserved && sends == 0
      else outcome in {Sent, Failed, DeliveryUnknown} && |h| == 2 && h[1] == DeliveryUnknown && sends == 1
    case _ => true
  }

  ghost predicate KeysOk(s: State) {
    forall key :: KeyOk(History(s.rows, key), Transports(s.transported, key), HasRow(s.rows, key))
  }

  ghost predicate OwnersOk(s: State) {
    && (forall c :: 0 <= c < |s.calls| && Owned(s.calls[c]).Some? ==>
          var key := Owned(s.calls[c]).value;
          OwnerFits(s.calls[c].place, History(s.rows, key), Transports(s.transported, key)))
    && (forall c, d :: 0 <= c < d < |s.calls| && Owned(s.calls[c]).Some? ==> Owned(s.calls[c]) != Owned(s.calls[d]))
  }

  /** Row times lie in the past, and so do the times calls carry. */
  ghost predicate TimesOk(s: State) {
    && (forall i :: 0 <= i < |s.rows| && s.rows[i].Delivery? ==> s.rows[i].at <= s.now)
    && (forall c :: 0 <= c < |s.calls| && s.calls[c].place.Owns? ==> s.calls[c].place.at <= s.now)
  }

  /** A suppressed row has an earlier SENT row of the same sink and turn, at most the window older. */
  ghost predicate SuppressionsOk(rows: seq<Row>) {
    forall i :: 0 <= i < |rows| && rows[i].Delivery? && rows[i].status == HarnessSuppressed ==>
      rows[i].key.event.kind == TurnCompleted && HasWitness(rows[..i], rows[i].key, rows[i].at)
  }

  /** A duplicate row always names a real earlier status. */
  ghost predicate DuplicatesOk(rows: seq<Row>) {
    forall i :: 0 <= i < |rows| && rows[i].Delivery? && rows[i].status == DuplicateSuppressed ==>
      && rows[i].original.Some?
      && exists j ::
        0 <= j < i && Keyed(rows[j], rows[i].key) && Some(rows[j].status) == rows[i].original && !Duplicate(rows[j])
  }

  ghost predicate Inv(s: State) {
    KeysOk(s) && OwnersOk(s) && TimesOk(s) && SuppressionsOk(s.rows) && DuplicatesOk(s.rows)
  }

  lemma {:induction false} RowAppend(rows: seq<Row>, row: Row, key: Key)
    ensures History(rows + [row], key) ==
      if Keyed(row, key) && row.status != DuplicateSuppressed then History(rows, key) + [row.status]
        else History(rows, key)
    ensures HasRow(rows + [row], key) <==> HasRow(rows, key) || Keyed(row, key)
  {
    var all := rows + [row];
    assert all[..|all| - 1] == rows;
    if HasRow(rows, key) {
      var i :| 0 <= i < |rows| && Keyed(rows[i], key);
      assert Keyed(all[i], key);
    }
    if Keyed(row, key) { assert Keyed(all[|rows|], key); }
  }

  lemma {:induction false} TransportAppend(sent: seq<Key>, sentKey: Key, key: Key)
    ensures Transports(sent + [sentKey], key) == Transports(sent, key) + if sentKey == key then 1 else 0
  {
    var all := sent + [sentKey];
    assert all[..|all| - 1] == sent;
  }

  lemma {:induction false} SuppressionAppend(rows: seq<Row>, row: Row)
    requires SuppressionsOk(rows)
    requires row.Delivery? && row.status == HarnessSuppressed ==>
      row.key.event.kind == TurnCompleted && HasWitness(rows, row.key, row.at)
    ensures SuppressionsOk(rows + [row])
  {
    var all := rows + [row];
    forall i | 0 <= i < |all| && all[i].Delivery? && all[i].status == HarnessSuppressed
      ensures all[i].key.event.kind == TurnCompleted && HasWitness(all[..i], all[i].key, all[i].at)
    {
      if i < |rows| {
        assert all[..i] == rows[..i];
      } else {
        assert all[..i] == rows;
      }
    }
  }

  /** The last status of a history is that of a real row. */
  lemma {:induction false} OriginalIsReal(rows: seq<Row>, key: Key)
    requires History(rows, key) != []
    ensures exists j ::
      0 <= j < |rows| && Keyed(rows[j], key) && Some(rows[j].status) == Original(rows, key)
        && rows[j].status != DuplicateSuppressed
  {
    var front, last := rows[..|rows| - 1], rows[|rows| - 1];
    if Keyed(last, key) && last.status != DuplicateSuppressed {
      assert Some(rows[|rows| - 1].status) == Original(rows, key);
    } else {
      OriginalIsReal(front, key);
      var j :| 0 <= j < |front| && Keyed(front[j], key) && Some(front[j].status) == Original(front, key)
        && front[j].status != DuplicateSuppressed;
      assert rows[j] == front[j];
    }
  }

  lemma {:induction false} DuplicateAppend(rows: seq<Row>, row: Row)
    requires DuplicatesOk(rows)
    requires row.Delivery? && row.status == DuplicateSuppressed ==>
      History(rows, row.key) != [] && row.original == Original(rows, row.key)
    ensures DuplicatesOk(rows + [row])
  {
    var all := rows + [row];
    forall i | 0 <= i < |all| && all[i].Delivery? && all[i].status == DuplicateSuppressed
      ensures all[i].original.Some?
      ensures exists j ::
        0 <= j < i && Keyed(all[j], all[i].key) && Some(all[j].status) == all[i].original && !Duplicate(all[j])
    {
      if i < |rows| {
        var j :| 0 <= j < i && Keyed(rows[j], rows[i].key) && Some(rows[j].status) == rows[i].original
          && rows[j].status != DuplicateSuppressed;
        assert all[j] == rows[j];
      } else {
        OriginalIsReal(rows, row.key);
        var j :| 0 <= j < |rows| && Keyed(rows[j], row.key)
                 && Some(rows[j].status) == Original(rows, row.key) && rows[j].status != DuplicateSuppressed;
        assert all[j] == rows[j];
      }
    }
  }

  /** Rows and sends of every other key are as before. */
  ghost predicate SameElsewhere(s: State, rows: seq<Row>, sent: seq<Key>, key: Key) {
    forall other :: other != key ==>
      && History(rows, other) == History(s.rows, other) && HasRow(rows, other) == HasRow(s.rows, other)
      && Transports(sent, other) == Transports(s.transported, other)
  }

  lemma {:induction false} OthersOwnOtherKeys(s: State, c: nat, key: Key, d: nat)
    requires OwnersOk(s) && c < |s.calls| && d < |s.calls| && d != c && Owned(s.calls[d]).Some?
    requires Owned(s.calls[c]) == Some(key) || History(s.rows, key) == []
    ensures Owned(s.calls[d]) != Some(key)
  {
    if Owned(s.calls[c]) == Some(key) {
      if c < d {
        assert Owned(s.calls[c]) != Owned(s.calls[d]);
      } else {
        assert Owned(s.calls[d]) != Owned(s.calls[c]);
      }
    } else {
      var k := Owned(s.calls[d]).value;
      assert OwnerFits(s.calls[d].place, History(s.rows, k), Transports(s.transported, k));
    }
  }

  /** One call moves to `place` and only `key` changes: enough if the call owned it, or nobody could. */
  lemma {:induction false} OneKeyChanges(s: State, rows: seq<Row>, sent: seq<Key>, c: nat, place: Place, key: Key)
    requires KeysOk(s) && OwnersOk(s) && c < |s.calls| && SameElsewhere(s, rows, sent, key)
    requires KeyOk(History(rows, key), Transports(sent, key), HasRow(rows, key))
    requires Owned(s.calls[c]) == Some(key) || History(s.rows, key) == []
    requires Owned(Call(s.calls[c].event, place)) in {None, Some(key)}
    requires Owned(Call(s.calls[c].event, place)).Some? ==> OwnerFits(place, History(rows, key), Transports(sent, key))
    ensures KeysOk(Moved(s.(rows := rows, transported := sent), c, place))
    ensures OwnersOk(Moved(s.(rows := rows, transported := sent), c, place))
  {
    var t := Moved(s.(rows := rows, transported := sent), c, place);
    forall d | 0 <= d < |s.calls| && d != c && Owned(s.calls[d]).Some? ensures Owned(s.calls[d]) != Some(key) {
      OthersOwnOtherKeys(s, c, key, d);
    }
    assert t.calls[c] == Call(s.calls[c].event, place);
    assert forall d :: 0 <= d < |s.calls| && d != c ==> t.calls[d] == s.calls[d];
  }

  lemma {:induction false} NobodyOwnsNew(s: State, c: nat, place: Place)
    requires OwnersOk(s) && c < |s.calls| && Owned(s.calls[c].(place := place)).None?
    ensures OwnersOk(Moved(s, c, place))
  {
  }

  lemma {:induction false} PlainRowChangesNothing(rows: seq<Row>)
    ensures forall key ::
      History(rows + [Plain], key) == History(rows, key) && HasRow(rows + [Plain], key) == HasRow(rows, key)
  {
    forall key
      ensures History(rows + [Plain], key) == History(rows, key) && HasRow(rows + [Plain], key) == HasRow(rows, key) {
      RowAppend(rows, Plain, key);
    }
  }

  lemma {:induction false} DeliveryRowChangesOne(rows: seq<Row>, row: Row)
    requires row.Delivery?
    ensures forall key :: key != row.key ==>
      History(rows + [row], key) == History(rows, key) && HasRow(rows + [row], key) == HasRow(rows, key)
    ensures HasRow(rows + [row], row.key)
    ensures History(rows + [row], row.key) == History(rows, row.key) + if row.status != DuplicateSuppressed
      then [row.status] else []
  {
    forall key
      ensures key != row.key ==>
        History(rows + [row], key) == History(rows, key) && HasRow(rows + [row], key) == HasRow(rows, key) {
      RowAppend(rows, row, key);
    }
    RowAppend(rows, row, row.key);
  }

  lemma {:induction false} PlainStepKeepsInv(s: State, step: Step)
    requires Inv(s) && Enabled(s, step) && (step.Observe? || step.Context?)
    ensures Inv(Apply(s, step))
  {
    PlainRowChangesNothing(s.rows);
    SuppressionAppend(s.rows, Plain);
    DuplicateAppend(s.rows, Plain);
    var a := Appended(s, Plain);
    assert KeysOk(a) && OwnersOk(a);
    if step.Observe? { NobodyOwnsNew(a, step.c, Between(s.calls[step.c].place.sinks)); }
  }

  lemma {:induction false} WitnessBeforeRowTime(s: State, key: Key, rowTime: int, checkTime: int)
    requires TimesOk(s) && s.now <= rowTime <= checkTime && HasWitness(s.rows, key, checkTime)
    ensures HasWitness(s.rows, key, rowTime)
  {
    var i :| 0 <= i < |s.rows| && Witness(s.rows[i], key, checkTime);
    assert Witness(s.rows[i], key, rowTime);
  }

  lemma {:induction false} SectionKeepsLedger(s: State, key: Key, rowTime: int, checkTime: int)
    requires Inv(s) && s.now <= rowTime <= checkTime
    ensures SuppressionsOk(s.rows + [Section(s.rows, key, rowTime, checkTime)])
    ensures DuplicatesOk(s.rows + [Section(s.rows, key, rowTime, checkTime)])
  {
    var row := Section(s.rows, key, rowTime, checkTime);
    assert KeyOk(History(s.rows, key), Transports(s.transported, key), HasRow(s.rows, key));
    if row.status == HarnessSuppressed { WitnessBeforeRowTime(s, key, rowTime, checkTime); }
    SuppressionAppend(s.rows, row);
    DuplicateAppend(s.rows, row);
  }

  lemma {:induction false} DuplicateSectionKeepsKeys(s: State, key: Key, row: Row)
    requires KeysOk(s) && OwnersOk(s) && row.Delivery? && row.key == key && row.status == DuplicateSuppressed
    requires HasRow(s.rows, key)
    ensures KeysOk(Appended(s, row)) && OwnersOk(Appended(s, row))
  {
    var a := Appended(s, row);
    DeliveryRowChangesOne(s.rows, row);
    assert History(a.rows, key) == History(s.rows, key);
  }

  lemma {:induction false} FirstSectionKeepsKeys(s: State, c: nat, key: Key, row: Row, place: Place)
    requires KeysOk(s) && OwnersOk(s) && c < |s.calls| && key.event == s.calls[c].event && !HasRow(s.rows, key)
    requires row.Delivery? && row.key == key
    requires (row.status == Reserved && place.Owns? && place.sink == key.sink)
      || (row.status == HarnessSuppressed && place.Between?)
    ensures KeysOk(Moved(Appended(s, row), c, place)) && OwnersOk(Moved(Appended(s, row), c, place))
  {
    assert KeyOk(History(s.rows, key), Transports(s.transported, key), HasRow(s.rows, key));
    DeliveryRowChangesOne(s.rows, row);
    assert SameElsewhere(s, s.rows + [row], s.transported, key);
    OneKeyChanges(s, s.rows + [row], s.transported, c, place, key);
  }

  lemma {:induction false} DecideKeepsKeys(s: State, c: nat, rowTime: int, checkTime: int)
    requires Inv(s) && Enabled(s, Decide(c, rowTime, checkTime))
    ensures var t := Apply(s, Decide(c, rowTime, checkTime)); KeysOk(t) && OwnersOk(t)
  {
    var t := Apply(s, Decide(c, rowTime, checkTime));
    var call := s.calls[c];
    var key := Key(call.place.todo[0], call.event);
    var row := Section(s.rows, key, rowTime, checkTime);
    var place := if row.status == Reserved then Owns(key.sink, rowTime, call.place.todo[1..])
      else Between(call.place.todo[1..]);
    if row.status == DuplicateSuppressed {
      DuplicateSectionKeepsKeys(s, key, row);
      NobodyOwnsNew(Appended(s, row), c, place);
    } else {
      FirstSectionKeepsKeys(s, c, key, row, place);
    }
    NewTimeKeepsKeys(Moved(Appended(s, row), c, place), checkTime);
    assert t == Moved(Appended(s, row), c, place).(now := checkTime);
  }

  lemma {:induction false} DecideKeepsInv(s: State, c: nat, rowTime: int, checkTime: int)
    requires Inv(s) && Enabled(s, Decide(c, rowTime, checkTime))
    ensures Inv(Apply(s, Decide(c, rowTime, checkTime)))
  {
    DecideKeepsKeys(s, c, rowTime, checkTime);
    SectionKeepsLedger(s, Key(s.calls[c].place.todo[0], s.calls[c].event), rowTime, checkTime);
  }

  lemma {:induction false} NewTimeKeepsKeys(s: State, time: int)
    requires KeysOk(s) && OwnersOk(s)
    ensures KeysOk(s.(now := time)) && OwnersOk(s.(now := time))
  {
  }

  lemma {:induction false} OwnerKnows(s: State, c: nat) returns (key: Key)
    requires KeysOk(s) && OwnersOk(s) && c < |s.calls| && Owned(s.calls[c]).Some?
    ensures Owned(s.calls[c]) == Some(key)
    ensures OwnerFits(s.calls[c].place, History(s.rows, key), Transports(s.transported, key))
    ensures KeyOk(History(s.rows, key), Transports(s.transported, key), HasRow(s.rows, key))
  {
    key := Owned(s.calls[c]).value;
  }

  /** The owner appends its next row and moves. */
  lemma {:induction false} OwnerRowKeepsKeys(s: State, c: nat, row: Row, place: Place)
    requires KeysOk(s) && OwnersOk(s) && c < |s.calls| && row.Delivery? && Owned(s.calls[c]) == Some(row.key)
    requires row.status != DuplicateSuppressed
    requires var h, sends := History(s.rows, row.key) + [row.status], Transports(s.transported, row.key);
      KeyOk(h, sends, true) && (Owned(Call(s.calls[c].event, place)).Some? ==> OwnerFits(place, h, sends))
    requires Owned(Call(s.calls[c].event, place)) in {None, Some(row.key)}
    ensures KeysOk(Moved(Appended(s, row), c, place)) && OwnersOk(Moved(Appended(s, row), c, place))
  {
    DeliveryRowChangesOne(s.rows, row);
    assert SameElsewhere(s, s.rows + [row], s.transported, row.key);
    OneKeyChanges(s, s.rows + [row], s.transported, c, place, row.key);
  }

  lemma {:induction false} AnnounceKeepsInv(s: State, c: nat)
    requires Inv(s) && Enabled(s, Announce(c))
    ensures Inv(Apply(s, Announce(c)))
  {
    var place := s.calls[c].place;
    var key := OwnerKnows(s, c);
    var row := Delivery(key, DeliveryUnknown, place.at, None);
    SuppressionAppend(s.rows, row);
    DuplicateAppend(s.rows, row);
    OwnerRowKeepsKeys(s, c, row, Announced(place.sink, place.at, place.todo));
  }

  lemma {:induction false} TransportChangesOne(sent: seq<Key>, key: Key)
    ensures forall other :: other != key ==> Transports(sent + [key], other) == Transports(sent, other)
    ensures Transports(sent + [key], key) == Transports(sent, key) + 1
  {
    forall other ensures other != key ==> Transports(sent + [key], other) == Transports(sent, other) {
      TransportAppend(sent, key, other);
    }
    TransportAppend(sent, key, key);
  }

  lemma {:induction false} TransportKeepsInv(s: State, c: nat, outcome: Status)
    requires Inv(s) && Enabled(s, Transport(c, outcome))
    ensures Inv(Apply(s, Transport(c, outcome)))
  {
    var key := OwnerKnows(s, c);
    TransportChangesOne(s.transported, key);
    assert SameElsewhere(s, s.rows, s.transported + [key], key);
    OneKeyChanges(s, s.rows, s.transported + [key], c, Finished(s.calls[c].place.sink, outcome, s.calls[c].place.todo),
      key);
  }

  lemma {:induction false} RecordKeepsInv(s: State, c: nat, time: int)
    requires Inv(s) && Enabled(s, Record(c, time))
    ensures Inv(Apply(s, Record(c, time)))
  {
    var place := s.calls[c].place;
    var key := OwnerKnows(s, c);
    var row := Delivery(key, place.outcome, time, None);
    SuppressionAppend(s.rows, row);
    DuplicateAppend(s.rows, row);
    OwnerRowKeepsKeys(s, c, row, Between(place.todo));
    NewTimeKeepsKeys(Moved(Appended(s, row), c, Between(place.todo)), time);
  }

  lemma {:induction false} MisconfiguredKeepsInv(s: State, c: nat)
    requires Inv(s) && Enabled(s, Misconfigured(c))
    ensures Inv(Apply(s, Misconfigured(c)))
  {
    var key := OwnerKnows(s, c);
    assert SameElsewhere(s, s.rows, s.transported, key);
    OneKeyChanges(s, s.rows, s.transported, c,
      Finished(s.calls[c].place.sink, ConfigurationError, s.calls[c].place.todo), key);
  }

  lemma {:induction false} StepKeepsInv(s: State, step: Step)
    requires Inv(s) && Enabled(s, step)
    ensures Inv(Apply(s, step))
  {
    match step
    case Observe(_) => PlainStepKeepsInv(s, step);
    case Context => PlainStepKeepsInv(s, step);
    case Decide(c, rowTime, checkTime) => DecideKeepsInv(s, c, rowTime, checkTime);
    case Misconfigured(c) => MisconfiguredKeepsInv(s, c);
    case Announce(c) => AnnounceKeepsInv(s, c);
    case Transport(c, outcome) => TransportKeepsInv(s, c, outcome);
    case Record(c, time) => RecordKeepsInv(s, c, time);
    case Tear(c) => NobodyOwnsNew(s, c, Gone);
    case Chop(c) => NobodyOwnsNew(s, c, Gone);
    case Abort(c) => NobodyOwnsNew(s, c, Gone);
    case Arrive(_, _) =>
    case Tick(_) =>
  }

  lemma {:induction false} RunKeepsInv(s: State, steps: seq<Step>)
    requires Inv(s) && ValidRun(s, steps)
    ensures Inv(Run(s, steps))
    decreases |steps|
  {
    if steps != [] {
      StepKeepsInv(s, steps[0]);
      RunKeepsInv(Apply(s, steps[0]), steps[1..]);
    }
  }

  // ----- What every interleaving keeps -----

  /** The stories written out. */
  lemma {:induction false} StoryCases(h: seq<Status>)
    ensures Story(h) <==>
            || h == [] || h == [HarnessSuppressed]
            || h == [Reserved] || h == [Reserved, ConfigurationError] || h == [Reserved, DeliveryUnknown]
            || h == [Reserved, DeliveryUnknown, Sent] || h == [Reserved, DeliveryUnknown, Failed]
            || h == [Reserved, DeliveryUnknown, DeliveryUnknown]
  {
    if Story(h) {
      if |h| == 1 { assert h == [h[0]]; }
      if |h| == 2 { assert h == [h[0], h[1]]; }
      if |h| == 3 { assert h == [h[0], h[1], h[2]]; }
    }
  }

  lemma {:induction false} TransportsCounted(sent: seq<Key>, key: Key)
    ensures Transports(sent, key) == 0 <==> key !in sent
    ensures Transports(sent, key) <= 1 <==>
      forall i, j :: 0 <= i < j < |sent| && sent[i] == key ==> sent[j] != key
  {
    if sent != [] {
      var n := |sent| - 1;
      TransportsCounted(sent[..n], key);
      assert sent == sent[..n] + [sent[n]];
      if Transports(sent[..n], key) > 1 {
        var i, j :| 0 <= i < j < n && sent[..n][i] == key && sent[..n][j] == key;
        assert sent[i] == key && sent[j] == key;
      } else if Transports(sent[..n], key) == 1 && sent[n] == key {
        var i :| 0 <= i < n && sent[..n][i] == key;
        assert sent[i] == key && sent[n] == key;
      }
    }
  }

  /** Any number of concurrent calls, stopped anywhere: each (sink, event) leaves the process at most once,
      its rows tell one of the stories, and a send implies the row that announced it. */
  lemma {:induction false} AtMostOneTransport(steps: seq<Step>, key: Key)
    requires ValidRun(INIT, steps)
    ensures var s := Run(INIT, steps);
      && Transports(s.transported, key) <= 1
      && Story(History(s.rows, key))
      && (Transports(s.transported, key) == 1 ==>
        |History(s.rows, key)| >= 2 && History(s.rows, key)[1] == DeliveryUnknown)
      && (HasRow(s.rows, key) <==> History(s.rows, key) != [])
      && (forall i, j :: 0 <= i < j < |s.transported| && s.transported[i] == key ==> s.transported[j] != key)
  {
    TransportsCounted(Run(INIT, steps).transported, key);
    RunKeepsInv(INIT, steps);
    assert KeyOk(History(Run(INIT, steps).rows, key), Transports(Run(INIT, steps).transported, key),
      HasRow(Run(INIT, steps).rows, key));
  }

  /** Whenever a send can happen its attempted row is already durable, and nothing was sent for the key. */
  lemma {:induction false} AnnouncedBeforeSend(steps: seq<Step>, c: nat, outcome: Status)
    requires ValidRun(INIT, steps) && Enabled(Run(INIT, steps), Transport(c, outcome))
    ensures var s := Run(INIT, steps);
      var key := Key(s.calls[c].place.sink, s.calls[c].event);
      History(s.rows, key) == [Reserved, DeliveryUnknown] && Transports(s.transported, key) == 0
  {
    RunKeepsInv(INIT, steps);
    var s := Run(INIT, steps);
    var key := Key(s.calls[c].place.sink, s.calls[c].event);
    assert Owned(s.calls[c]) == Some(key);
    assert KeyOk(History(s.rows, key), Transports(s.transported, key), HasRow(s.rows, key));
    var h := History(s.rows, key);
    assert h == [h[0], h[1]];
  }

  /** A suppressed row has an earlier confirmed terminal of the same sink, session, turn and run within the
      window, and a duplicate row never falls back on the default original status. */
  lemma {:induction false} SuppressionsAndDuplicatesAreJustified(steps: seq<Step>, i: nat)
    requires ValidRun(INIT, steps) && i < |Run(INIT, steps).rows| && Run(INIT, steps).rows[i].Delivery?
    ensures var rows := Run(INIT, steps).rows;
      && (rows[i].status == HarnessSuppressed ==> exists j :: 0 <= j < i && Witness(rows[j], rows[i].key, rows[i].at))
      && (rows[i].status == DuplicateSuppressed ==>
            rows[i].original.Some? && exists j ::
              0 <= j < i && Keyed(rows[j], rows[i].key) && Some(rows[j].status) == rows[i].original)
  {
    RunKeepsInv(INIT, steps);
    var rows := Run(INIT, steps).rows;
    if rows[i].status == HarnessSuppressed {
      var j :| 0 <= j < |rows[..i]| && Witness(rows[..i][j], rows[i].key, rows[i].at);
      assert Witness(rows[j], rows[i].key, rows[i].at);
    }
  }

  lemma {:induction false} RunConcat(s: State, first: seq<Step>, second: seq<Step>)
    requires ValidRun(s, first) && ValidRun(Run(s, first), second)
    ensures ValidRun(s, first + second) && Run(s, first + second) == Run(Run(s, first), second)
    decreases |first|
  {
    if first == [] {
      assert first + second == second;
    } else {
      assert (first + second)[1..] == first[1..] + second;
      RunConcat(Apply(s, first[0]), first[1..], second);
    }
  }

  /** The ledger only ever grows. */
  lemma {:induction false} LedgerIsAppendOnly(s: State, steps: seq<Step>)
    requires ValidRun(s, steps)
    ensures s.rows <= Run(s, steps).rows
    decreases |steps|
  {
    if steps != [] { LedgerIsAppendOnly(Apply(s, steps[0]), steps[1..]); }
  }

  /** Some row of the ledger says so. */
  ghost predicate Tells(rows: seq<Row>, key: Key, status: Status) {
    exists i :: 0 <= i < |rows| && Keyed(rows[i], key) && rows[i].status == status
  }

  lemma {:induction false} StillTells(before: State, steps: seq<Step>, after: State, key: Key, status: Status)
    requires Performs(before, steps, after) && Tells(before.rows, key, status)
    ensures Tells(after.rows, key, status)
  {
    LedgerIsAppendOnly(before, steps);
    var i :| 0 <= i < |before.rows| && Keyed(before.rows[i], key) && before.rows[i].status == status;
    assert after.rows[i] == before.rows[i];
  }

  ghost predicate Performs(before: State, steps: seq<Step>, after: State) {
    ValidRun(before, steps) && Run(before, steps) == after
  }

  lemma {:induction false} PerformsMore(before: State, steps: seq<Step>, middle: State, step: Step)
    requires Performs(before, steps, middle) && Enabled(middle, step)
    ensures Performs(before, steps + [step], Apply(middle, step))
  {
    assert [step][1..] == [];
    RunConcat(before, steps, [step]);
  }

  lemma {:induction false} PerformsBoth(before: State, first: seq<Step>, middle: State, second: seq<Step>, after: State)
    requires Performs(before, first, middle) && Performs(middle, second, after)
    ensures Performs(before, first + second, after)
  {
    RunConcat(before, first, second);
  }

  lemma {:induction false} SendsStay(before: State, steps: seq<Step>, after: State)
    requires Performs(before, steps, after)
    ensures before.transported <= after.transported
    decreases |steps|
  {
    if steps != [] { SendsStay(Apply(before, steps[0]), steps[1..], after); }
  }

  /** What the rest of the world does in one call. `calm`: the lock is free whenever it is tried, every append is whole,
      the call is not stopped, and no other call leaves a broken ledger. A sink may lack its configuration, and a sender
      reports success, failure or nothing. */
  datatype World = World(calm: bool, configured: Sink -> bool, reply: Sink -> Option<bool>)

  /** The outcome of a delivery that was reserved. */
  ghost predicate OutcomeIn(world: World, sink: Sink, status: Status) {
    && (!world.configured(sink) ==> status == ConfigurationError)
    && (world.configured(sink) && world.reply(sink) == Some(true) ==> status == Sent)
    && (world.configured(sink) && world.reply(sink) == Some(false) ==> status == Failed)
    && (world.configured(sink) && world.reply(sink) == None ==> status == DeliveryUnknown)
  }

  ghost predicate StatusIn(world: World, sink: Sink, status: Status) {
    status == DuplicateSuppressed || status == HarnessSuppressed || OutcomeIn(world, sink, status)
  }

  ghost predicate AllIn(world: World, sinks: seq<Sink>, n: nat, results: map<Sink, Status>)
    requires n <= |sinks|
  {
    && (forall k :: 0 <= k < n ==> sinks[k] in results)
    && (forall sink :: sink in results ==> sink in sinks[..n] && StatusIn(world, sink, results[sink]))
  }

  ghost predicate AllTold(event: Event, sinks: seq<Sink>, n: nat, results: map<Sink, Status>, rows: seq<Row>)
    requires n <= |sinks|
  {
    forall k :: 0 <= k < n ==> sinks[k] in results && Tells(rows, Key(sinks[k], event), results[sinks[k]])
  }

  lemma {:induction false} TellAgain(event: Event, sinks: seq<Sink>, n: nat, results: map<Sink, Status>,
                                     before: State, steps: seq<Step>, after: State)
    requires n <= |sinks| && AllTold(event, sinks, n, results, before.rows) && Performs(before, steps, after)
    ensures AllTold(event, sinks, n, results, after.rows)
  {
    forall k | 0 <= k < n ensures Tells(after.rows, Key(sinks[k], event), results[sinks[k]]) {
      StillTells(before, steps, after, Key(sinks[k], event), results[sinks[k]]);
    }
  }

  // ----- `notify` as a method over the shared ledger -----

  /** How the write of a row can end: whole, or with an exception or the end of the process at any point. */
  datatype Fate = Written | NothingWritten | CutInside | LineEndMissing | WrittenThenStopped

  /** Appending `row` at `time` is what the step of call `c` does. */
  ghost predicate Writes(s: State, c: nat, row: Row, time: int, step: Step) {
    && c < |s.calls| && !s.torn && Enabled(s, step)
    && var t := Apply(s, step);
       t.rows == s.rows + [row] && t.torn == s.unended && !t.unended && t.now == time && |t.calls| == |s.calls|
  }

  lemma {:induction false} PerformsOne(before: State, step: Step)
    requires Enabled(before, step)
    ensures Performs(before, [step], Apply(before, step))
  {
    assert [step][1..] == [];
  }

  lemma {:induction false} PerformsTwo(before: State, step: Step, next: Step)
    requires Enabled(before, step) && Enabled(Apply(before, step), next)
    ensures Performs(before, [step, next], Apply(Apply(before, step), next))
  {
    PerformsOne(before, step);
    PerformsMore(before, [step], Apply(before, step), next);
    assert [step] + [next] == [step, next];
  }

  /** The fate of a write of `taken` characters; the last two are those of its end and its line end. */
  function FateOf(taken: nat, length: nat, stopped: bool): Fate {
    if taken == 0 then NothingWritten
    else if taken + 1 < length then CutInside
    else if taken + 1 == length then LineEndMissing
    else if stopped then WrittenThenStopped else Written
  }

  function EndingFor(s: State): L.Ending {
    if s.torn then L.Torn else if s.unended then L.Unended else L.Clean
  }

  /** What is left of the ledger after such a write. */
  ghost predicate Leaves(before: State, row: Row, time: int, fate: Fate, after: State) {
    && after.rows == (if fate.NothingWritten? || fate.CutInside? then before.rows else before.rows + [row])
    && after.torn == (fate.CutInside? || (!fate.NothingWritten? && before.unended))
    && after.unended == (if fate.NothingWritten? then before.unended else fate.LineEndMissing? && !before.unended)
    && after.now == if fate.NothingWritten? || fate.CutInside? then before.now else time
  }

  /** Every such write is a run of the protocol: the step, if the row is complete, and the end of the call, if it was
      stopped. */
  lemma {:induction false} FatePerforms(before: State, c: nat, row: Row, time: int, step: Step, fate: Fate)
    returns (steps: seq<Step>, after: State)
    requires Writes(before, c, row, time, step)
    ensures Performs(before, steps, after) && Leaves(before, row, time, fate, after)
    ensures fate.Written? ==> steps == [step] && after == Apply(before, step)
  {
    var last := if fate.CutInside? then Tear(c) else if fate.LineEndMissing? && !before.unended then Chop(c)
      else Abort(c);
    if fate.NothingWritten? || fate.CutInside? {
      steps, after := [last], Apply(before, last);
      PerformsOne(before, last);
    } else if fate.Written? {
      steps, after := [step], Apply(before, step);
      PerformsOne(before, step);
    } else {
      steps, after := [step, last], Apply(Apply(before, step), last);
      PerformsTwo(before, step, last);
    }
  }

  lemma {:induction false} LeavesGrown(codec: L.Codec<Row>, before: State, l: L.OpenLedger<Row>, row: Row, time: int,
                                       taken: nat, stopped: bool, after: State)
    requires !before.torn && l.rows == before.rows && l.ending == EndingFor(before) && taken <= |L.Line(codec, row)|
    requires codec.encode(row) != []
    requires Leaves(before, row, time, FateOf(taken, |L.Line(codec, row)|, stopped), after)
    ensures L.GrownOpen(codec, l, L.Piece(row, taken)).rows == after.rows
    ensures L.GrownOpen(codec, l, L.Piece(row, taken)).ending == EndingFor(after) && !(after.torn && after.unended)
  {
    assert |L.Line(codec, row)| == |codec.encode(row)| + 1;
  }

  /** The ledger is kept as its text; the rows and the flags the protocol speaks of are what the text holds. */
  class Ledger {
    const codec: L.Codec<Row>
    var text: string
    ghost var pieces: seq<L.Piece<Row>>
    ghost var rows: seq<Row>
    ghost var torn: bool
    ghost var unended: bool
    ghost var calls: seq<Call>
    ghost var transported: seq<Key>
    var now: int

    ghost predicate Valid()
      reads this
    {
      L.Sound(codec) && !(torn && unended) && L.HoldsOpen(codec, L.OpenLedger(text, pieces, rows, EndingFor(View())))
    }

    constructor (codec: L.Codec<Row>)
      requires L.Sound(codec)
      ensures Valid() && this.codec == codec && View() == INIT
    {
      this.codec := codec;
      text, pieces, rows, torn, unended, calls, transported, now := [], [], [], false, false, [], [], 0;
    }

    ghost function View(): (s: State)
      reads this
    {
      State(rows, torn, unended, calls, transported, now)
    }

    /** Every row stands whole on its own line. */
    ghost predicate Whole()
      reads this
    {
      !torn && !unended
    }

    ghost method Become(s: State)
      modifies this`calls, this`transported
      ensures calls == s.calls && transported == s.transported
    {
      calls, transported := s.calls, s.transported;
    }

    /** Other calls, and time, may do anything between two sections of call `c`. */
    method Interfere(world: World, ghost c: nat) returns (ghost steps: seq<Step>)
      requires Valid() && c < |calls|
      modifies this
      ensures Valid() && Performs(old(View()), steps, View())
      ensures c < |calls| && calls[c] == old(calls[c])
      ensures world.calm && old(Whole()) ==> Whole()
    {
      steps := [];
    }

    /** Every line of the file, or nothing if one of them no longer parses. */
    method Records() returns (found: Option<seq<Row>>)
      requires Valid()
      ensures found == if torn then None else Some(rows)
    {
      L.HoldsOpenReads(codec, L.OpenLedger(text, pieces, rows, EndingFor(View())));
      found := L.LenientRecords(codec, text);
    }

    /** The nonblocking lock: refused when the file stays busy or its rows no longer parse. */
    method TryLock(world: World) returns (found: Option<seq<Row>>)
      requires Valid()
      ensures found.Some? ==> !torn && found.value == rows
      ensures world.calm && !torn ==> found.Some?
    {
      var busy: bool :| world.calm ==> !busy;
      if busy { return None; }
      found := Records();
    }

    method Clock() returns (time: int)
      ensures time >= now
    {
      var passed :| 0 <= passed;
      time := now + passed;
    }

    /** The file takes `taken` characters of the row's line. */
    method Write(row: Row, taken: nat, ghost after: State)
      requires Valid() && taken <= |L.Line(codec, row)|
      requires var l := L.OpenLedger(text, pieces, rows, EndingFor(View()));
        var grown := L.GrownOpen(codec, l, L.Piece(row, taken));
        grown.rows == after.rows && grown.ending == EndingFor(after) && !(after.torn && after.unended)
      modifies this`text, this`pieces, this`rows, this`torn, this`unended
      ensures Valid() && rows == after.rows && torn == after.torn && unended == after.unended
    {
      var content := L.Line(codec, row);
      ghost var before := L.OpenLedger(text, pieces, rows, EndingFor(View()));
      L.GrownOpenHolds(codec, before, L.Piece(row, taken));
      text, pieces := text + content[..taken], pieces + [L.Piece(row, taken)];
      rows, torn, unended := after.rows, after.torn, after.unended;
    }

    /** One append under the lock. If it is not finished the call is over, and the next reader finds what was
        written. */
    method Append(world: World, ghost c: nat, row: Row, time: int, ghost step: Step)
      returns (ok: bool, ghost steps: seq<Step>)
      requires Valid() && Writes(View(), c, row, time, step)
      modifies this
      ensures Valid() && Performs(old(View()), steps, View())
      ensures ok ==> steps == [step] && View() == Apply(old(View()), step)
      ensures world.calm ==> ok
      ensures ok && old(Whole()) ==> Whole()
    {
      ghost var before := View();
      var content := L.Line(codec, row);
      var taken: nat :| taken <= |content|;
      if world.calm { taken := |content|; }
      var stopped: bool :| world.calm ==> !stopped;
      var fate := FateOf(taken, |content|, stopped);
      ok := fate.Written?;
      ghost var after;
      steps, after := FatePerforms(before, c, row, time, step, fate);
      LeavesGrown(codec, before, L.OpenLedger(text, pieces, rows, EndingFor(before)), row, time, taken, stopped, after);
      Write(row, taken, after);
      Become(after);
      if !fate.NothingWritten? && !fate.CutInside? { now := time; }
      assert View() == after;
    }

    /** A call arrives and writes down that it saw the event. */
    method Observed(world: World, event: Event, ghost sinks: seq<Sink>) returns (ok: bool, ghost steps: seq<Step>)
      requires Valid()
      modifies this
      ensures Valid()
      ensures Performs(old(View()), steps, View())
      ensures ok ==> |calls| == old(|calls|) + 1 && calls[old(|calls|)] == Call(event, Between(sinks))
      ensures ok ==> rows == old(rows) + [Plain]
      ensures world.calm && old(Whole()) ==> ok && Whole()
    {
      ghost var before := View();
      ghost var c := |calls|;
      steps := [Arrive(event, sinks)];
      PerformsOne(before, Arrive(event, sinks));
      Become(Apply(before, Arrive(event, sinks)));
      var found := TryLock(world);
      ok := found.Some?;
      if !ok { return; }
      ghost var arrived := View();
      ghost var more;
      ok, more := Append(world, c, Plain, now, Observe(c));
      PerformsBoth(before, steps, arrived, more, View());
      steps := steps + more;
    }

    /** One call for one event: observe, then for each enabled sink reserve, announce, send, record. A lock that is
        refused or a row that is not written ends the call, which then reports no sink; nothing is ever retried. */
    method Notify(world: World, event: Event, sinks: seq<Sink>)
      returns (finished: bool, results: map<Sink, Status>, ghost steps: seq<Step>)
      requires Valid()
      modifies this
      ensures Valid()
      ensures Performs(old(View()), steps, View())
      ensures finished ==> AllTold(event, sinks, |sinks|, results, rows)
      ensures !finished ==> results == map[]
      ensures finished ==> AllIn(world, sinks, |sinks|, results)
      ensures world.calm && old(Whole()) ==> finished && Whole()
    {
      ghost var before := View();
      ghost var c := |calls|;
      finished, results := false, map[];
      ghost var more;
      var ok;
      ok, steps := Observed(world, event, sinks);
      if !ok { return; }
      var i := 0;
      while i < |sinks|
        invariant 0 <= i <= |sinks| && !finished
        invariant Valid() && Performs(before, steps, View())
        invariant c < |calls| && calls[c] == Call(event, Between(sinks[i..]))
        invariant AllTold(event, sinks, i, results, rows) && AllIn(world, sinks, i, results)
        invariant world.calm && old(Whole()) ==> Whole()
      {
        ghost var middle := View();
        var status: Option<Status>;
        assert [sinks[i]] + sinks[i + 1..] == sinks[i..];
        status, more := NextSink(world, c, event, sinks[i], sinks[i + 1..]);
        PerformsBoth(before, steps, middle, more, View());
        steps := steps + more;
        TellAgain(event, sinks, i, results, middle, more, View());
        if status.None? { return false, map[], steps; }
        results := results[sinks[i] := status.value];
        i := i + 1;
      }
      finished := true;
    }

    /** What others do between two sinks, and then the next sink. */
    method NextSink(world: World, ghost c: nat, event: Event, sink: Sink, ghost rest: seq<Sink>)
      returns (status: Option<Status>, ghost steps: seq<Step>)
      requires c < |calls| && calls[c] == Call(event, Between([sink] + rest))
      requires Valid()
      modifies this
      ensures Valid()
      ensures Performs(old(View()), steps, View())
      ensures status.Some? ==>
        c < |calls| && calls[c] == Call(event, Between(rest)) && Tells(rows, Key(sink, event), status.value)
      ensures status.Some? ==> StatusIn(world, sink, status.value)
      ensures world.calm && old(Whole()) ==> status.Some? && Whole()
    {
      ghost var before := View();
      steps := Interfere(world, c);
      ghost var middle := View();
      ghost var more;
      ghost var clock;
      status, more, clock := ToSink(world, c, event, sink, rest);
      PerformsBoth(before, steps, middle, more, View());
      steps := steps + more;
    }

    /** The locked decision for one sink: one row, as the ledger calls for it. */
    method Decision(world: World, ghost c: nat, event: Event, sink: Sink, ghost rest: seq<Sink>)
      returns (row: Option<Row>, ghost steps: seq<Step>, ghost checkTime: int)
      requires c < |calls| && calls[c] == Call(event, Between([sink] + rest))
      requires Valid()
      modifies this
      ensures Valid()
      ensures Performs(old(View()), steps, View())
      ensures checkTime >= old(now)
      ensures row.Some? ==> Keyed(row.value, Key(sink, event)) && rows == old(rows) + [row.value]
      ensures world.calm && old(Whole()) ==> row.Some? && Whole()
      ensures row.Some? ==> CalledFor(old(rows), Key(sink, event), checkTime, row.value.status)
      ensures row.Some? ==> transported == old(transported) && c < |calls|
      ensures row.Some? && row.value.status == Reserved ==> calls[c] == Call(event, Owns(sink, row.value.at, rest))
      ensures row.Some? && row.value.status != Reserved ==> calls[c] == Call(event, Between(rest))
    {
      steps, row, checkTime := [], None, now;
      var found := TryLock(world);
      if found.None? { return; }
      var rowTime := Clock();
      var clock := Clock();
      if clock < rowTime { clock := rowTime; }
      checkTime := clock;
      var next := Section(found.value, Key(sink, event), rowTime, clock);
      SectionIsCalledFor(rows, Key(sink, event), rowTime, clock);
      assert ([sink] + rest)[1..] == rest;
      var ok;
      ok, steps := Append(world, c, next, clock, Decide(c, rowTime, clock));
      if ok { row := Some(next); }
    }

    /** The decision for one sink, and the delivery if it was reserved. */
    method ToSink(world: World, ghost c: nat, event: Event, sink: Sink, ghost rest: seq<Sink>)
      returns (status: Option<Status>, ghost steps: seq<Step>, ghost checkTime: int)
      requires c < |calls| && calls[c] == Call(event, Between([sink] + rest))
      requires Valid()
      modifies this
      ensures Valid()
      ensures Performs(old(View()), steps, View())
      ensures status.Some? ==>
        c < |calls| && calls[c] == Call(event, Between(rest)) && Tells(rows, Key(sink, event), status.value)
      ensures status.Some? ==> StatusIn(world, sink, status.value)
      ensures world.calm && old(Whole()) ==> status.Some? && Whole()
      ensures status.Some? ==> checkTime >= old(now) && CalledFor(old(rows), Key(sink, event), checkTime,
        if status.value in {DuplicateSuppressed, HarnessSuppressed} then status.value else Reserved)
      ensures status.Some? && status.value in {DuplicateSuppressed, HarnessSuppressed} ==>
        transported == old(transported) && |rows| == |old(rows)| + 1
      ensures status.Some? && status.value in {Sent, Failed, DeliveryUnknown} ==> Key(sink, event) in transported
    {
      ghost var before := View();
      var row;
      row, steps, checkTime := Decision(world, c, event, sink, rest);
      status := None;
      if row.None? { return; }
      assert rows[|rows| - 1] == row.value;
      if row.value.status != Reserved { return Some(row.value.status), steps, checkTime; }
      ghost var middle := View();
      ghost var more;
      status, more := Attempt(world, c, event, sink, row.value.at, rest);
      PerformsBoth(before, steps, middle, more, View());
      steps := steps + more;
    }

    /** Deliver a reserved event to its sink and record how that went. */
    method Attempt(world: World, ghost c: nat, event: Event, sink: Sink, rowTime: int, ghost rest: seq<Sink>)
      returns (status: Option<Status>, ghost steps: seq<Step>)
      requires c < |calls| && calls[c] == Call(event, Owns(sink, rowTime, rest))
      requires Valid()
      modifies this
      ensures Valid()
      ensures Performs(old(View()), steps, View())
      ensures status.Some? ==>
        c < |calls| && calls[c] == Call(event, Between(rest)) && Tells(rows, Key(sink, event), status.value)
      ensures status.Some? ==> OutcomeIn(world, sink, status.value)
      ensures status.Some? && world.configured(sink) ==> Key(sink, event) in transported
      ensures world.calm && old(Whole()) ==> status.Some? && Whole()
      ensures status.Some? ==> status.value in {ConfigurationError, Sent, Failed, DeliveryUnknown}
    {
      ghost var before := View();
      var outcome;
      outcome, steps := Dispatch(world, c, event, sink, rowTime, rest);
      status := None;
      if outcome.None? { return; }
      ghost var middle := View();
      ghost var more := Interfere(world, c);
      SendsStay(middle, more, View());
      PerformsBoth(before, steps, middle, more, View());
      steps := steps + more;
      middle := View();
      var ok;
      ok, more := RecordOutcome(world, c, event, sink, outcome.value, rest);
      PerformsBoth(before, steps, middle, more, View());
      steps := steps + more;
      if ok { status := outcome; }
    }

    /** The final row of a delivery. */
    method RecordOutcome(world: World, ghost c: nat, event: Event, sink: Sink, outcome: Status, ghost rest: seq<Sink>)
      returns (ok: bool, ghost steps: seq<Step>)
      requires c < |calls| && calls[c] == Call(event, Finished(sink, outcome, rest))
      requires Valid()
      modifies this
      ensures Valid()
      ensures Performs(old(View()), steps, View())
      ensures ok ==> c < |calls| && calls[c] == Call(event, Between(rest)) && Tells(rows, Key(sink, event), outcome)
      ensures ok ==> transported == old(transported)
      ensures world.calm && old(Whole()) ==> ok && Whole()
    {
      steps := [];
      var found := TryLock(world);
      ok := found.Some?;
      if !ok { return; }
      var time := Clock();
      ok, steps := Append(world, c, Delivery(Key(sink, event), outcome, time, None), time, Record(c, time));
      if ok { assert Keyed(rows[|rows| - 1], Key(sink, event)); }
    }

    /** Up to the outcome: a configuration error, or an attempt announced in the ledger before it is made. */
    method Dispatch(world: World, ghost c: nat, event: Event, sink: Sink, rowTime: int, ghost rest: seq<Sink>)
      returns (outcome: Option<Status>, ghost steps: seq<Step>)
      requires c < |calls| && calls[c] == Call(event, Owns(sink, rowTime, rest))
      requires Valid()
      modifies this
      ensures Valid()
      ensures Performs(old(View()), steps, View())
      ensures outcome.Some? ==> c < |calls| && calls[c] == Call(event, Finished(sink, outcome.value, rest))
      ensures outcome.Some? ==> outcome.value in {ConfigurationError, Sent, Failed, DeliveryUnknown}
      ensures outcome.Some? ==> OutcomeIn(world, sink, outcome.value)
      ensures outcome.Some? && world.configured(sink) ==> Key(sink, event) in transported
      ensures world.calm && old(Whole()) ==> outcome.Some? && Whole()
    {
      ghost var before := View();
      outcome := None;
      steps := Interfere(world, c);
      ghost var middle := View();
      if !world.configured(sink) {
        PerformsMore(before, steps, middle, Misconfigured(c));
        steps := steps + [Misconfigured(c)];
        Become(Apply(middle, Misconfigured(c)));
        outcome := Some(ConfigurationError);
        return;
      }
      ghost var more;
      var ok;
      ok, more := AnnounceSend(world, c, event, sink, rowTime, rest);
      PerformsBoth(before, steps, middle, more, View());
      steps := steps + more;
      if !ok { return; }
      middle := View();
      var sent := Send(world, sink);
      PerformsMore(before, steps, middle, Transport(c, sent));
      steps := steps + [Transport(c, sent)];
      Become(Apply(middle, Transport(c, sent)));
      outcome := Some(sent);
    }

    /** The row that announces a send, and what others do before it is made. */
    method AnnounceSend(world: World, ghost c: nat, event: Event, sink: Sink, rowTime: int, ghost rest: seq<Sink>)
      returns (ok: bool, ghost steps: seq<Step>)
      requires c < |calls| && calls[c] == Call(event, Owns(sink, rowTime, rest))
      requires Valid()
      modifies this
      ensures Valid()
      ensures Performs(old(View()), steps, View())
      ensures ok ==> c < |calls| && calls[c] == Call(event, Announced(sink, rowTime, rest))
      ensures world.calm && old(Whole()) ==> ok && Whole()
    {
      ghost var before := View();
      steps := [];
      var found := TryLock(world);
      ok := found.Some?;
      if !ok { return; }
      ok, steps := Append(world, c, Delivery(Key(sink, event), DeliveryUnknown, rowTime, None), now, Announce(c));
      if !ok { return; }
      ghost var middle := View();
      ghost var others := Interfere(world, c);
      PerformsBoth(before, steps, middle, others, View());
      steps := steps + others;
    }

    /** The forked sender reports one of three outcomes; anything else it says is unknown. */
    method Send(world: World, sink: Sink) returns (outcome: Status)
      ensures outcome in {Sent, Failed, DeliveryUnknown}
      ensures world.configured(sink) ==> OutcomeIn(world, sink, outcome)
    {
      outcome := match world.reply(sink)
        case None => DeliveryUnknown
        case Some(true) => Sent
        case Some(false) => Failed;
    }
  }
}
