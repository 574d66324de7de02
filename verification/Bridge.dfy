/** The bridge dispatcher: an append-only consumption ledger, a reserve-before-send
    protocol and a controller that may die between any two durable actions. */
module Bridge {
  import opened Wrappers

  /** Digest of an event's identity (delivery time and sequence are not part of it). */
  type EventId = nat

  /** What an event file says besides its identity: delivery order, whether it names the bound
      thread and task, and whether its signature and manifest still verify. */
  datatype BridgeEvent = BridgeEvent(sequence: nat, bound: bool, readable: bool)

  /** Ledger rows. The reservation key is an injective digest of `ids`, so `ids` stands for both. */
  datatype Row =
    | Reserved(ids: seq<EventId>)
    | Acknowledged(ids: seq<EventId>)
    | Ambiguous(ids: seq<EventId>)
    | Completed(ids: seq<EventId>)
    | TurnStartRpc
    | OtherRow(note: string)

  /** A turn/start request that really left the process. */
  datatype Wire = InitialTurn | Continuation(ids: seq<EventId>)

  datatype Budget = Budget(wakes: nat, turns: nat)

  ghost predicate ValidBudget(b: Budget) {
    1 <= b.wakes <= 3 && 2 <= b.turns <= 4
  }

  // ----- Views of the ledger -----

  function ReservedRows(rows: seq<Row>): (r: seq<seq<EventId>>) {
    if rows == [] then []
    else
      var front := ReservedRows(rows[..|rows| - 1]);
      var last := rows[|rows| - 1];
      if last.Reserved? then front + [last.ids] else front
  }

  function TurnStarts(rows: seq<Row>): (n: nat) {
    if rows == [] then 0
    else TurnStarts(rows[..|rows| - 1]) + (if rows[|rows| - 1].TurnStartRpc? then 1 else 0)
  }

  predicate HasAmbiguous(rows: seq<Row>) {
    exists i :: 0 <= i < |rows| && rows[i].Ambiguous?
  }

  predicate IsCompleted(rows: seq<Row>, ids: seq<EventId>) {
    exists i :: 0 <= i < |rows| && rows[i] == Completed(ids)
  }

  predicate AllAcknowledged(rows: seq<Row>) {
    forall i :: 0 <= i < |ReservedRows(rows)| ==> IsCompleted(rows, ReservedRows(rows)[i])
  }

  /** A RESERVED, COMPLETED or AMBIGUOUS row takes its events out of the pending set. */
  predicate Consumed(rows: seq<Row>, id: EventId) {
    exists i :: 0 <= i < |rows| && (rows[i].Reserved? || rows[i].Completed? || rows[i].Ambiguous?) && id in rows[i].ids
  }

  predicate NoDuplicates<T(==)>(s: seq<T>) {
    forall i, j :: 0 <= i < j < |s| ==> s[i] != s[j]
  }

  predicate Before(events: map<EventId, BridgeEvent>, a: EventId, b: EventId)
    requires a in events && b in events
  {
    events[a].sequence < events[b].sequence || (events[a].sequence == events[b].sequence && a < b)
  }

  /** `ids` is exactly the pending listing: the unconsumed events, each once, in (sequence, id) order. */
  predicate PendingListing(events: map<EventId, BridgeEvent>, rows: seq<Row>, ids: seq<EventId>) {
    && (forall i :: 0 <= i < |ids| ==> ids[i] in events && !Consumed(rows, ids[i]))
    && (forall id :: id in events && !Consumed(rows, id) ==> id in ids)
    && (forall i, j :: 0 <= i < j < |ids| ==> Before(events, ids[i], ids[j]))
  }

  // ----- The step system -----

  /** Where the single controller process is. `Blocked` is the process unwinding an exception. */
  datatype Pc =
    | Down
    | Starting
    | Bound
    | InitialLogged
    | Working
    | Ready
    | Holding(ids: seq<EventId>)
    | Logged(ids: seq<EventId>)
    | Sent(ids: seq<EventId>)
    | Acked(ids: seq<EventId>)
    | Failing(ids: seq<EventId>)
    | Blocked

  /** Durable state (ledger, event files, binding file), the wire, and the controller's volatile place. `torn`: some
      append was cut off; `large`: the ledger file is above the limit of what is read. */
  datatype State = State(
    rows: seq<Row>,
    torn: bool,
    large: bool,
    events: map<EventId, BridgeEvent>,
    binding: bool,
    wire: seq<Wire>,
    pc: Pc)

  /** How an append can raise: nothing written, part of a line written, or the line durable anyway. */
  datatype Fault = NothingWritten | PartialLine | DurableLine

  datatype Step =
    | PutEvent(id: EventId, event: BridgeEvent)
    | Tamper(id: EventId, readable: bool)
    | Note(note: string)
    | NoteFails(note: string, fault: Fault)
    | Outgrow
    | StartFresh
    | StartRecovery
    | Bind
    | LogInitial
    | SendInitial
    | FinishWork
    | Suppress
    | Reserve(ids: seq<EventId>)
    | LogContinuation
    | Transmit
    | Acknowledge
    | Complete
    | Raise
    | AppendRaises(next: seq<EventId>, fault: Fault)
    | MarkAmbiguous
    | Crash

  const INIT := State([], false, false, map[], false, [], Down)

  /** `records` gives the rows: nothing is cut and the file is not above the limit of what is read. */
  predicate Readable(s: State) {
    !s.torn && !s.large
  }

  /** The refusals of `deliver`, in the order of the code; `Proceed` means a reservation is written. */
  predicate MayReserve(s: State, budget: Budget, ids: seq<EventId>) {
    && Readable(s)
    && !HasAmbiguous(s.rows)
    && PendingListing(s.events, s.rows, ids)
    && ids != []
    && (forall id :: id in s.events ==> s.events[id].readable)
    && (forall i :: 0 <= i < |ids| ==> ids[i] in s.events && s.events[ids[i]].bound)
    && AllAcknowledged(s.rows)
    && |ReservedRows(s.rows)| < budget.wakes
    && TurnStarts(s.rows) < budget.turns
  }

  /** The row the controller is about to append in each place where one is due. */
  function DueRow(pc: Pc, next: seq<EventId>): Option<Row> {
    match pc
    case Bound => Some(TurnStartRpc)
    case Ready => Some(Reserved(next))
    case Holding(_) => Some(TurnStartRpc)
    case Sent(ids) => Some(Acknowledged(ids))
    case Acked(ids) => Some(Completed(ids))
    case Failing(ids) => Some(Ambiguous(ids))
    case _ => None
  }

  /** Where an exception at `pc` leads: with a reservation held, to the AMBIGUOUS handler. */
  function AfterException(pc: Pc): Pc {
    match pc
    case Holding(ids) => Failing(ids)
    case Logged(ids) => Failing(ids)
    case Sent(ids) => Failing(ids)
    case Acked(ids) => Failing(ids)
    case _ => Blocked
  }

  predicate Enabled(s: State, budget: Budget, step: Step) {
    match step
    case PutEvent(id, _) => id !in s.events
    case Tamper(id, _) => id in s.events
    case Note(_) => s.pc != Down
    case Outgrow => true
    case NoteFails(_, _) => s.pc != Down
    case StartFresh => s.pc == Down && Readable(s)
    case StartRecovery => s.pc == Down && Readable(s) && s.binding && exists id ::
      id in s.events && !Consumed(s.rows, id)
    case Bind => s.pc == Starting && !s.binding
    case LogInitial => s.pc == Bound
    case SendInitial => s.pc == InitialLogged
    case FinishWork => s.pc == Working
    case Suppress => s.pc == Ready && Readable(s) && PendingListing(s.events, s.rows, [])
    case Reserve(ids) => s.pc == Ready && MayReserve(s, budget, ids)
    case LogContinuation => s.pc.Holding?
    case Transmit => s.pc.Logged?
    case Acknowledge => s.pc.Sent?
    case Complete => s.pc.Acked?
    case Raise => s.pc != Down
    case AppendRaises(next, _) =>
      DueRow(s.pc, next).Some? && (s.pc == Ready ==> MayReserve(s, budget, next))
    case MarkAmbiguous => s.pc.Failing?
    case Crash => s.pc != Down
  }

  function Apply(s: State, step: Step): (t: State) {
    match step
    case PutEvent(id, event) => s.(events := s.events[id := event])
    case Tamper(id, readable) =>
      if id in s.events then s.(events := s.events[id := s.events[id].(readable := readable)]) else s
    case Note(note) => s.(rows := s.rows + [OtherRow(note)])
    case NoteFails(note, fault) => Faulty(s, OtherRow(note), fault)
    case Outgrow => s.(large := true)
    case StartFresh => s.(pc := Starting)
    case StartRecovery => s.(pc := Ready)
    case Bind => s.(binding := true, pc := Bound)
    case LogInitial => s.(rows := s.rows + [TurnStartRpc], pc := InitialLogged)
    case SendInitial => s.(wire := s.wire + [InitialTurn], pc := Working)
    case FinishWork => s.(pc := Ready)
    case Suppress => s.(pc := Down)
    case Reserve(ids) => s.(rows := s.rows + [Reserved(ids)], pc := Holding(ids))
    case LogContinuation =>
      if s.pc.Holding? then s.(rows := s.rows + [TurnStartRpc], pc := Logged(s.pc.ids)) else s
    case Transmit =>
      if s.pc.Logged? then s.(wire := s.wire + [Continuation(s.pc.ids)], pc := Sent(s.pc.ids)) else s
    case Acknowledge =>
      if s.pc.Sent? then s.(rows := s.rows + [Acknowledged(s.pc.ids)], pc := Acked(s.pc.ids)) else s
    case Complete =>
      if s.pc.Acked? then s.(rows := s.rows + [Completed(s.pc.ids)], pc := Ready) else s
    case Raise => s.(pc := AfterException(s.pc))
    case AppendRaises(next, fault) =>
      if DueRow(s.pc, next).Some? then Faulty(s, DueRow(s.pc, next).value, fault).(pc := AfterException(s.pc)) else s
    case MarkAmbiguous =>
      if s.pc.Failing? then s.(rows := s.rows + [Ambiguous(s.pc.ids)], pc := Blocked) else s
    case Crash => s.(pc := Down)
  }

  /** The durable effect of an append that raised. Dying inside an append is this followed by `Crash`. */
  function Faulty(s: State, row: Row, fault: Fault): (t: State) {
    match fault
    case NothingWritten => s
    case PartialLine => s.(torn := true)
    case DurableLine => s.(rows := s.rows + [row])
  }

  predicate ValidRun(s: State, budget: Budget, steps: seq<Step>)
    decreases |steps|
  {
    steps == [] || (Enabled(s, budget, steps[0]) && ValidRun(Apply(s, steps[0]), budget, steps[1..]))
  }

  function Run(s: State, steps: seq<Step>): (t: State)
    decreases |steps|
  {
    if steps == [] then s else Run(Apply(s, steps[0]), steps[1..])
  }

  // ----- The invariant -----

  ghost predicate Virgin(rows: seq<Row>) {
    forall i :: 0 <= i < |rows| ==> rows[i].OtherRow?
  }

  /** No event is in two reservations, nor twice in one. */
  ghost predicate ReservedOnce(rows: seq<Row>) {
    && (forall i :: 0 <= i < |rows| && rows[i].Reserved? ==> NoDuplicates(rows[i].ids))
    && (forall i, j, id :: 0 <= i < j < |rows| && rows[i].Reserved? && rows[j].Reserved? && id in rows[i].ids ==>
      id !in rows[j].ids)
  }

  ghost predicate SentOnce(wire: seq<Wire>) {
    forall i, j, id :: 0 <= i < j < |wire| && wire[i].Continuation? && wire[j].Continuation? && id in wire[i].ids ==>
      id !in wire[j].ids
  }

  ghost predicate SentWereReserved(s: State) {
    forall k :: 0 <= k < |s.wire| && s.wire[k].Continuation? ==> Reserved(s.wire[k].ids) in s.rows
  }

  /** Nothing is reserved and no turn is started below an AMBIGUOUS row. */
  ghost predicate AmbiguityIsFinal(rows: seq<Row>) {
    forall i, j :: 0 <= i < j < |rows| && rows[i].Ambiguous? ==> !rows[j].Reserved? && !rows[j].TurnStartRpc?
  }

  ghost predicate EarlierCompleted(rows: seq<Row>) {
    forall i :: 0 <= i < |ReservedRows(rows)| - 1 ==> IsCompleted(rows, ReservedRows(rows)[i])
  }

  /** What the controller knows in each place. */
  ghost predicate PcInv(s: State, budget: Budget) {
    match s.pc
    case Starting => true
    case Bound => s.binding && Virgin(s.rows) && s.wire == []
    case InitialLogged => s.binding && !HasAmbiguous(s.rows) && |s.wire| < TurnStarts(s.rows)
    case Holding(ids) =>
      && s.binding && Unsent(s, ids) && !HasAmbiguous(s.rows) && TurnStarts(s.rows) < budget.turns
    case Logged(ids) =>
      && s.binding && Unsent(s, ids) && !HasAmbiguous(s.rows) && |s.wire| < TurnStarts(s.rows)
    case Down => true
    case Blocked => true
    case _ => s.binding
  }

  ghost predicate Unsent(s: State, ids: seq<EventId>) {
    && Reserved(ids) in s.rows
    && forall k, id :: 0 <= k < |s.wire| && s.wire[k].Continuation? && id in s.wire[k].ids ==> id !in ids
  }

  ghost predicate Inv(s: State, budget: Budget) {
    && ReservedOnce(s.rows)
    && SentOnce(s.wire)
    && SentWereReserved(s)
    && AmbiguityIsFinal(s.rows)
    && EarlierCompleted(s.rows)
    && |ReservedRows(s.rows)| <= budget.wakes
    && TurnStarts(s.rows) <= budget.turns
    && |s.wire| <= TurnStarts(s.rows)
    && (!s.binding ==> Virgin(s.rows) && s.wire == [])
    && PcInv(s, budget)
  }

  lemma {:induction false} RowsAppend(rows: seq<Row>, row: Row)
    ensures ReservedRows(rows + [row]) == if row.Reserved? then ReservedRows(rows) + [row.ids] else ReservedRows(rows)
    ensures TurnStarts(rows + [row]) == TurnStarts(rows) + if row.TurnStartRpc? then 1 else 0
    ensures forall ids :: IsCompleted(rows, ids) ==> IsCompleted(rows + [row], ids)
    ensures HasAmbiguous(rows + [row]) <==> HasAmbiguous(rows) || row.Ambiguous?
  {
    var all := rows + [row];
    assert all[..|all| - 1] == rows;
    forall ids | IsCompleted(rows, ids) ensures IsCompleted(all, ids) {
      var i :| 0 <= i < |rows| && rows[i] == Completed(ids);
      assert all[i] == Completed(ids);
    }
    if HasAmbiguous(rows) {
      var i :| 0 <= i < |rows| && rows[i].Ambiguous?;
      assert all[i].Ambiguous?;
    }
    if row.Ambiguous? { assert all[|rows|].Ambiguous?; }
  }

  lemma {:induction false} VirginCounts(rows: seq<Row>)
    requires Virgin(rows)
    ensures ReservedRows(rows) == [] && TurnStarts(rows) == 0 && !HasAmbiguous(rows)
  {
    if rows != [] { VirginCounts(rows[..|rows| - 1]); }
  }

  /** Appending a row that is neither a reservation nor a turn start keeps every ledger clause. */
  lemma {:induction false} AppendPlain(s: State, budget: Budget, row: Row)
    requires Inv(s, budget) && !row.Reserved? && !row.TurnStartRpc?
    requires s.binding || row.OtherRow?
    requires row.OtherRow? || !(s.pc.Bound? || s.pc.InitialLogged? || s.pc.Holding? || s.pc.Logged?)
    ensures Inv(s.(rows := s.rows + [row]), budget)
  {
    RowsAppend(s.rows, row);
    var t := s.(rows := s.rows + [row]);
    forall k | 0 <= k < |t.wire| && t.wire[k].Continuation? ensures Reserved(t.wire[k].ids) in t.rows {
      assert Reserved(s.wire[k].ids) in s.rows;
    }
  }

  lemma {:induction false} AppendTurnStart(s: State, budget: Budget)
    requires Inv(s, budget) && s.binding && !HasAmbiguous(s.rows) && TurnStarts(s.rows) < budget.turns
    requires !s.pc.Bound? && !s.pc.Holding?
    ensures Inv(s.(rows := s.rows + [TurnStartRpc]), budget)
  {
    RowsAppend(s.rows, TurnStartRpc);
    var t := s.(rows := s.rows + [TurnStartRpc]);
    forall k | 0 <= k < |t.wire| && t.wire[k].Continuation? ensures Reserved(t.wire[k].ids) in t.rows {
      assert Reserved(s.wire[k].ids) in s.rows;
    }
    assert forall i :: 0 <= i < |t.rows| ==> !t.rows[i].Ambiguous?;
  }

  /** The heart of the protocol: a listing that passed the checks is fresh to both ledger and wire. */
  lemma {:induction false} ReserveKeepsInv(s: State, budget: Budget, ids: seq<EventId>, pc: Pc)
    requires Inv(s, budget) && s.pc == Ready && MayReserve(s, budget, ids)
    requires pc in {Holding(ids), Blocked}
    ensures Inv(s.(rows := s.rows + [Reserved(ids)], pc := pc), budget)
  {
    var row := Reserved(ids);
    var t := s.(rows := s.rows + [row], pc := pc);
    RowsAppend(s.rows, row);
    forall i, id | 0 <= i < |s.rows| && s.rows[i].Reserved? && id in s.rows[i].ids ensures id !in ids {
      assert Consumed(s.rows, id);
    }
    assert ReservedOnce(t.rows);
    forall k | 0 <= k < |t.wire| && t.wire[k].Continuation?
      ensures Reserved(t.wire[k].ids) in t.rows && forall id :: id in t.wire[k].ids ==> id !in ids
    {
      assert Reserved(s.wire[k].ids) in s.rows;
      var i :| 0 <= i < |s.rows| && s.rows[i] == Reserved(s.wire[k].ids);
    }
    assert t.rows[|s.rows|] == Reserved(ids);
    forall i | 0 <= i < |ReservedRows(t.rows)| - 1 ensures IsCompleted(t.rows, ReservedRows(t.rows)[i]) {
      assert ReservedRows(t.rows)[i] == ReservedRows(s.rows)[i];
      assert IsCompleted(s.rows, ReservedRows(s.rows)[i]);
    }
    assert forall i :: 0 <= i < |t.rows| ==> !t.rows[i].Ambiguous?;
  }

  lemma {:induction false} TransmitKeepsInv(s: State, budget: Budget)
    requires Inv(s, budget) && s.pc.Logged?
    ensures Inv(Apply(s, Transmit), budget)
  {
    var t := Apply(s, Transmit);
    forall k | 0 <= k < |t.wire| && t.wire[k].Continuation? ensures Reserved(t.wire[k].ids) in t.rows {
      if k < |s.wire| { assert Reserved(s.wire[k].ids) in s.rows; }
    }
  }

  lemma {:induction false} SendInitialKeepsInv(s: State, budget: Budget)
    requires Inv(s, budget) && s.pc.InitialLogged?
    ensures Inv(Apply(s, SendInitial), budget)
  {
    var t := Apply(s, SendInitial);
    forall k | 0 <= k < |t.wire| && t.wire[k].Continuation? ensures Reserved(t.wire[k].ids) in t.rows {
      assert Reserved(s.wire[k].ids) in s.rows;
    }
  }

  /** Steps that touch neither ledger nor wire only have to justify the new place. */
  lemma {:induction false} PlaceKeepsInv(s: State, t: State, budget: Budget)
    requires Inv(s, budget) && t.rows == s.rows && t.wire == s.wire && (s.binding ==> t.binding) && PcInv(t, budget)
    ensures Inv(t, budget)
  {
  }

  /** The place after an exception asks for nothing the place before did not know. */
  lemma {:induction false} ExceptionPlace(s: State, budget: Budget)
    requires PcInv(s, budget) && DueRow(s.pc, []).Some?
    requires s.pc.Ready? ==> s.binding
    ensures PcInv(s.(pc := AfterException(s.pc)), budget)
    ensures s.binding
  {
  }

  lemma {:induction false} RaisedTurnStartKeepsInv(s: State, budget: Budget)
    requires ValidBudget(budget) && Inv(s, budget) && (s.pc.Bound? || s.pc.Holding?)
    ensures Inv(s.(rows := s.rows + [TurnStartRpc], pc := AfterException(s.pc)), budget)
  {
    ExceptionPlace(s, budget);
    var moved := s.(pc := AfterException(s.pc));
    PlaceKeepsInv(s, moved, budget);
    if s.pc.Bound? { VirginCounts(s.rows); }
    AppendTurnStart(moved, budget);
  }

  lemma {:induction false} RaisedReceiptKeepsInv(s: State, budget: Budget, row: Row)
    requires Inv(s, budget) && (s.pc.Sent? || s.pc.Acked? || s.pc.Failing?) && DueRow(s.pc, []) == Some(row)
    ensures Inv(s.(rows := s.rows + [row], pc := AfterException(s.pc)), budget)
  {
    ExceptionPlace(s, budget);
    var moved := s.(pc := AfterException(s.pc));
    PlaceKeepsInv(s, moved, budget);
    AppendPlain(moved, budget, row);
  }

  /** An append that raised leaves the invariant to the handler that runs next. */
  lemma {:induction false} RaisingAppendKeepsInv(s: State, budget: Budget, next: seq<EventId>, fault: Fault)
    requires ValidBudget(budget) && Inv(s, budget)
    requires DueRow(s.pc, next).Some? && (s.pc == Ready ==> MayReserve(s, budget, next))
    ensures Inv(Faulty(s, DueRow(s.pc, next).value, fault).(pc := AfterException(s.pc)), budget)
  {
    if !fault.DurableLine? {
      ExceptionPlace(s, budget);
      PlaceKeepsInv(s, Faulty(s, DueRow(s.pc, next).value, fault).(pc := AfterException(s.pc)), budget);
    } else if s.pc.Ready? {
      ReserveKeepsInv(s, budget, next, Blocked);
    } else if s.pc.Bound? || s.pc.Holding? {
      RaisedTurnStartKeepsInv(s, budget);
    } else {
      RaisedReceiptKeepsInv(s, budget, DueRow(s.pc, next).value);
    }
  }

  lemma {:induction false} MoveKeepsPcInv(s: State, budget: Budget, step: Step)
    requires PcInv(s, budget) && (!s.binding ==> Virgin(s.rows) && s.wire == []) && Enabled(s, budget, step)
    requires step.PutEvent? || step.Tamper? || step.StartFresh? || step.StartRecovery? || step.Bind?
             || step.FinishWork? || step.Suppress? || step.Raise? || step.Crash? || step.Outgrow?
    ensures PcInv(Apply(s, step), budget)
  {
  }

  lemma {:induction false} NoteKeepsInv(s: State, budget: Budget, step: Step)
    requires Inv(s, budget) && Enabled(s, budget, step) && (step.Note? || step.NoteFails?)
    ensures Inv(Apply(s, step), budget)
  {
    if step.Note? || step.fault.DurableLine? {
      AppendPlain(s, budget, OtherRow(step.note));
    } else {
      PlaceKeepsInv(s, Apply(s, step), budget);
    }
  }

  lemma {:induction false} TurnStartKeepsInv(s: State, budget: Budget, step: Step)
    requires ValidBudget(budget) && Inv(s, budget) && Enabled(s, budget, step)
    requires (step.LogInitial? || step.LogContinuation?)
    ensures Inv(Apply(s, step), budget)
  {
    if step.LogInitial? { VirginCounts(s.rows); }
    var moved := s.(pc := Working);
    PlaceKeepsInv(s, moved, budget);
    AppendTurnStart(moved, budget);
    RowsAppend(s.rows, TurnStartRpc);
    var t := Apply(s, step);
    if step.LogContinuation? { assert t.rows[..|s.rows|] == s.rows; }
    PlaceKeepsInv(moved.(rows := t.rows), t, budget);
  }

  lemma {:induction false} HandlerKeepsInv(s: State, budget: Budget, step: Step)
    requires Inv(s, budget) && Enabled(s, budget, step) && (step.Acknowledge? || step.Complete? || step.MarkAmbiguous?)
    ensures Inv(Apply(s, step), budget)
  {
    var t := Apply(s, step);
    AppendPlain(s, budget, DueRow(s.pc, []).value);
    PlaceKeepsInv(s.(rows := t.rows), t, budget);
  }

  predicate Appends(step: Step) {
    step.Note? || step.NoteFails? || step.LogInitial? || step.LogContinuation? || step.Reserve? || step.AppendRaises?
  }

  lemma {:induction false} AppendingKeepsInv(s: State, budget: Budget, step: Step)
    requires ValidBudget(budget) && Inv(s, budget) && Enabled(s, budget, step) && Appends(step)
    ensures Inv(Apply(s, step), budget)
  {
    match step
    case Note(_) => NoteKeepsInv(s, budget, step);
    case NoteFails(_, _) => NoteKeepsInv(s, budget, step);
    case LogInitial => TurnStartKeepsInv(s, budget, step);
    case LogContinuation => TurnStartKeepsInv(s, budget, step);
    case Reserve(ids) => ReserveKeepsInv(s, budget, ids, Holding(ids));
    case AppendRaises(next, fault) => RaisingAppendKeepsInv(s, budget, next, fault);
  }

  lemma {:induction false} MovingKeepsInv(s: State, budget: Budget, step: Step)
    requires ValidBudget(budget) && Inv(s, budget) && Enabled(s, budget, step) && !Appends(step)
    requires !(step.SendInitial? || step.Transmit? || step.Acknowledge? || step.Complete? || step.MarkAmbiguous?)
    ensures Inv(Apply(s, step), budget)
  {
    MoveKeepsPcInv(s, budget, step);
    PlaceKeepsInv(s, Apply(s, step), budget);
  }

  lemma {:induction false} StepKeepsInv(s: State, budget: Budget, step: Step)
    requires ValidBudget(budget) && Inv(s, budget) && Enabled(s, budget, step)
    ensures Inv(Apply(s, step), budget)
  {
    if Appends(step) {
      AppendingKeepsInv(s, budget, step);
    } else if step.SendInitial? {
      SendInitialKeepsInv(s, budget);
    } else if step.Transmit? {
      TransmitKeepsInv(s, budget);
    } else if step.Acknowledge? || step.Complete? || step.MarkAmbiguous? {
      HandlerKeepsInv(s, budget, step);
    } else {
      MovingKeepsInv(s, budget, step);
    }
  }

  lemma {:induction false} RunKeepsInv(s: State, budget: Budget, steps: seq<Step>)
    requires ValidBudget(budget) && Inv(s, budget) && ValidRun(s, budget, steps)
    ensures Inv(Run(s, steps), budget)
    decreases |steps|
  {
    if steps != [] {
      StepKeepsInv(s, budget, steps[0]);
      RunKeepsInv(Apply(s, steps[0]), budget, steps[1..]);
    }
  }

  // ----- What every run keeps -----

  lemma {:induction false} InitInv(budget: Budget)
    ensures Inv(INIT, budget)
  {
  }

  predicate Reserves(row: Row, id: EventId) {
    row.Reserved? && id in row.ids
  }

  predicate Sends(sent: Wire, id: EventId) {
    sent.Continuation? && id in sent.ids
  }

  /** Over any run with crashes, torn writes, tampering and restarts: an event is in at most one RESERVED
      row and leaves the process in at most one continuation, and then it had been reserved. */
  lemma {:induction false} ExactlyOnce(budget: Budget, steps: seq<Step>, id: EventId)
    requires ValidBudget(budget) && ValidRun(INIT, budget, steps)
    ensures var s := Run(INIT, steps);
      && (forall i, j ::
        0 <= i < |s.rows| && 0 <= j < |s.rows| && Reserves(s.rows[i], id) && Reserves(s.rows[j], id) ==> i == j)
      && (forall i, j :: 0 <= i < |s.wire| && 0 <= j < |s.wire| && Sends(s.wire[i], id) && Sends(s.wire[j], id) ==>
        i == j)
      && (forall i :: 0 <= i < |s.wire| && s.wire[i].Continuation? ==> Reserved(s.wire[i].ids) in s.rows)
  {
    InitInv(budget);
    RunKeepsInv(INIT, budget, steps);
  }

  /** Both budgets hold in every run, every reservation but the last is completed, and the ledger never
      shows a reservation or a turn start below an AMBIGUOUS row. */
  lemma {:induction false} BudgetsHold(budget: Budget, steps: seq<Step>)
    requires ValidBudget(budget) && ValidRun(INIT, budget, steps)
    ensures var s := Run(INIT, steps);
      && |ReservedRows(s.rows)| <= budget.wakes
      && |s.wire| <= TurnStarts(s.rows) <= budget.turns
      && EarlierCompleted(s.rows)
      && AmbiguityIsFinal(s.rows)
  {
    InitInv(budget);
    RunKeepsInv(INIT, budget, steps);
  }

  /** What a reservation takes was never transmitted before: recovery delivers only unsent events. */
  lemma {:induction false} ReservesOnlyUnsent(budget: Budget, steps: seq<Step>, ids: seq<EventId>, k: nat, id: EventId)
    requires ValidBudget(budget) && ValidRun(INIT, budget, steps)
    requires MayReserve(Run(INIT, steps), budget, ids)
    requires k < |Run(INIT, steps).wire| && Run(INIT, steps).wire[k].Continuation? && id in Run(INIT, steps).wire[k].ids
    ensures id !in ids
  {
    var s := Run(INIT, steps);
    InitInv(budget);
    RunKeepsInv(INIT, budget, steps);
    assert Reserved(s.wire[k].ids) in s.rows;
    assert Consumed(s.rows, id);
  }

  /** What no later step may change once delivery has stopped. */
  ghost predicate SameDeliveries(s: State, t: State) {
    && ReservedRows(t.rows) == ReservedRows(s.rows)
    && TurnStarts(t.rows) == TurnStarts(s.rows)
    && t.wire == s.wire
  }

  /** The row a step appends, if any. */
  function NewRow(s: State, step: Step): (r: Option<Row>) {
    match step
    case Note(note) => Some(OtherRow(note))
    case NoteFails(note, fault) => if fault.DurableLine? then Some(OtherRow(note)) else None
    case LogInitial => Some(TurnStartRpc)
    case LogContinuation => Some(TurnStartRpc)
    case Reserve(ids) => Some(Reserved(ids))
    case Acknowledge => DueRow(s.pc, [])
    case Complete => DueRow(s.pc, [])
    case MarkAmbiguous => DueRow(s.pc, [])
    case AppendRaises(next, fault) => if fault.DurableLine? then DueRow(s.pc, next) else None
    case _ => None
  }

  lemma {:induction false} StepAppends(s: State, budget: Budget, step: Step)
    requires Enabled(s, budget, step)
    ensures Apply(s, step).rows == match NewRow(s, step) case None => s.rows case Some(row) => s.rows + [row]
  {
  }

  lemma {:induction false} AmbiguityForbidsRow(s: State, budget: Budget, step: Step)
    requires PcInv(s, budget) && HasAmbiguous(s.rows) && Enabled(s, budget, step) && NewRow(s, step).Some?
    ensures !NewRow(s, step).value.Reserved? && !NewRow(s, step).value.TurnStartRpc?
  {
    if s.pc.Bound? { VirginCounts(s.rows); }
  }

  lemma {:induction false} AmbiguityStep(s: State, budget: Budget, step: Step)
    requires PcInv(s, budget) && HasAmbiguous(s.rows) && Enabled(s, budget, step)
    ensures SameDeliveries(s, Apply(s, step)) && HasAmbiguous(Apply(s, step).rows)
  {
    StepAppends(s, budget, step);
    if NewRow(s, step).Some? {
      AmbiguityForbidsRow(s, budget, step);
      RowsAppend(s.rows, NewRow(s, step).value);
    }
  }

  /** After an AMBIGUOUS row nothing is reserved, started or sent again, in this process or a recovered one. */
  lemma {:induction false} AmbiguityStops(s: State, budget: Budget, steps: seq<Step>)
    requires ValidBudget(budget) && Inv(s, budget) && HasAmbiguous(s.rows) && ValidRun(s, budget, steps)
    ensures SameDeliveries(s, Run(s, steps)) && HasAmbiguous(Run(s, steps).rows)
    decreases |steps|
  {
    if steps != [] {
      StepKeepsInv(s, budget, steps[0]);
      AmbiguityStep(s, budget, steps[0]);
      AmbiguityStops(Apply(s, steps[0]), budget, steps[1..]);
    }
  }

  /** A reservation that was never completed, and no process left that could complete it. */
  ghost predicate Orphaned(s: State) {
    !AllAcknowledged(s.rows) && s.pc in {Down, Starting, Ready, Blocked}
  }

  lemma {:induction false} OrphanForbidsRow(s: State, budget: Budget, step: Step)
    requires Orphaned(s) && s.binding && Enabled(s, budget, step)
    ensures NewRow(s, step).None? || NewRow(s, step).value.OtherRow?
    ensures Apply(s, step).pc in {Down, Starting, Ready, Blocked} && Apply(s, step).wire == s.wire
  {
  }

  lemma {:induction false} OrphanStep(s: State, budget: Budget, step: Step)
    requires (!s.binding ==> Virgin(s.rows)) && Orphaned(s) && Enabled(s, budget, step)
    ensures SameDeliveries(s, Apply(s, step)) && Orphaned(Apply(s, step))
  {
    if !s.binding { VirginCounts(s.rows); }
    OrphanForbidsRow(s, budget, step);
    StepAppends(s, budget, step);
    if NewRow(s, step).Some? {
      RowsAppend(s.rows, NewRow(s, step).value);
      OtherRowCompletesNothing(s.rows, NewRow(s, step).value);
    }
  }

  /** A reservation its process did not complete is never retried: no restart reserves, starts or sends
      anything, whatever became of the first send. */
  lemma {:induction false} OrphanStops(s: State, budget: Budget, steps: seq<Step>)
    requires ValidBudget(budget) && Inv(s, budget) && Orphaned(s) && ValidRun(s, budget, steps)
    ensures SameDeliveries(s, Run(s, steps)) && Orphaned(Run(s, steps))
    decreases |steps|
  {
    if steps != [] {
      StepKeepsInv(s, budget, steps[0]);
      OrphanStep(s, budget, steps[0]);
      OrphanStops(Apply(s, steps[0]), budget, steps[1..]);
    }
  }

  lemma {:induction false} OtherRowCompletesNothing(rows: seq<Row>, row: Row)
    requires !AllAcknowledged(rows) && row.OtherRow?
    ensures !AllAcknowledged(rows + [row])
  {
    RowsAppend(rows, row);
    var i :| 0 <= i < |ReservedRows(rows)| && !IsCompleted(rows, ReservedRows(rows)[i]);
    var all := rows + [row];
    forall j | 0 <= j < |all| ensures all[j] != Completed(ReservedRows(rows)[i]) {
      if j < |rows| { assert all[j] == rows[j]; }
    }
  }

  /** A ledger that is torn or too large makes `records` fail for good, so once the process is gone nothing at all is
      written or sent. */
  lemma {:induction false} UnreadableStops(s: State, budget: Budget, steps: seq<Step>)
    requires !Readable(s) && s.pc == Down && ValidRun(s, budget, steps)
    ensures Run(s, steps).rows == s.rows && Run(s, steps).wire == s.wire && Run(s, steps).pc == Down
    ensures !Readable(Run(s, steps))
    decreases |steps|
  {
    if steps != [] { UnreadableStops(Apply(s, steps[0]), budget, steps[1..]); }
  }

  lemma {:induction false} UnreadableStep(s: State, budget: Budget, step: Step)
    requires !Readable(s) && Enabled(s, budget, step)
    ensures ReservedRows(Apply(s, step).rows) == ReservedRows(s.rows) && !Readable(Apply(s, step))
  {
    StepAppends(s, budget, step);
    if NewRow(s, step).Some? {
      assert !NewRow(s, step).value.Reserved?;
      RowsAppend(s.rows, NewRow(s, step).value);
    }
  }

  /** A process still alive over such a ledger can finish what it holds but reserves nothing more. */
  lemma {:induction false} UnreadableReservesNothing(s: State, budget: Budget, steps: seq<Step>)
    requires !Readable(s) && ValidRun(s, budget, steps)
    ensures ReservedRows(Run(s, steps).rows) == ReservedRows(s.rows)
    decreases |steps|
  {
    if steps != [] {
      UnreadableStep(s, budget, steps[0]);
      UnreadableReservesNothing(Apply(s, steps[0]), budget, steps[1..]);
    }
  }

  /** The steps of a run that are its own, without the file growing past the limit. */
  function Acts(steps: seq<Step>): seq<Step> {
    if steps == [] then []
    else
      var (front, last) := (Acts(steps[..|steps| - 1]), steps[|steps| - 1]);
      if last.Outgrow? then front else front + [last]
  }

  lemma {:induction false} ActsConcat(first: seq<Step>, second: seq<Step>)
    ensures Acts(first + second) == Acts(first) + Acts(second)
    decreases |second|
  {
    if second == [] {
      assert first + second == first;
    } else {
      assert (first + second)[..|first + second| - 1] == first + second[..|second| - 1];
      ActsConcat(first, second[..|second| - 1]);
    }
  }

  lemma {:induction false} RunSnoc(s: State, budget: Budget, steps: seq<Step>, last: Step)
    requires ValidRun(s, budget, steps) && Enabled(Run(s, steps), budget, last)
    ensures ValidRun(s, budget, steps + [last]) && Run(s, steps + [last]) == Apply(Run(s, steps), last)
    decreases |steps|
  {
    if steps == [] {
      assert ([last])[1..] == [];
    } else {
      assert (steps + [last])[1..] == steps[1..] + [last];
      RunSnoc(Apply(s, steps[0]), budget, steps[1..], last);
    }
  }

  lemma {:induction false} RunConcat(s: State, budget: Budget, first: seq<Step>, second: seq<Step>)
    requires ValidRun(s, budget, first) && ValidRun(Run(s, first), budget, second)
    ensures ValidRun(s, budget, first + second) && Run(s, first + second) == Run(Run(s, first), second)
    decreases |second|
  {
    if second == [] {
      assert first + second == first;
    } else {
      RunSnoc(s, budget, first, second[0]);
      RunConcat(s, budget, first + [second[0]], second[1..]);
      assert first + [second[0]] + second[1..] == first + second;
    }
  }

  /** The sorted pending listing is determined by the events and the ledger. */
  lemma {:induction false} ListingIsUnique(s: State, budget: Budget, ids: seq<EventId>)
    requires PendingListing(s.events, s.rows, ids)
    ensures forall other :: MayReserve(s, budget, other) ==> other == ids
  {
    forall other | MayReserve(s, budget, other) ensures other == ids {
      SortedListingsAgree(s.events, other, ids);
    }
  }

  lemma {:induction false} First(s: seq<EventId>) returns (first: EventId)
    requires s != []
    ensures first in s
  {
    first := s[0];
  }

  lemma {:induction false} SortedListingsAgree(events: map<EventId, BridgeEvent>, a: seq<EventId>, b: seq<EventId>)
    requires forall i :: 0 <= i < |a| ==> a[i] in events
    requires forall i :: 0 <= i < |b| ==> b[i] in events
    requires forall id :: id in a <==> id in b
    requires forall i, j :: 0 <= i < j < |a| ==> Before(events, a[i], a[j])
    requires forall i, j :: 0 <= i < j < |b| ==> Before(events, b[i], b[j])
    ensures a == b
    decreases |a|
  {
    if a == [] {
      if b != [] {
        var _ := First(b);
        assert false;
      }
    } else {
      assert a[0] in b;
      assert b != [] && b[0] in a;
      assert a[0] == b[0];
      assert forall id :: id in a[1..] <==> id in a && id != a[0];
      assert forall id :: id in b[1..] <==> id in b && id != b[0];
      SortedListingsAgree(events, a[1..], b[1..]);
      assert a == [a[0]] + a[1..] && b == [b[0]] + b[1..];
    }
  }

  // ----- No reservation is forgotten -----

  predicate Holds(pc: Pc, ids: seq<EventId>) {
    pc in {Holding(ids), Logged(ids), Sent(ids), Acked(ids), Failing(ids)}
  }

  /** The process does not die, its handler of exceptions is not interrupted, and no append of a reservation raises. */
  predicate Smooth(s: State, step: Step) {
    && !step.Crash? && (s.pc.Failing? ==> !step.Raise? && !step.AppendRaises?)
    && (s.pc.Ready? ==> !step.AppendRaises?)
  }

  predicate SmoothRun(s: State, steps: seq<Step>)
    decreases |steps|
  {
    steps == [] || (Smooth(s, steps[0]) && SmoothRun(Apply(s, steps[0]), steps[1..]))
  }

  ghost predicate Settled(s: State) {
    forall ids :: Reserved(ids) in s.rows ==>
      Completed(ids) in s.rows || Ambiguous(ids) in s.rows || Holds(s.pc, ids)
  }

  lemma {:induction false} StepSettles(s: State, budget: Budget, step: Step)
    requires Enabled(s, budget, step) && Smooth(s, step) && Settled(s)
    ensures Settled(Apply(s, step))
  {
    var t := Apply(s, step);
    StepAppends(s, budget, step);
    forall ids | Reserved(ids) in t.rows
      ensures Completed(ids) in t.rows || Ambiguous(ids) in t.rows || Holds(t.pc, ids) {
      StepSettlesOne(s, budget, step, ids);
    }
  }

  lemma {:induction false} StepSettlesOne(s: State, budget: Budget, step: Step, ids: seq<EventId>)
    requires Enabled(s, budget, step) && Smooth(s, step) && Reserved(ids) in Apply(s, step).rows
    requires Reserved(ids) in s.rows ==> Completed(ids) in s.rows || Ambiguous(ids) in s.rows || Holds(s.pc, ids)
    requires Apply(s, step).rows == s.rows + if NewRow(s, step).Some? then [NewRow(s, step).value] else []
    ensures var t := Apply(s, step); Completed(ids) in t.rows || Ambiguous(ids) in t.rows || Holds(t.pc, ids)
  {
    if Completed(ids) in s.rows || Ambiguous(ids) in s.rows { return; }
    if NewRow(s, step).Some? { assert NewRow(s, step).value in Apply(s, step).rows; }
  }

  /** Whatever goes wrong with a delivery, as long as the process lives and its handler runs undisturbed every
      reservation is completed, given up as ambiguous, or still in the process's hands. */
  lemma {:induction false} EveryReservationIsSettled(s: State, budget: Budget, steps: seq<Step>)
    requires Settled(s) && ValidRun(s, budget, steps) && SmoothRun(s, steps)
    ensures Settled(Run(s, steps))
    decreases |steps|
  {
    if steps != [] {
      StepSettles(s, budget, steps[0]);
      EveryReservationIsSettled(Apply(s, steps[0]), budget, steps[1..]);
    }
  }

  // ----- When a delivery is due -----

  /** The positions of the rows of one kind. */
  function ReservedAt(rows: seq<Row>): set<nat> {
    set i: nat | i < |rows| && rows[i].Reserved?
  }

  function StartedAt(rows: seq<Row>): set<nat> {
    set i: nat | i < |rows| && rows[i].TurnStartRpc?
  }

  lemma {:induction false} LastCounted(rows: seq<Row>)
    requires rows != []
    ensures var n := |rows| - 1;
      && ReservedAt(rows) == ReservedAt(rows[..n]) + (if rows[n].Reserved? then {n} else {})
      && StartedAt(rows) == StartedAt(rows[..n]) + (if rows[n].TurnStartRpc? then {n} else {})
      && n !in ReservedAt(rows[..n]) && n !in StartedAt(rows[..n])
  {
  }

  lemma {:induction false} RowsCounted(rows: seq<Row>)
    ensures |ReservedRows(rows)| == |ReservedAt(rows)| && TurnStarts(rows) == |StartedAt(rows)|
  {
    if rows != [] {
      var n := |rows| - 1;
      RowsCounted(rows[..n]);
      LastCounted(rows);
    }
  }

  lemma {:induction false} ReservedListed(rows: seq<Row>, ids: seq<EventId>)
    ensures ids in ReservedRows(rows) <==> Reserved(ids) in rows
  {
    if rows != [] {
      ReservedListed(rows[..|rows| - 1], ids);
      assert rows == rows[..|rows| - 1] + [rows[|rows| - 1]];
    }
  }

  /** The event is in no row that reserves, completes or gives up a delivery. */
  predicate Untaken(rows: seq<Row>, id: EventId) {
    forall i :: 0 <= i < |rows| ==>
      && (rows[i].Reserved? ==> id !in rows[i].ids) && (rows[i].Completed? ==> id !in rows[i].ids)
      && (rows[i].Ambiguous? ==> id !in rows[i].ids)
  }

  predicate EveryReservedCompleted(rows: seq<Row>) {
    forall i :: 0 <= i < |rows| && rows[i].Reserved? ==> Completed(rows[i].ids) in rows
  }

  /** In terms of the ledger and the events alone: nothing stands against a delivery, and there is something to
      deliver. */
  ghost predicate DeliveryDue(s: State, budget: Budget) {
    && !s.torn && !s.large
    && (forall i :: 0 <= i < |s.rows| ==> !s.rows[i].Ambiguous?)
    && EveryReservedCompleted(s.rows)
    && |ReservedAt(s.rows)| < budget.wakes && |StartedAt(s.rows)| < budget.turns
    && (forall id :: id in s.events ==> s.events[id].readable)
    && (forall id :: id in s.events && Untaken(s.rows, id) ==> s.events[id].bound)
    && exists id :: id in s.events && Untaken(s.rows, id)
  }

  lemma {:induction false} AcknowledgedMeans(rows: seq<Row>)
    ensures AllAcknowledged(rows) <==> EveryReservedCompleted(rows)
  {
    if AllAcknowledged(rows) {
      forall i | 0 <= i < |rows| && rows[i].Reserved? ensures Completed(rows[i].ids) in rows {
        assert rows[i] == Reserved(rows[i].ids);
        ReservedListed(rows, rows[i].ids);
        var k :| 0 <= k < |ReservedRows(rows)| && ReservedRows(rows)[k] == rows[i].ids;
        assert IsCompleted(rows, ReservedRows(rows)[k]);
      }
    }
    if EveryReservedCompleted(rows) {
      forall k | 0 <= k < |ReservedRows(rows)| ensures IsCompleted(rows, ReservedRows(rows)[k]) {
        ReservedListed(rows, ReservedRows(rows)[k]);
        var i :| 0 <= i < |rows| && rows[i] == Reserved(ReservedRows(rows)[k]);
        assert Completed(rows[i].ids) in rows;
      }
    }
  }

  lemma {:induction false} UntakenMeans(rows: seq<Row>, id: EventId)
    ensures Untaken(rows, id) <==> !Consumed(rows, id)
  {
  }

  ghost predicate Listing(events: map<EventId, BridgeEvent>, some: set<EventId>, ids: seq<EventId>) {
    && some <= events.Keys && (forall id :: id in ids <==> id in some)
    && forall i, j :: 0 <= i < j < |ids| ==> ids[i] in events && ids[j] in events && Before(events, ids[i], ids[j])
  }

  lemma {:induction false} ListingInsert(events: map<EventId, BridgeEvent>, some: set<EventId>, ids: seq<EventId>,
                                         id: EventId) returns (more: seq<EventId>)
    requires Listing(events, some, ids) && id in events && id !in some
    ensures Listing(events, some + {id}, more)
    decreases |ids|
  {
    if ids == [] {
      more := [id];
    } else if Before(events, ids[|ids| - 1], id) {
      more := ids + [id];
    } else {
      var last := ids[|ids| - 1];
      assert ids == ids[..|ids| - 1] + [last];
      var front := ListingInsert(events, some - {last}, ids[..|ids| - 1], id);
      more := front + [last];
      forall i | 0 <= i < |front| ensures front[i] in events && Before(events, front[i], last) {
        assert front[i] in front;
        if front[i] != id {
          var k :| 0 <= k < |ids| - 1 && ids[k] == front[i];
        }
      }
    }
  }

  lemma {:induction false} ListingExists(events: map<EventId, BridgeEvent>, some: set<EventId>)
    returns (ids: seq<EventId>)
    requires some <= events.Keys
    ensures Listing(events, some, ids)
    decreases some
  {
    if some == {} {
      ids := [];
    } else {
      var id :| id in some;
      ids := ListingExists(events, some - {id});
      ids := ListingInsert(events, some - {id}, ids, id);
      assert some - {id} + {id} == some;
    }
  }

  /** A delivery is allowed exactly when it is due. */
  lemma {:induction false} DueIffMayReserve(s: State, budget: Budget)
    ensures (exists ids :: MayReserve(s, budget, ids)) <==> DeliveryDue(s, budget)
  {
    RowsCounted(s.rows);
    AcknowledgedMeans(s.rows);
    forall id ensures Untaken(s.rows, id) <==> !Consumed(s.rows, id) { UntakenMeans(s.rows, id); }
    if ids :| MayReserve(s, budget, ids) {
      assert ids[0] in s.events && Untaken(s.rows, ids[0]);
      forall id | id in s.events && Untaken(s.rows, id) ensures s.events[id].bound {
        assert id in ids;
      }
    }
    if DeliveryDue(s, budget) {
      var some := set id | id in s.events && Untaken(s.rows, id);
      var ids := ListingExists(s.events, some);
      var id :| id in s.events && Untaken(s.rows, id);
      assert id in some;
      forall i | 0 <= i < |ids| ensures ids[i] in some { assert ids[i] in ids; }
      assert MayReserve(s, budget, ids);
    }
  }

  // ----- The budget can be used up -----

  function ContinuationsAt(wire: seq<Wire>): set<nat> {
    set k: nat | k < |wire| && wire[k].Continuation?
  }

  /** A controller that waits for events, after n continuations that were all completed. */
  ghost predicate Idle(s: State, n: nat) {
    && s.pc == Ready && Readable(s) && s.binding && !HasAmbiguous(s.rows) && AllAcknowledged(s.rows)
    && |ReservedRows(s.rows)| == n && TurnStarts(s.rows) == n + 1 && |ContinuationsAt(s.wire)| == n
    && (forall id :: id in s.events ==> s.events[id].readable && Consumed(s.rows, id))
    && forall id: EventId :: Consumed(s.rows, id) ==> id < n
  }

  ghost predicate Reaches(budget: Budget, steps: seq<Step>, s: State) {
    ValidRun(INIT, budget, steps) && Run(INIT, steps) == s
  }

  lemma {:induction false} Onward(budget: Budget, steps: seq<Step>, s: State, step: Step) returns (more: seq<Step>)
    requires Reaches(budget, steps, s) && Enabled(s, budget, step)
    ensures Reaches(budget, more, Apply(s, step))
  {
    RunSnoc(INIT, budget, steps, step);
    more := steps + [step];
  }

  lemma {:induction false} StartupIsIdle(budget: Budget) returns (steps: seq<Step>, s: State)
    ensures Reaches(budget, steps, s) && Idle(s, 0)
  {
    steps := Onward(budget, [], INIT, StartFresh);
    var s1 := INIT.(pc := Starting);
    steps := Onward(budget, steps, s1, Bind);
    var s2 := s1.(binding := true, pc := Bound);
    steps := Onward(budget, steps, s2, LogInitial);
    var s3 := s2.(rows := [] + [TurnStartRpc], pc := InitialLogged);
    steps := Onward(budget, steps, s3, SendInitial);
    var s4 := s3.(wire := [] + [InitialTurn], pc := Working);
    steps := Onward(budget, steps, s4, FinishWork);
    s := s4.(pc := Ready);
    RowsAppend([], TurnStartRpc);
    assert ContinuationsAt(s.wire) == {};
  }

  function Delivery(id: EventId): seq<Row> {
    [Reserved([id]), TurnStartRpc, Acknowledged([id]), Completed([id])]
  }

  lemma {:induction false} DeliveryAdds(rows: seq<Row>, id: EventId)
    requires !HasAmbiguous(rows) && AllAcknowledged(rows)
    ensures var after := rows + Delivery(id);
      && !HasAmbiguous(after) && AllAcknowledged(after) && ReservedRows(after) == ReservedRows(rows) + [[id]]
      && TurnStarts(after) == TurnStarts(rows) + 1
      && forall other :: Consumed(after, other) <==> Consumed(rows, other) || other == id
  {
    var r1 := rows + [Reserved([id])];
    var r2 := r1 + [TurnStartRpc];
    var r3 := r2 + [Acknowledged([id])];
    var after := r3 + [Completed([id])];
    assert after == rows + Delivery(id);
    RowsAppend(rows, Reserved([id]));
    RowsAppend(r1, TurnStartRpc);
    RowsAppend(r2, Acknowledged([id]));
    RowsAppend(r3, Completed([id]));
    assert after[|rows| + 3] == Completed([id]);
    forall i | 0 <= i < |ReservedRows(after)| ensures IsCompleted(after, ReservedRows(after)[i]) {
      if i < |ReservedRows(rows)| {
        assert IsCompleted(rows, ReservedRows(rows)[i]) && IsCompleted(r1, ReservedRows(rows)[i]);
        assert IsCompleted(r2, ReservedRows(rows)[i]) && IsCompleted(r3, ReservedRows(rows)[i]);
      }
    }
    forall other ensures Consumed(after, other) <==> Consumed(rows, other) || other == id {
      ConsumedMore(rows, Reserved([id]), other);
      ConsumedMore(r1, TurnStartRpc, other);
      ConsumedMore(r2, Acknowledged([id]), other);
      ConsumedMore(r3, Completed([id]), other);
    }
  }

  lemma {:induction false} ConsumedMore(rows: seq<Row>, row: Row, id: EventId)
    ensures Consumed(rows + [row], id)
      <==> Consumed(rows, id) || ((row.Reserved? || row.Completed? || row.Ambiguous?) && id in row.ids)
  {
    var all := rows + [row];
    if Consumed(rows, id) {
      var i :| 0 <= i < |rows| && (rows[i].Reserved? || rows[i].Completed? || rows[i].Ambiguous?) && id in rows[i].ids;
      assert all[i] == rows[i];
    }
    assert all[|rows|] == row;
  }

  lemma {:induction false} NewEventIsReserved(s: State, budget: Budget, n: nat)
    requires Idle(s, n) && n < budget.wakes && n + 1 < budget.turns
    ensures n !in s.events && MayReserve(s.(events := s.events[n := BridgeEvent(n, true, true)]), budget, [n])
  {
  }

  /** What a continuation leaves, on the ledger and on the wire. */
  function Delivered(s: State, n: EventId): State {
    s.(rows := s.rows + [Reserved([n])] + [TurnStartRpc] + [Acknowledged([n])] + [Completed([n])],
       wire := s.wire + [Continuation([n])])
  }

  lemma {:induction false} ContinuationRuns(budget: Budget, steps: seq<Step>, s: State, n: EventId)
    returns (more: seq<Step>)
    requires Reaches(budget, steps, s) && s.pc == Ready && MayReserve(s, budget, [n])
    ensures Reaches(budget, more, Delivered(s, n))
  {
    more := Onward(budget, steps, s, Reserve([n]));
    var s2 := s.(rows := s.rows + [Reserved([n])], pc := Holding([n]));
    more := Onward(budget, more, s2, LogContinuation);
    var s3 := s2.(rows := s2.rows + [TurnStartRpc], pc := Logged([n]));
    more := Onward(budget, more, s3, Transmit);
    var s4 := s3.(wire := s3.wire + [Continuation([n])], pc := Sent([n]));
    more := Onward(budget, more, s4, Acknowledge);
    var s5 := s4.(rows := s4.rows + [Acknowledged([n])], pc := Acked([n]));
    more := Onward(budget, more, s5, Complete);
  }

  lemma {:induction false} DeliveredIsIdle(s: State, n: nat)
    requires Idle(s, n)
    ensures Idle(Delivered(s.(events := s.events[n := BridgeEvent(n, true, true)]), n), n + 1)
  {
    var t := Delivered(s.(events := s.events[n := BridgeEvent(n, true, true)]), n);
    assert t.rows == s.rows + Delivery(n);
    DeliveryAdds(s.rows, n);
    assert ContinuationsAt(t.wire) == ContinuationsAt(s.wire) + {|s.wire|};
  }

  lemma {:induction false} OneMore(budget: Budget, steps: seq<Step>, s: State, n: nat)
    returns (more: seq<Step>, t: State)
    requires Reaches(budget, steps, s) && Idle(s, n) && n < budget.wakes && n + 1 < budget.turns
    ensures Reaches(budget, more, t) && Idle(t, n + 1)
  {
    var event := BridgeEvent(n, true, true);
    var s1 := s.(events := s.events[n := event]);
    NewEventIsReserved(s, budget, n);
    more := Onward(budget, steps, s, PutEvent(n, event));
    more := ContinuationRuns(budget, more, s1, n);
    t := Delivered(s1, n);
    DeliveredIsIdle(s, n);
  }

  /** The budgets can be used up: as many continuations as the wake budget allows, as far as the turn budget also allows
      them after the initial turn, are sent and completed in some run. */
  lemma {:induction false} BudgetCanBeUsedUp(budget: Budget, n: nat) returns (steps: seq<Step>, s: State)
    requires n <= budget.wakes && n < budget.turns
    ensures ValidRun(INIT, budget, steps) && Run(INIT, steps) == s
    ensures |ContinuationsAt(s.wire)| == n && |ReservedAt(s.rows)| == n && EveryReservedCompleted(s.rows)
    ensures Idle(s, n)
  {
    if n == 0 {
      steps, s := StartupIsIdle(budget);
    } else {
      steps, s := BudgetCanBeUsedUp(budget, n - 1);
      steps, s := OneMore(budget, steps, s, n - 1);
    }
    RowsCounted(s.rows);
    AcknowledgedMeans(s.rows);
  }
}
