/** The event store and the controller as objects. Every method reports the steps of the bridge
    protocol it performed, and its new state is the run of those steps. */
module Dispatcher {
  import opened Wrappers
  import opened Bridge
  import L = LedgerText

  datatype Refusal =
    | AuthorizationRevoked | ActiveConflict | AuthorizationExpired
    | LedgerTooLarge | LedgerTorn | LedgerUnreadable | AmbiguousDelivery | EventInvalid | BindingMismatch
    | Unacknowledged | WakeBudgetExhausted | TurnBudgetExhausted
    | ManifestInvalid | LedgerWriteFailed | TransportFailed | ConnectionFailed | ConfirmationInvalid | NothingToRecover

  /** What the rest of the world does in one call: whether every append is whole and durable, whether the server answers
      its requests, and whether the continuation turn is confirmed. */
  datatype World = World(writes: bool, answers: bool, confirms: bool)

  /** Less than the whole line written raises, and so does a failing sync. */
  function FaultOf(taken: nat, length: nat, synced: bool): Option<Fault> {
    if taken == 0 < length then Some(NothingWritten)
    else if taken < length then Some(PartialLine)
    else if synced then None else Some(DurableLine)
  }

  /** The durable effect of an append, finished or not. */
  function Landed(s: State, row: Row, fault: Option<Fault>): State {
    match fault
    case None => s.(rows := s.rows + [row])
    case Some(f) => Faulty(s, row, f)
  }

  lemma {:induction false} WriteLands(s: State, row: Row, taken: nat, length: nat, synced: bool)
    requires taken <= length && length > 0
    ensures Landed(s, row, FaultOf(taken, length, synced))
      == s.(rows := if taken == length then s.rows + [row] else s.rows, torn := s.torn || 0 < taken < length)
  {
  }

  /** The ledger is kept as its text; the rows and the flag the protocol speaks of are what the text holds. */
  class EventStore {
    const codec: L.Codec<Row>
    var text: string
    var events: map<EventId, BridgeEvent>
    var binding: bool
    var wire: seq<Wire>
    ghost var pieces: seq<L.Piece<Row>>
    ghost var rows: seq<Row>
    ghost var torn: bool

    ghost predicate Valid()
      reads this
    {
      L.Sound(codec) && L.Holds(codec, L.Ledger(text, pieces, rows, torn))
    }

    constructor (codec: L.Codec<Row>)
      requires L.Sound(codec)
      ensures Valid() && this.codec == codec && View(Down) == INIT
    {
      this.codec := codec;
      text, events, binding, wire := [], map[], false, [];
      pieces, rows, torn := [], [], false;
    }

    ghost function View(pc: Pc): (s: State)
      reads this
    {
      State(rows, torn, |text| > L.LIMIT, events, binding, wire, pc)
    }

    /** One write in append mode; the operating system decides how much of the line it takes. */
    method Write(row: Row, whole: bool) returns (taken: nat)
      requires Valid()
      modifies this`text, this`pieces, this`rows, this`torn
      ensures Valid() && taken <= |L.Line(codec, row)| && (whole ==> taken == |L.Line(codec, row)|)
      ensures L.Ledger(text, pieces, rows, torn) ==
        L.Grown(codec, old(L.Ledger(text, pieces, rows, torn)), L.Piece(row, taken))
    {
      var content := L.Line(codec, row);
      taken :| taken <= |content|;
      if whole { taken := |content|; }
      ghost var before := L.Ledger(text, pieces, rows, torn);
      ghost var after := L.Grown(codec, before, L.Piece(row, taken));
      L.GrownHolds(codec, before, L.Piece(row, taken));
      text := text + content[..taken];
      pieces, rows, torn := after.pieces, after.rows, after.torn;
    }

    /** A write and its sync. It raises unless the whole line was taken and is durable. */
    method Append(row: Row, world: World, ghost pc: Pc) returns (fault: Option<Fault>)
      requires Valid()
      modifies this`text, this`pieces, this`rows, this`torn
      ensures Valid() && old(|text|) <= |text|
      ensures View(pc) == Landed(old(View(pc)), row, fault).(large := |text| > L.LIMIT)
      ensures fault.None? ==> text == old(text) + L.Line(codec, row)
      ensures world.writes ==> fault.None?
    {
      ghost var before := View(pc);
      var content := L.Line(codec, row);
      var taken := Write(row, world.writes);
      var synced: bool :| world.writes ==> synced;
      fault := FaultOf(taken, |content|, synced);
      WriteLands(before, row, taken, |content|, synced);
      assert taken == |content| ==> content[..taken] == content;
    }

    /** The whole text is read and decoded; this succeeds exactly when nothing was ever cut and there is not too much of
        it. */
    method Records() returns (r: Result<seq<Row>, Refusal>)
      requires Valid()
      ensures r.Ok? <==> !torn && |text| <= L.LIMIT
      ensures r.Ok? ==> r.value == rows
      ensures r.Err? ==> r.error == if |text| > L.LIMIT then LedgerTooLarge
                                    else if text != [] && text[|text| - 1] != '\n' then LedgerTorn
                                    else LedgerUnreadable
    {
      L.HoldsReads(codec, L.Ledger(text, pieces, rows, torn));
      var read := L.Records(codec, text);
      r := match read
        case Ok(found) => Ok(found)
        case Err(TooLarge) => Err(LedgerTooLarge)
        case Err(TornWrite) => Err(LedgerTorn)
        case Err(BadLine) => Err(LedgerUnreadable);
    }

    /** Redelivery under the same identity changes nothing and reports that nothing was created; the stored event is
        read back first. */
    method Put(id: EventId, event: BridgeEvent, manifestValid: bool) returns (r: Result<bool, Refusal>)
      modifies this`events
      ensures r.Ok? <==> manifestValid && (id in old(events) ==> old(events)[id].readable)
      ensures r.Ok? ==> (r.value <==> id !in old(events))
      ensures events == if r == Ok(true) then old(events)[id := event] else old(events)
    {
      if !manifestValid { return Err(ManifestInvalid); }
      if id in events { return if events[id].readable then Ok(false) else Err(EventInvalid); }
      events := events[id := event];
      r := Ok(true);
    }

    method Pending() returns (r: Result<seq<EventId>, Refusal>)
      requires Valid()
      ensures r.Ok? <==> !torn && |text| <= L.LIMIT && forall id :: id in events ==> events[id].readable
      ensures r.Ok? ==> PendingListing(events, rows, r.value)
      ensures r.Ok? ==> forall id :: id in r.value <==> id in events && Untaken(rows, id)
      ensures r.Ok? ==> InOrder(r.value)
      ensures torn || |text| > L.LIMIT ==> r.Err? && r.error in {LedgerTooLarge, LedgerTorn, LedgerUnreadable}
      ensures r == Err(LedgerTooLarge) ==> |text| > L.LIMIT
      ensures r == Err(EventInvalid) <==>
              !torn && |text| <= L.LIMIT && exists id :: id in events && !events[id].readable
    {
      var read := Records();
      if read.Err? { return Err(read.error); }
      var known := read.value;
      var rest := events.Keys;
      var ids: seq<EventId> := [];
      while rest != {}
        invariant rest <= events.Keys
        invariant forall id :: id in events.Keys - rest ==> events[id].readable
        invariant forall i :: 0 <= i < |ids| ==> ids[i] in events.Keys - rest && !Consumed(known, ids[i])
        invariant forall id :: id in events.Keys - rest && !Consumed(known, id) ==> id in ids
        invariant forall i, j :: 0 <= i < j < |ids| ==> Before(events, ids[i], ids[j])
        decreases |rest|
      {
        var id :| id in rest;
        if !events[id].readable { return Err(EventInvalid); }
        if !Consumed(known, id) {
          ghost var before := ids;
          ids := Inserted(ids, id);
          forall i | 0 <= i < |ids| ensures ids[i] in events.Keys - (rest - {id}) && !Consumed(known, ids[i]) {
            assert ids[i] in ids;
            if ids[i] != id {
              assert ids[i] in before;
            }
          }
        }
        rest := rest - {id};
      }
      r := Ok(ids);
      forall id ensures Untaken(known, id) <==> !Consumed(known, id) { UntakenMeans(known, id); }
    }

    /** By sequence number, and by id where two events have the same one. */
    ghost predicate InOrder(ids: seq<EventId>)
      reads this`events
    {
      && (forall i :: 0 <= i < |ids| ==> ids[i] in events)
      && (forall i, j :: 0 <= i < j < |ids| ==> events[ids[i]].sequence <= events[ids[j]].sequence)
      && (forall i, j :: 0 <= i < j < |ids| && events[ids[i]].sequence == events[ids[j]].sequence ==> ids[i] < ids[j])
    }

    method Inserted(ids: seq<EventId>, id: EventId) returns (r: seq<EventId>)
      requires id in events && id !in ids && forall i :: 0 <= i < |ids| ==> ids[i] in events
      requires forall i, j :: 0 <= i < j < |ids| ==> Before(events, ids[i], ids[j])
      ensures forall x :: x in r <==> x in ids || x == id
      ensures forall i :: 0 <= i < |r| ==> r[i] in events
      ensures forall i, j :: 0 <= i < j < |r| ==> Before(events, r[i], r[j])
    {
      var k := 0;
      while k < |ids| && Before(events, ids[k], id)
        invariant 0 <= k <= |ids|
        invariant forall i :: 0 <= i < k ==> Before(events, ids[i], id)
      {
        k := k + 1;
      }
      r := ids[..k] + [id] + ids[k..];
    }
  }

  /** What a refusal says about the state it was given in, in terms of the ledger and the events alone. */
  ghost predicate Warranted(refusal: Refusal, s: State, budget: Budget, revoked: bool, expired: bool, active: bool) {
    match refusal
    case AuthorizationRevoked => revoked
    case ActiveConflict => active
    case AuthorizationExpired => expired
    case LedgerTooLarge => s.large
    case LedgerTorn => s.torn
    case LedgerUnreadable => s.torn
    case AmbiguousDelivery => exists i :: 0 <= i < |s.rows| && s.rows[i].Ambiguous?
    case EventInvalid => exists id :: id in s.events && !s.events[id].readable
    case BindingMismatch => exists id :: id in s.events && Untaken(s.rows, id) && !s.events[id].bound
    case Unacknowledged => !EveryReservedCompleted(s.rows)
    case WakeBudgetExhausted => |ReservedAt(s.rows)| >= budget.wakes
    case TurnBudgetExhausted => |StartedAt(s.rows)| >= budget.turns
    case _ => false
  }

  predicate Tried(steps: seq<Step>) {
    steps != [] && (steps[0].Reserve? || steps[0].AppendRaises?)
  }

  /** The place a finished `Deliver` leaves the controller in. */
  function PlaceAfter(r: Result<Option<seq<EventId>>, Refusal>): (pc: Pc) {
    match r
    case Ok(Some(ids)) => Acked(ids)
    case Ok(None) => Ready
    case Err(_) => Blocked
  }

  ghost predicate Performs(before: State, budget: Budget, steps: seq<Step>, after: State) {
    ValidRun(before, budget, steps) && Run(before, steps) == after
  }

  lemma {:induction false} PerformsOne(before: State, budget: Budget, step: Step)
    requires Enabled(before, budget, step)
    ensures Performs(before, budget, [step], Apply(before, step))
  {
    assert [step][1..] == [];
  }

  lemma {:induction false} PerformsBoth(before: State, budget: Budget, first: seq<Step>, middle: State,
                                        second: seq<Step>, after: State)
    requires Performs(before, budget, first, middle) && Performs(middle, budget, second, after)
    ensures Performs(before, budget, first + second, after) && Acts(first + second) == Acts(first) + Acts(second)
  {
    RunConcat(before, budget, first, second);
    ActsConcat(first, second);
  }

  lemma {:induction false} PerformsMore(before: State, budget: Budget, steps: seq<Step>, middle: State, step: Step)
    requires Performs(before, budget, steps, middle) && Enabled(middle, budget, step)
    ensures Performs(before, budget, steps + [step], Apply(middle, step))
    ensures Acts(steps + [step]) == Acts(steps) + Acts([step])
  {
    PerformsOne(middle, budget, step);
    PerformsBoth(before, budget, steps, middle, [step], Apply(middle, step));
  }

  lemma {:induction false} RaisePerforms(before: State, budget: Budget, steps: seq<Step>, s: State, ids: seq<EventId>)
    requires Performs(before, budget, steps, s) && (s.pc == Logged(ids) || s.pc == Sent(ids))
    ensures Performs(before, budget, steps + [Raise], s.(pc := Failing(ids)))
  {
    PerformsMore(before, budget, steps, s, Raise);
  }

  lemma {:induction false} ActsOne(step: Step)
    requires !step.Outgrow?
    ensures Acts([step]) == [step]
  {
    assert [step][..0] == [];
  }

  /** A step, and the file's growing past the limit where its append did that. */
  function AndGrowth(step: Step, grew: bool): seq<Step> {
    if grew then [step, Outgrow] else [step]
  }

  lemma {:induction false} GrowthPerforms(before: State, budget: Budget, step: Step, grew: bool, large: bool)
    requires Enabled(before, budget, step) && !step.Outgrow? && Apply(before, step).large == before.large
    requires large == (before.large || grew)
    ensures Performs(before, budget, AndGrowth(step, grew), Apply(before, step).(large := large))
    ensures Acts(AndGrowth(step, grew)) == [step]
  {
    PerformsOne(before, budget, step);
    ActsOne(step);
    if grew {
      PerformsMore(before, budget, [step], Apply(before, step), Outgrow);
      assert [step] + [Outgrow] == [step, Outgrow] && [step, Outgrow][..1] == [step];
    }
  }

  lemma {:induction false} LogPerforms(before: State, budget: Budget, next: seq<EventId>, row: Row, done: Step,
                                       fault: Option<Fault>, large: bool)
    requires DueRow(before.pc, next) == Some(row) && !done.Outgrow?
    requires Enabled(before, budget, done) && Enabled(before, budget, AppendRaises(next, NothingWritten))
    requires Apply(before, done) == before.(rows := before.rows + [row], pc := Apply(before, done).pc)
    requires before.large ==> large
    ensures var step := if fault.None? then done else AppendRaises(next, fault.value);
      var pc := if fault.None? then Apply(before, done).pc else AfterException(before.pc);
      && Performs(before, budget, AndGrowth(step, !before.large && large),
                  Landed(before, row, fault).(large := large, pc := pc))
      && Acts(AndGrowth(step, !before.large && large)) == [step]
  {
    var step := if fault.None? then done else AppendRaises(next, fault.value);
    GrowthPerforms(before, budget, step, !before.large && large, large);
  }

  /** Rows of bookkeeping change nothing that a delivery depends on. */
  ghost predicate OnlyNotes(before: seq<Row>, after: seq<Row>) {
    && ReservedRows(after) == ReservedRows(before) && TurnStarts(after) == TurnStarts(before)
    && (HasAmbiguous(after) <==> HasAmbiguous(before)) && (AllAcknowledged(before) ==> AllAcknowledged(after))
    && (!AllAcknowledged(before) ==> !AllAcknowledged(after))
  }

  lemma {:induction false} NotesOnly(before: seq<Row>, middle: seq<Row>, note: string)
    requires OnlyNotes(before, middle)
    ensures OnlyNotes(before, middle + [OtherRow(note)])
  {
    RowsAppend(middle, OtherRow(note));
    if !AllAcknowledged(middle) { OtherRowCompletesNothing(middle, OtherRow(note)); }
  }

  function NoteStep(note: string, fault: Option<Fault>): Step {
    if fault.None? then Note(note) else NoteFails(note, fault.value)
  }

  lemma {:induction false} NoteLands(before: State, budget: Budget, note: string, fault: Option<Fault>)
    requires before.pc == Ready
    ensures Enabled(before, budget, NoteStep(note, fault))
    ensures Apply(before, NoteStep(note, fault)) == Landed(before, OtherRow(note), fault)
    ensures Landed(before, OtherRow(note), fault).large == before.large
    ensures Landed(before, OtherRow(note), fault).pc == Ready
  {
  }

  lemma {:induction false} StopPerforms(before: State, budget: Budget, steps: seq<Step>, s: State)
    requires Performs(before, budget, steps, s) && s.pc == Ready
    ensures Performs(before, budget, steps + [Raise], s.(pc := Blocked))
  {
    PerformsMore(before, budget, steps, s, Raise);
  }

  lemma {:induction false} NotePerforms(before: State, budget: Budget, note: string, fault: Option<Fault>, large: bool,
                                        ok: bool)
    returns (steps: seq<Step>)
    requires before.pc == Ready && (before.large ==> large) && (ok ==> fault.None?)
    ensures Performs(before, budget, steps,
      Landed(before, OtherRow(note), fault).(large := large, pc := if ok then Ready else Blocked))
  {
    var step, after := NoteStep(note, fault), Landed(before, OtherRow(note), fault);
    NoteLands(before, budget, note, fault);
    GrowthPerforms(before, budget, step, !before.large && large, large);
    steps := AndGrowth(step, !before.large && large);
    if !ok {
      StopPerforms(before, budget, steps, after.(large := large));
      steps := steps + [Raise];
    }
  }

  /** The ledger ends with an AMBIGUOUS row. */
  ghost predicate LastAmbiguous(rows: seq<Row>) {
    rows != [] && rows[|rows| - 1].Ambiguous?
  }

  /** The rows with which a recovering controller begins. */
  const NOTES: seq<Row> := [OtherRow("CONTROLLER_STARTED"), OtherRow("thread/read"), OtherRow("thread/resume")]

  ghost predicate NotesSoFar(before: State, rows: seq<Row>, torn: bool, i: nat) {
    i <= |NOTES| && rows == before.rows + NOTES[..i] && torn == before.torn
  }

  lemma {:induction false} NotDue(s: State, budget: Budget)
    ensures HasAmbiguous(s.rows) || !AllAcknowledged(s.rows) ==> !DeliveryDue(s, budget)
  {
    AcknowledgedMeans(s.rows);
  }

  lemma {:induction false} ListedIsDue(s: State, budget: Budget, ids: seq<EventId>)
    requires PendingListing(s.events, s.rows, ids)
    ensures MayReserve(s, budget, ids) <==> DeliveryDue(s, budget)
    ensures forall i :: 0 <= i < |ids| ==> ids[i] in s.events && Untaken(s.rows, ids[i])
  {
    DueIffMayReserve(s, budget);
    ListingIsUnique(s, budget, ids);
    forall i | 0 <= i < |ids| ensures Untaken(s.rows, ids[i]) { UntakenMeans(s.rows, ids[i]); }
  }

  class Controller {
    const store: EventStore
    const budget: Budget
    var activeTurn: bool
    var permissionPending: bool

    /** Authorized, and with no other turn or question open. */
    predicate Unhindered(revoked: bool, expired: bool)
      reads this
    {
      !revoked && !expired && !activeTurn && !permissionPending
    }

    constructor (store: EventStore, budget: Budget)
      ensures this.store == store && this.budget == budget && !activeTurn && !permissionPending
    {
      this.store, this.budget := store, budget;
      activeTurn, permissionPending := false, false;
    }

    /** Appending `row` as the step `done`, or the exception step in its place. */
    method Log(world: World, ghost pc: Pc, ghost next: seq<EventId>, row: Row, ghost done: Step)
      returns (ok: bool, ghost steps: seq<Step>)
      requires store.Valid()
      requires DueRow(pc, next) == Some(row) && !done.Outgrow?
      requires Enabled(store.View(pc), budget, done)
      requires Enabled(store.View(pc), budget, AppendRaises(next, NothingWritten))
      requires var s := store.View(pc); Apply(s, done) == s.(rows := s.rows + [row], pc := Apply(s, done).pc)
      modifies store`text, store`pieces, store`rows, store`torn
      ensures store.Valid()
      ensures steps != [] && Acts(steps) == [steps[0]]
      ensures ok ==> steps[0] == done
      ensures ok ==> Performs(old(store.View(pc)), budget, steps, store.View(Apply(old(store.View(pc)), done).pc))
      ensures !ok ==> steps[0].AppendRaises? && steps[0].next == next
      ensures !ok ==> Performs(old(store.View(pc)), budget, steps, store.View(AfterException(pc)))
      ensures world.writes ==> ok
      ensures ok ==> store.rows == old(store.rows) + [row]
    {
      ghost var before := store.View(pc);
      var fault := store.Append(row, world, pc);
      ok := fault.None?;
      LogPerforms(before, budget, next, row, done, fault, |store.text| > L.LIMIT);
      steps := AndGrowth(if ok then done else AppendRaises(next, fault.value), !before.large && |store.text| > L.LIMIT);
    }

    /** The handler around a held reservation: record that its fate is unknown. */
    method RecordAmbiguity(world: World, ids: seq<EventId>) returns (ghost steps: seq<Step>)
      requires store.Valid()
      modifies store`text, store`pieces, store`rows, store`torn
      ensures store.Valid()
      ensures Performs(old(store.View(Failing(ids))), budget, steps, store.View(Blocked))
      ensures world.writes ==> store.rows == old(store.rows) + [Ambiguous(ids)]
    {
      var ok;
      ok, steps := Log(world, Failing(ids), ids, Ambiguous(ids), MarkAmbiguous);
    }

    /** The refusals of `deliver`, in its order; an empty listing is not an error. */
    method Check(revoked: bool, expired: bool) returns (r: Result<seq<EventId>, Refusal>)
      requires store.Valid()
      ensures r.Ok? && r.value != [] ==> MayReserve(store.View(Ready), budget, r.value)
      ensures r.Ok? && r.value == [] ==> Readable(store.View(Ready)) && PendingListing(store.events, store.rows, [])
      ensures (r.Ok? && r.value != []) <==>
              Unhindered(revoked, expired) && DeliveryDue(store.View(Ready), budget)
      ensures r.Err? ==>
        Warranted(r.error, store.View(Ready), budget, revoked, expired, activeTurn || permissionPending)
    {
      if revoked { return Err(AuthorizationRevoked); }
      if activeTurn || permissionPending { return Err(ActiveConflict); }
      if expired { return Err(AuthorizationExpired); }
      var rows := store.Records();
      if rows.Err? { return Err(rows.error); }
      if HasAmbiguous(rows.value) { return Err(AmbiguousDelivery); }
      var pending := store.Pending();
      if pending.Err? { return Err(pending.error); }
      if pending.value == [] { return Ok([]); }
      r := Judge(rows.value, pending.value);
    }

    /** The refusals that look at the listing. */
    method Judge(rows: seq<Row>, ids: seq<EventId>) returns (r: Result<seq<EventId>, Refusal>)
      requires Readable(store.View(Ready)) && rows == store.rows && !HasAmbiguous(rows)
      requires PendingListing(store.events, rows, ids) && ids != []
      requires forall id :: id in store.events ==> store.events[id].readable
      ensures r.Ok? ==> r.value == ids && MayReserve(store.View(Ready), budget, ids)
      ensures r.Ok? <==> DeliveryDue(store.View(Ready), budget)
      ensures r.Err? ==> Warranted(r.error, store.View(Ready), budget, false, false, false)
    {
      ListedIsDue(store.View(Ready), budget, ids);
      RowsCounted(rows);
      if exists i :: 0 <= i < |ids| && !store.events[ids[i]].bound { return Err(BindingMismatch); }
      AcknowledgedMeans(rows);
      if !AllAcknowledged(rows) { return Err(Unacknowledged); }
      if |ReservedRows(rows)| >= budget.wakes { return Err(WakeBudgetExhausted); }
      if TurnStarts(rows) >= budget.turns { return Err(TurnBudgetExhausted); }
      r := Ok(ids);
    }

    /** Check, reserve durably, and only then let anything leave the process. */
    method Deliver(world: World, revoked: bool, expired: bool)
      returns (r: Result<Option<seq<EventId>>, Refusal>, ghost steps: seq<Step>)
      requires store.Valid()
      modifies store
      ensures store.Valid()
      ensures Performs(old(store.View(Ready)), budget, steps, store.View(PlaceAfter(r)))
      ensures Tried(steps) <==>
              Unhindered(revoked, expired) && DeliveryDue(old(store.View(Ready)), budget)
      ensures r.Err? && !Tried(steps) ==>
        Warranted(r.error, old(store.View(Ready)), budget, revoked, expired, activeTurn || permissionPending)
      ensures r.Ok? && r.value.Some? ==> Tried(steps)
      ensures Tried(steps) && world.writes ==> (r.Ok? <==> world.answers)
      ensures Tried(steps) && world.writes && r.Err? ==> LastAmbiguous(store.rows)
      ensures r.Ok? && r.value.Some? ==>
        Acts(steps) == [Reserve(r.value.value), LogContinuation, Transmit, Acknowledge]
      ensures r.Ok? && r.value.None? ==> steps == [] && PendingListing(store.events, store.rows, [])
      ensures !Tried(steps) ==> store.rows == old(store.rows) && store.wire == old(store.wire)
    {
      ghost var before := store.View(Ready);
      var checked := Check(revoked, expired);
      assert store.View(Ready) == before;
      if checked.Err? {
        PerformsOne(before, budget, Raise);
        return Err(checked.error), [Raise];
      }
      if checked.value == [] { return Ok(None), []; }
      r, steps := Wake(world, checked.value);
    }

    /** The reservation is durable before anything else happens. */
    method Wake(world: World, ids: seq<EventId>)
      returns (r: Result<Option<seq<EventId>>, Refusal>, ghost steps: seq<Step>)
      requires store.Valid() && MayReserve(store.View(Ready), budget, ids)
      modifies store
      ensures store.Valid() && (r.Ok? ==> r.value == Some(ids))
      ensures Performs(old(store.View(Ready)), budget, steps, store.View(PlaceAfter(r))) && Tried(steps)
      ensures r.Ok? ==> Acts(steps) == [Reserve(ids), LogContinuation, Transmit, Acknowledge]
      ensures world.writes ==> (r.Ok? <==> world.answers)
      ensures world.writes && r.Err? ==> store.rows != [] && store.rows[|store.rows| - 1] == Ambiguous(ids)
    {
      ghost var before := store.View(Ready);
      var ok;
      ok, steps := Log(world, Ready, ids, Reserved(ids), Reserve(ids));
      if !ok { return Err(LedgerWriteFailed), steps; }
      ghost var held := store.View(Holding(ids));
      ghost var more;
      ok, more := Transfer(world, ids);
      PerformsBoth(before, budget, steps, held, more, store.View(if ok then Acked(ids) else Blocked));
      steps := steps + more;
      r := if ok then Ok(Some(ids)) else Err(TransportFailed);
    }

    /** The body of the try block: request, then receipt; any exception is recorded as ambiguity. */
    method Transfer(world: World, ids: seq<EventId>) returns (ok: bool, ghost steps: seq<Step>)
      requires store.Valid()
      modifies store
      ensures store.Valid()
      ensures Performs(old(store.View(Holding(ids))), budget, steps, store.View(if ok then Acked(ids) else Blocked))
      ensures ok ==> Acts(steps) == [LogContinuation, Transmit, Acknowledge]
      ensures world.writes ==> (ok <==> world.answers)
      ensures world.writes && !ok ==> store.rows != [] && store.rows[|store.rows| - 1] == Ambiguous(ids)
    {
      ghost var before := store.View(Holding(ids));
      ok, steps := Request(world, ids);
      ghost var more;
      if ok {
        ghost var sent := store.View(Sent(ids));
        ok, more := Log(world, Sent(ids), ids, Acknowledged(ids), Acknowledge);
        PerformsBoth(before, budget, steps, sent, more, store.View(if ok then Acked(ids) else Failing(ids)));
        steps := steps + more;
      }
      if !ok {
        ghost var failing := store.View(Failing(ids));
        more := RecordAmbiguity(world, ids);
        PerformsBoth(before, budget, steps, failing, more, store.View(Blocked));
        steps := steps + more;
      }
    }

    /** One turn/start request: the RPC row is durable before the bytes leave. */
    method Request(world: World, ids: seq<EventId>) returns (receipt: bool, ghost steps: seq<Step>)
      requires store.Valid()
      modifies store
      ensures store.Valid()
      ensures Performs(old(store.View(Holding(ids))), budget, steps,
        store.View(if receipt then Sent(ids) else Failing(ids)))
      ensures receipt ==> Acts(steps) == [LogContinuation, Transmit]
      ensures world.writes ==> (receipt <==> world.answers)
    {
      ghost var before := store.View(Holding(ids));
      receipt, steps := Log(world, Holding(ids), ids, TurnStartRpc, LogContinuation);
      if !receipt { return; }
      ghost var logged := store.View(Logged(ids));
      ghost var more;
      receipt, more := Exchange(world, ids);
      PerformsBoth(before, budget, steps, logged, more, store.View(if receipt then Sent(ids) else Failing(ids)));
      steps := steps + more;
    }

    /** The transport may break before the send, or after it, when no receipt arrives. */
    method Exchange(world: World, ids: seq<EventId>) returns (receipt: bool, ghost steps: seq<Step>)
      requires store.Valid()
      modifies store`wire
      ensures store.Valid()
      ensures Performs(old(store.View(Logged(ids))), budget, steps,
        store.View(if receipt then Sent(ids) else Failing(ids)))
      ensures receipt ==> Acts(steps) == [Transmit]
      ensures receipt <==> world.answers
    {
      ghost var logged := store.View(Logged(ids));
      var connected: bool, answered: bool :| connected && answered <==> world.answers;
      receipt := connected && answered;
      if !connected {
        steps := [Raise];
        PerformsOne(logged, budget, Raise);
        return;
      }
      steps := [Transmit];
      PerformsOne(logged, budget, Transmit);
      ActsOne(Transmit);
      store.wire := store.wire + [Continuation(ids)];
      if !receipt {
        RaisePerforms(logged, budget, steps, store.View(Sent(ids)), ids);
        steps := steps + [Raise];
      }
    }

    /** Deliver, then follow the continuation turn; only a confirmed turn completes the reservation. */
    method Continue(world: World, revoked: bool, expired: bool)
      returns (r: Result<Option<seq<EventId>>, Refusal>, ghost steps: seq<Step>)
      requires store.Valid()
      modifies store, this
      ensures store.Valid()
      ensures Performs(old(store.View(Ready)), budget, steps, store.View(if r.Ok? then Ready else Blocked))
      ensures r.Ok? && r.value.Some? ==>
        Acts(steps) == [Reserve(r.value.value), LogContinuation, Transmit, Acknowledge, Complete]
      ensures r.Ok? && r.value.None? ==> steps == []
      ensures Tried(steps) && world.writes ==> (r.Ok? <==> world.answers && world.confirms)
      ensures Tried(steps) && world.writes && r.Err? ==> LastAmbiguous(store.rows)
      ensures !Tried(steps) ==> store.rows == old(store.rows) && store.wire == old(store.wire)
      ensures Tried(steps) <==> old(Unhindered(revoked, expired) && DeliveryDue(store.View(Ready), budget))
      ensures r.Err? && !Tried(steps) ==>
        Warranted(r.error, old(store.View(Ready)), budget, revoked, expired, old(activeTurn || permissionPending))
    {
      ghost var before := store.View(Ready);
      r, steps := Deliver(world, revoked, expired);
      if r.Err? || r.value.None? { return; }
      ghost var acked := store.View(Acked(r.value.value));
      var ok;
      ghost var more;
      ok, more := Follow(world, r.value.value);
      PerformsBoth(before, budget, steps, acked, more, store.View(if ok then Ready else Blocked));
      steps := steps + more;
      if !ok { r := Err(ConfirmationInvalid); }
    }

    /** The continuation turn up to its confirmation; any exception is recorded as ambiguity. */
    method Follow(world: World, ids: seq<EventId>) returns (ok: bool, ghost steps: seq<Step>)
      requires store.Valid()
      modifies store, this
      ensures store.Valid()
      ensures Performs(old(store.View(Acked(ids))), budget, steps, store.View(if ok then Ready else Blocked))
      ensures ok ==> Acts(steps) == [Complete]
      ensures world.writes ==> (ok <==> world.confirms)
      ensures world.writes && !ok ==> store.rows != [] && store.rows[|store.rows| - 1] == Ambiguous(ids)
    {
      ghost var before := store.View(Acked(ids));
      activeTurn := true;
      ok := world.confirms;
      activeTurn := false;
      if ok {
        ok, steps := Log(world, Acked(ids), ids, Completed(ids), Complete);
      } else {
        steps := [Raise];
        PerformsOne(before, budget, Raise);
      }
      if !ok {
        ghost var failing := store.View(Failing(ids));
        ghost var more := RecordAmbiguity(world, ids);
        PerformsBoth(before, budget, steps, failing, more, store.View(Blocked));
        steps := steps + more;
      }
    }

    /** One row of bookkeeping; if it cannot be written, or what it announces fails, the process unwinds. */
    method LogNote(world: World, note: string) returns (ok: bool, ghost steps: seq<Step>)
      requires store.Valid()
      modifies store`text, store`pieces, store`rows, store`torn
      ensures store.Valid()
      ensures Performs(old(store.View(Ready)), budget, steps, store.View(if ok then Ready else Blocked))
      ensures store.rows == old(store.rows) || store.rows == old(store.rows) + [OtherRow(note)]
      ensures ok ==> store.rows == old(store.rows) + [OtherRow(note)] && store.torn == old(store.torn)
      ensures world.writes && world.answers ==> ok
    {
      ghost var before := store.View(Ready);
      var fault := store.Append(OtherRow(note), world, Ready);
      var answered: bool :| world.answers ==> answered;
      ok := fault.None? && answered;
      steps := NotePerforms(before, budget, note, fault, |store.text| > L.LIMIT, ok);
    }

    /** A fresh start reads the ledger first. */
    method Start() returns (ok: bool, ghost steps: seq<Step>)
      requires store.Valid()
      ensures ok <==> Enabled(store.View(Down), budget, StartFresh)
      ensures ok <==> !store.torn && |store.text| <= L.LIMIT
      ensures if ok then steps == [StartFresh] && Performs(store.View(Down), budget, steps, store.View(Starting))
              else steps == []
    {
      var read := store.Records();
      ok, steps := read.Ok?, [];
      if ok {
        steps := [StartFresh];
        PerformsOne(store.View(Down), budget, StartFresh);
      }
    }

    /** What a recovering controller writes down before it delivers. */
    method Prepare(world: World) returns (ok: bool, ghost steps: seq<Step>)
      requires store.Valid()
      modifies store`text, store`pieces, store`rows, store`torn
      ensures store.Valid()
      ensures Performs(old(store.View(Ready)), budget, steps, store.View(if ok then Ready else Blocked))
      ensures OnlyNotes(old(store.rows), store.rows)
      ensures ok ==> store.rows == old(store.rows) + NOTES && store.torn == old(store.torn)
      ensures world.writes && world.answers ==> ok
    {
      ghost var before := store.View(Ready);
      var notes := ["CONTROLLER_STARTED", "thread/read", "thread/resume"];
      ok, steps := true, [];
      var i := 0;
      while ok && i < |notes|
        invariant 0 <= i <= |notes| && store.Valid() && (world.writes && world.answers ==> ok)
        invariant Performs(before, budget, steps, store.View(if ok then Ready else Blocked))
        invariant OnlyNotes(before.rows, store.rows)
        invariant ok ==> NotesSoFar(before, store.rows, store.torn, i)
      {
        ok, steps := NextNote(world, notes[i], i, before, steps);
        i := i + 1;
      }
      assert NOTES[..|NOTES|] == NOTES;
    }

    method NextNote(world: World, note: string, ghost i: nat, ghost before: State, ghost steps: seq<Step>)
      returns (ok: bool, ghost more: seq<Step>)
      requires store.Valid() && i < |NOTES| && NOTES[i] == OtherRow(note)
      requires NotesSoFar(before, store.rows, store.torn, i) && OnlyNotes(before.rows, store.rows)
      requires Performs(before, budget, steps, store.View(Ready))
      modifies store`text, store`pieces, store`rows, store`torn
      ensures store.Valid() && OnlyNotes(before.rows, store.rows) && (world.writes && world.answers ==> ok)
      ensures Performs(before, budget, more, store.View(if ok then Ready else Blocked))
      ensures ok ==> NotesSoFar(before, store.rows, store.torn, i + 1)
    {
      ghost var middle := store.View(Ready);
      ok, more := LogNote(world, note);
      PerformsBoth(before, budget, steps, middle, more, store.View(if ok then Ready else Blocked));
      NotesOnly(before.rows, middle.rows, note);
      more := steps + more;
      assert NOTES[..i + 1] == NOTES[..i] + [OtherRow(note)];
    }

    /** Restart after a crash: refused unless the ledger can be read, a binding exists and some verified event is still
        unconsumed. */
    method Recover(world: World, revoked: bool, expired: bool)
      returns (r: Result<Option<seq<EventId>>, Refusal>, ghost steps: seq<Step>, ghost ready: State)
      requires store.Valid()
      modifies store, this
      ensures store.Valid()
      ensures steps != [] <==> old(!store.torn && |store.text| <= L.LIMIT && store.binding
                                   && (exists id :: id in store.events && Untaken(store.rows, id))
                                   && forall id :: id in store.events ==> store.events[id].readable)
      ensures steps == [] ==> r.Err? && store.View(Down) == old(store.View(Down))
      ensures steps != [] && world.writes && world.answers ==>
        ready == old(store.View(Ready)).(rows := old(store.rows) + NOTES, large := ready.large)
      ensures steps != [] && world.writes && world.answers && old(Unhindered(revoked, expired)) ==>
        (DeliveryDue(ready, budget) ==> (r.Ok? <==> world.confirms))
      ensures steps != [] ==> steps[0] == StartRecovery
      ensures steps != [] ==>
        Performs(old(store.View(Down)), budget, steps, store.View(if r.Ok? then Ready else Blocked))
      ensures old(HasAmbiguous(store.rows) || !AllAcknowledged(store.rows)) ==>
        SameDeliveries(old(store.View(Down)), store.View(Down))
    {
      steps, ready := [], store.View(Ready);
      var pending := store.Pending();
      if pending.Err? { return Err(pending.error), steps, ready; }
      ghost var down := store.View(Down);
      assert pending.value == [] <==> !exists id :: id in store.events && !Consumed(store.rows, id) by {
        if pending.value != [] { assert pending.value[0] in store.events; }
      }
      if !store.binding || pending.value == [] { return Err(NothingToRecover), steps, ready; }
      PerformsOne(down, budget, StartRecovery);
      ghost var recovered := store.View(Ready);
      ghost var more;
      r, more, ready := Resume(world, revoked, expired);
      PerformsBoth(down, budget, [StartRecovery], recovered, more, store.View(if r.Ok? then Ready else Blocked));
      steps := [StartRecovery] + more;
    }

    /** The recovered process, from its first row to the end of the delivery; `ready` is where the delivery began. */
    method Resume(world: World, revoked: bool, expired: bool)
      returns (r: Result<Option<seq<EventId>>, Refusal>, ghost steps: seq<Step>, ghost ready: State)
      requires store.Valid()
      modifies store, this
      ensures store.Valid()
      ensures Performs(old(store.View(Ready)), budget, steps, store.View(if r.Ok? then Ready else Blocked))
      ensures old(HasAmbiguous(store.rows) || !AllAcknowledged(store.rows)) ==>
        SameDeliveries(old(store.View(Ready)), store.View(Ready))
      ensures world.writes && world.answers ==>
        ready == old(store.View(Ready)).(rows := old(store.rows) + NOTES, large := ready.large)
      ensures world.writes && world.answers && old(Unhindered(revoked, expired)) ==>
        (DeliveryDue(ready, budget) ==> (r.Ok? <==> world.confirms))
    {
      ghost var before := store.View(Ready);
      var ok;
      ok, steps := Prepare(world);
      ready := store.View(Ready);
      if !ok { return Err(ConnectionFailed), steps, ready; }
      ghost var more;
      r, more := Redeliver(world, revoked, expired);
      PerformsBoth(before, budget, steps, ready, more, store.View(if r.Ok? then Ready else Blocked));
      steps := steps + more;
    }

    /** The delivery of a recovered controller. */
    method Redeliver(world: World, revoked: bool, expired: bool)
      returns (r: Result<Option<seq<EventId>>, Refusal>, ghost steps: seq<Step>)
      requires store.Valid()
      modifies store, this
      ensures store.Valid()
      ensures Performs(old(store.View(Ready)), budget, steps, store.View(if r.Ok? then Ready else Blocked))
      ensures old(HasAmbiguous(store.rows) || !AllAcknowledged(store.rows)) ==>
        SameDeliveries(old(store.View(Ready)), store.View(Ready))
      ensures world.writes && world.answers && old(Unhindered(revoked, expired)) ==>
        (old(DeliveryDue(store.View(Ready), budget)) ==> (r.Ok? <==> world.confirms))
    {
      ghost var ready := store.View(Ready);
      r, steps := Continue(world, revoked, expired);
      NotDue(ready, budget);
    }
  }
}
