# A verified model of the dispatcher

The dispatcher runs external agents in batches, wakes a controller when a job finishes, and tells people about it. What it
promises is about durable, append-only state that survives crashes: an event wakes the controller at most once, a
notification leaves the process at most once, a shard of a batch has at most one successful attempt, a stored attempt is
believed only if it is whole, and what a captured event stream is taken to mean never depends on guesswork. This project
models the code behind these promises in Dafny and proves them.

`dafny verify dfyconfig.toml` checks everything. Every lemma switches Dafny's automatic induction off, so the induction in
a proof is the one that is written down.

## How the model is built

Two forms are used, as the code has them.

Protocols are **step systems**: a durable state, the steps any participant can take (each append, each send and each
directory creation by itself, with crashes, aborts and torn writes between any two), an invariant kept by every step, and
theorems about all runs. Beside them stand **classes** whose methods follow the code statement by statement, keep a ghost
list of the steps they took, and are proved to perform exactly a run of the step system, so that every theorem about runs
is a theorem about the methods.

What the rest of the world does in a call (whether appends hold, the server answers, a lock is free, an invocation raises)
is a parameter of these methods, so that they are also held to succeed where nothing goes wrong.

Interpretations and files are **functions with loops beside them**: a method with the code's loop is proved equal to a
function, and the function is proved against an independent statement of what it is for: a grammar, a declarative
decomposition, a partition, a permutation, what it means to be covered, or the exact condition of each answer in terms of
events, rows and files.

| file | models |
|---|---|
| `LedgerText.dfy` | a ledger as text: appends cut off anywhere, and the two readers of it |
| `Bridge.dfy` | the reserve-before-send protocol of the bridge: ledger rows, event files, binding, wire, controller process |
| `Dispatcher.dfy` | the event store over the text of its ledger, and the controller, as objects that perform that protocol |
| `Notify.dfy` | any number of concurrent notification calls over one ledger, and one call as a method over its text |
| `Batch.dfy` | attempts, retry plans, the execution lock, child processes and their markers, crashes |
| `BatchExact.dfy` | when exactly a retry is allowed, and that what is allowed can be carried through |
| `RetryChain.dfy` | when the attempts of a profile and shard form one chain with one child process |
| `BatchRun.dfy` | freezing retries and running selected attempts as methods; one worker or two |
| `Lifecycle.dfy`, `LifecycleExact.dfy` | the lifecycle automaton of an event stream, the grammar it decides, and its issues on any stream |
| `Activity.dfy`, `ActivityExact.dfy` | the tool-activity classifier, and what exactly it reports on the streams of the grammar |
| `Fence.dfy` | the byte-exact removal of one code fence |
| `Schema.dfy`, `SchemaExact.dfy` | the schema subset, its check before launch, specializing a schema for a shard, exact-once coverage |
| `Evaluate.dfy` | the decision chain from a capture to a result, and revalidation |
| `Text.dfy`, `Planning.dfy`, `PlanningExact.dfy` | sorting of text, zero-padded names, planning a batch, loading the plan, and which plans are loaded |
| `ShardFile.dfy` | the attempt directory: written byte by byte, verified through its manifest |
| `Collect.dfy` | collecting results, and which collections pass |

## Where the code does less than one might expect

- A linear retry chain needs retry plans to be named in increasing order: "latest" is the last directory by name, not by
  time. `RetryChain.ChainKeptIffNamedLast` gives the exact condition and `RetryChain.OutOfOrderAllowsTwoChildren` a run in
  which two child processes of one shard are alive at once. The single winner does not need the order.
- A plan of more than 9999 shards, or one whose source pads a record id with white space, is written and then refused by
  the loader. `Planning.PlanThenLoad` says exactly when it is read back.
- Specializing a schema overwrites the limits the schema itself puts on the number of results and on record ids, so a
  shard can be allowed what the schema refuses: `Schema.SpecializationMayWiden` is such a schema and output.
  `Schema.SpecializationIsExact` says for every schema what changes, `Schema.NarrowsIffWithinOwnLimits` exactly when an
  output of the specialized schema fits the schema itself, and `Schema.NarrowsIffOwnLimitsAdmit` what to check before.
- A retry plan directory without its manifest, left by a process that died freezing it, keeps every profile from being
  collected, also one all of whose shards succeeded (`Collect.UnfinishedPlanBlocksAll`); `Collect.CollectsIffAllSucceeded`
  is the exact condition. After a PASS over all base attempts no such directory can appear (`Collect.ReportedPassCollects`).
- The bridge reads at most 65536 bytes of its ledger, and one above that is refused although nothing is wrong with it
  (`LedgerText.WholeLedgersOutgrow`). Nothing is sent by mistake then; delivery and recovery stop for good.
- The notification reader does not look at the last byte of its ledger: a last row without its line end is read, the next
  row is glued to it, and only then the ledger is refused (`LedgerText.LenientIffNotTorn`). The bridge refuses it at once.
- `properties` or `required` given as an explicit `null` pass the definition check and then refuse every object.
  `Schema.CheckedSchemasAreUnderstood` says that this is the only way a checked schema can be at fault later, and for
  which values; `Schema.NullPropertiesRefuseEveryObject` is an example.
- A manifest that lacks only its last line end is accepted (`ShardFile.CutManifest`); nothing is lost by it.

## Model

| member | source | states |
|---|---|---|
| Bridge.ExactlyOnce | src/dispatcher_for_codex_agents/main_agent_bridge/controller.py:91-182 | in every run with crashes, raising or torn appends, tampering and restarts, an event is in at most one RESERVED row and in at most one continuation sent, and what was sent had been reserved |
| Bridge.BudgetsHold | src/dispatcher_for_codex_agents/main_agent_bridge/controller.py:98-130 | in every run reservations stay within the wake budget and turn starts within the turn budget, every reservation but the last is completed, and nothing is reserved or started below an AMBIGUOUS row |
| Bridge.ReservesOnlyUnsent | src/dispatcher_for_codex_agents/main_agent_bridge/controller.py:626-644 | whatever may be reserved, also after a recovery, was never transmitted before |
| Bridge.AmbiguityStops | src/dispatcher_for_codex_agents/main_agent_bridge/controller.py:493-543 | from any reachable state with an AMBIGUOUS row no further run, recovered or not, reserves, starts or sends anything |
| Bridge.OrphanStops | src/dispatcher_for_codex_agents/main_agent_bridge/controller.py:108-130 | a reservation whose process is gone before completing it is never retried, and nothing else is sent after it |
| Bridge.UnreadableStops | src/dispatcher_for_codex_agents/main_agent_bridge/store.py:114-122 | once the process is down over a ledger that is torn or above the size limit, which is one whose text cannot be read (see the rows of LedgerText and EventStore), nothing is written or sent any more |
| Bridge.UnreadableReservesNothing | src/dispatcher_for_codex_agents/main_agent_bridge/store.py:97-122 | over such a ledger even a live process, which can still append and so end the file with a line end again, reserves nothing more |
| Bridge.SortedListingsAgree | src/dispatcher_for_codex_agents/main_agent_bridge/store.py:184-197 | the listing of pending events, sorted by sequence and id, is determined by the events and the ledger |
| Bridge.RunKeepsInv | src/dispatcher_for_codex_agents/main_agent_bridge/controller.py:91-182 | every run keeps the protocol's invariant, including what the controller's place promises about the ledger |
| Bridge.DueIffMayReserve | src/dispatcher_for_codex_agents/main_agent_bridge/controller.py:91-130 | in terms of ledger rows and events: some listing may be reserved exactly when the ledger can be read, has no AMBIGUOUS row and only completed reservations, fewer RESERVED rows than the wake budget and fewer turn starts than the turn budget, all events are readable, and some event is pending, all pending ones bound |
| Bridge.BudgetCanBeUsedUp | src/dispatcher_for_codex_agents/main_agent_bridge/controller.py:91-182 | for any budget, every number of continuations within the wake budget and below the turn budget is reached: a run from the start sends and completes exactly that many |
| Bridge.EveryReservationIsSettled | src/dispatcher_for_codex_agents/main_agent_bridge/controller.py:132-182 | in every run in which the process lives, no append of a reservation raises and its exception handler is not interrupted, every reservation is completed, given up as AMBIGUOUS, or still in hand |
| LedgerText.ReadableIffWholeAndSmall | src/dispatcher_for_codex_agents/main_agent_bridge/store.py:97-122 | reading the ledger's text succeeds exactly when it is at most 65536 bytes and no append was cut off inside its line, also after any further appends, and then gives the appended rows in order |
| LedgerText.WholeLedgersOutgrow | src/dispatcher_for_codex_agents/notifications/core.py:154-168 | appends that all succeed make every ledger too large to be read: 16385 of any row are enough |
| LedgerText.GluedIsNoObject | src/dispatcher_for_codex_agents/main_agent_bridge/store.py:119-122 | a row, or the beginning of one, glued to the rest of a cut row never makes it an object that can be read |
| LedgerText.LenientIffNotTorn | src/dispatcher_for_codex_agents/notifications/core.py:268-281 | the reader without the test of the last byte fails exactly when something is cut inside a line; a last row that lacks only its line end is read until the next append |
| LedgerText.SomeCodecIsSound | src/dispatcher_for_codex_agents/main_agent_bridge/store.py:19-20 | what is asked of the JSON writer and reader can be met |
| Dispatcher.EventStore.Write | src/dispatcher_for_codex_agents/main_agent_bridge/store.py:107-109 | one write adds any beginning of the line to the text, and the rows and the torn flag of the protocol stay those of the text |
| Dispatcher.EventStore.Append | src/dispatcher_for_codex_agents/main_agent_bridge/store.py:97-112 | an append either adds the row or raises with nothing, a part of the line, or the whole line durable; the file may grow past the limit by it; nothing else changes |
| Dispatcher.EventStore.Records | src/dispatcher_for_codex_agents/main_agent_bridge/store.py:114-122 | reading and decoding the text succeeds exactly when it is within the limit and no append was ever cut, and then returns the appended rows; the error says whether the size, the last byte or a line was at fault |
| Dispatcher.EventStore.Put | src/dispatcher_for_codex_agents/main_agent_bridge/store.py:149-164 | an invalid manifest or an unreadable stored event is refused; an event put again under its identity changes nothing and is reported as not created |
| Dispatcher.EventStore.Pending | src/dispatcher_for_codex_agents/main_agent_bridge/store.py:184-197 | the loop returns exactly the events that no RESERVED, COMPLETED or AMBIGUOUS row names, by sequence number and then by id; it fails exactly on a torn or too large ledger or an unreadable event |
| Dispatcher.EventStore.Inserted | src/dispatcher_for_codex_agents/main_agent_bridge/store.py:194-197 | inserting keeps the listing sorted and adds just the one event |
| Dispatcher.Controller.Check | src/dispatcher_for_codex_agents/main_agent_bridge/controller.py:91-130 | a delivery is allowed exactly when it is due, the authorization stands and no turn or question is open, and then for the pending listing; every refusal is given only where its own condition holds, those of the budgets only when that budget is used up |
| Dispatcher.Controller.Wake | src/dispatcher_for_codex_agents/main_agent_bridge/controller.py:120-182 | the reservation is tried before anything else; a success is exactly reserve, log, transmit, acknowledge; with every append whole it is a success exactly when the server answers, and otherwise the ledger ends with the AMBIGUOUS row of the reservation |
| Dispatcher.Controller.Deliver | src/dispatcher_for_codex_agents/main_agent_bridge/controller.py:91-182 | performs a run of the protocol; a reservation is tried exactly when the authorization stands, nothing else is open and the delivery is due: readable ledger, no AMBIGUOUS row, every reservation completed, both budgets left, all events readable, and some event pending, all pending ones bound; with every append whole it then succeeds exactly when the server answers; a success is exactly reserve, log, transmit, acknowledge, and a refusal names a condition that holds and leaves ledger and wire alone |
| Dispatcher.Controller.Transfer | src/dispatcher_for_codex_agents/main_agent_bridge/controller.py:132-182 | performs a run of the protocol that ends acknowledged or, after any exception, blocked; with every append whole it ends acknowledged exactly when the server answers, and otherwise with the AMBIGUOUS row as the last of the ledger |
| Dispatcher.Controller.Request | src/dispatcher_for_codex_agents/main_agent_bridge/appserver.py:126-144 | performs a run of the protocol in which the call is durably logged before anything leaves; a receipt means exactly that both happened, and comes exactly when the log holds and the server answers |
| Dispatcher.Controller.Follow | src/dispatcher_for_codex_agents/main_agent_bridge/controller.py:504-538 | the continuation turn performs a run; with every append whole it completes the reservation exactly when the turn is confirmed, and otherwise ends the ledger with the AMBIGUOUS row |
| Dispatcher.Controller.Continue | src/dispatcher_for_codex_agents/main_agent_bridge/controller.py:493-543 | performs a run of the protocol; it tries a reservation exactly when one is due; then, with every append whole, it succeeds exactly when the server answers and the turn is confirmed, which is exactly the five steps in order, and otherwise the ledger ends with an AMBIGUOUS row; nothing pending takes no step |
| Dispatcher.Controller.Start | src/dispatcher_for_codex_agents/main_agent_bridge/controller.py:626-634 | a fresh start goes ahead exactly over a ledger that can be read |
| Dispatcher.Controller.Prepare | src/dispatcher_for_codex_agents/main_agent_bridge/controller.py:656-694 | the three rows a recovering process writes first perform a run and change no reservation, turn start, completion or ambiguity; where appends hold and the server answers all three are written |
| Dispatcher.Controller.Recover | src/dispatcher_for_codex_agents/main_agent_bridge/controller.py:626-694 | a recovery starts exactly when the ledger can be read, a binding exists, all events verify and some event is in no row that takes it, and then performs a run from the recovery step on; where appends hold, the server answers and a delivery is due after its first rows it succeeds exactly when the turn is confirmed; over an ambiguous or unacknowledged ledger it reserves, starts and sends nothing |
| Notify.AtMostOneTransport | src/dispatcher_for_codex_agents/notifications/core.py:286-420 | for any interleaving of calls stopped anywhere, a sink and event are transported at most once, their rows tell one of the allowed stories, and a transport implies the row announcing it |
| Notify.StoryCases | src/dispatcher_for_codex_agents/notifications/core.py:320-398 | the allowed stories written out one by one |
| Notify.AnnouncedBeforeSend | src/dispatcher_for_codex_agents/notifications/core.py:366-390 | whenever a send can happen, its unknown-outcome row is durable and nothing was sent for the pair |
| Notify.SuppressionsAndDuplicatesAreJustified | src/dispatcher_for_codex_agents/notifications/core.py:303-350 | a suppressed row has an earlier SENT batch terminal of the same sink, session, turn and run within 300 seconds; a duplicate row repeats the status of an earlier row, so its fallback status is never used |
| Notify.RunKeepsInv | src/dispatcher_for_codex_agents/notifications/core.py:286-420 | every run keeps the invariant relating each call's place to the history and the transports of its pair |
| Notify.LedgerIsAppendOnly | src/dispatcher_for_codex_agents/notifications/core.py:247-283 | the ledger of every run extends the ledger it started from |
| Notify.OriginalIsReal | src/dispatcher_for_codex_agents/notifications/core.py:315-330 | the original status of a duplicate is the status of an earlier row of the same pair |
| Notify.OriginalIsLatest | src/dispatcher_for_codex_agents/notifications/core.py:315-330 | the original status of a duplicate is that of the latest row of the pair that is not a duplicate itself, and there is none exactly without such a row |
| Notify.DecisionIsExact | src/dispatcher_for_codex_agents/notifications/core.py:302-352 | every locked decision adds one row of its sink and event: a duplicate exactly when the ledger has a row of the pair, a harness suppression exactly when it has none, the event is a completed turn and some earlier SENT batch terminal of the same sink, session, turn and run lies between 0 and 300 seconds back, and otherwise the reservation that alone leads to a delivery |
| Notify.Ledger.Records | src/dispatcher_for_codex_agents/notifications/core.py:268-271 | the rows are read from the text: nothing if something is cut inside a line, otherwise every row whose text is complete |
| Notify.Ledger.Write | src/dispatcher_for_codex_agents/notifications/core.py:274-281 | any beginning of a row's line reaches the text, and the rows and flags of the protocol stay those of the text |
| Notify.FatePerforms | src/dispatcher_for_codex_agents/notifications/core.py:272-281 | whatever part of a row is written, it is a run of the protocol that ends the call unless the write is finished |
| Notify.Ledger.Append | src/dispatcher_for_codex_agents/notifications/core.py:272-281 | one append performs its step, or ends the call with nothing, a part, all but the line end, or all of the row written; it always performs it when nothing goes wrong |
| Notify.Ledger.Notify | src/dispatcher_for_codex_agents/notifications/core.py:286-420 | the loop over sinks performs a run amid interference; when it finishes, every sink has a status, which stands in the ledger and is a suppression or the outcome its configuration and sender give; when a lock or a write stops it no sink is reported; over a whole ledger with nothing going wrong it finishes |
| Notify.Ledger.Decision | src/dispatcher_for_codex_agents/notifications/core.py:302-352 | the section under the lock writes the row its ledger calls for, and does so whenever nothing goes wrong |
| Notify.Ledger.ToSink | src/dispatcher_for_codex_agents/notifications/core.py:302-352 | one sink's locked decision and what follows perform a run and leave the reported status in the ledger: DUPLICATE exactly when the ledger had a row of the pair, the harness suppression exactly when it had none, the event is a completed turn and an earlier SENT batch terminal of the same sink, session, turn and run lies at most 300 seconds back, and otherwise the outcome its configuration and sender give; a suppression sends nothing, and SENT, FAILED and DELIVERY_UNKNOWN are reported only of what was sent |
| Notify.Ledger.Attempt | src/dispatcher_for_codex_agents/notifications/core.py:353-398 | a reserved delivery performs a run that ends with its outcome recorded, the one its configuration and sender give, or with the call stopped, which happens only if something goes wrong |
| Notify.Ledger.Dispatch | src/dispatcher_for_codex_agents/notifications/core.py:353-396 | up to the outcome: a configuration error without a send exactly when the sink lacks its configuration, and otherwise a send after its announcement |
| Batch.SingleWinner | src/dispatcher_for_codex_agents/agent_harness/batch.py:1059-1116 | in every run of base runs, retries, plan creation, cancellation and crashes, however plans are named, two successful attempts of a profile and shard are the same attempt |
| Batch.OutcomesAreFinal | src/dispatcher_for_codex_agents/agent_harness/shard.py:116-121 | a sealed outcome, or an attempt nobody holds, never changes and never disappears |
| Batch.StartedOnce | src/dispatcher_for_codex_agents/agent_harness/batch.py:1280-1285 | no run starts an attempt twice |
| Batch.StartedStays | src/dispatcher_for_codex_agents/agent_harness/shard.py:115-121 | an attempt with a directory keeps it and is never started again |
| Batch.RunKeepsInv | src/dispatcher_for_codex_agents/agent_harness/batch.py:1189-1225 | every run keeps the batch invariant: one winner, retries presuppose a finished base, and what the lock holder may still start has no winner |
| Batch.AllBaseSuccessMeansNoRetries | src/dispatcher_for_codex_agents/agent_harness/batch.py:1084-1116 | where all base attempts of the planned cells succeeded no retry plan exists |
| Batch.RunIsOfCells | src/dispatcher_for_codex_agents/agent_harness/batch.py:977-1010 | with base runs of the planned cells only, attempts, scheduled work and retry plans are of planned cells in every run |
| Batch.AllBaseSuccessStaysWithoutRetries | src/dispatcher_for_codex_agents/agent_harness/batch.py:1084-1166 | once all base attempts of the planned cells succeeded, no retry plan directory exists after any later run, not even a half-written one |
| BatchExact.RetryIsAllowedIff | src/dispatcher_for_codex_agents/agent_harness/batch.py:1084-1116 | a retry may be planned exactly when its parent is the attempt named by the last plan of the cell, or the base, that attempt was begun, is not successful and has no process running or possibly running, no attempt of the cell succeeded, and the new id is unused |
| BatchExact.RetryRunIsAllowedIff | src/dispatcher_for_codex_agents/agent_harness/batch.py:1189-1225 | a retry run may start exactly when the lock is free, no plan directory is half-written, and every entry not yet begun has a parent that is over and idle and no successful attempt beside it |
| BatchExact.AllowedRetryCanRun | src/dispatcher_for_codex_agents/agent_harness/batch.py:1059-1472 | every retry that is allowed can be planned, run and sealed with any terminal result, success among them, by a run of the step system that changes nothing else |
| BatchExact.BaseCanRun | src/dispatcher_for_codex_agents/agent_harness/batch.py:1246-1472 | every planned cell that was not begun can be run to any terminal result |
| BatchExact.WorkersStayApart | src/dispatcher_for_codex_agents/agent_harness/batch.py:1318-1400 | in every run at most two attempts are in progress, of different profiles |
| BatchExact.TwoProfilesRunTogether | src/dispatcher_for_codex_agents/agent_harness/batch.py:1377-1400 | two waiting attempts of different profiles can be in progress at the same time |
| RetryChain.ChainKeptIffNamedLast | src/dispatcher_for_codex_agents/agent_harness/batch.py:1084-1116 | creating a plan keeps a cell's attempts one parent chain if and only if its name is listed after every plan that retries the cell |
| RetryChain.OneChildPerCell | src/dispatcher_for_codex_agents/agent_harness/process_guard.py:57-91 | with names in order, over any run, the attempts of a cell are one chain, all but the last are over, and at most one child of the cell is alive, also after crashes that left the launch unrecorded |
| RetryChain.OutOfOrderAllowsTwoChildren | src/dispatcher_for_codex_agents/agent_harness/batch.py:964-1010 | a concrete run with a name out of order in which two children of one cell are alive |
| BatchRun.InterleavingDoesNotMatter | src/dispatcher_for_codex_agents/agent_harness/batch.py:1318-1400 | every interleaving of the workers that finishes a schedule leaves the same attempts as one worker |
| BatchRun.InterleavingKeepsLedger | src/dispatcher_for_codex_agents/agent_harness/batch.py:1318-1472 | every interleaving of the workers that finishes a schedule, each reading back what it sealed, writes the same rows, one per selected attempt, which tell its status before and after and by that its action: executed, skipped as successful, incomplete, cancelled before its start, or blocked as failed; PASS exactly when all end successful |
| BatchRun.SortKeepsRows | src/dispatcher_for_codex_agents/agent_harness/batch.py:1446-1452 | the written ledger has the rows of the run, each once, ordered by profile, within a profile by shard, and within a shard by attempt |
| BatchRun.PassMeansAllSucceed | src/dispatcher_for_codex_agents/agent_harness/batch.py:1446-1472 | the run's rows say PASS exactly when every selected attempt ends successful |
| BatchRun.BatchRoot.Succeeded | src/dispatcher_for_codex_agents/agent_harness/batch.py:977-1010 | the loop finds a success exactly when some listed attempt of the cell has one |
| BatchRun.BatchRoot.Siblings | src/dispatcher_for_codex_agents/agent_harness/batch.py:1084-1116 | one pass over the listing finds the latest attempt and whether the wanted id is unused |
| BatchRun.BatchRoot.CheckEntry | src/dispatcher_for_codex_agents/agent_harness/batch.py:1084-1116 | an entry passes its checks exactly when it may be retried |
| BatchRun.BatchRoot.CreateRetryPlan | src/dispatcher_for_codex_agents/agent_harness/batch.py:1059-1166 | freezes all of a request or nothing: exactly when every entry may be retried and the name is unused the plan is listed complete, and this is a run of the step system |
| BatchRun.BatchRoot.ValidateRetryRun | src/dispatcher_for_codex_agents/agent_harness/batch.py:1189-1225 | the validation passes exactly when the step system allows the retry run to start |
| BatchRun.BatchRoot.RunChild | src/dispatcher_for_codex_agents/agent_harness/adapter.py:1115-1166 | a child process between its markers performs a run and leaves no process behind, also when it is not created or its second marker cannot be written; when nothing goes wrong it is launched and recorded as started |
| BatchRun.BatchRoot.Invoke | src/dispatcher_for_codex_agents/agent_harness/adapter.py:1115-1215 | one invocation performs a run from reserving the directory to sealing it, or raises with at most an incomplete directory, and touches nothing of other attempts; when nothing goes wrong it seals |
| BatchRun.BatchRoot.Execute | src/dispatcher_for_codex_agents/agent_harness/batch.py:1324-1400 | the loop performs a run that seals exactly the attempts before the cancellation, or before the invocation that raises, with their outcomes; that one leaves at most an incomplete directory, and nothing else is touched; without cancellation and exception all are sealed |
| BatchRun.BatchRoot.BuildLedger | src/dispatcher_for_codex_agents/agent_harness/batch.py:1401-1472 | one row per selected attempt in order, and the verdict over all of them |
| BatchRun.BatchRoot.RunSelected | src/dispatcher_for_codex_agents/agent_harness/batch.py:1248-1472 | from the schedule to the release of the lock performs a run; the sorted rows tell each attempt's status before and after and its action; PASS exactly when all end successful; if an invocation raises there is no ledger and at most one attempt is left incomplete; earlier attempts are untouched; without cancellation and exception there is a ledger over all attempts |
| BatchRun.BatchRoot.RunBasePlan | src/dispatcher_for_codex_agents/agent_harness/batch.py:1246-1472 | a run of the base attempts is refused if there are none, and otherwise is a run of the step system from taking the lock to releasing it that keeps the invariant; what it reports, if no invocation raises, is what happened, and without cancellation the rows are those of any number of workers |
| BatchRun.BatchRoot.RunRetryPlan | src/dispatcher_for_codex_agents/agent_harness/batch.py:1189-1472 | the same for one retry plan, which starts exactly when the step system allows it and otherwise does nothing |
| Lifecycle.AcceptsExactlyTheGrammar | src/dispatcher_for_codex_agents/agent_harness/runtime_contract.py:159-237 | the automaton reports no issue if and only if the stream is in the grammar, and then its diagnostics are exactly the events between thread start and turn start |
| Lifecycle.AcceptedIsGrammatical | src/dispatcher_for_codex_agents/agent_harness/runtime_contract.py:171-237 | a stream without issues is a valid thread start, error completions, a turn start, a body and one final terminal, each item telling a whole story of one type |
| Lifecycle.GrammaticalIsAccepted | src/dispatcher_for_codex_agents/agent_harness/runtime_contract.py:171-237 | every stream of the grammar is accepted with exactly those diagnostics |
| Lifecycle.WindowIsExact | src/dispatcher_for_codex_agents/agent_harness/runtime_contract.py:173-189 | on any stream the window before the turn is open exactly after a naming first event and until the first event that leaves it: it never reopens |
| Lifecycle.DiagnosticsLieInTheWindow | src/dispatcher_for_codex_agents/agent_harness/runtime_contract.py:190-221 | on any stream only identified error completions inside that window are called diagnostics |
| Lifecycle.LifecycleIssues | src/dispatcher_for_codex_agents/agent_harness/runtime_contract.py:159-237 | the loop decides the grammar and returns the diagnostics |
| LifecycleExact.IssuesAreExact | src/dispatcher_for_codex_agents/agent_harness/runtime_contract.py:171-237 | on any stream whatever, an event has an issue exactly under that issue's own condition on the events before it: where the thread, the turn and the items stand, and what the last event about the same item said |
| LifecycleExact.EndIssuesAreExact | src/dispatcher_for_codex_agents/agent_harness/runtime_contract.py:224-237 | the terminal is missing exactly when the last event that ends anything is not a terminal one, and an item is unfinished exactly when the last event about some item does not complete it |
| LifecycleExact.DiagnosticsAreExact | src/dispatcher_for_codex_agents/agent_harness/runtime_contract.py:190-221 | on any stream the diagnostics are exactly the identified error completions inside the window that do not conflict with an earlier event about their item |
| Activity.ConfirmedRejections | src/dispatcher_for_codex_agents/agent_harness/runtime_contract.py:310-353 | a confirmed rejection means nothing is unknown, no lifecycle issue and no finding, and it is the only evidence of its call, which is rejected and nothing else; with nothing unknown exactly the rejection events are confirmed |
| Activity.NothingReported | src/dispatcher_for_codex_agents/agent_harness/runtime_contract.py:400-441 | no activity is reported exactly when there are no calls and no findings, and then alone |
| Activity.KnownMeansClean | src/dispatcher_for_codex_agents/agent_harness/runtime_contract.py:240-441 | nothing unknown means a supported complete capture, a stream of the grammar, no hint on standard error and no finding |
| Activity.KnownCallsAreConclusive | src/dispatcher_for_codex_agents/agent_harness/runtime_contract.py:310-419 | with nothing unknown every call is closed by its last event and either ran, as one of its own events shows, or was refused, as its only event shows |
| Activity.DiagnosticsAreHarmless | src/dispatcher_for_codex_agents/agent_harness/runtime_contract.py:275-441 | adding a fresh error diagnostic before the turn start of a valid stream changes the report only by moving later positions up by one and listing the diagnostic |
| Activity.ClassifyActivity | src/dispatcher_for_codex_agents/agent_harness/runtime_contract.py:240-441 | the loop computes the classification the other rows speak of |
| ActivityExact.CallsAreReportedExactly | src/dispatcher_for_codex_agents/agent_harness/runtime_contract.py:310-419 | in every stream of the grammar under a supported protocol the calls are exactly the ids that some call event names, each with exactly those events as evidence in order, closed, and classified exactly: executed when some event shows that it ran, rejected when its only event shows a refusal, unknown when neither all events show no more than a start or a run with one showing the run, nor that; its outcome is exactly what the last event says, for a command success if and only if the exit code is 0 |
| ActivityExact.FindingsAreExact | src/dispatcher_for_codex_agents/agent_harness/runtime_contract.py:256-309 | there is no finding exactly when the capture is complete, standard error has no hint, every event is well formed and known, and the latest work list of no id has an open step |
| ActivityExact.KnownIffDecided | src/dispatcher_for_codex_agents/agent_harness/runtime_contract.py:400-441 | nothing is unknown exactly when there is no finding and every call ran or was refused on its own events; executed and rejected are reported exactly when some call is so classified |
| ActivityExact.ReportIsInOrder | src/dispatcher_for_codex_agents/agent_harness/runtime_contract.py:310-330 | on any stream the calls are listed in the order of their first events |
| Fence.NormalizeActsExactlyOnFences | src/dispatcher_for_codex_agents/agent_harness/runtime_contract.py:81-111 | the fence is taken off exactly when the text is white space, fence, body, fence, white space and what remains is JSON; otherwise the text is read as it is |
| Fence.RemovesTwoFencesOrNothing | src/dispatcher_for_codex_agents/agent_harness/runtime_contract.py:92-111 | nothing is removed, or exactly an opening fence of 8 bytes and a later closing fence of 3 inside the text, and the bytes left are the ones validated |
| Fence.NoFenceRemains | src/dispatcher_for_codex_agents/agent_harness/runtime_contract.py:86-111 | a text from which a fence was removed is not itself one fenced block |
| Fence.TwoWrappersStay | src/dispatcher_for_codex_agents/agent_harness/runtime_contract.py:86-111 | a block fenced twice is left alone and refused |
| Fence.WrappingIsFound | src/dispatcher_for_codex_agents/agent_harness/runtime_contract.py:92-104 | any decomposition into fences is the one found, so there is at most one |
| Fence.NormalizeIsIdempotent | src/dispatcher_for_codex_agents/agent_harness/runtime_contract.py:81-147 | normalizing the validated text again removes nothing and gives the same verdict and value |
| Fence.ToleranceIsConservative | src/dispatcher_for_codex_agents/agent_harness/runtime_contract.py:86-111 | the tolerant mode differs from the strict one exactly where it removes a fence, and never where the strict one succeeds |
| Fence.NormalizeOutput | src/dispatcher_for_codex_agents/agent_harness/runtime_contract.py:81-147 | the procedure computes the normalization the other rows speak of |
| Fence.VerdictIsExact | src/dispatcher_for_codex_agents/agent_harness/runtime_contract.py:112-147 | the text validated passes exactly when it is JSON that the schema accepts and that can be written out again; otherwise the first of the three that fails is reported, and a value is kept exactly where it passes or the schema alone rejects it |
| Schema.CoverageIsDistinctness | src/dispatcher_for_codex_agents/agent_harness/batch.py:504-514 | for an output with results that validates against a shard's specialized schema, coverage passes exactly when its record ids are pairwise distinct |
| Schema.CoverageIsExactOnce | src/dispatcher_for_codex_agents/agent_harness/runtime_contract.py:42-69 | coverage passes exactly when the reported ids are a permutation of the planned ones |
| Schema.Pigeonhole | src/dispatcher_for_codex_agents/agent_harness/runtime_contract.py:55-69 | as many distinct planned ids as planned are all of them |
| Schema.OutputFits | src/dispatcher_for_codex_agents/agent_harness/schema.py:161-236 | results fitting a specialized schema are an array of exactly as many rows as ids, each naming a planned id |
| Schema.SpecializationIsExact | src/dispatcher_for_codex_agents/agent_harness/batch.py:504-514 | for every schema with strict results: fitting the specialized schema and the own limits on the results is fitting the schema, the number of rows and the range of ids |
| Schema.NarrowsIffWithinOwnLimits | src/dispatcher_for_codex_agents/agent_harness/batch.py:504-514 | what fits the specialized schema fits the schema itself if and only if its results are within the schema's own limits |
| Schema.NarrowsIffOwnLimitsAdmit | src/dispatcher_for_codex_agents/agent_harness/batch.py:504-514 | it does whenever the number of ids and the ids are within those limits, and for an output that covers the shard only then |
| Schema.SpecializationOnlyNarrows | src/dispatcher_for_codex_agents/agent_harness/batch.py:504-514 | where the schema's own limits admit the shard, as they do in a schema without any, specializing adds exactly the number of rows and the range of ids |
| Schema.SpecializationMayWiden | src/dispatcher_for_codex_agents/agent_harness/batch.py:504-514 | a concrete checked schema that allows one result, and an output of two that is valid under its specialization and does not fit it |
| Schema.CheckedSchemasAreUnderstood | src/dispatcher_for_codex_agents/agent_harness/schema.py:47-236 | for every schema that passes the definition check, a value validates if and only if it is what each keyword by itself means and validating it meets no explicit null where object keys are looked at |
| Schema.NullFreeIffNoneMet | src/dispatcher_for_codex_agents/agent_harness/schema.py:78-106 | a checked schema without such nulls, which a caller can see, is never at fault for any value, and any other is at fault for some value |
| Schema.NullPropertiesRefuseEveryObject | src/dispatcher_for_codex_agents/agent_harness/schema.py:181-192 | a concrete schema that passes the definition check, asks for nothing, and refuses every object |
| Schema.BothCoverageChecksAgree | src/dispatcher_for_codex_agents/agent_harness/runtime_contract.py:42-54 | taking the ids from the specialized schema or from the shard gives the same answer |
| SchemaExact.DefinedIffSoundEverywhere | src/dispatcher_for_codex_agents/agent_harness/schema.py:47-143 | a schema passes the definition check exactly when at every place in it the type is known, the keywords are well formed and fit the type, required names are declared, bounds are in order and enumerations are not empty |
| SchemaExact.SpecializesIff | src/dispatcher_for_codex_agents/agent_harness/batch.py:504-514 | a checked schema with strict results can be specialized exactly for shards that are not empty |
| Evaluate.TerminalInvariantsHold | src/dispatcher_for_codex_agents/agent_harness/contracts.py:243-254 | every evaluation that says success has a completed turn, exit code zero and an output that passed its schema |
| Evaluate.SuccessIsGrammatical | src/dispatcher_for_codex_agents/agent_harness/adapter.py:294-323 | success under a supported protocol implies the stream is in the lifecycle grammar |
| Evaluate.StrictSuccessIsKnown | src/dispatcher_for_codex_agents/agent_harness/adapter.py:324-352 | success under another than the default contract implies nothing unknown, a supported protocol, and that every policy violation stands on a confirmed rejection the contract allows |
| Evaluate.StderrOnlyMakesStricter | src/dispatcher_for_codex_agents/agent_harness/adapter.py:380-425 | what succeeds with some standard error succeeds with the same output without it |
| Evaluate.OwnContractReproduces | src/dispatcher_for_codex_agents/agent_harness/revalidation.py:144-193 | reading a stored attempt again under its own contract gives its failure code, except that an uncovered success, possible only under the default contract, becomes a schema failure |
| Evaluate.OnlyInterpretationIsReinterpreted | src/dispatcher_for_codex_agents/agent_harness/revalidation.py:176-193 | under any contract only a success, policy violation or schema failure can come out successful, every other failure keeps its code, and a derived success satisfies the terminal invariants |
| Evaluate.ParseEventStream | src/dispatcher_for_codex_agents/agent_harness/adapter.py:199-267 | the two loops compute the events up to the first broken line, turns, models, violations and the last agent message, as the three rows below say in terms of the lines |
| Evaluate.EventsAreReadOff | src/dispatcher_for_codex_agents/agent_harness/adapter.py:202-220 | the events are exactly the decoded lines before the first broken one, in order |
| Evaluate.OutputIsTheLastMessage | src/dispatcher_for_codex_agents/agent_harness/adapter.py:229-239 | the final text is that of the last completed agent message with a text, and there is none exactly without such a message |
| Evaluate.ParsedIsWellEnded | src/dispatcher_for_codex_agents/agent_harness/adapter.py:250-256 | the stream parses as valid exactly when no line is broken, there is an event, and no event but the last completes the turn |
| Evaluate.EvaluateCapture | src/dispatcher_for_codex_agents/agent_harness/adapter.py:270-460 | the step-by-step evaluation computes the outcome the other rows speak of, its code among the conditions of the next row |
| Evaluate.KnownIff | src/dispatcher_for_codex_agents/agent_harness/adapter.py:294-352 | for a sound stream that completed its turn: nothing is unknown exactly when standard error has no hint, every event after the turn start is well formed and known, no work list is left open, and every call ran or was refused; under an unsupported protocol something always is |
| Evaluate.CodesAreExact | src/dispatcher_for_codex_agents/agent_harness/adapter.py:294-425 | every failure code, and success, is given exactly under its condition in terms of the capture: what stopped the run, whether the stream is sound and in the grammar, whether every violation is a confirmed rejection that is allowed, exit code, completed turn, the models reported, the last agent message and whether it passes |
| Evaluate.Revalidate | src/dispatcher_for_codex_agents/agent_harness/revalidation.py:136-193 | the step-by-step revalidation computes the derived outcome the other rows speak of |
| Evaluate.RefusedIffTextDiffers | src/dispatcher_for_codex_agents/agent_harness/revalidation.py:159-163 | a stored attempt is refused exactly when the text stored beside its capture is not the text of the last agent message |
| Evaluate.SuccessfulIffReinterpreted | src/dispatcher_for_codex_agents/agent_harness/revalidation.py:144-193 | a derived attempt is successful exactly when its recorded failure is none, a policy violation or a schema failure, the capture meets the conditions of success under the new contract, and the output does not miss ids of its schema |
| Planning.PartitionIsExact | src/dispatcher_for_codex_agents/agent_harness/batch.py:707-752 | the shards are as many as needed, none empty or too large, all but the last full, and together in order exactly the batch |
| Planning.PlanThenLoad | src/dispatcher_for_codex_agents/agent_harness/batch.py:834-881 | loading a written plan returns exactly the partition of the sorted members if there are at most 9999 shards and no member is padded in the source, and refuses it otherwise |
| Planning.LoaderReadsBackIff | src/dispatcher_for_codex_agents/agent_harness/batch.py:834-881 | the same for any ids in ascending order |
| Planning.ManyAreRefused | src/dispatcher_for_codex_agents/agent_harness/batch.py:841-847 | a plan of 10000 or more shards is never accepted |
| Planning.RowsStandAtTheirIndex | src/dispatcher_for_codex_agents/agent_harness/batch.py:843-847 | in any plan that is accepted every row stands in the shard listed at the row's own shard index |
| Planning.PlanBatch | src/dispatcher_for_codex_agents/agent_harness/batch.py:632-752 | the loops write the plan of the sorted members, or refuse members that are empty, repeated or not in the source |
| Planning.LoadPlan | src/dispatcher_for_codex_agents/agent_harness/batch.py:834-881 | the loops group, sort and check the rows and accept exactly the plans the other rows speak of |
| PlanningExact.LoaderAcceptsIff | src/dispatcher_for_codex_agents/agent_harness/batch.py:834-881 | the loader accepts a plan, as these shards, exactly when its rows are in any order those that writing the shards gives, the shards are numbered in the order of their different names, none is empty or too large, their input files agree, and together they hold the announced number of different records in order |
| Text.PaddedOrder | src/dispatcher_for_codex_agents/agent_harness/batch.py:716 | up to 9999 zero-padded names are listed in numeric order and differ |
| Text.FirstLongNameIsOutOfOrder | src/dispatcher_for_codex_agents/agent_harness/batch.py:843 | the name of shard 10000 is listed before that of shard 9999 |
| Text.LeIsLexicographic | src/dispatcher_for_codex_agents/agent_harness/batch.py:843 | texts are ordered as a beginning before the whole, and otherwise by the first character in which they differ |
| ShardFile.CrashIsSafe | src/dispatcher_for_codex_agents/agent_harness/shard.py:150-245 | wherever writing an attempt is stopped, the directory is believed only if at most its very last byte is missing, and then every artifact in it is exactly the one written |
| ShardFile.BelievedIffDescribed | src/dispatcher_for_codex_agents/agent_harness/shard.py:27-84 | a directory is believed exactly when it has one of the three sets of files, its manifest has exactly one row for each of them, with its size and digest, and no other, and the interpretation record says whether there is a normalized output |
| ShardFile.ManifestDetermines | src/dispatcher_for_codex_agents/agent_harness/shard.py:49-66 | two directories believed under the same manifest have the same files, of the same sizes and digests |
| ShardFile.BelievedIffUnchanged | src/dispatcher_for_codex_agents/agent_harness/shard.py:27-84 | whatever becomes of a written directory that keeps its manifest: it is believed exactly when it has the files that were written, unchanged, and its interpretation record fits; that a changed artifact has another digest is all that is asked of the digest |
| ShardFile.CutManifest | src/dispatcher_for_codex_agents/agent_harness/shard.py:27-84 | with all artifacts in place as they were written the directory is believed exactly when its manifest lacks nothing or nothing but the final line end |
| ShardFile.RowsOfCut | src/dispatcher_for_codex_agents/agent_harness/shard.py:49-57 | a manifest cut off anywhere loses a row, has its last row truncated, or lacks at most the final line end |
| ShardFile.TruncatedRow | src/dispatcher_for_codex_agents/agent_harness/shard.py:58-64 | a truncated row never matches: its digest is missing or too short |
| ShardFile.SplitPrefix | src/dispatcher_for_codex_agents/agent_harness/shard.py:49-57 | splitting a prefix of joined parts gives the parts before the cut and a piece of the part at the cut |
| ShardFile.FieldIsInTheLastColumn | src/dispatcher_for_codex_agents/agent_harness/shard.py:49-53 | a field of a manifest row is read from the last column of its name, if the row reaches that far |
| ShardFile.ImmutableShardWriter.WriteExclusive | src/dispatcher_for_codex_agents/agent_harness/shard.py:125-143 | creating a file leaves none of it, a prefix, or all of it, as the remaining steps decide, and no other file changes |
| ShardFile.ImmutableShardWriter.WriteAll | src/dispatcher_for_codex_agents/agent_harness/shard.py:173-219 | the artifacts are written in order up to where the process stops |
| ShardFile.ImmutableShardWriter.Write | src/dispatcher_for_codex_agents/agent_harness/shard.py:150-245 | writing the artifacts, the manifest and the seal leaves exactly the directory the crash theorem speaks of, sealed only when nothing is missing |
| Collect.OneCandidateIffSucceeded | src/dispatcher_for_codex_agents/agent_harness/batch.py:964-1010 | in a reachable state the attempts can be listed exactly when every retry plan is whole, and then a profile and shard has one candidate if any of its attempts succeeded and otherwise none |
| Collect.OutputRows | src/dispatcher_for_codex_agents/agent_harness/batch.py:1716-1745 | a validated and covered output's rows, sorted, are named by exactly the shard's records in order |
| Collect.ShardIsExact | src/dispatcher_for_codex_agents/agent_harness/batch.py:1643-1745 | in a reachable state a shard is recorded as without success exactly when no listed attempt succeeded; with one, its rows are those of that output if it is valid for the shard and covers its records, and otherwise the check that fails first is recorded |
| Collect.PartIsExact | src/dispatcher_for_codex_agents/agent_harness/batch.py:1643-1790 | a profile's part has the problems of exactly the shards that have one, in their order, and in its table exactly the rows of the others |
| Collect.AuditPassesIffNoProblems | src/dispatcher_for_codex_agents/agent_harness/batch.py:1746-1790 | a profile's audit passes exactly when no shard recorded a problem, and then its table lists exactly the planned records, once each and in order |
| Collect.CollectsIffAllSucceeded | src/dispatcher_for_codex_agents/agent_harness/batch.py:1577-1835 | with every success evaluated under another than the default contract, a profile's collection passes exactly when every retry plan of the batch can be read and each of the profile's shards has a successful attempt, first or retried |
| Collect.PassedRunCollects | src/dispatcher_for_codex_agents/agent_harness/batch.py:1577-1835 | once all base attempts of a profile succeeded, whatever runs afterwards, its collection passes exactly when the retry plans, all of other profiles, can be read, and lists exactly the planned records |
| Collect.LoadedIsCollectable | src/dispatcher_for_codex_agents/agent_harness/batch.py:834-917 | what the plan loader accepts meets what collecting presupposes |
| Collect.ReportedPassCollects | src/dispatcher_for_codex_agents/agent_harness/batch.py:1446-1472 | from planning to the table: if the plan written for some members is loaded and a run with one worker or two reported PASS over the base attempts of all profiles and shards, then after anything that happens to the batch later there is no retry plan, and every profile's collection passes and lists exactly the sorted members |
| Collect.HalfWrittenIsReachable | src/dispatcher_for_codex_agents/agent_harness/batch.py:1059-1166 | a run in which one profile succeeds, the other fails, and the process freezing its retry dies with the plan directory just created |
| Collect.UnfinishedPlanBlocksAll | src/dispatcher_for_codex_agents/agent_harness/batch.py:1577-1600 | in that state nothing is collected for the profile all of whose shards succeeded |
| Collect.CollectProfile | src/dispatcher_for_codex_agents/agent_harness/batch.py:1643-1790 | the loop over shards computes the part the other rows speak of |
| Collect.CollectBatch | src/dispatcher_for_codex_agents/agent_harness/batch.py:1587-1945 | collecting is refused exactly when a retry plan cannot be read; otherwise one part per profile, and PASS exactly when every part passes |

## Left out

- Subprocesses, signals, process groups, the App Server transport, sinks and the forked sender: each is one step whose
  outcome is given from outside.
- Files, permissions, symbolic links, `fsync` and `flock`: a directory is a map or a sequence with exclusive creation, a
  ledger its text or the sequence of rows and flags the text stands for, a lock a mutex released by a crash.
- SHA-256 and HMAC: event and attempt identities are taken as given names; a digest is any text of 64 characters.
- JSON text and regular expressions: for ledgers, a writer and a reader of which only what `LedgerText.Sound` says is used;
  elsewhere a decoder that refuses text starting with a backtick, a typed view of decoded events,
  and searches of the error text that are monotone in standard error. Not-a-number and infinite JSON numbers do not occur.
- TSV text, except for the attempt manifest: planning and loading exchange rows as values; the batch id, input file and
  task id columns, which are functions of the shard name, are left out of the rows.
- The attempt manifest is read with plain decimal sizes; the host language's `int` also accepts signs, blanks and
  underscores, which the writer never produces.
- Retry plans live in the sorted listing of their directory, named by their rank in it; the text of their names and their
  hashed manifests are not modelled, an unfinished plan directory is.
- `dca invoke` into a batch root: it bypasses the batch lock, so it is outside the batch step system.
- Policy violations are a list attached to each event; how they are found in its text is not modelled.
- The order of tool calls in a report is kept as the order of their first events; warnings, usage, provenance and the
  audit documents are not modelled.
- The collector's long table, its list of failed attempts and explicit selections with revalidated results.
- `EventStore.wait`, status snapshots, dry runs, configuration loading, hooks, presentation, monitoring and all command
  lines: plumbing or single-branch functions.
- BatchRun.BatchRoot.RunSelected: one worker, and an attempt is sealed with a given outcome. Profiles, shards and attempts
  stand for their rank in the order rows are sorted by. That a second worker changes nothing is
  BatchRun.InterleavingKeepsLedger, about the step system.
- The identity check of notification rows (`_validate_ledger_row`) is part of the decoder of `LedgerText.Sound`: the rows
  that are written pass it, and edits of the ledger by others are not modelled.
- Other files read with the size limit of the bridge's ledger (events, manifests, the binding): a too large one is an
  unreadable one.
- Notify.DecisionIsExact: the clock is read once for the search, where the code reads it again for every row that matches
  so far; a row that leaves the 300 seconds during the search is not modelled.
- Schema.CoverageIsDistinctness: needs an output that has results, as the root schema need not require them.
- Fence.NormalizeIsIdempotent: the value is compared where it was decoded; an undecodable value keeps the raw text, which
  is shorter the second time.
- Evaluate.OwnContractReproduces: speaks of attempts whose result came from evaluating a capture; failures before launch
  are recorded without one.
