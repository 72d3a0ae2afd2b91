# Verified model of the reservation, event, bridge and backup protocols

This project models four parts of the system in Dafny and proves what they promise.

1. **Table inventory of the restaurant reservation demo** (`examples/restaurant_reservation_os/policy_functions.py`).
   Each table carries a ledger of time intervals, held or booked. A quote checks a request against the policy;
   three edit functions (create, authorize a deposit, cancel) read versioned snapshots and return a batch of two
   object edits that the Action runtime commits under optimistic concurrency. Any number of clients may read,
   compute from old snapshots, and submit batches again and again. The commit rule is the one stated in
   `policy_functions.py:6-7` and in the Actions row of the repository's `README.md:97`: a batch commits as a whole, only if
   every version it names is current and the key it creates is unused, and each modification raises the version of
   its object by one. The two configuration actions are extra steps; neither can write a ledger.
2. **Event stream of the stdio proxy** (`scripts/ontology_mcp_stdio.py`): the line-level parser and the cursor that
   turns replayed responses into a stream without gaps or duplicates.
3. **MCP Apps bridge** (`apps/chatgpt-domain-os-widget/foundry-lite-mcp-osdk.js`): requests, replies that arrive
   while a request is still being posted, timeouts, target pinning, teardown; and the challenge, approval and
   generation protocol on top of it.
4. **Recovery of a failed backup** (`scripts/operations/backup_macmini_qa.py`): pausing workers and undoing it, with
   a failure possible at every step.

## Layout

| file | contents |
|---|---|
| `Basics.dfy`, `ReservationData.dfy` | optional values, the records and constants of the reservation system |
| `Ledger.dfy`, `Policy.dfy`, `EditFunctions.dfy` | the ledger, the policy and the edit functions |
| `Store.dfy`, `Effects.dfy`, `Interleaving.dfy` | the object store and its commit rule, what one commit does, clients in any interleaving |
| `Bookings.dfy`, `Money.dfy`, `InventoryVersions.dfy`, `Outcomes.dfy`, `TableHistory.dfy`, `RecordBookings.dfy`, `Compaction.dfy`, `Packing.dfy` | what holds over every run |
| `DayTables.dfy`, `FullTable.dfy`, `Backdating.dfy` | runs that show where a promise ends |
| `QuoteExamples.dfy` | examples: the quotes in `tests/unit/test_restaurant_reservation_policy_function.py`, derived from the model |
| `EventStream.dfy`, `EventDelivery.dfy` | the parser; the cursor and the polling loop |
| `Bridge.dfy`, `Generation.dfy` | the request bridge; the generation protocol |
| `BackupRecovery.dfy` | the recovery protocol |

Code that only computes is modelled by functions; loops and in-place updates are methods proved against those
functions; the bridge, the tool calls and the backup operator are classes. Instants are integers counting
microseconds, and `requestedAt` is whatever a caller supplies: a result that needs the times of a table to be
non-decreasing, or a look not to be backdated, says so (`InOrder`, `NoneAfter`).

## Findings

- **The 500-entry limit can be reached under a negative minimum notice.** With ordered times, positive turn times and
  a booking window of at most 499 turn times, an accepted and bookable request is refused for the number of entries
  exactly if 500 entries are active, and then the seating it asks for is already over (`Packing.EntryLimitExactly`).
  `FullTable.PastRequestReachesTheLimit` gives a run of 500 bookings that gets there. With a notice that is not
  negative, or for a seating that ends after the request, the limit is never reached.
- **Pruning is visible to a backdated look.** `Backdating.BackdatedLookDiffers` gives the run.
  `Compaction.PruningUnseenExactly` says for every run exactly when a look cannot tell the stored ledger from one that
  was never pruned: if and only if every uncancelled reservation whose entry is active at the time of the look was
  active at the time of every operation on the table since its creation. `Compaction.CompactionIsInvisible` follows:
  no look sees the pruning that is not backdated, in whatever order the operations before it were dated.
- **Backdated calls can confirm two reservations of one table for the same time.** The stored entries of a table never
  overlap, but a record outlives its entry. `Backdating.TwoConfirmedForOneDay` gives the run.
  `RecordBookings.ConfirmedBlocksExactly` says exactly until when a confirmed reservation blocks its table: until the
  request, or any operation on the table since its creation, came with a time at or past its end.
  `RecordBookings.ConfirmedRecordsAreApart` shows that this cannot happen with ordered times when no reservation is
  requested after it was to start, which a minimum notice that is not negative ensures.
- **Some workers are paused that recovery will not put back.** Pausing takes any deployment with a worker component
  and an integer replica count; recovery refuses a receipt whose name lacks the worker prefix or whose count is not
  between 0 and 10. In every run such a worker is left at zero replicas. When every command of the recovery succeeds,
  a worker is back exactly if its receipt is accepted or it had no replicas, and cleanup passes exactly if all
  receipts are accepted (`BackupRecovery.Operator.Backup`). `BackupRecovery.ElevenReplicasStayDown` gives the input.
- **A passed cleanup can leave the platform in restore mode.** If starting the mode takes effect but the call fails and
  no status request confirms it, the operator takes it as not started, recovery asks for no approval, and cleanup
  passes. After a passed cleanup the platform is still in restore mode exactly in that case
  (`BackupRecovery.Operator.Backup`); `BackupRecovery.LostStartStaysInRestoreMode` gives the input.

## Model

| member | source | states |
|---|---|---|
| `Ledger.ActiveInventory` | examples/restaurant_reservation_os/policy_functions.py:445-458 | the result is the ledger's entries, in order, that have not ended and, if held, have not expired |
| `Ledger.HasTurnConflict` | examples/restaurant_reservation_os/policy_functions.py:338-345 | true exactly if some active entry meets the requested interval |
| `Ledger.MeetsMeansSharedInstant` | examples/restaurant_reservation_os/policy_functions.py:343 | for non-empty intervals the overlap test holds exactly if the two half-open intervals share an instant |
| `Ledger.TransitionInventoryEntry` | examples/restaurant_reservation_os/policy_functions.py:481-497 | the in-place pass books the entry of the id among the active ones and changes no other, and raises exactly if there is none |
| `Ledger.PruneInvisibleIff` | examples/restaurant_reservation_os/policy_functions.py:445-458 | pruning at one time leaves the active entries at another unchanged exactly if it dropped none of them |
| `Policy.EligibilityReasons` | examples/restaurant_reservation_os/policy_functions.py:259-286 | the list built step by step is the ordered list of violated rules, and empty exactly for a compliant request |
| `Policy.AppendTimePolicyReasons` | examples/restaurant_reservation_os/policy_functions.py:289-323 | extends the violations of the first six rules to those of the first eleven |
| `Policy.AppendSeatingReasons` | examples/restaurant_reservation_os/policy_functions.py:326-335 | extends the violations of the first eleven rules to those of the first thirteen |
| `Policy.EligibilityIsExact` | examples/restaurant_reservation_os/policy_functions.py:259-286 | a reason is listed if and only if its rule is violated, each once, in the published order |
| `Policy.ReasonsExactly` | examples/restaurant_reservation_os/policy_functions.py:259-335 | the list is, in order, one flag for each of the fourteen codes, set exactly by the condition that the code names, with every default |
| `Policy.NoReasonsMeansCompliance` | examples/restaurant_reservation_os/policy_functions.py:259-345 | no reasons if and only if the positive policy holds; among others, the local minute is service start plus k intervals for some k >= 0 and at most the last seating, and no active entry meets the seating |
| `Policy.BookableExactly` | examples/restaurant_reservation_os/policy_functions.py:58 | a quote is bookable if and only if the request complies and the party size is decided online |
| `Policy.QuoteExactly` | examples/restaurant_reservation_os/policy_functions.py:27-72 | the whole quote: it raises only for an invalid clock or an oversized ledger; it is unavailable if and only if the request does not comply, and otherwise each of the four decisions is given exactly for its range of party sizes; deposit, deadline, grace, expiry, hold, end of service and version are those of the policy numbers |
| `ReservationData.LocalTime` | examples/restaurant_reservation_os/policy_functions.py:309-312 | the local minute is hours times 60 plus minutes of the local time of day, and the weekday counts on from Monday, for every offset |
| `EditFunctions.QuoteAndCreateAgree` | examples/restaurant_reservation_os/policy_functions.py:91-145 | creation succeeds if and only if the policy was accepted, the quote is bookable and the active ledger has room; the record then holds the quoted decision, deposit, deadline, end and expiry, and the ledger is the active entries, in order, followed by the one the record describes |
| `Effects.CommittedEffect` | examples/restaurant_reservation_os/policy_functions.py:75-256 | what a committed operation changes in the store: its table's ledger, version and marks and one reservation, whose new fields are given, with what becomes of the deposit on cancellation; and nothing else |
| `Interleaving.CurrentCall` | examples/restaurant_reservation_os/policy_functions.py:374-410 | if every version that a batch names is current, the snapshots it was computed from, of whatever age, are the store as it stands, so computing it now gives the same batch |
| `Interleaving.CommitIsRunAlone` | examples/restaurant_reservation_os/policy_functions.py:374-426 | a batch computed from snapshots of any age, if it commits, does what the operation does alone on the current store |
| `Interleaving.Serializable` | examples/restaurant_reservation_os/policy_functions.py:374-426 | every interleaving of reads, computations and submissions reaches the store that the committed operations reach one at a time, in commit order |
| `Interleaving.InterleavingIsRun` | examples/restaurant_reservation_os/policy_functions.py:146-177 | every interleaving is a run of operations alone, so what holds of all runs holds of all interleavings |
| `Bookings.NoDoubleBooking` | examples/restaurant_reservation_os/policy_functions.py:105-112 | in every store that any interleaving reaches, with turn times changing and times going backwards, no two stored entries of a table's ledger hold the same instant; this is about entries, not about records whose entries are gone |
| `Bookings.LedgerAgreesWithRecords` | examples/restaurant_reservation_os/policy_functions.py:429-442 | in every reachable store a reservation has at most one entry in all ledgers; an entry has the table, start, recorded turn time, hold status and expiry of its record; a released reservation has none |
| `Bookings.DroppedIdsAreFrozen` | examples/restaurant_reservation_os/policy_functions.py:481-505 | once an entry has left its ledger, its id is in no ledger ever again, its record never changes and no operation on it commits, even a backdated one |
| `Bookings.BookedEntryLifetime` | examples/restaurant_reservation_os/policy_functions.py:445-458 | a booked entry leaves only by its cancellation or by an operation on its table at or past its end |
| `Bookings.HeldEntryLifetime` | examples/restaurant_reservation_os/policy_functions.py:445-458 | a held entry leaves only by its cancellation or by an operation on its table at or past its expiry or end |
| `Money.MoneyIsConserved` | examples/restaurant_reservation_os/policy_functions.py:523-533 | on every run the total charged is the total repaid plus the deposits still kept; a reservation is charged at most once, its quoted deposit, and repaid at most once, after that, the same amount, by its deadline |
| `Money.CancellationSettlesDeposit` | examples/restaurant_reservation_os/policy_functions.py:523-533 | in every run a cancellation repays a paid deposit in full up to the deadline, with its reference and time, and keeps it after the deadline; it drops a deposit that was asked for and not paid; where none was asked for nothing changes; and it orders exactly that movement |
| `Money.PaymentChargesDeposit` | examples/restaurant_reservation_os/policy_functions.py:194-206 | in every run a payment confirms the reservation and charges exactly the quoted deposit, and creations and configurations order no movement |
| `Money.TermsArePinned` | examples/restaurant_reservation_os/policy_functions.py:125-140 | no operation changes what was requested and quoted, and a cancelled record never changes |
| `Money.SevenRecordStates` | examples/restaurant_reservation_os/policy_functions.py:196-206 | only seven combinations of status, hold and payment are reachable |
| `InventoryVersions.VersionOfLastTouch` | examples/restaurant_reservation_os/policy_functions.py:141 | a record's inventory version is its table's version right after the commit that last wrote the record |
| `InventoryVersions.InventoryVersionsOrderCommits` | examples/restaurant_reservation_os/policy_functions.py:205 | two reservations last written through one table never share an inventory version, and the order is commit order |
| `InventoryVersions.OneTableForLife` | examples/restaurant_reservation_os/policy_functions.py:508-510 | all operations that write one reservation go through the same table object, and only the first creates it |
| `Compaction.PruningUnseenExactly` | examples/restaurant_reservation_os/policy_functions.py:445-458 | in every run a look at any time finds the same active entries, in the same order, in the stored and in the never-pruned ledger if and only if every uncancelled reservation of the table whose entry is active then was active at the time of every operation on the table since its creation |
| `Compaction.CompactionIsInvisible` | examples/restaurant_reservation_os/policy_functions.py:111-112 | at a time no earlier than those of the operations so far the stored ledger has the same active entries as a ledger that was never pruned |
| `Compaction.CallsCannotSeeCompaction` | examples/restaurant_reservation_os/policy_functions.py:481-505 | so the violated rules and the outcomes of booking and removing are those of the never-pruned ledger |
| `Backdating.BackdatedLookDiffers` | examples/restaurant_reservation_os/policy_functions.py:453-456 | a run after which a backdated look tells the stored ledger from the never-pruned one |
| `RecordBookings.EntryLivesExactly` | examples/restaurant_reservation_os/policy_functions.py:445-458 | in every run the entry of an uncancelled reservation is in its table's ledger if and only if it was active at the time of every operation on the table since its creation |
| `RecordBookings.ConflictsExactly` | examples/restaurant_reservation_os/policy_functions.py:338-345 | in every run a request meets with a conflict if and only if it meets an uncancelled reservation of the table whose entry was active at all those times and is active at the time of the request |
| `RecordBookings.ConfirmedBlocksExactly` | examples/restaurant_reservation_os/policy_functions.py:445-458 | a confirmed reservation blocks a request if and only if neither the request nor an operation on the table since its creation came with a time at or past its end |
| `RecordBookings.MeetingRecordsWereOvertaken` | examples/restaurant_reservation_os/policy_functions.py:105-112 | two confirmed reservations of a table meet only if an operation on it came with a time at or past the end of the first, after its creation and no later than that of the second |
| `RecordBookings.ConfirmedRecordsAreApart` | examples/restaurant_reservation_os/policy_functions.py:105-112 | with non-decreasing times and no reservation requested after it was to start, no two confirmed reservations of a table ever share an instant, with or without entries |
| `RecordBookings.NoticeMeansStartsLater` | examples/restaurant_reservation_os/policy_functions.py:295-300 | under a minimum notice that is never negative no reservation is requested after it was to start |
| `Backdating.TwoConfirmedForOneDay` | examples/restaurant_reservation_os/policy_functions.py:445-458 | a run with one backdated call after which two confirmed reservations hold one table for the same day |
| `Packing.DisjointEntriesAreFew` | examples/restaurant_reservation_os/policy_functions.py:338-345 | at most n disjoint entries of at least one turn time end after a time and start within n - 1 turn times of it |
| `Packing.EntryLimitExactly` | examples/restaurant_reservation_os/policy_functions.py:475-478 | with ordered times, positive turn times and a window of at most 499 turn times, creation is refused for the number of entries if and only if it is accepted, bookable and finds 500 active entries; then the seating asked for is over |
| `Packing.EntryLimitIsNeverReached` | examples/restaurant_reservation_os/policy_functions.py:301-305 | so with a minimum notice that is not negative, or for a seating that ends later, every accepted and bookable request is created |
| `FullTable.PastRequestReachesTheLimit` | examples/restaurant_reservation_os/policy_functions.py:475-478 | a run of 500 bookings after which an accepted, bookable request for the day before is refused for the number of entries |
| `Outcomes.PaymentSucceedsExactly` | examples/restaurant_reservation_os/policy_functions.py:180-215 | in a reachable store a payment commits if and only if the reservation's own entry stands in that table's ledger as a live hold, the method is accepted and the attempt has an id |
| `Outcomes.CancellationSucceedsExactly` | examples/restaurant_reservation_os/policy_functions.py:218-256 | in a reachable store a cancellation commits if and only if the reservation's own entry is active in that table's ledger and, when a refund is due, the cancellation has an id |
| `Outcomes.CreationErrorsAreTrue` | examples/restaurant_reservation_os/policy_functions.py:91-104 | an error of a creation says what is so of the request and the objects |
| `Outcomes.PaymentErrorsAreTrue` | examples/restaurant_reservation_os/policy_functions.py:508-520 | an error of a payment says what is so of the record, the method, the attempt or the objects |
| `Outcomes.CancellationErrorsAreTrue` | examples/restaurant_reservation_os/policy_functions.py:230-234 | an error of a cancellation says what is so of the record, the cancellation or the objects |
| `EventStream.SseEvents` | scripts/ontology_mcp_stdio.py:214-233 | the loop returns one event per block of lines with data, including a last block that no blank line ends, with the last id and the joined data of that block |
| `EventStream.ParserMeaning` | scripts/ontology_mcp_stdio.py:215-232 | at every line the loop's variables are the events of the ended blocks and the id and data of the open one |
| `EventStream.OneBlock` | scripts/ontology_mcp_stdio.py:218-224 | lines without a blank one are one block: an event with its data and id if it has data, whether or not a blank line ends it |
| `EventStream.FieldExactly` | scripts/ontology_mcp_stdio.py:227-228 | the name is what stands before the first colon, and the value what follows it without one leading space, or nothing |
| `EventStream.LastIdExactly` | scripts/ontology_mcp_stdio.py:229-230 | the id of a block is that of its last id line, and there is none without one |
| `EventStream.DataExactly` | scripts/ontology_mcp_stdio.py:231-232 | the data of a block are the values of all its data lines, in order |
| `EventStream.JoinThenSplit` | scripts/ontology_mcp_stdio.py:221 | splitting the data of an event at line breaks gives its data lines |
| `EventStream.JoinedStreams` | scripts/ontology_mcp_stdio.py:218-224 | two streams joined by a blank line parse to the events of the first followed by those of the second |
| `EventStream.IgnoredLinesChangeNothing` | scripts/ontology_mcp_stdio.py:225-232 | inserting a comment or an unknown field anywhere changes no event |
| `EventStream.RoundTrip` | scripts/ontology_mcp_stdio.py:214-233 | printing any events with data and parsing the lines returns the events |
| `EventDelivery.CoordinateOfEventId` | scripts/ontology_mcp_stdio.py:246-253 | the coordinate of prefix, colon, decimal number is that prefix and number, whatever the prefix |
| `EventDelivery.NewerMeansLaterNumber` | scripts/ontology_mcp_stdio.py:236-243 | within one numbered stream an id is newer if and only if its number is larger |
| `EventDelivery.TakenExactly` | scripts/ontology_mcp_stdio.py:198-210 | an event without data is never taken; one without an id, or of another stream than the cursor, always is; one of the cursor's stream exactly if its number is larger; the cursor moves to its id |
| `EventDelivery.TakenWithoutNumber` | scripts/ontology_mcp_stdio.py:243-253 | an event whose id has no number is taken exactly if the id is not the cursor, and an empty id leaves the cursor |
| `EventDelivery.SsePayloads` | scripts/ontology_mcp_stdio.py:187-211 | the loop returns the payloads of the events newer than the moving cursor and the cursor after them, or raises exactly if the data of one of those does not decode |
| `EventDelivery.RunStdio` | scripts/ontology_mcp_stdio.py:127-155 | the loop writes the responses of the accepted requests, in order, one error for each rejected request and each poll that raises, and the notifications |
| `EventDelivery.OutputsExactly` | scripts/ontology_mcp_stdio.py:136-155 | over every run the responses written are those of the accepted requests, in order, and the errors are as many as the rejected requests and raising polls |
| `EventDelivery.LastTurnWrites` | scripts/ontology_mcp_stdio.py:142-153 | within a turn the response comes before the notifications or the error, and a turn polls if and only if its request is accepted and it or an earlier accepted one was given a session |
| `EventDelivery.NotificationsAreDelivered` | scripts/ontology_mcp_stdio.py:136-155 | the notifications written over a run are the payloads of the selected events, in order |
| `EventDelivery.FailedPollChangesNothing` | scripts/ontology_mcp_stdio.py:144-155 | a turn whose poll raises, or that does not poll, writes no notification and leaves the cursor |
| `EventDelivery.DeliveredAtMostOnce` | scripts/ontology_mcp_stdio.py:187-243 | whatever the server repeats, omits or reorders of one numbered stream, the delivered numbers are strictly increasing over the whole run and the cursor is the last of them |
| `EventStream.ServedRoundTrip` | apps/api/foundry_lite_api/routers/ontology_mcp.py:311-321 | parsing a response as the servers print it, with the kind of each event and a comment at the end, returns the events |
| `EventDelivery.PrintedWindow` | scripts/ontology_mcp_stdio.py:214-233 | a response that a plain printer makes of a window of the log carries that window |
| `EventDelivery.ServedWindow` | apps/api/foundry_lite_api/routers/ontology_mcp.py:311-321 | so does a response as the servers print it, as exactly-once delivery asks for it |
| `EventDelivery.DeliveredExactlyOnce` | scripts/ontology_mcp_stdio.py:136-155 | if the events of every successful response, whatever other lines it has, are a window of the log that starts at or before the event after the cursor, the notifications of the whole run are the log up to the largest number that any of these responses has shown, with no gap and no repetition |
| `Bridge.McpBridge.HandleMessage` | apps/chatgpt-domain-os-widget/foundry-lite-mcp-osdk.js:33-58 | the handler changes the bridge as the transition function says, also when listeners or the host act before it returns |
| `Bridge.McpBridge.Request` | apps/chatgpt-domain-os-widget/foundry-lite-mcp-osdk.js:60-76 | posting to each destination may be answered at once; only a request still pending then gets a timer |
| `Bridge.McpBridge.TimeOut` | apps/chatgpt-domain-os-widget/foundry-lite-mcp-osdk.js:70-74 | a live timer settles its request if that is still pending |
| `Bridge.McpBridge.TearDownAll` | apps/chatgpt-domain-os-widget/foundry-lite-mcp-osdk.js:301-310 | teardown rejects the pending requests in order, clears their timers and empties the map |
| `Bridge.PerformKeepsInv` | apps/chatgpt-domain-os-widget/foundry-lite-mcp-osdk.js:33-76 | every action, at any depth of re-entry, keeps the invariant on pending ids, settlements and timers, and never takes back ids, settlements, target or teardown |
| `Bridge.EveryActionObeys` | apps/chatgpt-domain-os-widget/foundry-lite-mcp-osdk.js:33-76 | after any actions, a heeded reply resolves or rejects its pending request, clears its timer and pins its source; a heeded tool result pins its source; a timer that fires times its request out; teardown aborts all pending requests in the order of issue; a request is posted once to the pinned target or once to each host; and any other message changes nothing |
| `Bridge.RequestsSettleAtMostOnce` | apps/chatgpt-domain-os-widget/foundry-lite-mcp-osdk.js:33-76 | after any actions a request is pending if and only if it was issued and has not settled, none settles twice, and live timers and pending requests match one to one |
| `Bridge.PinningAndTeardownAreFinal` | apps/chatgpt-domain-os-widget/foundry-lite-mcp-osdk.js:301-310 | settlements and the pinned target never change; after teardown nothing is pending, timed, issued, posted or settled |
| `Bridge.SettlementsAreCaused` | apps/chatgpt-domain-os-widget/foundry-lite-mcp-osdk.js:33-76 | a request resolves or rejects only because the pinned target, which is one of the hosts, sent a well-formed result or error with its id; it times out only because a timer started for it fired; it is aborted only by teardown; and the pinned target has sent a reply or a tool result |
| `Generation.Tools.WithOneRecovery` | apps/chatgpt-domain-os-widget/foundry-lite-mcp-osdk.js:192-200 | the same call is made again exactly if the first response was lost, and at most once; the last answer is returned |
| `Generation.Tools.ConfirmChallenge` | apps/chatgpt-domain-os-widget/foundry-lite-mcp-osdk.js:208-237 | the exact calls: none without a usable challenge and a token; else an approval and, exactly if it returns a receipt, the generation with that receipt; success is exactly an answered generation |
| `Generation.Tools.GenerateTestApplication` | apps/chatgpt-domain-os-widget/foundry-lite-mcp-osdk.js:239-252 | the exact calls: one generation without receipt, whose answer is the result unless it asks for approval, and then the confirmation of that challenge; all carry the same mode, workspace, plan and key |
| `Generation.Tools.ResumePendingGeneration` | apps/chatgpt-domain-os-widget/foundry-lite-mcp-osdk.js:254-277 | the exact calls: none for an incomplete or confirmed request or an unusable challenge; with a saved token the confirmation; without one a replay that ends with the application if it is there, with an error unless the same challenge comes back, and else goes on with the confirmation |
| `Generation.ConfirmationIsSound` | apps/chatgpt-domain-os-widget/foundry-lite-mcp-osdk.js:208-237 | such calls are at most four, carry one request, and send a receipt only after an approval of this challenge returned it |
| `Generation.AtMostOneApplication` | apps/chatgpt-domain-os-widget/foundry-lite-mcp-osdk.js:192-277 | a server that applies each key at most once makes, out of calls that all carry one request, at most one application, and the one asked for |
| `Generation.GenerateThenResume` | apps/chatgpt-domain-os-widget/foundry-lite-mcp-osdk.js:239-277 | a first attempt and any number of resumed ones, whichever responses are lost, create at most one application |
| `BackupRecovery.AllBack` | scripts/operations/backup_macmini_qa.py:337-354 | if every worker with a receipt is back, the replica map is the one before the backup |
| `BackupRecovery.Operator.PauseWorkers` | scripts/operations/backup_macmini_qa.py:154-179 | wherever it stops, each worker with a receipt is at zero, the receipts tell the counts before and nothing else changed; it succeeds if and only if all its commands do, no listed deployment is malformed and there is a worker, and then every listed worker has a receipt |
| `BackupRecovery.Operator.StartRestoreMode` | scripts/operations/backup_macmini_qa.py:697-729 | the operator learns that the mode is active if and only if the call is answered, or it raised a retryable failure, took effect, and a status request got through before another failed unexpectedly; the platform is in restore mode exactly if the call took effect |
| `BackupRecovery.Operator.ApproveResume` | scripts/operations/backup_macmini_qa.py:295-334 | for every sequence of answers: approval is read if and only if validation passes and the request to resume, or the status read after it raised, says so; otherwise the error that is recorded is given |
| `BackupRecovery.Operator.RestoreWorkerReplicas` | scripts/operations/backup_macmini_qa.py:369-379 | for every sequence of answers: a worker counts as restored if and only if one of three attempts succeeds, after attempts with a bad status only, and for a positive count the rollout status does too; only this worker is touched, and only after approval was read |
| `BackupRecovery.Operator.RemovePartialBackup` | scripts/operations/backup_macmini_qa.py:382-394 | the files count as removed if and only if they are gone afterwards, and a failed removal is recorded |
| `BackupRecovery.Operator.RestorePausedWorkers` | scripts/operations/backup_macmini_qa.py:337-354 | every worker with a receipt ends up back or has caused an error; one whose receipt is refused is not touched; success means the replica map is the one before the backup; if all commands succeed, the paused workers that are back are those with an accepted receipt or no replicas before |
| `BackupRecovery.Operator.RecoverFailedBackup` | scripts/operations/backup_macmini_qa.py:268-292 | partial files are deleted only when the replica map is the one before the backup, and cleanup passes only then and without errors; a worker whose receipt is refused is not touched; if all commands succeed, cleanup passes if and only if every receipt is accepted, and the paused workers that are back are those with an accepted receipt or no replicas before |
| `BackupRecovery.Operator.SafeRecoverFailedBackup` | scripts/operations/backup_macmini_qa.py:243-265 | the same when an unexpected exception interrupts the recovery |
| `BackupRecovery.Operator.Backup` | scripts/operations/backup_macmini_qa.py:65-96 | over the whole backup no worker is scaled up before approval was read, files are deleted only with all workers back, a passed cleanup means the replica map is unchanged, with the platform out of restore mode exactly if the start took no effect or was known, a worker whose receipt is refused is left at zero; the backup finishes if and only if the restore mode is known to be active, all commands succeed, no deployment is malformed and there is a worker; after a single failed command, cleanup passes if and only if all receipts are accepted, and the workers that are back are those with an accepted receipt or no replicas before |
| `BackupRecovery.OneWorkerComesBackExactly` | scripts/operations/backup_macmini_qa.py:357-366 | a worker with any name and count that is paused before a failed capture comes back, when all commands of the recovery succeed, if and only if its name has the prefix and its count is at most 10 and not negative |
| `BackupRecovery.ElevenReplicasStayDown` | scripts/operations/backup_macmini_qa.py:363-365 | a worker with 11 replicas that is paused, then not put back although every command of the recovery succeeds |
| `BackupRecovery.LostStartStaysInRestoreMode` | scripts/operations/backup_macmini_qa.py:278-283 | a backup whose cleanup passes while the platform stays in restore mode |

## Left out

- JSON, ISO-8601 and SHA-256 text and `str.splitlines`: the model starts from typed records, integer instants and lists of lines, and keeps payment and refund references as opaque values.
- Normalising text (`strip`, `upper`, comma-separated weekdays, clock formats): a request says directly whether it has a phone number, which seat it prefers and which clock it means; properties of the wrong type are not modelled.
- Floating-point lead minutes and the range limits of Python datetimes: lead time is compared exactly in microseconds.
- Unicode white space and digits and the length limit in Python's `int`: `EventDelivery.ParseInt` knows ASCII only, and `EditFunctions.Blank` four white-space characters.
- Guest name, phone, e-mail, special request, policy message, provenance and similar text that no decision depends on.
- The Action runtime, MCP server and repositories under `libs/`: represented only by the commit rule and by the rule that a key is applied at most once; a created object starts at version 1.
- The legacy `CreateReservation` action, and adding restaurants or tables during a run.
- Which HTTP or UTF-8 failure or size limit made a request or poll of the stdio proxy fail, and closing the session at the end.
- Bridge: `notify`, the bridge mode, the alias path, promise timing and exceptions from `postMessage`; a page has at most two hosts, so a request is posted to at most two destinations. A request that is being posted when teardown arrives is still posted to its second host, as in the code.
- Backup: the capture steps after pausing are one step that succeeds or fails; a kubectl patch that fails or times out, or an approval that is not read, is taken to have had no effect, and a start that is answered with another status to have started nothing; the retries inside one API call are part of that call; an exception in the last file removal after an interrupted recovery is taken as a failed cleanup.
- Migrations, deployment and other operations scripts, the second widget, generators, media demos and user interface.
