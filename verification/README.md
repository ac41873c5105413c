# Seat booking across two databases: a verified model

The repository sells event tickets. PostgreSQL holds orders, tickets, payments and an outbox; MongoDB holds one seat
counter per event zone. No transaction spans the two. This project models the code that keeps them in step, together
with three independent pieces of the same repository, and proves what they promise.

**The seat protocol** (`Store`, `Inventory`, `Reservations`, `Booking`, `AskedFor`, `Protocol`, `Safety`, `Transactions`,
`Guarantees`, `WriteOffs`, `Progress`, `EventLog`, `Services`, `BookingAnswers`, `HoldTimes`, `Sweeper`, `Refinement`,
`Admission`, `Idempotency`, `KeyTraffic`, `Deadlock`, `Audit`, `Outbox`). Any number of bookings, payments, sweepers and
outbox workers interleave one database statement at a time. Every MongoDB update may fail, or take effect and be reported
as failed; every PostgreSQL transaction may be refused; every process may crash anywhere. `Protocol.Step` is that machine,
`Safety.Inv` its invariant, `Guarantees` and `EventLog` what follows for every run; `WriteOffs` says exactly which crashes
and faults leave drift behind, and `Progress` that every run comes to an end. The same operations are also written as the
loops of the source (`Reservations.Events`, `Services.Service`, `Sweeper.Worker`), and `Refinement` shows that each of
these, under any pattern of faults, is a run of the machine with the same result. `AskedFor`, `BookingAnswers` and
`HoldTimes` say from the request, the rows and the clock alone what every booking, payment and sweep answers and writes.
`Audit` restates `scripts/verify_consistency.py` on its own; the protocol is then judged by it, and any databases that
pass it are a start of the protocol (`Guarantees.GreenStart`).

**Redundant indexes** (`IndexReport`, `IndexLookups`): which indexes are the leading part of another one, and why dropping
all of them at once loses nothing.

**The name migration** (`Names`, `Migration`, `Accounts`, `Backfill`): splitting and joining names, writes in three modes,
a resumable backfill, and the phases from `full_name` to `first_name`/`last_name` and back.

**Seat labels** (`SeatLabels`): two loops that write row letters, and the pages of the seat map.

`Sums`, `Text` and `Wrappers` are shared helpers.

`dafny verify dfyconfig.toml` verifies the whole project.

## Assumptions

- A PostgreSQL failure that is reported means that nothing was written (`app/core/db_errors.py` says so); a commit
  that succeeds but is reported as failed is outside the model.
- The protocol starts from databases that pass the audit and the constraints of the schema. Seats that earlier crashes
  left counted may be on the books already. Nothing is assumed of the outbox, and the worker may purge processed rows at
  any time.
- Zone names are distinct within an event, prices are whole hundredths (money is counted in hundredths), events are
  not deleted, and capacities and prices do not change while the protocol runs. `Audit` does not need distinct names:
  `Audit.RepairWritesWhen` and `Audit.RepairLeaves` say what the repair does without them.
- An order's id is its position in the order table. One PostgreSQL transaction is one step, from its row locks to COMMIT,
  and taking the row locks is a step of its own.
- Lower-casing is ASCII; whitespace is what `str.strip` and `str.split` take for it; strings are compared by code point.
- Every step of the migration sees one value of each flag: a flag change is atomic, and takes the documented order,
  except that reads may go back to `full_name` while both shapes are written. Before the migration every user has a
  `full_name` that is not blank. User ids are positive.
- The backfill runs while dual writes are on, as the migration guide asks: requests commit rows with both parts.

## Where code and documentation differ

- `docs/cp2_migration_scenario.md:21` offers "set write mode back to `legacy`" as the rollback of dual writes. In
  legacy mode `update_user` leaves the stored first and last name alone, and they are then shown next to the new full name:
  `Migration.LegacyWritesAgainAgreeWhen` gives the exact condition, `Migration.StaleNames` a user.
- `resolve_names` with a last name but no first name stores the last name as both (`Names.LastNameOnly`). The schema of
  `PUT /users/{id}` lets a last name through on its own; the stored first name then fills the gap, and
  `Migration.UpdateFits` shows that in the modelled runs there always is one.

## Model

| member | source | states |
|---|---|---|
| Inventory.ReturnAllAppend | app/services/order_service.py:388-401 | releasing two lists of groups one after the other is releasing their concatenation |
| Inventory.ReturnAllBySeats | app/services/order_service.py:388-401 | the result of a release loop depends only on the seats per zone, not on order or grouping |
| Reservations.UndoBooks | app/services/order_service.py:48-62 | under every pattern of faults a compensation takes exactly its seats off each counter, except for those it records as lost |
| Reservations.UndoCalm | app/services/order_service.py:55-60 | on a reliable network a compensation of seats that the counters cover loses nothing |
| Reservations.ReserveBooks | app/services/order_service.py:218-243 | under every pattern of faults the reservation loop adds the seats of the whole order, or of none of it, plus the recorded losses |
| Reservations.ReserveDecides | app/services/order_service.py:219-237 | whatever fails, an answer about room is right: reserved only if every zone had room, sold out only if one had none |
| Reservations.ReserveCalm | app/services/order_service.py:218-243 | on a reliable network, from valid documents and current capacities, the loop always gets an answer and loses nothing |
| Reservations.ReleaseBooks | app/services/order_service.py:382-403 | whatever fails, the release loop with its fallback is truncated subtraction of the seats that went back, at most those owed; without faults of all of them |
| Reservations.ReleaseBounds | app/services/order_service.py:382-403 | under every fault each counter ends between a full release and where it was |
| Reservations.Events.UpdateOne | app/services/order_service.py:221-232 | the new counters and the reply of one conditional update, also when it fails or takes effect unreported |
| Reservations.Events.ReserveOrUndo | app/services/order_service.py:218-243 | all zones of an order are reserved or, apart from the recorded losses of faults, none; reserved only if every group had room, sold out only if some had none; on a reliable network there is no loss, and with current capacities always an answer |
| Reservations.Events.ReleaseReservations | app/services/order_service.py:48-62 | every counter goes down by its reserved seats except for the recorded losses; none on a reliable network |
| Reservations.Events.ReleaseGroup | app/services/order_service.py:388-403 | guarded release with the one-seat-at-a-time fallback is truncated subtraction of the seats it gave back, at most the group |
| Reservations.Events.ReleaseCountedSeats | app/services/order_service.py:382-403 | the release loop is truncated subtraction per zone of the seats that went back; under every fault each counter ends between a full release and where it was; on a reliable network it is the full release |
| Store.FindKey | app/models/sql_models.py:94 | finds an order carrying the key if and only if there is one |
| Store.ExpiryFreesHeld | app/services/order_service.py:426-441 | expiring orders turns exactly their held tickets, zone by zone, from active to cancelled |
| Store.ConfirmKeepsSeats | app/services/payment_service.py:143-149 | confirming an order changes no active and no cancelled seat count |
| Store.InsertTakesSeats | app/services/order_service.py:263-273 | a new order adds one active seat per line in the zone of that line |
| Store.HeldKeysCount | app/services/order_service.py:428-433 | the keys collected for release are counted per zone exactly as the held tickets of the claimed orders |
| Store.GroupingCounts | app/services/order_service.py:210-216 | the quantity a group carries for a zone is the number of tickets the order puts there |
| Store.GroupingShape | app/services/order_service.py:210-216 | one group per zone, none empty, and exactly the zones asked for |
| Booking.MatchZone | app/services/order_service.py:170-181 | the matched zone has the wanted name up to case and blanks; no match means no zone has it |
| Booking.ValidatedLinesOffered | app/services/order_service.py:154-199 | every validated line is a zone of the catalog at the catalog price, one line per item |
| Booking.ValidateAllPrefixError | app/services/order_service.py:154-181 | the first bad item decides the error of the whole order |
| Booking.LockBeforeTransitive | app/services/order_service.py:38-40 | the seat order is transitive |
| Booking.LockBeforeTotal | app/services/order_service.py:38-40 | two lines neither of which comes first have the same event, zone and seat; the order is irreflexive |
| Booking.SortedInLockOrder | app/services/order_service.py:201-204 | the sorted order is in lock order and a permutation of what was validated |
| Booking.SortKeepsTotal | app/services/order_service.py:186-204 | the total accumulated before sorting is the total of the sorted order |
| Booking.SortedByEventZoneSeat | app/services/order_service.py:38-40 | a sorted order is sorted by event, then zone, then seat, in code-point order |
| Booking.ValidateItems | app/services/order_service.py:132-199 | the validation loop returns one line an item, each with the seat of its item stripped or none if that is blank, their price total and the capacities read, or the error of the first bad item; the zones, prices and errors, item by item, are `AskedFor.ItemsMean` |
| Booking.CapacitiesListed | app/services/order_service.py:183-199 | each capacity that validation reads is that of a zone of the event, and every validated line has one |
| Booking.GroupRequests | app/services/order_service.py:210-216 | the `zone_requests` loop yields one positive group per zone, counting the lines of that zone |
| AskedFor.ItemMeans | app/services/order_service.py:154-199 | an item is invalid exactly if its event id is not 24 hexadecimal digits, not found if that id in lower case is not in the catalog, without zone if no zone has its name up to case and blanks; otherwise its line is the first such zone, at its price, with the seat stripped, or none if the seat is missing or blank |
| AskedFor.ItemsMean | app/services/order_service.py:154-199 | validation answers the first mistake of the items, or one such line for every item |
| AskedFor.WantedCount | app/services/order_service.py:210-216 | the lines in a zone are as many as the items that are for it |
| Text.StripParts | app/services/order_service.py:34-35 | stripping takes the blanks off both ends of a text and nothing else |
| Text.SpaceIs | app/services/user_service.py:19 | whitespace is these 29 code points |
| Text.LowerForgetsCase | app/services/order_service.py:34-35 | two texts are equal in lower case exactly if they differ only in the case of letters |
| Text.BeforeMeans | app/services/order_service.py:38-40 | a text is before another exactly if it is a proper beginning of it, or smaller where they first differ |
| Services.Service.HoldSeats | app/services/order_service.py:132-243 | validate, price, sort, group and reserve: the error of the first bad item and no call, or the reservation of all groups under the faults of the network; the total is that of the lines |
| Services.Service.WriteOrder | app/services/order_service.py:245-357 | the transaction commits order, tickets and outbox row, or PostgreSQL is unchanged and the reserved seats are given back |
| Services.Service.CreateOrder | app/services/order_service.py:81-379 | under every fault counters and tickets change by the same seats in every zone, up to the recorded losses; no order means no PostgreSQL change, an order means no loss; an existing order is returned only with its key and to its user; without faults an order is placed exactly when its key is unused, its items are on sale, every zone has room and its rows violate nothing |
| Services.Service.ProcessOrderPayment | app/services/payment_service.py:23-187 | of a pending order the hold is gone if and only if its deadline is before now; paid means the pending order is confirmed and nothing else; a confirmation or refusal leaves every counter alone; an expiry gives back at most the held seats of the order under every fault, and exactly these on a reliable network |
| Services.PlacedBooks | app/services/order_service.py:210-273 | the tickets of a placed order are, zone by zone, the seats it reserved |
| Services.BookingBooks | app/services/order_service.py:81-379 | every booking under every pattern of faults is all or nothing: both databases change by the same seats in every zone, up to the recorded losses, and without an order PostgreSQL does not change |
| Services.BookingCalm | app/services/order_service.py:81-379 | without faults a booking is placed if and only if it can be, and loses nothing |
| BookingAnswers.FingerprintMeans | app/services/order_service.py:113-127 | the fingerprint of an order matches a request exactly if the user is the same and, for every event and every zone name up to case and blanks, there are as many tickets as items |
| BookingAnswers.KeyInUse | app/services/order_service.py:104-128 | a request whose key an order carries: the order is returned if and only if the fingerprint matches so, else the key is refused as reused; nothing is written and no counter asked |
| BookingAnswers.KeyInUseStep | app/services/order_service.py:104-128 | so does the first step of a booking process |
| BookingAnswers.SeatGoneMeans | app/models/sql_models.py:167-174 | the unique index refuses the new tickets exactly if a held or valid ticket has a seat that the request asks for, in the same event and zone, or the request asks for a seat twice |
| BookingAnswers.RoomMeans | app/services/order_service.py:219-232 | every group of the order fits exactly if in every zone the items that are for it fit into capacity minus booked |
| BookingAnswers.NewRequestAnswered | app/services/order_service.py:132-342 | without faults a request with a new key is answered by, in this order: its first mistake, sold out if a zone lacks room, unknown user, seat clash if a seat is gone; else the order is placed |
| BookingAnswers.UnreachableAnswered | app/services/order_service.py:238-243 | if a MongoDB call raised or PostgreSQL did not accept the transaction, the answer is unavailable and PostgreSQL unchanged |
| BookingAnswers.PlacedOnlyIf | app/services/order_service.py:245-342 | whatever fails, an order is placed only for a request without mistake, of a known user, with a new key, and none of whose seats is gone |
| BookingAnswers.PlacedRows | app/services/order_service.py:245-300 | whatever fails, a placed order has exactly one held ticket an item, for the zone and the stripped seat the item names, at the catalog price; it is the user's, pending for 600 seconds, totals the prices, carries the key, and one outbox row is added; nothing else in the tables changes |
| HoldTimes.PaymentAnswered | app/services/payment_service.py:59-187 | every payment of an existing order is answered by the status and deadline of its row, the clock, the amount and whether it has a completed payment: paid or confirmed, expired, cancelled, past its deadline, wrong amount, paid already, else done |
| HoldTimes.PaymentRefused | app/services/payment_service.py:46-57 | without the order or without PostgreSQL nothing happens |
| HoldTimes.PaymentWrites | app/services/payment_service.py:79-164 | a confirmation clears the deadline, turns the held tickets valid and adds one payment of the total; an expiry turns them cancelled; each adds its outbox row; any other answer writes nothing |
| HoldTimes.PaidInTime | app/services/payment_service.py:78-105 | an order placed at some time and still pending is confirmed by its total up to 600 seconds later, and expired by any payment after that |
| HoldTimes.SweptInTime | app/services/order_service.py:413-419 | the sweeper claims no such order within the 600 seconds, and finds every unlocked one after them |
| HoldTimes.HoldLastsTenMinutes | app/services/order_service.py:246-247 | both hold over every run, from the transaction that placed the order to any later state in which it is pending |
| Sweeper.QueueIsQueue | app/services/order_service.py:413-419 | the claim lists every claimable order once, in the order of `Sooner`; both are said of the columns by `HoldTimes.QueueByDeadline` |
| HoldTimes.QueueByDeadline | app/services/order_service.py:413-419 | the claim lists exactly the pending unlocked orders whose expires_at is before now, by expires_at and then id |
| Sweeper.QueueUnique | app/services/order_service.py:416 | there is only one such list |
| Sweeper.QueueAdvances | app/services/order_service.py:413-419 | after expiring the first n the next claim starts exactly behind them |
| Sweeper.ZonesInTwo | app/services/order_service.py:426-458 | releasing the seats of a and then of b leaves every counter as one release would, drifted counters included |
| Sweeper.SweptOn | app/services/order_service.py:406-459 | two sweeps one after the other leave both databases as one sweep of all their holds, under every fault |
| Sweeper.SweepIsOne | app/services/order_service.py:462-486 | whatever fails, and whatever time and locks each batch finds, the batch loop leaves PostgreSQL as one transaction over all its holds would, and each counter between a full release and where it was, or fully released |
| Sweeper.SweptWereDue | app/services/order_service.py:406-459 | every hold swept was overdue and unlocked at the time of some batch, and is swept once |
| Sweeper.NothingLeft | app/services/order_service.py:481-485 | if fewer holds than batch * batches were swept, the last batch left nothing it could have claimed |
| Sweeper.SteadySweep | app/services/order_service.py:481-485 | under one clock value and one set of locks the small batches claim exactly what one big batch would |
| Sweeper.Worker.SweepOneBatch | app/services/order_service.py:406-459 | one batch expires exactly the first min(n, batch size) overdue holds and releases their seats, call by call as the network lets it |
| Sweeper.Worker.CleanupExpiredSeatHolds | app/services/order_service.py:462-486 | the batch loop, each batch at its own time and with its own locked rows, expires the holds of its batches, returns their number, and leaves both databases as one transaction over all of them would, each counter within a full release under every fault; with a steady clock it is one big batch |
| Sweeper.ClaimIsProtocolStep | app/services/order_service.py:413-419 | the claim of a batch is one of the claims the interleaved protocol allows |
| Refinement.BookingRuns | app/services/order_service.py:81-379 | the booking service under any pattern of faults is a run of the protocol steps of one booking: same databases, same losses, same answer |
| Refinement.PaymentRuns | app/services/payment_service.py:23-187 | the payment service under any pattern of faults is a run of the protocol steps of one payment |
| Refinement.SweepRuns | app/services/order_service.py:406-459 | a sweep batch under any pattern of faults is a run of the protocol steps of one sweep |
| Refinement.CleanupRuns | app/services/order_service.py:462-486 | the whole batch loop under any pattern of faults is a run of the protocol |
| Refinement.ReserveRuns | app/services/order_service.py:219-243 | the reservation loop with its compensation is the run of reservation and undo steps with the same faults |
| Refinement.ReleaseRuns | app/services/order_service.py:382-403 | the release loop with its one-seat fallback is the run of release steps with the same faults |
| Refinement.UndoRuns | app/services/order_service.py:48-62 | the compensation loop is the run of undo steps with the same faults |
| Safety.SpawnKeeps | app/services/order_service.py:81-86 | a new request or tick keeps the invariant: books balanced, tables consistent, row locks exclusive |
| Safety.LookupKeeps | app/services/order_service.py:104-216 | idempotency lookup and validation keeps the invariant: books balanced, tables consistent, row locks exclusive |
| Safety.ReserveKeeps | app/services/order_service.py:219-243 | one reservation under any fault keeps the invariant: books balanced, tables consistent, row locks exclusive |
| Safety.UndoKeeps | app/services/order_service.py:55-62 | one compensation under any fault keeps the invariant: books balanced, tables consistent, row locks exclusive |
| Safety.ClaimKeeps | app/services/order_service.py:413-423 | claiming overdue rows keeps the invariant: books balanced, tables consistent, row locks exclusive |
| Safety.SettleKeeps | app/services/order_service.py:303-342 | answering after a compensation or release keeps the invariant: books balanced, tables consistent, row locks exclusive |
| Safety.AbortKeeps | app/services/order_service.py:344-357 | a PostgreSQL transaction that writes nothing keeps the invariant: books balanced, tables consistent, row locks exclusive |
| Safety.ReleaseKeeps | app/services/order_service.py:388-403 | one guarded release under any fault keeps the invariant: books balanced, tables consistent, row locks exclusive |
| Safety.LockKeeps | app/services/payment_service.py:46-57 | taking the row lock of a payment keeps the invariant |
| Safety.CrashKeeps | app/services/order_service.py:388-403 | a crash at any point keeps the invariant, with the seats of the process written off |
| Safety.CounterCovers | app/services/order_service.py:210-243 | every counter covers the active tickets and the seats any one process still holds or owes |
| Safety.ReleaseGuardHolds | app/services/order_service.py:391-396 | the guard of a release always finds its seats |
| Safety.ReleaseShape | app/services/order_service.py:388-401 | a release step gives the whole group back or writes it off; it never falls back to single seats |
| Transactions.InsertKeeps | app/services/order_service.py:245-300 | the booking transaction keeps every table constraint, the totals and the payment ledger |
| Transactions.ConfirmKeeps | app/services/payment_service.py:129-164 | the confirming transaction keeps them |
| Transactions.ExpireKeeps | app/services/order_service.py:435-453 | the expiring transaction keeps them |
| Transactions.FirstPaymentFits | app/models/sql_models.py:226 | the partial unique index admits a completed payment if and only if the order has none |
| Transactions.WriteKeeps | app/services/order_service.py:245-342 | the booking transaction, committed or refused by a constraint, keeps the invariant |
| Transactions.PayKeeps | app/services/payment_service.py:59-187 | the payment transaction, whichever branch it takes, keeps the invariant |
| Transactions.SweepKeeps | app/services/order_service.py:425-458 | the sweep transaction keeps the invariant |
| Transactions.OutboxKeeps | app/services/outbox_worker.py:15-40 | whatever the worker does to the outbox, marking or purging, keeps the invariant |
| Transactions.StepKeeps | app/services/order_service.py:81-459 | every step of every process under every fault keeps the invariant |
| Transactions.RunKeeps | app/services/order_service.py:81-459 | so does every interleaving of any number of processes |
| Guarantees.SeatConservation | app/services/order_service.py:210-243 | over every run: booked_count = active tickets + seats in flight + releases owed + seats lost by crashes or faults, hence 0 <= active <= booked <= capacity; every cancelled seat is returned once, owed or written off |
| Guarantees.TablesGreen | scripts/verify_consistency.py:46-92 | the tables of every state of the invariant pass all seven PostgreSQL checks |
| Guarantees.GreenStart | scripts/verify_consistency.py:46-155 | conversely, any databases that pass the whole audit are a start from which every guarantee below and above holds, whatever the outbox contains |
| Guarantees.AuditorStaysGreen | scripts/verify_consistency.py:46-155 | in every reachable state the seven PostgreSQL checks and five of the six inventory checks report nothing |
| Guarantees.UndoAlwaysCovered | app/services/order_service.py:55-60 | a compensation always finds its seats |
| Guarantees.ReleaseAlwaysCovered | app/services/order_service.py:391-396 | a release guard always succeeds |
| Guarantees.PaymentNeverDoubled | app/services/payment_service.py:174-186 | the double-charge index never refuses the payment of an order that has no completed payment |
| Guarantees.SafetyNetsNeverNeeded | app/services/order_service.py:388-401 | in every reachable state none of the four nets is needed, but for the index on orders that came into the run paid, and no process is in the one-seat-at-a-time fallback |
| Guarantees.OutcomeIsFinal | app/services/payment_service.py:46-149 | between any two points of a run an order leaves pending at most once, to confirmed or expired, for good; its held tickets become valid or cancelled accordingly and stay so |
| Guarantees.RunEvolves | app/services/payment_service.py:46-149 | no run changes user, total or key of an order, a decided status, or a ticket that is not held; payments are only added |
| Guarantees.MoneyLedger | app/services/payment_service.py:118-186 | never two completed payments for an order; a confirmed order has one, any other as many as at the start; so, if pending and expired orders had none, of the pending, confirmed and expired exactly the confirmed have one; a completed payment is the order total, the sum of its ticket prices; in an order placed in the run each ticket has the catalog price of its zone |
| Guarantees.RunPrices | app/services/order_service.py:186-273 | tickets at catalog prices stay so over every run, and every run adds only such tickets |
| Guarantees.RunPayments | app/services/payment_service.py:118-186 | over every run only a confirmation adds a completed payment to an order |
| WriteOffs.StepWritesOff | app/services/order_service.py:48-62 | exactly which steps leave a seat counted for nobody: a crash between reservation and commit or between expiry and release, a reservation that took effect unreported, a compensation or release that did not reach MongoDB; in no other step, refusals by the validator included, does the ledger of such seats change |
| WriteOffs.RunWritesOff | app/services/order_service.py:48-62 | over a run that ledger stays as it was if and only if no step was one of these; otherwise it grows in some zone |
| WriteOffs.HarmlessIsClean | app/services/order_service.py:48-62 | a run without crash, unreported reservation, or failed compensation or release has no such step |
| WriteOffs.QuiescentExact | app/services/order_service.py:455-458 | when all have finished, every counter is as far from its tickets as at the start if and only if the run had no such step; and then the seat of every ticket cancelled in the run went back exactly once |
| WriteOffs.QuiescentAudit | scripts/verify_consistency.py:118-155 | when all have finished, the whole inventory audit passes if and only if it passed at the start and the run had no such step |
| WriteOffs.AuditPassesAgain | scripts/verify_consistency.py:46-155 | from any databases that pass the audit, after any finished traffic without crash, unreported reservation, or failed compensation or release, all thirteen checks pass and every cancelled seat was returned once |
| Progress.StepWork | app/services/order_service.py:81-486 | every step of a process, under every fault and in any state, leaves less work to do; compensation, release and its one-seat fallback included |
| Progress.RunsEnd | app/services/order_service.py:81-486 | no run goes on forever: its processes take at most as many steps as were left at the start and as new requests brought with them |
| Progress.SomebodyGoes | app/services/payment_service.py:46-57 | in every state of the invariant an unfinished process can take its next step, or waits for the row lock of one that can |
| Progress.EveryRunCompletes | app/services/order_service.py:81-486 | from every reachable state all processes can be brought to an end within the bound, without another seat written off; the drift is then exactly what had been written off before |
| EventLog.OutboxReplays | app/services/order_service.py:283-300 | over every run, with deliveries and purges in between: the rows written replay the statuses at the start to those at the end, and tell of each order SEAT_HELD if placed, then ORDER_PAID or SEAT_HOLD_EXPIRED if so decided; until a purge this is what the table holds |
| EventLog.ReplayTellsStory | app/services/order_service.py:283-300 | a legal log tells of each order exactly the events from its first to its last status |
| EventLog.RunReplays | app/services/order_service.py:283-300 | what the transactions of a run write replays to the order table, from any start and under any purging |
| EventLog.ReplayExpiry | app/services/order_service.py:435-453 | the rows of an expiry are legal and replay to exactly those orders expired |
| EventLog.PurgeKeepsRest | app/services/outbox_worker.py:29-40 | a purge loses no outbox row that has not been processed, and keeps their order |
| Admission.ExactAdmission | app/services/order_service.py:206-238 | k concurrent orders of q seats in one zone, with new idempotency keys or none: every interleaving, from request to answer, places exactly min(k, (capacity - booked) div q) and refuses the others as sold out |
| Admission.AskedOneZone | app/services/order_service.py:204-216 | an order for one zone becomes exactly one group of its quantity |
| Admission.RunRaces | app/services/order_service.py:219-238 | throughout the race booked = start + q * admitted, and someone is refused only when q seats no longer fit |
| Idempotency.OneOrderPerKey | app/models/sql_models.py:94 | at most one order ever carries a key |
| Idempotency.OneKeyOneOrder | app/services/order_service.py:104-128 | any number of racing or repeated requests with one key, all finished, change orders and tickets by at most one order, and by nothing if one existed; the counters change by its seats if and only if no step wrote seats off |
| Idempotency.KeyedRun | app/services/order_service.py:303-320 | at every moment of such traffic the tables differ from the start by at most that one order |
| KeyTraffic.OneAnswerPerKey | app/services/order_service.py:104-128 | over every run, whatever else is bought, paid and swept, all requests with one key that are answered with an order are answered with the same one, it carries the key, and at most one of them placed it |
| KeyTraffic.EveryOrderAsked | app/services/order_service.py:245-300 | every order of a run was placed by exactly one process, for a request with the key of the order |
| KeyTraffic.RunTraced | app/services/order_service.py:303-342 | throughout a run, compensation and recheck included, each process only ever names an order with the key of its own request |
| Idempotency.ValidatedSignatures | app/services/order_service.py:119-122 | however ids and zones are spelled, the validated lines carry the fingerprint of the request |
| Idempotency.SignaturesStay | app/services/order_service.py:119 | the fingerprint of an order does not change while tickets change status and other orders are added |
| Idempotency.RepeatIsReplayed | app/services/order_service.py:104-128 | the same keyed request again, whatever has happened in between and whatever fails, returns the order it placed, writes nothing and asks no counter |
| Idempotency.SamePayloadSameCount | app/services/order_service.py:114 | an accepted replay has as many items as the order has tickets, so the separate length test adds nothing |
| Deadlock.EntryBeforeOrder | app/services/order_service.py:38-40 | the entries of the unique indexes are totally ordered: keys first, then seats in lock order |
| Deadlock.BookingsInOrder | app/services/order_service.py:204-280 | every booking takes its key entry and then its seat entries in that order, whatever the client sent |
| Deadlock.NoWaitCycle | app/models/sql_models.py:167-174 | ordered transactions never wait for each other in a circle |
| Deadlock.FollowWaits | app/models/sql_models.py:167-174 | from any waiting transaction the wait-for edges lead to one that can step |
| Deadlock.NoDeadlock | app/services/order_service.py:201-204 | under any schedule all are over or one can step, and the total number of steps is bounded, so all finish |
| Deadlock.UnsortedDeadlocks | app/services/order_service.py:201-203 | two transactions taking two seats in opposite order can block each other for good |
| Audit.InventoryChecksExact | scripts/verify_consistency.py:118-155 | on any state, even a corrupted one: the six lists are all empty if and only if every zone has booked = active <= capacity and every active ticket a known zone |
| Audit.InventoryListsMean | scripts/verify_consistency.py:118-155 | each of the six lists, zone by zone, from booked count, capacity and the number of held or valid tickets |
| Audit.DuplicatesMean | scripts/verify_consistency.py:47-53 | a seat is listed exactly if two held or valid tickets have it |
| Audit.DoubleChargesMean | scripts/verify_consistency.py:54-59 | an order is listed exactly if it has two completed payments |
| Audit.OrderListsMean | scripts/verify_consistency.py:60-91 | the five other lists, order by order, from its row, its tickets and its payments |
| Audit.ActiveSeatsCount | scripts/verify_consistency.py:94-95 | a zone appears in the grouped ticket count exactly when it has an active ticket |
| Audit.SetBookedTable | scripts/verify_consistency.py:175-180 | one repair write sets the table entry of a zone whose name occurs once, and leaves the table alone if it occurs more often |
| Audit.RepairWritesWhen | scripts/verify_consistency.py:124-180 | a repair write does what it means if and only if the zone name occurs once or its count was right already |
| Audit.RepairNeedsDistinctNames | scripts/verify_consistency.py:124-129 | a concrete event with two zones of one name, whose repair never takes |
| Audit.RepairSettles | scripts/verify_consistency.py:173-182 | writing the ticket count into some of the drifted zones leaves exactly the others drifting, and touches no other list |
| Audit.RepairLeaves | scripts/verify_consistency.py:173-216 | what a repair leaves in the drift and negative lists: exactly the zones whose name occurs more than once |
| Audit.Inspector.InventoryChecks | scripts/verify_consistency.py:118-155 | the loops compute the six lists and the ticket count of every drifted zone |
| Audit.Inspector.Repair | scripts/verify_consistency.py:173-182 | every drifted zone whose name occurs once gets its ticket count, and no other entry changes |
| Audit.Inspector.AuditAndRepair | scripts/verify_consistency.py:207-216 | after one repair with traffic stopped the drift lists hold exactly the zones of repeated names, none if names are distinct, and untouched zones are as before |
| Audit.RunAudit | scripts/verify_consistency.py:158-170 | returns the first reading with both drift lists empty, or the last of retries + 1 |
| Outbox.MarkInTwo | app/services/outbox_worker.py:15-26 | marking a rows and then b rows marks the first a + b |
| Outbox.MarkEffect | app/services/outbox_worker.py:15-26 | a batch marks min(n, pending unlocked) rows and changes nothing but pending to processed |
| Outbox.MarksOldest | app/services/outbox_worker.py:15-26 | a batch marks exactly the oldest rows: all that are pending and not locked up to some place, none behind it, n of them or all |
| Outbox.PurgeInTwo | app/services/outbox_worker.py:29-40 | purging in two batches is purging in one |
| Outbox.PurgeEffect | app/services/outbox_worker.py:29-40 | a purge deletes as many rows as it reports, and every row that is not processed survives in order |
| Outbox.PurgesOldest | app/services/outbox_worker.py:29-40 | a purge deletes exactly the oldest rows that are processed, older than the horizon and not locked, n of them or all |
| Outbox.OutboxTable.ProcessPending | app/services/outbox_worker.py:43-60 | the batch loop marks and returns min(pending unlocked, batch * max batches) rows, oldest first |
| Outbox.OutboxTable.PurgeProcessed | app/services/outbox_worker.py:63-75 | the purge loop deletes and returns min(old processed unlocked, batch * max batches) rows, nothing for retention 0, and never an unprocessed row |
| Outbox.ReplicasShareTheWork | app/services/outbox_worker.py:13-26 | with any interleaving of replicas each row is marked processed at most once, the returned counts add up to the rows moved, and no row is purged without having been processed |
| Outbox.CommittedKeeps | app/services/outbox_worker.py:13-26 | committing a claim moves its rows exactly once |
| Outbox.TraceKeeps | app/services/outbox_worker.py:13-60 | every interleaving of appends, claims, commits, rollbacks and purges keeps the sets disjoint and the counts exact |
| IndexReport.SignatureTransitive | scripts/index_report.py:110-112 | an equal leading part of an equal leading part is an equal leading part |
| IndexReport.CoverageIsStrict | scripts/index_report.py:155-164 | coverage between distinct indexes is irreflexive and transitive, tie-breaking included |
| IndexReport.KeeperExists | scripts/index_report.py:166-171 | every redundant index has a covering index that is not redundant itself, so `keepers` is never empty and the fallback is dead |
| IndexReport.GroupByTable | scripts/index_report.py:146-148 | each table with an index is mapped to its indexes in catalog order |
| IndexReport.CandidatesOf | scripts/index_report.py:151-164 | the nested loops collect, for each redundant index of a table, exactly the indexes covering it |
| IndexReport.CandidateIsRedundant | scripts/index_report.py:164-166 | an index is among the candidates if and only if some index covers it |
| IndexReport.ReportOne | scripts/index_report.py:170-174 | the covering index named is the widest kept one, uniqueness and name breaking ties |
| IndexReport.FindRedundant | scripts/index_report.py:144-175 | one finding for each redundant index and for nothing else, in strict (table, index) order, naming its keeper; never an index that is unique, primary, backs a constraint, has an expression, is invalid or no btree |
| IndexReport.FindUnindexedForeignKeys | scripts/index_report.py:187-199 | exactly the foreign keys no usable index serves, in catalog order |
| IndexReport.Unserved | scripts/index_report.py:187-199 | a foreign key is listed if and only if no index starts with its columns |
| IndexReport.DropAllIsSafe | scripts/index_report.py:144-199 | dropping all findings at once: nothing left is redundant, everything dropped is covered by something left, each foreign key is served exactly if it was before, and every unique, primary or constraint index, and every one with an expression, invalid or no btree, is still there |
| IndexLookups.DropKeepsLookups | scripts/index_report.py:144-164 | a lookup or sort by columns with their order, operator classes, collations and a row condition is answered after dropping all findings exactly if it was before |
| IndexLookups.NothingMoreToDrop | scripts/index_report.py:151-164 | what is left cannot be less: no plain index left could be replaced by another one left |
| IndexLookups.DuplicateGoes | scripts/index_report.py:161-162 | of two plain indexes that answer exactly the same, the one with the later name is reported |
| IndexLookups.KeeperIsWidest | scripts/index_report.py:170-171 | the keeper named answers all the index does, and of the kept ones that could, has most columns, then is unique, then has the last name |
| IndexLookups.ReportInOrder | scripts/index_report.py:175 | the report is in order of tables and, within a table, of index names, each once |
| IndexLookups.UnservedWhen | scripts/index_report.py:187-199 | a foreign key is reported exactly if no valid index without expression and condition starts with its columns |
| IndexReport.DropKeepsUnserved | scripts/index_report.py:187-199 | the unindexed foreign keys reported before and after the drop are the same |
| Names.WordsOfStrip | app/services/user_service.py:31-34 | stripping keeps the words, and only text without words strips to nothing |
| Names.SameWords | scripts/traffic_gen.py:69-70 | two texts normalise to the same text if and only if they have the same words |
| Names.CleanKeepsWords | app/services/user_service.py:31-34 | cleaning keeps the words; blank and only blank becomes None; cleaning twice is cleaning once |
| Names.SplitKeepsWords | app/services/user_service.py:15-22 | the first part is the first word, and both parts read like the whole |
| Names.HeadIsFirstWord | app/services/user_service.py:15-22 | the first part of a name is its first word letter by letter |
| Names.JoinKeepsWords | app/services/user_service.py:25-28 | a joined name reads like first followed by last, and is empty only if both are blank |
| Names.SplitThenJoin | app/services/user_service.py:15-28 | split and join undo each other word by word |
| Names.ResolveWhole | app/services/user_service.py:37-70 | a write in the full-name shape stores that name in both representations |
| Names.ResolveParts | app/services/user_service.py:37-70 | a write in the split shape with a first name stores each part, and a full name that reads like them |
| Names.SplitLetters | app/services/user_service.py:15-22 | a name is its first word, a gap of blanks and the rest, letter by letter, once stripped |
| Names.PartsStored | app/services/user_service.py:37-70 | a write of parts stores each part stripped, letter by letter, and the two with one blank between them as the full name |
| Names.WholeStored | app/services/user_service.py:37-70 | a write of a full name stores it stripped, its first word, and its rest, letter by letter |
| Names.PartsAgreeWhen | app/services/user_service.py:49-58 | a split-shape write agrees if and only if the first name is not blank or both are |
| Names.LastNameOnly | app/services/user_service.py:53-55 | a last name without a first name is stored twice |
| Names.MixedShapesAgreeWhen | app/services/user_service.py:49-61 | exactly when a payload with both shapes is stored consistently |
| Migration.CreateFits | app/services/user_service.py:218-249 | a valid signup stores what was asked in every write mode, with no NULL part once parts are written |
| Migration.CurrentIsShown | app/services/user_service.py:127-143 | a partial update starts from exactly the parts the API shows, and the shown full name reads like the shown parts |
| Migration.UpdateFits | app/services/user_service.py:293-307 | a valid update stores a name that reads as asked in every write mode; the parts are those of `Migration.UpdateSays` |
| Migration.UpdateSays | app/services/user_service.py:293-307 | part by part: where parts are written, the first name has the words of the first name sent, or of the one shown if none was sent, and so has the last name; a full name has its first word as first name |
| Migration.CreateSays | app/services/user_service.py:218-249 | so has a signup |
| Migration.PartsKept | app/services/user_service.py:293-307 | an update in parts shows the two parts with one blank between as full name, and where parts are written stores and shows each part as sent, stripped, letter by letter; a part that was not sent stays as shown |
| Migration.SentPartsStored | app/services/user_service.py:293-307 | whatever the row was, a first name sent is stored stripped, letter by letter, and so is a last name sent with it |
| Migration.SignupPartsKept | app/services/user_service.py:218-249 | so does a signup in parts |
| Migration.WholeKept | app/services/user_service.py:293-307 | a full name is stored and shown stripped, letter by letter, its first word as first name and the rest as last name |
| Migration.SignupIsUpdate | app/services/user_service.py:218-249 | a signup stores a full name as an update of an empty row would |
| Migration.RefillLetters | alembic/versions/0005_contract_user_full_name.py:108-112 | the refilled full name of trimmed parts is the two with one blank between, letter by letter |
| Migration.RefillKeepsStored | alembic/versions/0005_contract_user_full_name.py:106-113 | only a full name that is NULL is refilled, and no part changes |
| Migration.FillFits | scripts/backfill.py:41-46 | a backfilled row agrees with its full name, and stored parts are kept |
| Migration.FillLetters | scripts/backfill.py:41-46 | what the backfill stores, letter by letter: stored parts as they are, else the first word and, if the first name is that word, the rest, else the empty text |
| Migration.RefillAgrees | alembic/versions/0005_contract_user_full_name.py:108-112 | the refilled full name reads like first and last name |
| Migration.StepKeeps | docs/cp2_migration_scenario.md:18-24 | every request, flag change, backfill batch, contract, restore and refill keeps the row invariant of its phase, which records what was said part by part |
| Migration.RunKeeps | docs/cp2_migration_scenario.md:18-24 | so does every forward run with traffic in every phase |
| Migration.ShownAsGiven | scripts/traffic_gen.py:73-83 | in every phase every user is shown by the words last given, as a full name and part by part, and the response passes the traffic check of full_name against first and last name |
| Migration.MigrationPreservesNames | docs/cp2_migration_scenario.md:18-24 | over every run of flag changes, backfills, contract, refill and writes to others, a user is shown the same words, and the same first and last name letter for letter |
| Migration.ContractIsSafe | alembic/versions/0005_contract_user_full_name.py:77-92 | once the column is gone no request mentions it and nobody lacks a name |
| Migration.RefillRestoresLegacyView | alembic/versions/0005_contract_user_full_name.py:95-115 | after the downgrade refill a legacy reader sees the same names |
| Migration.LegacyWritesAgainAgreeWhen | app/services/user_service.py:293-307 | after a rollback from dual to legacy writes, an update in either shape agrees with the stored parts if and only if there are none or the name asked for did not change |
| Migration.NewWritesUnderLegacyReadsAgreeWhen | app/services/user_service.py:303-307 | writing only the parts before reads are switched is shown if and only if the name did not change |
| Migration.StaleNames | app/services/user_service.py:303-307 | a concrete user for whom both of these go wrong |
| Accounts.UserTable.CreateUser | app/services/user_service.py:202-253 | stores and answers as specified; refuses only when it would mention a dropped column |
| Accounts.UserTable.UpdateUser | app/services/user_service.py:256-315 | only the given user changes, and is answered as shown; a first name sent is stored stripped, letter by letter, where parts are written, and so is a last name sent with it; unknown user and dropped column change nothing |
| Accounts.UserTable.Overlay | app/services/user_service.py:293-302 | the part not sent is filled from what is stored: `Target`, which is said part by part in `Migration.PartsKept` |
| Accounts.UserTable.Upgrade | alembic/versions/0005_contract_user_full_name.py:51-92 | drops the column only with both flags new and no NULL name, and if and only if a lock is obtained within five tries after lock failures only; otherwise nothing changes |
| Accounts.UserTable.IdRange | alembic/versions/0005_contract_user_full_name.py:104 | the smallest and the largest user id |
| Accounts.UserTable.Downgrade | alembic/versions/0005_contract_user_full_name.py:95-115 | the range loop refills every user exactly once |
| Backfill.FillKeepsStored | scripts/backfill.py:41-46 | filling never overwrites a stored part, never leaves a NULL, and filling twice is filling once |
| Backfill.AnyRouteSameTable | scripts/backfill.py:103-152 | whatever the batch sizes, locks, sweeps, stops, resumptions and requests in between, every row is as the requests left it or that filled, and once nobody lacks a name the table is what the requests alone leave, filled at the end |
| Backfill.SelectIs | scripts/backfill.py:75-82 | a batch is the first n rows after the cursor that lack a part and are not locked |
| Backfill.BatchSparesCursor | scripts/backfill.py:78 | a batch fills rows after the cursor only and leaves all others alone |
| Backfill.BatchSkipsLocked | scripts/backfill.py:75-82 | a batch fills only rows that lack a part, are behind the cursor and not locked |
| Backfill.BatchIsMigrationStep | scripts/backfill.py:70-100 | a batch is one backfill step of the migration machine |
| Backfill.PutAllIs | scripts/backfill.py:3-10 | requests that write both parts add no row to fill |
| Backfill.BatchRound | scripts/backfill.py:70-136 | requests and then a batch: the cursor moves on, not beyond the rows that lacked a name at the start, and between its places only locked rows are left |
| Backfill.RemainingZero | scripts/backfill.py:49-50 | the count of remaining rows is 0 if and only if nobody lacks a name |
| Backfill.Job.UpdateRow | scripts/backfill.py:87-96 | fills exactly the row of that id, and the row count is the number filled |
| Backfill.Job.CountRemaining | scripts/backfill.py:49-50 | counts the rows that lack a part |
| Backfill.Job.RunBatch | scripts/backfill.py:70-100 | fills exactly the selected rows and saves the checkpoint of the last one, or changes nothing |
| Backfill.Job.Sweep | scripts/backfill.py:129-136 | terminates with requests writing between its batches; every row is as they left it or, after the start only, filled, and every row after the start that still lacks a name was locked during the sweep |
| Backfill.Command.Run | scripts/backfill.py:103-152 | with requests that lock and write between all batches: a dry run changes nothing; otherwise exit code 0 if and only if no NULL name is left, and then the table is what the requests alone leave, filled; exit code 1 means each row left was locked in every one of sweeps 2 to 5; without locks it is 0 |
| SeatLabels.LettersInverse | frontend/app/seats/seats.js:60-64 | the row number can be read back from the letters |
| SeatLabels.ValueInverse | frontend/app/seats/seats.js:60-64 | every word of capital letters is the name of exactly one row |
| SeatLabels.IndexOfLabel | seed.py:189-197 | the seat index can be read back from its label |
| SeatLabels.LabelsDiffer | seed.py:189-197 | two labels are equal if and only if the seats are |
| SeatLabels.LabelOfIndex | seed.py:189-197 | every row name with a seat number from 1 to 18 is the label of a seat |
| SeatLabels.SeatLabel | seed.py:189-197 | the seeder's loop computes the label of the seat |
| SeatLabels.RowName | frontend/app/seats/seats.js:60-64 | the page's loop computes the same row letters |
| SeatLabels.RenderRow | frontend/app/seats/seats.js:253-267 | a row lists the labels of its seats, the last row only as many as there are |
| SeatLabels.RenderGrid | frontend/app/seats/seats.js:246-270 | a page lists the labels of its six rows in order, nothing behind the last page |
| SeatLabels.PageMeans | frontend/app/seats/seats.js:246-270 | there is a page exactly for every 108 seats begun, and it has those seats |
| SeatLabels.RowMeans | frontend/app/seats/seats.js:253-267 | there is a row exactly for every 18 seats begun, and it has those seats |
| SeatLabels.GridListsEverySeatOnce | frontend/app/seats/seats.js:246-270 | all pages together list the labels of seats 1 to capacity, each once, in order |

## Left out

- The flag cache (`app/core/flags.py`): its freshness is a matter of timing. Replicas that disagree on a flag, and
  backward changes of the write mode, are not runs of `Migration.Step`.
- Payloads that send both name shapes: not in `Migration.Payload`; `Names.MixedShapesAgreeWhen` says when they agree.
- Column lengths: a first word longer than 100 characters fits `full_name` but not `first_name`. Strings are
  unbounded here.
- E-mail, user name, role, password and login in `create_user`, `update_user` and `authenticate_user`.
- The payload fingerprint on the idempotency race path: the code does not compare it there, so a request that lost the
  race may get an order for other seats. A duplicate may also see "sold out" instead of the order.
- Idempotency.RepeatIsReplayed: covers the lookup at the start of a request, not the race path.
- Idempotency.OneKeyOneOrder: is about traffic with one key only; other traffic in between would change the same counters.
  `KeyTraffic` covers any traffic, and says nothing of counters.
- Guarantees.OutcomeIsFinal: orders marked paid or cancelled by hand are not made by any modelled step.
- Audit.Inspector.AuditAndRepair: with traffic stopped, as its help text asks; a repair during traffic ignores seats in flight.
- Audit.RunAudit: the PostgreSQL results of the reading and the waiting between readings are not part of the result.
- Backfill.Command.Run: dual writes are on throughout, as the guide asks; with legacy writes new rows without parts could
  arrive for as long as a sweep runs. Pauses and time-outs are left out.
- Deadlock.NoDeadlock: covers the INSERTs of bookings on the unique indexes; `Progress` covers the row locks of payments
  and sweeps, where a transaction is one step.
- Reservations.Events.ReserveOrUndo: the order in which MongoDB returns documents and the shape of its queries are left out.
- `Refinement` covers requests whose steps are not interleaved with others; interleaved ones are covered by the invariant.
- Unique violations of generated codes (order number, ticket code, payment reference), time-outs, pools and SQLSTATE mapping.
- Event documents with missing fields (capacity, price, booked count): every zone has all three.
- Telemetry inserts, logging, HTTP routing, response schemas, pagination, and the texts of errors and findings.
- `find_unused`, index sizes and scan counts; the catalog queries themselves.
- The rest of the seat map: aisles, wheelchair spaces, selection, and the demand hash.
- `scripts/verify_migration.py` and its SQL file.
