# RepuestosSur: order saga and stock engine

RepuestosSur sells spare parts with two services and two databases and no distributed transaction. Sales
keeps customers, orders and one row per idempotency key; Inventory keeps the parts and a ledger with one
row per order. Creating an order reserves stock over gRPC from inside a local transaction of Sales;
cancelling releases it. This project models that system and proves what it promises of every run.

`dafny verify dfyconfig.toml` checks everything.

## How it is built

| file | what it holds |
|---|---|
| `Identifiers.dfy`, `Sums.dfy` | ids and their order, options, sums over sets |
| `Canonical.dfy` | normal forms and digests of requests, request parsing, the check of a reservation against its request |
| `Errors.dfy` | domain error to gRPC status to public error |
| `Stock.dfy`, `StockRuns.dfy` | one stock call as a function of the database (`Reserve`, `Release`), and what sequences of calls keep |
| `StockService.dfy` | the class `StockService`, written as the program writes it, proved equal to those functions |
| `Locking.dfy` | stock transactions split into their statements and interleaved: serializability, no deadlock, completion |
| `Saga.dfy` | the whole system as a state machine: keys, orders, Inventory, RPCs in flight, any number of handlers, faults |
| `SagaInvariant.dfy` | the invariant over the three stores, kept by every event |
| `SagaTheorems.dfy`, `SagaConservation.dfy`, `Convergence.dfy`, `LateReserve.dfy` | the promises over whole runs |
| `Joined.dfy` | the two machines together: RPCs served by interleaved stock transactions between the steps of Sales |
| `OrdersService.dfy` | the class `OrdersService`, written as the program writes it, proved to take only the machine's steps |

The two classes are the program's own form. Each `StockService` method is tied to a function of the old
database. Each `OrdersService` method carries the machine's state as ghost state: its tables are at every
transaction boundary those of a reachable state, so every theorem about runs holds of the code, and
each method says besides what it does to keys, orders and stock under every fault.

In `Saga`, `Next` is total: an event that is not possible leaves the state alone, so a theorem about
`After(s, es)` speaks of every sequence of events. Handlers may crash or lose their transaction at any
step, a commit may be done without being acknowledged, and an RPC may fail at Sales before it is served,
after it is served, or be served at any later time.

## What was found

A reserve that is served after a retry of its key was rejected can leave stock reserved that no event ever releases. The
documents promise one effective reservation after an ambiguous failure (`docs/architecture/RELIABILITY.md:27`,
`docs/architecture/TEST-MATRIX.md:40`) and do not mention these cases. Each is shown by a run, for any part and quantity,
that ends with every create and cancel settled, no order CONFIRMED, and no stock:

- The create timed out and its `ReserveStock` is still in flight; a retry is rejected (for lack of stock, say) and the key
  is FAILED for ever; then the first reserve is served and granted (`LateReserves.LateReserveLosesStock`).
- No RPC fails at all. The create only loses its transaction, and with it the lock on its key, while it waits; the rest is as
  above. It then gets its granted answer and goes to recover, finds the key FAILED
  (`apps/sales-api/src/orders/orders.service.ts:136-138`), and answers the stored error without releasing
  what it was granted (`LateReserves.AbandonedReserveLosesStock`). `Convergence.RecoveryIsExact` is the exact statement: an undisturbed
  recovery ends with lost stock if and only if it started with its key FAILED and its order RESERVED.
- The reserve is granted between the answer that rejects its retry and the commit that records that answer
  (`LateReserves.LateRecordLosesStock`).

`SagaConservation.ConservationIsExact` is the exact condition: for every run that ends settled, the stock missing from
Inventory is what the CONFIRMED orders sold, for every part, if and only if none of two events
happened in it: a reserve granted although its order's key is FAILED, or a rejection recorded although a reserve of its
order has been granted since. `SagaConservation.LossIsExact` is the same event by event, and
`SagaConservation.LeakIsForEver` says that the loss is permanent. Two sufficient conditions are easier to keep: no
reserve that can be granted is delivered for an order whose rejection has been answered, recorded or not
(`SagaConservation.GlobalConservation`); each reserve is served while its caller waits for it and still holds its key's lock, or never
(`SagaConservation.PromptConservation`). That it waits is not enough, as the second run shows. Compensation itself is safe under every
fault: a key once COMPENSATING becomes FAILED only with its stock released (`SagaConservation.CompensationReleases`).

Everything else (the invariant, key life cycle, replays, single effects, convergence, no
inconsistent answers) holds with late delivery allowed.

Where code and documents differ otherwise, the code is followed: a cancel whose order is not found inside
its transaction answers 500, not 404 (`apps/sales-api/src/orders/orders.service.ts:388-403`), and a
replayed create falls back to the creation time for a stored update time that cannot be read (line 86).

## Assumptions

- PostgreSQL: transactions are atomic, a statement reads the latest committed rows (READ COMMITTED),
  row and advisory locks last to the end of their transaction. The CHECK constraints of the
  ledger are proved, not assumed.
- Sales is Inventory's only client, the catalogue does not change after the start, customers are not deleted, and a
  generated UUID is new.
- SHA-256 has no collisions: a digest is modelled as the digested text itself. Dates in stored responses are a
  lossless text.
- A failure of the transport carries a gRPC status other than INVALID_ARGUMENT, NOT_FOUND and FAILED_PRECONDITION;
  Inventory's own answers may carry any.
- Order items are read back in the order of their part ids (`ORDER_INCLUDE`); they are stored in that order, because the
  normalized request and with it the reservation are ascending.

## Model

| member | source | states |
|---|---|---|
| Identifiers.LowerIsCanonical | apps/inventory-grpc/src/stock/stock-request.ts:26-28 | The lower-case form is the one text without capitals that agrees with the given one up to the case of ASCII letters. |
| Identifiers.SameLowerIffSameText | apps/inventory-grpc/src/stock/stock-request.ts:26-28 | Two texts have one lower-case form if and only if they agree, position by position, up to case. |
| Identifiers.UuidIsFiveGroups | apps/inventory-grpc/src/common/uuid.ts:3-7 | A UUID is five groups of 8, 4, 4, 4 and 12 hexadecimal digits with hyphens between them, and nothing else. |
| Identifiers.HexDigits | apps/inventory-grpc/src/common/uuid.ts:3 | The hexadecimal digits are the ten digits and the letters a to f in either case. |
| Identifiers.BeforeIsLexicographic | apps/inventory-grpc/src/stock/stock-request.ts:71 | The sorting order: the first difference decides, a proper prefix comes first. |
| Canonical.ParseReserveRequest | apps/inventory-grpc/src/stock/stock-request.ts:31-58 | The loop with its growing set of seen ids accepts exactly the requests with a UUID, 1 to 50 lines, and each line a UUID not repeated in either case and 1 to 999 units; it returns the lines in order, ids without capitals; otherwise it reports the first fault. |
| Canonical.FingerprintIsCanonical | apps/inventory-grpc/src/stock/stock-request.ts:69-74 | Two valid item lists have equal fingerprints if and only if one is a permutation of the other. |
| Canonical.PrintListInjective | apps/inventory-grpc/src/stock/stock-request.ts:73 | The printed text of ids and decimal quantities can be read back in one way only. |
| Canonical.FingerprintIsJson | apps/inventory-grpc/src/stock/stock-request.ts:69-74 | What Inventory digests is the JSON array of the pairs of id and quantity, sorted. |
| Canonical.HashRequestIsJson | apps/sales-api/src/orders/orders.service.ts:30-33 | What Sales digests is the JSON object of the customer and the array of its lines. |
| Canonical.SortIsCanonical | apps/inventory-grpc/src/stock/stock-request.ts:70-71 | Lists of distinct ids sort to the same list if and only if they are permutations of each other. |
| Canonical.NormalizedIsValid | apps/sales-api/src/orders/orders.service.ts:24-28 | Normalizing an admitted request gives as many lines, ascending, distinct, within the limits, ids without capitals, each line of the request among them up to case. |
| Canonical.HashRequestIsCanonical | apps/sales-api/src/orders/orders.service.ts:30-33 | Two create requests hash alike if and only if their customers agree up to case, they have as many lines, and each line of one is in the other up to case of its id. |
| Canonical.EqualHashesEqualFingerprints | apps/sales-api/src/orders/orders.service.ts:205-222 | Requests that Sales takes for the same are the same for Inventory, whatever the order of their lines. |
| Canonical.AllFoundIsPermutation | apps/sales-api/src/orders/orders.service.ts:99-106 | Pigeonhole: if n distinct requested lines are all found among n reserved lines, the reserved lines are exactly those. |
| Canonical.AssertReservationMatches | apps/sales-api/src/orders/orders.service.ts:95-107 | The loop over the map by lower-case id returns normally if and only if the reserved lines are a permutation of the requested ones. |
| Errors.DefiniteExactlyOnDomainStatus | apps/sales-api/src/inventory/inventory-error.ts:42-115 | A failed reserve is answered below 500 exactly on the statuses of a domain rejection; a failed release never is. |
| Stock.SnapshotSuffices | apps/inventory-grpc/src/stock/stock.service.ts:140-156 | The locked rows of the requested ids decide missing parts and shortages as the whole table would. |
| Stock.NewOperationOk | apps/inventory-grpc/prisma/migrations/20260925010557_stock_ledger/migration.sql:49-61 | A reservation that passed validation satisfies every CHECK constraint of the ledger. |
| Stock.ReleasedOperationOk | apps/inventory-grpc/prisma/migrations/20260925010557_stock_ledger/migration.sql:54-61 | So does the row a release writes: release columns filled, arithmetic right, release time present. |
| Stock.ServeKeepsInvariant | apps/inventory-grpc/src/stock/stock.service.ts:120-234 | Every call keeps: stock not negative, stock plus held units equals the initial stock for every part, every ledger row within its constraints. |
| Stock.StockConserved | apps/inventory-grpc/test/integration/grpc-stock-concurrency.spec.ts:91-110 | After any calls, stock plus the quantities of RESERVED operations is the initial stock, hence between zero and it and within the column's range. |
| StockRuns.ServeNeverThrows | apps/inventory-grpc/src/stock/stock.service.ts:90-112 | The throws of the release result are unreachable. |
| StockRuns.ReserveAllOrNothing | apps/inventory-grpc/src/stock/stock.service.ts:143-191 | A new reserve is granted exactly when every line can be deducted; then it deducts every line, stamps the parts, and answers order id, time, and line by line the part's id, sku and name, the quantity, and the stock before and after; otherwise nothing changes. |
| StockRuns.GrantIsRecorded | apps/inventory-grpc/src/stock/stock.service.ts:167-189 | The ledger row a new reserve writes, column by column: status, times, and for each line its number, part, sku, name, quantity and stock before and after. |
| StockRuns.RefusalsAreExact | apps/inventory-grpc/src/stock/stock.service.ts:130-156 | Each refusal of a reserve if and only if its cause: another payload, released before, a part missing, stock short; it lists exactly the missing parts, or exactly the short lines with what is available. |
| StockRuns.MissingInOrder | apps/inventory-grpc/src/stock/stock.service.ts:145-148 | Missing parts are listed in the order of the request. |
| StockRuns.ShortagesInOrder | apps/inventory-grpc/src/stock/stock.service.ts:150-156 | Short lines are listed in the order of the request, with what was asked for and what is available. |
| StockRuns.ReleaseRestoresExactly | apps/inventory-grpc/src/stock/stock.service.ts:196-232 | A first release adds exactly the reserved quantities to the stock of that moment, stamps those parts and touches no other, and answers the time of the release and line by line the part, sku, name and quantity of the row and the stock before and after. |
| StockRuns.ReleaseIsRecorded | apps/inventory-grpc/src/stock/stock.service.ts:213-232 | The row it leaves, column by column: released at that time, each line with its release columns and otherwise unchanged. |
| StockRuns.ServeExtends | apps/inventory-grpc/src/stock/stock.service.ts:120-234 | A call changes no other order's row and never alters what was reserved; a released row never changes. |
| StockRuns.ReserveReplayIsExact | apps/inventory-grpc/src/stock/stock.service.ts:130-138 | After any calls in between, repeating a granted reserve, lines in any order, gives the first answer with only the replay mark changed, until release, and then the refusal; it changes nothing. |
| StockRuns.ReleaseReplayIsExact | apps/inventory-grpc/src/stock/stock.service.ts:204-206 | A repeated release gives the first answer for ever, with only the replay mark changed, and changes nothing. |
| StockRuns.OnlyEffectsMoveStock | apps/inventory-grpc/src/stock/stock.service.ts:114-234 | A call that neither creates nor first releases its order's row leaves the database as it was. |
| StockRuns.EffectsHappenOnce | apps/inventory-grpc/src/stock/stock.service.ts:119-234 | Over any calls, an order is deducted once if its row appears and otherwise never; likewise restored. |
| StockRuns.AuditChain | apps/inventory-grpc/src/stock/stock.service.ts:158-224 | The movements of a part in commit order form a chain from its initial to its current stock, each starting where the previous ended. |
| StockRuns.LedgerIsTheAudit | apps/inventory-grpc/src/stock/stock.service.ts:167-230 | The ledger as it stands after any calls records, beyond what it did before, exactly the movements those calls made, each as often as it was made. |
| StockRuns.AdmissionIsExact | docs/architecture/TEST-MATRIX.md:46 | Of n new orders for q units on a stock of s, in any order, exactly min(n, s / q) are granted, and the rest of the stock remains. |
| StockServices.StockService.Reserve | apps/inventory-grpc/src/stock/stock.service.ts:120-193 | Lock, read, validate, then absolute writes line by line: new database and answer are those of the one-step reserve. |
| StockServices.StockService.Release | apps/inventory-grpc/src/stock/stock.service.ts:196-234 | The same for release. |
| StockServices.StockService.RestoreLines | apps/inventory-grpc/src/stock/stock.service.ts:213-224 | The write loop restores every line's part in total and records the stock before and after on each line. |
| StockServices.DeductStep | apps/inventory-grpc/src/stock/stock.service.ts:159-165 | Since ids are distinct, an absolute write computed before the loop is one more line of the total deduction. |
| Locking.Serializable | apps/inventory-grpc/src/stock/stock.service.ts:41-72 | Any interleaving of the statements of any calls, with aborts, gives the stock, ledger and answers of serving the finished calls one at a time in the order they ended; no write is lost, no aborted call leaves a trace. |
| Locking.CommitKeeps | apps/inventory-grpc/src/stock/stock.service.ts:50-58 | A commit applies to the database of its moment exactly what one undivided call would, and never meets an existing row of its order. |
| Locking.ConcurrentAdmission | docs/architecture/TEST-MATRIX.md:46 | The exact number of successes also holds of concurrent, interleaved reserves. |
| Locking.NoDeadlock | apps/inventory-grpc/src/stock/stock.service.ts:60-72 | In no reachable state do transactions wait for each other in a circle, even if order locks collide. |
| Locking.CompletionIsReachable | apps/inventory-grpc/src/stock/stock.service.ts:60-72 | While a transaction is unfinished one can take a step that lessens the work left. |
| Locking.EveryScheduleFinishes | apps/inventory-grpc/src/stock/stock.service.ts:60-72 | Whoever runs next and whatever is aborted: from any reachable state no schedule of transactions that can run is longer than the work left, and one that long, or that cannot go on, leaves none unfinished. |
| Locking.EveryoneFinishes | apps/inventory-grpc/src/stock/stock.service.ts:60-72 | Among those schedules there is one that aborts nobody. |
| SagaInvariant.NextKeeps | apps/sales-api/src/orders/orders.service.ts:119-405 | Every event keeps the three-store invariant: an order exists iff its key is CONFIRMED; CONFIRMED or COMPENSATING implies a ledger row; RELEASED implies not IN_PROGRESS; CANCELLED implies RELEASED; ledger, order and stored response agree with the claimed request. |
| SagaInvariant.InvariantAlways | apps/sales-api/src/orders/orders.service.ts:119-405 | The invariant holds after any sequence of events. |
| SagaTheorems.OnlyWritersWrite | apps/sales-api/src/orders/orders.service.ts:191-405 | Stored data of Sales changes only on claim, commit, mark and cancel; no step of Sales touches Inventory's data. |
| SagaTheorems.KeyLifecycle | apps/sales-api/src/orders/orders.service.ts:127-186 | Over any run a key keeps its order id and request hash; it never returns to IN_PROGRESS; COMPENSATING only becomes FAILED, with the error stored when it began; CONFIRMED and FAILED rows never change. |
| SagaTheorems.GuardsNeverFire | apps/sales-api/src/orders/orders.service.ts:162-176 | The CONFIRMED branch and the unexpected-state throw of the second recovery transaction, the throw on a confirmed key without an order, on a mismatched reservation, and a refused release are unreachable. |
| SagaTheorems.ConfirmedReplay | apps/sales-api/src/orders/orders.service.ts:225-233 | In every reachable state the answer rebuilt for a CONFIRMED key is the order as first confirmed, though the order may be cancelled since. |
| SagaTheorems.ReplayIsExact | apps/sales-api/src/orders/orders.service.ts:54-89 | Once a create has committed, after any further events, the same key and payload gets the first answer, calls no RPC and changes no stored data. |
| SagaTheorems.ResponseRoundTrip | apps/sales-api/src/orders/orders.service.ts:54-69 | The stored response holds the whole order: read by the names of its fields it gives the order back. |
| SagaTheorems.RestoreFallsBack | apps/sales-api/src/orders/orders.service.ts:71-88 | Without a readable body a replay shows the current row as CONFIRMED, both its times the creation time. |
| SagaTheorems.StoredFailureIsExact | apps/sales-api/src/orders/orders.service.ts:45-52 | A stored failure is read back if and only if its body has a textual code and message; without a status it is a 500; anything else is the internal error. |
| SagaTheorems.LostTransactionAnswers500 | apps/sales-api/src/orders/orders.service.ts:311-345 | A create whose transaction is gone answers 500 whatever its RPC brings, but for a granted reserve, after which it goes on to recover. |
| SagaTheorems.FailedCommitAnswers500 | apps/sales-api/src/orders/orders.service.ts:311-345 | A crash answers 500, and so does a commit without acknowledgement, of a create or a cancel, unless a reserve was granted, after which the create goes on to recover. |
| SagaTheorems.FailedAnswerIsStable | apps/sales-api/src/orders/orders.service.ts:234-239 | Once a key is FAILED, after any further events, every later create with its payload answers the stored error, calls no RPC and changes no stored data. |
| SagaTheorems.NoInconsistentAnswer | docs/architecture/ERROR-MAPPING.md:63-65 | Every release finds its row and is granted; no reserve is answered "different payload"; none whose key is IN_PROGRESS is answered "already released", whether its caller still waits or not. |
| SagaTheorems.HolderNeverSeesReleased | apps/sales-api/src/orders/orders.service.ts:263-267 | In particular a caller that still holds its key's lock is never answered that its reservation was released. |
| SagaTheorems.InventorySideIsAStockRun | apps/sales-api/src/inventory/inventory-grpc.gateway.ts:58-104 | Inventory's data after any run of the system is that of the stock calls served in it, so all results about stock runs apply. |
| SagaTheorems.AtMostOneEffect | apps/sales-api/src/orders/orders.service.ts:178-266 | Over any run with retries, recoveries, cancels and late delivery, each order is deducted and restored at most once. |
| SagaTheorems.CancelledForEver | apps/sales-api/src/orders/orders.service.ts:384-396 | A cancelled order never changes again: one cancellation time, its stock released. |
| SagaConservation.DefiniteRejectionIsSound | apps/sales-api/src/orders/orders.service.ts:267-279 | Through domain errors, gRPC statuses and Sales' table: a reserve that Sales takes as rejected changed nothing and left nothing reserved, and with a matching fingerprint also conversely. |
| SagaConservation.RejectionTellsWhy | apps/sales-api/src/orders/orders.service.ts:265-280 | End to end for a new order: granted exactly if every line can be deducted; otherwise the client gets 422 if a part is missing and 409 if stock is short. |
| SagaConservation.UnexpectedIsInternal | apps/inventory-grpc/src/grpc/grpc-error.filter.ts:36-46 | An unexpected exception in Inventory reaches the client of any operation as the internal error, never as a definite rejection. |
| SagaConservation.LossIsExact | apps/sales-api/src/orders/orders.service.ts:267-279 | From any reachable state, an event leaves the stock of an order reserved for a FAILED key if and only if it was already, or the event is one of two: a reserve granted while the key is FAILED, or the commit of a rejection while the order is RESERVED. |
| SagaConservation.LossOverRuns | apps/sales-api/src/orders/orders.service.ts:119-405 | Over any run, an order's stock is lost if and only if it was at the start or one of the two events happened to it. |
| SagaConservation.LeaksExactlyWhenLate | apps/sales-api/src/orders/orders.service.ts:266-279 | From any reachable state where no order with a rejection, recorded or only answered, is RESERVED, an event breaks this if and only if it delivers a reserve that Inventory can grant for such an order. |
| SagaConservation.NoLeakAlways | docs/architecture/RELIABILITY.md:27 | Over any run without such a delivery, no FAILED key's order is RESERVED. |
| SagaConservation.StockIsSoldOrLeaked | apps/sales-api/src/orders/orders.service.ts:191-405 | In every settled reachable state, late deliveries included, stock missing from Inventory is what CONFIRMED orders sold plus what FAILED creates hold. |
| SagaConservation.ConservedIffNothingLeaked | apps/sales-api/src/orders/orders.service.ts:191-405 | In a settled reachable state, missing stock is what CONFIRMED orders sold, for every part, if and only if no FAILED key's order is RESERVED. |
| SagaConservation.ConservationIsExact | apps/sales-api/src/orders/orders.service.ts:191-405 | For every run from the start that ends with no create undecided and no cancel half done: initial minus current stock is the sum over CONFIRMED orders, for every part, if and only if no event of the run is one of the two that lose stock. |
| SagaConservation.GlobalConservation | apps/sales-api/src/orders/orders.service.ts:191-405 | A sufficient condition a deployment can aim at: every settled run without a reserve delivered and granted for an order already rejected, recorded or not, conserves stock. |
| SagaConservation.PromptConservation | docs/architecture/RELIABILITY.md:27 | A sufficient condition: if every reserve is served while its caller waits for it and still holds its key's lock, or never, every settled run conserves stock. |
| SagaConservation.CompensationReleases | apps/sales-api/src/orders/orders.service.ts:119-189 | From any reachable state, late deliveries included: a COMPENSATING key stays so, or is FAILED with its order's stock released. |
| SagaConservation.LeakIsForEver | apps/sales-api/src/orders/orders.service.ts:234-239 | No later event releases what is reserved for a FAILED create. |
| LateReserves.LateReserveLosesStock | apps/sales-api/src/orders/orders.service.ts:266-279 | A concrete run, for any part and quantity: a timed-out reserve served after its retry was rejected leaves all settled, nothing sold, and no stock. |
| LateReserves.AbandonedReserveLosesStock | apps/sales-api/src/orders/orders.service.ts:123-138 | The same loss in a run where no RPC fails and every reserve is served while its caller waits: the caller lost its transaction, is granted its reserve, recovers, finds the key FAILED and answers the stored error. |
| LateReserves.LateRecordLosesStock | apps/sales-api/src/orders/orders.service.ts:267-279 | The same loss when the reserve is granted before the rejection of its retry is recorded: the last event is the commit that records it. |
| Convergence.CreateConverges | apps/sales-api/src/orders/orders.service.ts:240-305 | From any reachable state one undisturbed create leaves its key CONFIRMED or FAILED and answers accordingly, or answers the payload conflict. |
| Convergence.RecoveryIsExact | apps/sales-api/src/orders/orders.service.ts:119-189 | From any reachable state one undisturbed recovery settles its key; an undecided key ends FAILED with its stock released, and one that was IN_PROGRESS answers 500; a decided one is only answered; stock is lost afterwards if and only if the key was FAILED and its order RESERVED before. |
| Convergence.CancelConverges | apps/sales-api/src/orders/orders.service.ts:377-396 | From any reachable state one undisturbed cancel of any order, its id in either case, releases its stock and answers it: a CONFIRMED order becomes CANCELLED with the time of this cancel and the update time, every other field and order as before; a CANCELLED one stays as it is. |
| Joined.JoinedRunsAreSagaRuns | apps/inventory-grpc/src/stock/stock.service.ts:120-234 | However the statements of Inventory's transactions interleave with each other and with Sales' steps, the whole run is one of the saga with each RPC served in one piece when its transaction ends, over the same database. |
| Joined.DeliveredInLogOrder | apps/inventory-grpc/src/stock/stock.service.ts:41-72 | In that run the RPCs are served exactly in the order in which their transactions end; aborted ones are not served. |
| Joined.JoinedConservation | apps/sales-api/src/orders/orders.service.ts:191-405 | The exact condition of conservation with interleaved transactions. |
| OrdersServices.OrdersService.constructor | apps/sales-api/src/orders/orders.service.ts:113-117 | A new service over a catalogue with an empty ledger starts in an initial state of the machine. |
| OrdersServices.ValidKeyIsFormat | apps/sales-api/src/orders/orders.service.ts:196 | The check of an idempotency key admits exactly 8 to 128 letters, digits, dots, underscores, colons and hyphens. |
| OrdersServices.UuidIsKey | apps/sales-api/src/orders/orders.service.ts:196 | Every UUID is an admitted key. |
| OrdersServices.OrdersService.Call | apps/sales-api/src/inventory/inventory-grpc.gateway.ts:58-104 | One gateway call is one RPC; under each fault it gives the mapped error or Inventory's answer, and serves the call or does not. |
| OrdersServices.OrdersService.Claim | apps/sales-api/src/orders/orders.service.ts:206-212 | A new key is claimed IN_PROGRESS with a fresh order id and an existing one is left alone; any failure but the uniqueness violation ends the create with 500, claimed or not. |
| OrdersServices.OrdersService.AnswerTransaction | apps/sales-api/src/orders/orders.service.ts:222-239 | Another payload or a decided key is answered and nothing is written; if even that commit fails, the create throws. |
| OrdersServices.OrdersService.CreateTransaction | apps/sales-api/src/orders/orders.service.ts:217-310 | The transaction of a create under every fault, a failed commit that wrote nothing included: only its key and its order change; Inventory's new state is given exactly (one release if COMPENSATING, one reserve if it has to reserve, else none); a success is the order first confirmed; a key that becomes FAILED holds no stock; it goes on to recovery exactly if it was granted its reserve and its commit failed. |
| OrdersServices.OrdersService.ReserveAndConfirm | apps/sales-api/src/orders/orders.service.ts:263-305 | Undisturbed, outcome and stock are those of Inventory's reserve; a failure of the RPC, served or not, leaves key and orders as they were, for a retry to recover, and answers the error of that failure; an exception behind a granted reserve sends the caller on to compensation. |
| OrdersServices.OrdersService.ConfirmOrder | apps/sales-api/src/orders/orders.service.ts:282-305 | After a granted reserve, order and key are stored together, the key CONFIRMED with 201 and the response; the answer is the order with Inventory's snapshots; an unexpected reservation throws and stores nothing. |
| OrdersServices.OrdersService.ReleaseAndFail | apps/sales-api/src/orders/orders.service.ts:240-248 | A COMPENSATING key becomes FAILED only once its order's stock is released; Inventory changes by that one release or, if the RPC is lost before it, not; it answers the error stored before if undisturbed and throws otherwise. |
| OrdersServices.OrdersService.Persist | apps/sales-api/src/orders/orders.service.ts:301-310 | The writes of a transaction appear together or not at all; a lost acknowledgement throws although they did. |
| OrdersServices.OrdersService.MarkTransaction | apps/sales-api/src/orders/orders.service.ts:123-156 | First recovery transaction: a decided key is answered as decided, an IN_PROGRESS key becomes COMPENSATING before any release. |
| OrdersServices.OrdersService.UndoTransaction | apps/sales-api/src/orders/orders.service.ts:158-184 | Second recovery transaction: Inventory changes by one release of a COMPENSATING key's order and not otherwise; a key that becomes FAILED has its stock released; if it returns, the key is FAILED and the answer is its stored error. |
| OrdersServices.OrdersService.RecoverFailedCreate | apps/sales-api/src/orders/orders.service.ts:119-189 | Recovery under every fault: a decided key's stock stays as it is, an undecided one's is released once if the mark is acknowledged and the RPC gets through; a key that becomes FAILED has its stock released; a key that was IN_PROGRESS answers 500; a success is the confirmed order; undisturbed it settles the key. |
| OrdersServices.OrdersService.CreateOrder | apps/sales-api/src/orders/orders.service.ts:191-349 | A key that is not 8 to 128 of the admitted characters answers 400 and changes nothing; a failed claim answers 500; otherwise, under every fault, only this key and order change and Inventory's new state is given exactly: what was reserved goes back exactly if the commit was not done and the recovery gets through; a key that becomes FAILED holds no stock; success means CONFIRMED with the first answer; a decided key is only answered, or 500 if that transaction fails; a COMPENSATING key answers its stored error, or 500 under any fault; a failed RPC answers its own error; undisturbed, the key ends CONFIRMED or FAILED, and a new key's outcome is what Inventory's reserve decides, its order listing what was asked for by the sku and name the parts had. |
| OrdersServices.OrdersService.CancelOrder | apps/sales-api/src/orders/orders.service.ts:377-405 | The order is found by its id in either case, else 404. Under every fault it stays or becomes CANCELLED with the time of this cancel and the update time, other fields as before; stock moves as one release at most, no key changes; success, or any change, means its stock is released; undisturbed it succeeds, a failed RPC answers its own error and a failed commit 500; a cancelled order changes nothing. |
| OrdersServices.OrdersService.DeliverLate | apps/sales-api/src/inventory/inventory-grpc.gateway.ts:58-104 | An RPC that Sales gave up on is served later: only Inventory's data changes. |
| OrdersServices.OrdersService.Conservation | apps/sales-api/src/orders/orders.service.ts:191-405 | Whatever methods were called under whatever faults: once settled, stock missing from Inventory is what the orders table sold, for every part, if and only if none of the two losing events happened; in particular without a late reserve. |

`Stock.Reserve` and `Stock.Release` (apps/inventory-grpc/src/stock/stock.service.ts:120-234), `Errors.ToGrpcStatus`
(apps/inventory-grpc/src/grpc/grpc-error.filter.ts:16-46), `Errors.ToApiError`, and `Saga.Next` with its parts
(`NextClaim` 206-212, `NextBegin` 218-266, `NextReserveAnswer` 266-305, `NextMark` 123-156, `NextUndo` 158-184,
`NextRead` 377-383, `NextSave` 384-396 of the orders service) are definitions without a contract of their own; the rows
above state what holds of them.

## Left out

- Transport, Nest modules, controllers, interceptors, logging, trace ids, configuration and health probes: plumbing around libraries.
- Prisma, and PostgreSQL beyond the assumptions above; connection pools and wall-clock deadlines: a timeout is an event that may happen at any time.
- Request validation by decorators before `create` (UUIDs, 1 to 50 distinct parts, 1 to 999 units): a precondition of `CreateOrder` and of the event that starts a create.
- Parsing of the reserve request on the path from Sales: `ParseReserveRequest` is proved apart; what Sales sends is already normalized and passes it unchanged.
- Seeding, whose reset mode overwrites stock on purpose.
- Customers beyond their existence, listing and reading of orders, `GetPart` and `ListParts`: no effect on what is proved here.
- SHA-256 and ISO date text, as said under the assumptions.
- Retry policy of clients: a retry is another create or cancel at any time.
- OrdersServices.OrdersService: a transaction of this class, its RPC included, runs from start to end; transactions of different calls may alternate, and statements of different transactions interleave only in `Saga` and `Locking`. A crash inside a transaction appears there as a commit that does not happen; `Saga` also has crashes between any two steps. Transactions of Inventory interleave with all of Sales' steps in `Joined`.
- StockServices.StockService: one transaction at a time; `Locking` and `Joined` prove that interleaved transactions come to the same.
