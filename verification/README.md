# Go Commerce Microservices: a Dafny model of its message protocols

The shop's services share no transaction. An order is written with an outbox row, a worker publishes it, the
inventory service reserves stock and answers through its own outbox, and the order service settles the order when the
answer comes back. Every hop may be repeated, reordered, cut off by a crash, or succeed although its caller was told it
failed. This project models that protocol, the database transaction at its centre, the publisher, worker and retry policy
that carry it, and the catalog's two read projections with their cache; and it proves what holds in every run.

## Layout

| file | models |
|---|---|
| `Inventory.dfy` | the inventory tables, their CHECK and UNIQUE constraints, and one reservation transaction as a function on tables |
| `InventoryRepository.dfy` | the repository class, statement by statement, and the ReserveStockRequested consumer |
| `InventoryInterleaving.dfy` | concurrent transactions with row locks and uncommitted unique keys; refinement to the atomic one |
| `InventoryStatements.dfy` | what each statement of those transactions has to do: alone, among others, and when it rolls back |
| `Orders.dfy` | NewOrder, CreateOrder, and the non-atomic settling of an order with its inbox |
| `RetryPolicy.dfy` | the header counter, publish-confirm-acknowledge, retry and dead-letter queues |
| `Publisher.dfy` | the confirmed publisher with its return buffer of capacity one |
| `Outbox.dfy` | the outbox table and worker, the same code in both services |
| `OutboxPublisher.dfy` | that worker over that publisher: a run of the two refines a run of the outbox |
| `OutcomeConsumer.dfy` | the two outcome consumers, and the lemmas that tie the saga's steps to the service classes |
| `Saga.dfy` | the whole system as a step relation: agreement, conservation, no loss |
| `SagaProgress.dfy`, `SagaFairness.dfy` | the system once faults stop: a ranking of what is left to do, and when each order settles |
| `SagaRetry.dfy` | the saga's outcome copies as a run of the retry policy |
| `CatalogWrite.dfy`, `CatalogRead.dfy` | product creation, the two projections, and the cached product list |

Classes follow the source's repositories and handlers; their methods are proved against functions on values, and the
theorems over whole runs are about those functions. A `*` in a method is an error the program cannot foresee. A UUID is a
natural number and "fresh" means not used before.

## Assumptions

- Postgres: row locks and uncommitted unique keys are held to the end of a transaction; a plain read sees committed rows.
- RabbitMQ: queues are durable; one reader handles a channel's frames in order; an unroutable mandatory message is
  returned before it is acknowledged; the client library's send into the return buffer blocks when the buffer is full.
- Once faults stop, a delivery that is still unacknowledged is carried on by a live consumer, and every publisher has fewer
  than two untaken returns or has been restarted: a wedged publisher is a fault that has to be cleared. From the second call
  on each publish then succeeds (`Publisher.HealthyExact`), which is what the calm steps that send a row stand for.
- Once faults stop, customers may go on ordering. A run is fair to an order if, whenever a useful step on the order's own
  messages is possible, such a step is taken in the end, however many others come between. Runs fair to an order exist from
  every state (`SagaFairness.FairRunExists`).
- `maxAttempts` is positive and fits an int32; above that the counter wraps (see below).
- `FindAll` is an atomic snapshot of the Mongo collection.

## What turned out not to hold, and exactly when

- An order may name a product twice. `checkAndLockStock` tests each line alone and `reserveStock` writes from one
  snapshot, so only the UNIQUE constraint keeps the stock right, by rolling back. Such a request commits exactly when the
  stock check rejects it (`Inventory.RepeatedProductExact`), and its order is never confirmed
  (`Saga.RepeatedProductNeverConfirmed`). In a run fair to its redelivery it settles, as FAILED, if and only if it is not
  lost and was answered before or the check rejects it at some moment (`SagaFairness.RepeatedOrderExact`). Without the
  constraint the overwrite would keep stock and rows in balance exactly for distinct products
  (`Inventory.OverwriteBalancedExact`).
- An order is left PENDING for ever when its answer dies before it is applied: sent, not recorded, and every copy
  dead-lettered or gone (`SagaFairness.LostForEver`; `SagaFairness.LostReachable` is a run that gets there). A dead letter
  beside a live copy does not matter. In a run fair to it, any order settles if and only if it is not lost and its
  transaction commits from some moment on (`SagaFairness.SettlesExact`); for distinct products whose seeded totals fit an
  INT the transaction always commits (`SagaFairness.FairRunSettlesExact`).
- A sufficient request over distinct products can fail when `reserved_quantity` would pass the INT limit: exactly then
  (`Inventory.CommitExact`), with an input that does (`Inventory.FullColumnRefuses`). A product whose seeded available plus
  reserved fits the column never causes it (`SagaProgress.GoodCommits`).
- The attempt counter is written as int32. With `maxAttempts` above 2^31 - 1 it wraps, is read back as 1, and the message
  is retried for ever (`RetryPolicy.RetryTerminationExact`).
- The retry channel publishes with the mandatory flag but listens to no returns, so a copy for a queue that does not exist
  is confirmed and lost (`RetryPolicy.LastCopySafeExact`, `RetryPolicy.ExpirySafeExact`).
- Two returns that arrive after their calls have timed out fill the publisher's buffer and block its reader: from then on
  no call succeeds, however healthy the broker (`Publisher.RecoveryExact`, `Publisher.HealthyExact`).
- The worker never looks at `retry_count`. Over every run of passes, rows that keep failing at the head let the younger rows
  drain if and only if they are fewer than the batch size; otherwise no younger row is ever published
  (`Outbox.HeadOfLineExact`; `Outbox.StarvationReachable` is a run of any length in which that happens).
- The inbox row of a handled outcome tells the truth exactly when the order exists and has not gone the other way
  (`Orders.HandlingTruthfulExact`); the saga guarantees that (`OutcomeConsumer.AnswersUnanimous`).
- The two projections agree only as long as no product id has two different products (`CatalogRead.ConvergenceExact`).

## Model

| member | source | states |
|---|---|---|
| `Saga.SagaAgreement` | services/order-service/internal/service/order_service.go:44-102 | In every reachable state a CONFIRMED order holds exactly its lines as reservations, a FAILED one none, a PENDING one all or none, and inventory holds at most one answer per order. |
| `Saga.InvAlways` | services/order-service/internal/service/order_service.go:44-102 | The inductive invariant of the whole system holds after any sequence of steps: orders with requests, copies with outbox payloads, reservations with answers, statuses with answers, inbox with statuses. |
| `Saga.TerminalForEver` | services/order-service/internal/adapter/repository/order_repository_pg.go:87-107 | Once an order is CONFIRMED or FAILED no later step of any run changes it. |
| `Saga.RepeatedProductNeverConfirmed` | services/inventory-service/migrations/001_create_inventory_tables.sql:13-22 | An order that repeats a product is CONFIRMED in no reachable state. |
| `Saga.StockAlways` | services/inventory-service/internal/adapter/repository/inventory_repository_pg.go:64-102 | Over every run of the system the table constraints hold and each product's available plus reserved stays at its seeded total. |
| `Saga.NothingLost` | services/order-service/internal/adapter/messaging/retry_policy.go:107-184 | A row marked processed was routed with its own payload; an outcome once queued is queued, unacked, delayed or dead-lettered until recorded with its order settled; an acknowledged request is in inventory's inbox. |
| `Saga.RequeueUndoesDelivery` | services/inventory-service/internal/adapter/messaging/reserve_stock_requested_consumer.go:118-183 | A delivery given back at once leaves the system as it was before it was taken. |
| `SagaFairness.FairRunSettlesExact` | services/order-service/internal/worker/outbox_worker.go:58-93 | Take any reachable state, maxAttempts within int32, and an order with distinct products whose seeded totals fit an INT. In every fault-free run fair to it, whatever else is ordered, it is CONFIRMED or FAILED from some moment on iff its answer had not died before it was applied. Publishers are not wedged: fewer than two untaken returns. |
| `SagaFairness.SettlesExact` | services/inventory-service/internal/adapter/messaging/reserve_stock_requested_consumer.go:118-183 | The same for any order and any stock: it settles iff it is not lost and its transaction commits from some moment on. |
| `SagaFairness.RepeatedOrderExact` | services/inventory-service/internal/adapter/repository/inventory_repository_pg.go:145-184 | An order that repeats a product is never CONFIRMED, and in a run fair to it settles iff it is not lost and was answered before or the stock check rejects it at some moment. |
| `SagaFairness.QuietRunSettlesExact` | services/inventory-service/internal/worker/outbox_worker.go:58-93 | When no more orders arrive and every product's seeded total fits, it is enough for the same that something useful to anybody is done in the end. |
| `SagaFairness.CalmIsRun` | services/order-service/internal/service/order_service.go:44-102 | Every state of a fault-free run is a reachable state of the saga. |
| `SagaFairness.CalmDeadExact` | services/order-service/internal/adapter/messaging/retry_policy.go:107-133 | A fault-free step neither kills an answer nor revives one, and an order lost that way stays lost. |
| `SagaFairness.LostForEver` | services/order-service/internal/adapter/messaging/retry_policy.go:120-133 | An order whose answer was sent, is unrecorded and has only dead-lettered or gone copies stays PENDING in every fault-free run, whatever its products, stock and limit. |
| `SagaFairness.LostReachable` | services/order-service/internal/adapter/messaging/stock_not_reserved_consumer.go:133-192 | With one attempt allowed, one failed handling of a rejection leaves its order lost. |
| `SagaFairness.Progress` | services/inventory-service/internal/worker/outbox_worker.go:58-93 | For an order with distinct products whose seeded totals fit, and maxAttempts within int32: from any reachable state any fault-free run, new orders included, takes at most Measure useful steps on its messages, and while it waits for a live answer another one is possible. |
| `SagaFairness.QuietProgress` | services/order-service/internal/worker/outbox_worker.go:58-93 | With every product's seeded total fitting, maxAttempts within int32 and no new orders, the useful steps for all orders together are at most Measure. |
| `SagaFairness.FairRunExists` | services/order-service/internal/worker/outbox_worker.go:58-93 | From every state some run is fair to a given order, and some run to everyone, so the theorems are about something. |
| `SagaFairness.NewOrderWaits` | services/order-service/internal/service/order_service.go:23-70 | Every order created in any reachable state is PENDING with an answer that can still arrive. |
| `SagaFairness.SettlingRun` | services/inventory-service/internal/adapter/messaging/reserve_stock_requested_consumer.go:118-183 | With maxAttempts within int32, a fault-free schedule no longer than the measure settles every waiting order with distinct products whose seeded totals fit. |
| `SagaProgress.EveryStepFalls` | services/order-service/internal/adapter/messaging/stock_reserved_consumer.go:133-196 | With maxAttempts within int32, every fault-free step that matters to an order, or to all of them, lowers its measure; any other leaves it, unless it brings a new order or gives a request back. |
| `SagaProgress.SomethingToDo` | services/order-service/internal/adapter/messaging/stock_reserved_consumer.go:133-196 | While an order waits and its transaction commits, a step on its own messages that lowers its measure is enabled, wherever its message happens to be. |
| `SagaProgress.GoodCommits` | services/inventory-service/internal/adapter/repository/inventory_repository_pg.go:64-102 | In every reachable state with maxAttempts within int32, the transaction of a request with distinct products whose seeded totals fit an INT commits, one way or the other. |
| `Inventory.DecisionExact` | services/inventory-service/internal/adapter/repository/inventory_repository_pg.go:114-143 | The check succeeds iff every line's row exists with enough available; otherwise the reason names the first failing line. |
| `Inventory.DecisionByStock` | services/inventory-service/internal/adapter/repository/inventory_repository_pg.go:114-143 | In terms of the stock rows: sufficient iff every line asks no more than is available; else not-found or insufficient, whichever goes with the first bad line. |
| `Inventory.ReservationExact` | services/inventory-service/internal/adapter/repository/inventory_repository_pg.go:145-184 | The reservation loop passes all constraints iff its products are distinct, quantities positive, new values in range and no earlier rows exist; then rows and stock have one closed form. |
| `Inventory.CommitExact` | services/inventory-service/internal/adapter/repository/inventory_repository_pg.go:64-102 | A duplicate or rejected request always commits; a sufficient one commits iff a condition the caller can test beforehand holds. |
| `Inventory.FullColumnRefuses` | services/inventory-service/migrations/001_create_inventory_tables.sql:4-11 | With 10 available and the reserved column full, a request for one is sufficient and cannot commit. |
| `Inventory.RepeatedProductExact` | services/inventory-service/internal/adapter/repository/inventory_repository_pg.go:145-184 | A request that repeats a product commits iff the stock check rejects it. |
| `Inventory.EffectExact` | services/inventory-service/internal/adapter/repository/inventory_repository_pg.go:71-102 | A commit changes nothing for a known message, or adds exactly one outbox and one inbox row together with all reservations or none. |
| `Inventory.ExactlyOnce` | services/inventory-service/internal/adapter/repository/inventory_repository_pg.go:104-112 | Over any sequence of deliveries and failures exactly one delivery of a message takes effect if its inbox row appears, and none otherwise. |
| `Inventory.StockConserved` | services/inventory-service/migrations/001_create_inventory_tables.sql:4-22 | Over every sequence of deliveries the totals are kept, reserved grows by the sum of the reservation rows, and every quantity stays between 0 and the INT limit. |
| `Inventory.TransactConserves` | services/inventory-service/internal/adapter/repository/inventory_repository_pg.go:145-184 | One committed transaction keeps each product's total and moves reserved by its own rows. |
| `Inventory.OverwriteBalancedExact` | services/inventory-service/internal/adapter/repository/inventory_repository_pg.go:153-166 | For positive lines, what the loop would write without UNIQUE keeps totals and rows in balance iff no product is named twice. |
| `Inventory.SnapshotOverwriteBreaksBalance` | services/inventory-service/migrations/001_create_inventory_tables.sql:13-22 | With 3 and 4 of one product the stale snapshot would leave 4 reserved for 7 promised; the unique row stops it. |
| `InventoryRepository.InventoryRepositoryPG.CheckAndLockStock` | services/inventory-service/internal/adapter/repository/inventory_repository_pg.go:114-143 | Without a database error it returns the decision of the specification, and a snapshot of every requested row. |
| `InventoryRepository.InventoryRepositoryPG.ReserveStock` | services/inventory-service/internal/adapter/repository/inventory_repository_pg.go:145-184 | The loop leaves exactly the specified tables, or stops at the violation the specification predicts. |
| `InventoryRepository.InventoryRepositoryPG.ReserveStockWithInboxAndOutbox` | services/inventory-service/internal/adapter/repository/inventory_repository_pg.go:64-102 | Success is the specified transaction; an error leaves the tables as they were, unless the commit took effect unheard. |
| `InventoryRepository.HandleMessage` | services/inventory-service/internal/adapter/messaging/reserve_stock_requested_consumer.go:118-183 | A delivery is dropped iff it does not parse, acknowledged only after its transaction, requeued otherwise; each is one delivery of the runs in which stock is conserved. |
| `InventoryRepository.RequestsRoundTrip` | services/order-service/internal/service/order_service.go:44-48 | Every request the order service writes parses at the consumer to the request that was written, field by field under the same names. |
| `InventoryInterleaving.Serializable` | services/inventory-service/internal/adapter/repository/inventory_repository_pg.go:71-142 | Any interleaving of transactions leaves the tables that its committed transactions leave one after another in commit order, each of which commits there too. |
| `InventoryInterleaving.CommitIsAtomic` | services/inventory-service/internal/adapter/repository/inventory_repository_pg.go:71-102 | At its commit, what a transaction did step by step from old reads is what the atomic transaction does at that moment. |
| `InventoryInterleaving.ConcurrentExactlyOnce` | services/inventory-service/migrations/001_create_inventory_tables.sql:24-30 | However concurrently a message is delivered, at most one transaction for it commits with effects, and stock is conserved. |
| `InventoryStatements.RunsAlone` | services/inventory-service/internal/adapter/repository/inventory_repository_pg.go:64-102 | From any tables and with no other transaction, begin and at most 3 n + 7 statements end with the atomic transaction's tables if it commits, rejections included, and with the tables found if it does not. |
| `InventoryStatements.OthersDoNotMatter` | services/inventory-service/internal/adapter/repository/inventory_repository_pg.go:118-125 | Among other transactions a statement that need not wait does exactly what it would do alone. |
| `InventoryStatements.WaitingIsIdle` | services/inventory-service/internal/adapter/repository/inventory_repository_pg.go:118-125 | A statement that needs a row lock or unique key another transaction holds changes nothing. |
| `InventoryStatements.DropsOnlyOnViolation` | services/inventory-service/internal/adapter/repository/inventory_repository_pg.go:94-101 | In every reachable state a statement ends its transaction without a commit iff it violates a CHECK, the UNIQUE key of a reservation or the inbox key; insufficient stock never does. |
| `RetryPolicy.RetryTerminationExact` | services/order-service/internal/adapter/messaging/retry_policy.go:107-118 | The counter reaches the limit iff the limit fits an int32, and then after exactly maxAttempts - 1 passes. |
| `RetryPolicy.AttemptCycles` | services/order-service/internal/adapter/messaging/retry_policy.go:186-204 | The attempt read back after k passes, wrap-around and clamping included, in closed form. |
| `RetryPolicy.OutcomeNeverLost` | services/order-service/internal/adapter/messaging/retry_policy.go:135-184 | With the queues declared, a message once queued has a copy in one of the four places until it is handled, whatever is nacked, timed out, half done or crashed. |
| `RetryPolicy.CopiesAlwaysFaithful` | services/order-service/internal/adapter/messaging/retry_policy.go:107-133 | Every copy keeps the stored body and every header that neither the policy nor the broker owns, counts its passes, and has passed at most maxAttempts - 1 times. |
| `RetryPolicy.LastCopySafeExact` | services/order-service/internal/adapter/messaging/retry_policy.go:135-184 | The last copy survives every fate of its retry or dead-letter publish iff the target queue was declared. |
| `RetryPolicy.ExpirySafeExact` | services/order-service/internal/adapter/messaging/retry_policy.go:89-102 | The last copy survives the end of its delay iff the source queue is bound. |
| `RetryPolicy.FailureExact` | services/order-service/internal/adapter/messaging/retry_policy.go:107-184 | A failed handling stores at most one copy, with the next attempt and the reason below the limit, or the attempt, reason and time at it; the delivery is then acknowledged, or requeued as it came if unconfirmed, or kept if neither got through. |
| `RetryPolicy.MalformedExact` | services/order-service/internal/adapter/messaging/retry_policy.go:120-133 | A malformed message is dead-lettered whatever its attempt, with the reason and time, and settled in the same way. |
| `RetryPolicy.AttemptRead` | services/order-service/internal/adapter/messaging/retry_policy.go:186-204 | The attempt read is the signed header if that is at least 1, and 1 otherwise. |
| `RetryPolicy.DeadOnlyAfterAllAttempts` | services/order-service/internal/adapter/messaging/retry_policy.go:107-118 | In every run without malformed bodies each dead letter has passed the retry queue exactly maxAttempts - 1 times. |
| `RetryPolicy.Policy.Retry` | services/order-service/internal/adapter/messaging/retry_policy.go:107-118 | Dead-letters iff the attempt has reached the limit and retries otherwise, with the specified headers and settlement. |
| `RetryPolicy.Policy.DeadLetter` | services/order-service/internal/adapter/messaging/retry_policy.go:120-133 | Sends the specified copy to the dead-letter queue and settles the original. |
| `RetryPolicy.Policy.Send` | services/order-service/internal/adapter/messaging/retry_policy.go:135-184 | Publishes one copy with the given headers; then the delivery is acknowledged if that was confirmed, goes back to its queue unchanged if not, and is kept if neither got through. |
| `RetryPolicy.Policy.Acknowledge` | services/order-service/internal/adapter/messaging/stock_reserved_consumer.go:186-189 | A handled delivery counts as handled whether or not its acknowledgement gets through, and stays unacknowledged if it does not. |
| `RetryPolicy.ToInt32` | services/order-service/internal/adapter/messaging/retry_policy.go:114-122 | Go's narrowing: in range, congruent modulo 2^32, and the identity on values that fit. |
| `Publisher.PublisherSound` | services/order-service/internal/adapter/messaging/rabbitmq_publisher.go:50-94 | When a call returns nil its own message was acknowledged and not returned, for every history of earlier calls. |
| `Publisher.PublishExact` | services/order-service/internal/adapter/messaging/rabbitmq_publisher.go:69-94 | Which result a call has: time-out iff late or unconfirmed, refusal iff nacked, otherwise success or a return; a message that could not be routed is never a success. |
| `Publisher.PumpExact` | services/order-service/internal/adapter/messaging/rabbitmq_publisher.go:69-78 | The reader goes on up to the first frame that confirms the call's own message, and stops earlier only when blocked or out of time. |
| `Publisher.RoutingExact` | services/inventory-service/internal/adapter/messaging/rabbitmq_publisher.go:96-105 | Each event type has its one key, and neither service can publish the other's. |
| `Publisher.RabbitMQPublisher.Publish` | services/order-service/internal/adapter/messaging/rabbitmq_publisher.go:50-94 | The call as a loop over frames: unsupported events change nothing, everything else is the specified call, and nil is sound. |
| `Publisher.RecoveryExact` | services/inventory-service/internal/adapter/messaging/rabbitmq_publisher.go:50-94 | Some later sequence of calls can succeed iff fewer than two returns are untaken. |
| `Publisher.HealthyExact` | services/inventory-service/internal/adapter/messaging/rabbitmq_publisher.go:72-93 | With a healthy broker every call from the second on succeeds iff fewer than two returns are untaken. |
| `Publisher.StuckForEver` | services/inventory-service/internal/adapter/messaging/rabbitmq_publisher.go:72-93 | With two untaken returns every later call fails and the state persists. |
| `Publisher.StuckReachable` | services/catalog-write-service/internal/adapter/messaging/rabbitmq_publisher.go:74-97 | Two timed-out unroutable publishes bring a new publisher there. |
| `Outbox.OutboxWorker.ProcessBatch` | services/order-service/internal/worker/outbox_worker.go:58-93 | One tick takes a batch the database's contract allows and processes it as specified, or nothing when the fetch fails. |
| `Outbox.OutboxWorker.FindUnprocessed` | services/order-service/internal/adapter/repository/outbox_repository_pg.go:36-56 | The batch holds the oldest unprocessed rows, oldest first, at most the limit, with their payloads. |
| `Outbox.OutboxWorker.MarkAsProcessed` | services/order-service/internal/adapter/repository/outbox_repository_pg.go:58-60 | Sets processed on that row and changes nothing else; no row with the id is no error and no change. |
| `Outbox.OutboxWorker.IncrementRetry` | services/inventory-service/internal/adapter/repository/outbox_repository_pg.go:62-64 | Adds one to that row's retry count and changes nothing else; no row with the id is no error and no change. |
| `Outbox.NeverLies` | services/inventory-service/internal/worker/outbox_worker.go:58-93 | In every run a processed row was routed, every publish carried the stored payload, and retry_count never exceeds the failed publishes. |
| `Outbox.NeverLoses` | services/order-service/internal/worker/outbox_worker.go:65-85 | A committed row keeps its payload for ever, and stays unprocessed until a publish of it succeeded. |
| `Outbox.RowsWereInserted` | services/order-service/internal/adapter/repository/order_repository_pg.go:65-85 | In every run each row holds the payload and time of the insert that made it. |
| `Outbox.BookkeepingExact` | services/order-service/internal/worker/outbox_worker.go:65-85 | In every run in which no UPDATE fails a row is processed iff a publish of it succeeded, and retry_count is the number of the others. |
| `Outbox.DrainBound` | services/order-service/internal/worker/outbox_worker.go:58-93 | k flawless passes leave max(0, n - k * limit) rows: the outbox is empty exactly from pass ceil(n / limit) on. |
| `Outbox.DrainOrder` | services/order-service/internal/adapter/repository/outbox_repository_pg.go:36-60 | Those passes publish each row once, oldest first, and never one while an older one waits. |
| `Outbox.DrainPublishes` | services/order-service/internal/worker/outbox_worker.go:65-92 | What the worker's own passes log is exactly that sequence. |
| `Outbox.HeadOfLineExact` | services/order-service/internal/adapter/repository/outbox_repository_pg.go:36-43 | Over every run of passes in which the head rows keep failing, the younger rows have drained iff the failing ones are fewer than the batch size and passes * (limit - failing) >= younger; with a full batch of them nothing else is ever published or marked. |
| `Outbox.StarvationReachable` | services/order-service/internal/worker/outbox_worker.go:58-93 | Two inserted rows, a batch size of one and an older row that keeps failing meet those conditions for any number of passes. |
| `OutboxPublisher.RefinesOutbox` | services/order-service/internal/worker/outbox_worker.go:65-92 | A run of the worker over the real publisher, restarts included, is a run of the outbox in which every reported success was routed. |
| `OutboxPublisher.CallIsSound` | services/order-service/internal/adapter/messaging/rabbitmq_publisher.go:69-94 | A nil from Publish means the message is in a queue, so the row may be marked. |
| `OutboxPublisher.WorkerNeverLies` | services/inventory-service/internal/worker/outbox_worker.go:58-93 | Over the real publisher a processed row has been routed with its stored payload, and retry_count never exceeds the failed publishes. |
| `Orders.NewOrder` | services/order-service/internal/domain/order.go:35-60 | Each item is stamped in place with its id, order and price times quantity; the order is PENDING with the sum of those. |
| `Orders.TotalNonNegative` | services/order-service/migrations/001_create_order_tables.sql:5-21 | A validated order cannot violate the non-negative checks on its amounts. |
| `Orders.TotalIsPrice` | services/order-service/internal/domain/order.go:42-50 | The accumulated total is the sum of price times quantity over the lines the customer sent. |
| `Orders.PriceSplits` | services/order-service/internal/domain/order.go:42-50 | The price of an order is the sum of the prices of its parts, however it is split. |
| `Orders.OrderService.CreateOrder` | services/order-service/internal/service/order_service.go:23-70 | Without a database error an order is created iff its input is valid, its id is new and its quantities and names fit their columns; it matches the input, total included, and appears together with the one request, for the input's products and quantities line by line, or not at all. |
| `Orders.OrderService.ConfirmOrder` | services/order-service/internal/adapter/repository/order_repository_pg.go:87-96 | A pending order becomes CONFIRMED; no matching row is no error and no change; nothing but a status changes. |
| `Orders.OrderService.RejectOrder` | services/order-service/internal/adapter/repository/order_repository_pg.go:98-107 | A pending order becomes FAILED; no matching row is no error and no change; nothing but a status changes. |
| `Orders.OrderService.HandleConfirmOrder` | services/order-service/internal/service/order_service.go:72-86 | Check, update, record, cut off wherever the result says: success has set a pending order CONFIRMED and recorded the message, a recorded message changes nothing, and of the orders only statuses change. |
| `Orders.OrderService.HandleRejectOrder` | services/order-service/internal/service/order_service.go:88-102 | The same for the failing outcome. |
| `Orders.TerminalStays` | services/order-service/internal/adapter/repository/order_repository_pg.go:87-107 | Under any replay of any verdicts with any cuts a terminal status stays. |
| `Orders.HandlingTruthfulExact` | services/order-service/internal/service/order_service.go:72-102 | An uninterrupted handling leaves a truthful inbox row iff the order exists and has not gone the other way. |
| `Orders.RecordedIsAcknowledged` | services/order-service/internal/service/order_service.go:72-102 | A recorded message is acknowledged and changes nothing. |
| `Orders.SuccessIsUncut` | services/order-service/internal/service/order_service.go:72-102 | A message that is not recorded is acknowledged iff nothing cut its handling short. |
| `Orders.ReplayTruthful` | services/order-service/internal/adapter/repository/inbox_message_repository_pg.go:34-61 | For any replay of non-contradicting verdicts an inbox row implies its order's outcome. |
| `Orders.ReplayEqualsEachOnce` | services/order-service/internal/service/order_service.go:72-102 | A run of many messages, repeated and cut in any way, leaves the ledger of handling each once, in any order, iff all its messages are recorded. |
| `Orders.ReplayEqualsOneHandling` | services/order-service/internal/adapter/repository/inbox_message_repository_pg.go:34-61 | Once recorded, a message has left what one uninterrupted handling leaves. |
| `Orders.CutThenRedelivered` | services/order-service/internal/service/order_service.go:72-102 | After any cuts of one message, one more handling gives the whole state of a single handling. |
| `OutcomeConsumer.HandleMessage` | services/order-service/internal/adapter/messaging/stock_reserved_consumer.go:133-196 | Malformed deliveries are dead-lettered untried with their reason, failed ones retried or dead-lettered by the policy, and only recorded ones acknowledged; the confirming consumer turns a pending order CONFIRMED, the other FAILED, and no other order changes. |
| `OutcomeConsumer.AnswersUnanimous` | services/order-service/internal/service/order_service.go:72-102 | In every reachable state of the saga the answers satisfy what idempotent handling assumes. |
| `OutcomeConsumer.StepsAreOneHandling` | services/order-service/internal/service/order_service.go:72-102 | The saga's three steps of a delivery equal one uninterrupted handling by the service. |
| `OutcomeConsumer.FailureMatchesPolicy` | services/order-service/internal/adapter/messaging/retry_policy.go:107-133 | The saga's failure step takes the policy's decision and counter. |
| `SagaRetry.RefinesPolicy` | services/order-service/internal/adapter/messaging/retry_policy.go:55-184 | Every run of the saga is, for each outcome consumer, a run of the retry policy whose queues then hold exactly the saga's copies, each with its outcome and counter. |
| `SagaRetry.CopiesCarryTheirRow` | services/order-service/internal/adapter/messaging/retry_policy.go:107-133 | So in every run of the saga each copy that is not gone carries its row's body and foreign headers and has passed the retry queue attempt - 1 times. |
| `OutcomeConsumer.RoutedToItsHandler` | services/inventory-service/internal/adapter/messaging/rabbitmq_publisher.go:96-105 | Every stored outcome has a route, and it leads to the consumer that sets the status the outcome stands for. |
| `OutcomeConsumer.OutcomeReachesItsOrder` | services/order-service/internal/adapter/messaging/stock_not_reserved_consumer.go:133-192 | An outcome, written, routed and handled by the consumer its key is bound to, leaves its pending order CONFIRMED if stock was reserved and FAILED if not, and every other order alone. |
| `OutcomeConsumer.CreateOrderIsCreate` | services/order-service/internal/service/order_service.go:23-70 | A created order is an enabled Create step of the saga, with the lines the customer sent. |
| `CatalogWrite.ProductService.CreateProduct` | services/catalog-write-service/internal/service/product_service.go:21-58 | A product and its one event are written together; a blank name or negative price is refused and changes nothing. |
| `CatalogWrite.TrimExact` | services/catalog-write-service/internal/domain/product.go:28-35 | Trimming empties exactly the blank names and leaves no space at either end. |
| `CatalogWrite.TrimIsSlice` | services/catalog-write-service/internal/domain/product.go:28-35 | What is left of a name is the slice of it from its first character that is no space to its last. |
| `CatalogRead.CacheCoherent` | services/catalog-read-service/internal/features/products/handling_product_created/handler.go:27-50 | Over every run of non-overlapping handlers cut anywhere: no cached list, or Mongo's list, or a stored event still to be redelivered. |
| `CatalogRead.ServedCoherent` | services/catalog-read-service/internal/features/products/getting_products/handler.go:18-38 | In every such run a list that is served is Mongo's, or a stored event is still to be redelivered. |
| `CatalogRead.FreshEventExact` | services/catalog-read-service/internal/features/products/handling_product_created/handler.go:27-50 | A new event is acknowledged iff nothing cut its handling, and is then in Mongo, recorded, with no list cached; recorded means all of that happened. |
| `CatalogRead.RecordedIsAcknowledged` | services/catalog-read-service/internal/features/products/handling_product_created/handler.go:28-34 | A recorded event is acknowledged and changes nothing. |
| `CatalogRead.CatalogReadStore.ProductCreated` | services/catalog-read-service/internal/features/products/handling_product_created/handler.go:27-50 | Inbox check, upsert, cache delete, record, cut off wherever the result says; success on a new event has stored it, emptied the cache and recorded it. |
| `CatalogRead.CatalogReadStore.GetProducts` | services/catalog-read-service/internal/features/products/getting_products/handler.go:18-38 | Without an error the cached list, the empty one included, is returned and stays; on a miss a list of exactly Mongo's products is returned and is then the cached one; an error leaves the cache or fills it with such a list. |
| `CatalogRead.CatalogReadStore.FindAll` | services/catalog-read-service/internal/adapter/repository/product_repository_mongo.go:50-76 | The list holds every product of the collection once and nothing else. |
| `CatalogRead.CatalogReadStore.Upsert` | services/catalog-read-service/internal/adapter/repository/product_repository_mongo.go:31-48 | Replaces or inserts the document with the product's id. |
| `CatalogRead.ConsumeProductCreated` | services/catalog-read-service/internal/adapter/messaging/product_created_consumer.go:113-159 | Malformed bodies are dropped, and only recorded events acknowledged. |
| `CatalogRead.SearchIndex.Consume` | services/catalog-read-service/internal/adapter/messaging/product_search_index_consumer.go:104-144 | Every acknowledged delivery has written its document under the product id. |
| `CatalogRead.ProjectionsConverge` | services/catalog-read-service/internal/adapter/repository/product_search_repository_elasticsearch.go:47-83 | Once each consumer has handled each event, in any order and number, Mongo and the index are the same map: the catalog of the events. |
| `CatalogRead.ReadSideMirrorsWriteSide` | services/catalog-write-service/internal/service/product_service.go:21-56 | Once each consumer has handled each stored event, both projections are the write service's own products table. |
| `CatalogRead.ConvergenceExact` | services/catalog-read-service/internal/features/products/indexing_product/handler.go:17-23 | They agree after every complete delivery iff no product id has two different products. |
| `CatalogRead.StalenessBounded` | services/catalog-read-service/internal/adapter/repository/product_cache_repository_redis.go:21-56 | With overlapping handlers every served list was exactly Mongo's contents no longer ago than the time to live plus the fill's gap. |
| `CatalogRead.StalenessReached` | services/catalog-read-service/internal/features/products/getting_products/handler.go:28-37 | The bound is reached: for every gap a fill that overlaps an invalidation serves an outdated list to its last moment. |
| `CatalogRead.InvalidationForgets` | services/catalog-read-service/internal/adapter/repository/product_cache_repository_redis.go:54-56 | After an invalidation every list served was read since, unless by a fill that was pending then; with none pending, nothing older is ever served. |
| `CatalogRead.GetIsMoves` | services/catalog-read-service/internal/features/products/getting_products/handler.go:18-38 | The timed moves are the handler's: every call is a few of them, leaves the same cache, and the list it returns is the one they serve. |
| `CatalogRead.CreatedIsMoves` | services/catalog-read-service/internal/features/products/handling_product_created/handler.go:27-50 | So is the handling of a product event, as far as it gets. |

## Left out

- RabbitMQ, Postgres, Mongo, Redis and Elasticsearch clients, and JSON and UUID text: replaced by abstract stores and payload records.
- Application wiring, health servers, configuration, logging, metrics, the API gateway, generated code and the notification service.
- Amounts: prices are reals, so NUMERIC(12,2) rounding is not modelled, and an amount over its upper bound counts as a database error.
- Validation details: zero UUIDs in an order's input are not told apart from others.
- GetOrder, GetOrders and product search: reads with no protocol of their own.
- The catalog-write outbox worker and publisher: copies of the modelled ones.
- Deadlocks and lock timeouts between reservation transactions: covered by the abort that any transaction may take at any step.
- Publisher shutdown: a closed channel counts as a refused confirmation.
- CatalogRead.CacheCoherent: is about handlers that do not overlap; overlapping ones have the staleness bound instead.
