# Order and inventory system: verified model

This project models the concurrent core of the order and inventory services in Dafny and proves what the code keeps
over whole runs: reserving and releasing stock under optimistic locking with a stale-able cache in front, the
transactional outbox with competing publishers, order creation and status changes, the retrying Kafka consumer, the
WebSocket hub, and the Kafka header carrier. `dafny verify dfyconfig.toml` checks everything.

## How it is built

Where several goroutines or processes meet in the database, in Redis or at a mutex, the model is a state machine. A
state holds the shared tables and, for every call ever begun, the point the call has reached; a step is one statement,
commit, Redis call or lock-protected action of one call. A run is any sequence of enabled steps, so every interleaving,
every crash and every failure is a run, and the theorems are about every state of every run.

- `InventoryDb` holds the tables and SQL statements, `ReservationProtocol` the three inventory programs as
  interleaving steps, `ReservationSnapshots` what a possibly stale snapshot is worth, `ReservationBooks` conservation
  of reserved stock and the movement ledger, `ReservationWitnesses` concrete runs that need an assumption.
- `InventoryService` is the use case as a class whose methods change its tables. Each method is shown to take exactly
  steps of `ReservationProtocol` (its ghost state `now` stays reachable), so the run theorems hold of its tables.
- `InventoryCache` is the read-through cache with its key families and invalidation, as a class over the repository;
  `Uuid` is how PostgreSQL reads an id.
- `Outbox`, `OutboxProofs`, `OutboxTheorems` are the outbox table with any number of publishers, `OutboxOrder` the order
  in which events are handed over, `OutboxWitnesses` runs in which it is lost; `OutboxPublisher` is one publisher as a
  class, again shown to take steps of the protocol.
- `OrderProtocol`, `OrderProofs`, `OrderTheorems`, `OrderWitnesses`, `OrderService` do the same for CreateOrder,
  CancelOrder and ConfirmOrder. The statements of an open transaction write into a buffer of their call, a commit
  publishes the buffer and giving up drops it. The outbox machine is embedded, so publishers interleave with order calls.
- `RetryingConsumer`, `TraceHeaders`, `Hub`, `HubProtocol`, `HubTheorems`, `HubDelivery` cover the rest.

Conventions shared by all of it:

- A statement that fails without effect is the step GiveUp (or Abandon) taken before it. A statement that takes effect
  but whose acknowledgement is lost is the statement's step followed by GiveUp. A crash is GiveUp. In the classes the
  same answers are parameters of the call.
- A fresh UUID is the position of a row in its table, or the number of the call that creates it.
- The database reads ids as UUIDs, for which it accepts several texts, while cache keys hold the text as the caller
  spells it. Rows are keyed by canonical ids and cache entries by spellings, in the machines and in the classes.
- The creation time of an event is a parameter. RFC 3339 text has a resolution of one second, so times can tie.

## Where code and documentation disagree

The model follows the code.

- docs/consistency_and_transaction.md:92-94 describes each inventory operation as one transaction. In the code the
  counter and the reservation status are written on the plain connection (inventory_repo.go:113, 137, 248) while a
  transaction is open for the inserts, so each write is a step of its own here.
- docs/architecture_decision_record.md:206 says that CLAIMED events are claimed again after a crash. No code does
  this, so the hand-over proved here is at most once, and the events a crash leaves CLAIMED are the `orphans`.
- The result of the movement insert is ignored (usecase/inventory.go:118, 165) as if a movement were optional, but a
  failed insert aborts the transaction, so the commit that follows fails and the reservation is not there either.
- migrations/init.sql:133 makes `order_item_id` mandatory while ReserveStock never sets it, so on that schema the
  reservation insert fails; such a call is a run that gives up between the counter and the commit, which leaves its
  quantity `stranded`.

## What the code does not keep

Where a promise fails, a concrete run shows it and the exact condition is proved.

- Two releases that have both found one reservation reserved both lower the counter
  (`OverlappingReleasesGiveBackTwice`). Reserved stock is conserved if and only if no counter is lowered after a status
  write that came too late (`ConservedIff`).
- When the second of them misses the counter it still records its movement, so the ledger is off although nothing
  failed (`CompletedReleasesUnbalanceLedger`). It balances if and only if no counter update missed
  (`LedgerBalancesIff`).
- The bound 0 <= quantity_reserved <= quantity_on_hand is left by a stock change that undercuts what is reserved
  (`StockChangeUndercuts`) and by creating a row with a negative quantity (`NegativeRowCreated`), and by nothing else
  (`NeverOversoldIff`).
- An invalidation deletes the keys in the writer's spelling of the ids only, so an entry under another spelling stays
  stale (`StaleUnderAnotherSpelling`); `Perform` has the exact condition.
- A cancelled order can be confirmed, from a stale cached order (`StaleCacheRevivesOrder`) or by a call that overlaps
  the cancellation (`OverlappingChangesReviveOrder`). Event logs stay legal if and only if no change commits on a status
  that has moved (`LogsLegalIff`).
- Events of one order can be published newest first, when their times tie (`TiesCanSwap`) or when a publisher claims the
  newer while another has the older still to hand over (`TwoPublishersCanSwap`). A claim leaps if it takes an event
  while an older one of its order can still be handed over and is not ahead of it in the claim. Given distinct creation
  times within an order, all that is claimed can only be handed over in order if and only if no claim of the run leaps
  (`OrderSafeIff`).
- A client that registers again after its channel was closed makes the hub panic (`SecondRegistrationPanics`);
  `OpenIffNoneReadded` has the exact condition.

## Model

| member | source | states |
|---|---|---|
| ReservationSnapshots.SameVersionIsSafe | internal/inventory/adapter/postgres/inventory_repo.go:80-139 | over any run and any two moments, a row's version never falls, and within one version on-hand stock is equal and no more is reserved later, although release does not bump the version |
| ReservationSnapshots.ConflictIsTruthful | internal/inventory/usecase/inventory.go:66-88 | a reserve whose snapshot, fresh or stale, passed the available check matches no row exactly when the version moved since the snapshot |
| ReservationSnapshots.SnapshotsArePast | internal/inventory/adapter/cache/inventory_repo.go:37-51 | every cache entry and every snapshot a call holds is a committed past content of its own row, under failing Redis calls and expiry |
| ReservationSnapshots.NeverOversoldIff | internal/inventory/usecase/inventory.go:52-241 | a row stays within bounds throughout a run if and only if no stock change of the run undercuts it |
| ReservationWitnesses.StockChangeUndercuts | internal/inventory/adapter/postgres/inventory_repo.go:80-103 | a run in which a stock change leaves nothing on hand with one unit reserved |
| ReservationWitnesses.NegativeRowCreated | internal/inventory/usecase/inventory.go:185-198 | a run in which a row is created with minus one on hand |
| ReservationBooks.Conservation | internal/inventory/usecase/inventory.go:75-238 | unconditionally, counter = live reservations + reserves in flight + releases in flight + stranded - given back twice; stock and counter equal the movement sums up to the gaps of unfinished or failed calls |
| ReservationBooks.ReservedStockIsConserved | internal/inventory/usecase/inventory.go:75-172 | without overlapping releases the counter is exactly live + reserving + releasing + stranded, hence never below the live reservations |
| ReservationBooks.ReleaseNeverSkipped | internal/inventory/adapter/postgres/inventory_repo.go:130-139 | in such runs the unchecked guard quantity_reserved >= $1 always matches |
| ReservationBooks.UnpaidReleaseIffOvertaken | internal/inventory/usecase/inventory.go:128-147 | a status write changes nothing if and only if another call wrote the status of the same reservation between the step by which this call found it reserved and this write |
| ReservationBooks.LedgerBalancesIff | internal/inventory/usecase/inventory.go:106-238 | once every call of a run has completed and nothing failed, the movements of a row sum to its stock on hand, to minus its reserved quantity and to what is available if and only if no release of the run missed the row with its counter update |
| ReservationBooks.LedgerBalances | internal/inventory/usecase/inventory.go:106-238 | so they balance for every row when no two releases of one reservation overlapped, and the counter is then the live reservations |
| ReservationBooks.ConservedIff | internal/inventory/usecase/inventory.go:133-152 | the identity holds for all rows throughout a run if and only if no call lowers a counter after a status write that found the reservation already released |
| ReservationWitnesses.OverlappingReleasesGiveBackTwice | internal/inventory/usecase/inventory.go:133-149 | a run in which two overlapping releases bring the counter to zero while a reservation is live |
| ReservationWitnesses.CompletedReleasesUnbalanceLedger | internal/inventory/usecase/inventory.go:149-167 | a run in which nothing fails and two overlapping releases of the only reservation leave movements that sum to six with five available |
| InventoryService.Service.Find | internal/inventory/adapter/cache/inventory_repo.go:37-51 | a hit answers with the entry in the caller's spelling, else the row, absence or failure of the database; a row found in the table is stored when Redis takes it |
| InventoryService.Service.ReserveQuantity | internal/inventory/adapter/postgres/inventory_repo.go:105-128 | success exactly when acknowledged and the WHERE clause matched, conflict exactly when acknowledged and it did not |
| InventoryService.Service.ReserveStock | internal/inventory/usecase/inventory.go:52-125 | for every input, fresh or stale, exactly which answer: invalid quantity, not found, insufficient stock, conflict, success, else a database error; exactly how far counter, version, reservation and movement got; exactly what is cached, with the entry gone after a deletion that succeeds |
| InventoryService.Service.FreshIsCountable | internal/inventory/usecase/inventory.go:66-88 | over a fresh cache and a reachable database a reserve goes through to the counter if and only if the quantity is positive and available |
| InventoryService.Service.ReleaseReservation | internal/inventory/usecase/inventory.go:127-172 | for every combination of answers the result, how far status, counter and movement got, and what is cached; without the movement the commit fails |
| InventoryService.Service.UpdateStock | internal/inventory/usecase/inventory.go:174-241 | for every input the answer, the row, which movement is recorded, and what is cached: the change is added under a new version or is the whole of a new row, and a conflict is exactly a version that moved |
| InventoryService.Service.FreshIsCurrent | internal/inventory/usecase/inventory.go:184-220 | over a fresh cache and a reachable database no stock change is in conflict |
| InventoryService.Service.TablesAreSound | internal/inventory/usecase/inventory.go:52-241 | the run theorems applied to the tables of a service: no negative counter, and cached rows of a current version are safe |
| InventoryService.Service.BooksAreBalanced | internal/inventory/usecase/inventory.go:75-172 | the counter of each row of a service is the live reservations and what unfinished or failed calls owe it |
| InventoryCache.SplitUnique | internal/inventory/adapter/cache/inventory_repo.go:122-124 | colon-free ids can be read back from their joining |
| InventoryCache.StockKeysCollideIff | internal/inventory/adapter/cache/inventory_repo.go:122-124 | two stock keys coincide exactly when the joined ids do |
| InventoryCache.StockMeetsProductIff | internal/inventory/adapter/cache/inventory_repo.go:122-128 | a stock key is also a product key exactly for a product id spelling the rest of it, which has colons |
| InventoryCache.KeysDetermineNames | internal/inventory/adapter/cache/inventory_repo.go:122-132 | the three key families are injective and pairwise disjoint on ids the database accepts, in any spelling, also against names it rejects, up to the one collision |
| Uuid.IdsAreColonFree | migrations/init.sql:114-116 | no text that the database reads as an id has a colon in it |
| Uuid.UppersSameId | migrations/init.sql:114-116 | a text and its upper-case form are one id, or neither is an id |
| Uuid.TwoSpellings | migrations/init.sql:114-116 | an id whose upper-case form is another spelling of it |
| Uuid.HyphensSameId | migrations/init.sql:114-116 | an id in the form 8-4-4-4-12 is the id of its 32 digits |
| Uuid.BracesSameId | migrations/init.sql:114-116 | braces around a text do not change its id |
| InventoryCache.FullKeyInjective | pkg/cache/cache.go:34-36 | the common prefix keeps distinct keys distinct |
| InventoryCache.KeysSpelled | internal/inventory/adapter/cache/inventory_repo.go:122-132 | the three keys as Redis sees them, under the shared prefix |
| InventoryCache.WriteTouchesOnly | internal/inventory/adapter/cache/inventory_repo.go:69-100 | a write changes no answer except for spellings of the product and of the pair it is about |
| InventoryCache.WriteChangesIff | internal/inventory/adapter/cache/inventory_repo.go:69-100 | a write changes the answer for a name if and only if it changes its row and the name is a spelling of the product or of the pair |
| InventoryCache.CachedRepository.HitIsInner | internal/inventory/adapter/cache/inventory_repo.go:37-67 | a hit on a coherent cache is the inner repository's answer, for any ids |
| InventoryCache.CachedRepository.Read | internal/inventory/adapter/cache/inventory_repo.go:37-67 | the exact store, and on a coherent cache the tables' own answer whichever Redis calls fail: the stored quantities of the row, exactly the rows of the product with theirs, the id registered for the code, not found, or a failure for an id the database rejects |
| InventoryCache.CachedRepository.Delete | pkg/cache/cache.go:91-111 | exactly the prefixed keys go, or none when Redis fails |
| InventoryCache.CachedRepository.Perform | internal/inventory/adapter/cache/inventory_repo.go:69-100 | exactly which writes are accepted and what row each leaves; after a write that changed a row the cache is coherent if and only if no entry for any spelling of the affected names is left |
| InventoryCache.WriteThenRead | internal/inventory/adapter/cache/inventory_repo.go:22-67 | reads after an accepted write find what it left: a created quantity with nothing reserved at version zero, the counter raised or lowered, the stock changed, and the same row in the product's list |
| InventoryCache.CachedRepository.Expire | pkg/cache/cache.go:84-88 | an expiring entry leaves a coherent cache coherent |
| InventoryCache.NothingLeftStale | internal/inventory/adapter/cache/inventory_repo.go:69-100 | with one spelling per id an invalidation that goes through leaves nothing stale |
| InventoryCache.Serve | internal/inventory/adapter/cache/inventory_repo.go:22-116 | over every sequence of calls that spell each id in one way and whose invalidations succeed, callers see exactly what they would see without a cache |
| InventoryCache.StaleUnderAnotherSpelling | internal/inventory/adapter/httpd/handler.go:31-71 | a product list read under one spelling of an id is answered stale after a stock change under another, with no call failing |
| InventoryCache.StaleUnderUpperCase | internal/inventory/adapter/httpd/handler.go:31-71 | the same for a concrete id and its upper-case form |
| OutboxTheorems.ClaimsAreExclusive | internal/order/adapter/postgres/order_repo.go:342-394 | any number of publishers: an event is in at most one committed batch, once, in one publisher's hands, and handed to the writer at most once |
| OutboxTheorems.StatusesTellTheTruth | internal/order/adapter/kafka/outbox_publisher.go:93-114 | PENDING: never handed over; PUBLISHED: accepted; FAILED: refused; CLAIMED: either with a live publisher or orphaned, never both |
| OutboxTheorems.OrphansAreExplained | internal/order/adapter/kafka/outbox_publisher.go:99-113 | an event is orphaned only by its publisher stopping after the claim or by a failed mark |
| OutboxTheorems.StatusesMoveForward | internal/order/adapter/postgres/order_repo.go:371-406 | between any two moments a status only moves PENDING, CLAIMED, PUBLISHED or FAILED, and nothing else of the event changes |
| OutboxOrder.PublishedInOrder | internal/order/adapter/postgres/order_repo.go:349-393 | any number of publishers, any failures, any times: if no claim of the run leaps over a waiting event, then of two events of an order both handed over the older went first, within and across batches |
| OutboxOrder.LeapCanSwap | internal/order/adapter/kafka/outbox_publisher.go:93-114 | after a claim that leaps, with distinct creation times, the publishers can hand a newer event of an order over first without another claim |
| OutboxOrder.ClaimIsSafeIff | internal/order/adapter/postgres/order_repo.go:349-393 | the exact condition on a claim: from a state in order, every continuation without another claim keeps the order if and only if the claim does not leap |
| OutboxOrder.OrderSafeIff | internal/order/adapter/postgres/order_repo.go:349-393 | the exact condition on a run: from every state of it all that is claimed can only be handed over in order if and only if no claim of the run leaps |
| OutboxOrder.LeapBringsTogether | internal/order/adapter/postgres/order_repo.go:349-393 | a claim leaps only if after it two publishers have events of one order to hand over |
| OutboxOrder.LoneClaimNeverLeaps | internal/order/adapter/kafka/outbox_publisher.go:68-117 | one publisher: a claim made while nobody has anything left to hand over does not leap |
| OutboxOrder.PublishedInOrderApart | internal/order/adapter/kafka/outbox_publisher.go:68-117 | one publisher at work at a time, or several that never have events of one order to hand over at once, with strictly increasing creation times per order: the older event goes first |
| OutboxWitnesses.TwoPublishersCanSwap | internal/order/adapter/postgres/order_repo.go:349-355 | a run in which a claim leaps over a row that another publisher has locked and the newer event is handed over first, although the times differ |
| OutboxWitnesses.TiesCanSwap | internal/order/usecase/create_order.go:105 | a run in which a claim leaps over an event that comes later in it, of the same one-second creation time, and the newer event is handed over first |
| OutboxPublisher.PendingListed | internal/order/adapter/postgres/order_repo.go:349-355 | the ordered listing holds each PENDING event exactly once |
| OutboxPublisher.BatchIsOldest | internal/order/adapter/postgres/order_repo.go:349-355 | a batch has min(limit, pending) distinct PENDING events by time, and nothing older is left out |
| OutboxPublisher.Publisher.ClaimBatch | internal/order/adapter/postgres/order_repo.go:342-394 | an acknowledged claim returns the batch and marks exactly it CLAIMED; a lost one marks it and returns nothing |
| OutboxPublisher.Publisher.PublishNext | internal/order/adapter/kafka/outbox_publisher.go:94-113 | one hand-over, then the mark that the writer's answer calls for, or none when marking fails |
| OutboxPublisher.Publisher.PublishBatch | internal/order/adapter/kafka/outbox_publisher.go:81-117 | exactly the batch is handed over in order whatever the writer says; each row ends as writer and mark decide, all others stay; without an acknowledged claim nothing is handed over and the rows are as the claim left them |
| OutboxPublisher.TickDrains | internal/order/adapter/kafka/outbox_publisher.go:81-117 | one healthy tick takes min(limit, pending) events off the backlog and touches nothing else |
| OutboxPublisher.Publisher.Run | internal/order/adapter/kafka/outbox_publisher.go:59-79 | after k healthy ticks exactly max(0, n - k * limit) events are PENDING, the others PUBLISHED or FAILED as the writer said |
| OutboxPublisher.BacklogEmptiesInTime | internal/order/adapter/kafka/outbox_publisher.go:59-79 | the backlog is empty after k ticks if and only if k >= ceil(n / limit) |
| OrderProofs.CommitPublishes | internal/order/usecase/create_order.go:115-129 | the buffer that the statements of a transaction filled one by one holds the whole order with one row per item and one event, or the status with its event, so that is what the commit publishes |
| OrderTheorems.CreationIsAtomic | internal/order/usecase/create_order.go:73-131 | an order exists exactly when its call committed, with one item row per requested item in order and one order.created event, and no item or event exists without its order, whatever was in the buffers of calls that gave up |
| OrderTheorems.CreatedOnce | internal/order/usecase/create_order.go:98-125 | an order has exactly one order.created event |
| OrderTheorems.IdempotentUnderRaces | internal/order/usecase/create_order.go:42-49 | however calls interleave and even when the lookup fails, at most one order and one order.created event per idempotency key |
| OrderTheorems.MessagesStemFromOrders | internal/order/adapter/kafka/outbox_publisher.go:134-147 | every message handed to the writer is in the event log of a committed order |
| OrderTheorems.StatusIsFold | internal/order/usecase/create_order.go:180-197 | in every interleaving the status of an order is what its event log, in the order of commits, says |
| OrderTheorems.StatusIsFoldByTime | internal/order/adapter/postgres/order_repo.go:295-316 | with strictly increasing creation times per order, the rows of the table sorted by them are that log and give the status |
| OrderTheorems.LegalStepIff | internal/order/usecase/create_order.go:153-248 | from legal logs a step leads to legal logs if and only if it does not commit on a status that has moved |
| OrderTheorems.LogsLegalIff | internal/order/usecase/create_order.go:153-248 | all logs stay created, then cancelled or confirmed at most once and never both, if and only if no change of the run commits on a status that moved |
| OrderTheorems.RowHeldUntilCommit | internal/order/usecase/create_order.go:187-195 | while a call that has updated an order is open nobody else changes the order's status |
| OrderTheorems.CommitsCurrentIffUpdateFindsSeen | internal/order/usecase/create_order.go:187-195 | a change commits on the status it read if and only if its update finds that status |
| OrderTheorems.EventLogDeterminesState | internal/order/usecase/create_order.go:153-248 | for calls one at a time on the uncached repository, failing anywhere, each log is legal and determines the status |
| OrderTheorems.DecidedIsFinal | internal/order/usecase/create_order.go:153-248 | a decided status stays while every change of the run commits on the status it read |
| OrderTheorems.DecidedIsFinalUncached | internal/order/usecase/create_order.go:153-248 | so it stays for calls one at a time on the uncached repository |
| OrderWitnesses.StaleCacheRevivesOrder | internal/order/adapter/cache/order_repo.go:60-62 | a run of calls one at a time in which a cancelled order is confirmed from a stale cache entry |
| OrderWitnesses.OverlappingChangesReviveOrder | internal/order/usecase/create_order.go:202-248 | a run of two overlapping calls that read past the cache in which a cancelled order is confirmed |
| OrderService.Service.Validate | internal/order/usecase/create_order.go:32-40 | accepts exactly non-empty lists of positive quantities, with the right refusal |
| OrderService.Service.InsertItems | internal/order/adapter/postgres/order_repo.go:226-242 | the transaction holds the item rows in order, or the call stops at the one that fails |
| OrderService.Service.CommitTx | internal/order/usecase/create_order.go:127-129 | the tables gain exactly what the transaction wrote |
| OrderService.Service.CreateOrder | internal/order/usecase/create_order.go:31-132 | for every input exactly which answer, with the existing order for a key that is found taken, and the tables: the whole order if and only if the items are acceptable, the key is new and every statement and the commit take effect |
| OrderService.Service.ChangeStatus | internal/order/usecase/create_order.go:153-248 | for every input, cached or not, the answer, the tables and the cache: status and event are written together if and only if the order is found, the status seen permits the change and every statement and the commit take effect |
| RetryingConsumer.Consumer.constructor | pkg/kafka/consumer.go:60-62 | a positive limit is kept and any other becomes three |
| RetryingConsumer.Consumer.HandleOrderCreated | internal/inventory/adapter/kafka/order_event_handler.go:123-158 | success exactly when every item can be reserved, and then the items were, in order; otherwise those before the first that cannot, in order, and one notice that names it; no effect for a message that cannot be decoded |
| RetryingConsumer.Consumer.HandleWithRetry | pkg/kafka/consumer.go:148-179 | 1 to MaxRetries + 1 attempts, each but the last failed and no wait between them cancelled; handled exactly when the last succeeds, given up exactly after all of them, cancelled by the first cancellation |
| RetryingConsumer.ReservationsDecline | internal/inventory/adapter/kafka/order_event_handler.go:129-151 | successful reserves do not increase along the item list and are bounded by the attempts |
| RetryingConsumer.HandledReservesAll | internal/inventory/adapter/kafka/order_event_handler.go:129-158 | on success every item was reserved at least once |
| RetryingConsumer.LastItemOnce | internal/inventory/adapter/kafka/order_event_handler.go:129-158 | the last item is reserved exactly once on success and never otherwise |
| RetryingConsumer.NoticesAreFailures | internal/inventory/adapter/kafka/order_event_handler.go:137-149 | failure notices equal the failed attempts |
| RetryingConsumer.NoticesNameFailures | internal/inventory/adapter/kafka/order_event_handler.go:137-149 | an item has a notice if and only if some attempt made failed first at it |
| RetryingConsumer.ReservesAreReached | internal/inventory/adapter/kafka/order_event_handler.go:129-144 | an item was reserved if and only if some attempt made could reserve it and all before it |
| RetryingConsumer.Consume | pkg/kafka/consumer.go:148-179 | all of this for the configured consumer, over every outcome, cancellation and item list |
| TraceHeaders.AssignValues | pkg/kafka/trace_headers.go:27-38 | on any list, duplicates included, a Set replaces the first value of its key and keeps all other values of all keys in order |
| TraceHeaders.AssignKeepsPlaces | pkg/kafka/trace_headers.go:27-38 | no header moves or goes; only the first of the key changes, and a missing key is added at the end |
| TraceHeaders.LastValueWins | pkg/kafka/trace_headers.go:18-38 | after any series of Sets, Get returns the last value set, or what was there before |
| TraceHeaders.RoutingSurvivesIff | internal/order/adapter/kafka/outbox_publisher.go:134-145 | the event type survives injection if and only if the last Set on "event_type", if any, writes the same type |
| TraceHeaders.EventLookups | internal/order/adapter/kafka/outbox_publisher.go:138-142 | type, id and correlation id are read back from a new message |
| TraceHeaders.Message.Get | pkg/kafka/trace_headers.go:18-25 | the first value under a key, or the empty string |
| TraceHeaders.Message.Set | pkg/kafka/trace_headers.go:27-38 | the list with the first occurrence overwritten or the header appended |
| TraceHeaders.Message.Keys | pkg/kafka/trace_headers.go:40-46 | one key per header, in order |
| TraceHeaders.Message.Inject | pkg/kafka/trace_headers.go:48-51 | the list after any series of Sets |
| TraceHeaders.Route | internal/inventory/adapter/kafka/order_event_handler.go:210-217 | from publishEvent through injection to getEventType the type arrives when the propagator leaves "event_type" alone, and so do the ids |
| Hub.Client.AddChannel | pkg/websocket/client.go:51-55 | exactly this subscription is added |
| Hub.Client.RemoveChannel | pkg/websocket/client.go:57-61 | exactly this subscription is removed |
| Hub.Client.Offer | pkg/websocket/hub.go:117-122 | the non-blocking send appends when there is room and reports a full queue otherwise |
| Hub.Registry.HandleRegister | pkg/websocket/hub.go:40-43 | exactly this client joins the map, which stays sound if and only if its channel is open |
| Hub.Registry.HandleUnregister | pkg/websocket/hub.go:49-55 | a client in the map leaves it and is closed, any other is left alone |
| Hub.Registry.BroadcastToChannel | pkg/websocket/hub.go:105-125 | the message goes once to exactly the subscribed clients with room, exactly the full subscribed ones are scheduled, each once, nothing else changes, queues stay within 256 |
| Hub.Registry.DeliverToChannel | pkg/websocket/hub.go:105-130 | with its unregistrations handled, exactly the full subscribers are dropped and closed |
| Hub.Registry.HandleBroadcast | pkg/websocket/hub.go:62-83 | every client with room gets the message, exactly the others are closed and dropped |
| HubTheorems.OpenIffNoneReadded | pkg/websocket/hub.go:37-86 | clients in the map have open channels throughout a run if and only if none is added after its channel was closed; then nothing panics and no channel is closed twice |
| HubTheorems.RegisteringOnceIsSafe | internal/websocket/handler.go:49-57 | when each client registers at most once every state of every run is safe |
| HubTheorems.NoChannelLeaks | pkg/websocket/hub.go:40-55 | a client that entered the map is still in it or has had its channel closed |
| HubTheorems.SecondRegistrationPanics | pkg/websocket/hub.go:49-55 | registering a closed client again makes its next unregistration panic |
| HubTheorems.QueuesAreBounded | pkg/websocket/client.go:34 | no queue ever exceeds 256 entries |
| HubTheorems.EachClientVisitedOnce | pkg/websocket/hub.go:114-125 | however calls interleave, a broadcast looks at each client in the map at its start exactly once and at no other |
| HubTheorems.VisitDelivers | pkg/websocket/hub.go:115-123 | in a safe run a visit appends the message once to the queue of a subscribed client with room, puts a full subscribed one on the call's list, and changes nothing else |
| HubTheorems.BroadcastDeliversOnce | pkg/websocket/hub.go:105-125 | in every safe interleaving a call that has gone through the clients appended its message once to the queue of each client in the map at its start that was subscribed with room at its only visit, and to no other queue |
| HubDelivery.CallIsAsBegun | pkg/websocket/hub.go:105-118 | a call goes through the clients in the map at its start, with the channel and message it was given |
| HubDelivery.LoopVisitDelivers | pkg/websocket/hub.go:66-72 | a visit of the loop's broadcast appends its message once to a queue with room, subscribed or not, lists a client without, and changes nothing else |
| HubDelivery.LoopVisitsEachOnce | pkg/websocket/hub.go:65-73 | a broadcast of the loop visits each client in the map exactly once and no other |
| HubDelivery.BroadcastsAreFifo | pkg/websocket/hub.go:96-103 | the loop takes up every message for all clients once, in the order given |
| HubDelivery.QueuesAreFifo | pkg/websocket/client.go:96-112 | a client receives what was sent to it once and in order; what it has not received is its queue |
| HubDelivery.SubscribedIffLast | pkg/websocket/client.go:45-61 | a client is subscribed exactly when it subscribed and has not unsubscribed since |
| HubDelivery.SlowClientsAreDropped | pkg/websocket/hub.go:75-83 | a client that a broadcast has put aside stays on its way out until it is taken out of the map |
| HubTheorems.OnlySlowClientsAreDropped | pkg/websocket/hub.go:63-72 | in every interleaving, whoever a broadcast puts on a removal list had a full queue earlier in the run |
| HubTheorems.InternalRunsAreShort | pkg/websocket/hub.go:37-86 | the steps of the loop and of lock holders are bounded by a measure of the state |
| HubTheorems.LoopIsNeverStuck | pkg/websocket/hub.go:37-130 | outside its select the loop or a lock holder can always go on |
| HubTheorems.WaitersAreReceived | pkg/websocket/hub.go:127-129 | from every safe state steps of the loop and of lock holders bring the loop back to its select within a bound, with the receive of a waiting unregistration enabled; so nobody waits on the loop while holding the lock |
| HubTheorems.WaitersStayReady | pkg/websocket/hub.go:127-129 | until it is received, a waiting unregistration is a ready case at every select |

## Left out

- A property across services: the payload of order.created carries an item count where the consumer expects items, and
  a release is called with an order id where a reservation id is expected, so the parts do not connect.
- Kafka offset commits, redelivery, the dead-letter topic and the order.cancelled handler.
- The look-up of a warehouse code at the start of ReserveStock and UpdateStock: both get the resolved key; the cached
  look-up itself is in `InventoryCache`.
- GetStock, GetOrder with items, List, GetPending and the HTTP handlers: they read and convert.
- InventoryService.Service.ReleaseReservation: the spelling in its cache key is a parameter, where the code takes the
  text that the database returns.
- The product-list cache in the concurrent machine: no decision reads it; it is in `InventoryCache`.
- Money amounts: computed in floating point and not used by any decision.
- The range of INT and BIGINT columns: a value out of range makes the statement fail, which is a GiveUp.
- JSON encoding, UUID generation, TTL durations and clock readings: parameters, fresh numbers and arbitrary expiry.
- getTopicForEvent and the topic of a message.
- Sends outside the hub's lock (client.sendJSON), the connection gauge, GetStats and the pumps except for taking from a
  queue and unregistering.
- Hub: the classes state what one action does when nothing interferes; interleavings are in `HubProtocol`, where
  goroutines, channels and the read-write lock are steps and not objects.
- OutboxOrder.OrderSafeIff: the direction from a leap to a lost order assumes distinct creation times within an order.
  With a tie, an older event that a claim leaves out waits in the table, and only a further claim can hand it over.
- HubTheorems.WaitersAreReceived: the choice of a select among ready cases is not modelled, so that a ready receive is
  taken eventually is not stated; `WaitersStayReady` says that it stays ready.
- OrderTheorems.EventLogDeterminesState: is about calls made one at a time without the cache, as overlapping or stale
  calls break it (`OverlappingChangesReviveOrder`, `StaleCacheRevivesOrder`); `LogsLegalIff` gives the exact condition over all runs.
- ReservationBooks.ReservedStockIsConserved: assumes releases of one reservation do not overlap; `Conservation` is the
  unconditional identity with the amount given back twice, and `ConservedIff` the exact condition.
