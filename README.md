# Polyforge services: recommendation, inventory and orders in Dafny

This project models three back-end services of the Polyforge shop and proves
properties of the model.

**Recommendation service.** It keeps three things:

- an event log of user interactions (VIEW, CART_ADD, PURCHASE);
- a store of per-user recommendation lists, keyed by userId;
- a shared key-value cache, keyed by `prefix:user_recommendations:userId`.

The model covers:

- recording an interaction;
- the cache-aside read, with its `limit`;
- the save: store first, then cache;
- cache invalidation through a SCAN cursor loop;
- the bulk recompute;
- the trending list;
- the scoring pipeline shared by the recompute and the trending list:
  - group the events by product;
  - weigh them: 1/3/5 per user, 5/3/2 for trending;
  - apply a count factor of 1.0/1.2/1.5/2.0 at 10/50/100 events;
  - cap the score at 10;
  - sort by score, descending.

The HTTP handlers are modelled too:

- the `limit` rule;
- the validation of event payloads;
- how each handler wires the service calls together.

**Inventory service.** A table of items keyed by SKU, with soft delete
(`deletedAt`), plus an append-only transaction log. The model covers:

- the existence check;
- listing and reading items;
- create, update and delete.

Each change is one atomic transaction.

**Order service.** Orders and their item rows. The model covers:

- reads filtered by owner, where a falsy user id sees every order;
- creation: a PENDING order, plus one item row per requested item;
- cancellation: only by the owner, and only while PENDING.

Modules:

| file | module | contents |
|---|---|---|
| wrappers.dfy | Wrappers | `Option`, `Result` |
| seqs.dfy | Seqs | order-preserving `Filter` and its lemmas |
| models.dfy | Models | event types, `Event`, `ProductRecommendation`, `UserRecommendation` |
| scoring.dfy | Scoring | the aggregation pipeline as pure functions, and its lemmas |
| cache_keys.dfy | CacheKeys | cache keys, the invalidation pattern, glob matching |
| recommendation_service.dfy | Recommendation | class `RecommendationService` |
| handlers.dfy | Handlers | the HTTP handlers of the recommendation service |
| inventory.dfy | Inventory | class `InventoryService` |
| orders.dfy | Orders | class `OrderService` |

**How outside failures are modelled.** The Mongo, Redis and SQL clients are not
modelled. The failures of every call that changes state, and of every
recommendation-service read, become parameters of the operations that meet them:

- an `Option<Error>` for a single call;
- an `Option<string>` for an inventory transaction or an order commit;
- a function from page number to `Option<Error>` for each SCAN/DEL round;
- a function from userId to `Option<Error>` for the recompute's per-user steps.

The failure of a read-only inventory or order query is not modelled (see
"Left out").

The same goes for the clock (`now`) and for generated UUIDs (`newId`,
`itemIds`).

**An aborted recompute leaves the cache as it was.** The cache is cleared only
at the end of `ReCalculateUserRecommendations` (recommendation.go:280-283), after
every user has been written.

- When the distinct-userId query fails, the method returns before that point
  (recommendation.go:148-157).
- After a failing user, it also returns before that point
  (recommendation.go:262-277).
- So the cache can keep serving lists from before the recompute for users whose
  stored list was already rewritten. The model keeps this behaviour.

**Recorded user ids.** An event recorded with an empty userId is stored without
the `userId` field, because the field is `omitempty`
(models/user-activity.go:11). `Distinct("userId")` therefore never returns the
empty id, and the recompute never writes a list for it.

**Inventory: a soft-deleted SKU cannot be created again.** `getItemBySku`
looks an item up with `findUnique({ where: { sku } })`, so `sku` is a unique
column. A soft-deleted row keeps its SKU. The existence check lets a create
through for such a SKU, but the insert is then refused by the unique index and
the transaction rolls back. The model returns `SkuTaken` for this case.

## Model

Source paths are relative to the repository root.

| member | source | states |
|---|---|---|
| Scoring.Distinct | services/recommendation-service/internal/services/recommendation.go:147 | the distinct userIds (and $group keys): no duplicates, and exactly the values that occur |
| Scoring.LastInteraction | services/recommendation-service/internal/services/recommendation.go:165 | `$max` of the timestamps: at least every event's timestamp and equal to one of them |
| Scoring.StatsOfSeenProduct | services/recommendation-service/internal/services/recommendation.go:162-164 | a product that has an event is grouped with `count` of at least 1 |
| Scoring.CountIsSumOfTypes | services/recommendation-service/internal/services/recommendation.go:164-192 | when every event has a known type, `count` equals viewCount + cartAddCount + purchaseCount |
| Scoring.CountFactorTenths | services/recommendation-service/internal/services/recommendation.go:206-224 | the count factor is between 1.0 and 2.0 |
| Scoring.CountFactorMonotone | services/recommendation-service/internal/services/recommendation.go:206-224 | more events never give a lower count factor |
| Scoring.CountFactorBoundaries | services/recommendation-service/internal/services/recommendation.go:206-224 | the tiers switch at exactly 10, 50 and 100 events (`$gte`) |
| Scoring.RawScore | services/recommendation-service/internal/services/recommendation.go:194-203 | the weighted sum of the per-type counts: at least each weighted term, and zero exactly when no weighted event type occurs |
| Scoring.Cap | services/recommendation-service/internal/services/recommendation.go:231-239 | `$min` with 10: never above 10, and the identity below it |
| Scoring.Score | services/recommendation-service/internal/services/recommendation.go:226-245 | `$round` of the capped value: anything at or above 10 rounds as 10; a non-negative value stays in [0, 10] under sound operations (`ScoreInRange` shows it is non-negative for a product with events) |
| Scoring.ScoreInRange | services/recommendation-service/internal/services/recommendation.go:227-245 | with sound float operations, every score of a product with events is in [0, 10] |
| Scoring.SortByScore | services/recommendation-service/internal/services/recommendation.go:256 | `$sort` by score descending: the result is sorted and a permutation of its input |
| Scoring.ScoredGroups | services/recommendation-service/internal/services/recommendation.go:162-255 | before sorting, one scored entry per distinct product, each the scored accumulation of that product's events |
| Scoring.AggregateExact | services/recommendation-service/internal/services/recommendation.go:160-256 | pipeline output: sorted by score; one entry per product with events, none repeated; every entry is the scored `$group` of its product's events |
| Scoring.AggregateCountsAddUp | services/recommendation-service/internal/services/recommendation.go:162-192 | with known event types, each output entry's count is the sum of its three per-type counts |
| Scoring.UserPipelineIgnoresOthers | services/recommendation-service/internal/services/recommendation.go:161 | the `$match` on userId: appending other users' events does not change a user's list |
| Scoring.UserPipelineCounts | services/recommendation-service/internal/services/recommendation.go:160-256 | every entry of a user's list counts only that user's events |
| Scoring.AggregateScoresInRange | services/recommendation-service/internal/services/recommendation.go:354-373 | every score emitted by either pipeline is in [0, 10] |
| Scoring.UserPipeline | services/recommendation-service/internal/services/recommendation.go:160-256 | a user's list: sorted by score, one entry per product of that user's events, no product repeated (`UserPipelineCounts` gives each entry's value) |
| Scoring.TrendingPipeline | services/recommendation-service/internal/services/recommendation.go:289-384 | the trending list: sorted by score, one entry per product with events, no product repeated (`TrendingEntries` gives each entry's value) |
| Scoring.Project | services/recommendation-service/internal/models/user-recommendation.go:5-10 | decoding into `ProductRecommendation` keeps productId, score, count and lastInteraction |
| Scoring.ProjectAll | services/recommendation-service/internal/services/recommendation.go:268 | decoding the pipeline output keeps its length and order, so a sorted output stays sorted and distinct products stay distinct |
| CacheKeys.PatternMatchesExactlyUserKeys | services/recommendation-service/internal/services/recommendation.go:121-122 | the invalidation glob matches a key iff it starts with `prefix:user_recommendations:`, and then the key is that user's key |
| CacheKeys.UserKeyMatchesPattern | services/recommendation-service/internal/services/recommendation.go:109-122 | every key the writer uses is matched by the invalidation pattern |
| CacheKeys.UserKeyInjective | services/recommendation-service/internal/services/recommendation.go:52 | different users never share a cache key |
| CacheKeys.DefaultPrefixIsLiteral | services/recommendation-service/internal/config/config.go:40 | the default prefix `polyforge:recommendation` has no glob characters |
| Recommendation.Truncate | services/recommendation-service/internal/services/recommendation.go:60-64 | the list cut to `limit`: a prefix of the list, of length min(length, limit) |
| Recommendation.ReadRecommendations | services/recommendation-service/internal/services/recommendation.go:48-82 | a readable cache entry decides alone (text that is not a JSON list reads as empty; a list with a mistyped field reads as its partially decoded elements); otherwise a store error is returned, a missing document gives an empty list, and a stored list is cut to `limit` |
| Recommendation.RecommendationService.GetUserRecommendations | services/recommendation-service/internal/services/recommendation.go:48-82 | the read never returns more than `limit` products; an error only comes from the store after a cache miss |
| Recommendation.CacheHitIgnoresStore | services/recommendation-service/internal/services/recommendation.go:53-66 | on a cache hit, the store and its errors do not affect the answer |
| Recommendation.StoredListReadsBack | services/recommendation-service/internal/services/recommendation.go:68-82 | a list upserted into the store reads back unchanged when no cache entry exists |
| Recommendation.CachedListReadsBack | services/recommendation-service/internal/services/recommendation.go:109-119 | a list written to the cache reads back unchanged |
| Recommendation.RecordedUserIds | services/recommendation-service/internal/services/recommendation.go:147 | the distinct userIds of the log: no duplicates, exactly the non-empty ids that occur (an empty id is not stored, being `omitempty`) |
| Recommendation.CachedProducts | services/recommendation-service/internal/services/recommendation.go:55-59 | the list served from a cache entry: empty when the text is not a JSON list, otherwise what `json.Unmarshal` decoded |
| Recommendation.CachedProductsOfEncode | services/recommendation-service/internal/services/recommendation.go:109-119 | a list encoded by the writer reads back as itself from the cache |
| Recommendation.Scan | services/recommendation-service/internal/services/recommendation.go:125 | one SCAN call: the next page of at most 100 keys, contiguous from the cursor; the next cursor advances by 100, or is 0 exactly when this page reaches the end |
| Recommendation.Recomputed | services/recommendation-service/internal/services/recommendation.go:159-278 | after the loop over users, each processed user holds the projected result of its own pipeline; other users keep their stored lists |
| Recommendation.FirstFailure | services/recommendation-service/internal/services/recommendation.go:259-277 | the first user whose aggregation or store write fails; every user before it succeeds |
| Recommendation.RemovingMatchingKeys | services/recommendation-service/internal/services/recommendation.go:121-142 | removing the scanned keys leaves no matching key and every other entry unchanged |
| Recommendation.TrendingEntries | services/recommendation-service/internal/services/recommendation.go:323-383 | every entry of the trending list is the scored group of its product's events under the weights 5/3/2, projected to the stored record |
| Recommendation.TrendingCovers | services/recommendation-service/internal/services/recommendation.go:286-401 | every product with an event appears in the trending list with count at least 1 |
| Recommendation.RecommendationService.constructor | services/recommendation-service/internal/services/recommendation.go:24-26 | the service starts with the given prefix, collections and cache |
| Recommendation.RecommendationService.RecordUserInteraction | services/recommendation-service/internal/services/recommendation.go:28-46 | a successful insert appends exactly the returned event; a failed one appends nothing |
| Recommendation.RecommendationService.StoreUserRecommendations | services/recommendation-service/internal/services/recommendation.go:98-107 | the upsert replaces exactly this user's list |
| Recommendation.RecommendationService.CacheUserRecommendation | services/recommendation-service/internal/services/recommendation.go:109-119 | sets the user's key to the encoded list with a 12-hour TTL; nothing else changes |
| Recommendation.RecommendationService.SaveUserRecommendation | services/recommendation-service/internal/services/recommendation.go:84-96 | store first; the cache is written only if the store write succeeded |
| Recommendation.RecommendationService.ClearUserRecommendationCache | services/recommendation-service/internal/services/recommendation.go:121-142 | on success every matching key is deleted and nothing else changes; on error, the pages before the first failing SCAN/DEL are deleted and that error is returned |
| Recommendation.RecommendationService.WriteUsers | services/recommendation-service/internal/services/recommendation.go:159-278 | the loop over users: it fails exactly when some user's aggregation or write fails, and the store then holds the recomputed lists of exactly the users before the first failure |
| Recommendation.RecommendationService.ReCalculateUserRecommendations | services/recommendation-service/internal/services/recommendation.go:144-284 | the users are the distinct non-empty userIds of the log, written in order up to the first failure; a failure anywhere before the invalidation leaves the cache untouched; a full run with no scan error leaves no matching key; no cache entry is ever added or changed, and every key outside `prefix:user_recommendations:*` survives unchanged |
| Recommendation.RecommendationService.GetTrendingRecommendations | services/recommendation-service/internal/services/recommendation.go:286-401 | over all events: sorted by score descending, one entry per product with events, no product repeated, and each entry is the projected scored `$group` of its product's events under the trending weights 5/3/2 |
| Handlers.Atoi | services/recommendation-service/internal/api/handlers/recommendation.go:31-34 | `strconv.Atoi` accepts only in-range 64-bit values of non-empty input |
| Handlers.ParseLimit | services/recommendation-service/internal/api/handlers/recommendation.go:30-34 | the limit is at least 1; an empty query gives 10; a query that parses to a positive integer gives that integer, and any limit other than 10 comes from such a query |
| Handlers.ParseLimitIgnoresInvalid | services/recommendation-service/internal/api/handlers/recommendation.go:84-89 | unparsable, zero and negative limits fall back to 10 |
| Handlers.ParseLimitOfDecimal | services/recommendation-service/internal/api/handlers/recommendation.go:84-89 | every positive 64-bit limit written in decimal is used as given |
| Handlers.IsUuid4 | services/recommendation-service/internal/api/handlers/recommendation.go:106-109 | `uuid4`: 36 characters, hyphens at exactly positions 8, 13, 18 and 23, lower-case hex elsewhere, version digit 4 |
| Handlers.ValidEventPayload | services/recommendation-service/internal/api/handlers/recommendation.go:106-126 | a payload that passes validation has a known event type and a 36-character product id |
| Handlers.GetRecommendationsHandler | services/recommendation-service/internal/api/handlers/recommendation.go:27-51 | a read error answers 500 and saves nothing; a successful read answers 200 with the list and saves exactly that list, which is at most `limit` long |
| Handlers.GetRecommendationsByUserIDHandler | services/recommendation-service/internal/api/handlers/recommendation.go:81-104 | 500 exactly when the read fails; otherwise 200 with exactly the service read's result for the path user, at most `limit` entries |
| Handlers.GetTrendingRecommendationHandler | services/recommendation-service/internal/api/handlers/recommendation.go:53-68 | 500 exactly on an aggregation error; otherwise exactly the service's trending list: one entry per product with events, each the trending-weighted scored group of its events |
| Handlers.RebuildRecommendationsHandler | services/recommendation-service/internal/api/handlers/recommendation.go:70-79 | always answers 200 and leaves the event log alone; the store and cache afterwards are the recompute's: unchanged when the distinct query fails, otherwise users rewritten up to the first failure, matching keys cleared only after a full run, and other keys kept |
| Handlers.RecordUserInteractionHandler | services/recommendation-service/internal/api/handlers/recommendation.go:106-142 | 400 iff the body is missing or fails validation; 500 iff valid and the insert fails; 200 appends the event; only known event types reach the log |
| Inventory.InventoryService.GetAllItems | services/inventory-service/src/inventory/inventory.service.ts:11-15 | exactly the rows whose `deletedAt` is null |
| Inventory.InventoryService.IsExisting | services/inventory-service/src/inventory/inventory.service.ts:119-124 | a SKU exists exactly when some row with that SKU has no `deletedAt` |
| Inventory.InventoryService.GetItemBySku | services/inventory-service/src/inventory/inventory.service.ts:17-25 | the row when the SKU has a live row (see `isExisting`, lines 119-124), otherwise "Item with SKU does not exist" |
| Inventory.InventoryService.AddItem | services/inventory-service/src/inventory/inventory.service.ts:27-57 | a live SKU is refused as "already exists"; a new SKU gets a live row with `available = quantity` and one CREATE log; refusals change nothing; the ledger invariant is kept; a failing transaction returns its error and changes nothing |
| Inventory.InventoryService.UpdateItemBySku | services/inventory-service/src/inventory/inventory.service.ts:59-92 | a non-live SKU is refused and nothing changes; otherwise `available` grows by `quantity`, one UPDATE log is appended, and other rows are unchanged; a failing transaction returns its error and changes nothing |
| Inventory.InventoryService.DeleteItemBySku | services/inventory-service/src/inventory/inventory.service.ts:94-117 | a non-live SKU is refused; otherwise the row stays with `deletedAt` set, DELETE is logged with the available quantity, and the SKU leaves `GetAllItems` and can no longer be read; a failing transaction returns its error and changes nothing |
| Inventory.LedgerOfUnloggedSku | services/inventory-service/src/inventory/inventory.service.ts:36-54 | a SKU with no log entries has a zero balance and no deletions, so a new row starts consistent with the log |
| Orders.ItemsOf | services/order-service/api/services/order.py:46 | an order's items are exactly the item rows with its order_id |
| Orders.Visible | services/order-service/api/services/order.py:42-53 | the ownership filter: the owner always sees an order, and a falsy user id (`None` or `""`) sees every order |
| Orders.VisibleOrders | services/order-service/api/services/order.py:66-82 | the rows the listing query returns: exactly the orders visible to the user |
| Orders.FirstIndex | services/order-service/api/services/order.py:43 | `.first()`: the first matching row, or none when no row matches |
| Orders.Views | services/order-service/api/services/order.py:66-85 | the visible orders, each once and in table order (exactly `VisibleOrders`), each with its item rows; a falsy user id lists every order |
| Orders.OrderService.GetOrderById | services/order-service/api/services/order.py:40-64 | an order is returned iff one has that id and is visible to the user (owner, or any owner for a falsy id), with exactly its item rows |
| Orders.OrderService.GetAllOrders | services/order-service/api/services/order.py:66-85 | exactly the rows the query returns (`VisibleOrders`: each visible order once, in table order), each with its item rows; a falsy user id gets every order |
| Orders.OrderService.CreateOrder | services/order-service/api/services/order.py:10-38 | a PENDING order owned by the user, plus one item row per payload item (same sku and qty, linked to the order) that reads back by id; any error rolls everything back |
| Orders.OrderService.CancelOrder | services/order-service/api/services/order.py:87-110 | only the caller's PENDING order with that id becomes CANCELLED and is returned with its items; otherwise "Order not found or cannot be cancelled" and nothing changes; a second cancel fails |
| Orders.AppendOrder | services/order-service/api/services/order.py:10-33 | a new order with a fresh id keeps ids unique, and its items are exactly the rows added for it |
| Orders.GetOrderByIdAgreesWithGetAllOrders | services/order-service/api/services/order.py:40-85 | the single read and the listing agree: each finds the order the other finds, for the same user |

## Left out

- **I/O, clients and logging.** Mongo, Redis, Prisma and SQLAlchemy are not modelled. Each store is an abstract map or sequence. The failures the model covers are parameters; read-only inventory and order queries are taken to succeed. Log messages (`fmt.Printf`, `logger.error`) are not modelled.
- **Background execution.** The detached goroutines (`go SaveUserRecommendation`, `go ReCalculateUserRecommendations`) run to completion inside the handler. Their interleaving with other requests is not modelled.
- **Floating point.** `$divide`, `$ln` and `$round` to two places are uninterpreted fields of `FloatOps`. Exact score values, such as 2.87 for ten views, are not computed.
- **Ties in `$sort`.** The order among equal scores is whatever `SortByScore` gives. Mongo does not fix that order, so the model claims none.
- **`$group` output order.** Groups are taken in order of first occurrence. Mongo leaves this order unspecified, and it is erased by the sort up to ties.
- **Distinct user order.** The distinct userIds are also taken in order of first occurrence.
- **SCAN.** SCAN is a cursor over a fixed snapshot of the matching keys, passed in by the caller, 100 keys per page. Keys added during the scan, and SCAN's own duplicate or no-guarantee behaviour, are not modelled.
- **Cache TTL.** The 12-hour TTL is recorded on each cache entry, but expiry over time is not modelled.
- **JSON.** JSON text is not modelled. A cached payload is one of three cases: a well-formed list; a list with a mistyped field, carried as the elements `json.Unmarshal` still decodes; or text that is not a JSON list, which reads as empty. Which fields of a mistyped element keep their zero value is not modelled.
- **Payload parsing.** Body parsing is an `Option` parameter: `None` is a body that does not parse.
- **UUID validation.** The `uuid4` check accepts the lower-case 8-4-4-4-12 form only. Upper-case UUIDs are not modelled.
- **UpdateItemDto.** `services/inventory-service/src/inventory/dto/update-item.dto.ts` is not part of this model. The update quantity is an unconstrained integer.
- **Inventory integer width.** `available` and `qty` are unbounded integers. The database's 32-bit column overflow is not modelled.
- **SKU upper-case validation.** The upper-case rule of `CreateItemDto` comes from a validation library and is not modelled. The model keeps only `quantity >= 1`.
- **Timestamps.** The inventory and order timestamps (`createdAt`, `created_at`, `updated_at`) are not modelled. Only `deletedAt` is.
- **Order item ids.** Generated order item ids are passed in and are not checked for uniqueness.
- **Order commit failures.** A failing commit is a parameter (`commitErr`).
- **Read-query failures in inventory and orders.** A database error in `getAllItems`, `getItemBySku`, the `isExisting` lookup (inventory.service.ts:11-25, 119-124), `get_order_by_id` or `get_all_orders` (order.py:62-64, 83-85) propagates to the caller and changes nothing. The model's `GetAllItems`, `GetItemBySku`, `IsExisting`, `GetOrderById` and `GetAllOrders` assume the query succeeds.
- **Row order of order queries.** `get_all_orders` and the item queries have no ORDER BY, so the database guarantees no order. `GetAllOrders`, `Views` and `ItemsOf` return rows in table order, which is a modelling choice, like the `$group` order above.
- **Order routes.** The role rule in `services/order-service/api/routes/orders.py`, where an administrator gets no owner filter, is folded into the falsy-user-id case.
- Scoring.ScoreInRange: proved only under `SoundOps`, the least the float operations must satisfy (a non-negative average, a non-negative logarithm from 2 on, rounding that stays within [0, 10]). These are properties of IEEE arithmetic that the model assumes rather than proves.
- Handlers.Atoi: assumes a 64-bit `int`, as on the 64-bit platforms the service is built for.
