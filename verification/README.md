# Bookstore order lifecycle in Dafny

This project models the order logic of a small bookstore order service. Orders are
made of publications. A publication is a book or a magazine. The service keeps
orders in an in-memory map keyed by order id, and moves each order through the
statuses PENDING, SHIPPED, DELIVERED and CANCELLED.

Modules:

- `Models` (`models.dfy`): the `OrderStatus` enum, `Publication` as the closed
  variant `Book | Magazine` with the shared base-class fields, `Order`, and the
  setters as functions that return the updated value.
- `Lifecycle` (`lifecycle.dfy`): the transition predicate `isValidStatusTransition`
  and the same rule as an explicit table. It also gives each status a stage on the
  happy path and proves that runs of valid transitions never go back or cycle.
- `Pricing` (`pricing.dfy`): the order total as a left fold over the item prices,
  the same reduction as a loop, and a front-to-back sum used as an independent
  reference.
- `OrderStore` (`order_store.dfy`): `createOrder`, `getOrder`, `listOrders`,
  `updateOrderStatus` and `cancelOrder` over a `map<string, Order>`. Each mutating
  operation returns the new map and a typed result: `Ok(order)`, `InvalidInput`,
  `NotFound` or `InvalidTransition(from, to)`.
- `StoreProperties` (`store_properties.dfy`): lemmas that relate several operations.
  They cover the store invariant, the evolution of stored orders, and the place
  where `cancelOrder` and `updateOrderStatus(id, CANCELLED)` part ways. They end
  with the life of one order from creation to delivery.

Three properties of the code are worth knowing before reading the model:

- `cancelOrder` (OrdersController.java:140-145) refuses only a DELIVERED order and
  never consults `isValidStatusTransition`, which from SHIPPED allows only DELIVERED
  (OrdersController.java:159-160). A SHIPPED order can therefore be cancelled
  through `cancelOrder`, while `updateOrderStatus(id, CANCELLED)` refuses the same
  move. `StoreProperties.CancelDivergesFromUpdate` and
  `StoreProperties.CancelMatchesUpdateExceptWhenShipped` state this divergence.
- The order id is documented as the unique identifier of the order
  (Models.java:101), but the `put` at OrdersController.java:56 is not guarded
  against an id already in the map. The id is `"ord-"` plus eight characters of a
  random UUID. `CreateOrder` has no freshness precondition, and
  `StoreProperties.CreateWithRepeatedIdReplaces` shows the replacement.
- No code checks the sign of a price: `setPrice` (Models.java:48) and the sum
  (OrdersController.java:50-52) accept any value. The model accepts any price, and
  `Pricing.TotalPrice` promises a non-negative total only when every item price is
  non-negative.

## Model

| member | source | states |
|---|---|---|
| `Models.StatusesAreExactlyFour` | src/main/java/com/bookstore/Models.java:141-146 | every status is one of the four enum constants, which are pairwise distinct |
| `Models.NewBook` | src/main/java/com/bookstore/Models.java:62-66 | a new book is a Book whose common fields are exactly those passed to the base constructor and whose author and isbn are as given |
| `Models.NewMagazine` | src/main/java/com/bookstore/Models.java:86-90 | a new magazine is a Magazine whose common fields are exactly those passed to the base constructor and whose issue number and publisher are as given |
| `Models.PublicationIsOneVariant` | src/main/java/com/bookstore/Models.java:13-17 | every publication is exactly one of Book or Magazine, and it is rebuilt by its variant's constructor from its common part and its own fields |
| `Models.SetPublicationId` | src/main/java/com/bookstore/Models.java:42 | changes only the id among the common fields and keeps the variant and its own fields |
| `Models.SetTitle` | src/main/java/com/bookstore/Models.java:44 | changes only the title among the common fields and keeps the variant and its own fields |
| `Models.SetPublishDate` | src/main/java/com/bookstore/Models.java:46 | changes only the publish date among the common fields and keeps the variant and its own fields |
| `Models.SetPrice` | src/main/java/com/bookstore/Models.java:48 | changes only the price among the common fields and keeps the variant and its own fields |
| `Models.SetAuthor` | src/main/java/com/bookstore/Models.java:70 | on a book, sets the author, keeps the isbn and all common fields, and the result is still a book |
| `Models.SetIsbn` | src/main/java/com/bookstore/Models.java:72 | on a book, sets the isbn, keeps the author and all common fields, and the result is still a book |
| `Models.SetIssueNumber` | src/main/java/com/bookstore/Models.java:94 | on a magazine, sets the issue number, keeps the publisher and all common fields, and the result is still a magazine |
| `Models.SetPublisher` | src/main/java/com/bookstore/Models.java:96 | on a magazine, sets the publisher, keeps the issue number and all common fields, and the result is still a magazine |
| `Models.StatusIsTheOnlyOtherField` | src/main/java/com/bookstore/Models.java:100-114 | two orders that agree on id, customer, items and total are equal exactly when their statuses are equal |
| `Models.SetStatus` | src/main/java/com/bookstore/Models.java:136-137 | after setting, the status reads back as the value set, and id, customer, items and total are untouched |
| `Models.SetStatusLastWriteWins` | src/main/java/com/bookstore/Models.java:137 | two status writes leave only the last one, and writing the current status changes nothing |
| `Lifecycle.IsValidStatusTransition` | src/main/java/com/bookstore/OrdersController.java:150-167 | the same status is always allowed; otherwise PENDING may move to SHIPPED or CANCELLED, SHIPPED only to DELIVERED, and nothing else; the allowed pairs are exactly the transition table, and every allowed change moves forward |
| `Lifecycle.SameStatusIsValid` | src/main/java/com/bookstore/OrdersController.java:151-153 | staying in the same status is valid for every status |
| `Lifecycle.PendingTargets` | src/main/java/com/bookstore/OrdersController.java:156-158 | from PENDING every target except DELIVERED is valid |
| `Lifecycle.ShippedTargets` | src/main/java/com/bookstore/OrdersController.java:159-160 | from SHIPPED the valid targets are exactly SHIPPED and DELIVERED |
| `Lifecycle.TerminalStatuses` | src/main/java/com/bookstore/OrdersController.java:161-165 | a status lets no different status follow it exactly when it is DELIVERED or CANCELLED |
| `Lifecycle.PendingIsInitialOnly` | src/main/java/com/bookstore/OrdersController.java:155-166 | the only status from which PENDING is a valid target is PENDING itself |
| `Lifecycle.TransitionsMoveForward` | src/main/java/com/bookstore/OrdersController.java:150-167 | every valid change of status moves strictly forward along PENDING, SHIPPED, then DELIVERED or CANCELLED |
| `Lifecycle.RunStagesGrow` | src/main/java/com/bookstore/OrdersController.java:150-167 | along any sequence of valid transitions the stage never decreases |
| `Lifecycle.RunsHaveNoCycles` | src/main/java/com/bookstore/OrdersController.java:150-167 | a sequence of valid transitions that ends in its first status never left that status |
| `Pricing.TotalPrice` | src/main/java/com/bookstore/OrdersController.java:50-52 | the left-fold total of items whose prices are all non-negative is non-negative |
| `Pricing.ComputeTotal` | src/main/java/com/bookstore/OrdersController.java:50-52 | the reduction from 0 over the items in list order yields the left-fold total |
| `Pricing.TotalOfConcat` | src/main/java/com/bookstore/OrdersController.java:50-52 | the total of two concatenated item lists is the sum of their totals |
| `Pricing.TotalIsSumOfPrices` | src/main/java/com/bookstore/OrdersController.java:50-52 | with exact arithmetic the left-to-right total equals the front-to-back sum of the prices |
| `Pricing.TotalDependsOnlyOnPrices` | src/main/java/com/bookstore/OrdersController.java:50-52 | item lists with the same prices position by position have the same total, whatever their variants and other fields |
| `OrderStore.OrderIdFrom` | src/main/java/com/bookstore/OrdersController.java:45 | the generated id is "ord-" followed by eight hex digits, namely the first eight characters of the UUID text |
| `OrderStore.CreateOrder` | src/main/java/com/bookstore/OrdersController.java:38-57 | null or empty items are refused with InvalidInput and the store is unchanged. Otherwise the order is stored under its generated id with status PENDING, the request's customer and items, and the fold of the item prices as total; every other stored order is kept |
| `OrderStore.GetOrder` | src/main/java/com/bookstore/OrdersController.java:71-76 | returns the stored order exactly when the id is a key, and NotFound otherwise |
| `OrderStore.ListOrders` | src/main/java/com/bookstore/OrdersController.java:86 | returns one order per stored key, each key once, in some order; an order is in the list exactly when it is a stored value |
| `OrderStore.UpdateOrderStatus` | src/main/java/com/bookstore/OrdersController.java:104-118 | an unknown id gives NotFound and a refused transition gives InvalidTransition(current, requested), both with the store unchanged. It succeeds exactly when the transition is valid, and then only that order's status changes, to the requested one |
| `OrderStore.CancelOrder` | src/main/java/com/bookstore/OrdersController.java:134-146 | an unknown id gives NotFound and a DELIVERED order is refused, both with the store unchanged. Every other order, SHIPPED included, becomes CANCELLED and nothing else changes |
| `StoreProperties.EmptyStoreIsWellFormed` | src/main/java/com/bookstore/OrdersController.java:25 | the empty initial store satisfies the store invariant |
| `StoreProperties.CreatePreservesWellFormed` | src/main/java/com/bookstore/OrdersController.java:38-57 | createOrder keeps every order under its own generated id, with non-empty items and a total equal to the fold of their prices |
| `StoreProperties.UpdatePreservesWellFormed` | src/main/java/com/bookstore/OrdersController.java:104-118 | updateOrderStatus keeps the store invariant |
| `StoreProperties.CancelPreservesWellFormed` | src/main/java/com/bookstore/OrdersController.java:134-146 | cancelOrder keeps the store invariant |
| `StoreProperties.CreateIgnoresClientFields` | src/main/java/com/bookstore/OrdersController.java:45-53 | the id, total and status in the client's order do not affect the outcome of createOrder |
| `StoreProperties.CreatedOrderCanBeRead` | src/main/java/com/bookstore/OrdersController.java:56 | a successfully created order is returned by getOrder under its id |
| `StoreProperties.CreateWithFreshIdGrowsStore` | src/main/java/com/bookstore/OrdersController.java:56 | with a fresh generated id the store grows by one and every earlier order is kept unchanged |
| `StoreProperties.CreateWithRepeatedIdReplaces` | src/main/java/com/bookstore/OrdersController.java:56 | with a generated id already in the store the store does not grow, and the earlier order is replaced by the new PENDING one |
| `StoreProperties.UpdateEvolves` | src/main/java/com/bookstore/OrdersController.java:104-118 | after updateOrderStatus every order is still stored, with the same id, customer, items and total, and a status no earlier on the lifecycle |
| `StoreProperties.CancelEvolves` | src/main/java/com/bookstore/OrdersController.java:134-146 | after cancelOrder every order is still stored, with the same id, customer, items and total, and a status no earlier on the lifecycle |
| `StoreProperties.FailuresLeaveStoreUnchanged` | src/main/java/com/bookstore/OrdersController.java:38-146 | any failed create, update or cancel leaves the store as it was |
| `StoreProperties.SameStatusUpdateIsNoOp` | src/main/java/com/bookstore/OrdersController.java:111-118 | requesting an order's current status succeeds, returns the order and changes nothing |
| `StoreProperties.TerminalOrdersAreFrozen` | src/main/java/com/bookstore/OrdersController.java:161-165 | a DELIVERED or CANCELLED order refuses every different status with InvalidTransition and the store unchanged |
| `StoreProperties.PendingCannotSkipShipping` | src/main/java/com/bookstore/OrdersController.java:156-158 | PENDING to DELIVERED is refused with InvalidTransition(PENDING, DELIVERED) |
| `StoreProperties.CancelDivergesFromUpdate` | src/main/java/com/bookstore/OrdersController.java:140-145 | on a SHIPPED order cancelOrder sets CANCELLED while updateOrderStatus(id, CANCELLED) is refused with InvalidTransition(SHIPPED, CANCELLED) |
| `StoreProperties.CancelMatchesUpdateExceptWhenShipped` | src/main/java/com/bookstore/OrdersController.java:134-166 | cancelOrder and updateOrderStatus(id, CANCELLED) have the same outcome exactly when the id is unknown or the order is not SHIPPED |
| `StoreProperties.CancelDivergenceWitness` | src/main/java/com/bookstore/OrdersController.java:140-145 | a concrete well-formed store with one SHIPPED order, reachable by the controller, on which the two operations differ |
| `StoreProperties.OrderLifeScenario` | src/main/java/com/bookstore/OrdersController.java:38-146 | an order for 19.99 and 9.98 is created PENDING at 29.97. It is shipped, refused a return to PENDING, delivered, and then refused cancellation |

## Left out

- HTTP layer: the Spring mappings, `ResponseEntity`, the OpenAPI annotations and the `ErrorResponse` codes and messages are left out. Each failure is a typed result kind instead. Refusing a DELIVERED order in `cancelOrder` sends its own message (OrdersController.java:142), different from the one `updateOrderStatus` sends; the model gives both the kind `InvalidTransition(DELIVERED, CANCELLED)`, so `StoreProperties.CancelMatchesUpdateExceptWhenShipped` treats them as the same outcome only because the messages are left out.
- JSON encoding: the `type` discriminator of publications is a wire format only.
- Randomness: `UUID.randomUUID()` becomes the parameter `uuid`, the UUID's text.
- Pricing.TotalPrice: prices are whole cents (`int`), not `float`, so float rounding in the sum is not modelled; only the left-to-right order of the fold is kept.
- Concurrency: the unsynchronised shared `HashMap` is left out; the model is sequential.
- Null references: string fields are never null in the model. Only a null `items` list is modelled, because `createOrder` checks for it. A null element inside `items`, which would fail in `getPrice`, is left out.
- Object sharing: the controller returns the stored `Order` object itself, so a later status change is visible through earlier responses. The model returns values.
- Order constructor and setters other than `setStatus`: the constructor is the `Order` datatype constructor, whose destructors are the getters. `createOrder` uses `setId` and `setTotalPrice` only on the request, so `CreateOrder` builds the stored order directly.
- No-argument constructors of `Publication`, `Book`, `Magazine` and `Order` are left out; they only serve deserialisation.
- Iteration order of `listOrders`: a `HashMap` promises none, so the model lets the loop take the keys in any order.
- Binding of the status request parameter: a value outside the four statuses is refused by the framework before `updateOrderStatus` runs, so the model's status argument is always one of the four.
