# Cart service: a Dafny model of the cart aggregate

This project models the core of a Go shopping-cart service. Each user owns
one cart document in a keyed document store. Two paths change that
document:

- the request path: fetch the cart, or add an item to it;
- the event path: an order-confirmed event, taken off a message queue,
  clears the cart.

The model covers three parts of the service:

- **Item merge.** `AddItem` scans the cart lines in insertion order. The
  first line with the incoming product absorbs its quantity. Otherwise the
  item is appended.
- **Repository contract.** Fetch is fetch-or-create: a missing cart is
  created empty and persisted. Update stamps the cart with the current time
  and upserts it under its user id. Clear deletes the document, and a
  missing document counts as cleared.
- **Event consumption.** This covers the trace-header carrier
  (`Get`/`Set`/`Keys`) and the per-message rule of the consume loop: copy
  the headers, decode the body, drop the message if decoding fails,
  otherwise call the handler once.

The store is a `map<string, CartDocument>`. Every store call takes the
verdict of a failure oracle: `Some(reason)` makes the call fail with an
error other than not-found. The clock is a parameter `now`. JSON decoding
is an abstract partial function `decode: seq<bv8> -> Option<OrderConfirmedEvent>`.
The consume loop runs over a finite sequence of deliveries. Every store
operation is a pure function: it takes a store and returns the store it leaves
behind, together with its result or error.

Modules, leaf first:

- `Results` (results.dfy) holds `Option`, `Result` and `Outcome`.
- `CartItems` (cart_items.dfy) holds the merge rule and its properties
  over sequences of additions.
- `DocumentStore` (document_store.dfy) holds the keyed collection with
  `Get`/`Upsert`/`Remove` and a per-call fault.
- `Repository` (repository.dfy) holds `CartDocument`,
  `GetCartByUserID`, `UpdateCart` and `ClearCart`.
- `Service` (service.dfy) holds `GetCart`, `AddItem`,
  `HandleOrderConfirmedEvent` and the store invariant.
- `Carrier` (carrier.dfy) holds the trace carrier.
- `Consumer` (consumer.dfy) holds the event type, the header copy, the
  handler-call log `Dispatch` and the loop `ConsumeLoop`.
- `Pipeline` (pipeline.dfy) holds the consumer wired to the service's
  clear handler, as `cmd/server/main.go` wires them.

Three behaviours of the code are worth stating plainly:

- **A cleared cart is deleted.** `ClearCart` removes the document rather
  than emptying its item list. The next fetch then creates a fresh empty
  cart (`Repository.FetchAfterClear`).
- **A failed add can still persist an empty cart.** When the user had no
  cart, the create-on-miss write happens before the save. A failed save in
  `AddItem` therefore leaves the newly created empty cart stored
  (`Service.AddItem`, the save-failure clause).
- **Quantities are not checked.** No sign check is made on quantities.
  Zero and negative quantities are summed arithmetically
  (`CartItems.SameProductSums`).

## Model

| member | source | states |
|---|---|---|
| CartItems.Merge | internal/cart/service.go:30-41 | if a line has the incoming product, the length is kept, the first such line's quantity grows by the incoming quantity and its other fields are kept, and every other line is unchanged, including later lines with the same product; if no line has it, the result is the old lines followed by the item |
| CartItems.MergeQuantity | internal/cart/service.go:30-41 | the total quantity held for the incoming product grows by the incoming quantity; every other product's total is unchanged |
| CartItems.MergeOrder | internal/cart/service.go:30-41 | the product order is unchanged when the product was present; otherwise the new product comes last |
| CartItems.MergePreservesUnique | internal/cart/service.go:30-41 | a cart with unique products still has unique products after a merge |
| CartItems.MergeAllQuantity | internal/cart/service.go:30-41 | after any sequence of additions, each product's total is the old total plus the sum of the quantities added for it |
| CartItems.MergeAllPreservesUnique | internal/cart/service.go:30-41 | unique products survive any sequence of additions |
| CartItems.MergeAllOrder | internal/cart/service.go:30-41 | after a sequence of additions, products are listed in first-seen order: the old products, then each new product at its first addition |
| CartItems.DistinctProductsCount | internal/cart/service.go:30-41 | adding items to an empty cart leaves exactly one line per distinct product |
| CartItems.MergeAllOneLine | internal/cart/service.go:30-37 | repeatedly adding the product of a one-line cart keeps one line, whose quantity grows by the sum added |
| CartItems.SameProductSums | internal/cart/service.go:30-41 | adding one product repeatedly to an empty cart leaves one line; its quantity is the arithmetic sum of the added quantities, and its other fields come from the first item |
| Repository.UpdateCart | internal/cart/repository.go:61-68 | the cart is stamped with `now` (even if the write fails); on success it is stored under its own user id and no other key changes; on failure the store is unchanged and the error is returned |
| Repository.GetCartByUserID | internal/cart/repository.go:33-59 | a stored cart is returned and nothing is written; a missing cart is created with the user id, no lines and `now`, then persisted and returned; a read or create failure is returned with the store unchanged; not-found never reaches the caller |
| Repository.ClearCart | internal/cart/repository.go:70-79 | without a fault, the user's document is gone afterwards, all other keys are unchanged, and success is returned even if the document was already absent; with a fault, the store is unchanged and the error is returned |
| Repository.FetchIdempotent | internal/cart/repository.go:38-58 | a second fetch right after a successful fetch or create returns the same cart and writes nothing, whatever the clock or the create verdict |
| Repository.UpdateThenFetch | internal/cart/repository.go:38-67 | a fetch after an update reads back the stamped cart and writes nothing |
| Repository.FetchAfterClear | internal/cart/repository.go:38-78 | after a clear, a fetch yields a fresh empty cart |
| Repository.RepositoryKeepsKeys | internal/cart/repository.go:33-79 | fetch, update and clear keep every document under its own user id, so a fetch returns that user's cart |
| Service.GetCart | internal/cart/service.go:20-22 | succeeds exactly when the fetch does; the returned cart holds the user's existing lines and is the cart the store now holds for the user; a missing cart is created; on error the store is unchanged and the fetch's own read or create error is returned |
| Service.AddItem | internal/cart/service.go:24-48 | fails when the fetch fails, returning the fetch's own read or create error, and then nothing is saved; a failed save returns the save error, and only the create-on-miss write has happened; on success the cart's lines are the merge of the user's lines with the item, stamped `now`, and the store is the fetched store with the cart written under its own user id; the returned cart keeps the user id of the cart the fetch found, so it is stored under the user's key when every document sits under its own id |
| Service.HandleOrderConfirmedEvent | internal/cart/service.go:50-66 | returns only the store: on success the event user's cart is gone and other carts are unchanged; on failure the store is unchanged |
| Service.OperationsKeepInvariant | internal/cart/service.go:20-66 | add, get and the event handler keep every cart under its own user id with unique products, for every store verdict |
| Service.AddAllMerges | internal/cart/service.go:24-48 | a run of successful additions leaves the user with the successive merges of their lines and leaves all other users' carts unchanged |
| Service.RepeatedProductSums | internal/cart/service.go:30-41 | one product added repeatedly to an empty cart gives one line with the summed quantity |
| Service.EventThenGetCartIsEmpty | internal/cart/service.go:50-66 | once an event's clear succeeds, the next get returns the user's cart with no lines |
| Service.ScenarioSameProductTwice | internal/cart/service.go:24-48 | adding 2 and then 3 units of p1 for a new user u1 gives one line of 5 units |
| Carrier.Get | internal/broker/consumer.go:18-25 | returns the stored text for a present text value, and "" for an absent key or a non-text value |
| Carrier.Set | internal/broker/consumer.go:27-29 | the key now holds the text value; the other keys and their values are unchanged |
| Carrier.GetAfterSet | internal/broker/consumer.go:18-29 | a value that was set reads back, and no other key's reading changes |
| Carrier.Keys | internal/broker/consumer.go:31-37 | returns every key of the carrier exactly once, in any order; the length equals the carrier's size |
| Consumer.CopyHeaders | internal/broker/consumer.go:96-99 | the carrier holds exactly the delivery's header entries, with values kept as they are |
| Consumer.DispatchInDeliveryOrder | internal/broker/consumer.go:95-121 | the handler runs once for each well-formed delivery and never for a malformed one; calls are in delivery order, and each call gets its delivery's headers and decoded event |
| Consumer.DispatchAppend | internal/broker/consumer.go:95-121 | processing a stream is processing its prefix and then its suffix |
| Consumer.MalformedSkipped | internal/broker/consumer.go:110-117 | a delivery that fails to decode is dropped, and later deliveries are handled as if it had never arrived |
| Consumer.ConsumeLoop | internal/broker/consumer.go:95-121 | the loop makes exactly the calls of `Dispatch` (the per-message rule `Receive` folded over the deliveries: a body that decodes gives one call on the delivery's headers, one that does not gives none), and the handler's final state is the replay of those calls |
| Pipeline.ReplayClears | internal/cart/service.go:50-66 | handling a run of events deletes exactly the carts whose clear succeeded at least once; nothing else changes |
| Pipeline.ConfirmedOrderEmptiesCart | internal/broker/consumer.go:95-121 | any well-formed event whose clear succeeds leaves its user with an empty cart on the next fetch, whatever malformed deliveries surround it |
| Pipeline.ScenarioAddThenConfirm | internal/broker/consumer.go:110-119 | after two products are added for u1 and then an event for u1 arrives behind a malformed delivery, the next get finds no lines |

## Left out

- CartItems.Merge: nil items are not modelled. The incoming item is a
  pointer (internal/cart/service.go:24) and is nil when a request leaves it
  out. On a cart with lines, reading its product id panics
  (internal/cart/service.go:32). On an empty cart, nil is appended and
  stored as a null line, and every later `AddItem` for that user panics
  on that line. The model's cart lines are always present values.
- CartItems.Merge: quantities are unbounded integers. The width of the
  protobuf `quantity` field is defined outside this repository, so 32-bit
  wrap-around on a merge is not modelled.
- Repository.GetCartByUserID: a stored document that fails to deserialize
  (`getResult.Content`) is not modelled separately. It is folded into the
  read fault, which returns an error and leaves the store unchanged, as in
  the code.
- The `context.Context` argument of every operation is left out. It only
  carries tracing spans and deadlines.
- OpenTelemetry is left out: trace-context extraction from the carrier,
  span creation and span options on store calls. These are observability
  side effects. The handler receives the carrier that the span context is
  extracted from.
- zap and `log` logging are left out, including the success and failure
  logs of the event handler.
- AMQP is left out: exchange, queue and binding declaration, auto-ack
  consumption, `NewConsumer` and `Close` (internal/broker/consumer.go:45-65,
  72-92). These are foreign calls.
- `json.Unmarshal` is the abstract `decode` parameter.
- `time.Now()` is the `now` parameter. One service call uses one `now`, so
  a create-on-miss and the save that follows get the same stamp. The model
  promises no monotonicity of `lastUpdatedAt` beyond what the caller's
  clock provides.
- Store failures on the event path come from an oracle over the handler
  call. Two identical calls therefore get the same verdict.
- Couchbase internals are reduced to a map with a per-call fault. So are
  the cluster, bucket and collection setup in cmd/server/main.go.
- Failed store calls (`DocumentStore.Upsert`, `DocumentStore.Remove`): a failed store call is
  assumed to have made no change. The code passes on whatever error the
  store reports, including one reported after the write took effect, so
  every "on failure the store is unchanged" clause (in `UpdateCart`,
  `GetCartByUserID`, `ClearCart`, `AddItem`, `GetCart` and
  `HandleOrderConfirmedEvent`) rests on this assumption.
- The consume loop's detached goroutine, and concurrency in general, are
  left out. The model is sequential. The lost update between a concurrent
  `AddItem` and an event-driven clear is not modelled.
- The gRPC handler (internal/cart/handler.go) and configuration loading
  (internal/config/config.go) are left out: they are request translation
  and library wrappers. The handler calls `AddItem` and `GetCart` without
  the context argument the service methods declare.
- A stored document whose `items` field decodes as JSON null is not
  modelled. Every cart always has a sequence of lines.
