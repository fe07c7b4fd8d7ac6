/** The cart service (internal/cart/service.go): fetch a cart, add an item
    to it, and clear it when an order is confirmed. Each operation takes the
    store and returns the store it leaves behind. */
module Service {
  import opened Results
  import opened CartItems
  import opened DocumentStore
  import opened Repository
  import Consumer

  /** The failure oracle's verdicts for the store calls of one `AddItem`:
      the fetch (read, create-on-miss) and the final save. */
  datatype AddFaults = AddFaults(fetch: FetchFaults, save: Option<string>)

  const NoFaults := AddFaults(NoFetchFaults, None)

  /** What the store holds once the fetch of `userId` has succeeded: a
      missing cart has been created empty. */
  function AfterFetch(store: Store, userId: string, now: int): Store {
    if userId in store then store else store[userId := EmptyCart(userId, now)]
  }

  /** The user's cart, created empty (and persisted) when there was none.
      The returned cart is the one the store now holds for the user, its
      lines are the ones the user already had, and no other user's cart is
      touched. */
  function GetCart(store: Store, userId: string, now: int, faults: FetchFaults): (r: Fetched)
    ensures r.result.Ok? <==> FetchSucceeds(store, userId, faults)
    ensures r.result.Ok? ==> r.store == AfterFetch(store, userId, now)
    ensures r.result.Ok? ==> userId in r.store && r.store[userId] == r.result.value
    ensures r.result.Ok? ==> r.result.value.items == ItemsOf(store, userId)
    ensures r.result.Err? ==> r.store == store && r.result.error != DocumentNotFound
    ensures faults.read.Some? ==> r.result == Err(Unavailable(faults.read.value))
    ensures faults.read.None? && userId !in store && faults.create.Some?
            ==> r.result == Err(Unavailable(faults.create.value))
  {
    GetCartByUserID(store, userId, now, faults)
  }

  /** Add `item` to the user's cart: the first line with the same product
      absorbs its quantity, otherwise the item is appended; the cart is then
      saved with a fresh stamp. A failed fetch returns its error without a
      save; a failed save returns its error, the create-on-miss write (if
      any) having already happened. */
  function AddItem(store: Store, userId: string, item: CartItem, now: int, faults: AddFaults): (r: Fetched)
    ensures r.result.Ok? <==> FetchSucceeds(store, userId, faults.fetch) && faults.save.None?
    ensures !FetchSucceeds(store, userId, faults.fetch) ==> r.store == store
    ensures r.result.Err? ==> r.result.error != DocumentNotFound
    ensures faults.fetch.read.Some? ==> r.result == Err(Unavailable(faults.fetch.read.value))
    ensures faults.fetch.read.None? && userId !in store && faults.fetch.create.Some?
            ==> r.result == Err(Unavailable(faults.fetch.create.value))
    ensures FetchSucceeds(store, userId, faults.fetch) && faults.save.Some?
            ==> r.result == Err(Unavailable(faults.save.value)) && r.store == AfterFetch(store, userId, now)
    ensures r.result.Ok? ==>
              && r.result.value.items == Merge(ItemsOf(store, userId), item)
              && r.result.value.lastUpdatedAt == now
              && r.result.value.userId in r.store
              && r.store == AfterFetch(store, userId, now)[r.result.value.userId := r.result.value]
    ensures r.result.Ok? ==> r.result.value.userId == AfterFetch(store, userId, now)[userId].userId
    ensures r.result.Ok? && WellKeyed(store) ==>
              r.result.value.userId == userId && r.store == store[userId := r.result.value]
  {
    var fetched := GetCartByUserID(store, userId, now, faults.fetch);
    match fetched.result
    case Err(e) => Fetched(fetched.store, Err(e))
    case Ok(cart) =>
      var merged := cart.(items := Merge(cart.items, item));
      var saved := UpdateCart(fetched.store, merged, now, faults.save);
      match saved.outcome
      case Fail(e) => Fetched(saved.store, Err(e))
      case Pass => Fetched(saved.store, Ok(saved.cart))
  }

  /** Clear the cart of the event's user. The outcome is only logged, so the
      caller sees nothing: on success the user's document is gone, on
      failure the store is as it was; other users are never touched. */
  function HandleOrderConfirmedEvent(store: Store, event: Consumer.OrderConfirmedEvent, fault: Option<string>): (r: Store)
    ensures fault.None? ==> event.userId !in r && r - {event.userId} == store - {event.userId}
    ensures fault.Some? ==> r == store
  {
    var cleared := ClearCart(store, event.userId, fault);
    cleared.store
  }

  /** The store invariant: each cart sits under its own user id and lists
      every product at most once. */
  predicate CartInvariant(store: Store) {
    && WellKeyed(store)
    && forall k :: k in store ==> UniqueProducts(store[k].items)
  }

  /** Every service operation keeps the store invariant, whatever the store
      does with each call. */
  lemma OperationsKeepInvariant(store: Store, userId: string, item: CartItem, now: int,
                                faults: AddFaults, event: Consumer.OrderConfirmedEvent, fault: Option<string>)
    requires CartInvariant(store)
    ensures CartInvariant(AddItem(store, userId, item, now, faults).store)
    ensures CartInvariant(GetCart(store, userId, now, faults.fetch).store)
    ensures CartInvariant(HandleOrderConfirmedEvent(store, event, fault))
  {
    var added := AddItem(store, userId, item, now, faults);
    if added.result.Ok? {
      MergePreservesUnique(ItemsOf(store, userId), item);
      forall k | k in added.store
        ensures added.store[k].userId == k && UniqueProducts(added.store[k].items)
      {
        if k != userId {
          assert added.store[k] == store[k];
        }
      }
    } else if FetchSucceeds(store, userId, faults.fetch) {
      assert UniqueProducts(EmptyCart(userId, now).items);
    }
    var cleared := HandleOrderConfirmedEvent(store, event, fault);
    if fault.None? {
      forall k | k in cleared
        ensures cleared[k] == store[k]
      {
        assert k in cleared - {event.userId};
      }
    }
  }

  /** A run of `AddItem` calls for one user that all reach the store. */
  function AddAll(store: Store, userId: string, adds: seq<CartItem>, now: int): Store
    decreases |adds|
  {
    if |adds| == 0 then store
    else AddAll(AddItem(store, userId, adds[0], now, NoFaults).store, userId, adds[1..], now)
  }

  /** A run of additions leaves the user with the lines of the successive
      merges, and every other user's cart as it was. */
  lemma {:induction false} AddAllMerges(store: Store, userId: string, adds: seq<CartItem>, now: int)
    requires WellKeyed(store)
    ensures var after := AddAll(store, userId, adds, now);
            && ItemsOf(after, userId) == MergeAll(ItemsOf(store, userId), adds)
            && after - {userId} == store - {userId}
            && WellKeyed(after)
    decreases |adds|
  {
    if |adds| > 0 {
      var r := AddItem(store, userId, adds[0], now, NoFaults);
      var next := r.store;
      assert next == store[userId := r.result.value];
      assert WellKeyed(next);
      AddAllMerges(next, userId, adds[1..], now);
      assert next - {userId} == store - {userId};
    }
  }

  /** Adding one product over and over to a user with an empty cart leaves
      one line for it, holding the sum of the quantities added. */
  lemma RepeatedProductSums(store: Store, userId: string, adds: seq<CartItem>, pid: string, now: int)
    requires WellKeyed(store)
    requires ItemsOf(store, userId) == []
    requires |adds| > 0
    requires forall i :: 0 <= i < |adds| ==> adds[i].productId == pid
    ensures ItemsOf(AddAll(store, userId, adds, now), userId) == [CartItem(pid, QuantityOf(adds, pid), adds[0].details)]
  {
    AddAllMerges(store, userId, adds, now);
    SameProductSums(adds, pid);
  }

  /** Once an order-confirmed event has cleared a user's cart, fetching it
      yields the user's cart with no lines. */
  lemma EventThenGetCartIsEmpty(store: Store, event: Consumer.OrderConfirmedEvent, now: int)
    ensures var cleared := HandleOrderConfirmedEvent(store, event, None);
            GetCart(cleared, event.userId, now, NoFetchFaults).result == Ok(CartDocument(event.userId, [], now))
  {
  }

  /** Two additions of 2 and 3 units of one product to a new user's cart
      give one line of 5 units. */
  lemma ScenarioSameProductTwice(store: Store, now: int)
    requires WellKeyed(store)
    requires "u1" !in store
    ensures var after := AddAll(store, "u1", [CartItem("p1", 2, ""), CartItem("p1", 3, "")], now);
            GetCart(after, "u1", now, NoFetchFaults).result
              == Ok(CartDocument("u1", [CartItem("p1", 5, "")], now))
  {
    var adds := [CartItem("p1", 2, ""), CartItem("p1", 3, "")];
    RepeatedProductSums(store, "u1", adds, "p1", now);
    assert QuantityOf(adds, "p1") == 5 by {
      assert adds[1..][1..] == [];
    }
    AddAllMerges(store, "u1", adds, now);
  }
}
