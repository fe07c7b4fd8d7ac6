/** The cart repository (internal/cart/repository.go): one document per
    user, keyed by the user id, over the abstract collection. The clock is
    the parameter `now`. */
module Repository {
  import opened Results
  import opened CartItems
  import opened DocumentStore

  /** The persisted aggregate: the user's id, the cart lines in insertion
      order, and the instant of the last write. */
  datatype CartDocument = CartDocument(userId: string, items: seq<CartItem>, lastUpdatedAt: int)

  type Store = map<string, CartDocument>

  /** The failure oracle's verdicts for the two store calls a fetch can
      make: the read, and the write that creates a missing cart. */
  datatype FetchFaults = FetchFaults(read: Option<string>, create: Option<string>)

  const NoFetchFaults := FetchFaults(None, None)

  datatype Fetched = Fetched(store: Store, result: Result<CartDocument, StoreError>)

  datatype Updated = Updated(store: Store, cart: CartDocument, outcome: Outcome<StoreError>)

  datatype Cleared = Cleared(store: Store, outcome: Outcome<StoreError>)

  function EmptyCart(userId: string, now: int): CartDocument {
    CartDocument(userId, [], now)
  }

  /** The lines a user effectively has: a missing document reads as an
      empty cart. */
  function ItemsOf(store: Store, userId: string): seq<CartItem> {
    if userId in store then store[userId].items else []
  }

  /** Every document is stored under its own user id. */
  predicate WellKeyed(store: Store) {
    forall k :: k in store ==> store[k].userId == k
  }

  /** Whether a fetch with these verdicts returns a cart. */
  predicate FetchSucceeds(store: Store, userId: string, faults: FetchFaults) {
    faults.read.None? && (userId in store || faults.create.None?)
  }

  /** Stamp the cart with `now` and store it under its own user id. The
      stamp is applied to the caller's cart even when the write fails. */
  function UpdateCart(store: Store, cart: CartDocument, now: int, fault: Option<string>): (r: Updated)
    ensures r.cart.userId == cart.userId && r.cart.items == cart.items && r.cart.lastUpdatedAt == now
    ensures r.outcome.Pass? <==> fault.None?
    ensures fault.None? ==> cart.userId in r.store && r.store[cart.userId] == r.cart
    ensures fault.None? ==> r.store - {cart.userId} == store - {cart.userId}
    ensures fault.Some? ==> r.store == store && r.outcome == Fail(Unavailable(fault.value))
  {
    var stamped := cart.(lastUpdatedAt := now);
    var reply := Upsert(store, stamped.userId, stamped, fault);
    Updated(reply.docs, stamped, reply.outcome)
  }

  /** Fetch-or-create: a stored cart is returned as it is; a missing one is
      created empty, persisted, and returned; any other store failure is
      passed to the caller. Not-found never reaches the caller. */
  function GetCartByUserID(store: Store, userId: string, now: int, faults: FetchFaults): (r: Fetched)
    ensures r.result.Ok? <==> FetchSucceeds(store, userId, faults)
    ensures r.result.Err? ==> r.store == store && r.result.error != DocumentNotFound
    ensures faults.read.Some? ==> r.result == Err(Unavailable(faults.read.value))
    ensures faults.read.None? && userId !in store && faults.create.Some?
            ==> r.result == Err(Unavailable(faults.create.value))
    ensures faults.read.None? && userId in store ==> r.store == store && r.result == Ok(store[userId])
    ensures faults.read.None? && userId !in store && faults.create.None?
            ==> r.result == Ok(EmptyCart(userId, now)) && r.store == store[userId := EmptyCart(userId, now)]
  {
    match Get(store, userId, faults.read)
    case Ok(doc) => Fetched(store, Ok(doc))
    case Err(DocumentNotFound) =>
      var created := UpdateCart(store, EmptyCart(userId, now), now, faults.create);
      if created.outcome.Fail? then Fetched(created.store, Err(created.outcome.error))
      else Fetched(created.store, Ok(created.cart))
    case Err(e) => Fetched(store, Err(e))
  }

  /** Delete the user's document; a document that is already gone counts as
      cleared. Only a store failure is reported. */
  function ClearCart(store: Store, userId: string, fault: Option<string>): (r: Cleared)
    ensures r.outcome.Pass? <==> fault.None?
    ensures fault.None? ==> userId !in r.store && r.store - {userId} == store - {userId}
    ensures fault.Some? ==> r.store == store && r.outcome == Fail(Unavailable(fault.value))
  {
    var reply := Remove(store, userId, fault);
    match reply.outcome
    case Fail(Unavailable(reason)) => Cleared(reply.docs, Fail(Unavailable(reason)))
    case _ => Cleared(reply.docs, Pass)
  }

  /** A repeated fetch of a user whose cart was just fetched (or created)
      makes no write and returns the same cart, whatever the clock says and
      whatever the create call would have done. */
  lemma FetchIdempotent(store: Store, userId: string, now: int, later: int, faults: FetchFaults, create: Option<string>)
    requires FetchSucceeds(store, userId, faults)
    ensures var first := GetCartByUserID(store, userId, now, faults);
            var second := GetCartByUserID(first.store, userId, later, FetchFaults(None, create));
            second == first
  {
  }

  /** An update followed by a fetch of the same user reads back the stamped
      cart without writing. */
  lemma UpdateThenFetch(store: Store, cart: CartDocument, now: int, later: int, faults: FetchFaults)
    requires faults.read.None?
    ensures var written := UpdateCart(store, cart, now, None);
            var fetched := GetCartByUserID(written.store, cart.userId, later, faults);
            fetched == Fetched(written.store, Ok(cart.(lastUpdatedAt := now)))
  {
  }

  /** After a clear, fetching the user yields a fresh empty cart. */
  lemma FetchAfterClear(store: Store, userId: string, now: int)
    ensures var cleared := ClearCart(store, userId, None);
            var fetched := GetCartByUserID(cleared.store, userId, now, NoFetchFaults);
            fetched.result == Ok(EmptyCart(userId, now))
  {
  }

  /** Every repository operation keeps each document under its own user id,
      so a fetch for a user returns that user's cart. */
  lemma RepositoryKeepsKeys(store: Store, userId: string, cart: CartDocument, now: int,
                            faults: FetchFaults, fault: Option<string>)
    requires WellKeyed(store)
    ensures var fetched := GetCartByUserID(store, userId, now, faults);
            WellKeyed(fetched.store) && (fetched.result.Ok? ==> fetched.result.value.userId == userId)
    ensures WellKeyed(UpdateCart(store, cart, now, fault).store)
    ensures WellKeyed(ClearCart(store, userId, fault).store)
  {
    var u := UpdateCart(store, cart, now, fault);
    if fault.None? {
      forall k | k in u.store
        ensures u.store[k].userId == k
      {
        if k != cart.userId {
          assert k in u.store - {cart.userId};
        }
      }
    }
    var c := ClearCart(store, userId, fault);
    if fault.None? {
      forall k | k in c.store
        ensures c.store[k].userId == k
      {
        assert k in c.store - {userId};
      }
    }
  }
}
