/** The event path as the server wires it (cmd/server/main.go passes the
    service's order-confirmed handler to the consumer): every well-formed
    delivery clears its user's cart. The store's verdict on each clear comes
    from an oracle over the handler call. */
module Pipeline {
  import opened Results
  import opened CartItems
  import opened Repository
  import opened Service
  import opened Consumer

  /** The consumer's handler: clear the cart of the call's user. */
  function ClearHandler(oracle: Invocation -> Option<string>): (Store, Invocation) -> Store {
    (s: Store, call: Invocation) => HandleOrderConfirmedEvent(s, call.event, oracle(call))
  }

  /** The users whose clear the store accepted in a run of calls. */
  function ClearedUsers(calls: seq<Invocation>, oracle: Invocation -> Option<string>): set<string> {
    set i | 0 <= i < |calls| && oracle(calls[i]).None? :: calls[i].event.userId
  }

  /** Replaying the handler over a run of calls deletes exactly the carts
      whose clear succeeded at least once; failed clears change nothing and
      other carts are untouched. */
  lemma {:induction false} ReplayClears(store: Store, calls: seq<Invocation>, oracle: Invocation -> Option<string>)
    ensures Replay(ClearHandler(oracle), store, calls) == store - ClearedUsers(calls, oracle)
    decreases |calls|
  {
    if |calls| > 0 {
      var init, last := calls[..|calls| - 1], calls[|calls| - 1];
      ReplayClears(store, init, oracle);
      var before := Replay(ClearHandler(oracle), store, init);
      var after := HandleOrderConfirmedEvent(before, last.event, oracle(last));
      assert ClearedUsers(calls, oracle)
          == ClearedUsers(init, oracle) + (if oracle(last).None? then {last.event.userId} else {}) by {
        forall u | u in ClearedUsers(calls, oracle)
          ensures u in ClearedUsers(init, oracle) || (oracle(last).None? && u == last.event.userId)
        {
          var i :| 0 <= i < |calls| && oracle(calls[i]).None? && calls[i].event.userId == u;
          if i < |init| {
            assert init[i] == calls[i];
          }
        }
        forall u | u in ClearedUsers(init, oracle)
          ensures u in ClearedUsers(calls, oracle)
        {
          var i :| 0 <= i < |init| && oracle(init[i]).None? && init[i].event.userId == u;
          assert calls[i] == init[i];
        }
      }
      if oracle(last).None? {
        forall k | k in after
          ensures after[k] == before[k]
        {
          assert k in after - {last.event.userId};
        }
        assert after == before - {last.event.userId};
      }
    }
  }

  /** Whatever else the stream holds (malformed deliveries included), a
      well-formed delivery confirming an order of `userId` whose clear the
      store accepts leaves that user with an empty cart on the next fetch. */
  lemma ConfirmedOrderEmptiesCart(store: Store, msgs: seq<Delivery>, decode: seq<bv8> -> Option<OrderConfirmedEvent>,
                                  oracle: Invocation -> Option<string>, j: nat, now: int)
    requires j < |msgs|
    requires decode(msgs[j].body).Some?
    requires oracle(Invocation(msgs[j].headers, decode(msgs[j].body).value)).None?
    ensures var userId := decode(msgs[j].body).value.userId;
            var after := Replay(ClearHandler(oracle), store, Dispatch(msgs, decode));
            GetCart(after, userId, now, NoFetchFaults).result == Ok(CartDocument(userId, [], now))
  {
    var calls := Dispatch(msgs, decode);
    DispatchInDeliveryOrder(msgs, decode);
    var pos := Positions(msgs, decode);
    var i :| 0 <= i < |pos| && pos[i] == j;
    assert calls[i] == Invocation(msgs[j].headers, decode(msgs[j].body).value);
    ReplayClears(store, calls, oracle);
    assert decode(msgs[j].body).value.userId in ClearedUsers(calls, oracle);
  }

  /** Two products added for "u1", then an order-confirmed event for "u1"
      arriving after a malformed delivery: the next fetch finds no lines. */
  lemma ScenarioAddThenConfirm(store: Store, now: int, later: int,
                               decode: seq<bv8> -> Option<OrderConfirmedEvent>, junk: seq<bv8>, body: seq<bv8>)
    requires WellKeyed(store)
    requires decode(junk).None?
    requires decode(body) == Some(OrderConfirmedEvent("o1", "u1"))
    ensures var carts := AddAll(store, "u1", [CartItem("p1", 2, ""), CartItem("p2", 1, "")], now);
            var msgs := [Delivery(map[], junk), Delivery(map[], body)];
            var after := Replay(ClearHandler(_ => None), carts, Dispatch(msgs, decode));
            GetCart(after, "u1", later, NoFetchFaults).result == Ok(CartDocument("u1", [], later))
  {
    var carts := AddAll(store, "u1", [CartItem("p1", 2, ""), CartItem("p2", 1, "")], now);
    var msgs := [Delivery(map[], junk), Delivery(map[], body)];
    ConfirmedOrderEmptiesCart(carts, msgs, decode, _ => None, 1, later);
  }
}
