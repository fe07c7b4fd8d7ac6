/** The order-confirmed event consumer (internal/broker/consumer.go): the
    event type and the body of the consume loop. The loop is modelled over a
    finite sequence of deliveries; JSON decoding is an abstract partial
    function `decode`, and the handler is a state transformer. */
module Consumer {
  import opened Results
  import opened Carrier

  /** The inbound fact that a user's order went through. */
  datatype OrderConfirmedEvent = OrderConfirmedEvent(orderId: string, userId: string)

  /** One message taken off the queue: its headers and its raw body. */
  datatype Delivery = Delivery(headers: map<string, HeaderValue>, body: seq<bv8>)

  /** One call of the handler: the carrier the trace context is extracted
      from, and the decoded event. */
  datatype Invocation = Invocation(carrier: TraceCarrier, event: OrderConfirmedEvent)

  /** Copy every header of a delivery into a fresh carrier, values as they
      are (non-text values included). */
  method CopyHeaders(headers: map<string, HeaderValue>) returns (carrier: TraceCarrier)
    ensures carrier.Keys == headers.Keys
    ensures forall k :: k in carrier ==> carrier[k] == headers[k]
  {
    carrier := map[];
    var rest := headers.Keys;
    while rest != {}
      invariant rest <= headers.Keys
      invariant carrier.Keys == headers.Keys - rest
      invariant forall k :: k in carrier ==> carrier[k] == headers[k]
      decreases rest
    {
      var k :| k in rest;
      carrier := carrier[k := headers[k]];
      rest := rest - {k};
    }
  }

  /** The per-message rule: a body that decodes yields one handler call on
      the delivery's headers; one that does not yields none. */
  function Receive(d: Delivery, decode: seq<bv8> -> Option<OrderConfirmedEvent>): seq<Invocation> {
    match decode(d.body)
    case None => []
    case Some(event) => [Invocation(d.headers, event)]
  }

  /** The handler calls the loop makes over `msgs`, in order. */
  function Dispatch(msgs: seq<Delivery>, decode: seq<bv8> -> Option<OrderConfirmedEvent>): seq<Invocation>
    decreases |msgs|
  {
    if |msgs| == 0 then []
    else Dispatch(msgs[..|msgs| - 1], decode) + Receive(msgs[|msgs| - 1], decode)
  }

  /** The positions of the well-formed deliveries, ascending. */
  function Positions(msgs: seq<Delivery>, decode: seq<bv8> -> Option<OrderConfirmedEvent>): seq<nat>
    decreases |msgs|
  {
    if |msgs| == 0 then []
    else Positions(msgs[..|msgs| - 1], decode)
         + (if decode(msgs[|msgs| - 1].body).Some? then [|msgs| - 1] else [])
  }

  /** Running the handler over a sequence of calls, threading its state. */
  function Replay<S>(handler: (S, Invocation) -> S, s: S, calls: seq<Invocation>): S
    decreases |calls|
  {
    if |calls| == 0 then s
    else handler(Replay(handler, s, calls[..|calls| - 1]), calls[|calls| - 1])
  }

  /** Strictly ascending indices below `bound`. */
  predicate Ascending(pos: seq<nat>, bound: int) {
    && (forall i :: 0 <= i < |pos| ==> pos[i] < bound)
    && (forall i, j :: 0 <= i < j < |pos| ==> pos[i] < pos[j])
  }

  /** The positions are ascending indices into the delivery stream. */
  lemma {:induction false} PositionsAscending(msgs: seq<Delivery>, decode: seq<bv8> -> Option<OrderConfirmedEvent>)
    ensures Ascending(Positions(msgs, decode), |msgs|)
    decreases |msgs|
  {
    if |msgs| > 0 {
      var init := msgs[..|msgs| - 1];
      PositionsAscending(init, decode);
      var pos, pos' := Positions(msgs, decode), Positions(init, decode);
      assert forall i :: 0 <= i < |pos'| ==> pos[i] == pos'[i];
    }
  }

  /** Exactly the well-formed deliveries have their position listed. */
  lemma {:induction false} PositionsComplete(msgs: seq<Delivery>, decode: seq<bv8> -> Option<OrderConfirmedEvent>)
    ensures forall j :: 0 <= j < |msgs| ==> (decode(msgs[j].body).Some? <==> j in Positions(msgs, decode))
    decreases |msgs|
  {
    if |msgs| > 0 {
      var init := msgs[..|msgs| - 1];
      PositionsComplete(init, decode);
      PositionsAscending(init, decode);
      assert forall j :: 0 <= j < |init| ==> init[j] == msgs[j];
    }
  }

  /** The i-th handler call is made for the i-th well-formed delivery. */
  lemma {:induction false} DispatchMatchesPositions(msgs: seq<Delivery>, decode: seq<bv8> -> Option<OrderConfirmedEvent>)
    ensures |Dispatch(msgs, decode)| == |Positions(msgs, decode)|
    ensures var calls, pos := Dispatch(msgs, decode), Positions(msgs, decode);
            forall i :: 0 <= i < |pos| ==>
              pos[i] < |msgs| && decode(msgs[pos[i]].body).Some? && calls[i] == Invocation(msgs[pos[i]].headers, decode(msgs[pos[i]].body).value)
    decreases |msgs|
  {
    if |msgs| > 0 {
      var init := msgs[..|msgs| - 1];
      DispatchMatchesPositions(init, decode);
      PositionsAscending(init, decode);
      assert forall j :: 0 <= j < |init| ==> init[j] == msgs[j];
    }
  }

  /** The handler is called exactly once per well-formed delivery, in
      delivery order, on that delivery's headers and decoded event; a
      delivery that fails to decode causes no call. */
  lemma DispatchInDeliveryOrder(msgs: seq<Delivery>, decode: seq<bv8> -> Option<OrderConfirmedEvent>)
    ensures var calls, pos := Dispatch(msgs, decode), Positions(msgs, decode);
            && |calls| == |pos|
            && Ascending(pos, |msgs|)
            && (forall j :: 0 <= j < |msgs| ==> (decode(msgs[j].body).Some? <==> j in pos))
            && (forall i :: 0 <= i < |pos| ==>
                  pos[i] < |msgs| && decode(msgs[pos[i]].body).Some? && calls[i] == Invocation(msgs[pos[i]].headers, decode(msgs[pos[i]].body).value))
  {
    PositionsAscending(msgs, decode);
    PositionsComplete(msgs, decode);
    DispatchMatchesPositions(msgs, decode);
  }

  /** Processing continues across any split of the delivery stream. */
  lemma {:induction false} DispatchAppend(a: seq<Delivery>, b: seq<Delivery>, decode: seq<bv8> -> Option<OrderConfirmedEvent>)
    ensures Dispatch(a + b, decode) == Dispatch(a, decode) + Dispatch(b, decode)
    decreases |b|
  {
    if |b| == 0 {
      assert a + b == a;
    } else {
      var b' := b[..|b| - 1];
      DispatchAppend(a, b', decode);
      assert (a + b)[..|a + b| - 1] == a + b';
      assert (a + b)[|a + b| - 1] == b[|b| - 1];
    }
  }

  /** A delivery that fails to decode is dropped and the deliveries after it
      are handled as if it had never arrived. */
  lemma MalformedSkipped(a: seq<Delivery>, m: Delivery, b: seq<Delivery>, decode: seq<bv8> -> Option<OrderConfirmedEvent>)
    requires decode(m.body).None?
    ensures Dispatch(a + [m] + b, decode) == Dispatch(a + b, decode)
  {
    DispatchAppend(a + [m], b, decode);
    DispatchAppend(a, [m], decode);
    DispatchAppend(a, b, decode);
    assert [m][..0] == [];
  }

  /** The consume loop: for each delivery, copy its headers into a carrier,
      decode its body, drop it when decoding fails, otherwise call the
      handler once. Returns the handler's final state and the calls made. */
  method ConsumeLoop<S>(msgs: seq<Delivery>, decode: seq<bv8> -> Option<OrderConfirmedEvent>,
                        handler: (S, Invocation) -> S, s0: S)
    returns (s: S, calls: seq<Invocation>)
    ensures calls == Dispatch(msgs, decode)
    ensures s == Replay(handler, s0, calls)
  {
    s, calls := s0, [];
    for i := 0 to |msgs|
      invariant calls == Dispatch(msgs[..i], decode)
      invariant s == Replay(handler, s0, calls)
    {
      assert msgs[..i + 1][..i] == msgs[..i];
      assert Dispatch(msgs[..i + 1], decode) == Dispatch(msgs[..i], decode) + Receive(msgs[i], decode);
      var carrier := CopyHeaders(msgs[i].headers);
      assert carrier == msgs[i].headers;
      var decoded := decode(msgs[i].body);
      if decoded.None? {
        continue;
      }
      var call := Invocation(carrier, decoded.value);
      calls := calls + [call];
      s := handler(s, call);
    }
    assert msgs[..|msgs|] == msgs;
  }
}
