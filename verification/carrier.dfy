/** The trace-context carrier of the event consumer
    (internal/broker/consumer.go): a map from header name to an AMQP field
    value, read and written as text by the trace propagator. */
module Carrier {

  /** An AMQP header value: text, or any other field type, kept as an
      opaque rendering. */
  datatype HeaderValue = Text(text: string) | NonText(rendering: string)

  type TraceCarrier = map<string, HeaderValue>

  /** The text stored under `key`, or "" when the key is absent or its value
      is not text. */
  function Get(c: TraceCarrier, key: string): (r: string)
    ensures key in c && c[key].Text? ==> r == c[key].text
    ensures key !in c || c[key].NonText? ==> r == ""
  {
    if key in c then
      match c[key]
      case Text(s) => s
      case NonText(_) => ""
    else ""
  }

  /** Store `val` as text under `key`. */
  function Set(c: TraceCarrier, key: string, val: string): (r: TraceCarrier)
    ensures r.Keys == c.Keys + {key}
    ensures r[key] == Text(val)
    ensures forall k :: k in c && k != key ==> r[k] == c[k]
  {
    c[key := Text(val)]
  }

  /** A written value reads back, and no other key's reading moves. */
  lemma GetAfterSet(c: TraceCarrier, key: string, val: string, other: string)
    requires other != key
    ensures Get(Set(c, key, val), key) == val
    ensures Get(Set(c, key, val), other) == Get(c, other)
  {
  }

  /** The carrier's keys, each exactly once, in the unspecified order of a
      Go map traversal (any order may come back). */
  method Keys(c: TraceCarrier) returns (keys: seq<string>)
    ensures |keys| == |c|
    ensures forall k :: k in keys <==> k in c
    ensures forall i, j :: 0 <= i < j < |keys| ==> keys[i] != keys[j]
  {
    keys := [];
    var rest := c.Keys;
    while rest != {}
      invariant rest <= c.Keys
      invariant forall k :: k in keys <==> k in c && k !in rest
      invariant forall i, j :: 0 <= i < j < |keys| ==> keys[i] != keys[j]
      invariant |keys| + |rest| == |c.Keys|
      decreases rest
    {
      var k :| k in rest;
      keys := keys + [k];
      rest := rest - {k};
    }
  }
}
