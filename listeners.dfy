/**
 * Listener callbacks as data. A callback invocation `listener(value)` is
 * recorded as a Delivery; `listeners.forEach(l => l(value))` produces the
 * deliveries Broadcast describes, one per registered listener, in
 * registration order.
 */
module Listeners {

  /** A registered callback: a client callback known by a number, or the
      change handler that a mapped cell attaches to the cell it maps. */
  datatype Listener = Client(id: nat) | Forward

  /** One call of a listener with a value. */
  datatype Delivery<V> = Delivery(to: Listener, value: V)

  /** The calls that notifying the listeners `ls` of `value` makes, in order. */
  function Broadcast<V>(ls: seq<Listener>, value: V): seq<Delivery<V>>
  {
    if ls == [] then [] else Broadcast(ls[..|ls| - 1], value) + [Delivery(ls[|ls| - 1], value)]
  }

  /** Each registered listener is called exactly once, at its registration
      position, with the value. */
  lemma {:induction false} BroadcastAt<V>(ls: seq<Listener>, value: V)
    ensures |Broadcast(ls, value)| == |ls|
    ensures forall k :: 0 <= k < |ls| ==> Broadcast(ls, value)[k] == Delivery(ls[k], value)
  {
    if ls != [] {
      BroadcastAt(ls[..|ls| - 1], value);
    }
  }

  /** The `forEach` notification loop: calls every listener in `ls` with `value`. */
  method Notify<V>(ls: seq<Listener>, value: V) returns (calls: seq<Delivery<V>>)
    ensures calls == Broadcast(ls, value)
  {
    calls := [];
    for i := 0 to |ls|
      invariant calls == Broadcast(ls[..i], value)
    {
      assert ls[..i + 1][..i] == ls[..i];
      calls := calls + [Delivery(ls[i], value)];
    }
    assert ls[..|ls|] == ls;
  }
}
