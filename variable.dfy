/**
 * Observable value cells (`variable.make` and `variable.map`).
 *
 * A Cell is `make` applied to one host field (an input's text or its checked
 * flag): reading the cell reads the field, writing it writes the field. A
 * MappedCell is `map(cell, {getter, setter})`: it reads through the getter,
 * writes through the setter, and listens to the cell it maps.
 */
module Variable {
  import opened Listeners

  class Cell<V> {
    /** The host field the cell reads and writes. */
    var value: V
    var listening: bool
    var listeners: seq<Listener>
    /** How many change handlers the cell has attached to the host field. */
    var attached: nat
    /** Every listener call the cell has made so far. */
    var trace: seq<Delivery<V>>

    ghost predicate Valid()
      reads this
    {
      && listening == (listeners != [])
      && attached == (if listening then 1 else 0)
    }

    constructor (initial: V)
      ensures Valid()
      ensures value == initial && listeners == [] && trace == []
    {
      value := initial;
      listening := false;
      listeners := [];
      attached := 0;
      trace := [];
    }

    function Get(): V
      reads this
    {
      value
    }

    /** The change handler: reads the field afresh and calls every listener with it. */
    method OnChange()
      modifies this`trace
      ensures trace == old(trace) + Broadcast(listeners, Get())
    {
      var calls := Notify(listeners, Get());
      trace := trace + calls;
    }

    /** Writes the host field, then notifies every listener with the value read back. */
    method Set(v: V)
      requires Valid()
      modifies this
      ensures Valid() && Get() == v
      ensures listening == old(listening) && listeners == old(listeners) && attached == old(attached)
      ensures trace == old(trace) + Broadcast(listeners, Get())
    {
      value := v;
      OnChange();
    }

    /** Registers a listener and calls it at once with the current value; the
        first registration attaches the one change handler to the host field. */
    method Listen(l: Listener)
      requires Valid()
      modifies this
      ensures Valid() && listening && value == old(value)
      ensures listeners == old(listeners) + [l]
      ensures trace == old(trace) + [Delivery(l, Get())]
      ensures attached == 1
    {
      listeners := listeners + [l];
      trace := trace + [Delivery(l, Get())];
      if !listening {
        attached := attached + 1;
        listening := true;
      }
    }

    /** The host changes the field (the user edits the input) and fires its
        change event, which runs each attached handler. */
    method HostChange(v: V)
      requires Valid()
      modifies this
      ensures Valid() && Get() == v
      ensures listening == old(listening) && listeners == old(listeners) && attached == old(attached)
      ensures trace == old(trace) + Broadcast(listeners, v)
    {
      value := v;
      if attached == 1 {
        OnChange();
      }
    }
  }

  class MappedCell<U, V> {
    const base: Cell<U>
    const getter: U -> V
    const setter: V -> U
    var listening: bool
    var listeners: seq<Listener>
    var trace: seq<Delivery<V>>

    /** The mapped cell is the only user of its base cell, so the base's
        only listener is this cell's change handler, once this cell listens. */
    ghost predicate Valid()
      reads this, base
    {
      && base.Valid()
      && listening == (listeners != [])
      && base.listeners == (if listening then [Forward] else [])
    }

    constructor (base: Cell<U>, getter: U -> V, setter: V -> U)
      requires base.Valid() && base.listeners == []
      ensures Valid()
      ensures this.base == base && this.getter == getter && this.setter == setter
      ensures listeners == [] && trace == []
    {
      this.base := base;
      this.getter := getter;
      this.setter := setter;
      listening := false;
      listeners := [];
      trace := [];
    }

    function Get(): V
      reads this, base
    {
      getter(base.Get())
    }

    method OnChange()
      modifies this`trace
      ensures trace == old(trace) + Broadcast(listeners, Get())
    {
      var calls := Notify(listeners, Get());
      trace := trace + calls;
    }

    /** Writes `setter(v)` through the base cell. The base notifies its own
        listener (this cell's change handler) and then this cell notifies
        again, so each listener is called twice with the value read back. */
    method Set(v: V)
      requires Valid()
      modifies this, base
      ensures Valid()
      ensures base.Get() == setter(v) && Get() == getter(setter(v))
      ensures listening == old(listening) && listeners == old(listeners)
      ensures base.attached == old(base.attached)
      ensures trace == old(trace) + Broadcast(listeners, Get()) + Broadcast(listeners, Get())
    {
      base.Set(setter(v));
      if listening {
        OnChange();
      }
      OnChange();
    }

    /** Registers a listener and calls it with the current value. The first
        registration subscribes this cell's change handler to the base cell,
        which replays the base's value to it, so the first listener is called
        a second time. */
    method Listen(l: Listener)
      requires Valid()
      modifies this, base
      ensures Valid() && listening && base.value == old(base.value)
      ensures listeners == old(listeners) + [l]
      ensures base.attached == 1
      ensures old(listening) ==> trace == old(trace) + [Delivery(l, Get())]
      ensures !old(listening) ==> trace == old(trace) + [Delivery(l, Get()), Delivery(l, Get())]
    {
      listeners := listeners + [l];
      trace := trace + [Delivery(l, Get())];
      if !listening {
        base.Listen(Forward);
        OnChange();
        listening := true;
      }
    }

    /** The user edits the base cell's host field. */
    method HostChange(u: U)
      requires Valid()
      modifies this, base
      ensures Valid() && base.Get() == u
      ensures listening == old(listening) && listeners == old(listeners)
      ensures base.attached == old(base.attached)
      ensures trace == old(trace) + Broadcast(listeners, getter(u))
    {
      base.HostChange(u);
      if listening {
        OnChange();
      }
    }
  }
}
