/**
 * The latest-values combinator (`combineLatest`): waits until every source
 * has reported once, then hands a copy of all latest values to every
 * listener on each report from any source.
 *
 * The class keeps the incremental state (`waitingFor`, `latest`); the
 * functions below define the same state from the history of reports, and
 * the class invariant ties the two together.
 */
module CombineLatest {
  import opened Wrappers
  import opened Listeners

  /** Source `source` called its handler with `value`. */
  datatype Report<V> = Report(source: nat, value: V)

  /** The value source `i` reported last in `rs`, if it reported at all. */
  function LastReport<V>(rs: seq<Report<V>>, i: nat): Option<V>
  {
    if rs == [] then None
    else if rs[|rs| - 1].source == i then Some(rs[|rs| - 1].value)
    else LastReport(rs[..|rs| - 1], i)
  }

  ghost predicate HasReported<V>(rs: seq<Report<V>>, i: nat)
  {
    exists k :: 0 <= k < |rs| && rs[k].source == i
  }

  /** Indices among the first `n` that have not reported yet. */
  function Pending<V>(n: nat, rs: seq<Report<V>>): set<nat>
  {
    set i | 0 <= i < n && LastReport(rs, i).None?
  }

  /** The latest value of each of the first `n` sources. */
  function Slots<V>(n: nat, rs: seq<Report<V>>): (r: seq<Option<V>>)
    ensures |r| == n
  {
    seq(n, (i: int) requires 0 <= i => LastReport(rs, i))
  }

  /** A source has a latest value exactly when it has reported. */
  lemma {:induction false} LastReportIffReported<V>(rs: seq<Report<V>>, i: nat)
    ensures LastReport(rs, i).Some? <==> HasReported(rs, i)
  {
    if rs != [] {
      var init := rs[..|rs| - 1];
      LastReportIffReported(init, i);
      if HasReported(init, i) {
        var k :| 0 <= k < |init| && init[k].source == i;
        assert rs[k].source == i;
      }
      if rs[|rs| - 1].source != i && HasReported(rs, i) {
        var k :| 0 <= k < |rs| && rs[k].source == i;
        assert init[k].source == i;
      }
    }
  }

  /** Nothing is delivered before every source has reported: the pending set
      is empty exactly when each of the `n` sources has reported at least once. */
  lemma PendingEmptyIffAllReported<V>(n: nat, rs: seq<Report<V>>)
    ensures Pending(n, rs) == {} <==> forall i :: 0 <= i < n ==> HasReported(rs, i)
  {
    forall i | 0 <= i < n {
      LastReportIffReported(rs, i);
    }
    if Pending(n, rs) == {} {
      forall i | 0 <= i < n ensures HasReported(rs, i) {
        assert i !in Pending(n, rs);
      }
    }
  }

  /** One report removes its source from the pending set and nothing else:
      the pending set only shrinks, and once empty it stays empty. */
  lemma PendingAfterReport<V>(n: nat, rs: seq<Report<V>>, r: Report<V>)
    ensures Pending(n, rs + [r]) == Pending(n, rs) - {r.source}
  {
  }

  /** One report overwrites its own slot and leaves the others unchanged. */
  lemma SlotsAfterReport<V>(n: nat, rs: seq<Report<V>>, r: Report<V>)
    requires r.source < n
    ensures Slots(n, rs + [r]) == Slots(n, rs)[r.source := Some(r.value)]
  {
  }

  /** The values of a fully reported slot array. */
  function Values<V>(slots: seq<Option<V>>): (r: seq<V>)
    requires forall i :: 0 <= i < |slots| ==> slots[i].Some?
    ensures |r| == |slots|
    ensures forall i :: 0 <= i < |slots| ==> slots[i] == Some(r[i])
  {
    seq(|slots|, i requires 0 <= i < |slots| => slots[i].value)
  }

  class Combinator<V> {
    /** The number of sources combined. */
    const n: nat
    var listening: bool
    var listeners: seq<Listener>
    /** How many times each source has been subscribed to. */
    var subscriptions: seq<nat>
    var waitingFor: set<nat>
    var latest: seq<Option<V>>
    /** Every snapshot handed to a listener so far. */
    var delivered: seq<Delivery<seq<V>>>
    /** Every report received so far, in order. */
    ghost var reports: seq<Report<V>>

    ghost predicate Valid()
      reads this
    {
      && |subscriptions| == n
      && (forall i :: 0 <= i < n ==> subscriptions[i] == if listening then 1 else 0)
      && listening == (listeners != [])
      && (forall k :: 0 <= k < |reports| ==> reports[k].source < n)
      && (reports != [] ==> listening)
      && waitingFor == Pending(n, reports)
      && latest == Slots(n, reports)
      // nothing is delivered until every source has reported
      && (waitingFor != {} ==> delivered == [])
    }

    constructor (n: nat)
      ensures Valid() && this.n == n
      ensures listeners == [] && reports == [] && delivered == []
      ensures forall i :: i in waitingFor <==> 0 <= i < n
    {
      this.n := n;
      listening := false;
      listeners := [];
      subscriptions := seq(n, i => 0);
      waitingFor := Pending<V>(n, []);
      latest := seq(n, i => None);
      delivered := [];
      reports := [];
    }

    /** The copy of the latest values handed to listeners. */
    function Snapshot(): (r: seq<V>)
      requires Valid() && waitingFor == {}
      reads this
      ensures |r| == n
      ensures forall i :: 0 <= i < n ==> LastReport(reports, i) == Some(r[i])
    {
      assert forall i :: 0 <= i < n ==> latest[i].Some? by {
        forall i | 0 <= i < n ensures latest[i].Some? {
          assert i !in Pending(n, reports);
        }
      }
      Values(latest)
    }

    /** Registers a listener; the first registration subscribes to every
        source, later ones only register. */
    method Listen(l: Listener)
      requires Valid()
      modifies this
      ensures Valid() && listening
      ensures listeners == old(listeners) + [l]
      ensures forall i :: 0 <= i < n ==> subscriptions[i] == 1
      ensures old(listening) ==> subscriptions == old(subscriptions)
      ensures reports == old(reports) && waitingFor == old(waitingFor)
      ensures latest == old(latest) && delivered == old(delivered)
    {
      listeners := listeners + [l];
      if !listening {
        var subscribed := subscriptions;
        for idx := 0 to n
          invariant |subscribed| == n
          invariant forall i :: 0 <= i < idx ==> subscribed[i] == 1
          invariant forall i :: idx <= i < n ==> subscribed[i] == 0
        {
          subscribed := subscribed[idx := subscribed[idx] + 1];
        }
        subscriptions := subscribed;
        listening := true;
      }
    }

    /** The handler subscribed to source `idx` receives `v`. */
    method OnReport(idx: nat, v: V)
      requires Valid() && listening && idx < n
      modifies this
      ensures Valid()
      ensures reports == old(reports) + [Report(idx, v)]
      ensures listening && listeners == old(listeners) && subscriptions == old(subscriptions)
      ensures waitingFor == old(waitingFor) - {idx}
      ensures latest == old(latest)[idx := Some(v)]
      ensures waitingFor != {} ==> delivered == old(delivered)
      ensures waitingFor == {} ==>
        && Snapshot()[idx] == v
        && (forall i :: 0 <= i < n && i != idx ==> Some(Snapshot()[i]) == old(latest)[i])
        && delivered == old(delivered) + Broadcast(listeners, Snapshot())
    {
      PendingAfterReport(n, reports, Report(idx, v));
      SlotsAfterReport(n, reports, Report(idx, v));
      latest := latest[idx := Some(v)];
      waitingFor := waitingFor - {idx};
      reports := reports + [Report(idx, v)];
      if waitingFor == {} {
        var calls := Notify(listeners, Snapshot());
        delivered := delivered + calls;
      }
    }
  }
}
