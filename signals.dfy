/**
 * The event signal of the log, as values. A signal keeps its connected
 * handlers ("slots") in connection order; connecting a slot that is already
 * connected leaves the connections as they are. Emitting a batch calls every
 * connected slot once, in connection order, with that batch.
 */
module Signals {

  /** No slot is connected twice. */
  ghost predicate NoDup<H>(slots: seq<H>) {
    forall i, j :: 0 <= i < j < |slots| ==> slots[i] != slots[j]
  }

  /** Connections after connecting `h`. */
  function Connect<H(==)>(slots: seq<H>, h: H): (r: seq<H>)
    ensures h in r
    ensures forall x :: x in r ==> x in slots || x == h
    ensures |slots| <= |r| && r[..|slots|] == slots
    ensures NoDup(slots) ==> NoDup(r)
  {
    if h in slots then slots else slots + [h]
  }

  /** Connections after connecting each of `handlers` in turn to a fresh signal. */
  function ConnectAll<H(==)>(handlers: seq<H>): (r: seq<H>)
    ensures NoDup(r)
    ensures forall x :: x in r ==> x in handlers
    ensures forall x :: x in handlers ==> x in r
  {
    if handlers == [] then []
    else Connect(ConnectAll(handlers[..|handlers| - 1]), handlers[|handlers| - 1])
  }

  /** Connecting the handlers one more at a time, as a loop does. */
  lemma ConnectAllPrefix<H>(handlers: seq<H>, i: nat)
    requires i < |handlers|
    ensures ConnectAll(handlers[..i + 1]) == Connect(ConnectAll(handlers[..i]), handlers[i])
  {
    assert handlers[..i + 1][..i] == handlers[..i];
  }

  /** The slot calls made by one emission of `batch`, in order. */
  ghost function Fanout<H, E>(slots: seq<H>, batch: E): seq<(H, E)>
  {
    if slots == [] then []
    else Fanout(slots[..|slots| - 1], batch) + [(slots[|slots| - 1], batch)]
  }

  /** The slot calls made by emitting each of `emitted` in turn. */
  ghost function Deliveries<H, E>(slots: seq<H>, emitted: seq<E>): seq<(H, E)>
  {
    if emitted == [] then []
    else Deliveries(slots, emitted[..|emitted| - 1]) + Fanout(slots, emitted[|emitted| - 1])
  }

  /** The batches slot `h` was called with, in order. */
  ghost function ReceivedBy<H, E>(calls: seq<(H, E)>, h: H): seq<E>
  {
    if calls == [] then []
    else
      var last := calls[|calls| - 1];
      ReceivedBy(calls[..|calls| - 1], h) + (if last.0 == h then [last.1] else [])
  }

  lemma {:induction false} ReceivedByAppend<H, E>(a: seq<(H, E)>, b: seq<(H, E)>, h: H)
    ensures ReceivedBy(a + b, h) == ReceivedBy(a, h) + ReceivedBy(b, h)
  {
    if b != [] {
      var b' := b[..|b| - 1];
      assert (a + b)[..|a + b| - 1] == a + b';
      ReceivedByAppend(a, b', h);
    } else {
      assert a + b == a;
    }
  }

  /** One emission reaches each connected slot exactly once and no other. */
  lemma {:induction false} FanoutReachesEachSlotOnce<H, E>(slots: seq<H>, batch: E, h: H)
    requires NoDup(slots)
    ensures ReceivedBy(Fanout(slots, batch), h) == if h in slots then [batch] else []
  {
    if slots != [] {
      var init := slots[..|slots| - 1];
      assert NoDup(init);
      FanoutReachesEachSlotOnce(init, batch, h);
      var calls := Fanout(slots, batch);
      assert calls[..|calls| - 1] == Fanout(init, batch);
      assert h in slots <==> h in init || h == slots[|slots| - 1];
      if h in init {
        var k :| 0 <= k < |init| && init[k] == h;
        assert slots[k] == h;
      }
    }
  }

  /**
   * With no slot connected twice, every connected slot receives every
   * emitted batch exactly once and in emission order; any other slot
   * receives nothing. An emission is one atomic step: handlers that emit
   * again on the same signal while being called are not modelled.
   */
  lemma {:induction false} EverySlotReceivesEveryBatch<H, E>(slots: seq<H>, emitted: seq<E>, h: H)
    requires NoDup(slots)
    ensures ReceivedBy(Deliveries(slots, emitted), h) == if h in slots then emitted else []
  {
    if emitted != [] {
      var init := emitted[..|emitted| - 1];
      EverySlotReceivesEveryBatch(slots, init, h);
      ReceivedByAppend(Deliveries(slots, init), Fanout(slots, emitted[|emitted| - 1]), h);
      FanoutReachesEachSlotOnce(slots, emitted[|emitted| - 1], h);
      assert init + [emitted[|emitted| - 1]] == emitted;
    }
  }
}
