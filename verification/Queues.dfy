/** The two buffers between the request handlers and the database thread. Each
    method body is one critical section of the source. */
module Queues {
  import opened Metrics

  class EventQueue {
    var pending: seq<Event>
    const maxPending: nat
    var dropped: nat

    ghost predicate Valid() reads this { |pending| <= maxPending }

    constructor (maxPending: nat)
      ensures Valid() && this.maxPending == maxPending && pending == [] && dropped == 0
    {
      this.pending, this.maxPending, this.dropped := [], maxPending, 0;
    }

    /** Refuses, and counts, exactly the events that find the buffer full. */
    method Push(ev: Event) returns (accepted: bool)
      requires Valid()
      modifies this`pending, this`dropped
      ensures Valid()
      ensures accepted <==> |old(pending)| < maxPending
      ensures pending == if accepted then old(pending) + [ev] else old(pending)
      ensures dropped == if accepted then old(dropped) else old(dropped) + 1
    {
      if |pending| >= maxPending {
        dropped := dropped + 1;
        return false;
      }
      pending := pending + [ev];
      return true;
    }

    method Drain() returns (out: seq<Event>)
      requires Valid()
      modifies this`pending
      ensures Valid() && pending == [] && out == old(pending)
    {
      out := [];
      pending, out := out, pending;
    }
  }

  class ConversionQueue {
    var pending: seq<Conversion>

    constructor ()
      ensures pending == []
    {
      pending := [];
    }

    /** Unbounded: every postback is taken. */
    method Push(c: Conversion) returns (accepted: bool)
      modifies this`pending
      ensures accepted && pending == old(pending) + [c]
    {
      pending := pending + [c];
      return true;
    }

    method Drain() returns (out: seq<Conversion>)
      modifies this`pending
      ensures pending == [] && out == old(pending)
    {
      out := [];
      pending, out := out, pending;
    }
  }
}
