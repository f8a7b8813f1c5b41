/** The hand-over of events from one thread to another (EventQueue.hpp). */
module EventQueues {
  /** Whoever takes events takes all of them; nothing is lost, doubled or reordered on the way. */
  class EventQueue<E> {
    var pending: seq<E>
    ghost var pushed: seq<E>
    ghost var taken: seq<E>

    ghost predicate Valid()
      reads this
    {
      pushed == taken + pending
    }

    constructor ()
      ensures Valid() && pending == [] && pushed == [] && taken == []
    {
      pending := [];
      pushed, taken := [], [];
    }

    method Push(event: E)
      requires Valid()
      modifies this
      ensures Valid() && pending == old(pending) + [event]
      ensures pushed == old(pushed) + [event] && taken == old(taken)
    {
      pending := pending + [event];
      pushed := pushed + [event];
    }

    method GetEvents() returns (events: seq<E>)
      requires Valid()
      modifies this
      ensures Valid() && events == old(pending) && pending == []
      ensures pushed == old(pushed) && taken == old(taken) + events
    {
      events := pending;
      pending := [];
      taken := taken + events;
    }

    /** Blocks until there is something to take. */
    method Wait() returns (events: seq<E>)
      requires Valid() && pending != []
      modifies this
      ensures Valid() && events == old(pending) && pending == []
      ensures pushed == old(pushed) && taken == old(taken) + events
    {
      events := GetEvents();
    }
  }
}
