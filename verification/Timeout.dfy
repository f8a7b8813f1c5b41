/** The timer that wakes the IEC state machine up (Timeout.hpp). */
module Timers {
  /** Stays running after it has expired, until it is stopped. */
  class AsyncTimeout {
    var running: bool
    var limit: int
    var startTime: int

    constructor ()
      ensures !running
    {
      running := false;
    }

    method Start(t: int, now: int)
      modifies this
      ensures running && limit == t && startTime == now
    {
      if running {
        running := false;
      }
      limit := t;
      startTime := now;
      running := true;
    }

    method Stop()
      modifies `running
      ensures !running
    {
      if running {
        running := false;
      }
    }

    predicate Reached(now: int)
      reads this
    {
      running && now - startTime > limit
    }
  }
}
