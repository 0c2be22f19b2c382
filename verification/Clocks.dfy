/** The process-wide monotone clock. */
module Clocks {
  import opened Prelude

  class Clock {
    var now: Time

    constructor ()
    {
      now := 0;
    }

    /** Reads the clock; an arbitrary amount of time may have passed since the last read. */
    method Read() returns (t: Time)
      modifies this
      ensures old(now) <= now == t
    {
      var passed: nat :| true;
      now := now + passed;
      t := now;
    }

    /** Blocks for at least `duration`. */
    method Sleep(duration: Time)
      modifies this
      ensures old(now) + duration <= now
    {
      var late: nat :| true;
      now := now + duration + late;
    }
  }
}
