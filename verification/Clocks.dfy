/** The wall clock the worker reads with Date.now() and waits on with setTimeout. */
module Clocks {
  class Clock {
    var now: int

    constructor (start: int)
      ensures now == start
    {
      now := start;
    }

    /** Time passes while other code runs; how much is not known. */
    method Pass()
      modifies this
      ensures now >= old(now)
    {
      var late :| 0 <= late;
      now := now + late;
    }

    /** Time passes by as much as the surroundings say. */
    method Advance(ms: nat)
      modifies this
      ensures now == old(now) + ms
    {
      now := now + ms;
    }
  }
}
