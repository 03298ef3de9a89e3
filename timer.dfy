/**
 * The tick counter of the timer module. Only the counting it does on every
 * supervisor timer interrupt is modelled; the rest of that module is not part
 * of this model.
 */
module Timer {
  /** The process-wide count of timer interrupts handled so far. */
  class TickCounter {
    var ticks: nat

    constructor ()
      ensures ticks == 0
    {
      ticks := 0;
    }

    /** Counts one timer interrupt. */
    method Tick()
      modifies this`ticks
      ensures ticks == old(ticks) + 1
    {
      ticks := ticks + 1;
    }
  }
}
