/**
 * The register context the trap entry code saves before calling the
 * dispatcher and restores after it returns.
 *
 * The layout file of the context is not part of this model: the context is
 * the array of saved general registers, kept opaque, and the saved program
 * counter `sepc`, where execution resumes. No handler reads or writes
 * anything but `sepc`.
 */
module TrapContext {
  import opened Scause

  /** The value of a saved context at one instant. */
  datatype ContextState = ContextState(x: seq<Word>, sepc: Word)

  /** The saved context, which the dispatcher receives by mutable borrow. */
  class Context {
    var x: array<Word>
    var sepc: Word

    constructor (registers: seq<Word>, pc: Word)
      ensures x.Length == |registers| && fresh(x)
      ensures State() == ContextState(registers, pc)
    {
      x := new Word[|registers|](i requires 0 <= i < |registers| => registers[i]);
      sepc := pc;
    }

    /** The value this context holds now. */
    function State(): (s: ContextState)
      reads this, x
      ensures |s.x| == x.Length && s.sepc == sepc
    {
      ContextState(x[..], sepc)
    }
  }
}
