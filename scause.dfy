/**
 * The trap causes the dispatcher distinguishes, as read from the Supervisor
 * Cause Register (scause, section 4.1.8 of the RISC-V Privileged Architecture,
 * version 20211203), and the machine word those registers hold.
 *
 * Decoding the raw scause bits into these values happens outside the core, so
 * a Trap is taken as given. Only the three causes the dispatcher names get
 * constructors of their own; every other architecture-defined cause is kept
 * as its raw code, and a value the decoder does not recognise is Unknown.
 */
module Scause {
  /** A 64-bit machine word (`usize` on a 64-bit RISC-V hart). */
  newtype Word = w: int | 0 <= w < 0x1_0000_0000_0000_0000

  /** Synchronous causes (interrupt bit of scause clear). */
  datatype Exception =
    | Breakpoint                    // exception code 3 (ebreak)
    | LoadFault                     // exception code 5 (load access fault)
    | OtherException(code: nat)     // any other exception code

  /** Asynchronous causes (interrupt bit of scause set). */
  datatype Interrupt =
    | SupervisorTimer               // interrupt code 5
    | OtherInterrupt(code: nat)     // any other interrupt code

  datatype Trap =
    | Exception(exception: Exception)
    | Interrupt(interrupt: Interrupt)
    | Unknown

  /** The causes the dispatcher has a dedicated handler for. */
  predicate Handled(t: Trap) {
    t == Exception(Breakpoint) || t == Exception(LoadFault) || t == Interrupt(SupervisorTimer)
  }

  /** The causes after which the system does not resume. */
  predicate Fatal(t: Trap) {
    t == Exception(LoadFault) || !Handled(t)
  }
}
