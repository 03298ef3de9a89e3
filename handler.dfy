/**
 * The trap dispatcher: the entry function the trap entry code calls with the
 * saved context, the decoded cause and the trap value `stval`, and the four
 * handlers it routes to.
 *
 * `Step` is the meaning of one trap on the values involved (the saved
 * context and the tick counter); the methods below do the same work on the
 * objects in place and are proved against it. A handler that panics is
 * modelled as one that returns a `Halt` report and changes nothing: the
 * panic handler of the system never returns.
 */
module Handler {
  import opened Wrappers
  import opened Scause
  import opened TrapContext
  import opened Timer

  /** The four handlers a trap can be routed to. */
  datatype Route = ToBreakpoint | ToLoadFault | ToSupervisorTimer | ToFault

  /** Diagnostic lines the dispatcher and its handlers print. */
  datatype Diag =
    | Success                   // printed whenever stval is zero
    | BreakpointAt(addr: Word)  // the breakpoint handler's report of sepc

  /** What a halting handler reports before the system stops. */
  datatype HaltReason =
    | LoadFaultPanic            // the load-fault handler: context and stval
    | Unresolved(cause: Trap)   // the fallback: cause, context and stval

  datatype Halt = Halt(reason: HaltReason, context: ContextState, stval: Word)

  /** How one trap ends: back to the interrupted code, or the system stops. */
  datatype Outcome =
    | Resumed(context: ContextState, ticks: nat)
    | Halted(halt: Halt)

  datatype TrapResult = TrapResult(output: seq<Diag>, outcome: Outcome)

  /** The first-match-wins choice of handler. */
  function Select(scause: Trap): (r: Route)
    ensures r == ToFault <==> !Handled(scause)
    ensures r == ToBreakpoint ==> scause == Exception(Breakpoint)
    ensures r == ToLoadFault ==> scause == Exception(LoadFault)
    ensures r == ToSupervisorTimer ==> scause == Interrupt(SupervisorTimer)
  {
    match scause
    case Exception(Breakpoint) => ToBreakpoint
    case Exception(LoadFault) => ToLoadFault
    case Interrupt(SupervisorTimer) => ToSupervisorTimer
    case _ => ToFault
  }

  /** The line printed before dispatch: only when stval is zero. */
  function Prelude(stval: Word): seq<Diag> {
    if stval == 0 then [Success] else []
  }

  /**
   * One trap, from the saved context and tick count before it to the lines
   * printed and the way it ends.
   */
  function Step(ctx: ContextState, ticks: nat, scause: Trap, stval: Word): (r: TrapResult)
    ensures r.output == Prelude(stval) + (if scause == Exception(Breakpoint) then [BreakpointAt(ctx.sepc)] else [])
    ensures r.outcome.Halted? <==> Fatal(scause)
    ensures r.outcome.Resumed? ==> r.outcome.context.x == ctx.x && ticks <= r.outcome.ticks <= ticks + 1
    ensures r.outcome.Halted? ==> r.outcome.halt.context == ctx && r.outcome.halt.stval == stval
  {
    match Select(scause)
    case ToBreakpoint =>
      // The handler's doc comment still speaks of skipping the 2-byte ebreak;
      // the code resets the resume address to 0 instead, which is modelled.
      TrapResult(Prelude(stval) + [BreakpointAt(ctx.sepc)], Resumed(ctx.(sepc := 0), ticks))
    case ToLoadFault =>
      TrapResult(Prelude(stval), Halted(Halt(LoadFaultPanic, ctx, stval)))
    case ToSupervisorTimer =>
      TrapResult(Prelude(stval), Resumed(ctx, ticks + 1))
    case ToFault =>
      TrapResult(Prelude(stval), Halted(Halt(Unresolved(scause), ctx, stval)))
  }

  /** The outcome as seen on the objects after a handler has run. */
  function Observed(context: Context, timer: TickCounter, halted: Option<Halt>): Outcome
    reads context, context.x, timer
  {
    if halted.Some? then Halted(halted.value) else Resumed(context.State(), timer.ticks)
  }

  /** Entry point of trap handling. */
  method HandleInterrupt(context: Context, timer: TickCounter, scause: Trap, stval: Word)
    returns (output: seq<Diag>, halted: Option<Halt>)
    modifies context`sepc, timer`ticks
    ensures TrapResult(output, Observed(context, timer, halted))
         == Step(old(context.State()), old(timer.ticks), scause, stval)
    ensures halted.Some? ==> context.sepc == old(context.sepc) && timer.ticks == old(timer.ticks)
  {
    output := Prelude(stval);
    match scause
    case Exception(Breakpoint) =>
      var line := HandleBreakpoint(context);
      output := output + line;
      halted := None;
    case Exception(LoadFault) =>
      var h := HandleLoadFault(context, stval);
      halted := Some(h);
    case Interrupt(SupervisorTimer) =>
      HandleSupervisorTimer(context, timer);
      halted := None;
    case _ =>
      var h := HandleFault(context, scause, stval);
      halted := Some(h);
  }

  /**
   * The breakpoint handler: reports the resume address, then sets it to 0,
   * so that returning from the trap jumps to address 0. (Its doc comment
   * describes the older policy of skipping the ebreak by adding 2.)
   */
  method HandleBreakpoint(context: Context) returns (output: seq<Diag>)
    modifies context`sepc
    ensures context.sepc == 0
    ensures context.State() == old(context.State()).(sepc := 0)
    ensures output == [BreakpointAt(old(context.sepc))]
  {
    output := [BreakpointAt(context.sepc)];
    context.sepc := 0;
  }

  /** The load-fault handler: reports the context and stval, and stops. */
  method HandleLoadFault(context: Context, stval: Word) returns (halt: Halt)
    ensures halt.reason == LoadFaultPanic
    ensures halt.context == context.State() && halt.stval == stval
  {
    halt := Halt(LoadFaultPanic, context.State(), stval);
  }

  /** The timer handler: counts one tick and leaves the context alone. */
  method HandleSupervisorTimer(context: Context, timer: TickCounter)
    modifies timer`ticks
    ensures timer.ticks == old(timer.ticks) + 1
  {
    timer.Tick();
  }

  /** The fallback: reports the cause, the context and stval, and stops. */
  method HandleFault(context: Context, scause: Trap, stval: Word) returns (halt: Halt)
    ensures halt.reason == Unresolved(scause)
    ensures halt.context == context.State() && halt.stval == stval
  {
    halt := Halt(Unresolved(scause), context.State(), stval);
  }
}
