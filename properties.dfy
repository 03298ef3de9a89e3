/** What one trap does, cause by cause, stated against `Handler.Step`. */
module HandlerProperties {
  import opened Scause
  import opened TrapContext
  import opened Handler

  /** The pattern of each arm of the dispatcher, read on its own. */
  predicate Matches(r: Route, t: Trap) {
    match r
    case ToBreakpoint => t == Exception(Breakpoint)
    case ToLoadFault => t == Exception(LoadFault)
    case ToSupervisorTimer => t == Interrupt(SupervisorTimer)
    case ToFault => !Handled(t)
  }

  /** Every cause matches exactly one arm, and that arm is the one selected. */
  lemma DispatchTotalAndDisjoint(t: Trap)
    ensures Matches(Select(t), t)
    ensures forall r :: Matches(r, t) ==> r == Select(t)
  {
  }

  /** Breakpoint resumes, with sepc 0 whatever it was, and nothing else changed. */
  lemma BreakpointResumesAtZero(ctx: ContextState, ticks: nat, stval: Word)
    ensures Step(ctx, ticks, Exception(Breakpoint), stval).outcome
         == Resumed(ContextState(ctx.x, 0), ticks)
  {
  }

  /** A load fault halts for every context and stval, reporting both. */
  lemma LoadFaultAlwaysHalts(ctx: ContextState, ticks: nat, stval: Word)
    ensures Step(ctx, ticks, Exception(LoadFault), stval).outcome
         == Halted(Halt(LoadFaultPanic, ctx, stval))
  {
  }

  /** A timer interrupt resumes with the context untouched and one more tick. */
  lemma TimerTicksOnce(ctx: ContextState, ticks: nat, stval: Word)
    ensures Step(ctx, ticks, Interrupt(SupervisorTimer), stval).outcome
         == Resumed(ctx, ticks + 1)
  {
  }

  /** Every other exception, every other interrupt and Unknown reach the fallback. */
  lemma UnhandledHalts(ctx: ContextState, ticks: nat, t: Trap, stval: Word)
    requires !Handled(t)
    ensures Step(ctx, ticks, t, stval).outcome == Halted(Halt(Unresolved(t), ctx, stval))
  {
  }

  /**
   * stval only reaches the printed lines and the halt report: the route, the
   * context and the tick count do not depend on it.
   */
  lemma StvalOnlyReported(ctx: ContextState, ticks: nat, t: Trap, s1: Word, s2: Word)
    ensures Step(ctx, ticks, t, s1).outcome.Resumed? == Step(ctx, ticks, t, s2).outcome.Resumed?
    ensures Step(ctx, ticks, t, s1).outcome.Resumed? ==>
              Step(ctx, ticks, t, s1).outcome == Step(ctx, ticks, t, s2).outcome
    ensures Step(ctx, ticks, t, s1).outcome.Halted? ==>
              Step(ctx, ticks, t, s1).outcome.halt.(stval := s2) == Step(ctx, ticks, t, s2).outcome.halt
    ensures Step(ctx, ticks, t, s1).output[|Prelude(s1)|..] == Step(ctx, ticks, t, s2).output[|Prelude(s2)|..]
  {
  }
}
