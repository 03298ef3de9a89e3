/**
 * Traps over time: the entry code calls the dispatcher once per trap, with
 * the context and tick count the previous trap left behind, until a handler
 * halts the system.
 */
module TrapTrace {
  import opened Scause
  import opened TrapContext
  import opened Handler
  import opened HandlerProperties

  /** One trap as the hardware delivers it. */
  datatype Event = Event(scause: Trap, stval: Word)

  /** The outcome after handling `trace` in order, starting from `start`. */
  function Run(start: Outcome, trace: seq<Event>): (r: Outcome)
    ensures start.Halted? ==> r == start
    ensures r.Resumed? ==> start.Resumed? && r.context.x == start.context.x && start.ticks <= r.ticks
    decreases |trace|
  {
    if |trace| == 0 then start
    else match start
      case Halted(_) => start
      case Resumed(ctx, ticks) => Run(Step(ctx, ticks, trace[0].scause, trace[0].stval).outcome, trace[1..])
  }

  /** The number of timer interrupts in a trace. */
  function TimerCount(trace: seq<Event>): nat
    decreases |trace|
  {
    if |trace| == 0 then 0
    else (if trace[0].scause == Interrupt(SupervisorTimer) then 1 else 0) + TimerCount(trace[1..])
  }

  predicate HitsBreakpoint(trace: seq<Event>) {
    exists i :: 0 <= i < |trace| && trace[i].scause == Exception(Breakpoint)
  }

  /** N timer interrupts in a row add N ticks and leave the context as it was. */
  lemma {:induction false} TimerTrapsAddN(ctx: ContextState, ticks: nat, trace: seq<Event>)
    requires forall i :: 0 <= i < |trace| ==> trace[i].scause == Interrupt(SupervisorTimer)
    ensures Run(Resumed(ctx, ticks), trace) == Resumed(ctx, ticks + |trace|)
    decreases |trace|
  {
    if |trace| > 0 {
      TimerTicksOnce(ctx, ticks, trace[0].stval);
      TimerTrapsAddN(ctx, ticks + 1, trace[1..]);
    }
  }

  /** Ten timer interrupts from a fresh counter leave it at ten. */
  lemma TenTimerTraps(ctx: ContextState, stval: Word)
    ensures Run(Resumed(ctx, 0), seq(10, _ => Event(Interrupt(SupervisorTimer), stval)))
         == Resumed(ctx, 10)
  {
    TimerTrapsAddN(ctx, 0, seq(10, _ => Event(Interrupt(SupervisorTimer), stval)));
  }

  /** A trace halts exactly when one of its traps is fatal. */
  lemma {:induction false} RunHaltsIffFatal(ctx: ContextState, ticks: nat, trace: seq<Event>)
    ensures Run(Resumed(ctx, ticks), trace).Halted?
        <==> exists i :: 0 <= i < |trace| && Fatal(trace[i].scause)
    decreases |trace|
  {
    if |trace| > 0 {
      var o := Step(ctx, ticks, trace[0].scause, trace[0].stval).outcome;
      if o.Resumed? {
        RunHaltsIffFatal(o.context, o.ticks, trace[1..]);
        assert forall i :: 1 <= i < |trace| ==> trace[i] == trace[1..][i - 1];
        if Run(Resumed(ctx, ticks), trace).Halted? {
          var j :| 0 <= j < |trace[1..]| && Fatal(trace[1..][j].scause);
          assert Fatal(trace[j + 1].scause);
        }
      }
    }
  }

  /**
   * A trace with no fatal trap resumes with the registers as they were, sepc
   * reset to 0 if a breakpoint was hit and kept otherwise, and one more tick
   * per timer interrupt.
   */
  lemma {:induction false} RunResumes(ctx: ContextState, ticks: nat, trace: seq<Event>)
    requires forall i :: 0 <= i < |trace| ==> !Fatal(trace[i].scause)
    ensures Run(Resumed(ctx, ticks), trace)
         == Resumed(ContextState(ctx.x, if HitsBreakpoint(trace) then 0 else ctx.sepc), ticks + TimerCount(trace))
    decreases |trace|
  {
    if |trace| > 0 {
      var e, rest := trace[0], trace[1..];
      assert forall i :: 1 <= i < |trace| ==> trace[i] == rest[i - 1];
      var o := Step(ctx, ticks, e.scause, e.stval).outcome;
      RunResumes(o.context, o.ticks, rest);
      if HitsBreakpoint(rest) {
        var j :| 0 <= j < |rest| && rest[j].scause == Exception(Breakpoint);
        assert trace[j + 1].scause == Exception(Breakpoint);
      }
      assert HitsBreakpoint(trace) <==> e.scause == Exception(Breakpoint) || HitsBreakpoint(rest);
    }
  }

  /** Two outcomes that agree in everything but the stval of a halt report. */
  predicate SameUpToStval(a: Outcome, b: Outcome) {
    a.Resumed? == b.Resumed?
    && (a.Resumed? ==> a == b)
    && (a.Halted? ==> a.halt.reason == b.halt.reason && a.halt.context == b.halt.context)
  }

  /** Which traps halt, and the state every other trap leaves, never depend on stval. */
  lemma {:induction false} RunIgnoresStval(start: Outcome, a: seq<Event>, b: seq<Event>)
    requires |a| == |b|
    requires forall i :: 0 <= i < |a| ==> a[i].scause == b[i].scause
    ensures SameUpToStval(Run(start, a), Run(start, b))
    decreases |a|
  {
    if |a| > 0 && start.Resumed? {
      var ctx, ticks := start.context, start.ticks;
      StvalOnlyReported(ctx, ticks, a[0].scause, a[0].stval, b[0].stval);
      var oa := Step(ctx, ticks, a[0].scause, a[0].stval).outcome;
      var ob := Step(ctx, ticks, b[0].scause, b[0].stval).outcome;
      if oa.Resumed? {
        RunIgnoresStval(oa, a[1..], b[1..]);
      }
    }
  }
}
