# Trap dispatcher of a bare-metal RISC-V kernel, modelled in Dafny

The model covers the supervisor trap dispatcher in `src/interrupt/handler.rs`.
The trap entry code saves the registers into a `Context` and calls
`handle_interrupt(context, scause, stval)`. That function makes a
first-match-wins choice over the decoded cause and runs one of four handlers:

- `breakpoint` prints the resume address `sepc`, then sets `sepc` to 0;
- `loadfault` panics with the context and `stval`;
- `supervisor_timer` counts one tick in the timer module;
- `fault` panics with the cause, the context and `stval`; it takes every other cause.

Before it dispatches, the function prints `SUCCESS!` whenever `stval` is zero.

Files and modules:

- `scause.dfy` (`Scause`): the cause values and the 64-bit machine word. The names follow the Supervisor Cause Register of the RISC-V Privileged Architecture (section 4.1.8, version 20211203): `Exception(Breakpoint | LoadFault | OtherException(code))`, `Interrupt(SupervisorTimer | OtherInterrupt(code))`, and `Unknown` for a value the decoder does not recognise.
- `context.dfy` (`TrapContext`): the saved context. It is a class with the register array `x` and `sepc`, plus the value `ContextState` it holds at one instant.
- `timer.dfy` (`Timer`): the tick counter, a class with one `ticks` field.
- `handler.dfy` (`Handler`): the dispatcher. `Step` is the meaning of one trap on values. `HandleInterrupt` and the four handler methods do the same work on the objects in place, and `HandleInterrupt` is proved against `Step`. A panic is modelled as a returned `Halt` report that changes no state, because the system's panic handler never returns.
- `properties.dfy` (`HandlerProperties`): cause-by-cause facts about one trap.
- `trace.dfy` (`TrapTrace`): a sequence of traps handled one after another, and the facts that hold over it.
- `wrappers.dfy` (`Wrappers`): `Option`.

Breakpoint policy: the doc comment of `breakpoint` (src/interrupt/handler.rs:59) says `sepc` grows by 2 to skip the `ebreak`. The code at line 63 sets `sepc` to 0 instead. The model follows the code.

## Model

| member | source | states |
|---|---|---|
| Handler.Select | src/interrupt/handler.rs:45-54 | the fallback is chosen exactly when the cause is none of Breakpoint, LoadFault, SupervisorTimer; each named arm is chosen only for its own cause |
| Handler.Step | src/interrupt/handler.rs:37-91 | a trap prints `SUCCESS!` exactly when stval is 0, then the breakpoint line for breakpoints only; it halts exactly on a fatal cause (LoadFault or anything unhandled); a resumed trap keeps the registers and adds at most one tick; a halt reports the untouched context and stval |
| Handler.HandleInterrupt | src/interrupt/handler.rs:37-55 | the in-place dispatcher leaves the context, the tick counter and the output exactly as `Step` says; on a halt, sepc and ticks are unchanged |
| Handler.HandleBreakpoint | src/interrupt/handler.rs:60-64 | prints the old sepc, sets sepc to 0, and leaves the rest of the context as it was |
| Handler.HandleLoadFault | src/interrupt/handler.rs:66-75 | always reports a load-fault halt carrying the current context and stval |
| Handler.HandleSupervisorTimer | src/interrupt/handler.rs:79-81 | adds exactly one tick and may change nothing in the context |
| Handler.HandleFault | src/interrupt/handler.rs:84-91 | always reports an unresolved halt carrying the cause, the current context and stval |
| Timer.TickCounter.Tick | src/interrupt/handler.rs:80 | the counter grows by exactly one |
| HandlerProperties.DispatchTotalAndDisjoint | src/interrupt/handler.rs:45-54 | every cause matches the pattern of the arm selected for it, and of no other arm |
| HandlerProperties.BreakpointResumesAtZero | src/interrupt/handler.rs:60-64 | a breakpoint resumes with sepc 0 whatever it was, the registers as they were and the tick count unchanged |
| HandlerProperties.LoadFaultAlwaysHalts | src/interrupt/handler.rs:66-75 | a load fault halts for every context and stval, and never resumes |
| HandlerProperties.TimerTicksOnce | src/interrupt/handler.rs:76-81 | a timer interrupt resumes with the context completely unchanged and one more tick |
| HandlerProperties.UnhandledHalts | src/interrupt/handler.rs:84-91 | every other exception, every other interrupt and an unknown cause halt with that cause, the context and stval |
| HandlerProperties.StvalOnlyReported | src/interrupt/handler.rs:41-54 | for a fixed cause, changing stval changes neither whether the trap resumes nor the resumed state; it changes only the stval in a halt report and the `SUCCESS!` line |
| TrapTrace.Run | src/interrupt/handler.rs:37-55 | once halted, further traps change nothing; a sequence of traps that resumes keeps the registers and never lowers the tick count |
| TrapTrace.TimerTrapsAddN | src/interrupt/handler.rs:76-81 | N timer interrupts in a row add exactly N ticks and leave the context as it was |
| TrapTrace.TenTimerTraps | src/interrupt/handler.rs:79-81 | ten timer interrupts from a zero counter leave it at ten |
| TrapTrace.RunHaltsIffFatal | src/interrupt/handler.rs:45-54 | a sequence of traps ends halted exactly when one of them is a load fault or an unhandled cause |
| TrapTrace.RunResumes | src/interrupt/handler.rs:45-64 | with no fatal trap, the registers are kept, sepc is 0 if a breakpoint occurred and unchanged otherwise, and the ticks grow by the number of timer interrupts |
| TrapTrace.RunIgnoresStval | src/interrupt/handler.rs:41-54 | two sequences with the same causes and any stvals agree on halting, on the resumed state and on the halt's reason and context |

## Left out

- `init` (src/interrupt/handler.rs:16-25): it writes the entry address to `stvec` in Direct mode once, and has no logic to state.
- The assembly entry and restore code (`interrupt.asm`, `entry.asm`): it is not part of this model. The model starts from a saved context and ends with the context the code would restore.
- Decoding raw `scause` bits into a cause: this happens in an external crate, so a cause is taken as given. Two values such as `Exception(Breakpoint)` and `OtherException(3)` are not identified by their codes.
- The layout of `Context`: the defining file is not part of this model. The context is modelled as an opaque register array plus `sepc`.
- The internals of `timer::tick`: the timer module is not part of this model. The counter is an unbounded `nat` that `tick` raises by one. Its machine width, any wrap-around and any rescheduling of the next timeout are not modelled.
- Text formatting of `println!` and `panic!`: output is modelled as `Diag` values, and a panic as a `Halt` report that carries the same data.
- The panic handler and `rust_main` in src/main.rs: both are bare infinite loops. A halt is modelled as final: `Run` ignores every trap after it.
- Several harts: the code does not handle concurrent access to the tick counter, and neither does the model.
