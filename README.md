# bugsalot, modelled in Dafny

bugsalot lets a Rust process ask whether a native debugger is attached to it,
raise a breakpoint trap only when one is, wait (with an optional timeout) for
one to attach, and check `bool`, `Option` and `Result` values with the
non-fatal `unwrap!` and `expect!` macros. Those macros log a diagnostic,
break if a debugger is attached, and then carry on with a fallback instead of
panicking.

This project models the decision logic of `src/debugger.rs` and `src/lib.rs`:

- `wrappers.dfy` (`Wrappers`): Rust's `Option` and `Result`.
- `text.dfy` (`Text`): `str::trim` with Rust's Unicode notion of whitespace,
  `starts_with`, `ends_with`, and the decimal `Display` of an unsigned integer.
- `fmt.dfy` (`Fmt`): `format!` over a `concat!` of literals. A template is a
  sequence of literal pieces and holes, and each hole takes the next
  rendered argument.
- `debugger.dfy` (`Debugger`): the `State` enum and the platform probe.
  A Win32 probe carries the value `IsDebuggerPresent` returned. A
  `/proc/self/status` probe carries the file as an optional sequence of
  optional lines: the file is `None` when it cannot be opened, and a line is
  `None` when it cannot be read. Also here: the `TracerPid:` scan, as a
  reference function and as the early-exit loop of `state()`; the trap
  decision of `break_if_attached`; and `wait_until_attached`, as a polling
  loop over a stream of observations (state, clock), with a reference
  function beside it.
- `macro_impl.dfy` (`MacroImpl`): the `DebugUnwrap` protocol as one closed
  datatype with a variant per implementation. It also holds the `MaybeDebug`
  `???` placeholder, the diagnostic built by `log_unwrap_failed`, and the NUL
  termination done by `output`.
- `macros.dfy` (`Macros`): the `unwrap!`/`expect!` arms as methods. Each
  returns how control leaves the macro (a value or the fallback's early
  `return`) and the side effects in order: the diagnostic handed to the sink,
  the `break_if_attached` call and whether it trapped, and the evaluation of
  the fallback.

The model follows the code at these points, where a reader might expect
something else:

- The bool implementation's `unwrap_ok` returns `false`, so `unwrap!(true, false)` yields `false`.
- The `Expected:` line always carries `(...)`, bool included.
- `Option` never decorates its `None`.
- There is no raw-pointer implementation.
- The status-file scan is decided by the first `TracerPid:` line, and later lines are never read.

## Model

| member | source | states |
|---|---|---|
| `Text.Trim` | src/debugger.rs:95 | the trimmed line is no longer than the line and has no whitespace at either end |
| `Text.TrimIgnoresPadding` | src/debugger.rs:95 | whitespace added before or after a line does not change its trimmed form |
| `Text.Decimal` | src/lib.rs:71 | the `{}` rendering of `line!()` is non-empty, all digits, has no leading zero, and ends in the last decimal digit |
| `Text.DecimalValue` | src/lib.rs:71 | the digits of the `{}` rendering read back as the number itself |
| `Text.DecimalInjective` | src/lib.rs:71 | two line numbers render to the same text if and only if they are equal |
| `Fmt.FormatConcat` | src/lib.rs:64-70 | formatting a `concat!` of templates is formatting each part with its share of the arguments, in order |
| `Debugger.ClassifyLine` | src/debugger.rs:95-100 | a single line never yields `Unknown`: it is either not a `TracerPid:` line or it decides Detatched/Attached |
| `Debugger.ClassifyIgnoresPadding` | src/debugger.rs:95 | leading and trailing whitespace does not change a line's classification |
| `Debugger.TracerPidReportsTracer` | src/debugger.rs:96-99 | a field written as `TracerPid:`, spaces or tabs, then a decimal id, reads Detatched exactly when the id is 0 and Attached otherwise |
| `Debugger.ZeroTracerIsDetatched` | src/debugger.rs:97-98 | `TracerPid:\t0` reads Detatched |
| `Debugger.NonZeroTracerIsAttached` | src/debugger.rs:97-99 | `TracerPid: 4821` reads Attached |
| `Debugger.TrailingZeroTracerIsAttached` | src/debugger.rs:97-99 | `TracerPid: 10` reads Attached: a trailing zero digit is not a zero id |
| `Debugger.BareTracerPidIsAttached` | src/debugger.rs:96-99 | a bare `TracerPid:` reads Attached |
| `Debugger.OtherFieldIsIgnored` | src/debugger.rs:96 | a line of another field decides nothing |
| `Debugger.ReadState` | src/debugger.rs:78-108 | the early-exit loop of `state()` returns the reference state of the probe: Win32 from `IsDebuggerPresent`, the status file from the first `TracerPid:` line, Unknown otherwise |
| `Debugger.ScanFirstTracerLine` | src/debugger.rs:93-101 | the first `TracerPid:` line decides the scan, whatever the lines before it that did not match |
| `Debugger.ScanStopsAtTracerLine` | src/debugger.rs:93-101 | lines after the first `TracerPid:` line never change the result |
| `Debugger.ScanUnknownIffNoTracerLine` | src/debugger.rs:93-107 | the scan is Unknown if and only if no line read is a `TracerPid:` line |
| `Debugger.ScanSkipsUnreadable` | src/debugger.rs:94 | among the finitely many lines read, one that fails to read is skipped: removing it does not change the result |
| `Debugger.ProbeUnknown` | src/debugger.rs:78-107 | the state is Unknown iff there is no probe, the status file cannot be opened, or it has no `TracerPid:` line; Win32 is never Unknown |
| `Debugger.BreakIfAttached` | src/debugger.rs:133-164 | the trap is raised if and only if the state is Attached, on Windows through `IsDebuggerPresent` directly |
| `Debugger.WaitUntilAttached` | src/debugger.rs:205-221 | the polling loop returns what the reference definition returns, and sleeps once after every poll that keeps waiting |
| `Debugger.WaitStopsAtFirstStop` | src/debugger.rs:207-219 | the first poll that is not a Detatched poll before the deadline ends the wait, after exactly that many polls |
| `Debugger.WaitNeverStops` | src/debugger.rs:211-218 | while every poll is Detatched and before the deadline, the wait has not returned |
| `Debugger.WaitReturnedAt` | src/debugger.rs:207-220 | a returned wait was ended by its last poll, and every earlier poll kept waiting |
| `Debugger.WaitOutcome` | src/debugger.rs:208-215 | Ok exactly when the ending poll saw Attached (even past the deadline); the unknown-state error exactly when it saw Unknown; the timeout exactly when it saw Detatched at or after a deadline |
| `Debugger.NoTimeoutWithoutDeadline` | src/debugger.rs:212-214 | with no timeout, the wait never returns the timeout error |
| `Debugger.WaitEndsByDeadline` | src/debugger.rs:212-215 | with a timeout, the wait has returned by the first poll whose clock reading reaches the deadline |
| `Debugger.UnknownFailsAtOnce` | src/debugger.rs:210 | an Unknown first poll returns the unknown-state error after one poll, before any sleep |
| `MacroImpl.PassFailStrs` | src/lib.rs:17-38 | only the Result implementation asks for its error to be printed |
| `MacroImpl.CanUnwrap` | src/lib.rs:25-39 | `can_unwrap` holds exactly when the value is the variant the pass label names (`true`, `Some`, `Ok`), and fails exactly when it is the variant the fail label names |
| `MacroImpl.UnwrapOk` | src/lib.rs:26-40 | only callable on a success for Option and Result (the `requires` stands for their `unreachable!()`); bool yields `false` whatever it held; Option and Result yield the payload unchanged |
| `MacroImpl.UnwrapErr` | src/lib.rs:27-41 | only callable on a failure for Option and Result (the `requires` stands for the `assert!` and the `unreachable!()`); bool yields `false`; `None` yields `()` and `Err(e)` yields `e` |
| `MacroImpl.MaybeDebug` | src/lib.rs:9-13 | the error's `Debug` rendering when its type has one, else the placeholder `???` |
| `MacroImpl.LabelsIdentifyKind` | src/lib.rs:24-38 | the label triple depends only on the implementation, and the three triples differ |
| `MacroImpl.UnwrapRoundTrip` | src/lib.rs:23-42 | on success `unwrap_ok` keeps the payload of `Some`/`Ok` but turns bool `true` into `false`; on failure `unwrap_err` keeps the `false`, `None` or error |
| `MacroImpl.LogUnwrapFailed` | src/lib.rs:60-90 | the diagnostic is the four lines `file(line): msg`, `Expression:`, `Expected: pass(...)` and `Found: fail`, the last with `(error)` only for Result, each ended by CR LF, and a final NUL |
| `MacroImpl.DiagnosticTemplate` | src/lib.rs:64-88 | the four-line template formats to those lines in order |
| `MacroImpl.BoolDiagnostic` | src/lib.rs:77-88 | a failed bool reads `Expected:   true(...)` and `Found:      false` |
| `MacroImpl.NoneDiagnostic` | src/lib.rs:77-88 | a `None` reads `Expected:   Some(...)` and `Found:      None` |
| `MacroImpl.ErrDiagnostic` | src/lib.rs:63-75 | an `Err(e)` reads `Expected:   Ok(...)` and `Found:      Err(<Debug of e>)`, or `Err(???)` when the error has no `Debug` |
| `MacroImpl.Output` | src/lib.rs:44-47 | the sent text ends in NUL, is the message or the message plus one NUL, and is the message itself when it already ends in NUL |
| `MacroImpl.OutputIdempotent` | src/lib.rs:45-47 | NUL-terminating twice is NUL-terminating once |
| `MacroImpl.DiagnosticIsTerminated` | src/lib.rs:69 | the diagnostic already ends in NUL, so `output` sends it unchanged |
| `Macros.FailureEvents` | src/lib.rs:139-140 | the failure path emits exactly one NUL-terminated diagnostic, then exactly one `break_if_attached`, which traps iff the state is Attached |
| `Macros.ExpectOr` | src/lib.rs:197-206 | success yields `unwrap_ok` with no side effect and the fallback unevaluated; failure logs, breaks, then evaluates and returns the fallback (a value or an early return) |
| `Macros.ExpectUnit` | src/lib.rs:208-216 | the unit forms emit nothing on success and the same diagnostic and break on failure |
| `Macros.UnwrapOr` | src/lib.rs:134-143 | as `ExpectOr`, with the message `unwrap! failed` |
| `Macros.UnwrapUnit` | src/lib.rs:124-153 | as `ExpectUnit`, with the message `unwrap! failed` |

## Left out

- Platform selection by `#[cfg]` is not modelled. The platform is chosen by the `Debugger.Probe` given to each operation.
- The wasm `break_if_attached` is not modelled. It evaluates `debugger;` through `js_sys::eval`, a foreign call, on a platform whose `state()` is Unknown.
- The `src/ffi` declarations (`IsDebuggerPresent`, `DebugBreak`, `OutputDebugStringA`, `__android_log_write`, `console.error`) have no logic. `IsDebuggerPresent` becomes an input of the Win32 probe. The trap and the sink write become events.
- Opening and reading `/proc/self/status` is an input: the file is absent, or a sequence of lines each of which may have failed to read.
- The clock, `Duration` arithmetic and `thread::sleep` are abstracted. The clock is the `now` of each observation. A sleep is counted, not timed, so the 16 ms cadence is not modelled.
- Debugger.ReadState: the status file is a finite sequence of lines. `BufRead::lines()` does not stop after a read error, and the next call can fail again, so a reader that keeps failing would make the loop at src/debugger.rs:93-94 run forever. The model's finite sequence cannot express that non-termination.
- Debugger.WaitUntilAttached: `Instant::now() + dur` at src/debugger.rs:206 panics when the sum overflows, for example with `Duration::MAX`. The model adds unbounded integers in `Debugger.Deadline`, so a timeout that large waits instead of panicking.
- Debugger.WaitUntilAttached: runs over a finite stream of observations and reports `StillWaiting` when the stream runs out. It therefore does not state that the wait without a timeout may never end, or anything about wall-clock overshoot.
- `output` does not model the sink. On Windows the text goes to the debug-output channel; the Android log write (priority ERROR, tag `bugsalot`) sits behind `#[cfg(android)]`, a cfg that rustc does not set (it sets `target_os = "android"`), so unless a build script sets it the text is written nowhere on Android, as on Linux and the other platforms. The model records the text handed to the sink.
- Rust's `Debug` machinery is a parameter `debug: E -> Option<string>`, where `None` means the type has no `Debug` (the `MaybeDebug` placeholder `???`). In the source, the `E: Debug` bound on `log_unwrap_failed` means every error type has a `Debug`, so `???` is not reachable there.
- A fallback that transfers control other than by `return` (`break`, `continue`, `?`) is not modelled. `return` is the caller-chosen outcome `EarlyReturn`.
- The `#[inline(always)]` requirement on `break_if_attached`, which makes a debugger show the caller's line, is not modelled. It is a property of code generation.
- The TracerPid caveat of the Windows Subsystem for Linux is not modelled: the probe reports whatever the file says.
- `possible_future_apis` and the example programs are not modelled. They hold no logic of the core.
