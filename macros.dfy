/**
  The `unwrap!` and `expect!` macros: check a value, and on failure log the
  diagnostic, break if a debugger is attached, and go on with a fallback
  instead of panicking. The side effects are recorded, in order, as events.
*/
module Macros {
  import opened Wrappers
  import opened Text
  import opened MacroImpl
  import Debugger

  /** The call site the macro captures: `file!()`, `line!()` and `stringify!($e)`. */
  datatype Site = Site(file: string, line: u32, expr: string)

  /** A side effect of a macro, in the order it happens. */
  datatype Event =
    | Diagnostic(text: string)   // `output` handed this text to the platform sink
    | Break(trapped: bool)       // `break_if_attached` ran, and raised the trap or not
    | FallbackEvaluated          // the fallback expression was evaluated

  /** The fallback expression: a value, or a `return` out of the enclosing function. */
  datatype Fallback<T> = Yield(value: Unwrapped<T>) | Return

  /** How control leaves the macro: with a value, or by the fallback's early return. */
  datatype Flow<T> = Value(value: Unwrapped<T>) | EarlyReturn

  const UnwrapFailedMsg := "unwrap! failed"

  /**
    The failure path before the fallback: one diagnostic, NUL-terminated,
    then one `break_if_attached`, which traps exactly when a debugger is
    attached.
  */
  function FailureEvents<T, E>(du: Checkable<T, E>, site: Site, msg: string,
                               probe: Debugger.Probe, debug: E -> Option<string>): (events: seq<Event>)
    requires !CanUnwrap(du)
    ensures |events| == 2 && events[0].Diagnostic? && events[1].Break?
    ensures EndsWith(events[0].text, "\0")
    ensures events[0].text == LogUnwrapFailed(site.file, site.line, msg, site.expr, du, debug)
    ensures events[1].trapped <==> Debugger.StateOf(probe) == Debugger.Attached
  {
    DiagnosticIsTerminated(site.file, site.line, msg, site.expr, du, debug);
    [Diagnostic(Output(LogUnwrapFailed(site.file, site.line, msg, site.expr, du, debug))),
     Break(Debugger.BreakIfAttached(probe))]
  }

  /**
    `expect!($e, $message, $err)`: the value `unwrap_ok` yields when the check
    passes, with no side effect and the fallback left unevaluated; otherwise
    the failure events, then the fallback.
  */
  method ExpectOr<T, E>(du: Checkable<T, E>, site: Site, message: string, fallback: Fallback<T>,
                        probe: Debugger.Probe, debug: E -> Option<string>)
    returns (flow: Flow<T>, events: seq<Event>)
    ensures events == [] <==> CanUnwrap(du)
    ensures CanUnwrap(du) ==> flow == Value(UnwrapOk(du))
    ensures !CanUnwrap(du) ==>
      && events == FailureEvents(du, site, message, probe, debug) + [FallbackEvaluated]
      && flow == (if fallback.Yield? then Value(fallback.value) else EarlyReturn)
  {
    if CanUnwrap(du) {
      flow := Value(UnwrapOk(du));
      events := [];
    } else {
      var text := LogUnwrapFailed(site.file, site.line, message, site.expr, du, debug);
      events := [Diagnostic(Output(text))];
      events := events + [Break(Debugger.BreakIfAttached(probe))];
      events := events + [FallbackEvaluated];
      match fallback {
        case Yield(v) => flow := Value(v);
        case Return => flow := EarlyReturn;
      }
    }
  }

  /**
    `expect!($e, $message)` and `expect!($e, $message, ())`: nothing is
    returned; the failure path has the same side effects, and there is no
    fallback to evaluate.
  */
  method ExpectUnit<T, E>(du: Checkable<T, E>, site: Site, message: string,
                          probe: Debugger.Probe, debug: E -> Option<string>)
    returns (events: seq<Event>)
    ensures events == [] <==> CanUnwrap(du)
    ensures !CanUnwrap(du) ==> events == FailureEvents(du, site, message, probe, debug)
  {
    if CanUnwrap(du) {
      var _ := UnwrapOk(du);
      events := [];
    } else {
      var text := LogUnwrapFailed(site.file, site.line, message, site.expr, du, debug);
      events := [Diagnostic(Output(text))];
      events := events + [Break(Debugger.BreakIfAttached(probe))];
    }
  }

  /** `unwrap!($e, $fallback)`: `expect!` with the fixed message `unwrap! failed`. */
  method UnwrapOr<T, E>(du: Checkable<T, E>, site: Site, fallback: Fallback<T>,
                        probe: Debugger.Probe, debug: E -> Option<string>)
    returns (flow: Flow<T>, events: seq<Event>)
    ensures events == [] <==> CanUnwrap(du)
    ensures CanUnwrap(du) ==> flow == Value(UnwrapOk(du))
    ensures !CanUnwrap(du) ==>
      && events == FailureEvents(du, site, UnwrapFailedMsg, probe, debug) + [FallbackEvaluated]
      && flow == (if fallback.Yield? then Value(fallback.value) else EarlyReturn)
  {
    flow, events := ExpectOr(du, site, UnwrapFailedMsg, fallback, probe, debug);
  }

  /** `unwrap!($e)` and `unwrap!($e, ())`. */
  method UnwrapUnit<T, E>(du: Checkable<T, E>, site: Site, probe: Debugger.Probe, debug: E -> Option<string>)
    returns (events: seq<Event>)
    ensures events == [] <==> CanUnwrap(du)
    ensures !CanUnwrap(du) ==> events == FailureEvents(du, site, UnwrapFailedMsg, probe, debug)
  {
    events := ExpectUnit(du, site, UnwrapFailedMsg, probe, debug);
  }
}
