/**
  The `macro_impl` half of the library: the `DebugUnwrap` protocol with its
  three implementations (bool, Option, Result), the `MaybeDebug` rendering of
  an error, the diagnostic built by `log_unwrap_failed`, and the NUL
  termination done by `output`.
*/
module MacroImpl {
  import opened Wrappers
  import opened Text
  import opened Fmt

  /** Rust's `u32`, the type of `line!()`. */
  type u32 = x: int | 0 <= x < 0x1_0000_0000

  /** A value the macros can check: one variant per `DebugUnwrap` implementation. */
  datatype Checkable<T, E> = Flag(flag: bool) | Optional(opt: Option<T>) | Fallible(res: Result<T, E>)

  /** What `unwrap_ok` yields: a `bool` for the bool implementation, the payload otherwise. */
  datatype Unwrapped<T> = BoolOk(b: bool) | ValueOk(value: T)

  /** What `unwrap_err` yields: a `bool`, `()` for Option, the error for Result. */
  datatype Failed<E> = BoolErr(b: bool) | UnitErr | ValueErr(error: E)

  /** `get_pass_fail_strs`: the pass label, the fail label, and whether the error is printed. */
  datatype Labels = Labels(pass: string, fail: string, formatError: bool)

  function PassFailStrs<T, E>(du: Checkable<T, E>): (l: Labels)
    ensures l.formatError <==> du.Fallible?
  {
    match du
    case Flag(_) => Labels("true", "false", false)
    case Optional(_) => Labels("Some", "None", false)
    case Fallible(_) => Labels("Ok", "Err", true)
  }

  /** How the checked value's variant reads: `true`/`false`, `Some`/`None`, `Ok`/`Err`. */
  function VariantName<T, E>(du: Checkable<T, E>): string {
    match du
    case Flag(b) => if b then "true" else "false"
    case Optional(o) => if o.Some? then "Some" else "None"
    case Fallible(r) => if r.Ok? then "Ok" else "Err"
  }

  /**
    `can_unwrap`: the value is the one the pass label names, and it fails
    exactly when it is the one the fail label names.
  */
  function CanUnwrap<T, E>(du: Checkable<T, E>): (ok: bool)
    ensures ok <==> VariantName(du) == PassFailStrs(du).pass
    ensures !ok <==> VariantName(du) == PassFailStrs(du).fail
  {
    match du
    case Flag(b) => b
    case Optional(o) => o.Some?
    case Fallible(r) => r.Ok?
  }

  /** `unwrap_ok`; the Option and Result implementations reach `unreachable!()` on a failure. */
  function UnwrapOk<T, E>(du: Checkable<T, E>): (u: Unwrapped<T>)
    requires du.Flag? || CanUnwrap(du)
    ensures u.BoolOk? <==> du.Flag?
    ensures u.BoolOk? ==> !u.b
    ensures u.ValueOk? ==> WrapOk(du, u) == du
  {
    match du
    case Flag(_) => BoolOk(false)
    case Optional(o) => ValueOk(o.value)
    case Fallible(r) => ValueOk(r.value)
  }

  /** `unwrap_err`; the Option and Result implementations assert or reach `unreachable!()` on a success. */
  function UnwrapErr<T, E>(du: Checkable<T, E>): (f: Failed<E>)
    requires du.Flag? || !CanUnwrap(du)
    ensures du.Flag? ==> f == BoolErr(false)
    ensures !du.Flag? ==> WrapErr(f) == du
  {
    match du
    case Flag(_) => BoolErr(false)
    case Optional(_) => UnitErr
    case Fallible(r) => ValueErr(r.error)
  }

  /** Rebuilds a checkable of the same kind as `like` from what `unwrap_ok` yields. */
  function WrapOk<T, E>(like: Checkable<T, E>, ok: Unwrapped<T>): Checkable<T, E> {
    match ok
    case BoolOk(b) => Flag(b)
    case ValueOk(v) => if like.Optional? then Optional(Some(v)) else Fallible(Ok(v))
  }

  /** Rebuilds a checkable from what `unwrap_err` yields. */
  function WrapErr<T, E>(err: Failed<E>): Checkable<T, E> {
    match err
    case BoolErr(b) => Flag(b)
    case UnitErr => Optional(None)
    case ValueErr(e) => Fallible(Err(e))
  }

  /**
    `unwrap_ok` loses nothing of a success except for `true`, which the bool
    implementation turns into `false`; `unwrap_err` loses nothing of a failure.
  */
  lemma UnwrapRoundTrip<T, E>(du: Checkable<T, E>)
    ensures CanUnwrap(du) ==> (WrapOk(du, UnwrapOk(du)) == du <==> du != Flag(true))
    ensures !CanUnwrap(du) ==> WrapErr(UnwrapErr(du)) == du
  {
  }

  /** The labels depend on the implementation only, and tell the three apart. */
  lemma LabelsIdentifyKind<T, E>(a: Checkable<T, E>, b: Checkable<T, E>)
    ensures PassFailStrs(a) == PassFailStrs(b) <==>
      (a.Flag? && b.Flag?) || (a.Optional? && b.Optional?) || (a.Fallible? && b.Fallible?)
  {
  }

  /**
    `MaybeDebug`: the `Debug` rendering of an error when its type has one
    (`debug(e)` is `Some`), else the placeholder `???`.
  */
  function MaybeDebug<E>(e: E, debug: E -> Option<string>): (s: string)
    ensures debug(e).Some? ==> s == debug(e).value
    ensures debug(e).None? ==> s == "???"
  {
    match debug(e)
    case Some(s) => s
    case None => "???"
  }

  /** `{:?}` of what `unwrap_err` yields. */
  function RenderErr<E>(err: Failed<E>, debug: E -> Option<string>): string {
    match err
    case BoolErr(b) => if b then "true" else "false"
    case UnitErr => "()"
    case ValueErr(e) => MaybeDebug(e, debug)
  }

  // The four lines of the `concat!` templates of `log_unwrap_failed`.
  const LocationLine := [Hole, Lit("("), Hole, Lit("): "), Hole, Lit("\r\n")]
  const ExpressionLine := [Lit("    Expression: "), Hole, Lit("\r\n")]
  const ExpectedLine := [Lit("    Expected:   "), Hole, Lit("(...)\r\n")]
  const FoundWithError := [Lit("    Found:      "), Hole, Lit("("), Hole, Lit(")\r\n\0")]
  const FoundPlain := [Lit("    Found:      "), Hole, Lit("\r\n\0")]

  lemma LocationLineText(args: seq<string>)
    requires |args| == 3
    ensures Holes(LocationLine) == 3
    ensures Format(LocationLine, args) == args[0] + "(" + args[1] + "): " + args[2] + "\r\n"
  {
    var p3 := [Lit("): "), Hole, Lit("\r\n")];
    var p1 := [Lit("(")] + ([Hole] + p3);
    var t3 := "): " + args[2] + "\r\n";
    assert Holes(p3) == 1 && Format(p3, args[2..]) == t3 by {
      LitHoleLitText("): ", "\r\n", args[2..]);
    }
    assert Holes(p1) == 2 && Format(p1, args[1..]) == "(" + (args[1] + t3) by {
      FormatHoleFirst(p3, args[1..]);
      assert args[1..][1..] == args[2..];
      FormatLitFirst("(", [Hole] + p3, args[1..]);
    }
    assert LocationLine == [Hole] + p1;
    FormatHoleFirst(p1, args);
    ConcatAssoc(args[0], "(", args[1] + t3);
    ConcatAssoc(args[0] + "(", args[1], t3);
    ConcatAssoc(args[0] + "(" + args[1], "): " + args[2], "\r\n");
    ConcatAssoc(args[0] + "(" + args[1], "): ", args[2]);
  }

  /** A template line of a literal, one hole, and a literal. */
  lemma LitHoleLitText(before: string, after: string, args: seq<string>)
    requires |args| == 1
    ensures Holes([Lit(before), Hole, Lit(after)]) == 1
    ensures Format([Lit(before), Hole, Lit(after)], args) == before + args[0] + after
  {
    var tail := [Lit(after)];
    assert Holes(tail) == 0 && Format(tail, args[1..]) == after by {
      FormatLitFirst(after, [], []);
      assert tail + [] == tail && after + "" == after && args[1..] == [];
    }
    assert Holes([Hole] + tail) == 1 && Format([Hole] + tail, args) == args[0] + after by {
      FormatHoleFirst(tail, args);
    }
    FormatLitFirst(before, [Hole] + tail, args);
    assert [Lit(before), Hole, Lit(after)] == [Lit(before)] + ([Hole] + tail);
    ConcatAssoc(before, args[0], after);
  }

  lemma FoundWithErrorText(args: seq<string>)
    requires |args| == 2
    ensures Holes(FoundWithError) == 2
    ensures Format(FoundWithError, args) == "    Found:      " + args[0] + "(" + args[1] + ")\r\n\0"
  {
    LitHoleLitText("(", ")\r\n\0", args[1..]);
    FormatHoleFirst([Lit("("), Hole, Lit(")\r\n\0")], args);
    FormatLitFirst("    Found:      ", [Hole] + [Lit("("), Hole, Lit(")\r\n\0")], args);
    assert FoundWithError == [Lit("    Found:      ")] + ([Hole] + [Lit("("), Hole, Lit(")\r\n\0")]);
  }

  /** The text one `format!` of the four-line template produces. */
  lemma DiagnosticTemplate(found: seq<Piece>, args: seq<string>, foundText: string)
    requires Holes(found) + 5 == |args|
    requires Format(found, args[5..]) == foundText
    ensures Holes(LocationLine + ExpressionLine + ExpectedLine + found) == |args|
    ensures Format(LocationLine + ExpressionLine + ExpectedLine + found, args) ==
      (args[0] + "(" + args[1] + "): " + args[2] + "\r\n")
      + ("    Expression: " + args[3] + "\r\n")
      + ("    Expected:   " + args[4] + "(...)\r\n")
      + foundText
  {
    LocationLineText(args[..3]);
    LitHoleLitText("    Expression: ", "\r\n", args[3..4]);
    LitHoleLitText("    Expected:   ", "(...)\r\n", args[4..5]);
    FormatFourParts(LocationLine, ExpressionLine, ExpectedLine, found, args,
      args[0] + "(" + args[1] + "): " + args[2] + "\r\n",
      "    Expression: " + args[3] + "\r\n",
      "    Expected:   " + args[4] + "(...)\r\n",
      foundText);
  }

  /**
    `log_unwrap_failed`: the diagnostic handed to `output`. It names the call
    site, the message and the checked expression, always shows the pass label
    followed by `(...)`, and follows the fail label with the rendered error
    only for the Result implementation.
  */
  function LogUnwrapFailed<T, E>(file: string, line: u32, msg: string, expr: string,
                                 du: Checkable<T, E>, debug: E -> Option<string>): (text: string)
    requires du.Flag? || !CanUnwrap(du)
    ensures var l := PassFailStrs(du);
      text ==
        (file + "(" + Decimal(line) + "): " + msg + "\r\n")
        + ("    Expression: " + expr + "\r\n")
        + ("    Expected:   " + l.pass + "(...)\r\n")
        + (if l.formatError
           then "    Found:      " + l.fail + "(" + RenderErr(UnwrapErr(du), debug) + ")\r\n\0"
           else "    Found:      " + l.fail + "\r\n\0")
  {
    var l := PassFailStrs(du);
    var err := UnwrapErr(du);
    if l.formatError then
      var args := [file, Decimal(line), msg, expr, l.pass, l.fail, RenderErr(err, debug)];
      FoundWithErrorText(args[5..]);
      DiagnosticTemplate(FoundWithError, args, "    Found:      " + l.fail + "(" + RenderErr(err, debug) + ")\r\n\0");
      Format(LocationLine + ExpressionLine + ExpectedLine + FoundWithError, args)
    else
      var args := [file, Decimal(line), msg, expr, l.pass, l.fail];
      LitHoleLitText("    Found:      ", "\r\n\0", args[5..]);
      DiagnosticTemplate(FoundPlain, args, "    Found:      " + l.fail + "\r\n\0");
      Format(LocationLine + ExpressionLine + ExpectedLine + FoundPlain, args)
  }

  /** `output`: the message as handed to the platform sink, NUL-terminated exactly once. */
  function Output(message: string): (sent: string)
    ensures EndsWith(sent, "\0")
    ensures sent == message || sent == message + "\0"
    ensures EndsWith(message, "\0") ==> sent == message
  {
    if EndsWith(message, "\0") then message else message + "\0"
  }

  lemma OutputIdempotent(message: string)
    ensures Output(Output(message)) == Output(message)
  {
  }

  /** The diagnostic already ends in NUL, so `output` sends it unchanged. */
  lemma DiagnosticIsTerminated<T, E>(file: string, line: u32, msg: string, expr: string,
                                     du: Checkable<T, E>, debug: E -> Option<string>)
    requires du.Flag? || !CanUnwrap(du)
    ensures Output(LogUnwrapFailed(file, line, msg, expr, du, debug)) == LogUnwrapFailed(file, line, msg, expr, du, debug)
  {
    var text := LogUnwrapFailed(file, line, msg, expr, du, debug);
    assert text[|text| - 1] == '\0';
  }

  /** A failed `bool` check: the pass label still carries `(...)`, the fail label nothing. */
  lemma BoolDiagnostic<T, E>(file: string, line: u32, msg: string, expr: string,
                             du: Checkable<T, E>, debug: E -> Option<string>)
    requires du == Flag(false)
    ensures LogUnwrapFailed(file, line, msg, expr, du, debug) ==
      (file + "(" + Decimal(line) + "): " + msg + "\r\n") + ("    Expression: " + expr + "\r\n")
      + "    Expected:   true(...)\r\n" + "    Found:      false\r\n\0"
  {
    assert PassFailStrs(du) == Labels("true", "false", false);
    assert "    Expected:   " + "true" + "(...)\r\n" == "    Expected:   true(...)\r\n";
    assert "    Found:      " + "false" + "\r\n\0" == "    Found:      false\r\n\0";
  }

  /** A `None`: `Some(...)` expected, a bare `None` found. */
  lemma NoneDiagnostic<T, E>(file: string, line: u32, msg: string, expr: string,
                             du: Checkable<T, E>, debug: E -> Option<string>)
    requires du == Optional(None)
    ensures LogUnwrapFailed(file, line, msg, expr, du, debug) ==
      (file + "(" + Decimal(line) + "): " + msg + "\r\n") + ("    Expression: " + expr + "\r\n")
      + "    Expected:   Some(...)\r\n" + "    Found:      None\r\n\0"
  {
    assert PassFailStrs(du) == Labels("Some", "None", false);
    assert "    Expected:   " + "Some" + "(...)\r\n" == "    Expected:   Some(...)\r\n";
    assert "    Found:      " + "None" + "\r\n\0" == "    Found:      None\r\n\0";
  }

  /** An `Err(e)`: `Ok(...)` expected, `Err` found with the error's rendering, or `???` without one. */
  lemma ErrDiagnostic<T, E>(file: string, line: u32, msg: string, expr: string,
                            e: E, du: Checkable<T, E>, debug: E -> Option<string>)
    requires du == Fallible(Err(e))
    ensures LogUnwrapFailed(file, line, msg, expr, du, debug) ==
      (file + "(" + Decimal(line) + "): " + msg + "\r\n") + ("    Expression: " + expr + "\r\n")
      + "    Expected:   Ok(...)\r\n"
      + ("    Found:      Err(" + (if debug(e).Some? then debug(e).value else "???") + ")\r\n\0")
  {
    var rendered := if debug(e).Some? then debug(e).value else "???";
    assert PassFailStrs(du) == Labels("Ok", "Err", true);
    assert RenderErr(UnwrapErr(du), debug) == rendered;
    assert "    Expected:   " + "Ok" + "(...)\r\n" == "    Expected:   Ok(...)\r\n";
    assert "    Found:      " + "Err" + "(" == "    Found:      Err(";
  }
}
