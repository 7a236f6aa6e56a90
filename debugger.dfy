/**
  The debugger-state oracle: the three-valued state, the platform probes that
  produce it (the Win32 `IsDebuggerPresent` answer, or the `TracerPid:` line of
  the process status file), the trap decision of `break_if_attached`, and the
  polling loop of `wait_until_attached`.
*/
module Debugger {
  import opened Wrappers
  import opened Text

  /** The state of the debugger with regard to this process (the source spells it `Detatched`). */
  datatype State = Detatched | Attached | Unknown

  // ---------------------------------------------------------------------------
  // The process status file
  // ---------------------------------------------------------------------------

  const TracerPidField := "TracerPid:"

  /** The endings, any one of which marks a tracer id of zero. */
  predicate EndsInZero(line: string) {
    EndsWith(line, " 0") || EndsWith(line, "\t0") || EndsWith(line, ":0")
  }

  /**
    One line of the status file: `None` when its trimmed form is not a
    `TracerPid:` line, otherwise the state that line reports.
  */
  function ClassifyLine(line: string): (s: Option<State>)
    ensures s != Some(Unknown)
  {
    var t := Trim(line);
    if StartsWith(t, TracerPidField) then
      Some(if EndsInZero(t) then Detatched else Attached)
    else
      None
  }

  /** A line that was read and decides the scan. */
  predicate IsTracerLine(line: Option<string>) {
    line.Some? && ClassifyLine(line.value).Some?
  }

  /**
    The scan of the status file's lines, each `None` when it could not be
    read: the first `TracerPid:` line decides; without one the state is
    unknown.
  */
  function ScanStatus(lines: seq<Option<string>>): State {
    if lines == [] then Unknown
    else if IsTracerLine(lines[0]) then ClassifyLine(lines[0].value).value
    else ScanStatus(lines[1..])
  }

  /** What the current platform offers to answer "is a debugger attached?". */
  datatype Probe =
    | Win32(isDebuggerPresent: int)                     // the BOOL returned by `IsDebuggerPresent`
    | ProcStatus(status: Option<seq<Option<string>>>)   // `/proc/self/status`, `None` when it cannot be opened
    | NoProbe                                           // any platform other than Windows, Unix or wasm

  function StateOf(p: Probe): State {
    match p
    case Win32(present) => if present == 0 then Detatched else Attached
    case ProcStatus(status) => if status.None? then Unknown else ScanStatus(status.value)
    case NoProbe => Unknown
  }

  /** `state()`: queries the platform, scanning the status file line by line with an early exit. */
  method ReadState(p: Probe) returns (s: State)
    ensures s == StateOf(p)
  {
    match p {
      case Win32(present) =>
        return if present == 0 then Detatched else Attached;
      case ProcStatus(status) =>
        if status.Some? {
          var lines := status.value;
          var i := 0;
          while i < |lines|
            invariant 0 <= i <= |lines|
            invariant ScanStatus(lines[i..]) == ScanStatus(lines)
          {
            assert lines[i..][1..] == lines[i + 1..];
            match lines[i] {
              case Some(line) =>
                var t := Trim(line);
                if StartsWith(t, TracerPidField) {
                  return if EndsInZero(t) then Detatched else Attached;
                }
              case None =>
            }
            i := i + 1;
          }
        }
      case NoProbe =>
    }
    s := Unknown;
  }

  // ---------------------------------------------------------------------------
  // Properties of the scan
  // ---------------------------------------------------------------------------

  /** Whitespace around a line does not change its classification. */
  lemma ClassifyIgnoresPadding(before: string, line: string, after: string)
    requires AllWhitespace(before) && AllWhitespace(after)
    ensures ClassifyLine(before + line + after) == ClassifyLine(line)
  {
    TrimIgnoresPadding(before, line, after);
  }

  /**
    A `TracerPid:` field as the kernel writes it (a separator of spaces or
    tabs, then the tracer id in decimal) reads as detached exactly when the id
    is zero.
  */
  lemma TracerPidReportsTracer(separator: string, pid: nat)
    requires separator != [] && forall i :: 0 <= i < |separator| ==> separator[i] in {' ', '\t'}
    ensures ClassifyLine(TracerPidField + separator + Decimal(pid)) == Some(if pid == 0 then Detatched else Attached)
  {
    var digits := Decimal(pid);
    var line := TracerPidField + separator + digits;
    assert line[0] == 'T';
    assert line[|line| - 1] == digits[|digits| - 1];
    ClassifyTrimmedLine(line);
    assert line[..|TracerPidField|] == TracerPidField;
    EndsInZeroByLastTwo(line);
    if |digits| == 1 {
      assert line[|line| - 2] == separator[|separator| - 1];
    } else {
      assert line[|line| - 2] == digits[|digits| - 2];
    }
  }

  /** The zero endings, stated on the last two characters. */
  lemma EndsInZeroByLastTwo(line: string)
    requires |line| >= 2
    ensures EndsInZero(line) <==> line[|line| - 1] == '0' && line[|line| - 2] in {' ', '\t', ':'}
  {
    var tail := line[|line| - 2..];
    assert tail == [line[|line| - 2], line[|line| - 1]];
  }

  /** A line with no whitespace at either end is classified as it stands. */
  lemma ClassifyTrimmedLine(line: string)
    requires line != [] && !IsWhitespace(line[0]) && !IsWhitespace(line[|line| - 1])
    ensures ClassifyLine(line) ==
      if StartsWith(line, TracerPidField) then Some(if EndsInZero(line) then Detatched else Attached) else None
  {
    TrimOfTrimmed(line);
  }

  /** A tab-separated zero reads as detached. */
  lemma ZeroTracerIsDetatched(line: string)
    requires line == "TracerPid:\t0"
    ensures ClassifyLine(line) == Some(Detatched)
  {
    ClassifyTrimmedLine(line);
    assert StartsWith(line, TracerPidField);
    assert EndsWith(line, "\t0");
  }

  /** A non-zero id reads as attached. */
  lemma NonZeroTracerIsAttached(line: string)
    requires line == "TracerPid: 4821"
    ensures ClassifyLine(line) == Some(Attached)
  {
    ClassifyTrimmedLine(line);
    assert StartsWith(line, TracerPidField);
    EndsInZeroByLastTwo(line);
  }

  /** An id whose last digit is zero still reads as attached: only a lone `0` means detached. */
  lemma TrailingZeroTracerIsAttached(line: string)
    requires line == "TracerPid: 10"
    ensures ClassifyLine(line) == Some(Attached)
  {
    ClassifyTrimmedLine(line);
    assert StartsWith(line, TracerPidField);
    EndsInZeroByLastTwo(line);
  }

  /** A bare field, with no id after it, reads as attached. */
  lemma BareTracerPidIsAttached(line: string)
    requires line == "TracerPid:"
    ensures ClassifyLine(line) == Some(Attached)
  {
    ClassifyTrimmedLine(line);
    assert StartsWith(line, TracerPidField);
    assert line[|line| - 1] != '0';
    assert !EndsInZero(line);
  }

  /** Other fields of the file do not decide anything. */
  lemma OtherFieldIsIgnored(line: string)
    requires line == "Name:\tbash"
    ensures ClassifyLine(line) == None
  {
    ClassifyTrimmedLine(line);
    assert line[0] != TracerPidField[0];
  }

  /** The first `TracerPid:` line decides the scan. */
  lemma {:induction false} ScanFirstTracerLine(lines: seq<Option<string>>, k: nat)
    requires k < |lines| && IsTracerLine(lines[k])
    requires forall j :: 0 <= j < k ==> !IsTracerLine(lines[j])
    ensures ScanStatus(lines) == ClassifyLine(lines[k].value).value
  {
    if k > 0 {
      assert !IsTracerLine(lines[0]);
      ScanFirstTracerLine(lines[1..], k - 1);
    }
  }

  /** Lines after the first `TracerPid:` line are never examined. */
  lemma ScanStopsAtTracerLine(lines: seq<Option<string>>, k: nat, rest: seq<Option<string>>)
    requires k < |lines| && IsTracerLine(lines[k])
    requires forall j :: 0 <= j < k ==> !IsTracerLine(lines[j])
    ensures ScanStatus(lines[..k + 1] + rest) == ScanStatus(lines)
  {
    var prefix := lines[..k + 1] + rest;
    assert prefix[k] == lines[k];
    assert forall j :: 0 <= j < k ==> prefix[j] == lines[j];
    ScanFirstTracerLine(prefix, k);
    ScanFirstTracerLine(lines, k);
  }

  /** The scan is unknown exactly when no line read is a `TracerPid:` line. */
  lemma {:induction false} ScanUnknownIffNoTracerLine(lines: seq<Option<string>>)
    ensures ScanStatus(lines) == Unknown <==> forall j :: 0 <= j < |lines| ==> !IsTracerLine(lines[j])
  {
    if lines != [] {
      if IsTracerLine(lines[0]) {
        assert ScanStatus(lines) != Unknown;
      } else {
        var tail := lines[1..];
        ScanUnknownIffNoTracerLine(tail);
        assert ScanStatus(lines) == ScanStatus(tail);
        forall j | 1 <= j < |lines| ensures lines[j] == tail[j - 1] {
        }
      }
    }
  }

  /** A line that could not be read is skipped, not fatal. */
  lemma {:induction false} ScanSkipsUnreadable(before: seq<Option<string>>, after: seq<Option<string>>)
    ensures ScanStatus(before + [None] + after) == ScanStatus(before + after)
  {
    if before == [] {
      assert before + [None] + after == [None] + after;
      assert (before + [None] + after)[1..] == after;
      assert before + after == after;
    } else {
      assert (before + [None] + after)[0] == before[0];
      assert (before + [None] + after)[1..] == before[1..] + [None] + after;
      assert (before + after)[0] == before[0];
      assert (before + after)[1..] == before[1..] + after;
      ScanSkipsUnreadable(before[1..], after);
    }
  }

  /** Only the status-file probe can fail to reach a verdict, and then only without a `TracerPid:` line. */
  lemma ProbeUnknown(p: Probe)
    ensures StateOf(p) == Unknown <==>
      p.NoProbe? || (p.ProcStatus? && (p.status.None? ||
        forall j :: 0 <= j < |p.status.value| ==> !IsTracerLine(p.status.value[j])))
  {
    if p.ProcStatus? && p.status.Some? {
      ScanUnknownIffNoTracerLine(p.status.value);
    }
  }

  // ---------------------------------------------------------------------------
  // break_if_attached
  // ---------------------------------------------------------------------------

  /**
    Whether `break_if_attached` raises the breakpoint trap: on Windows it asks
    `IsDebuggerPresent` directly, on Unix it asks `state()`, elsewhere it does
    nothing.
  */
  function BreakIfAttached(p: Probe): (trap: bool)
    ensures trap <==> StateOf(p) == Attached
  {
    match p
    case Win32(present) => present != 0
    case ProcStatus(_) => StateOf(p) == Attached
    case NoProbe => false
  }

  // ---------------------------------------------------------------------------
  // wait_until_attached
  // ---------------------------------------------------------------------------

  /** One iteration's observations: the state `state()` returned and the clock reading. */
  datatype Poll = Poll(state: State, now: int)

  /**
    The outcome of the polling loop over a finite stream of observations:
    the value it returned and how many polls it took, or still waiting once
    the stream runs out.
  */
  datatype WaitResult = Returned(result: Result<(), string>, polls: nat) | StillWaiting

  const UnknownStateMsg := "Debugger state is unknown, cannot wait_until_attached"
  const TimedOutMsg := "wait_until_attached timed out"

  /** The deadline: the clock at the call plus the timeout, when there is one. */
  function Deadline(start: int, timeout: Option<nat>): Option<int> {
    match timeout
    case None => None
    case Some(d) => Some(start + d)
  }

  /** A poll after which the loop sleeps and polls again. */
  predicate KeepsWaiting(p: Poll, deadline: Option<int>) {
    p.state == Detatched && !(deadline.Some? && p.now >= deadline.value)
  }

  /** What the loop returns at a poll that ends it. */
  function StopResult(p: Poll, deadline: Option<int>): Result<(), string>
    requires !KeepsWaiting(p, deadline)
  {
    match p.state
    case Attached => Ok(())
    case Unknown => Err(UnknownStateMsg)
    case Detatched => Err(TimedOutMsg)
  }

  /** The reference definition of the loop: the first poll that does not keep waiting ends it. */
  function WaitSpec(polls: seq<Poll>, deadline: Option<int>): WaitResult {
    if polls == [] then StillWaiting
    else if !KeepsWaiting(polls[0], deadline) then Returned(StopResult(polls[0], deadline), 1)
    else match WaitSpec(polls[1..], deadline)
      case Returned(r, n) => Returned(r, n + 1)
      case StillWaiting => StillWaiting
  }

  /**
    `wait_until_attached(timeout)`, started at clock reading `start`, over the
    observations its polls make; it sleeps once after every poll that keeps
    waiting.
  */
  method WaitUntilAttached(start: int, timeout: Option<nat>, polls: seq<Poll>) returns (w: WaitResult, sleeps: nat)
    ensures w == WaitSpec(polls, Deadline(start, timeout))
    ensures sleeps == if w.Returned? then w.polls - 1 else |polls|
  {
    var deadline := Deadline(start, timeout);
    var i := 0;
    sleeps := 0;
    while i < |polls|
      invariant 0 <= i <= |polls| && sleeps == i
      invariant forall j :: 0 <= j < i ==> KeepsWaiting(polls[j], deadline)
    {
      var poll := polls[i];
      match poll.state {
        case Attached =>
          WaitStopsAtFirstStop(polls, deadline, i);
          return Returned(Ok(()), i + 1), sleeps;
        case Unknown =>
          WaitStopsAtFirstStop(polls, deadline, i);
          return Returned(Err(UnknownStateMsg), i + 1), sleeps;
        case Detatched =>
          if deadline.Some? && poll.now >= deadline.value {
            WaitStopsAtFirstStop(polls, deadline, i);
            return Returned(Err(TimedOutMsg), i + 1), sleeps;
          }
          sleeps := sleeps + 1;
      }
      i := i + 1;
    }
    WaitNeverStops(polls, deadline);
    w := StillWaiting;
  }

  // ---------------------------------------------------------------------------
  // Properties of the wait
  // ---------------------------------------------------------------------------

  /** The first poll that does not keep waiting decides the outcome and the poll count. */
  lemma {:induction false} WaitStopsAtFirstStop(polls: seq<Poll>, deadline: Option<int>, k: nat)
    requires k < |polls| && !KeepsWaiting(polls[k], deadline)
    requires forall j :: 0 <= j < k ==> KeepsWaiting(polls[j], deadline)
    ensures WaitSpec(polls, deadline) == Returned(StopResult(polls[k], deadline), k + 1)
  {
    if k > 0 {
      assert KeepsWaiting(polls[0], deadline);
      WaitStopsAtFirstStop(polls[1..], deadline, k - 1);
    }
  }

  /** While every poll keeps waiting, the loop has not returned. */
  lemma {:induction false} WaitNeverStops(polls: seq<Poll>, deadline: Option<int>)
    requires forall j :: 0 <= j < |polls| ==> KeepsWaiting(polls[j], deadline)
    ensures WaitSpec(polls, deadline) == StillWaiting
  {
    if polls != [] {
      assert KeepsWaiting(polls[0], deadline);
      WaitNeverStops(polls[1..], deadline);
    }
  }

  /** A returned outcome comes from the first poll that stopped waiting, and from nothing after it. */
  lemma {:induction false} WaitReturnedAt(polls: seq<Poll>, deadline: Option<int>)
    ensures var w := WaitSpec(polls, deadline);
      w.Returned? ==>
        && 1 <= w.polls <= |polls|
        && (forall j :: 0 <= j < w.polls - 1 ==> KeepsWaiting(polls[j], deadline))
        && !KeepsWaiting(polls[w.polls - 1], deadline)
        && w.result == StopResult(polls[w.polls - 1], deadline)
    ensures WaitSpec(polls, deadline) == StillWaiting ==>
      forall j :: 0 <= j < |polls| ==> KeepsWaiting(polls[j], deadline)
  {
    if polls != [] && KeepsWaiting(polls[0], deadline) {
      WaitReturnedAt(polls[1..], deadline);
      assert forall j :: 1 <= j < |polls| ==> polls[j] == polls[1..][j - 1];
    }
  }

  /**
    The wait succeeds exactly when the poll that ends it observes `Attached`
    (even past the deadline, since the state is checked before the clock);
    it fails as unknown exactly when that poll observes `Unknown`; and it
    times out exactly when that poll observes `Detatched` at or after a
    deadline.
  */
  lemma WaitOutcome(polls: seq<Poll>, deadline: Option<int>)
    ensures var w := WaitSpec(polls, deadline);
      w.Returned? ==>
        && 1 <= w.polls <= |polls|
        && var last := polls[w.polls - 1];
        && (w.result == Ok(()) <==> last.state == Attached)
        && (w.result == Err(UnknownStateMsg) <==> last.state == Unknown)
        && (w.result == Err(TimedOutMsg) <==>
              last.state == Detatched && deadline.Some? && last.now >= deadline.value)
  {
    WaitReturnedAt(polls, deadline);
  }

  /** Without a timeout the wait never times out. */
  lemma NoTimeoutWithoutDeadline(start: int, polls: seq<Poll>)
    ensures forall n :: WaitSpec(polls, Deadline(start, None)) != Returned(Err(TimedOutMsg), n)
  {
    WaitOutcome(polls, None);
  }

  /** With a timeout, the wait has returned by the first poll whose clock reading reaches the deadline. */
  lemma {:induction false} WaitEndsByDeadline(polls: seq<Poll>, start: int, timeout: nat, k: nat)
    requires k < |polls| && polls[k].now >= start + timeout
    ensures var w := WaitSpec(polls[..k + 1], Deadline(start, Some(timeout)));
      w.Returned? && w.polls <= k + 1
  {
    var deadline := Deadline(start, Some(timeout));
    var prefix := polls[..k + 1];
    WaitReturnedAt(prefix, deadline);
  }

  /** An `Unknown` first poll returns the unknown-state error at once, before any sleep. */
  lemma UnknownFailsAtOnce(polls: seq<Poll>, deadline: Option<int>)
    requires polls != [] && polls[0].state == Unknown
    ensures WaitSpec(polls, deadline) == Returned(Err(UnknownStateMsg), 1)
  {
  }
}
