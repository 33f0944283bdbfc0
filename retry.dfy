/**
 * The command phase of `execute()`: build the command line, call `over.execute`, and on a
 * RuntimeIOException decide whether to wait and call again. Only this call is retried.
 */
module Retry {
  import opened Wrappers
  import opened Errors
  import opened Text
  import opened Hosts

  /** The task's retry and result attributes. */
  datatype Policy = Policy(retry: int, sleepMillis: int, pattern: string, failOnError: bool,
                           resultProperty: Option<string>)

  datatype Verdict = Retriable | Fatal | Crash

  /**
   * The catch block's judgement of a RuntimeIOException's cause: retriable with a positive
   * budget when the cause is a refused connection or a nested RuntimeIOException whose message
   * matches the pattern; a null nested message makes the match itself throw.
   */
  function Classify(cause: Cause, retry: int, pattern: string, matches: (string, string) -> bool): (v: Verdict)
    ensures v == Retriable <==> retry > 0 && (cause == ConnectRefused
                                   || (cause.NestedIo? && cause.message.Some? && matches(cause.message.value, pattern)))
    ensures v == Crash <==> cause == NestedIo(None)
  {
    match cause
    case ConnectRefused => if retry > 0 then Retriable else Fatal
    case NestedIo(message) =>
      if message.None? then Crash
      else if matches(message.value, pattern) && retry > 0 then Retriable else Fatal
    case OtherCause => Fatal
  }

  /** How many retries the loop can make. */
  function Budget(retry: int): nat { if retry > 0 then retry else 0 }

  datatype Status = Normal | Raised(error: Error)

  /**
   * How the command phase ended, how many execute calls it made, its final retry counter,
   * the result property it set (name and value) and its events.
   */
  datatype CommandRun = CommandRun(status: Status, attempts: nat, retryCount: nat,
                                   result: Option<(string, string)>, trace: seq<Event>)

  /** The arguments after Ant's property substitution. */
  function CommandLine(args: seq<string>, substitute: string -> string): seq<string>
  {
    seq(|args|, i requires 0 <= i < |args| => substitute(args[i]))
  }

  function ResultSlot(p: Policy, code: int): Option<(string, string)>
  {
    if p.resultProperty.Some? then Some((p.resultProperty.value, Decimal(code))) else None
  }

  /** The calls from the (k+1)-th on, once k retries have been made. */
  function Attempts(p: Policy, cmd: seq<string>, attempt: nat -> Attempt, matches: (string, string) -> bool,
                    k: nat): CommandRun
    requires k <= Budget(p.retry)
    decreases Budget(p.retry) - k
  {
    match attempt(k)
    case Completed(code) =>
      CommandRun(if p.failOnError then Raised(ExecutionFailed(code)) else Normal, k + 1, k,
                 ResultSlot(p, code), [Exec(cmd)])
    case Threw(reason) => CommandRun(Raised(OtherFailure(reason)), k + 1, k, None, [Exec(cmd)])
    case IoFailure(cause) =>
      var v := Classify(cause, p.retry, p.pattern, matches);
      if v == Retriable && k < p.retry then
        var rest := Attempts(p, cmd, attempt, matches, k + 1);
        rest.(trace := [Exec(cmd), Sleep(p.sleepMillis)] + rest.trace)
      else if v == Crash then CommandRun(Raised(NullMessage), k + 1, k, None, [Exec(cmd)])
      else CommandRun(Raised(Transport(cause)), k + 1, k, None, [Exec(cmd)])
  }

  /** The whole command phase; an empty argument list runs nothing. */
  function CommandPhase(p: Policy, args: seq<string>, substitute: string -> string,
                        attempt: nat -> Attempt, matches: (string, string) -> bool): CommandRun
  {
    if args == [] then CommandRun(Normal, 0, 0, None, [])
    else Attempts(p, CommandLine(args, substitute), attempt, matches, 0)
  }

  function Extend(t: seq<Event>, r: CommandRun): CommandRun
  {
    r.(trace := t + r.trace)
  }

  /** The loop that adds each substituted argument to the command line. */
  method BuildCommandLine(args: seq<string>, substitute: string -> string) returns (c: seq<string>)
    ensures c == CommandLine(args, substitute)
  {
    c := [];
    var i := 0;
    while i < |args|
      invariant 0 <= i <= |args|
      invariant c == CommandLine(args[..i], substitute)
    {
      c := c + [substitute(args[i])];
      i := i + 1;
    }
    assert args[..i] == args;
  }

  /**
   * The catch block's tests, in order: a refused connection, then a nested exception's message
   * against the pattern, which throws when that message is null.
   */
  method Judge(cause: Cause, retry: int, pattern: string, matches: (string, string) -> bool) returns (v: Verdict)
    ensures v == Classify(cause, retry, pattern, matches)
  {
    var retriable := false;
    if cause.ConnectRefused? && retry > 0 {
      retriable := true;
    }
    if cause.NestedIo? {
      if cause.message.None? {
        return Crash;
      }
      if matches(cause.message.value, pattern) && retry > 0 {
        retriable := true;
      }
    }
    v := if retriable then Retriable else Fatal;
  }

  /**
   * One pass of the loop body once the command line is built: the call, the result property,
   * the failOnError check, and the catch block. `again` says whether to wait and call again;
   * otherwise `last` is how the command phase ends.
   */
  method CallOnce(p: Policy, cmd: seq<string>, attempt: nat -> Attempt, matches: (string, string) -> bool, k: nat)
    returns (again: bool, last: CommandRun)
    requires k <= Budget(p.retry)
    ensures again <==> Continues(p, attempt, matches, k)
    ensures !again ==> last == Attempts(p, cmd, attempt, matches, k)
  {
    again := false;
    last := CommandRun(Normal, k + 1, k, None, [Exec(cmd)]);
    match attempt(k) {
      case Completed(code) =>
        if p.resultProperty.Some? {
          last := last.(result := Some((p.resultProperty.value, Decimal(code))));
        }
        if p.failOnError {
          last := last.(status := Raised(ExecutionFailed(code)));
        }
      case Threw(reason) =>
        last := last.(status := Raised(OtherFailure(reason)));
      case IoFailure(cause) =>
        var verdict := Judge(cause, p.retry, p.pattern, matches);
        if verdict == Crash {
          last := last.(status := Raised(NullMessage));
        } else if verdict == Retriable && k < p.retry {
          again := true;
        } else {
          last := last.(status := Raised(Transport(cause)));
        }
    }
  }

  /** The do/while retry loop. */
  method RunCommand(p: Policy, args: seq<string>, substitute: string -> string,
                    attempt: nat -> Attempt, matches: (string, string) -> bool) returns (run: CommandRun)
    ensures run == CommandPhase(p, args, substitute, attempt, matches)
  {
    ghost var cmd := CommandLine(args, substitute);
    ghost var spec := CommandPhase(p, args, substitute, attempt, matches);
    var retryCount: nat := 0;
    var trace: seq<Event> := [];
    var result: Option<(string, string)> := None;
    var retriable := true;
    while retriable
      invariant retryCount <= Budget(p.retry)
      invariant retriable && args != [] ==> spec == Extend(trace, Attempts(p, cmd, attempt, matches, retryCount))
      invariant args == [] ==> trace == [] && retryCount == 0 && result == None
      invariant !retriable && args != [] ==> spec == CommandRun(Normal, retryCount + 1, retryCount, result, trace)
      decreases Budget(p.retry) - retryCount + (if retriable then 1 else 0)
    {
      retriable := false;
      if |args| > 0 {
        var c := BuildCommandLine(args, substitute);
        var again, last := CallOnce(p, c, attempt, matches, retryCount);
        if again {
          ContinueStep(p, cmd, attempt, matches, retryCount, trace);
          retryCount := retryCount + 1;
          trace := trace + [Exec(c), Sleep(p.sleepMillis)];
          retriable := true;
        } else if last.status.Raised? {
          return Extend(trace, last);
        } else {
          trace := trace + last.trace;
          result := last.result;
        }
      }
    }
    if args == [] {
      run := CommandRun(Normal, 0, 0, None, []);
    } else {
      run := CommandRun(Normal, retryCount + 1, retryCount, result, trace);
    }
  }

  /** The (k+1)-th call fails retriably and the budget allows another. */
  predicate Continues(p: Policy, attempt: nat -> Attempt, matches: (string, string) -> bool, k: nat)
  {
    attempt(k).IoFailure? && Classify(attempt(k).cause, p.retry, p.pattern, matches) == Retriable && k < p.retry
  }

  /** One step of the loop: a call and a wait followed by the rest, or a single final call. */
  lemma AttemptsStep(p: Policy, cmd: seq<string>, attempt: nat -> Attempt, matches: (string, string) -> bool, k: nat)
    requires k <= Budget(p.retry)
    ensures Continues(p, attempt, matches, k) ==>
      Attempts(p, cmd, attempt, matches, k) == Extend([Exec(cmd), Sleep(p.sleepMillis)], Attempts(p, cmd, attempt, matches, k + 1))
    ensures !Continues(p, attempt, matches, k) ==>
      var r := Attempts(p, cmd, attempt, matches, k);
      r.trace == [Exec(cmd)] && r.attempts == k + 1 && r.retryCount == k
  {
  }

  /** What the loop has recorded so far stays in front of everything after a retry. */
  lemma ContinueStep(p: Policy, cmd: seq<string>, attempt: nat -> Attempt, matches: (string, string) -> bool,
                     k: nat, trace: seq<Event>)
    requires k <= Budget(p.retry) && Continues(p, attempt, matches, k)
    ensures k + 1 <= Budget(p.retry)
    ensures Extend(trace, Attempts(p, cmd, attempt, matches, k))
            == Extend(trace + [Exec(cmd), Sleep(p.sleepMillis)], Attempts(p, cmd, attempt, matches, k + 1))
  {
    AttemptsStep(p, cmd, attempt, matches, k);
    var rest := Attempts(p, cmd, attempt, matches, k + 1);
    assert trace + ([Exec(cmd), Sleep(p.sleepMillis)] + rest.trace)
        == (trace + [Exec(cmd), Sleep(p.sleepMillis)]) + rest.trace;
  }

  /** Counting from the (k+1)-th call: one more call than retries, never more retries than the budget. */
  lemma {:induction false} AttemptsCounts(p: Policy, cmd: seq<string>, attempt: nat -> Attempt,
                                          matches: (string, string) -> bool, k: nat)
    requires k <= Budget(p.retry)
    ensures var r := Attempts(p, cmd, attempt, matches, k);
      r.attempts == r.retryCount + 1 && k <= r.retryCount <= Budget(p.retry)
    decreases Budget(p.retry) - k
  {
    AttemptsStep(p, cmd, attempt, matches, k);
    if Continues(p, attempt, matches, k) {
      AttemptsCounts(p, cmd, attempt, matches, k + 1);
    }
  }

  /**
   * The events from the (k+1)-th call on: one Exec per call, one Sleep per retry and nothing
   * else.
   */
  lemma {:induction false} AttemptsEvents(p: Policy, cmd: seq<string>, attempt: nat -> Attempt,
                                          matches: (string, string) -> bool, k: nat, kind: Kind)
    requires k <= Budget(p.retry)
    ensures var r := Attempts(p, cmd, attempt, matches, k);
      Occurrences(r.trace, kind) == (if kind == ExecKind then r.retryCount - k + 1
                                     else if kind == SleepKind then r.retryCount - k else 0)
    decreases Budget(p.retry) - k
  {
    var r := Attempts(p, cmd, attempt, matches, k);
    AttemptsStep(p, cmd, attempt, matches, k);
    if Continues(p, attempt, matches, k) {
      var rest := Attempts(p, cmd, attempt, matches, k + 1);
      assert r.trace == [Exec(cmd), Sleep(p.sleepMillis)] + rest.trace && r.retryCount == rest.retryCount;
      AttemptsEvents(p, cmd, attempt, matches, k + 1, kind);
      PairThen(cmd, p.sleepMillis, rest.trace, kind);
    } else {
      OccurrencesSingle(Exec(cmd), kind);
    }
  }

  /** A call and a wait in front of a trace add one Exec and one Sleep. */
  lemma PairThen(cmd: seq<string>, millis: int, rest: seq<Event>, kind: Kind)
    ensures Occurrences([Exec(cmd), Sleep(millis)] + rest, kind)
            == Occurrences(rest, kind) + (if kind == ExecKind || kind == SleepKind then 1 else 0)
  {
    OccurrencesSingle(Exec(cmd), kind);
    OccurrencesSingle(Sleep(millis), kind);
    assert [Exec(cmd), Sleep(millis)] == [Exec(cmd)] + [Sleep(millis)];
    OccurrencesAppend([Exec(cmd)], [Sleep(millis)], kind);
    OccurrencesAppend([Exec(cmd), Sleep(millis)], rest, kind);
  }

  /**
   * The command phase makes at most retry+1 calls, exactly one when retry <= 0 and none for an
   * empty command; its retry counter never exceeds the budget and equals the number of waits.
   */
  lemma CommandPhaseCounts(p: Policy, args: seq<string>, substitute: string -> string,
                           attempt: nat -> Attempt, matches: (string, string) -> bool)
    ensures var r := CommandPhase(p, args, substitute, attempt, matches);
      r.attempts <= Budget(p.retry) + 1 && r.retryCount <= Budget(p.retry)
      && (p.retry <= 0 && args != [] ==> r.attempts == 1)
      && (args == [] <==> r.attempts == 0)
      && (args == [] ==> r == CommandRun(Normal, 0, 0, None, []))
      && Occurrences(r.trace, ExecKind) == r.attempts
      && Occurrences(r.trace, SleepKind) == r.retryCount
      && Occurrences(r.trace, DeleteKind) == 0 && Occurrences(r.trace, DownloadKind) == 0
      && Occurrences(r.trace, CloseKind) == 0
      && Occurrences(r.trace, UploadKind) == 0 && Occurrences(r.trace, WriteKind) == 0
  {
    if args != [] {
      var cmd := CommandLine(args, substitute);
      AttemptsCounts(p, cmd, attempt, matches, 0);
      forall kind: Kind ensures var r := Attempts(p, cmd, attempt, matches, 0);
        Occurrences(r.trace, kind) == (if kind == ExecKind then r.retryCount + 1
                                       else if kind == SleepKind then r.retryCount else 0) {
        AttemptsEvents(p, cmd, attempt, matches, 0, kind);
      }
    }
  }

  /**
   * The last call decides: a completed call sets the result property and ends the loop, as a
   * fail-on-error throw when `failOnError` is set; any other ending is a raised error with no
   * result. Every earlier call failed with a retriable error.
   */
  lemma {:induction false} LastAttemptDecides(p: Policy, cmd: seq<string>, attempt: nat -> Attempt,
                                              matches: (string, string) -> bool, k: nat)
    requires k <= Budget(p.retry)
    ensures var r := Attempts(p, cmd, attempt, matches, k);
      (attempt(r.retryCount).Completed? ==>
         r.status == (if p.failOnError then Raised(ExecutionFailed(attempt(r.retryCount).code)) else Normal)
         && r.result == ResultSlot(p, attempt(r.retryCount).code))
      && (!attempt(r.retryCount).Completed? ==> r.status.Raised? && r.result == None)
      && (forall j :: k <= j < r.retryCount ==>
            attempt(j).IoFailure? && Classify(attempt(j).cause, p.retry, p.pattern, matches) == Retriable)
    decreases Budget(p.retry) - k
  {
    AttemptsCounts(p, cmd, attempt, matches, k);
    if attempt(k).IoFailure? && Classify(attempt(k).cause, p.retry, p.pattern, matches) == Retriable && k < p.retry {
      var rest := Attempts(p, cmd, attempt, matches, k + 1);
      assert Attempts(p, cmd, attempt, matches, k) == Extend([Exec(cmd), Sleep(p.sleepMillis)], rest);
      LastAttemptDecides(p, cmd, attempt, matches, k + 1);
    }
  }

  /** With `failOnError` set, a non-empty command phase never ends normally, whatever the exit code. */
  lemma FailOnErrorAlwaysRaises(p: Policy, args: seq<string>, substitute: string -> string,
                                attempt: nat -> Attempt, matches: (string, string) -> bool)
    requires p.failOnError && args != []
    ensures CommandPhase(p, args, substitute, attempt, matches).status.Raised?
  {
    var cmd := CommandLine(args, substitute);
    LastAttemptDecides(p, cmd, attempt, matches, 0);
  }

  /** A first failure that is not retriable is raised after that single call. */
  lemma NonRetriableRaisedAtOnce(p: Policy, args: seq<string>, substitute: string -> string,
                                 attempt: nat -> Attempt, matches: (string, string) -> bool)
    requires args != [] && attempt(0).IoFailure?
    requires Classify(attempt(0).cause, p.retry, p.pattern, matches) == Fatal
    ensures var r := CommandPhase(p, args, substitute, attempt, matches);
      r.attempts == 1 && r.status == Raised(Transport(attempt(0).cause)) && r.trace == [Exec(CommandLine(args, substitute))]
  {
  }

  lemma {:induction false} PermanentFailureFrom(p: Policy, cmd: seq<string>, attempt: nat -> Attempt,
                                                matches: (string, string) -> bool, k: nat)
    requires 0 <= p.retry && k <= p.retry
    requires forall j :: k <= j <= p.retry ==> attempt(j) == IoFailure(ConnectRefused)
    ensures var r := Attempts(p, cmd, attempt, matches, k);
      r.attempts == p.retry + 1 && r.status == Raised(Transport(ConnectRefused))
    decreases p.retry - k
  {
    if k < p.retry {
      PermanentFailureFrom(p, cmd, attempt, matches, k + 1);
    }
  }

  /** A connection that keeps being refused is called exactly retry+1 times, then the error is raised. */
  lemma PermanentFailure(p: Policy, args: seq<string>, substitute: string -> string,
                         attempt: nat -> Attempt, matches: (string, string) -> bool)
    requires 0 <= p.retry && args != []
    requires forall j :: 0 <= j <= p.retry ==> attempt(j) == IoFailure(ConnectRefused)
    ensures var r := CommandPhase(p, args, substitute, attempt, matches);
      r.attempts == p.retry + 1 && r.status == Raised(Transport(ConnectRefused))
  {
    PermanentFailureFrom(p, CommandLine(args, substitute), attempt, matches, 0);
  }

  /** Two refused connections, then success, with retry = 2: three calls, two waits, a normal end. */
  lemma RefusedTwiceThenSucceeds(p: Policy, args: seq<string>, substitute: string -> string,
                                 matches: (string, string) -> bool)
    requires p.retry == 2 && !p.failOnError && args != []
    ensures var r := CommandPhase(p, args, substitute,
                                  k => if k < 2 then IoFailure(ConnectRefused) else Completed(0), matches);
      r.attempts == 3 && r.retryCount == 2 && r.status == Normal
      && Occurrences(r.trace, SleepKind) == 2
  {
    var attempt: nat -> Attempt := k => if k < 2 then IoFailure(ConnectRefused) else Completed(0);
    var cmd := CommandLine(args, substitute);
    assert Attempts(p, cmd, attempt, matches, 2).attempts == 3;
    assert Attempts(p, cmd, attempt, matches, 1).attempts == 3;
    CommandPhaseCounts(p, args, substitute, attempt, matches);
  }
}
