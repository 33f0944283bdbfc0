/**
 * Properties of a whole `execute()` call: what happens before connecting, the connection's
 * closing, the temporary file's cleanup, the download, and the fields written back.
 */
module ExecuteProperties {
  import opened Wrappers
  import opened Errors
  import opened Hosts
  import opened Connection
  import opened Staging
  import opened Retry
  import opened Execute
  import opened ContentNormalizer

  /** Setup succeeded and the library connected. */
  predicate Connected(s: Settings, env: Env)
  {
    Setup(s.host, s.username, s.password, s.os, s.domain, s.jumpstation, s.https, s.locale, s.timeout,
          env.isFamily).Ok?
    && env.connectError.None?
  }

  function ConnectionOf(s: Settings, env: Env): Connection
    requires Connected(s, env)
  {
    Setup(s.host, s.username, s.password, s.os, s.domain, s.jumpstation, s.https, s.locale, s.timeout,
          env.isFamily).value
  }

  /** The working directory and the staging result, when the session got past staging. */
  function Reached(s: Settings, env: Env): Option<(string, Staged)>
  {
    if !Connected(s, env) then None
    else
      var wd := WorkingDir(s.dir, env.remote, env.tempDir);
      if wd.Err? then None
      else
        var st := StagePhase(s.file, s.content, s.toFile, s.temporary, s.os, s.overwrite, s.encoding, wd.value, env);
        if st.Err? then None else Some((wd.value, st.value))
  }

  function CommandOf(s: Settings, env: Env): CommandRun
  {
    CommandPhase(PolicyOf(s), s.exec, env.substitute, env.attempt, env.matches)
  }

  /** The remote files after the cleanup. */
  function Cleaned(st: Staged): FileSystem
  {
    if st.temporary && st.remoteFile.Some? then st.remote - {st.remoteFile.value} else st.remote
  }

  /** The download runs and finds its source. */
  predicate Downloads(run: CommandRun, downloadFile: Option<string>, st: Staged)
  {
    !run.status.Raised? && downloadFile.Some? && downloadFile.value in Cleaned(st)
    && !Cleaned(st)[downloadFile.value].isDir
  }

  /** A run that stops before the command phase changes no file and records at most the closing. */
  lemma {:induction false} RunBeforeCommand(s: Settings, env: Env)
    requires Reached(s, env).None?
    ensures var o := Run(s, env);
      o.error.Some? && o.remote == env.remote && o.local == env.local && o.result == None
      && o.trace == (if Connected(s, env) then [Close] else [])
  {
    if Connected(s, env) {
      var conn := ConnectionOf(s, env);
      assert Run(s, env) == Session(s, env, conn);
      var wd := WorkingDir(s.dir, env.remote, env.tempDir);
      if wd.Ok? {
        assert Session(s, env, conn) == InWorkingDir(s, env, conn, wd.value);
      }
    }
  }

  /** A run that gets past staging is the command phase followed by the conclusion. */
  lemma {:induction false} RunAfterStaging(s: Settings, env: Env)
    requires Reached(s, env).Some?
    ensures Connected(s, env)
    ensures var (wdir, st) := Reached(s, env).value;
      Run(s, env) == Conclude(CommandOf(s, env), s.downloadFile, s.downloadTo, env, ConnectionOf(s, env), wdir, st)
  {
  }

  lemma StagedTrace(file: Option<string>, content: Option<string>, toFile: Option<string>, temporary: bool,
                    os: string, overwrite: bool, encoding: string, wdir: string, env: Env)
    requires StagePhase(file, content, toFile, temporary, os, overwrite, encoding, wdir, env).Ok?
    ensures var t := StagePhase(file, content, toFile, temporary, os, overwrite, encoding, wdir, env).value.trace;
      t == [] || (|t| == 1 && (t[0].Upload? || t[0].WriteContent?))
  {
  }

  function CleanupEvents(st: Staged): seq<Event>
  {
    if st.temporary && st.remoteFile.Some? then [Delete(st.remoteFile.value)] else []
  }

  function DownloadEvents(run: CommandRun, downloadFile: Option<string>, st: Staged, name: string): seq<Event>
  {
    if Downloads(run, downloadFile, st) then [Event.Download(downloadFile.value, name)] else []
  }

  function LocalTarget(downloadFile: Option<string>, downloadTo: Option<string>, env: Env): string
  {
    if downloadFile.Some? then Download.LocalName(downloadFile.value, downloadTo, env.local) else ""
  }

  /** The conclusion's events: staging, the command phase, the cleanup, the download, the closing. */
  lemma ConcludeTrace(run: CommandRun, downloadFile: Option<string>, downloadTo: Option<string>,
                      env: Env, conn: Connection, wdir: string, st: Staged)
    ensures Conclude(run, downloadFile, downloadTo, env, conn, wdir, st).trace
            == st.trace + run.trace + CleanupEvents(st) + DownloadEvents(run, downloadFile, st, LocalTarget(downloadFile, downloadTo, env)) + [Close]
  {
    var trace := st.trace + run.trace + CleanupEvents(st);
    var o := Outcome(None, Some(conn), Cleaned(st), env.local, run.result, trace, Some(wdir), st.toFile, st.temporary);
    var fetched := DownloadEvents(run, downloadFile, st, LocalTarget(downloadFile, downloadTo, env));
    var c := Conclude(run, downloadFile, downloadTo, env, conn, wdir, st);
    if run.status.Raised? || downloadFile.None? {
      assert c.trace == trace + [Close];
      assert fetched == [];
    } else {
      var f := Fetch(o, downloadFile.value, downloadTo, env.now);
      assert c.trace == f.trace + [Close];
      assert LocalTarget(downloadFile, downloadTo, env) == Download.LocalName(downloadFile.value, downloadTo, env.local);
      assert f.trace == trace + fetched;
    }
  }

  lemma {:induction false} OccurrencesOfFive(a: seq<Event>, b: seq<Event>, c: seq<Event>, d: seq<Event>,
                                             e: seq<Event>, kind: Kind)
    ensures Occurrences(a + b + c + d + e, kind)
            == Occurrences(a, kind) + Occurrences(b, kind) + Occurrences(c, kind) + Occurrences(d, kind) + Occurrences(e, kind)
  {
    OccurrencesAppend(a, b, kind);
    OccurrencesAppend(a + b, c, kind);
    OccurrencesAppend(a + b + c, d, kind);
    OccurrencesAppend(a + b + c + d, e, kind);
  }

  lemma CleanupCount(st: Staged, kind: Kind)
    ensures Occurrences(CleanupEvents(st), kind) == if kind == DeleteKind && st.temporary && st.remoteFile.Some? then 1 else 0
  {
    if st.temporary && st.remoteFile.Some? {
      OccurrencesSingle(Delete(st.remoteFile.value), kind);
    }
  }

  lemma DownloadCount(run: CommandRun, downloadFile: Option<string>, st: Staged, name: string, kind: Kind)
    ensures Occurrences(DownloadEvents(run, downloadFile, st, name), kind)
            == if kind == DownloadKind && Downloads(run, downloadFile, st) then 1 else 0
  {
    var fetched := DownloadEvents(run, downloadFile, st, name);
    if fetched != [] {
      OccurrencesSingle(fetched[0], kind);
    }
  }

  /** The events of the conclusion, kind by kind: staging, the command, one deletion, one download, one closing. */
  lemma ConcludeEvents(run: CommandRun, downloadFile: Option<string>, downloadTo: Option<string>,
                       env: Env, conn: Connection, wdir: string, st: Staged, kind: Kind)
    ensures var t := Conclude(run, downloadFile, downloadTo, env, conn, wdir, st).trace;
      Occurrences(t, kind) == Occurrences(st.trace, kind) + Occurrences(run.trace, kind)
        + (if kind == DeleteKind && st.temporary && st.remoteFile.Some? then 1 else 0)
        + (if kind == DownloadKind && Downloads(run, downloadFile, st) then 1 else 0)
        + (if kind == CloseKind then 1 else 0)
      && |t| > 0 && t[|t| - 1] == Close
  {
    var cleanup := CleanupEvents(st);
    var fetched := DownloadEvents(run, downloadFile, st, LocalTarget(downloadFile, downloadTo, env));
    var t := st.trace + run.trace + cleanup + fetched + [Close];
    ConcludeTrace(run, downloadFile, downloadTo, env, conn, wdir, st);
    OccurrencesOfFive(st.trace, run.trace, cleanup, fetched, [Close], kind);
    CleanupCount(st, kind);
    DownloadCount(run, downloadFile, st, LocalTarget(downloadFile, downloadTo, env), kind);
    OccurrencesSingle(Close, kind);
  }

  /**
   * How many events of a kind a run records: the staging write, one Exec per command call, one
   * Sleep per retry, at most one deletion and one download, and the closing once connected.
   */
  function EventCount(s: Settings, env: Env, kind: Kind): nat
  {
    if Reached(s, env).None? then (if Connected(s, env) && kind == CloseKind then 1 else 0)
    else
      var st := Reached(s, env).value.1;
      var run := CommandOf(s, env);
      (if kind == UploadKind || kind == WriteKind then Occurrences(st.trace, kind) else 0)
      + (if kind == ExecKind then run.attempts else if kind == SleepKind then run.retryCount else 0)
      + (if kind == DeleteKind && st.temporary && st.remoteFile.Some? then 1 else 0)
      + (if kind == DownloadKind && Downloads(run, s.downloadFile, st) then 1 else 0)
      + (if kind == CloseKind then 1 else 0)
  }

  lemma StagedCount(t: seq<Event>, kind: Kind)
    requires t == [] || (|t| == 1 && (t[0].Upload? || t[0].WriteContent?))
    ensures kind != UploadKind && kind != WriteKind ==> Occurrences(t, kind) == 0
  {
    if t != [] {
      assert t == [t[0]];
      OccurrencesSingle(t[0], kind);
    }
  }

  /** The conclusion's events once the command phase and staging are known. */
  lemma ConcludedCount(p: Policy, exec: seq<string>, downloadFile: Option<string>, downloadTo: Option<string>,
                       env: Env, conn: Connection, wdir: string, st: Staged, kind: Kind)
    requires st.trace == [] || (|st.trace| == 1 && (st.trace[0].Upload? || st.trace[0].WriteContent?))
    ensures var run := CommandPhase(p, exec, env.substitute, env.attempt, env.matches);
      var t := Conclude(run, downloadFile, downloadTo, env, conn, wdir, st).trace;
      Occurrences(t, kind)
        == (if kind == UploadKind || kind == WriteKind then Occurrences(st.trace, kind) else 0)
          + (if kind == ExecKind then run.attempts else if kind == SleepKind then run.retryCount else 0)
          + (if kind == DeleteKind && st.temporary && st.remoteFile.Some? then 1 else 0)
          + (if kind == DownloadKind && Downloads(run, downloadFile, st) then 1 else 0)
          + (if kind == CloseKind then 1 else 0)
      && |t| > 0 && t[|t| - 1] == Close
  {
    var run := CommandPhase(p, exec, env.substitute, env.attempt, env.matches);
    StagedCount(st.trace, kind);
    CommandPhaseCounts(p, exec, env.substitute, env.attempt, env.matches);
    ConcludeEvents(run, downloadFile, downloadTo, env, conn, wdir, st, kind);
  }

  /** The events of a run that got past staging. */
  lemma StagedRunEvents(s: Settings, env: Env, kind: Kind)
    requires Reached(s, env).Some?
    ensures Occurrences(Run(s, env).trace, kind) == EventCount(s, env, kind)
    ensures |Run(s, env).trace| > 0 && Run(s, env).trace[|Run(s, env).trace| - 1] == Close
  {
    RunAfterStaging(s, env);
    var (wdir, st) := Reached(s, env).value;
    StagedTrace(s.file, s.content, s.toFile, s.temporary, s.os, s.overwrite, s.encoding, wdir, env);
    ConcludedCount(PolicyOf(s), s.exec, s.downloadFile, s.downloadTo, env, ConnectionOf(s, env), wdir, st, kind);
  }

  /** The events of a whole run, kind by kind; a connected run ends with the closing. */
  lemma RunEvents(s: Settings, env: Env, kind: Kind)
    ensures Occurrences(Run(s, env).trace, kind) == EventCount(s, env, kind)
    ensures Connected(s, env) ==> |Run(s, env).trace| > 0 && Run(s, env).trace[|Run(s, env).trace| - 1] == Close
  {
    if Reached(s, env).None? {
      RunBeforeCommand(s, env);
      OccurrencesSingle(Close, kind);
    } else {
      StagedRunEvents(s, env, kind);
    }
  }

  /** Once connected, the connection is closed exactly once, as the last event; otherwise never. */
  lemma CloseExactlyOnce(s: Settings, env: Env)
    ensures var o := Run(s, env);
      Occurrences(o.trace, CloseKind) == (if Connected(s, env) then 1 else 0)
      && (Connected(s, env) ==> |o.trace| > 0 && o.trace[|o.trace| - 1] == Close)
  {
    RunEvents(s, env, CloseKind);
  }

  /**
   * The temporary remote file is deleted exactly once when staging completed with
   * `temporary` set and a remote file named, whether the command phase ended normally or
   * raised; an error during staging or before it deletes nothing.
   */
  lemma CleanupExactlyOnce(s: Settings, env: Env)
    ensures Occurrences(Run(s, env).trace, DeleteKind)
            == if Reached(s, env).Some? && Reached(s, env).value.1.temporary && Reached(s, env).value.1.remoteFile.Some?
               then 1 else 0
  {
    RunEvents(s, env, DeleteKind);
  }

  /** The download happens at most once, and only after a command phase that ended normally. */
  lemma DownloadOnlyAfterNormalCommand(s: Settings, env: Env)
    ensures Occurrences(Run(s, env).trace, DownloadKind)
            == if Reached(s, env).Some? && Downloads(CommandOf(s, env), s.downloadFile, Reached(s, env).value.1)
               then 1 else 0
    ensures Occurrences(Run(s, env).trace, DownloadKind) > 0 ==> !CommandOf(s, env).status.Raised?
  {
    RunEvents(s, env, DownloadKind);
  }

  /**
   * The command is executed only in a session that got past staging, at most retry+1 times,
   * never for an empty command, with one wait per retry.
   */
  lemma CommandCalls(s: Settings, env: Env)
    ensures var o := Run(s, env);
      Occurrences(o.trace, ExecKind) == (if Reached(s, env).Some? then CommandOf(s, env).attempts else 0)
      && Occurrences(o.trace, SleepKind) == (if Reached(s, env).Some? then CommandOf(s, env).retryCount else 0)
      && Occurrences(o.trace, ExecKind) <= Budget(s.retry) + 1
      && (s.exec == [] ==> Occurrences(o.trace, ExecKind) == 0)
  {
    RunEvents(s, env, ExecKind);
    RunEvents(s, env, SleepKind);
    CommandPhaseCounts(PolicyOf(s), s.exec, env.substitute, env.attempt, env.matches);
  }

  /** With `failOnError` set and a non-empty command, `execute()` always raises. */
  lemma FailOnErrorAlwaysFails(s: Settings, env: Env)
    requires s.failOnError && s.exec != []
    ensures Run(s, env).error.Some?
  {
    if Reached(s, env).None? {
      RunBeforeCommand(s, env);
    } else {
      RunAfterStaging(s, env);
      FailOnErrorAlwaysRaises(PolicyOf(s), s.exec, env.substitute, env.attempt, env.matches);
    }
  }

  /**
   * `dir` is written back with the temporary directory when none was given and the session
   * was opened; a given `dir` is never changed.
   */
  lemma DirWrittenBack(s: Settings, env: Env)
    ensures Connected(s, env) && s.dir.None? ==> Run(s, env).dir == Some(env.tempDir)
    ensures s.dir.Some? || !Connected(s, env) ==> Run(s, env).dir == s.dir
  {
  }

  /** An explicit target name for a local file makes the staged file permanent: nothing is deleted. */
  lemma ExplicitTargetIsKept(s: Settings, env: Env)
    requires Reached(s, env).Some? && s.file.Some? && s.toFile.Some?
    ensures Run(s, env).temporary == false
    ensures Occurrences(Run(s, env).trace, DeleteKind) == 0
  {
    CleanupExactlyOnce(s, env);
    RunAfterStaging(s, env);
  }

  /**
   * A local file staged under its own base name with `temporary` set is deleted afterwards,
   * also when the upload was skipped because the remote copy was fresh.
   */
  lemma TemporaryUploadDeleted(s: Settings, env: Env)
    requires Reached(s, env).Some? && s.file.Some? && s.toFile.None? && s.temporary
    ensures Occurrences(Run(s, env).trace, DeleteKind) == 1
    ensures Run(s, env).toFile.Some? && Run(s, env).temporary
  {
    CleanupExactlyOnce(s, env);
    RunAfterStaging(s, env);
  }

  /** Only the command call is retried: a failing connection ends the run whatever the transport would do. */
  lemma ConnectionNotRetried(s: Settings, env: Env, attempt: nat -> Attempt)
    requires Setup(s.host, s.username, s.password, s.os, s.domain, s.jumpstation, s.https, s.locale, s.timeout,
                   env.isFamily).Ok?
    requires env.connectError.Some?
    ensures Run(s, env).error == Some(ConnectFailed(env.connectError.value))
    ensures Run(s, env).trace == []
    ensures Run(s, env.(attempt := attempt)) == Run(s, env)
  {
  }

  /** A null or empty host fails before anything is done. */
  lemma MissingHostFailsFirst(s: Settings, env: Env)
    requires s.host.None? || s.host.value == ""
    ensures Run(s, env) == Outcome(Some(MissingHost), None, env.remote, env.local, None, [], s.dir, s.toFile, s.temporary)
  {
  }

  /**
   * A UNIX command `echo hi` with no staging and the default `failOnError`: the session uses
   * ssh and the temporary directory, runs the command once, and the exit status 0 is still
   * reported as a failure.
   */
  lemma EchoWithFailOnError(s: Settings, env: Env)
    requires s.host == Some("h") && s.os == "UNIX" && s.dir.None? && s.file.None? && s.content.None?
    requires s.jumpstation.None? && s.downloadFile.None? && s.failOnError && s.exec == ["echo", "hi"]
    requires env.isFamily("UNIX") && env.connectError.None? && env.attempt(0) == Completed(0)
    ensures var o := Run(s, env);
      o.connection.Some? && o.connection.value.protocol == "ssh" && o.dir == Some(env.tempDir)
      && o.error == Some(ExecutionFailed(0)) && Occurrences(o.trace, ExecKind) == 1
      && Occurrences(o.trace, DeleteKind) == 0
  {
    assert Text.Upper("UNIX") == "UNIX";
    CommandCalls(s, env);
    CleanupExactlyOnce(s, env);
    RunAfterStaging(s, env);
  }

  /**
   * `install.bat` uploaded to "/install.bat" on WINDOWS: the target is rewritten to
   * "C:/install.bat", uploaded when absent, and not temporary.
   */
  lemma WindowsInstallUpload(temporary: bool, overwrite: bool, wdir: string, env: Env)
    requires "install.bat" in env.local && !env.local["install.bat"].isDir
    requires "C:/install.bat" !in env.remote
    ensures var r := StageFile("install.bat", "WINDOWS", Some("/install.bat"), temporary, overwrite, wdir, env);
      r.Ok? && r.value.toFile == Some("C:/install.bat") && !r.value.temporary
      && r.value.remoteFile == Some("C:/install.bat") && r.value.trace == [Upload("C:/install.bat")]
      && r.value.remote["C:/install.bat"].bytes == env.local["install.bat"].bytes
  {
    assert "C:" + "/install.bat" == "C:/install.bat";
  }

  /** Content "echo hi\n" is written as the encoding of "echo hi": the trailing newline is trimmed away. */
  lemma EchoContentWritten(toFile: Option<string>, temporary: bool, wdir: string, env: Env)
    requires env.encode("UTF-8", "echo hi").Some?
    ensures var r := StageContent("echo hi\n", "run.sh", toFile, temporary, "UTF-8", wdir, env);
      r.Ok? && r.value.remote[env.join(wdir, "run.sh")].bytes == env.encode("UTF-8", "echo hi").value
  {
    TrailingNewlineDropped();
  }
}
