/**
 * The `overexec` task: its attributes, the nested-element factories, and `execute()`, which
 * connects, stages a file, runs the command with retries, cleans up and downloads.
 */
module Execute {
  import opened Wrappers
  import opened Errors
  import opened Text
  import opened Hosts
  import opened Options
  import opened Connection
  import opened Staging
  import opened Retry
  import opened Download
  import opened Streams
  import opened Arguments
  import opened ContentNormalizer

  /** The task's attributes as values, with the command line's arguments by their text. */
  datatype Settings = Settings(
    host: Option<string>, username: Option<string>, password: Option<string>, os: string,
    domain: Option<string>, dir: Option<string>, exec: seq<string>, file: Option<string>,
    toFile: Option<string>, overwrite: bool, encoding: string, content: Option<string>,
    temporary: bool, https: bool, locale: Option<string>, retry: int, retrySleep: int,
    retryMatch: string, timeout: int, failOnError: bool, resultProperty: Option<string>,
    jumpstation: Option<string>, downloadFile: Option<string>, downloadTo: Option<string>)

  /**
   * What one `execute()` call leaves: the error it raised (None when it returned), the
   * connection it asked for, both hosts' files, the result property it set, the remote effects
   * in order, and the task's `dir`, `toFile` and `temporary` afterwards.
   */
  datatype Outcome = Outcome(
    error: Option<Error>, connection: Option<Connection>, remote: FileSystem, local: FileSystem,
    result: Option<(string, string)>, trace: seq<Event>,
    dir: Option<string>, toFile: Option<string>, temporary: bool)

  function Values(args: seq<OverthereArgument>): (r: seq<string>)
    reads args
    ensures |r| == |args| && forall i :: 0 <= i < |args| ==> r[i] == args[i].value
  {
    if args == [] then [] else Values(args[..|args| - 1]) + [args[|args| - 1].value]
  }

  function PolicyOf(s: Settings): Policy
  {
    Policy(s.retry, s.retrySleep, s.retryMatch, s.failOnError, s.resultProperty)
  }

  /** The staging decision followed by staging itself. */
  function StagePhase(file: Option<string>, content: Option<string>, toFile: Option<string>, temporary: bool,
                      os: string, overwrite: bool, encoding: string, wdir: string, env: Env): Result<Staged, StageFailure>
  {
    var src := StagingSource(file, content, toFile);
    if src.Err? then Err(StageFailure(src.error, toFile, temporary))
    else Stage(src.value, os, toFile, temporary, overwrite, encoding, wdir, env)
  }

  /** The connection is closed last, however the session ended. */
  function Closed(o: Outcome): Outcome
  {
    o.(trace := o.trace + [Close])
  }

  /** The download after a normal command phase: the remote file copied to its local name. */
  function Fetch(o: Outcome, downloadFile: string, downloadTo: Option<string>, now: int): Outcome
  {
    var name := LocalName(downloadFile, downloadTo, o.local);
    if downloadFile !in o.remote || o.remote[downloadFile].isDir then o.(error := Some(NoRemoteFile(downloadFile)))
    else o.(local := o.local[name := Entry(false, o.remote[downloadFile].bytes, now)],
            trace := o.trace + [Download(downloadFile, name)])
  }

  /**
   * After the command phase: the deletion of a temporary remote file (the phase's `finally`),
   * then the download when the phase ended normally, then closing the connection.
   */
  function Conclude(run: CommandRun, downloadFile: Option<string>, downloadTo: Option<string>,
                    env: Env, conn: Connection, wdir: string, st: Staged): (o: Outcome)
    ensures o.dir == Some(wdir) && o.toFile == st.toFile && o.temporary == st.temporary
  {
    var deletes := st.temporary && st.remoteFile.Some?;
    var remote := if deletes then st.remote - {st.remoteFile.value} else st.remote;
    var trace := st.trace + run.trace + (if deletes then [Delete(st.remoteFile.value)] else []);
    var o := Outcome(None, Some(conn), remote, env.local, run.result, trace, Some(wdir), st.toFile, st.temporary);
    if run.status.Raised? then Closed(o.(error := Some(run.status.error)))
    else if downloadFile.None? then Closed(o)
    else Closed(Fetch(o, downloadFile.value, downloadTo, env.now))
  }

  /** After staging: the command phase with its retries, then the rest. */
  function AfterStaging(p: Policy, exec: seq<string>, downloadFile: Option<string>, downloadTo: Option<string>,
                        env: Env, conn: Connection, wdir: string, st: Staged): (o: Outcome)
    ensures o.dir == Some(wdir) && o.toFile == st.toFile && o.temporary == st.temporary
  {
    Conclude(CommandPhase(p, exec, env.substitute, env.attempt, env.matches), downloadFile, downloadTo, env, conn, wdir, st)
  }

  /** Everything inside the connection's try/finally. */
  function Session(s: Settings, env: Env, conn: Connection): Outcome
  {
    var wd := WorkingDir(s.dir, env.remote, env.tempDir);
    if wd.Err? then
      Closed(Outcome(Some(wd.error), Some(conn), env.remote, env.local, None, [], s.dir, s.toFile, s.temporary))
    else InWorkingDir(s, env, conn, wd.value)
  }

  /** Staging and what follows, once the working directory is known. */
  function InWorkingDir(s: Settings, env: Env, conn: Connection, wdir: string): (o: Outcome)
    ensures o.dir == Some(wdir)
  {
    var st := StagePhase(s.file, s.content, s.toFile, s.temporary, s.os, s.overwrite, s.encoding, wdir, env);
    if st.Err? then
      Closed(Outcome(Some(st.error.error), Some(conn), env.remote, env.local, None, [], Some(wdir),
                     st.error.toFile, st.error.temporary))
    else AfterStaging(PolicyOf(s), s.exec, s.downloadFile, s.downloadTo, env, conn, wdir, st.value)
  }

  lemma InWorkingDirIgnoresDir(s: Settings, d: Option<string>, env: Env, conn: Connection, wdir: string)
    ensures InWorkingDir(s.(dir := d), env, conn, wdir) == InWorkingDir(s, env, conn, wdir)
  {
  }

  /** `execute()` as a function of the task's attributes and the environment. */
  function Run(s: Settings, env: Env): Outcome
  {
    var setup := Setup(s.host, s.username, s.password, s.os, s.domain, s.jumpstation, s.https, s.locale,
                       s.timeout, env.isFamily);
    if setup.Err? then
      Outcome(Some(setup.error), None, env.remote, env.local, None, [], s.dir, s.toFile, s.temporary)
    else if env.connectError.Some? then
      Outcome(Some(ConnectFailed(env.connectError.value)), Some(setup.value), env.remote, env.local, None, [],
              s.dir, s.toFile, s.temporary)
    else Session(s, env, setup.value)
  }

  class OverthereExecute {
    var host: Option<string>
    var username: Option<string>
    var password: Option<string>
    var os: string
    var domain: Option<string>
    var dir: Option<string>
    var exec: seq<OverthereArgument>
    var file: Option<string>
    var toFile: Option<string>
    var overwrite: bool
    var encoding: string
    var content: Option<string>
    var temporary: bool
    var https: bool
    var locale: Option<string>
    var retry: int
    var retrySleep: int
    var retryMatch: string
    var timeout: int
    var failOnError: bool
    var resultProperty: Option<string>
    var jumpstation: Option<string>
    var downloadFile: Option<string>
    var downloadTo: Option<string>

    /** The attribute defaults of a new task. */
    constructor ()
      ensures host.None? && username.None? && password.None? && domain.None? && dir.None?
      ensures os == "WINDOWS" && exec == [] && encoding == "UTF-8"
      ensures file.None? && toFile.None? && !overwrite && content.None?
      ensures temporary && !https && locale.None?
      ensures retry == 10 && retrySleep == 5000 && retryMatch == ".*Response code was 401.*"
      ensures timeout == 0 && failOnError && resultProperty.None?
      ensures jumpstation.None? && downloadFile.None? && downloadTo.None?
    {
      host, username, password, os, domain, dir := None, None, None, "WINDOWS", None, None;
      exec, file, toFile, overwrite, encoding, content := [], None, None, false, "UTF-8", None;
      temporary, https, locale := true, false, None;
      retry, retrySleep, retryMatch := 10, 5000, ".*Response code was 401.*";
      timeout, failOnError, resultProperty := 0, true, None;
      jumpstation, downloadFile, downloadTo := None, None, None;
    }

    function Snapshot(): Settings
      reads this, exec
    {
      Settings(host, username, password, os, domain, dir, Values(exec), file, toFile, overwrite, encoding,
               content, temporary, https, locale, retry, retrySleep, retryMatch, timeout, failOnError,
               resultProperty, jumpstation, downloadFile, downloadTo)
    }

    /** A nested `arg` element: a new empty argument appended to the command line. */
    method CreateArg() returns (arg: OverthereArgument)
      modifies this`exec
      ensures fresh(arg) && arg.value == ""
      ensures exec == old(exec) + [arg]
    {
      arg := new OverthereArgument();
      exec := exec + [arg];
    }

    /** A nested `cmd` element: the same as `arg`. */
    method CreateCmd() returns (arg: OverthereArgument)
      modifies this`exec
      ensures fresh(arg) && arg.value == ""
      ensures exec == old(exec) + [arg]
    {
      arg := new OverthereArgument();
      exec := exec + [arg];
    }

    /** A nested `content` element, writing into this task's content. */
    method CreateContent() returns (c: OverthereContent)
      ensures fresh(c) && c.owner == this
    {
      c := new OverthereContent(this);
    }

    /** Staging, updating `toFile` and `temporary` as it goes. */
    method StageFiles(wdir: string, env: Env) returns (r: Result<Staged, StageFailure>)
      modifies this`toFile, this`temporary
      ensures r == StagePhase(old(file), old(content), old(toFile), old(temporary), os, overwrite, encoding, wdir, env)
      ensures r.Ok? ==> toFile == r.value.toFile && temporary == r.value.temporary
      ensures r.Err? ==> toFile == r.error.toFile && temporary == r.error.temporary
    {
      if file.Some? || (content.Some? && toFile.Some?) {
        if content.Some? && file.Some? {
          return Err(StageFailure(ConflictingSource, toFile, temporary));
        }
        if file.Some? {
          r := UploadFile(file.value, wdir, env);
        } else {
          r := WriteInlineContent(content.value, toFile.value, wdir, env);
        }
      } else {
        r := Ok(Staged(toFile, temporary, None, env.remote, []));
      }
    }

    /** The local-file branch of staging. */
    method UploadFile(path: string, wdir: string, env: Env) returns (r: Result<Staged, StageFailure>)
      modifies this`toFile, this`temporary
      ensures r == StageFile(path, os, old(toFile), old(temporary), overwrite, wdir, env)
      ensures r.Ok? ==> toFile == r.value.toFile && temporary == r.value.temporary
      ensures r.Err? ==> toFile == r.error.toFile && temporary == r.error.temporary
    {
      if path !in env.local {
        return Err(StageFailure(NoLocalFile(path), toFile, temporary));
      }
      ghost var name := UploadName(path, toFile, temporary);
      if toFile.None? {
        toFile := Some(FileName(path));
      } else {
        temporary := false;
      }
      assert toFile == Some(name.0) && temporary == name.1;
      var key := ResolveTarget(toFile.value, wdir, env.join);
      r := TransferFile(path, env.local[path], key, toFile, temporary, overwrite, env);
    }

    /** Rewrites `toFile`, whose value is `name`, and finds the remote path of the upload target. */
    method ResolveTarget(name: string, wdir: string, join: (string, string) -> string) returns (key: string)
      requires toFile == Some(name)
      modifies this`toFile
      ensures var resolved := ResolveUploadTarget(os, name);
        toFile == Some(resolved.0) && key == TargetPath(resolved.1, wdir, join)
    {
      if os == "WINDOWS" && StartsWith(name, "/") {
        toFile := Some("C:" + name);
        key := toFile.value;
      } else if os == "WINDOWS" && (StartsWith(name, "C:/") || StartsWith(name, "c:/")) {
        key := name;
      } else if os != "WINDOWS" && StartsWith(name, "/") {
        key := name;
      } else {
        key := join(wdir, name);
      }
    }

    /** The inline-content branch of staging: trim, collapse CRLF, expand LF, encode, write. */
    method WriteInlineContent(text: string, name: string, wdir: string, env: Env) returns (r: Result<Staged, StageFailure>)
      ensures r == StageContent(text, name, toFile, temporary, encoding, wdir, env)
    {
      var key := env.join(wdir, name);
      var scontent := Trim(text);
      scontent := Collapse(scontent);
      scontent := Expand(scontent);
      var bytes := env.encode(encoding, scontent);
      if bytes.None? {
        return Err(StageFailure(UnsupportedEncoding(encoding), toFile, temporary));
      }
      r := Ok(Staged(toFile, temporary, Some(key), env.remote[key := Entry(false, bytes.value, env.now)],
                     [WriteContent(key)]));
    }

    /** The command phase, the cleanup in its `finally`, the download, and closing the connection. */
    method Finish(p: Policy, args: seq<string>, env: Env, conn: Connection, wdir: string, st: Staged) returns (out: Outcome)
      ensures out == AfterStaging(p, args, downloadFile, downloadTo, env, conn, wdir, st)
    {
      var run := RunCommand(p, args, env.substitute, env.attempt, env.matches);
      out := Conclusion(run, env, conn, wdir, st);
    }

    /** The cleanup in the command phase's `finally`, the download, and closing the connection. */
    method Conclusion(run: CommandRun, env: Env, conn: Connection, wdir: string, st: Staged) returns (out: Outcome)
      ensures out == Conclude(run, downloadFile, downloadTo, env, conn, wdir, st)
    {
      var remote := st.remote;
      var trace := st.trace + run.trace;
      if st.temporary && st.remoteFile.Some? {
        remote := remote - {st.remoteFile.value};
        trace := trace + [Delete(st.remoteFile.value)];
      }
      var o := Outcome(None, Some(conn), remote, env.local, run.result, trace, Some(wdir), st.toFile, st.temporary);
      if run.status.Raised? {
        o := o.(error := Some(run.status.error));
      } else if downloadFile.Some? {
        o := FetchFile(o, downloadFile.value, downloadTo, env);
      }
      out := o.(trace := o.trace + [Close]);
    }

    /** `execute()`. */
    method Execute(env: Env) returns (out: Outcome)
      modifies this`dir, this`toFile, this`temporary
      ensures out == Run(old(Snapshot()), env)
      ensures dir == out.dir && toFile == out.toFile && temporary == out.temporary
    {
      var setup := Configure(host, username, password, os, domain, jumpstation, https, locale, timeout, env.isFamily);
      if setup.Err? {
        return Outcome(Some(setup.error), None, env.remote, env.local, None, [], dir, toFile, temporary);
      }
      var conn := setup.value;
      if env.connectError.Some? {
        return Outcome(Some(ConnectFailed(env.connectError.value)), Some(conn), env.remote, env.local, None, [],
                       dir, toFile, temporary);
      }
      out := OpenSession(env, conn);
    }

    /** Everything between connecting and closing: working directory, staging, command, download. */
    method OpenSession(env: Env, conn: Connection) returns (out: Outcome)
      modifies this`dir, this`toFile, this`temporary
      ensures out == Session(old(Snapshot()), env, conn)
      ensures dir == out.dir && toFile == out.toFile && temporary == out.temporary
    {
      ghost var s := Snapshot();
      var wdir: string;
      if dir.Some? {
        if dir.value !in env.remote {
          return Outcome(Some(NoHostDir(dir.value)), Some(conn), env.remote, env.local, None, [Close],
                         dir, toFile, temporary);
        }
        wdir := dir.value;
      } else {
        wdir := env.tempDir;
        dir := Some(wdir);
      }
      assert Snapshot() == s.(dir := dir);
      InWorkingDirIgnoresDir(s, dir, env, conn, wdir);
      out := StageAndRun(env, conn, wdir);
    }

    /** Staging, then the command phase and what follows. */
    method StageAndRun(env: Env, conn: Connection, wdir: string) returns (out: Outcome)
      modifies this`toFile, this`temporary
      ensures out == InWorkingDir(old(Snapshot()), env, conn, wdir)
      ensures toFile == out.toFile && temporary == out.temporary
    {
      ghost var s := Snapshot();
      var args := Values(exec);
      var p := Policy(retry, retrySleep, retryMatch, failOnError, resultProperty);
      assert p == PolicyOf(s) && args == s.exec;
      ghost var stage := StagePhase(s.file, s.content, s.toFile, s.temporary, s.os, s.overwrite, s.encoding, wdir, env);
      ghost var spec := InWorkingDir(s, env, conn, wdir);
      var staged := StageFiles(wdir, env);
      assert staged == stage;
      if staged.Err? {
        assert spec == Closed(Outcome(Some(staged.error.error), Some(conn), env.remote, env.local, None, [],
                                        Some(wdir), staged.error.toFile, staged.error.temporary));
        return Outcome(Some(staged.error.error), Some(conn), env.remote, env.local, None, [Close],
                       Some(wdir), toFile, temporary);
      }
      assert spec == AfterStaging(p, args, s.downloadFile, s.downloadTo, env, conn, wdir, staged.value);
      out := Finish(p, args, env, conn, wdir, staged.value);
    }
  }

  /** The upload test, then the file streamed to `key` through a 65535-byte buffer. */
  method TransferFile(path: string, entry: Entry, key: string, toFile: Option<string>, temporary: bool,
                      overwrite: bool, env: Env) returns (r: Result<Staged, StageFailure>)
    ensures r == Transfer(path, entry, key, toFile, temporary, overwrite, env)
  {
    if !NeedsUpload(env.remote, key, entry, overwrite) {
      return Ok(Staged(toFile, temporary, Some(key), env.remote, []));
    }
    if entry.isDir {
      return Err(StageFailure(UnreadableLocalFile(path), toFile, temporary));
    }
    var writes := Copy(entry.bytes, env.uploadReads, 65535);
    r := Ok(Staged(toFile, temporary, Some(key), env.remote[key := Entry(false, Flatten(writes), env.now)],
                   [Upload(key)]));
  }

  /** The download: name the local file, then copy the remote stream into it through a 2048-byte buffer. */
  method FetchFile(o: Outcome, downloadFile: string, downloadTo: Option<string>, env: Env) returns (r: Outcome)
    ensures r == Fetch(o, downloadFile, downloadTo, env.now)
  {
    var localFile := FileName(downloadFile);
    if downloadTo.Some? {
      if downloadTo.value in o.local && o.local[downloadTo.value].isDir {
        localFile := ChildPath(downloadTo.value, localFile);
      } else {
        localFile := downloadTo.value;
      }
    }
    if downloadFile !in o.remote || o.remote[downloadFile].isDir {
      return o.(error := Some(NoRemoteFile(downloadFile)));
    }
    var writes := Copy(o.remote[downloadFile].bytes, env.downloadReads, 2048);
    r := o.(local := o.local[localFile := Entry(false, Flatten(writes), env.now)],
            trace := o.trace + [Download(downloadFile, localFile)]);
  }

  /** A nested `content` element: text appended, after property substitution, to the owner's content. */
  class OverthereContent {
    const owner: OverthereExecute

    constructor (owner: OverthereExecute)
      ensures this.owner == owner
    {
      this.owner := owner;
    }

    /** Installs an empty buffer when the owner has none, then appends the substituted text. */
    method AddText(text: string, substitute: string -> string)
      modifies owner`content
      ensures owner.content == Some(old(owner.content).GetOr("") + substitute(text))
    {
      if owner.content.None? {
        owner.content := Some("");
      }
      owner.content := Some(owner.content.value + substitute(text));
    }
  }

  function Substituted(texts: seq<string>, substitute: string -> string): (r: seq<string>)
    ensures |r| == |texts| && forall i :: 0 <= i < |texts| ==> r[i] == substitute(texts[i])
  {
    seq(|texts|, i requires 0 <= i < |texts| => substitute(texts[i]))
  }

  /**
   * Ant delivering the element's text chunks one `addText` call at a time: the owner's content
   * is what it held before (nothing if unset) followed by the substituted chunks in order.
   */
  method AddContentTexts(c: OverthereContent, texts: seq<string>, substitute: string -> string)
    modifies c.owner`content
    ensures texts != [] ==> c.owner.content == Some(old(c.owner.content).GetOr("") + Concat(Substituted(texts, substitute)))
    ensures texts == [] ==> c.owner.content == old(c.owner.content)
  {
    var i := 0;
    while i < |texts|
      invariant 0 <= i <= |texts|
      invariant i > 0 ==> c.owner.content == Some(old(c.owner.content).GetOr("") + Concat(Substituted(texts[..i], substitute)))
      invariant i == 0 ==> c.owner.content == old(c.owner.content)
    {
      ghost var before := Concat(Substituted(texts[..i], substitute));
      ghost var start := old(c.owner.content).GetOr("");
      assert c.owner.content.GetOr("") == start + before by {
        if i == 0 {
          assert before == "";
          assert start + before == start;
        }
      }
      c.AddText(texts[i], substitute);
      assert c.owner.content == Some((start + before) + substitute(texts[i]));
      assert Substituted(texts[..i + 1], substitute) == Substituted(texts[..i], substitute) + [substitute(texts[i])];
      assert Concat(Substituted(texts[..i + 1], substitute)) == before + substitute(texts[i]);
      assert (start + before) + substitute(texts[i]) == start + (before + substitute(texts[i]));
      assert c.owner.content == Some(start + Concat(Substituted(texts[..i + 1], substitute)));
      i := i + 1;
    }
    assert texts[..i] == texts;
  }
}
