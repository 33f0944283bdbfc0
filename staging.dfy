/**
 * What `execute()` does between connecting and running the command: choose the working
 * directory, decide what to stage, resolve the remote target and write the file or the content.
 */
module Staging {
  import opened Wrappers
  import opened Errors
  import opened Text
  import opened Hosts
  import opened ContentNormalizer

  /**
   * The working directory: an explicit `dir` must exist on the remote host; without one it is
   * the parent of the connection's temporary files.
   */
  function WorkingDir(dir: Option<string>, remote: FileSystem, tempDir: string): (r: Result<string, Error>)
    ensures dir.None? ==> r == Ok(tempDir)
    ensures dir.Some? ==> (r.Ok? <==> dir.value in remote)
    ensures dir.Some? && r.Ok? ==> r.value == dir.value
    ensures r.Err? ==> r.error == NoHostDir(dir.value)
  {
    if dir.None? then Ok(tempDir)
    else if dir.value in remote then Ok(dir.value)
    else Err(NoHostDir(dir.value))
  }

  /** What is staged: nothing, a local file (by path), or inline content (its text and target name). */
  datatype Source = NoStaging | LocalFile(path: string) | InlineContent(text: string, toFile: string)

  /**
   * The staging decision. Staging happens exactly when a file is set, or content and a target
   * name both are; a file together with content is refused. The check that content has a target
   * name can never fire, since content without one is not staged at all.
   */
  function StagingSource(file: Option<string>, content: Option<string>, toFile: Option<string>): (r: Result<Source, Error>)
    ensures r == Ok(NoStaging) <==> file.None? && (content.None? || toFile.None?)
    ensures r == Err(ConflictingSource) <==> file.Some? && content.Some?
    ensures r != Err(MissingTarget)
    ensures r.Ok? && r.value.LocalFile? <==> file.Some? && content.None?
    ensures r.Ok? && r.value.LocalFile? ==> r.value.path == file.value
    ensures r.Ok? && r.value.InlineContent? <==> file.None? && content.Some? && toFile.Some?
    ensures r.Ok? && r.value.InlineContent? ==> r.value == InlineContent(content.value, toFile.value)
  {
    if file.Some? || (content.Some? && toFile.Some?) then
      if content.Some? && file.Some? then Err(ConflictingSource)
      else if toFile.None? && content.Some? then Err(MissingTarget)
      else if file.Some? then Ok(LocalFile(file.value))
      else Ok(InlineContent(content.value, toFile.value))
    else Ok(NoStaging)
  }

  /** Where an upload target is looked up: by its own path, or as a child of the working directory. */
  datatype Target = Absolute(path: string) | InWorkDir(name: string)

  predicate WindowsRooted(p: string)
  {
    StartsWith(p, "C:/") || StartsWith(p, "c:/")
  }

  /**
   * The upload target's resolution and the rewritten `toFile`. With the case-sensitive os name
   * "WINDOWS", a `/`-rooted name gets a `C:` drive; rooted names are looked up as they are,
   * everything else under the working directory.
   */
  function ResolveUploadTarget(os: string, toFile: string): (r: (string, Target))
    ensures r.0 == if os == "WINDOWS" && StartsWith(toFile, "/") then "C:" + toFile else toFile
    ensures r.1.Absolute? <==> StartsWith(toFile, "/") || (os == "WINDOWS" && WindowsRooted(toFile))
    ensures r.1.Absolute? ==> r.1.path == r.0
    ensures r.1.InWorkDir? ==> r.1.name == toFile
  {
    if os == "WINDOWS" && StartsWith(toFile, "/") then ("C:" + toFile, Absolute("C:" + toFile))
    else if os == "WINDOWS" && WindowsRooted(toFile) then (toFile, Absolute(toFile))
    else if os != "WINDOWS" && StartsWith(toFile, "/") then (toFile, Absolute(toFile))
    else (toFile, InWorkDir(toFile))
  }

  /** On "WINDOWS", every target looked up by its own path is on drive C. */
  lemma WindowsTargetsOnDriveC(toFile: string)
    ensures var r := ResolveUploadTarget("WINDOWS", toFile);
      r.1.Absolute? ==> WindowsRooted(r.1.path)
  {
    var r := ResolveUploadTarget("WINDOWS", toFile);
    if StartsWith(toFile, "/") {
      assert ("C:" + toFile)[..3] == "C:/";
    }
  }

  /** Resolving the rewritten `toFile` again changes nothing. */
  lemma ResolveStable(os: string, toFile: string)
    ensures var r := ResolveUploadTarget(os, toFile);
      ResolveUploadTarget(os, r.0) == r
  {
    var r := ResolveUploadTarget(os, toFile);
    if os == "WINDOWS" && StartsWith(toFile, "/") {
      var w := "C:" + toFile;
      assert w[..3] == "C:/";
      assert w[0] != '/';
    }
  }

  /** The os test is case-sensitive: "windows" gets no drive letter. */
  lemma LowerCaseWindowsKeepsPath()
    ensures ResolveUploadTarget("windows", "/tmp/a.sh") == ("/tmp/a.sh", Absolute("/tmp/a.sh"))
    ensures ResolveUploadTarget("WINDOWS", "/tmp/a.sh") == ("C:/tmp/a.sh", Absolute("C:/tmp/a.sh"))
  {
    assert "C:" + "/tmp/a.sh" == "C:/tmp/a.sh";
  }

  function TargetPath(t: Target, wdir: string, join: (string, string) -> string): string
  {
    match t
    case Absolute(p) => p
    case InWorkDir(n) => join(wdir, n)
  }

  /** The upload test: a missing remote file, `overwrite`, or a strictly newer local file. */
  predicate NeedsUpload(remote: FileSystem, target: string, local: Entry, overwrite: bool)
  {
    target !in remote || overwrite || local.mtime > remote[target].mtime
  }

  /** Without `overwrite`, an existing remote file is replaced only by a strictly newer one. */
  lemma FreshnessRule(remote: FileSystem, target: string, local: Entry)
    requires target in remote
    ensures NeedsUpload(remote, target, local, false) <==> local.mtime > remote[target].mtime
    ensures local.mtime == remote[target].mtime ==> !NeedsUpload(remote, target, local, false)
  {
  }

  /** The state staging leaves: the task's `toFile` and `temporary`, the remote file, the host's files. */
  datatype Staged = Staged(toFile: Option<string>, temporary: bool, remoteFile: Option<string>,
                           remote: FileSystem, trace: seq<Event>)

  /** A staging error and the `toFile` and `temporary` fields as the error leaves them. */
  datatype StageFailure = StageFailure(error: Error, toFile: Option<string>, temporary: bool)

  /** The name the local file gets on the remote host, and the `temporary` flag that goes with it. */
  function UploadName(path: string, toFile: Option<string>, temporary: bool): (r: (string, bool))
    ensures toFile.None? ==> r == (FileName(path), temporary)
    ensures toFile.Some? ==> r == (toFile.value, false)
  {
    if toFile.None? then (FileName(path), temporary) else (toFile.value, false)
  }

  /** The bytes the content path writes: the normalised text in the given encoding. */
  function ContentBytes(text: string, encoding: string, encode: (string, string) -> Option<seq<byte>>): Option<seq<byte>>
  {
    encode(encoding, Normalize(text))
  }

  /**
   * Staging a local file. It must exist; its remote name is resolved, and it is uploaded (as a
   * regular file with its bytes) only when the upload test passes. A directory cannot be read.
   */
  function StageFile(path: string, os: string, toFile: Option<string>, temporary: bool, overwrite: bool,
                     wdir: string, env: Env): (r: Result<Staged, StageFailure>)
    ensures path !in env.local ==> r == Err(StageFailure(NoLocalFile(path), toFile, temporary))
    ensures r.Ok? ==>
              var name := UploadName(path, toFile, temporary);
              var resolved := ResolveUploadTarget(os, name.0);
              var key := TargetPath(resolved.1, wdir, env.join);
              r.value.toFile == Some(resolved.0) && r.value.temporary == name.1 && r.value.remoteFile == Some(key)
              && (NeedsUpload(env.remote, key, env.local[path], overwrite) ==>
                    r.value.remote == env.remote[key := Entry(false, env.local[path].bytes, env.now)]
                    && r.value.trace == [Upload(key)])
              && (!NeedsUpload(env.remote, key, env.local[path], overwrite) ==>
                    r.value.remote == env.remote && r.value.trace == [])
    ensures r.Err? ==> path !in env.local || env.local[path].isDir
  {
    if path !in env.local then Err(StageFailure(NoLocalFile(path), toFile, temporary))
    else
      var name := UploadName(path, toFile, temporary);
      var resolved := ResolveUploadTarget(os, name.0);
      Transfer(path, env.local[path], TargetPath(resolved.1, wdir, env.join), Some(resolved.0), name.1, overwrite, env)
  }

  /** The upload test and the upload itself, once the remote path `key` is known. */
  function Transfer(path: string, entry: Entry, key: string, toFile: Option<string>, temporary: bool,
                    overwrite: bool, env: Env): (r: Result<Staged, StageFailure>)
    ensures r.Ok? ==> r.value.toFile == toFile && r.value.temporary == temporary && r.value.remoteFile == Some(key)
    ensures NeedsUpload(env.remote, key, entry, overwrite) && r.Ok? ==>
              r.value.remote == env.remote[key := Entry(false, entry.bytes, env.now)] && r.value.trace == [Upload(key)]
    ensures !NeedsUpload(env.remote, key, entry, overwrite) ==> r.Ok? && r.value.remote == env.remote && r.value.trace == []
    ensures r.Err? <==> NeedsUpload(env.remote, key, entry, overwrite) && entry.isDir
    ensures r.Err? ==> r.error == StageFailure(UnreadableLocalFile(path), toFile, temporary)
  {
    if !NeedsUpload(env.remote, key, entry, overwrite) then
      Ok(Staged(toFile, temporary, Some(key), env.remote, []))
    else if entry.isDir then
      Err(StageFailure(UnreadableLocalFile(path), toFile, temporary))
    else
      Ok(Staged(toFile, temporary, Some(key), env.remote[key := Entry(false, entry.bytes, env.now)], [Upload(key)]))
  }

  /** Staging inline content: normalised, encoded and written under the working directory. */
  function StageContent(text: string, name: string, toFile: Option<string>, temporary: bool, encoding: string,
                        wdir: string, env: Env): (r: Result<Staged, StageFailure>)
    ensures var key := env.join(wdir, name);
      var bytes := ContentBytes(text, encoding, env.encode);
      (r.Ok? <==> bytes.Some?)
      && (r.Ok? ==> r.value == Staged(toFile, temporary, Some(key),
                                      env.remote[key := Entry(false, bytes.value, env.now)], [WriteContent(key)]))
      && (r.Err? ==> r.error == StageFailure(UnsupportedEncoding(encoding), toFile, temporary))
  {
    var key := env.join(wdir, name);
    var bytes := ContentBytes(text, encoding, env.encode);
    if bytes.None? then Err(StageFailure(UnsupportedEncoding(encoding), toFile, temporary))
    else Ok(Staged(toFile, temporary, Some(key), env.remote[key := Entry(false, bytes.value, env.now)],
                   [WriteContent(key)]))
  }

  function Stage(source: Source, os: string, toFile: Option<string>, temporary: bool, overwrite: bool,
                 encoding: string, wdir: string, env: Env): Result<Staged, StageFailure>
  {
    match source
    case NoStaging => Ok(Staged(toFile, temporary, None, env.remote, []))
    case LocalFile(path) => StageFile(path, os, toFile, temporary, overwrite, wdir, env)
    case InlineContent(text, name) => StageContent(text, name, toFile, temporary, encoding, wdir, env)
  }

  /**
   * Staging touches at most the one remote path it names and records at most one write;
   * every other remote file is left as it was.
   */
  lemma StageTouchesOnlyTarget(source: Source, os: string, toFile: Option<string>, temporary: bool,
                               overwrite: bool, encoding: string, wdir: string, env: Env, p: string)
    requires Stage(source, os, toFile, temporary, overwrite, encoding, wdir, env).Ok?
    ensures var st := Stage(source, os, toFile, temporary, overwrite, encoding, wdir, env).value;
      (st.remoteFile.None? || p != st.remoteFile.value) ==>
        (p in st.remote <==> p in env.remote) && (p in env.remote ==> st.remote[p] == env.remote[p])
    ensures var st := Stage(source, os, toFile, temporary, overwrite, encoding, wdir, env).value;
      |st.trace| <= 1 && (st.trace != [] ==> st.remoteFile.Some? && st.remoteFile.value in st.remote)
  {
    match source
    case NoStaging =>
    case LocalFile(path) =>
      var name := UploadName(path, toFile, temporary);
      var resolved := ResolveUploadTarget(os, name.0);
      var key := TargetPath(resolved.1, wdir, env.join);
      assert Stage(source, os, toFile, temporary, overwrite, encoding, wdir, env)
          == Transfer(path, env.local[path], key, Some(resolved.0), name.1, overwrite, env);
    case InlineContent(text, name) =>
  }
}
