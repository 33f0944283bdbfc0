/**
 * The world the task acts on: the remote and local file systems, the transport's per-call
 * outcomes and the record of remote effects. Everything the task learns from the outside is a
 * field of `Env`.
 */
module Hosts {
  import opened Wrappers
  import opened Errors

  newtype byte = x: int | 0 <= x < 256

  /** A file system entry: a directory, or a regular file with its bytes; both carry a modification time. */
  datatype Entry = Entry(isDir: bool, bytes: seq<byte>, mtime: int)

  /** Path to entry; a path that is a key exists. */
  type FileSystem = map<string, Entry>

  /** What one `over.execute(...)` call did. */
  datatype Attempt =
    | Completed(code: int)           // the command ran and returned this exit code
    | IoFailure(cause: Cause)        // a RuntimeIOException with this cause
    | Threw(reason: string)   // any other exception

  /** The remote effects of one run, in order. */
  datatype Event =
    | Upload(path: string)                 // a local file was streamed to the remote path
    | WriteContent(path: string)           // inline content was written to the remote path
    | Exec(cmdLine: seq<string>)           // one command execution attempt
    | Sleep(millis: int)                   // one wait between attempts
    | Delete(path: string)                 // the temporary remote file was deleted
    | Download(path: string, local: string) // a remote file was copied to a local path
    | Close                                // the connection was closed

  datatype Kind = UploadKind | WriteKind | ExecKind | SleepKind | DeleteKind | DownloadKind | CloseKind

  function KindOf(e: Event): Kind
  {
    match e
    case Upload(_) => UploadKind
    case WriteContent(_) => WriteKind
    case Exec(_) => ExecKind
    case Sleep(_) => SleepKind
    case Delete(_) => DeleteKind
    case Download(_, _) => DownloadKind
    case Close => CloseKind
  }

  /** How many events of kind `k` a trace holds. */
  function Occurrences(t: seq<Event>, k: Kind): nat
  {
    if t == [] then 0 else Occurrences(t[..|t| - 1], k) + (if KindOf(t[|t| - 1]) == k then 1 else 0)
  }

  lemma OccurrencesSingle(e: Event, k: Kind)
    ensures Occurrences([e], k) == if KindOf(e) == k then 1 else 0
  {
    assert [e][..0] == [];
  }

  lemma {:induction false} OccurrencesAppend(a: seq<Event>, b: seq<Event>, k: Kind)
    ensures Occurrences(a + b, k) == Occurrences(a, k) + Occurrences(b, k)
    decreases |b|
  {
    if b == [] {
      assert a + b == a;
    } else {
      var init, last := b[..|b| - 1], b[|b| - 1];
      assert (a + b)[..|a + b| - 1] == a + init;
      assert (a + b)[|a + b| - 1] == last;
      OccurrencesAppend(a, init, k);
    }
  }

  /**
   * The environment of one `execute()` call. The transport, the regular expression engine,
   * the charset encoder, Ant's property substitution and the library's path joining are
   * parameters; so are the moment remote writes are stamped with and the lengths of short reads.
   */
  datatype Env = Env(
    remote: FileSystem,                       // the remote host's files and directories
    tempDir: string,                          // parent of the connection's temporary files
    local: FileSystem,                        // the orchestrating host's files and directories
    now: int,                                 // modification time given to written files
    connectError: Option<string>,             // Overthere.getConnection failed with this reason
    join: (string, string) -> string,         // the remote path of a child of a remote directory
    isFamily: string -> bool,                 // OperatingSystemFamily.valueOf accepts the name
    attempt: nat -> Attempt,                  // outcome of the k-th command execution (k from 0)
    matches: (string, string) -> bool,        // String.matches(message, pattern)
    substitute: string -> string,             // Ant's replaceProperties
    encode: (string, string) -> Option<seq<byte>>, // getBytes(encoding, text), None if unsupported
    uploadReads: seq<nat>,                    // requested lengths of the upload stream's reads
    downloadReads: seq<nat>)                  // requested lengths of the download stream's reads
}
