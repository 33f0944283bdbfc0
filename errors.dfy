/** The exceptions `OverthereExecute.execute()` can raise, one constructor per distinct cause. */
module Errors {
  import opened Wrappers

  /** Why a transport call failed: the `getCause()` of a RuntimeIOException. */
  datatype Cause =
    | ConnectRefused                       // a java.net.ConnectException
    | NestedIo(message: Option<string>)    // a nested RuntimeIOException and its (nullable) message
    | OtherCause                           // any other cause, or none

  datatype Error =
    | MissingHost                          // a null or empty host is refused before connecting
    | UnknownOs(os: string)                // OperatingSystemFamily.valueOf rejected the name
    | UnsupportedJumpConnectionType(value: string)  // a jumpstation connectionType other than ssh
    | ConnectFailed(reason: string)        // Overthere.getConnection failed (never retried)
    | NoHostDir(dir: string)               // the explicit working directory does not exist
    | ConflictingSource                    // both a local file and inline content are set
    | MissingTarget                        // inline content without a target name
    | NoLocalFile(file: string)            // the local file to upload does not exist
    | UnreadableLocalFile(file: string)    // the local file to upload is a directory
    | UnsupportedEncoding(encoding: string) // getBytes(encoding) rejected the charset name
    | ExecutionFailed(code: int)           // the fail-on-error throw after a completed command
    | Transport(cause: Cause)              // a RuntimeIOException rethrown by the retry loop
    | NullMessage                          // NullPointerException: getMessage() of the nested cause is null
    | OtherFailure(reason: string)         // any other exception thrown by the command call
    | NoRemoteFile(path: string)           // the download source cannot be opened for reading
}
