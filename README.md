# overthere-ant `overexec` task, modelled in Dafny

The `overexec` Ant task runs one command on a remote host through the Overthere library. It
connects over SSH or, for the "WINDOWS" family, over CIFS with WinRM. Before the command runs it
can stage a local file or inline content on the host. The command is retried while the transport
reports a retriable error. Afterwards the task deletes a temporary staged file, can download a
remote file, and always closes the connection.

This project models:

- `OverthereExecute.execute()` with the task's attribute defaults;
- the nested-element factories `createArg`, `createCmd` and `createContent`;
- the two nested-element classes `OverthereArgument` and `OverthereContent`.

Modules:

| module | what it holds |
|---|---|
| `Wrappers`, `Errors` | `Option`/`Result`, and the errors `execute()` can raise |
| `Text` | the `String`/`File` operations the task relies on: trim, indexOf, upper-casing, decimal text, file names |
| `Hosts` | the environment of one call: both hosts' file systems, the transport's outcome per call, the remote events recorded in order |
| `Options`, `Jumpstation`, `Connection` | the connection options, the jumpstation tokenizer loop, and the protocol choice |
| `Staging`, `ContentNormalizer`, `Streams` | the working directory, the staging decision, upload-target resolution, content normalisation, the chunked copy loops |
| `Retry` | the do/while loop around `over.execute` and its catch block |
| `Download` | the download's local name |
| `Arguments`, `Execute` | the classes `OverthereArgument`, `OverthereExecute` and `OverthereContent`, with imperative methods proved against the pure function `Execute.Run` |
| `ExecuteProperties` | lemmas about whole runs |

`OverthereExecute.Execute` is an imperative method with the task's fields. It writes `dir`,
`toFile` and `temporary` back exactly as `execute()` does. Its `ensures` equates its outcome with
`Run` applied to the fields as they were on entry.

### The environment

The outside world is a parameter of type `Hosts.Env`. It holds:

- both hosts' file systems;
- the library's path joining;
- the `OperatingSystemFamily` name lookup;
- the outcome of each `over.execute` call;
- `String.matches`, the charset encoder and Ant's property substitution;
- the lengths of short stream reads.

### Where the code departs from its own documentation

- **`failOnError` always fails.** The Javadoc of `setFailOnError` and `isFailOnError`
  (`OverthereExecute.java:622-635`) promises a failure only for an exit code other than 0. The
  code throws "Execution failed" whenever `failOnError` is set, whatever the exit code
  (`:257-259`); `failOnError` is set by default. So with the defaults, a non-empty command
  always fails. See `Retry.FailOnErrorAlwaysRaises` and `ExecuteProperties.EchoWithFailOnError`.
- **Content is trimmed.** Inline content is trimmed before its line endings are rewritten
  (`:225-227`). A trailing newline is therefore dropped: "echo hi\n" is written as "echo hi".
  See `ContentNormalizer.TrailingNewlineDropped` and `ExecuteProperties.EchoContentWritten`.
- **A file staged under its own name stays temporary.** The Javadoc of `setTemporary`
  (`:527-531`) says that when only `file` and `toFile` are given, `temporary` is false. In the
  code, `temporary` defaults to true (`:71`), and the flag `temporarySet` is never read. A local
  file without `toFile` keeps `temporary` as it was, and only an explicit `toFile` clears it
  (`:182-186`). See `Staging.UploadName`, `ExecuteProperties.TemporaryUploadDeleted` and
  `ExecuteProperties.ExplicitTargetIsKept`.
- **Content without a target name is ignored.** The Javadoc of `setToFile` (`:469-472`) says
  `toFile` is required when content is set. In the code, the guard at `:168` skips staging
  altogether for content without `toFile`, so the check at `:173` can never fire. Nothing is
  written, and no error is raised. See `Staging.StagingSource`.
- **Only the command call is retried.** Retries count `over.execute` calls; the connection is
  opened once (`:148`). See `ExecuteProperties.ConnectionNotRetried`.

## Model

| member | source | states |
|---|---|---|
| Execute.OverthereExecute.constructor | src/com/wizecore/overthere/ant/OverthereExecute.java:59-83 | a new task has os "WINDOWS", encoding "UTF-8", temporary set, retry 10, retrySleep 5000, the 401 retry pattern, failOnError set, timeout 0, an empty command line, and every optional attribute unset |
| Execute.OverthereExecute.CreateArg | src/com/wizecore/overthere/ant/OverthereExecute.java:335-339 | returns a fresh empty argument, appended as the last element of the command line |
| Execute.OverthereExecute.CreateCmd | src/com/wizecore/overthere/ant/OverthereExecute.java:341-345 | the same as createArg: a fresh empty argument appended to the command line |
| Execute.OverthereExecute.CreateContent | src/com/wizecore/overthere/ant/OverthereExecute.java:331-333 | returns a fresh content element whose owner is this task |
| Arguments.OverthereArgument.constructor | src/com/wizecore/overthere/ant/OverthereArgument.java:11 | a new argument's value is the empty string |
| Arguments.OverthereArgument.GetValue | src/com/wizecore/overthere/ant/OverthereArgument.java:13-15 | returns the current value |
| Arguments.OverthereArgument.SetValue | src/com/wizecore/overthere/ant/OverthereArgument.java:17-19 | the value is replaced by the given one |
| Arguments.OverthereArgument.AddText | src/com/wizecore/overthere/ant/OverthereArgument.java:21-23 | the text is appended at the end of the value |
| Arguments.AddTexts | src/com/wizecore/overthere/ant/OverthereArgument.java:21-23 | after a series of addText calls, the value is the old value followed by all the chunks in order |
| Arguments.NewArgument | src/com/wizecore/overthere/ant/OverthereArgument.java:11-23 | a new argument fed a series of chunks holds exactly their concatenation |
| Arguments.ConcatKeepsOrder | src/com/wizecore/overthere/ant/OverthereArgument.java:21-23 | each chunk appears in the joined text directly after the chunks before it |
| Execute.OverthereContent.constructor | src/com/wizecore/overthere/ant/OverthereContent.java:13-15 | the element remembers the task it belongs to |
| Execute.OverthereContent.AddText | src/com/wizecore/overthere/ant/OverthereContent.java:17-23 | installs an empty buffer when the task has no content yet, then appends the property-substituted text; nothing but the task's content changes |
| Execute.AddContentTexts | src/com/wizecore/overthere/ant/OverthereContent.java:17-23 | after several chunks, the task's content is what it held before (empty if unset) followed by every substituted chunk in order; no chunks leave it unset |
| Execute.Values | src/com/wizecore/overthere/ant/OverthereExecute.java:247-249 | the command line's texts are the arguments' values, one per argument, in order |
| Text.Trim | src/com/wizecore/overthere/ant/OverthereExecute.java:225 | the result of String.trim is no longer than the input and starts and ends with a non-blank char; that it is the slice left once blank ends are dropped is Text.TrimDropsBlankEnds |
| Text.TrimDropsBlankEnds | src/com/wizecore/overthere/ant/OverthereExecute.java:225 | the trimmed text is a slice of the input, and every char of the input outside that slice is blank |
| Text.TrimOfTrimmed | src/com/wizecore/overthere/ant/OverthereExecute.java:225 | a text that already starts and ends with a non-blank char is its own trim |
| Text.IndexOf | src/com/wizecore/overthere/ant/OverthereExecute.java:111-113 | returns -1 exactly when the char is absent, otherwise the index of its first occurrence |
| Text.FileName | src/com/wizecore/overthere/ant/OverthereExecute.java:183 | File.getName returns the whole last segment of the path once trailing slashes are dropped: a '/'-free suffix that is the whole path or follows a '/' |
| Text.ChildPath | src/com/wizecore/overthere/ant/OverthereExecute.java:296 | `new File(dir, name).getPath()`: the directory with its trailing slashes dropped, a '/', then the name; stated by Download.LocalName and Download.DownloadKeepsName |
| Text.DecimalRoundTrip | src/com/wizecore/overthere/ant/OverthereExecute.java:144 | the decimal text of an int is in canonical form and parses back to that int |
| Text.Decimal | src/com/wizecore/overthere/ant/OverthereExecute.java:143-144 | the decimal text of an int, used for the WinRM timeout and the result property; its properties are stated by Text.DecimalRoundTrip |
| Text.Upper | src/com/wizecore/overthere/ant/OverthereExecute.java:102-104 | String.toUpperCase on the domain and the os name, on ASCII letters; used by Connection.LoginName, Connection.BaseOptions and Connection.SetupFailures |
| Jumpstation.Tokens | src/com/wizecore/overthere/ant/OverthereExecute.java:108-109 | every StringTokenizer token is non-empty and contains no ',', ';' or newline |
| Jumpstation.TokensAreNonEmptyFields | src/com/wizecore/overthere/ant/OverthereExecute.java:108-109 | the tokens are exactly the non-empty fields between delimiters, in order |
| Jumpstation.SplitAtFirstEquals | src/com/wizecore/overthere/ant/OverthereExecute.java:110-114 | a token key=value whose key is non-empty and has no '=' yields the trimmed key and the trimmed value; the value may itself contain '=' |
| Jumpstation.BareToken | src/com/wizecore/overthere/ant/OverthereExecute.java:110-111 | a token with no '=', or whose first char is '=', is an untrimmed key with value "true" |
| Jumpstation.ParseToken | src/com/wizecore/overthere/ant/OverthereExecute.java:110-114 | one token's key and value; its cases are stated by Jumpstation.SplitAtFirstEquals and Jumpstation.BareToken |
| Jumpstation.Step | src/com/wizecore/overthere/ant/OverthereExecute.java:115-123 | one token's effect: connectionType=ssh changes nothing, another connectionType value is refused, and any other key is set to its value; stated by Jumpstation.ApplyFails, Jumpstation.ApplyLastWins and Jumpstation.ApplyKeepsUntouched |
| Jumpstation.Apply | src/com/wizecore/overthere/ant/OverthereExecute.java:108-124 | the tokens applied left to right, stopping at the first refused one; stated by Jumpstation.ApplyFails, Jumpstation.ApplyLastWins, Jumpstation.ApplyKeepsUntouched and Jumpstation.ConnectionTypeKept |
| Jumpstation.JumpOptions | src/com/wizecore/overthere/ant/OverthereExecute.java:105-124 | the tokens applied in order to the TUNNEL preset; stated by Jumpstation.JumpstationRefuses and Jumpstation.JumpstationOptions, and computed by Jumpstation.ParseJumpstation |
| Jumpstation.ParseJumpstation | src/com/wizecore/overthere/ant/OverthereExecute.java:105-124 | the tokenizer loop returns the jumpstation options, with TUNNEL preset and each token applied in order |
| Jumpstation.JumpstationRefuses | src/com/wizecore/overthere/ant/OverthereExecute.java:115-120 | parsing fails exactly when some token has key connectionType and a value other than ssh |
| Jumpstation.JumpstationOptions | src/com/wizecore/overthere/ant/OverthereExecute.java:106-123 | a successful parse keeps connectionType TUNNEL and holds no key that no token names |
| Jumpstation.JumpstationLastWins | src/com/wizecore/overthere/ant/OverthereExecute.java:115-123 | in a successful parse, a key other than connectionType is present and has the value of the last token naming it |
| Jumpstation.ApplyLastWins | src/com/wizecore/overthere/ant/OverthereExecute.java:122 | when a key is set several times, the last token's value wins |
| Jumpstation.ApplyKeepsUntouched | src/com/wizecore/overthere/ant/OverthereExecute.java:122 | a key no token names keeps its presence and its value |
| Connection.LoginName | src/com/wizecore/overthere/ant/OverthereExecute.java:102 | with a domain the login is username@DOMAIN (domain upper-cased, a null username printed as "null"); without one it is the username itself, possibly null |
| Connection.BaseOptions | src/com/wizecore/overthere/ant/OverthereExecute.java:100-104 | the options hold exactly address, username, password and os, with the host, the login name, the password and the upper-cased family |
| Connection.WinRmOptions | src/com/wizecore/overthere/ant/OverthereExecute.java:129-146 | the WINDOWS options: connectionType WINRM always; HTTPS with the SELF_SIGNED trust strategy exactly when https is set; the locale exactly when one is set; the timeout text exactly when the timeout is positive; none of the base keys and no other key |
| Connection.TimeoutTextReadsBack | src/com/wizecore/overthere/ant/OverthereExecute.java:143-144 | for a positive timeout the text is "PT", then the seconds in decimal, then ".000S", and the seconds read back |
| Connection.TimeoutText | src/com/wizecore/overthere/ant/OverthereExecute.java:143-144 | the WinRM timeout text; its form is stated by Connection.TimeoutTextReadsBack |
| Connection.SetupFailures | src/com/wizecore/overthere/ant/OverthereExecute.java:91-126 | a null or empty host fails first, then an unknown os family, then a refused jumpstation token; setup succeeds exactly when none of these apply |
| Connection.SetupOptions | src/com/wizecore/overthere/ant/OverthereExecute.java:100-146 | a successful setup picks cifs exactly for os "WINDOWS" (case-sensitive) and ssh otherwise; its options are exactly the four base options, plus for "WINDOWS" the WinRM options with their values (WINRM, "true" and SELF_SIGNED with https, the locale, the timeout text), and no other key; it nests the parsed jumpstation options when a jumpstation string is given |
| Connection.Setup | src/com/wizecore/overthere/ant/OverthereExecute.java:91-146 | everything before getConnection; its errors are stated by Connection.SetupFailures, its options by Connection.SetupOptions, and Connection.Configure computes it |
| Connection.Configure | src/com/wizecore/overthere/ant/OverthereExecute.java:91-146 | the successive set calls and the tokenizer loop produce the setup the function describes |
| Connection.AddWinRmOptions | src/com/wizecore/overthere/ant/OverthereExecute.java:129-146 | the WINDOWS branch adds exactly the WinRM options to the options built so far |
| Staging.WorkingDir | src/com/wizecore/overthere/ant/OverthereExecute.java:153-166 | an explicit dir must exist on the host (or NoHostDir is raised) and is kept; without one, the parent of the connection's temporary files is used |
| Staging.StagingSource | src/com/wizecore/overthere/ant/OverthereExecute.java:168-177 | staging happens exactly when a file is set, or both content and toFile are; file together with content is refused; MissingTarget is never raised |
| Staging.UploadName | src/com/wizecore/overthere/ant/OverthereExecute.java:182-186 | without toFile the remote name is the local base name and temporary is kept; with toFile that name is used and temporary is cleared |
| Staging.ResolveUploadTarget | src/com/wizecore/overthere/ant/OverthereExecute.java:188-199 | only the exact os "WINDOWS" puts C: in front of a /-rooted name; rooted names (/, and on WINDOWS C:/ or c:/) are looked up as they are, everything else under the working directory |
| Staging.WindowsTargetsOnDriveC | src/com/wizecore/overthere/ant/OverthereExecute.java:188-193 | on WINDOWS every absolute target starts with C:/ or c:/ |
| Staging.ResolveStable | src/com/wizecore/overthere/ant/OverthereExecute.java:188-199 | resolving the rewritten name again changes nothing |
| Staging.LowerCaseWindowsKeepsPath | src/com/wizecore/overthere/ant/OverthereExecute.java:188-196 | "windows" in lower case gets no drive letter; "WINDOWS" does |
| Staging.FreshnessRule | src/com/wizecore/overthere/ant/OverthereExecute.java:201 | without overwrite, an existing remote file is replaced only by a strictly newer local file, and never by one of equal age |
| Staging.NeedsUpload | src/com/wizecore/overthere/ant/OverthereExecute.java:201 | the upload test: a missing remote file, overwrite, or a strictly newer local file; stated by Staging.FreshnessRule and Staging.Transfer |
| Staging.TargetPath | src/com/wizecore/overthere/ant/OverthereExecute.java:190-198 | the remote path of a target: its own path for `getFile(toFile)`, or the join with the working directory for `getFile(wdir, toFile)`; stated by Staging.StageFile and Staging.StageTouchesOnlyTarget |
| Staging.Transfer | src/com/wizecore/overthere/ant/OverthereExecute.java:201-220 | uploads exactly when the upload test passes, writing the local bytes under the target path and recording one Upload; otherwise nothing changes; fails only when the source is unreadable and an upload was due |
| Staging.StageFile | src/com/wizecore/overthere/ant/OverthereExecute.java:177-220 | a missing local file raises NoLocalFile; otherwise the staged toFile, temporary and remote path are those the naming and resolution rules give, and the remote host changes exactly when the upload test passes |
| Staging.StageContent | src/com/wizecore/overthere/ant/OverthereExecute.java:222-236 | writes the normalised text, encoded, under the working directory, recording one WriteContent; an unsupported encoding fails with UnsupportedEncoding and writes nothing |
| Staging.ContentBytes | src/com/wizecore/overthere/ant/OverthereExecute.java:224-229 | the normalised content encoded in the task's encoding, none when the encoding is unsupported; stated by Staging.StageContent and ExecuteProperties.EchoContentWritten |
| Staging.StageTouchesOnlyTarget | src/com/wizecore/overthere/ant/OverthereExecute.java:168-236 | staging changes at most the one remote path it names and records at most one write |
| Staging.Stage | src/com/wizecore/overthere/ant/OverthereExecute.java:168-236 | staging of the chosen source; stated by Staging.StageFile, Staging.StageContent and Staging.StageTouchesOnlyTarget |
| ContentNormalizer.CollapseExpand | src/com/wizecore/overthere/ant/OverthereExecute.java:226-227 | the CRLF-to-LF replacement undoes the LF-to-CRLF replacement |
| ContentNormalizer.Collapse | src/com/wizecore/overthere/ant/OverthereExecute.java:226 | replaceAll of CR LF by LF; stated by ContentNormalizer.CollapseExpand and ContentNormalizer.PlainTextUnchanged |
| ContentNormalizer.Expand | src/com/wizecore/overthere/ant/OverthereExecute.java:227 | replaceAll of LF by CR LF; stated by ContentNormalizer.ExpandPairsEveryLf, ContentNormalizer.CollapseExpand and ContentNormalizer.PlainTextUnchanged |
| ContentNormalizer.Normalize | src/com/wizecore/overthere/ant/OverthereExecute.java:224-227 | trim, then the two replacements; stated by ContentNormalizer.NormalizeTrimmed, NormalizeCrlf, NormalizeIdempotent and TrailingNewlineDropped |
| ContentNormalizer.NormalizeCrlf | src/com/wizecore/overthere/ant/OverthereExecute.java:224-227 | every LF in the written text is preceded by a CR |
| ContentNormalizer.NormalizeTrimmed | src/com/wizecore/overthere/ant/OverthereExecute.java:225-227 | the written text starts and ends with a non-blank char |
| ContentNormalizer.NormalizeIdempotent | src/com/wizecore/overthere/ant/OverthereExecute.java:224-227 | normalising already-normalised content changes nothing |
| ContentNormalizer.PlainTextUnchanged | src/com/wizecore/overthere/ant/OverthereExecute.java:226-227 | text without CR or LF passes both replacements unchanged |
| ContentNormalizer.TrailingNewlineDropped | src/com/wizecore/overthere/ant/OverthereExecute.java:225-227 | "echo hi\n" is written as "echo hi" |
| Streams.Copy | src/com/wizecore/overthere/ant/OverthereExecute.java:202-219 | the upload read/write loop (and the same loop of the download, :306-312) writes exactly the stream's bytes, in order, each write non-empty and no larger than the buffer, whatever short reads occur |
| Execute.TransferFile | src/com/wizecore/overthere/ant/OverthereExecute.java:201-220 | the upload with its 65535-byte buffer produces the new remote state that the function describes |
| Retry.Classify | src/com/wizecore/overthere/ant/OverthereExecute.java:261-268 | a cause is retriable exactly when retry > 0 and it is a refused connection or a nested RuntimeIOException whose message matches retryMatch; a null nested message crashes the match |
| Retry.Judge | src/com/wizecore/overthere/ant/OverthereExecute.java:261-267 | the catch block's tests give the classification |
| Retry.BuildCommandLine | src/com/wizecore/overthere/ant/OverthereExecute.java:245-249 | the command line is each argument after property substitution, in order |
| Retry.CommandLine | src/com/wizecore/overthere/ant/OverthereExecute.java:246-249 | each argument's value after property substitution, in order; computed by Retry.BuildCommandLine |
| Retry.ResultSlot | src/com/wizecore/overthere/ant/OverthereExecute.java:254-256 | the result property set to the exit code's decimal text, nothing when no property is named; stated by Retry.LastAttemptDecides |
| Retry.CallOnce | src/com/wizecore/overthere/ant/OverthereExecute.java:250-281 | one loop pass waits and goes round again exactly when the call failed retriably and the budget is not spent; otherwise it ends the command phase as the phase function says |
| Retry.RunCommand | src/com/wizecore/overthere/ant/OverthereExecute.java:239-282 | the do/while loop produces the command phase: its status, calls, retry counter, result property and events |
| Retry.Attempts | src/com/wizecore/overthere/ant/OverthereExecute.java:242-282 | the calls from a given retry count on; stated by Retry.AttemptsCounts, Retry.AttemptsEvents and Retry.LastAttemptDecides |
| Retry.CommandPhase | src/com/wizecore/overthere/ant/OverthereExecute.java:239-282 | the whole command phase, nothing for an empty command; stated by Retry.CommandPhaseCounts, Retry.FailOnErrorAlwaysRaises, Retry.PermanentFailure and Retry.NonRetriableRaisedAtOnce, and computed by Retry.RunCommand |
| Retry.AttemptsCounts | src/com/wizecore/overthere/ant/OverthereExecute.java:262-276 | every call but the last is followed by one retry; the counter stays within the budget |
| Retry.AttemptsEvents | src/com/wizecore/overthere/ant/OverthereExecute.java:250-273 | each call records one Exec, each retry one Sleep, and nothing else is recorded |
| Retry.CommandPhaseCounts | src/com/wizecore/overthere/ant/OverthereExecute.java:239-282 | at most retry+1 calls; exactly one when retry <= 0; none exactly when the command is empty; the retry counter equals the number of waits |
| Retry.LastAttemptDecides | src/com/wizecore/overthere/ant/OverthereExecute.java:251-281 | the last call decides: a completed call sets the result property and ends normally unless failOnError is set; any other ending raises with no result; every earlier call failed retriably |
| Retry.FailOnErrorAlwaysRaises | src/com/wizecore/overthere/ant/OverthereExecute.java:257-259 | with failOnError set, a non-empty command phase always raises, whatever the exit code |
| Retry.NonRetriableRaisedAtOnce | src/com/wizecore/overthere/ant/OverthereExecute.java:278-280 | a first failure that is not retriable is raised after exactly one call |
| Retry.PermanentFailure | src/com/wizecore/overthere/ant/OverthereExecute.java:262-276 | a connection refused on every call is called retry+1 times, and then its error is raised |
| Retry.RefusedTwiceThenSucceeds | src/com/wizecore/overthere/ant/OverthereExecute.java:262-273 | with retry 2, two refusals and then success give three calls, two waits and a normal end |
| Download.LocalName | src/com/wizecore/overthere/ant/OverthereExecute.java:290-300 | the local name is the remote base name; it goes inside downloadTo when that is an existing directory, and is replaced by downloadTo otherwise |
| Download.DownloadKeepsName | src/com/wizecore/overthere/ant/OverthereExecute.java:291-296 | a file downloaded into a directory keeps the remote base name |
| Execute.FetchFile | src/com/wizecore/overthere/ant/OverthereExecute.java:301-319 | the download with its 2048-byte buffer writes the remote file's bytes to the local name, as the function describes |
| Execute.Fetch | src/com/wizecore/overthere/ant/OverthereExecute.java:301-319 | the download: the remote file's bytes written to the local name, or NoRemoteFile when the remote file is missing or a directory; computed by Execute.FetchFile |
| Execute.Conclude | src/com/wizecore/overthere/ant/OverthereExecute.java:283-322 | the deletion of a temporary file, the download after a normal phase, then the close; it keeps dir, toFile and temporary as staging left them, and its events are stated by ExecuteProperties.ConcludeTrace and ExecuteProperties.ConcludeEvents |
| Execute.Session | src/com/wizecore/overthere/ant/OverthereExecute.java:149-322 | the inside of the connection's try/finally; computed by Execute.OverthereExecute.OpenSession |
| Execute.InWorkingDir | src/com/wizecore/overthere/ant/OverthereExecute.java:168-322 | staging and what follows once the working directory is known; it records that directory in `dir`, and Execute.InWorkingDirIgnoresDir and Execute.OverthereExecute.StageAndRun state the rest |
| Execute.StagePhase | src/com/wizecore/overthere/ant/OverthereExecute.java:168-237 | the staging decision followed by staging; stated by ExecuteProperties.StagedTrace and computed by Execute.OverthereExecute.StageFiles |
| Execute.AfterStaging | src/com/wizecore/overthere/ant/OverthereExecute.java:239-322 | the command phase followed by the conclusion, which keeps dir, toFile and temporary as staging left them; computed by Execute.OverthereExecute.Finish |
| Execute.Closed | src/com/wizecore/overthere/ant/OverthereExecute.java:320-322 | the connection's close appended as the last event; stated by ExecuteProperties.CloseExactlyOnce |
| Execute.Run | src/com/wizecore/overthere/ant/OverthereExecute.java:86-329 | execute() as a whole; stated by the ExecuteProperties lemmas and computed by Execute.OverthereExecute.Execute |
| Execute.InWorkingDirIgnoresDir | src/com/wizecore/overthere/ant/OverthereExecute.java:153-166 | once the working directory is known, the dir attribute no longer matters |
| Execute.OverthereExecute.Execute | src/com/wizecore/overthere/ant/OverthereExecute.java:86-329 | execute() on the task's fields gives the outcome of the run function and writes back dir, toFile and temporary as that function says |
| Execute.OverthereExecute.OpenSession | src/com/wizecore/overthere/ant/OverthereExecute.java:149-322 | the part inside the connection's try/finally, on the task's fields |
| Execute.OverthereExecute.StageAndRun | src/com/wizecore/overthere/ant/OverthereExecute.java:168-322 | staging followed by the command phase and the conclusion, on the task's fields |
| Execute.OverthereExecute.StageFiles | src/com/wizecore/overthere/ant/OverthereExecute.java:168-237 | staging, with toFile and temporary updated as staging leaves them, on success and on error |
| Execute.OverthereExecute.UploadFile | src/com/wizecore/overthere/ant/OverthereExecute.java:177-220 | the local-file branch; the fields end as the staged result says |
| Execute.OverthereExecute.ResolveTarget | src/com/wizecore/overthere/ant/OverthereExecute.java:188-199 | toFile is rewritten and the remote path is found by the resolution rule |
| Execute.OverthereExecute.WriteInlineContent | src/com/wizecore/overthere/ant/OverthereExecute.java:222-236 | the content branch gives the content-staging result |
| Execute.OverthereExecute.Finish | src/com/wizecore/overthere/ant/OverthereExecute.java:239-322 | the command phase followed by cleanup, download and close |
| Execute.OverthereExecute.Conclusion | src/com/wizecore/overthere/ant/OverthereExecute.java:283-322 | the cleanup in the finally block, the download after a normal phase, then close |
| ExecuteProperties.RunBeforeCommand | src/com/wizecore/overthere/ant/OverthereExecute.java:91-237 | a run stopped before the command phase raises an error, changes no file, sets no result, and records only the close, once connected |
| ExecuteProperties.RunAfterStaging | src/com/wizecore/overthere/ant/OverthereExecute.java:239-322 | a run that gets past staging is connected, and consists of the command phase followed by the conclusion |
| ExecuteProperties.ConcludeTrace | src/com/wizecore/overthere/ant/OverthereExecute.java:239-322 | the events are the staging write, the command's events, the deletion, the download and the close, in that order |
| ExecuteProperties.ConcludeEvents | src/com/wizecore/overthere/ant/OverthereExecute.java:239-322 | the conclusion's events kind by kind: the staging write and the command's events, one deletion when a temporary file was staged, one download when it runs, one close, and close as the last event |
| ExecuteProperties.RunEvents | src/com/wizecore/overthere/ant/OverthereExecute.java:86-329 | the events of a whole run, counted kind by kind; a connected run ends with close |
| ExecuteProperties.CloseExactlyOnce | src/com/wizecore/overthere/ant/OverthereExecute.java:320-322 | once connected, the connection is closed exactly once, as the last event; without a connection it is never closed |
| ExecuteProperties.CleanupExactlyOnce | src/com/wizecore/overthere/ant/OverthereExecute.java:283-288 | the temporary remote file is deleted exactly once when staging completed with temporary set, whether the command ended normally or raised; nothing is deleted otherwise |
| ExecuteProperties.DownloadOnlyAfterNormalCommand | src/com/wizecore/overthere/ant/OverthereExecute.java:290-319 | the download happens at most once, and only after a command phase that ended normally |
| ExecuteProperties.CommandCalls | src/com/wizecore/overthere/ant/OverthereExecute.java:239-282 | the command runs only past staging, at most retry+1 times, never for an empty command, with one wait per retry |
| ExecuteProperties.FailOnErrorAlwaysFails | src/com/wizecore/overthere/ant/OverthereExecute.java:257-259 | with failOnError set and a non-empty command, execute() always raises |
| ExecuteProperties.DirWrittenBack | src/com/wizecore/overthere/ant/OverthereExecute.java:153-166 | without a given dir, a connected run writes the temporary directory back into dir; a given dir is never changed |
| ExecuteProperties.ExplicitTargetIsKept | src/com/wizecore/overthere/ant/OverthereExecute.java:182-288 | a local file with an explicit toFile is not temporary, and nothing is deleted |
| ExecuteProperties.TemporaryUploadDeleted | src/com/wizecore/overthere/ant/OverthereExecute.java:182-288 | a temporary local file staged under its own name is deleted once, even when its upload was skipped |
| ExecuteProperties.ConnectionNotRetried | src/com/wizecore/overthere/ant/OverthereExecute.java:148 | a failing connection ends the run with ConnectFailed and no events, whatever the transport would do |
| ExecuteProperties.MissingHostFailsFirst | src/com/wizecore/overthere/ant/OverthereExecute.java:91-93 | a null or empty host fails with nothing connected, nothing changed and no events |
| ExecuteProperties.EchoWithFailOnError | src/com/wizecore/overthere/ant/OverthereExecute.java:128-259 | UNIX echo hi, with failOnError: ssh, the temporary working directory, one call, then ExecutionFailed(0), and no deletion |
| ExecuteProperties.WindowsInstallUpload | src/com/wizecore/overthere/ant/OverthereExecute.java:182-220 | "/install.bat" on WINDOWS is staged as "C:/install.bat", uploaded when absent, not temporary |
| ExecuteProperties.EchoContentWritten | src/com/wizecore/overthere/ant/OverthereExecute.java:222-236 | content "echo hi\n" is written as the encoding of "echo hi" |

## Left out

- The Kerberos system properties (`OverthereExecute.java:95-98`) are left out. They change process-wide state that nothing in the task reads back, so they are not part of the outcome.
- The context class loader switch (`:87-89`, `:326-328`) and the wrapping of every exception in a `BuildException` (`:323-325`) are left out. An outcome's `error` stands for the wrapped cause.
- Logging (`log(...)`) and the console output handlers passed to `over.execute` are left out. They produce no state the task uses.
- `over.setWorkingDirectory` is not recorded as an event. The working directory is only used to resolve relative targets, and the model does that explicitly.
- Transport, regex, charset and property substitution are parameters of `Hosts.Env`. These are `Overthere.getConnection`, `over.execute`, `String.matches`, `String.getBytes(encoding)`, Ant's `replaceProperties` and the library's path joining. Their own behaviour is not modelled.
- The remote temporary directory from `getTempFile("1.tmp").getParentFile()` is a parameter (`Env.tempDir`).
- Failures of individual stream operations are not modelled. That covers a remote write or delete that fails, a local download target that cannot be opened for writing, and close() failing. `remoteFile.delete()`'s boolean result is ignored by the code, as in the model.
- Retry.RunCommand: `Thread.sleep(retrySleep)` is an event `Sleep(retrySleep)` without timing. Its `InterruptedException`, and the `IllegalArgumentException` for a negative `retrySleep`, are not modelled.
- Java's 32-bit `int` is not modelled: `retry`, `retryCount`, `timeout` and exit codes are unbounded integers. Since `retryCount` never exceeds `retry`, no overflow can happen in the loop. The decimal text of `timeout` and of an exit code is that of the mathematical integer.
- Modification times and the write time are single integers: `Entry.mtime` and `Env.now`.
- The `temporarySet` flag (`:72`) is set by `setTemporary` and never read by `execute()`, so it is left out.
- The attribute getters and setters (`OverthereExecute.java:347-698`) are plain field accesses. The model reads and writes the fields directly.
- `getProject().setProperty` is the `result` slot of the outcome: the property name and the exit code's decimal text.
- `OperatingSystemFamily.valueOf` is the predicate `Env.isFamily` over the upper-cased name; the enum's contents are not modelled.
- `String.toUpperCase` is modelled on ASCII letters only.
- `String.trim` is modelled exactly (chars up to U+0020). Strings are sequences of chars without Unicode normalisation.
- Local file names are those of a POSIX host: '/' is the only separator. Text.FileName, Text.ChildPath, Staging.UploadName and Download.LocalName do not split on '\\' as java.io.File does on Windows. On such a host, a `file` of "C:\\scripts\\install.bat" without `toFile` would be staged as "install.bat" (`:183`), but the model uses the whole string; `downloadFile` (`:292`) is treated the same way.
- Paths are compared as plain strings. Text.ChildPath and Text.TrimTrailingSlashes do not collapse repeated '/' the way java.io.File does: for "out//dir" the model gives "out//dir/name" where Java gives "out/dir/name".
- A remote `getFile(path)` is the path itself used as a key of the remote file system (Staging.WorkingDir, Staging.ResolveUploadTarget, Execute.Fetch).
- The remote queries outside the retry loop never fail: `exists`, `lastModified` and `getTempFile`. Their RuntimeIOException is not modelled.
- Staging.Transfer: the only local read failure modelled is a directory given as `file` (FileInputStream refuses it). Other unreadable files are not distinguished.
