# File-system logging repository, modelled in Dafny

This project models a workflow engine's log store. The store persists log
entries as lines of text, one file per process model, and reads them back
through a line parser. The model covers one write/read cycle:

- **Line construction** (`logging_repository.dfy`, module `Repository`).
  A write builds one line of eight `;`-separated fields. The first field is a
  discriminator: `ProcessModel` or `FlowNodeInstance`. A process-model record
  writes its two flow-node fields as empty strings.
- **File addressing.** Both writes and the read use the same file,
  `<output_path>/<processModelId>.log`. The correlation id plays no part in
  the file name.
- **The adapter** (`file_system_adapter.dfy`, module `FileSystemAdapter`).
  It checks whether a path exists, creates a missing directory and its
  ancestors, and appends `entry + "\n"` to a file. A file read splits the
  content on `\n`, drops empty segments and parses the rest in order. A
  directory read concatenates the per-file results in listing order.
- **String operations** (`text.dfy`, module `Text`). These model JavaScript's
  `join` and `split` with a one-character separator and the non-empty filter.
  `split` follows JavaScript, so `"".split(d)` is `[""]`.

The file system is a `FileSystem` object with two fields: `files`, a map from
path to content, and `dirs`, the set of existing directories. The adapter's
operations are methods that take this object, and the functions read it. A
path is an abstract root plus a sequence of segments. The parser is a function
parameter `parse: string -> E`. It receives the line only, and it is total: it
never throws (both assumptions are listed under "## Left out"). The read
properties say that `parse` is applied to exactly these lines, in this order.

The model follows the code as written:

- A line has 8 fields and carries no process instance id.
- There is one file scheme, the flat `<output_path>/<processModelId>.log`.
- The repository reads by process model only. It has no read across a
  correlation.
- The fields are separated by `;`, never by tabs.

The directory read exists only as the adapter's `readAndParseDirectory`, and it
is modelled there.

## Model

| member | source | states |
|---|---|---|
| `Text.Split` | src/adapter/file_system_adapter.ts:67 | splitting gives at least one segment, and no segment contains the separator |
| `Text.Join` | src/logging_repository.ts:37 | the first field is a prefix of the joined line (by definition: the fields with one separator between neighbours; `SplitJoin` is its inverse) |
| `Text.SplitJoin` | src/logging_repository.ts:36-37 | joining fields with `;` and splitting the result gives back exactly the fields, provided no field contains `;` |
| `Text.JoinSplit` | src/adapter/file_system_adapter.ts:67 | splitting any string and joining the segments with the same separator gives back the string |
| `Text.JoinAvoids` | src/logging_repository.ts:37 | a joined line contains no character that is absent from all its fields and is not the separator (so a line from newline-free fields has no `\n`) |
| `Text.NonEmpty` | src/adapter/file_system_adapter.ts:69-72 | the filter keeps no empty segment and never lengthens the sequence |
| `Text.NonEmptyMembers` | src/adapter/file_system_adapter.ts:69-72 | the filter adds nothing and keeps every non-empty segment |
| `Text.NonEmptyConcat` | src/adapter/file_system_adapter.ts:69-72 | the filter keeps order: filtering a concatenation is concatenating the filtered parts |
| `Text.Lines` | src/adapter/file_system_adapter.ts:65-72 | every line a file is read back as is non-empty and contains no `\n` |
| `Text.LinesOfAppend` | src/adapter/file_system_adapter.ts:42 | appending a non-empty, newline-free line plus `\n` to content at a line boundary adds exactly that line to what is read back, and the content stays at a line boundary |
| `FileSystemAdapter.Parent` | src/adapter/file_system_adapter.ts:18 | by definition, the directory part of a path: the root stays and the last segment is dropped; the bare root is its own directory. `Child` is its partner |
| `FileSystemAdapter.Child` | src/adapter/file_system_adapter.ts:55 | the directory of `join(dir, name)` is `dir`, and it differs from `dir` |
| `FileSystemAdapter.Ancestry` | src/adapter/file_system_adapter.ts:25 | the directories a recursive creation leaves include the target, and all lie on its path from the root |
| `FileSystemAdapter.Exists` | src/adapter/file_system_adapter.ts:10 | by definition, a path exists exactly when it is a file or a directory; `TargetExists` returns it and `EnsureDirectoryExists` tests it on the directory part |
| `FileSystemAdapter.AppendEntry` | src/adapter/file_system_adapter.ts:39-42 | after an append, the target holds its old content (empty if absent) as a prefix, followed by exactly `entry + "\n"`; every other file keeps its content, and no other file appears |
| `FileSystemAdapter.AppendEntriesLines` | src/adapter/file_system_adapter.ts:39-42 | successive appends of non-empty, newline-free lines to a file at a line boundary add exactly those lines, in order, to what is read back |
| `FileSystemAdapter.AppendToFreshFile` | src/adapter/file_system_adapter.ts:39-42 | appending lines l1..ln to a missing file, then splitting on `\n` and dropping empty segments, gives exactly [l1..ln] |
| `FileSystemAdapter.AppendEntriesIsolated` | src/adapter/file_system_adapter.ts:39-42 | appending to one file leaves every other file exactly as it was, whether present or absent |
| `FileSystemAdapter.TargetExists` | src/adapter/file_system_adapter.ts:9-11 | returns `Exists`: true exactly when the path is a file or a directory; the state is not modified |
| `FileSystemAdapter.EnsureDirectoryExists` | src/adapter/file_system_adapter.ts:13-34 | if the directory already exists, the state is unchanged and the call resolves; otherwise the directory and its ancestors are created, or a creation failure is rejected with an error and the state is unchanged; after success the directory exists; files are never touched |
| `FileSystemAdapter.WriteToLogFile` | src/adapter/file_system_adapter.ts:36-46 | the new file map is the old one with `entry + "\n"` appended to the target (see `AppendEntry`); directories are unchanged |
| `FileSystemAdapter.ParseLines` | src/adapter/file_system_adapter.ts:74 | by definition, `parse` applied to each line, in order, one entry per line; the parser receives the line only |
| `FileSystemAdapter.ReadAndParseFile` | src/adapter/file_system_adapter.ts:63-77 | a read succeeds exactly when the path is a file. A missing path or a directory gives an error. On success there is one entry per non-empty `\n`-segment, in order; each entry is `parse` of that line, and `parse` never receives an empty line |
| `FileSystemAdapter.ReadFiles` | src/adapter/file_system_adapter.ts:54-58 | by definition, the per-file reads of `join(dir, name)` for the listed names, concatenated in listing order; the first failing file decides the error (see `ReadFilesAppend`, `ReadFilesFirstFailure`, `ReadFilesSucceeds`) |
| `FileSystemAdapter.ReadFilesAppend` | src/adapter/file_system_adapter.ts:52-58 | reading two lists of files one after the other equals reading their concatenation, with the first failure deciding the error |
| `FileSystemAdapter.ReadFilesSucceeds` | src/adapter/file_system_adapter.ts:52-58 | a directory read succeeds exactly when every listed name is a file, and then its length is the sum of the files' entry counts |
| `FileSystemAdapter.ReadFilesFirstFailure` | src/adapter/file_system_adapter.ts:54-58 | a failed directory read carries the error of some listed file, and every file listed before it was read successfully |
| `FileSystemAdapter.ReadAndParseDirectory` | src/adapter/file_system_adapter.ts:48-61 | a path that is not a directory gives an error; otherwise the result is the concatenation of the `readAndParseFile` results of the listed files, in listing order, or the first file's error |
| `Repository.Fields` | src/logging_repository.ts:36-52 | a record has exactly 8 fields: its discriminator, then timestamp, correlation id, process model id, the two flow-node fields (both empty for a process-model record), log level and message |
| `Repository.Serialize` | src/logging_repository.ts:36-52 | the line of a record starts with its discriminator (`ProcessModel` or `FlowNodeInstance`); it is the fields joined with `;` |
| `Repository.ProcessModelLineFields` | src/logging_repository.ts:36-37 | the process-model line splits on `;` into exactly `["ProcessModel", ts, correlationId, processModelId, "", "", logLevel, message]` when no argument contains `;` |
| `Repository.FlowNodeLineFields` | src/logging_repository.ts:51-52 | the flow-node line splits on `;` into exactly `["FlowNodeInstance", ts, correlationId, processModelId, flowNodeInstanceId, flowNodeId, logLevel, message]` when no argument contains `;` |
| `Repository.DiscriminatorDecides` | src/logging_repository.ts:36-52 | when no field of the record contains `;`, either line splits into exactly 8 fields, and the first field is the flow-node token exactly for flow-node records and the process-model token exactly for process-model records |
| `Repository.SerializedIsOneLine` | src/logging_repository.ts:36-38 | when no field of the record contains `\n`, its line is non-empty and contains no `\n`, so a single append adds one line that reads back |
| `Repository.BuildPath` | src/logging_repository.ts:66-68 | by definition, the segments placed under the configured output root; `LogFilePath` and `LogFilePathInjective` state what follows for the log file |
| `Repository.LogFilePath` | src/logging_repository.ts:58-60 | the log file lies directly in the output root, which is the directory the write makes sure exists |
| `Repository.LogFilePathInjective` | src/logging_repository.ts:14-16 | two process models with different ids never resolve to the same file |
| `Repository.WriteStepLines` | src/logging_repository.ts:56-64 | one write adds the record's line to its own process model's file, provided the record has no `\n` in its fields, and leaves every other process model's file, as read back, unchanged |
| `Repository.ReplayLines` | src/logging_repository.ts:56-64 | after a run of writes, a process model's file reads back as its old lines followed by the lines written for that process model, in write order, provided those records have no `\n` in their fields; the file stays at a line boundary |
| `Repository.ReplayIsolated` | src/logging_repository.ts:56-64 | writes for other process models leave a process model's file exactly as it was, including its absence |
| `Repository.FreshWritesThenRead` | src/logging_repository.ts:12-26 | n writes of records without `\n` in their fields, for a process model with no file, then a read, give exactly n entries, in write order; entry i is `parse` of the i-th written line, and the file exists exactly when n > 0 |
| `Repository.LoggingRepository.ReadLogForProcessModel` | src/logging_repository.ts:12-26 | a missing file reads as the empty sequence; an existing file reads as `parse` applied to each of its non-empty lines, in order; a directory at that path is an error; nothing is modified |
| `Repository.LoggingRepository.WriteLogForProcessModel` | src/logging_repository.ts:28-39 | the process-model line is appended to `<output_path>/<processModelId>.log` after the output directory is ensured; a rejected directory creation leaves the state unchanged |
| `Repository.LoggingRepository.WriteLogForFlowNode` | src/logging_repository.ts:41-54 | the same as the process-model write, for the flow-node line |
| `Repository.LoggingRepository.WriteLogEntryToFileSystem` | src/logging_repository.ts:56-64 | ensure the directory first, then append the entry to the process model's file; if creation fails, the append is skipped and the error is returned |

## Left out

- Date formatting (`moment(...).toISOString()`) comes from an external library. The timestamp enters the model as the finished ISO string.
- Path resolution (`path.resolve`, `process.cwd()`, `path.parse`, `path.join`) is not modelled. A path is an abstract root plus segments, and `Parent` drops the last segment. An id that contains a path separator or `..` would resolve differently on a real system.
- File names are compared exactly, with no case folding and no Unicode normalisation. On a case-insensitive file system (the default on macOS and Windows), `Foo.log` and `foo.log` are one file. There, `LogFilePathInjective`, `ReplayIsolated` and the isolation half of `WriteStepLines` do not hold for the running system.
- The configuration object becomes a `Config` with a single `outputPath`.
- The real file system calls (`existsSync`, `readFileSync`, `readdirSync`, `createWriteStream`, `mkdirp`) are replaced by operations on the `FileSystem` state. How a promise settles, resolved or rejected, is modelled as an `Outcome`. Asynchronous scheduling is not modelled.
- The directory listing is an input to `ReadAndParseDirectory`, both which names it holds and their order.
- Whether directory creation fails is an input, `createFails`, because it depends on the environment (permissions, a file in the way).
- EnsureDirectoryExists: a failed recursive creation is modelled as changing nothing. A real failure may leave some ancestors created.
- WriteToLogFile: the append always takes effect, because the source's write callback has no error path. A stream error on a real system is not modelled. One such case is a file standing at the output path: `existsSync` is true for it, so nothing is created, and then `createWriteStream` fails. The model reports `Pass` there and adds `<output_path>/<processModelId>.log` underneath that file.
- The line parser is not part of this model. It is a function parameter, and the model assumes no field layout for it.
- ReadAndParseFile: the parser is assumed total. A parser that throws on a line aborts the file read, the process-model read and the directory read at that file. The model has no such failure, so `ReadAndParseFile` and `ReadFilesSucceeds` state success for every existing file.
- ParseLines: `.map(parseLogEntry)` also passes the line's index and the whole array to the parser. The model passes the line only, so it assumes the parser ignores its extra arguments.
- Text is a sequence of Unicode scalar values. A JavaScript string may hold an unpaired UTF-16 surrogate, which the UTF-8 write and read turn into U+FFFD. Such messages cannot be expressed here, so the read-back properties say nothing about them.
- ReadAndParseDirectory: `Array.prototype.push.apply` throws a `RangeError` when one file has more entries than the engine accepts as call arguments. The model has no such limit and succeeds there.
- Concurrent appends and their atomicity depend on the operating system and are not modelled.
- Nothing is escaped. Splitting a line back into its fields needs that no field contains `;`. A write adding exactly one readable line needs that no field contains `\n`. The model proves each property under its own condition only.
- The log level is its textual name, a string, and no enumeration is checked.
