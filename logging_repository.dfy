/** The logging repository: how a log record becomes one `;`-separated line,
    which file a process model's lines go to, and the write and read operations
    built on the file-system adapter. */
module Repository {
  import opened Text
  import opened FileSystemAdapter

  const ProcessModelTag: string := "ProcessModel"
  const FlowNodeTag: string := "FlowNodeInstance"
  const FieldSeparator: char := ';'
  const LogFileExtension: string := ".log"

  /** The configuration the repository reads: only its output root. */
  datatype Config = Config(outputPath: string)

  /** A record as a write operation builds it. The timestamp is the ISO-8601
      string the date library produced, the log level its textual name. */
  datatype LogRecord =
    | ProcessModelRecord(timestamp: string, correlationId: string, processModelId: string,
                         logLevel: string, message: string)
    | FlowNodeRecord(timestamp: string, correlationId: string, processModelId: string,
                     flowNodeInstanceId: string, flowNodeId: string, logLevel: string, message: string)

  /** The discriminator a record's line starts with. */
  function Tag(rec: LogRecord): string
  {
    if rec.ProcessModelRecord? then ProcessModelTag else FlowNodeTag
  }

  /** The eight fields of a record's line, discriminator first; a process-model
      record leaves both flow-node fields empty. */
  function Fields(rec: LogRecord): (f: seq<string>)
    ensures |f| == 8 && f[0] == Tag(rec)
    ensures f[1] == rec.timestamp && f[2] == rec.correlationId && f[3] == rec.processModelId
    ensures f[6] == rec.logLevel && f[7] == rec.message
    ensures rec.ProcessModelRecord? ==> f[4] == "" && f[5] == ""
    ensures rec.FlowNodeRecord? ==> f[4] == rec.flowNodeInstanceId && f[5] == rec.flowNodeId
  {
    match rec
    case ProcessModelRecord(ts, corr, pm, level, msg) =>
      [ProcessModelTag, ts, corr, pm, "", "", level, msg]
    case FlowNodeRecord(ts, corr, pm, fni, fn, level, msg) =>
      [FlowNodeTag, ts, corr, pm, fni, fn, level, msg]
  }

  /** The line a write appends for `rec`: it starts with the record's discriminator. */
  function Serialize(rec: LogRecord): (line: string)
    ensures Tag(rec) <= line
  {
    Join(Fields(rec), FieldSeparator)
  }

  /** No caller-supplied field of the record contains `c` (nothing is escaped). */
  predicate FieldsAvoid(rec: LogRecord, c: char)
  {
    && c !in rec.timestamp && c !in rec.correlationId && c !in rec.processModelId
    && c !in rec.logLevel && c !in rec.message
    && (rec.FlowNodeRecord? ==> c !in rec.flowNodeInstanceId && c !in rec.flowNodeId)
  }

  /** The condition for a line to split back into its fields. */
  predicate NoSeparator(rec: LogRecord)
  {
    FieldsAvoid(rec, FieldSeparator)
  }

  /** The condition for a line to stay one line. */
  predicate NoNewline(rec: LogRecord)
  {
    FieldsAvoid(rec, '\n')
  }

  /** A write keeps the process model's file line by line: a record for another
      process model writes elsewhere, and one for this process model has no line break. */
  predicate KeepsLines(rec: LogRecord, processModelId: string)
  {
    rec.processModelId == processModelId ==> NoNewline(rec)
  }

  /** The discriminators and the empty flow-node fields contain neither `;` nor
      a line break, so a record's fields avoid one of those exactly when the caller's do. */
  lemma FieldsAvoidAll(rec: LogRecord, c: char)
    requires c == FieldSeparator || c == '\n'
    requires FieldsAvoid(rec, c)
    ensures forall i :: 0 <= i < |Fields(rec)| ==> c !in Fields(rec)[i]
  {
    assert c !in ProcessModelTag && c !in FlowNodeTag;
  }

  /** A process-model write's line splits back into exactly its eight fields. */
  lemma ProcessModelLineFields(ts: string, corr: string, pm: string, level: string, msg: string)
    requires ';' !in ts && ';' !in corr && ';' !in pm && ';' !in level && ';' !in msg
    ensures Split(Serialize(ProcessModelRecord(ts, corr, pm, level, msg)), ';')
         == ["ProcessModel", ts, corr, pm, "", "", level, msg]
  {
    var rec := ProcessModelRecord(ts, corr, pm, level, msg);
    FieldsAvoidAll(rec, FieldSeparator);
    SplitJoin(Fields(rec), FieldSeparator);
  }

  /** A flow-node write's line splits back into exactly its eight fields. */
  lemma FlowNodeLineFields(ts: string, corr: string, pm: string, fni: string, fn: string, level: string, msg: string)
    requires ';' !in ts && ';' !in corr && ';' !in pm && ';' !in fni && ';' !in fn && ';' !in level && ';' !in msg
    ensures Split(Serialize(FlowNodeRecord(ts, corr, pm, fni, fn, level, msg)), ';')
         == ["FlowNodeInstance", ts, corr, pm, fni, fn, level, msg]
  {
    var rec := FlowNodeRecord(ts, corr, pm, fni, fn, level, msg);
    FieldsAvoidAll(rec, FieldSeparator);
    SplitJoin(Fields(rec), FieldSeparator);
  }

  /** Either line splits into eight fields, and its first field tells the two variants apart. */
  lemma DiscriminatorDecides(rec: LogRecord)
    requires NoSeparator(rec)
    ensures |Split(Serialize(rec), ';')| == 8
    ensures Split(Serialize(rec), ';')[0] == FlowNodeTag <==> rec.FlowNodeRecord?
    ensures Split(Serialize(rec), ';')[0] == ProcessModelTag <==> rec.ProcessModelRecord?
  {
    FieldsAvoidAll(rec, FieldSeparator);
    SplitJoin(Fields(rec), FieldSeparator);
    assert ProcessModelTag != FlowNodeTag by {
      assert |ProcessModelTag| != |FlowNodeTag|;
    }
  }

  /** A record without line breaks in its fields gives one non-empty line:
      it can be appended and read back. */
  lemma SerializedIsOneLine(rec: LogRecord)
    requires NoNewline(rec)
    ensures Serialize(rec) != "" && '\n' !in Serialize(rec)
  {
    FieldsAvoidAll(rec, '\n');
    JoinAvoids(Fields(rec), FieldSeparator, '\n');
  }

  /** `_buildPath`: the segments resolved under the configured output root. */
  function BuildPath(config: Config, segments: seq<string>): Path
  {
    Path(config.outputPath, segments)
  }

  /** The one file that both writes and the read use for a process model:
      `<output_path>/<processModelId>.log`. The correlation id plays no part. */
  function LogFilePath(config: Config, processModelId: string): (p: Path)
    ensures Parent(p) == BuildPath(config, [])
  {
    BuildPath(config, [processModelId + LogFileExtension])
  }

  /** Different process models never share a log file. */
  lemma LogFilePathInjective(config: Config, a: string, b: string)
    requires LogFilePath(config, a) == LogFilePath(config, b)
    ensures a == b
  {
    var x, y := a + LogFileExtension, b + LogFileExtension;
    assert x == LogFilePath(config, a).segments[0];
    assert y == LogFilePath(config, b).segments[0];
    assert |a| == |b|;
    assert a == x[..|a|] && b == y[..|b|];
  }

  /** The file map after a run of successful writes, in order: each step is the
      file map a successful `WriteLogForProcessModel` or `WriteLogForFlowNode`
      leaves behind (see `WriteEffect`). */
  function Replay(files: map<Path, string>, config: Config, records: seq<LogRecord>): map<Path, string>
    decreases |records|
  {
    if |records| == 0 then files
    else
      var rec := records[0];
      Replay(AppendEntry(files, LogFilePath(config, rec.processModelId), Serialize(rec)), config, records[1..])
  }

  /** The lines of the records written for one process model, in write order. */
  function LinesFor(records: seq<LogRecord>, processModelId: string): seq<string>
    decreases |records|
  {
    if |records| == 0 then []
    else if records[0].processModelId == processModelId then [Serialize(records[0])] + LinesFor(records[1..], processModelId)
    else LinesFor(records[1..], processModelId)
  }

  /** One write: the process model's file gains the record's line if the record
      is for it, and is left as it was otherwise. */
  lemma WriteStepLines(files: map<Path, string>, config: Config, rec: LogRecord, processModelId: string)
    requires EndsLine(Content(files, LogFilePath(config, processModelId)))
    requires KeepsLines(rec, processModelId)
    ensures var p := LogFilePath(config, processModelId);
      var next := AppendEntry(files, LogFilePath(config, rec.processModelId), Serialize(rec));
      && Lines(Content(next, p)) == Lines(Content(files, p)) + LinesFor([rec], processModelId)
      && EndsLine(Content(next, p))
  {
    var p := LogFilePath(config, processModelId);
    var q := LogFilePath(config, rec.processModelId);
    AppendEntryContent(files, q, Serialize(rec), p);
    assert [rec][1..] == [];
    if rec.processModelId == processModelId {
      SerializedIsOneLine(rec);
      LinesOfAppend(Content(files, p), Serialize(rec));
      assert LinesFor([rec], processModelId) == [Serialize(rec)];
    } else {
      if q == p {
        LogFilePathInjective(config, rec.processModelId, processModelId);
      }
      assert LinesFor([rec], processModelId) == [];
      assert Lines(Content(files, p)) + [] == Lines(Content(files, p));
    }
  }

  lemma {:induction false} LinesForConcat(a: seq<LogRecord>, b: seq<LogRecord>, processModelId: string)
    ensures LinesFor(a + b, processModelId) == LinesFor(a, processModelId) + LinesFor(b, processModelId)
    decreases |a|
  {
    if |a| == 0 {
      assert a + b == b;
    } else {
      var ab := a + b;
      assert ab[0] == a[0];
      assert ab[1..] == a[1..] + b;
      LinesForConcat(a[1..], b, processModelId);
      var front, back := LinesFor(a[1..], processModelId), LinesFor(b, processModelId);
      assert LinesFor(ab[1..], processModelId) == front + back;
      if a[0].processModelId == processModelId {
        var line := Serialize(a[0]);
        assert LinesFor(ab, processModelId) == [line] + (front + back);
        assert LinesFor(a, processModelId) == [line] + front;
        ConcatAssociative([line], front, back);
      } else {
        assert LinesFor(ab, processModelId) == front + back;
        assert LinesFor(a, processModelId) == front;
      }
    }
  }

  /** Reading a process model's file after a run of writes gives what it held
      before, followed by the lines written for that process model, in order;
      writes for other process models leave it alone. */
  lemma {:induction false} ReplayLines(files: map<Path, string>, config: Config, records: seq<LogRecord>, processModelId: string)
    requires EndsLine(Content(files, LogFilePath(config, processModelId)))
    requires forall i :: 0 <= i < |records| ==> KeepsLines(records[i], processModelId)
    ensures var p := LogFilePath(config, processModelId);
      && Lines(Content(Replay(files, config, records), p)) == Lines(Content(files, p)) + LinesFor(records, processModelId)
      && EndsLine(Content(Replay(files, config, records), p))
    decreases |records|
  {
    var p := LogFilePath(config, processModelId);
    if |records| == 0 {
      assert Lines(Content(files, p)) + [] == Lines(Content(files, p));
    } else {
      var rec := records[0];
      var next := AppendEntry(files, LogFilePath(config, rec.processModelId), Serialize(rec));
      var rest := records[1..];
      assert Replay(files, config, records) == Replay(next, config, rest);
      WriteStepLines(files, config, rec, processModelId);
      ReplayLines(next, config, rest, processModelId);
      assert records == [rec] + rest;
      LinesForConcat([rec], rest, processModelId);
      ConcatAssociative(Lines(Content(files, p)), LinesFor([rec], processModelId), LinesFor(rest, processModelId));
    }
  }

  /** Writes for the other process models leave a process model's file exactly as it was. */
  lemma {:induction false} ReplayIsolated(files: map<Path, string>, config: Config, records: seq<LogRecord>, processModelId: string)
    requires forall i :: 0 <= i < |records| ==> records[i].processModelId != processModelId
    ensures var p := LogFilePath(config, processModelId);
      && (p in Replay(files, config, records) <==> p in files)
      && Content(Replay(files, config, records), p) == Content(files, p)
    decreases |records|
  {
    if |records| > 0 {
      var rec := records[0];
      if LogFilePath(config, rec.processModelId) == LogFilePath(config, processModelId) {
        LogFilePathInjective(config, rec.processModelId, processModelId);
      }
      ReplayIsolated(AppendEntry(files, LogFilePath(config, rec.processModelId), Serialize(rec)),
                     config, records[1..], processModelId);
    }
  }

  /** n writes for a process model that has no file yet, then a read, give n
      entries in write order: the parser applied to each written line. */
  lemma {:induction false} FreshWritesThenRead<E>(files: map<Path, string>, config: Config, records: seq<LogRecord>,
                               processModelId: string, parse: string -> E)
    requires LogFilePath(config, processModelId) !in files
    requires forall i :: 0 <= i < |records| ==> records[i].processModelId == processModelId && NoNewline(records[i])
    ensures var after := Replay(files, config, records);
      var p := LogFilePath(config, processModelId);
      var entries := ParseLines(Lines(Content(after, p)), parse);
      && (p in after <==> |records| > 0)
      && entries == seq(|records|, i requires 0 <= i < |records| => parse(Serialize(records[i])))
  {
    var p := LogFilePath(config, processModelId);
    ReplayLines(files, config, records, processModelId);
    LinesForAll(records, processModelId);
    assert Lines("") == [];
    ReplayCreates(files, config, records, processModelId);
  }

  /** When every record belongs to the process model, its lines are all of them. */
  lemma {:induction false} LinesForAll(records: seq<LogRecord>, processModelId: string)
    requires forall i :: 0 <= i < |records| ==> records[i].processModelId == processModelId
    ensures LinesFor(records, processModelId) == seq(|records|, i requires 0 <= i < |records| => Serialize(records[i]))
    decreases |records|
  {
    if |records| > 0 {
      LinesForAll(records[1..], processModelId);
    }
  }

  /** A write for a process model leaves its log file in place. */
  lemma {:induction false} ReplayCreates(files: map<Path, string>, config: Config, records: seq<LogRecord>, processModelId: string)
    requires forall i :: 0 <= i < |records| ==> records[i].processModelId == processModelId
    ensures var p := LogFilePath(config, processModelId);
      p in Replay(files, config, records) <==> p in files || |records| > 0
    decreases |records|
  {
    if |records| > 0 {
      var p := LogFilePath(config, processModelId);
      var next := AppendEntry(files, p, Serialize(records[0]));
      ReplayCreates(next, config, records[1..], processModelId);
    }
  }

  /** The repository object; the file system it works on is passed to each operation. */
  class LoggingRepository {
    var config: Config

    constructor (config: Config)
      ensures this.config == config
    {
      this.config := config;
    }

    /** `readLogForProcessModel`: no file means no entries; otherwise the parsed
        lines of the file, in order. Changes nothing. */
    method ReadLogForProcessModel<E>(fs: FileSystem, processModelId: string, parse: string -> E)
      returns (r: Result<seq<E>>)
      ensures var p := LogFilePath(config, processModelId);
        && (!Exists(fs, p) ==> r == Success([]))
        && (p in fs.files ==>
              r.Success? && |r.value| == |Lines(fs.files[p])|
              && forall i :: 0 <= i < |r.value| ==> r.value[i] == parse(Lines(fs.files[p])[i]))
        && (p !in fs.files && p in fs.dirs ==> r == Failure(NotAFile(p)))
    {
      var logFilePath := LogFilePath(config, processModelId);
      var logFileExists := TargetExists(fs, logFilePath);
      if !logFileExists {
        return Success([]);
      }
      r := ReadAndParseFile(fs, logFilePath, parse);
    }

    /** `writeLogForProcessModel`: append the process-model line to the process model's log file. */
    method WriteLogForProcessModel(fs: FileSystem, correlationId: string, processModelId: string,
                                   logLevel: string, message: string, timestamp: string, createFails: bool)
      returns (r: Outcome)
      modifies fs
      ensures var p := LogFilePath(config, processModelId);
        WriteEffect(fs, old(fs.files), old(fs.dirs), p,
                    Serialize(ProcessModelRecord(timestamp, correlationId, processModelId, logLevel, message)),
                    createFails, r)
    {
      var logEntryAsString := Join([ProcessModelTag, timestamp, correlationId, processModelId, "", "", logLevel, message],
                                   FieldSeparator);
      r := WriteLogEntryToFileSystem(fs, correlationId, processModelId, logEntryAsString, createFails);
    }

    /** `writeLogForFlowNode`: append the flow-node line to the process model's log file. */
    method WriteLogForFlowNode(fs: FileSystem, correlationId: string, processModelId: string,
                               flowNodeInstanceId: string, flowNodeId: string,
                               logLevel: string, message: string, timestamp: string, createFails: bool)
      returns (r: Outcome)
      modifies fs
      ensures var p := LogFilePath(config, processModelId);
        WriteEffect(fs, old(fs.files), old(fs.dirs), p,
                    Serialize(FlowNodeRecord(timestamp, correlationId, processModelId,
                                             flowNodeInstanceId, flowNodeId, logLevel, message)),
                    createFails, r)
    {
      var logEntryAsString := Join([FlowNodeTag, timestamp, correlationId, processModelId,
                                    flowNodeInstanceId, flowNodeId, logLevel, message], FieldSeparator);
      r := WriteLogEntryToFileSystem(fs, correlationId, processModelId, logEntryAsString, createFails);
    }

    /** `_writeLogEntryToFileSystem`: make sure the directory exists, then append.
        A rejected directory creation skips the append. */
    method WriteLogEntryToFileSystem(fs: FileSystem, correlationId: string, processModelId: string,
                                     entry: string, createFails: bool)
      returns (r: Outcome)
      modifies fs
      ensures WriteEffect(fs, old(fs.files), old(fs.dirs), LogFilePath(config, processModelId), entry, createFails, r)
    {
      var targetFilePath := LogFilePath(config, processModelId);
      r := EnsureDirectoryExists(fs, targetFilePath, createFails);
      if r.Fail? {
        return;
      }
      WriteToLogFile(fs, targetFilePath, entry);
    }
  }

  /** The state after one write of `entry` to the file at `p`, given the state before:
      the output directory is created if missing (unless creation fails), and on
      success the file gains exactly the entry and a line break. */
  ghost predicate WriteEffect(fs: FileSystem, files: map<Path, string>, dirs: set<Path>, p: Path,
                              entry: string, createFails: bool, r: Outcome)
    reads fs
  {
    var dir := Parent(p);
    var existed := dir in files || dir in dirs;
    && (r.Fail? <==> !existed && createFails)
    && (r.Fail? ==> r == Fail(CreateFailed(dir)) && fs.files == files && fs.dirs == dirs)
    && (r.Pass? ==> fs.files == AppendEntry(files, p, entry)
                    && fs.dirs == (if existed then dirs else dirs + Ancestry(dir)))
  }
}
