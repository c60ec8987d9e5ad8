/** The file-system adapter: existence checks, directory creation, appending a
    log line to a file, and reading a file or a directory of files back through
    a line parser. The file system is an explicit state object; the parser is a
    parameter the adapter applies without knowing what it does. */
module FileSystemAdapter {
  import opened Text

  /** A resolved path: an abstract root and the segments below it. */
  datatype Path = Path(root: string, segments: seq<string>)

  /** The directory part of a path (`path.parse(p).dir`); a bare root is its own directory. */
  function Parent(p: Path): Path
  {
    if |p.segments| == 0 then p else Path(p.root, p.segments[..|p.segments| - 1])
  }

  /** `path.join(dir, name)` for a single file name. */
  function Child(dir: Path, name: string): (p: Path)
    ensures Parent(p) == dir
    ensures p != dir
  {
    var p := Path(dir.root, dir.segments + [name]);
    assert p.segments[..|p.segments| - 1] == dir.segments;
    p
  }

  /** A directory and all of its ancestors: what a recursive `mkdir -p` leaves in place. */
  function Ancestry(dir: Path): (s: set<Path>)
    ensures dir in s
    ensures forall q :: q in s ==> q.root == dir.root && q.segments <= dir.segments
  {
    assert dir.segments[..|dir.segments|] == dir.segments;
    set k | 0 <= k <= |dir.segments| :: Path(dir.root, dir.segments[..k])
  }

  datatype FsError =
    | NotFound(path: Path)
    | NotAFile(path: Path)
    | NotADirectory(path: Path)
    | CreateFailed(path: Path)

  /** What a read returns, or the error it throws. */
  datatype Result<T> = Success(value: T) | Failure(error: FsError)

  /** How a promise-returning write settles: resolved, or rejected with an error. */
  datatype Outcome = Pass | Fail(error: FsError)

  /** The file system: file contents by path, and the set of existing directories. */
  class FileSystem {
    var files: map<Path, string>
    var dirs: set<Path>

    constructor (files: map<Path, string>, dirs: set<Path>)
      ensures this.files == files && this.dirs == dirs
    {
      this.files := files;
      this.dirs := dirs;
    }
  }

  /** `fs.existsSync`: true for files and for directories alike. */
  predicate Exists(fs: FileSystem, p: Path)
    reads fs
  {
    p in fs.files || p in fs.dirs
  }

  /** The content of a file, with a missing file reading as empty (append mode creates it). */
  function Content(files: map<Path, string>, p: Path): string
  {
    if p in files then files[p] else ""
  }

  /** The file map after appending `entry` and a line break to the file at `p`. */
  function AppendEntry(files: map<Path, string>, p: Path, entry: string): (r: map<Path, string>)
    ensures r.Keys == files.Keys + {p}
    ensures |r[p]| == |Content(files, p)| + |entry| + 1
    ensures r[p][..|Content(files, p)|] == Content(files, p)
    ensures r[p][|Content(files, p)|..] == entry + "\n"
    ensures forall q :: q in files && q != p ==> r[q] == files[q]
  {
    var r := files[p := Content(files, p) + entry + "\n"];
    assert r[p] == Content(files, p) + (entry + "\n");
    r
  }

  /** What appending to the file at `q` does to the content of the file at `p`. */
  lemma AppendEntryContent(files: map<Path, string>, q: Path, entry: string, p: Path)
    ensures Content(AppendEntry(files, q, entry), p)
         == if p == q then Content(files, p) + entry + "\n" else Content(files, p)
  {
  }

  /** The file map after appending each entry of `entries`, in order, to the file at `p`. */
  function AppendEntries(files: map<Path, string>, p: Path, entries: seq<string>): map<Path, string>
    decreases |entries|
  {
    if |entries| == 0 then files
    else AppendEntries(AppendEntry(files, p, entries[0]), p, entries[1..])
  }

  /** The entries a file's content parses to: the parser applied to each line, in order. */
  function ParseLines<E>(lines: seq<string>, parse: string -> E): (r: seq<E>)
  {
    seq(|lines|, i requires 0 <= i < |lines| => parse(lines[i]))
  }

  /** Successive appends of clean lines add exactly those lines, in order,
      to what is read back from the file. */
  lemma {:induction false} AppendEntriesLines(files: map<Path, string>, p: Path, entries: seq<string>)
    requires EndsLine(Content(files, p))
    requires forall i :: 0 <= i < |entries| ==> entries[i] != "" && '\n' !in entries[i]
    ensures Lines(Content(AppendEntries(files, p, entries), p)) == Lines(Content(files, p)) + entries
    ensures EndsLine(Content(AppendEntries(files, p, entries), p))
    decreases |entries|
  {
    if |entries| == 0 {
      assert Lines(Content(files, p)) + entries == Lines(Content(files, p));
    } else {
      var next := AppendEntry(files, p, entries[0]);
      AppendEntryContent(files, p, entries[0], p);
      LinesOfAppend(Content(files, p), entries[0]);
      AppendEntriesLines(next, p, entries[1..]);
      assert [entries[0]] + entries[1..] == entries;
      ConcatAssociative(Lines(Content(files, p)), [entries[0]], entries[1..]);
    }
  }

  /** Appending clean lines to a file that does not exist, then reading it,
      gives back exactly those lines. */
  lemma {:induction false} AppendToFreshFile(files: map<Path, string>, p: Path, entries: seq<string>)
    requires p !in files
    requires forall i :: 0 <= i < |entries| ==> entries[i] != "" && '\n' !in entries[i]
    ensures Lines(Content(AppendEntries(files, p, entries), p)) == entries
  {
    AppendEntriesLines(files, p, entries);
    assert Lines("") == [];
  }

  /** Appending to one file leaves every other file as it was. */
  lemma {:induction false} AppendEntriesIsolated(files: map<Path, string>, p: Path, entries: seq<string>, q: Path)
    requires q != p
    ensures q in AppendEntries(files, p, entries) <==> q in files
    ensures q in files ==> AppendEntries(files, p, entries)[q] == files[q]
    decreases |entries|
  {
    if |entries| > 0 {
      AppendEntriesIsolated(AppendEntry(files, p, entries[0]), p, entries[1..], q);
    }
  }

  /** `targetExists`: a query that changes nothing. */
  method TargetExists(fs: FileSystem, targetPath: Path) returns (b: bool)
    ensures b == Exists(fs, targetPath)
  {
    b := targetPath in fs.files || targetPath in fs.dirs;
  }

  /** `ensureDirectoryExists`: nothing to do when the target's directory exists;
      otherwise create it with its ancestors, unless the environment makes the
      creation fail (`createFails`), which rejects. */
  method EnsureDirectoryExists(fs: FileSystem, targetFilePath: Path, createFails: bool) returns (r: Outcome)
    modifies fs`dirs
    ensures var dir := Parent(targetFilePath);
      if old(Exists(fs, dir)) then r == Pass && fs.dirs == old(fs.dirs)
      else if createFails then r == Fail(CreateFailed(dir)) && fs.dirs == old(fs.dirs)
      else r == Pass && fs.dirs == old(fs.dirs) + Ancestry(dir)
    ensures r == Pass ==> Exists(fs, Parent(targetFilePath))
  {
    var dir := Parent(targetFilePath);
    var targetDirectoryExists := TargetExists(fs, dir);
    if targetDirectoryExists {
      return Pass;
    }
    if createFails {
      return Fail(CreateFailed(dir));
    }
    fs.dirs := fs.dirs + Ancestry(dir);
    r := Pass;
  }

  /** `writeToLogFile`: open in append mode and write the entry and a line break. */
  method WriteToLogFile(fs: FileSystem, targetFilePath: Path, entry: string)
    modifies fs`files
    ensures fs.files == AppendEntry(old(fs.files), targetFilePath, entry)
  {
    fs.files := AppendEntry(fs.files, targetFilePath, entry);
  }

  /** `readAndParseFile`: read the whole file, split it into lines, drop the
      empty ones and parse each of the rest, in file order. Reading a path that
      is not a file throws. */
  function ReadAndParseFile<E>(fs: FileSystem, filePath: Path, parse: string -> E): (r: Result<seq<E>>)
    reads fs
    ensures r.Success? <==> filePath in fs.files
    ensures filePath !in fs.files ==>
      r.error == (if filePath in fs.dirs then NotAFile(filePath) else NotFound(filePath))
    ensures r.Success? ==>
      var lines := Lines(fs.files[filePath]);
      && |r.value| == |lines|
      && forall i :: 0 <= i < |r.value| ==> lines[i] != "" && r.value[i] == parse(lines[i])
  {
    if filePath in fs.files then Success(ParseLines(Lines(fs.files[filePath]), parse))
    else if filePath in fs.dirs then Failure(NotAFile(filePath))
    else Failure(NotFound(filePath))
  }

  /** The first failure of the two, or the concatenation of both values. */
  function Concat<E>(a: Result<seq<E>>, b: Result<seq<E>>): Result<seq<E>>
  {
    if a.Failure? then a
    else if b.Failure? then b
    else Success(a.value + b.value)
  }

  /** The reads of the named files of `dir`, in the given order, concatenated;
      the first file that cannot be read decides the error. */
  function ReadFiles<E>(fs: FileSystem, dir: Path, names: seq<string>, parse: string -> E): Result<seq<E>>
    reads fs
    decreases |names|
  {
    if |names| == 0 then Success([])
    else Concat(ReadAndParseFile(fs, Child(dir, names[0]), parse), ReadFiles(fs, dir, names[1..], parse))
  }

  /** Reading two lists of files one after the other is reading their concatenation. */
  lemma {:induction false} ReadFilesAppend<E>(fs: FileSystem, dir: Path, a: seq<string>, b: seq<string>, parse: string -> E)
    ensures ReadFiles(fs, dir, a + b, parse) == Concat(ReadFiles(fs, dir, a, parse), ReadFiles(fs, dir, b, parse))
    decreases |a|
  {
    if |a| == 0 {
      assert a + b == b;
      var z := ReadFiles(fs, dir, b, parse);
      if z.Success? {
        assert [] + z.value == z.value;
      }
    } else {
      ReadFilesAppend(fs, dir, a[1..], b, parse);
      assert (a + b)[0] == a[0];
      assert (a + b)[1..] == a[1..] + b;
      var x := ReadAndParseFile(fs, Child(dir, a[0]), parse);
      var y := ReadFiles(fs, dir, a[1..], parse);
      var z := ReadFiles(fs, dir, b, parse);
      assert ReadFiles(fs, dir, a, parse) == Concat(x, y);
      assert ReadFiles(fs, dir, a + b, parse) == Concat(x, Concat(y, z));
      if x.Success? && y.Success? && z.Success? {
        ConcatAssociative(x.value, y.value, z.value);
      }
    }
  }

  /** The number of entries the listed files hold together. */
  function EntryCount<E>(fs: FileSystem, dir: Path, names: seq<string>, parse: string -> E): nat
    reads fs
    decreases |names|
  {
    if |names| == 0 then 0
    else
      var first := ReadAndParseFile(fs, Child(dir, names[0]), parse);
      (if first.Success? then |first.value| else 0) + EntryCount(fs, dir, names[1..], parse)
  }

  /** A directory read succeeds exactly when every listed file can be read, and
      then holds as many entries as the files together. */
  lemma {:induction false} ReadFilesSucceeds<E>(fs: FileSystem, dir: Path, names: seq<string>, parse: string -> E)
    ensures ReadFiles(fs, dir, names, parse).Success? <==>
      forall i :: 0 <= i < |names| ==> Child(dir, names[i]) in fs.files
    ensures ReadFiles(fs, dir, names, parse).Success? ==>
      |ReadFiles(fs, dir, names, parse).value| == EntryCount(fs, dir, names, parse)
    decreases |names|
  {
    if |names| > 0 {
      ReadFilesSucceeds(fs, dir, names[1..], parse);
      assert forall i :: 1 <= i < |names| ==> names[i] == names[1..][i - 1];
    }
  }

  /** A failed directory read reports the error of the first listed file that
      cannot be read; every file before it was read successfully. */
  lemma {:induction false} ReadFilesFirstFailure<E>(fs: FileSystem, dir: Path, names: seq<string>, parse: string -> E)
    requires ReadFiles(fs, dir, names, parse).Failure?
    ensures exists i :: (
      && 0 <= i < |names|
      && ReadAndParseFile(fs, Child(dir, names[i]), parse) == Failure(ReadFiles(fs, dir, names, parse).error)
      && forall j :: 0 <= j < i ==> ReadAndParseFile(fs, Child(dir, names[j]), parse).Success?)
    decreases |names|
  {
    var e := ReadFiles(fs, dir, names, parse).error;
    if ReadAndParseFile(fs, Child(dir, names[0]), parse).Failure? {
      assert ReadAndParseFile(fs, Child(dir, names[0]), parse) == Failure(e);
    } else {
      var rest := names[1..];
      ReadFilesFirstFailure(fs, dir, rest, parse);
      var k :| 0 <= k < |rest|
        && ReadAndParseFile(fs, Child(dir, rest[k]), parse) == Failure(ReadFiles(fs, dir, rest, parse).error)
        && forall j :: 0 <= j < k ==> ReadAndParseFile(fs, Child(dir, rest[j]), parse).Success?;
      assert names[k + 1] == rest[k];
      assert forall j :: 1 <= j < k + 1 ==> names[j] == rest[j - 1];
    }
  }

  /** `readAndParseDirectory`: list the directory (the listing order comes from
      the environment, as `listing`), then read and parse each file and append
      its entries. */
  method ReadAndParseDirectory<E>(fs: FileSystem, dirPath: Path, listing: seq<string>, parse: string -> E)
    returns (r: Result<seq<E>>)
    ensures dirPath !in fs.dirs ==>
      r == Failure(if dirPath in fs.files then NotADirectory(dirPath) else NotFound(dirPath))
    ensures dirPath in fs.dirs ==> r == ReadFiles(fs, dirPath, listing, parse)
  {
    if dirPath !in fs.dirs {
      return Failure(if dirPath in fs.files then NotADirectory(dirPath) else NotFound(dirPath));
    }
    var correlationLogs: seq<E> := [];
    var i := 0;
    while i < |listing|
      invariant 0 <= i <= |listing|
      invariant ReadFiles(fs, dirPath, listing[..i], parse) == Success(correlationLogs)
    {
      var fullFilePath := Child(dirPath, listing[i]);
      var logFileEntries := ReadAndParseFile(fs, fullFilePath, parse);
      if logFileEntries.Failure? {
        assert listing == listing[..i] + listing[i..];
        ReadFilesAppend(fs, dirPath, listing[..i], listing[i..], parse);
        assert listing[i..][0] == listing[i];
        return logFileEntries;
      }
      assert listing[..i + 1] == listing[..i] + [listing[i]];
      ReadFilesAppend(fs, dirPath, listing[..i], [listing[i]], parse);
      assert [listing[i]][1..] == [];
      assert logFileEntries.value + [] == logFileEntries.value;
      correlationLogs := correlationLogs + logFileEntries.value;
      i := i + 1;
    }
    assert listing[..i] == listing;
    r := Success(correlationLogs);
  }
}
