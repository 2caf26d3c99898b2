/**
 * scripts/codigo_to_txt.py: `get_all_files_text` concatenates every
 * TypeScript and JavaScript file under some base directories into one text
 * file, each preceded by a header line. The file system is a value: what
 * `os.walk` yields for each base directory and what each path holds.
 */
module CodigoToTxt {
  import opened Wrappers

  /** What opening a path for reading in UTF-8 and reading it gives. */
  datatype FileData =
    | Text(content: string)     // read in full
    | Undecodable               // opens, but `read()` raises a decoding error
    | Unreadable                // `open` raises (a directory, no permission)

  /** One triple of `os.walk`, without its sub-directory names. */
  datatype WalkEntry = WalkEntry(root: string, files: seq<string>)

  datatype FileSystem = FileSystem(walks: map<string, seq<WalkEntry>>, files: map<string, FileData>)

  /** The exception that ends the copy. */
  datatype IoError = CannotOpen(path: string) | CannotDecode(path: string)

  /** What a part of the run writes, and the exception that ended it, if any. */
  datatype Written = Written(text: string, error: Option<IoError>)

  const NOTHING: Written := Written("", None)

  /** One part of the run followed by the next: an exception in the first stops everything. */
  function Then(p: Written, q: Written): Written
  {
    if p.error.Some? then p else Written(p.text + q.text, q.error)
  }

  /** Then is associative with NOTHING as unit, and an exception absorbs whatever follows. */
  lemma ThenLaws(p: Written, q: Written, r: Written)
    ensures Then(NOTHING, p) == p && Then(p, NOTHING) == p
    ensures Then(Then(p, q), r) == Then(p, Then(q, r))
    ensures p.error.Some? ==> Then(p, q) == p
  {
    assert "" + p.text == p.text && p.text + "" == p.text;
    if p.error.None? && q.error.None? {
      assert (p.text + q.text) + r.text == p.text + (q.text + r.text);
    }
  }

  /** `str.endswith`. */
  predicate EndsWith(s: string, suffix: string)
  {
    |suffix| <= |s| && s[|s| - |suffix|..] == suffix
  }

  /** The files copied: names ending in ".ts", ".tsx" or ".js". */
  predicate IsSourceFile(file: string)
  {
    EndsWith(file, ".ts") || EndsWith(file, ".tsx") || EndsWith(file, ".js")
  }

  /** `os.path.join(root, file)` on POSIX. */
  function Join(root: string, file: string): string
  {
    if |file| > 0 && file[0] == '/' then file
    else if root == "" || root[|root| - 1] == '/' then root + file
    else root + "/" + file
  }

  function Header(path: string): string
  {
    "// --- Contenido de " + path + " ---\n"
  }

  /** What one file name of a walk contributes. */
  function EmitFile(fs: FileSystem, root: string, file: string): Written
  {
    if !IsSourceFile(file) then NOTHING
    else
      var path := Join(root, file);
      if path !in fs.files || fs.files[path].Unreadable? then Written("", Some(CannotOpen(path)))
      else if fs.files[path].Undecodable? then Written(Header(path), Some(CannotDecode(path)))
      else Written(Header(path) + fs.files[path].content + "\n\n", None)
  }

  function EmitFiles(fs: FileSystem, root: string, files: seq<string>): Written
    decreases |files|
  {
    if files == [] then NOTHING else Then(EmitFile(fs, root, files[0]), EmitFiles(fs, root, files[1..]))
  }

  function EmitWalk(fs: FileSystem, entries: seq<WalkEntry>): Written
    decreases |entries|
  {
    if entries == [] then NOTHING
    else Then(EmitFiles(fs, entries[0].root, entries[0].files), EmitWalk(fs, entries[1..]))
  }

  /** `os.walk(base_dir)`: a directory that cannot be listed yields nothing. */
  function Walk(fs: FileSystem, baseDir: string): seq<WalkEntry>
  {
    if baseDir in fs.walks then fs.walks[baseDir] else []
  }

  function EmitDirs(fs: FileSystem, baseDirs: seq<string>): Written
    decreases |baseDirs|
  {
    if baseDirs == [] then NOTHING else Then(EmitWalk(fs, Walk(fs, baseDirs[0])), EmitDirs(fs, baseDirs[1..]))
  }

  /** The message printed at the end. */
  datatype Report = Created(outputFile: string) | Failed(error: IoError)

  /** The contents of the output file after the run (None: it does not exist), and the message. */
  datatype Outcome = Outcome(output: Option<string>, report: Report)

  /**
   * A run of `get_all_files_text`. When the output file cannot be opened it
   * is left as it was; otherwise it is truncated and receives everything
   * written before the first exception, which is reported instead of success.
   */
  function AllFilesText(fs: FileSystem, baseDirs: seq<string>, outputFile: string, outputOpenable: bool,
                        previous: Option<string>): Outcome
  {
    if !outputOpenable then Outcome(previous, Failed(CannotOpen(outputFile)))
    else
      var w := EmitDirs(fs, baseDirs);
      Outcome(Some(w.text), if w.error.None? then Created(outputFile) else Failed(w.error.value))
  }

  /** Names ending in ".ts", ".tsx" or ".js" are copied; a ".jsx" name is not. */
  lemma SourceSuffixes(name: string)
    ensures IsSourceFile(name + ".ts") && IsSourceFile(name + ".tsx") && IsSourceFile(name + ".js")
    ensures !IsSourceFile(name + ".jsx")
  {
    var ts, tsx, js, jsx := name + ".ts", name + ".tsx", name + ".js", name + ".jsx";
    assert ts[|ts| - 3..] == ".ts";
    assert tsx[|tsx| - 4..] == ".tsx";
    assert js[|js| - 3..] == ".js";
    assert jsx[|jsx| - 3..][0] == 'j' && jsx[|jsx| - 4..][1] == 'j';
  }

  /** A walk root without a trailing '/' and a relative name are joined with one '/'. */
  lemma JoinRelative(root: string, file: string)
    requires root != "" && root[|root| - 1] != '/' && (file == "" || file[0] != '/')
    ensures Join(root, file) == root + "/" + file
  {
  }

  /**
   * A copied file contributes its header, its whole contents and a blank
   * line; a file that cannot be opened stops the run with nothing written;
   * one that cannot be decoded stops it after its header; any other name
   * contributes nothing.
   */
  lemma FileSection(fs: FileSystem, root: string, file: string)
    ensures !IsSourceFile(file) ==> EmitFile(fs, root, file) == NOTHING
    ensures IsSourceFile(file) && Join(root, file) in fs.files && fs.files[Join(root, file)].Text? ==>
      EmitFile(fs, root, file)
        == Written("// --- Contenido de " + Join(root, file) + " ---\n" + fs.files[Join(root, file)].content + "\n\n",
                   None)
    ensures IsSourceFile(file) && (Join(root, file) !in fs.files || fs.files[Join(root, file)].Unreadable?) ==>
      EmitFile(fs, root, file).text == "" && EmitFile(fs, root, file).error.Some?
    ensures IsSourceFile(file) && Join(root, file) in fs.files && fs.files[Join(root, file)].Undecodable? ==>
      EmitFile(fs, root, file).text == Header(Join(root, file)) && EmitFile(fs, root, file).error.Some?
  {
  }

  /** Base directories are copied in list order: the run over a + b is the run over a, then over b. */
  lemma {:induction false} EmitDirsAppend(fs: FileSystem, a: seq<string>, b: seq<string>)
    ensures EmitDirs(fs, a + b) == Then(EmitDirs(fs, a), EmitDirs(fs, b))
    decreases |a|
  {
    if a == [] {
      assert a + b == b;
      ThenLaws(EmitDirs(fs, b), NOTHING, NOTHING);
    } else {
      assert (a + b)[1..] == a[1..] + b;
      EmitDirsAppend(fs, a[1..], b);
      ThenLaws(EmitWalk(fs, Walk(fs, a[0])), EmitDirs(fs, a[1..]), EmitDirs(fs, b));
    }
  }

  /** Once a directory raises, no later directory adds anything. */
  lemma StopsAtFirstError(fs: FileSystem, a: seq<string>, b: seq<string>)
    requires EmitDirs(fs, a).error.Some?
    ensures EmitDirs(fs, a + b) == EmitDirs(fs, a)
  {
    EmitDirsAppend(fs, a, b);
    ThenLaws(EmitDirs(fs, a), EmitDirs(fs, b), NOTHING);
  }

  /** Mode 'w': once the output opens, its previous contents play no part in the result. */
  lemma OutputOverwritten(fs: FileSystem, baseDirs: seq<string>, outputFile: string, p1: Option<string>,
                          p2: Option<string>)
    ensures AllFilesText(fs, baseDirs, outputFile, true, p1) == AllFilesText(fs, baseDirs, outputFile, true, p2)
    ensures AllFilesText(fs, baseDirs, outputFile, true, p1).output == Some(EmitDirs(fs, baseDirs).text)
    ensures AllFilesText(fs, baseDirs, outputFile, false, p1) == Outcome(p1, Failed(CannotOpen(outputFile)))
  {
  }

  /** The innermost loop: the file names of one walk triple, appended to the text written so far. */
  method CopyFiles(fs: FileSystem, root: string, files: seq<string>, written: string)
    returns (text: string, error: Option<IoError>)
    ensures Written(text, error) == Then(Written(written, None), EmitFiles(fs, root, files))
  {
    text := written;
    ghost var goal := Then(Written(written, None), EmitFiles(fs, root, files));
    assert files[0..] == files;
    var k := 0;
    while k < |files|
      invariant 0 <= k <= |files|
      invariant goal == Then(Written(text, None), EmitFiles(fs, root, files[k..]))
    {
      var file := files[k];
      assert files[k..][1..] == files[k + 1..];
      ghost var before := Written(text, None);
      ghost var later := EmitFiles(fs, root, files[k + 1..]);
      ThenLaws(before, EmitFile(fs, root, file), later);
      if EndsWith(file, ".ts") || EndsWith(file, ".tsx") || EndsWith(file, ".js") {
        var filePath := Join(root, file);
        if filePath !in fs.files || fs.files[filePath].Unreadable? {
          ThenLaws(Written(text, Some(CannotOpen(filePath))), later, NOTHING);
          return text, Some(CannotOpen(filePath));
        }
        text := text + Header(filePath);
        if fs.files[filePath].Undecodable? {
          ThenLaws(Written(text, Some(CannotDecode(filePath))), later, NOTHING);
          return text, Some(CannotDecode(filePath));
        }
        text := text + fs.files[filePath].content;
        text := text + "\n\n";
      }
      k := k + 1;
    }
    ThenLaws(Written(text, None), NOTHING, NOTHING);
    error := None;
  }

  /** The middle loop: the triples `os.walk` yields for one base directory. */
  method CopyWalk(fs: FileSystem, entries: seq<WalkEntry>, written: string)
    returns (text: string, error: Option<IoError>)
    ensures Written(text, error) == Then(Written(written, None), EmitWalk(fs, entries))
  {
    text := written;
    ghost var goal := Then(Written(written, None), EmitWalk(fs, entries));
    assert entries[0..] == entries;
    var j := 0;
    while j < |entries|
      invariant 0 <= j <= |entries|
      invariant goal == Then(Written(text, None), EmitWalk(fs, entries[j..]))
    {
      assert entries[j..][1..] == entries[j + 1..];
      ghost var later := EmitWalk(fs, entries[j + 1..]);
      ThenLaws(Written(text, None), EmitFiles(fs, entries[j].root, entries[j].files), later);
      var e;
      text, e := CopyFiles(fs, entries[j].root, entries[j].files, text);
      if e.Some? {
        ThenLaws(Written(text, e), later, NOTHING);
        return text, e;
      }
      j := j + 1;
    }
    ThenLaws(Written(text, None), NOTHING, NOTHING);
    error := None;
  }

  /** The outer loop over the base directories. */
  method CopyDirs(fs: FileSystem, baseDirs: seq<string>) returns (text: string, error: Option<IoError>)
    ensures Written(text, error) == EmitDirs(fs, baseDirs)
  {
    text := "";
    ghost var all := EmitDirs(fs, baseDirs);
    ThenLaws(all, NOTHING, NOTHING);
    assert baseDirs[0..] == baseDirs;
    var i := 0;
    while i < |baseDirs|
      invariant 0 <= i <= |baseDirs|
      invariant all == Then(Written(text, None), EmitDirs(fs, baseDirs[i..]))
    {
      assert baseDirs[i..][1..] == baseDirs[i + 1..];
      ghost var later := EmitDirs(fs, baseDirs[i + 1..]);
      ThenLaws(Written(text, None), EmitWalk(fs, Walk(fs, baseDirs[i])), later);
      var e;
      text, e := CopyWalk(fs, Walk(fs, baseDirs[i]), text);
      if e.Some? {
        ThenLaws(Written(text, e), later, NOTHING);
        return text, e;
      }
      i := i + 1;
    }
    ThenLaws(Written(text, None), NOTHING, NOTHING);
    error := None;
  }

  /**
   * `get_all_files_text`: the output file is opened for writing (an error
   * there leaves it untouched), the directories are copied into it, and any
   * exception is reported instead of success.
   */
  method GetAllFilesText(fs: FileSystem, baseDirs: seq<string>, outputFile: string, outputOpenable: bool,
                         previous: Option<string>)
    returns (output: Option<string>, report: Report)
    ensures Outcome(output, report) == AllFilesText(fs, baseDirs, outputFile, outputOpenable, previous)
  {
    if !outputOpenable {
      return previous, Failed(CannotOpen(outputFile));
    }
    var text, e := CopyDirs(fs, baseDirs);
    output := Some(text);
    report := if e.None? then Created(outputFile) else Failed(e.value);
  }
}
