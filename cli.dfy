/**
 * cli/main.py: the log slug made from a file name, the export format list,
 * the per-file outcomes of `batch_command` with its exit code, the exit
 * codes of `export_command`, and how `main` routes a command. Reading a
 * JSON file and exporting are inputs: what `json.load` gives or raises for
 * a file, and the error `export_all` raises, if any.
 */
module Cli {
  import opened Base
  import opened Strings
  import opened Segments
  import Paths
  import Logging

  // ---------------------------------------------------------------------
  // create_slug_from_filename
  // ---------------------------------------------------------------------

  /** The stem of the file name with blanks and underscores turned into hyphens, lower-cased. */
  function CreateSlug(filename: string): string
  {
    Lower(Replace(Replace(Paths.Stem(filename), " ", "-"), "_", "-"))
  }

  /** A stem never holds a '/'. */
  lemma StemHasNoSlash(p: string)
    ensures '/' !in Paths.Stem(p)
  {
    var stem := Paths.Stem(p);
    Paths.StemAndSuffix(p);
    forall k | 0 <= k < |stem| ensures stem[k] != '/' {
      assert stem[k] == Paths.Name(p)[k];
    }
  }

  /** A slug has no blank, no underscore, no upper-case letter and no path separator. */
  lemma SlugIsClean(filename: string)
    ensures var slug := CreateSlug(filename);
      ' ' !in slug && '_' !in slug && '/' !in slug && forall i :: 0 <= i < |slug| ==> !IsUpper(slug[i])
  {
    var stem := Paths.Stem(filename);
    var t := Replace(stem, " ", "-");
    var u := Replace(t, "_", "-");
    StemHasNoSlash(filename);
    ReplaceRemovesChar(stem, ' ', "-");
    ReplaceKeepsAbsent(stem, " ", "-", '/');
    ReplaceRemovesChar(t, '_', "-");
    ReplaceKeepsAbsent(t, "_", "-", ' ');
    ReplaceKeepsAbsent(t, "_", "-", '/');
    var slug := Lower(u);
    forall i | 0 <= i < |slug|
      ensures slug[i] != ' ' && slug[i] != '_' && slug[i] != '/' && !IsUpper(slug[i])
    {
      assert slug[i] == LowerChar(u[i]);
      assert u[i] != ' ' && u[i] != '_' && u[i] != '/';
    }
  }

  /** The slug depends only on the final component: the directory part is ignored. */
  lemma SlugIgnoresDirectory(dir: string, name: string)
    requires '/' !in name
    ensures CreateSlug(Paths.JoinPath(dir, name)) == CreateSlug(name)
  {
    StemOfJoin(dir, name);
  }

  lemma StemOfJoin(dir: string, name: string)
    requires '/' !in name
    ensures Paths.Stem(Paths.JoinPath(dir, name)) == Paths.Stem(name)
  {
    Paths.NameOfJoin(dir, name);
    Paths.NameOfJoin("", name);
  }

  // ---------------------------------------------------------------------
  // Formats
  // ---------------------------------------------------------------------

  const DefaultFormats: seq<string> := ["txt", "srt", "vtt", "json"]

  /** `args.formats.split(",") if args.formats else ["txt", "srt", "vtt", "json"]`. */
  function Formats(arg: Option<string>): (fs: seq<string>)
    ensures arg.None? || arg.value == "" ==> fs == DefaultFormats
    ensures |fs| >= 1
  {
    if arg.Some? && arg.value != "" then Split(arg.value, ",") else DefaultFormats
  }

  /** The formats parsed from an argument join back with commas into that argument. */
  lemma FormatsJoinBack(arg: string)
    requires arg != ""
    ensures Join(",", Formats(Some(arg))) == arg
  {
    JoinSplit(arg, ",");
  }

  /** A comma-joined list of comma-free format names is read back as that list. */
  lemma FormatsOfJoin(fs: seq<string>)
    requires |fs| >= 1 && Join(",", fs) != ""
    requires forall i :: 0 <= i < |fs| ==> ',' !in fs[i]
    ensures Formats(Some(Join(",", fs))) == fs
  {
    SplitJoin(fs, ',');
    FormatsSplit(Join(",", fs));
  }

  lemma FormatsSplit(s: string)
    requires s != ""
    ensures Formats(Some(s)) == Split(s, ",")
  {
  }

  // ---------------------------------------------------------------------
  // batch_command
  // ---------------------------------------------------------------------

  /** What reading a file gives: the parsed document, or the text of the exception raised. */
  datatype Loaded = Parsed(data: Json) | Raised(message: string)

  /** Python's type name of a JSON value, as an `AttributeError` quotes it. */
  function TypeName(j: Json): string
  {
    match j
    case JNull => "NoneType"
    case JBool(_) => "bool"
    case JNum(_) => "float"
    case JStr(_) => "str"
    case JList(_) => "list"
    case JObj(_) => "dict"
  }

  /**
   * `data.get("segments", [])`: a dictionary's segments (an empty list when
   * absent), or the text of the `AttributeError` a non-dictionary raises.
   */
  function SegmentsOf(data: Json): (r: Result<Json>)
    ensures data.JObj? <==> r.Ok?
    ensures data.JObj? && "segments" in data.fields ==> r == Ok(data.fields["segments"])
    ensures data.JObj? && "segments" !in data.fields ==> r == Ok(JList([]))
    ensures r.Err? ==> r.error.RuntimeError?
  {
    if data.JObj? then Ok(if "segments" in data.fields then data.fields["segments"] else JList([]))
    else Err(RuntimeError("'" + TypeName(data) + "' object has no attribute 'get'"))
  }

  /** The text `batch_command` records for a file without segments. */
  const NoSegments := "No segments in file"

  /**
   * One file of the batch: `None` when exported, else the failure text
   * recorded: the exception from reading it, "No segments in file" when its
   * segments are empty or missing, or the exception `export` raised.
   */
  function FileOutcome(file: string, load: string -> Loaded, exportAll: (string, Json) -> Option<string>): (r: Option<string>)
  {
    match load(file)
    case Raised(m) => Some(m)
    case Parsed(data) =>
      match SegmentsOf(data)
      case Err(e) => Some(e.msg)
      case Ok(segments) =>
        if !Truthy(segments) then Some(NoSegments)
        else exportAll(file, segments)
  }

  /** A file without segments fails as "No segments in file" and is never exported. */
  lemma EmptyFileIsNotExported(file: string, load: string -> Loaded, e1: (string, Json) -> Option<string>, e2: (string, Json) -> Option<string>)
    requires load(file).Parsed? && load(file).data.JObj?
    requires var f := load(file).data.fields; "segments" !in f || !Truthy(f["segments"])
    ensures FileOutcome(file, load, e1) == FileOutcome(file, load, e2) == Some(NoSegments)
  {
  }

  /** The failure entries of a batch, in file order. */
  function Failures(files: seq<string>, load: string -> Loaded, exportAll: (string, Json) -> Option<string>): (es: seq<Logging.ErrorEntry>)
    ensures |es| <= |files|
  {
    if files == [] then []
    else
      var last := files[|files| - 1];
      var before := Failures(files[..|files| - 1], load, exportAll);
      match FileOutcome(last, load, exportAll)
      case None => before
      case Some(m) => before + [Logging.ErrorEntry(last, m)]
  }

  /** No failure is recorded exactly when every file is exported. */
  lemma {:induction false} NoFailuresIff(files: seq<string>, load: string -> Loaded, exportAll: (string, Json) -> Option<string>)
    ensures Failures(files, load, exportAll) == [] <==> forall i :: 0 <= i < |files| ==> FileOutcome(files[i], load, exportAll).None?
  {
    if files != [] {
      var init := files[..|files| - 1];
      NoFailuresIff(init, load, exportAll);
      assert forall i :: 0 <= i < |init| ==> init[i] == files[i];
    }
  }

  /** Every failure entry names a file of the batch. */
  lemma {:induction false} FailuresNameFiles(files: seq<string>, load: string -> Loaded, exportAll: (string, Json) -> Option<string>, k: nat)
    requires k < |Failures(files, load, exportAll)|
    ensures Failures(files, load, exportAll)[k].item in files
  {
    var init := files[..|files| - 1];
    var before := Failures(init, load, exportAll);
    if k < |before| {
      FailuresNameFiles(init, load, exportAll, k);
    }
  }

  /**
   * `batch_command` over the files the pattern matched: 0 for no file;
   * otherwise each file is recorded in a `BatchLogSummary`, and the exit code
   * is the summary's.
   */
  method BatchCommand(files: seq<string>, load: string -> Loaded, exportAll: (string, Json) -> Option<string>)
    returns (code: int, total: nat, successful: nat, errors: seq<Logging.ErrorEntry>)
    ensures errors == Failures(files, load, exportAll)
    ensures total == |files| && successful == |files| - |errors|
    ensures code == (if errors == [] then 0 else 1)
  {
    if files == [] {
      return 0, 0, 0, [];
    }
    var summary := new Logging.BatchLogSummary();
    for i := 0 to |files|
      invariant summary.Valid()
      invariant summary.errors == Failures(files[..i], load, exportAll)
      invariant summary.total == i
    {
      var outcome := FileOutcome(files[i], load, exportAll);
      assert files[..i + 1][..i] == files[..i];
      if outcome.Some? {
        summary.RecordFailure(files[i], outcome.value);
      } else {
        summary.RecordSuccess(files[i]);
      }
    }
    assert files[..|files|] == files;
    code := summary.ExitCode();
    total, successful, errors := summary.total, summary.successful, summary.errors;
  }

  // ---------------------------------------------------------------------
  // export_command and main
  // ---------------------------------------------------------------------

  /** `args.name or input_path.stem`. */
  function ExportBaseName(name: Option<string>, inputPath: string): (b: string)
    ensures name.Some? && name.value != "" ==> b == name.value
    ensures name.None? || name.value == "" ==> b == Paths.Stem(inputPath)
  {
    if name.Some? && name.value != "" then name.value else Paths.Stem(inputPath)
  }

  /**
   * `export_command`'s exit code: 1 for a missing input (through
   * `log_error_exit`) and for any exception while reading or exporting;
   * 0 otherwise. Unlike a batch, an empty segment list is exported.
   */
  function ExportCommand(inputPath: string, existing: set<string>, load: string -> Loaded,
                         exportAll: (string, Json) -> Option<string>): (code: int)
    ensures code == 0 || code == 1
    ensures inputPath !in existing ==> code == 1
    ensures code == 0 <==> (inputPath in existing && load(inputPath).Parsed? && SegmentsOf(load(inputPath).data).Ok?
      && exportAll(inputPath, SegmentsOf(load(inputPath).data).value).None?)
  {
    if inputPath !in existing then Logging.LogErrorExit("Input file not found: " + inputPath).0
    else
      match load(inputPath)
      case Raised(_) => 1
      case Parsed(data) =>
        match SegmentsOf(data)
        case Err(_) => 1
        case Ok(segments) => if exportAll(inputPath, segments).Some? then 1 else 0
  }

  /** A file that the batch rejects for having no segments is exported by `export`. */
  lemma ExportAcceptsEmptySegments(inputPath: string, existing: set<string>, load: string -> Loaded,
                                   exportAll: (string, Json) -> Option<string>)
    requires inputPath in existing && load(inputPath) == Parsed(JObj(map[]))
    requires exportAll(inputPath, JList([])).None?
    ensures ExportCommand(inputPath, existing, load, exportAll) == 0
    ensures FileOutcome(inputPath, load, exportAll) == Some(NoSegments)
  {
  }

  /**
   * `main`: no command prints help and returns 0; "export", "batch" and
   * "demo" return their command's code (`run`); anything else returns 1.
   */
  function Main(command: Option<string>, run: string -> int): (code: int)
    ensures command.None? || command.value == "" ==> code == 0
    ensures command.Some? && command.value in {"export", "batch", "demo"} ==> code == run(command.value)
    ensures command.Some? && command.value != "" && command.value !in {"export", "batch", "demo"} ==> code == 1
  {
    if command.None? || command.value == "" then 0
    else if command.value == "export" || command.value == "batch" || command.value == "demo" then run(command.value)
    else 1
  }
}
