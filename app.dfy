/** The two pieces of app.py that are plain logic: the name of the downloadable report and
    the choice between an uploaded file and the default one. */
module App {

  import opened Wrappers
  import opened Table

  const REPORT_PREFIX: string := "raport_sprzedazy_"
  const REPORT_SUFFIX: string := ".xlsx"
  const DEFAULT_FILE_PATH: string := "dane.csv"

  /** Position of the last "/" in the path, or -1 when there is none. */
  function LastSlash(path: string): (i: int)
    ensures -1 <= i < |path|
    ensures i >= 0 ==> path[i] == '/'
    ensures forall j :: i < j < |path| ==> path[j] != '/'
    decreases |path|
  {
    if path == [] then -1
    else if path[|path| - 1] == '/' then |path| - 1
    else LastSlash(path[..|path| - 1])
  }

  /** `os.path.basename` with "/" as separator: the text after the last "/". */
  function Basename(path: string): (base: string)
    ensures '/' !in base
    ensures |base| <= |path| && base == path[|path| - |base|..]
    ensures base == path || path[|path| - |base| - 1] == '/'
  {
    var base := path[LastSlash(path) + 1..];
    assert forall k :: 0 <= k < |base| ==> base[k] != '/';
    base
  }

  /** Position of the first "." in s, or |s| when there is none. */
  function FirstDot(s: string): (i: nat)
    ensures i <= |s|
    ensures i < |s| ==> s[i] == '.'
    ensures forall j :: 0 <= j < i ==> s[j] != '.'
    decreases |s|
  {
    if s == [] || s[0] == '.' then 0 else FirstDot(s[1..]) + 1
  }

  /** `s.split('.')[0]`: the text before the first ".". */
  function Stem(s: string): (stem: string)
    ensures '.' !in stem
    ensures |stem| <= |s| && stem == s[..|stem|]
    ensures stem == s || s[|stem|] == '.'
  {
    s[..FirstDot(s)]
  }

  /** `f"raport_sprzedazy_{os.path.basename(file_name).split('.')[0]}.xlsx"`. */
  function ReportFileName(name: string): (r: string)
  {
    REPORT_PREFIX + Stem(Basename(name)) + REPORT_SUFFIX
  }

  /** The report name is the fixed prefix, a stem and the fixed suffix; the stem holds no
      "/" and no ".", and it is the part of the input's last path component up to that
      component's first ".". */
  lemma ReportFileNameShape(name: string)
    ensures var r := ReportFileName(name);
      && |r| >= |REPORT_PREFIX| + |REPORT_SUFFIX|
      && r[..|REPORT_PREFIX|] == REPORT_PREFIX
      && r[|r| - |REPORT_SUFFIX|..] == REPORT_SUFFIX
      && var stem, base := r[|REPORT_PREFIX|..|r| - |REPORT_SUFFIX|], Basename(name);
         && '/' !in stem && '.' !in stem
         && stem == base[..|stem|]
         && (stem == base || base[|stem|] == '.')
  {
    var base := Basename(name);
    var stem := Stem(base);
    ConcatParts(REPORT_PREFIX, stem, REPORT_SUFFIX);
    assert forall k :: 0 <= k < |stem| ==> stem[k] == base[k];
  }

  lemma ConcatParts(a: string, b: string, c: string)
    ensures var s := a + b + c;
      && |s| == |a| + |b| + |c|
      && s[..|a|] == a && s[|a|..|s| - |c|] == b && s[|s| - |c|..] == c
  {
    var s := a + b + c;
    assert s[..|a|] == a;
    assert s[|a|..|s| - |c|] == b;
    assert s[|s| - |c|..] == c;
  }

  /** A name without "/" is its own basename. */
  lemma BasenameWhole(b: string)
    requires '/' !in b
    ensures Basename(b) == b
  {
    assert LastSlash(b) == -1;
  }

  /** The directory part before the last "/" does not matter. */
  lemma BasenameAfterSlash(d: string, b: string)
    requires '/' !in b
    ensures Basename(d + "/" + b) == b
  {
    var p := d + "/" + b;
    assert p[|d|] == '/';
    assert forall j :: |d| < j < |p| ==> p[j] == b[j - |d| - 1];
    assert LastSlash(p) == |d|;
    assert p[|d| + 1..] == b;
  }

  /** The stem of `a + "." + t` is `a` when `a` holds no ".". */
  lemma StemBeforeDot(a: string, t: string)
    requires '.' !in a
    ensures Stem(a + "." + t) == a
  {
    var s := a + "." + t;
    assert s[|a|] == '.';
    assert forall j :: 0 <= j < |a| ==> s[j] == a[j];
    assert FirstDot(s) == |a|;
    assert s[..|a|] == a;
  }

  /** Any directory part is ignored. */
  lemma DirectoryIgnored(d: string, b: string)
    requires '/' !in b
    ensures ReportFileName(d + "/" + b) == ReportFileName(b)
  {
    BasenameAfterSlash(d, b);
    BasenameWhole(b);
  }

  /** A name without "/" and "." is the whole stem; one that starts with "." has an empty
      stem. */
  lemma StemCases(b: string)
    requires '/' !in b
    ensures '.' !in b ==> ReportFileName(b) == REPORT_PREFIX + b + REPORT_SUFFIX
    ensures |b| > 0 && b[0] == '.' ==> ReportFileName(b) == REPORT_PREFIX + REPORT_SUFFIX
  {
    BasenameWhole(b);
  }

  /** A plain file name `a.t` is reported as `raport_sprzedazy_a.xlsx`. */
  lemma PlainNameReport(a: string, t: string)
    requires '/' !in a && '.' !in a && '/' !in t
    ensures ReportFileName(a + "." + t) == REPORT_PREFIX + a + REPORT_SUFFIX
  {
    var s := a + "." + t;
    assert forall k :: 0 <= k < |s| ==> s[k] != '/';
    BasenameWhole(s);
    StemBeforeDot(a, t);
  }

  /** The default path is the plain name "dane" with the extension "csv". */
  lemma DefaultPathParts()
    ensures DEFAULT_FILE_PATH == "dane" + "." + "csv"
  {
  }

  /** The default file gives "raport_sprzedazy_" + "dane" + ".xlsx". */
  lemma DefaultReportName()
    ensures ReportFileName(DEFAULT_FILE_PATH) == REPORT_PREFIX + "dane" + REPORT_SUFFIX
  {
    DefaultPathParts();
    PlainNameReport("dane", "csv");
  }

  // ---------------------------------------------------------------- choice of input

  /** A file the user uploaded: its name and what reading it produced. */
  datatype Upload = Upload(name: string, contents: CsvRead)

  /** What `main` goes on to process. */
  datatype Selection = ProcessUpload(upload: Upload) | ProcessDefault(path: string) | NothingToProcess

  /** `main`: the upload if there is one; otherwise the default file if it exists; otherwise
      nothing (a hint is shown). */
  function SelectInput(upload: Option<Upload>, defaultExists: bool): (s: Selection)
    ensures s.ProcessUpload? <==> upload.Some?
    ensures s.ProcessUpload? ==> s.upload == upload.value
    ensures s.ProcessDefault? <==> upload.None? && defaultExists
    ensures s.ProcessDefault? ==> s.path == DEFAULT_FILE_PATH
  {
    if upload.Some? then ProcessUpload(upload.value)
    else if defaultExists then ProcessDefault(DEFAULT_FILE_PATH)
    else NothingToProcess
  }

  /** The file name handed on with the processed file, from which the report is named. */
  function ProcessedName(s: Selection): Option<string>
  {
    match s
    case ProcessUpload(u) => Some(u.name)
    case ProcessDefault(path) => Some(path)
    case NothingToProcess => None
  }

  /** With an upload present the default file is never consulted: whether it exists makes no
      difference, and the report is named after the upload. */
  lemma UploadTakesPrecedence(u: Upload, exists1: bool, exists2: bool)
    ensures SelectInput(Some(u), exists1) == SelectInput(Some(u), exists2)
    ensures ProcessedName(SelectInput(Some(u), exists1)) == Some(u.name)
  {
  }

  /** Without an upload the default file is processed when it exists, and its report is
      named after "dane"; when it does not, nothing is processed. */
  lemma DefaultFallback(defaultExists: bool)
    ensures defaultExists ==>
      ProcessedName(SelectInput(None, defaultExists)) == Some(DEFAULT_FILE_PATH) &&
      ReportFileName(ProcessedName(SelectInput(None, defaultExists)).value) == REPORT_PREFIX + "dane" + REPORT_SUFFIX
    ensures !defaultExists ==> ProcessedName(SelectInput(None, defaultExists)).None?
  {
    DefaultReportName();
  }
}
