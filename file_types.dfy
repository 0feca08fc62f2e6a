/**
 * File classification (`detect_file_type`) and the file selection rules of
 * `analyze_directory`: which paths are analysed, given the excluded
 * directory names and the wanted extensions.
 */
module FileTypes {
  import opened Text

  datatype Category = Code | Data | Document | Unknown {
    /** The category string the source returns and later compares and prints. */
    function Name(): string
    {
      match this
      case Code => "code"
      case Data => "data"
      case Document => "document"
      case Unknown => "unknown"
    }
  }

  /** The pair `(category, label)` that `detect_file_type` returns. */
  datatype FileType = FileType(category: Category, subType: string)

  /**
   * A path as pathlib presents it: `text` is `str(path)` and `parts` is
   * `path.parts`; the last part is the file name.
   */
  datatype Path = Path(text: string, parts: seq<string>) {
    function Name(): string
    {
      if parts == [] then "" else parts[|parts| - 1]
    }
  }

  const CodeLabels: map<string, string> := map[
    ".py" := "python", ".js" := "javascript", ".jsx" := "javascript",
    ".ts" := "typescript", ".tsx" := "typescript", ".java" := "java",
    ".c" := "c", ".cpp" := "cpp", ".h" := "cpp", ".hpp" := "cpp",
    ".cs" := "csharp", ".go" := "go", ".rs" := "rust", ".rb" := "ruby",
    ".php" := "php", ".swift" := "swift", ".kt" := "kotlin",
    ".scala" := "scala", ".sh" := "shell", ".pl" := "perl", ".r" := "r",
    ".m" := "matlab", ".jl" := "julia"]

  const DataLabels: map<string, string> := map[
    ".json" := "json", ".yaml" := "yaml", ".yml" := "yaml", ".xml" := "xml",
    ".csv" := "csv", ".toml" := "toml", ".ini" := "ini", ".cfg" := "ini"]

  const DocumentLabels: map<string, string> := map[
    ".md" := "markdown", ".txt" := "text", ".html" := "html",
    ".htm" := "html", ".css" := "css"]

  /** The position of the last `'.'` in `name` (`name.rfind('.')`), or -1. */
  function LastDot(name: string): (i: int)
    ensures -1 <= i < |name|
    ensures i >= 0 ==> name[i] == '.'
    ensures forall j :: i < j < |name| ==> name[j] != '.'
  {
    if name == [] then -1
    else if name[|name| - 1] == '.' then |name| - 1
    else LastDot(name[..|name| - 1])
  }

  /**
   * `Path.suffix` of a file name: from the last dot on, provided that dot
   * is neither the first nor the last character.
   */
  function Suffix(name: string): (r: string)
    ensures r == "" || (r[0] == '.' && |r| >= 2 && '.' !in r[1..])
    ensures r != "" ==> |r| < |name| && r == name[|name| - |r|..]
    ensures forall i :: 0 < i < |name| - 1 && name[i] == '.' && '.' !in name[i + 1..] ==> r == name[i..]
  {
    var i := LastDot(name);
    if 0 < i < |name| - 1 then name[i..] else ""
  }

  /** The lower-cased suffix that every decision of this module looks at. */
  function Extension(path: Path): string
  {
    Lower(Suffix(path.Name()))
  }

  /** `detect_file_type(path)`. */
  function DetectFileType(path: Path): (r: FileType)
    ensures var ext := Extension(path);
      && (ext in CodeLabels ==> r == FileType(Code, CodeLabels[ext]))
      && (ext in DataLabels ==> r == FileType(Data, DataLabels[ext]))
      && (ext in DocumentLabels ==> r == FileType(Document, DocumentLabels[ext]))
      && (r.category == Unknown <==> ext !in CodeLabels && ext !in DataLabels && ext !in DocumentLabels)
      && (r.category == Unknown && ext != "" ==> ext == "." + r.subType)
      && (r.category == Unknown && ext == "" ==> r.subType == "text")
  {
    TablesDisjoint();
    var ext := Extension(path);
    if ext in CodeLabels then FileType(Code, CodeLabels[ext])
    else if ext in DataLabels then FileType(Data, DataLabels[ext])
    else if ext in DocumentLabels then FileType(Document, DocumentLabels[ext])
    else FileType(Unknown, if ext != "" then ext[1..] else "text")
  }

  /** No extension is listed in two of the three tables. */
  lemma TablesDisjoint()
    ensures CodeLabels.Keys !! DataLabels.Keys
    ensures CodeLabels.Keys !! DocumentLabels.Keys
    ensures DataLabels.Keys !! DocumentLabels.Keys
  {
    DataKeysNotCode();
    DocumentKeysNotCode();
    DocumentKeysNotData();
  }

  lemma DataKeysNotCode()
    ensures forall k :: k in DataLabels ==> k !in CodeLabels
  {
    FirstDataKeysNotCode();
    LastDataKeysNotCode();
  }

  lemma FirstDataKeysNotCode()
    ensures ".json" !in CodeLabels && ".yaml" !in CodeLabels && ".yml" !in CodeLabels && ".xml" !in CodeLabels
  {
  }

  lemma LastDataKeysNotCode()
    ensures ".csv" !in CodeLabels && ".toml" !in CodeLabels && ".ini" !in CodeLabels && ".cfg" !in CodeLabels
  {
  }

  lemma DocumentKeysNotCode()
    ensures forall k :: k in DocumentLabels ==> k !in CodeLabels
  {
    assert ".md" !in CodeLabels && ".txt" !in CodeLabels && ".html" !in CodeLabels && ".htm" !in CodeLabels && ".css" !in CodeLabels;
  }

  lemma DocumentKeysNotData()
    ensures forall k :: k in DocumentLabels ==> k !in DataLabels
  {
  }

  /** Lower-casing never creates or removes a dot, so the last dot stays where it is. */
  lemma {:induction false} LastDotLower(name: string)
    ensures LastDot(Lower(name)) == LastDot(name)
  {
    if name != [] {
      var n := |name|;
      assert Lower(name)[..n - 1] == Lower(name[..n - 1]);
      assert Lower(name)[n - 1] == LowerChar(name[n - 1]);
      LastDotLower(name[..n - 1]);
    }
  }

  lemma LowerIdempotent(s: string)
    ensures Lower(Lower(s)) == Lower(s)
  {
  }

  /** Taking the suffix and lower-casing commute. */
  lemma SuffixLower(name: string)
    ensures Suffix(Lower(name)) == Lower(Suffix(name))
  {
    LastDotLower(name);
    var i := LastDot(name);
    if 0 < i < |name| - 1 {
      assert Lower(name)[i..] == Lower(name[i..]);
    }
  }

  /** Classification ignores the case of the file name. */
  lemma DetectIgnoresCase(p: Path, q: Path)
    requires Lower(p.Name()) == Lower(q.Name())
    ensures DetectFileType(p) == DetectFileType(q)
  {
    SuffixLower(p.Name());
    SuffixLower(q.Name());
    LowerIdempotent(Suffix(p.Name()));
    LowerIdempotent(Suffix(q.Name()));
    assert Extension(p) == Lower(Suffix(Lower(p.Name())));
  }

  // ---- file selection in analyze_directory ----

  /** The directory names skipped when no exclusion list (or an empty one) is given. */
  const DefaultExcludeDirs: seq<string> := ["__pycache__", ".git", ".github", "venv", "env", "node_modules"]

  /** The extension names used when the caller passes none: code, data and document files. */
  const DefaultExtensionNames: seq<string> := CodeExtensionNames + DataExtensionNames + DocumentExtensionNames

  const CodeExtensionNames: seq<string> := [
    "py", "js", "jsx", "ts", "tsx", "java", "c", "cpp", "h", "hpp",
    "cs", "go", "rs", "rb", "php", "swift", "kt", "scala", "sh", "pl",
    "r", "m", "jl"]

  const DataExtensionNames: seq<string> := ["json", "yaml", "yml", "xml", "csv", "toml", "ini", "cfg"]

  const DocumentExtensionNames: seq<string> := ["md", "txt", "html", "htm", "css"]

  /**
   * One requested extension as compared with a suffix: `'.' + ext.lstrip('.').lower()`.
   * The result is a dot followed by the lower-cased rest of `ext` once the
   * leading dots are dropped: no dot follows the first one, and no
   * upper-case letter is left.
   */
  function NormalizeExtension(ext: string): (r: string)
    ensures |r| >= 1 && r[0] == '.' && (|r| == 1 || r[1] != '.')
    ensures |r| <= |ext| + 1
    ensures forall i :: 0 <= i < |ext| + 1 - |r| ==> ext[i] == '.'
    ensures r[1..] == Lower(ext[|ext| + 1 - |r|..])
    ensures forall i :: 0 <= i < |r| ==> !('A' <= r[i] <= 'Z')
  {
    TrimLeftSpec(ext, {'.'});
    "." + Lower(TrimLeft(ext, {'.'}))
  }

  /** Leading dots in a requested extension do not matter. */
  lemma NormalizeDropsLeadingDot(ext: string)
    ensures NormalizeExtension("." + ext) == NormalizeExtension(ext)
  {
    assert ("." + ext)[1..] == ext;
  }

  /** The case of a requested extension does not matter. */
  lemma {:induction false} NormalizeIgnoresCase(ext: string)
    ensures NormalizeExtension(Lower(ext)) == NormalizeExtension(ext)
  {
    TrimLeftLower(ext);
    LowerIdempotent(TrimLeft(ext, {'.'}));
  }

  /** Dropping leading dots and lower-casing commute. */
  lemma {:induction false} TrimLeftLower(s: string)
    ensures TrimLeft(Lower(s), {'.'}) == Lower(TrimLeft(s, {'.'}))
  {
    if s != [] {
      assert Lower(s)[1..] == Lower(s[1..]);
      TrimLeftLower(s[1..]);
    }
  }

  /** A normalised extension normalises to itself. */
  lemma NormalizeIdempotent(ext: string)
    ensures NormalizeExtension(NormalizeExtension(ext)) == NormalizeExtension(ext)
  {
    var r := NormalizeExtension(ext);
    var t := r[1..];
    assert r == "." + t;
    NormalizeDropsLeadingDot(t);
    assert TrimLeft(t, {'.'}) == t;
    assert Lower(t) == t;
  }

  /** The set of normalised extensions. */
  function ExtensionSet(exts: seq<string>): set<string>
  {
    set e | e in exts :: NormalizeExtension(e)
  }

  /** `exclude_dirs or [defaults]`: an empty or missing list falls back to the defaults. */
  function ExcludeDirsOrDefault(excludeDirs: seq<string>, given: bool): seq<string>
  {
    if given && excludeDirs != [] then excludeDirs else DefaultExcludeDirs
  }

  /** A walked path is analysed exactly when all three tests of the loop pass. */
  predicate Selected(path: Path, isFile: bool, excludeDirs: seq<string>, exts: set<string>)
  {
    && isFile
    && (forall i :: 0 <= i < |path.parts| ==> path.parts[i] !in excludeDirs)
    && Extension(path) in exts
  }

  /** A non-empty name of lower-case letters only. */
  predicate Plain(e: string)
  {
    e != [] && forall i :: 0 <= i < |e| ==> 'a' <= e[i] <= 'z'
  }

  /** A name of lower-case letters only normalises to itself behind a dot. */
  lemma NormalizePlain(e: string)
    requires Plain(e)
    ensures NormalizeExtension(e) == "." + e
  {
    assert TrimLeft(e, {'.'}) == e;
    assert Lower(e) == e;
  }

  /** Plain names normalise one by one to themselves behind a dot. */
  lemma PlainNamesNormalize(names: seq<string>, keys: seq<string>)
    requires |names| == |keys|
    requires forall i :: 0 <= i < |names| ==> Plain(names[i]) && keys[i] == "." + names[i]
    ensures forall i :: 0 <= i < |names| ==> NormalizeExtension(names[i]) == keys[i]
  {
    forall i | 0 <= i < |names| ensures NormalizeExtension(names[i]) == keys[i] {
      NormalizePlain(names[i]);
    }
  }

  lemma ExtensionSetAppend(a: seq<string>, b: seq<string>)
    ensures ExtensionSet(a + b) == ExtensionSet(a) + ExtensionSet(b)
  {
  }

  /** If the names normalise one by one to `keys`, their set is the set of `keys`. */
  lemma ExtensionSetPointwise(names: seq<string>, keys: seq<string>)
    requires |names| == |keys|
    requires forall i :: 0 <= i < |names| ==> NormalizeExtension(names[i]) == keys[i]
    ensures ExtensionSet(names) == set k | k in keys
  {
    forall k | k in keys ensures k in ExtensionSet(names) {
      var i :| 0 <= i < |keys| && keys[i] == k;
      assert names[i] in names;
    }
  }

  /** The keys of each table in the order of its display. */
  const CodeKeys: seq<string> := [
    ".py", ".js", ".jsx", ".ts", ".tsx", ".java", ".c", ".cpp", ".h", ".hpp",
    ".cs", ".go", ".rs", ".rb", ".php", ".swift", ".kt", ".scala", ".sh", ".pl",
    ".r", ".m", ".jl"]

  const DataKeys: seq<string> := [".json", ".yaml", ".yml", ".xml", ".csv", ".toml", ".ini", ".cfg"]

  const DocumentKeys: seq<string> := [".md", ".txt", ".html", ".htm", ".css"]

  lemma CodeKeysAreKeys()
    ensures (set k | k in CodeKeys) == CodeLabels.Keys
  {
  }

  lemma DataKeysAreKeys()
    ensures (set k | k in DataKeys) == DataLabels.Keys
  {
  }

  lemma DocumentKeysAreKeys()
    ensures (set k | k in DocumentKeys) == DocumentLabels.Keys
  {
  }

  lemma CodeNamesNormalize()
    ensures forall i :: 0 <= i < |CodeExtensionNames| ==> NormalizeExtension(CodeExtensionNames[i]) == CodeKeys[i]
  {
    PlainNamesNormalize(CodeExtensionNames, CodeKeys);
  }

  lemma DataNamesNormalize()
    ensures forall i :: 0 <= i < |DataExtensionNames| ==> NormalizeExtension(DataExtensionNames[i]) == DataKeys[i]
  {
    PlainNamesNormalize(DataExtensionNames, DataKeys);
  }

  lemma DocumentNamesNormalize()
    ensures forall i :: 0 <= i < |DocumentExtensionNames| ==> NormalizeExtension(DocumentExtensionNames[i]) == DocumentKeys[i]
  {
    PlainNamesNormalize(DocumentExtensionNames, DocumentKeys);
  }

  /** The default extension list normalises to exactly the keys of the three tables. */
  lemma DefaultExtensionsAreTableKeys()
    ensures ExtensionSet(DefaultExtensionNames) == CodeLabels.Keys + DataLabels.Keys + DocumentLabels.Keys
  {
    ExtensionSetAppend(CodeExtensionNames, DataExtensionNames);
    ExtensionSetAppend(CodeExtensionNames + DataExtensionNames, DocumentExtensionNames);
    CodeNamesNormalize();
    ExtensionSetPointwise(CodeExtensionNames, CodeKeys);
    CodeKeysAreKeys();
    DataNamesNormalize();
    ExtensionSetPointwise(DataExtensionNames, DataKeys);
    DataKeysAreKeys();
    DocumentNamesNormalize();
    ExtensionSetPointwise(DocumentExtensionNames, DocumentKeys);
    DocumentKeysAreKeys();
  }
}
