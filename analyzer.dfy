/**
 * The analysis tool's driver: the prompt it sends for one file's elements,
 * the result record it returns, the per-file pipeline, and the directory
 * walk that decides which files are analysed.
 *
 * The model client is a parameter `Generate`: given the prompt it returns
 * the reply text, or fails with the text of the exception. Reading a file
 * and walking a directory are inputs: a file comes with its text, a walk is
 * the list of paths `rglob('*')` yields, each with whether it is a regular
 * file and what reading it gives.
 */
module Analyzer {
  import opened Wrappers
  import opened Text
  import opened CodeElement
  import opened FileTypes
  import opened Pieces
  import opened Grouping
  import Extractors

  type Generate = string -> Result<string, string>

  function Ask(generate: Generate, prompt: string): Result<string, string>
  {
    generate(prompt)
  }

  /** The result record of one file; `None` marks a key the dictionary does not have. */
  datatype Analysis = Analysis(
    analysis: Option<string>,
    error: Option<string>,
    elements: Option<seq<Element>>,
    fileType: Option<string>,
    subType: Option<string>)

  /** `{}`: the result for a file without elements. */
  const Empty: Analysis := Analysis(None, None, None, None, None)

  // ---------------------------------------------------------------- prompt

  /** The opening of the prompt, by category: code names its language, data its format in capitals. */
  function PromptHeader(filePath: string, fileType: string, subType: string): string
  {
    if fileType == "code" then
      "Analyze the following " + subType + " code from " + filePath + ". "
      + "For each element, provide a brief explanation of its purpose and functionality.\n\n"
    else if fileType == "data" then
      "Analyze the following " + Upper(subType) + " data from " + filePath + ". "
      + "Provide a summary of the data structure and its contents.\n\n"
    else
      "Analyze the following " + subType + " content from " + filePath + ". "
      + "Provide a summary of the content.\n\n"
  }

  function HeadingText(e: Element): string
  {
    e.kind.GetOr("Element") + " " + e.name.GetOr("unnamed") + ":\n"
  }

  /** What one element adds to the prompt, piece by piece. */
  function ElementPieces(e: Element): seq<Piece>
  {
    [Piece(Heading, HeadingText(e))]
    + Optional(IsTruthy(e.docstring), Description, "Description: " + e.docstring.GetOr("") + "\n")
    + Optional(IsTruthy(e.source), Content, "Content:\n" + e.source.GetOr("") + "\n\n")
  }

  /**
   * An element's block opens with its heading, holds a description exactly
   * when the docstring is non-empty and a content part exactly when the
   * source is non-empty, in that order.
   */
  lemma ElementPiecesSpec(e: Element)
    ensures var ps := ElementPieces(e);
      && |ps| >= 1 && ps[0] == Piece(Heading, HeadingText(e))
      && (Description in Roles(ps) <==> IsTruthy(e.docstring))
      && (Content in Roles(ps) <==> IsTruthy(e.source))
      && InRoleOrder(ps)
  {
    var h := [Piece(Heading, HeadingText(e))];
    var d := Optional(IsTruthy(e.docstring), Description, "Description: " + e.docstring.GetOr("") + "\n");
    var c := Optional(IsTruthy(e.source), Content, "Content:\n" + e.source.GetOr("") + "\n\n");
    OptionalSpec(IsTruthy(e.docstring), Description, "Description: " + e.docstring.GetOr("") + "\n");
    OptionalSpec(IsTruthy(e.source), Content, "Content:\n" + e.source.GetOr("") + "\n\n");
    RolesAppend(h, d);
    RolesAppend(h + d, c);
    assert Roles(h) == [Heading];
  }

  function ElementPrompt(e: Element): string
  {
    Concat(Texts(ElementPieces(e)))
  }

  /** The block of every element, in input order. */
  function ElementBlocks(es: seq<Element>): (r: seq<string>)
    ensures |r| == |es|
    ensures forall i :: 0 <= i < |es| ==> r[i] == ElementPrompt(es[i])
  {
    seq(|es|, i requires 0 <= i < |es| => ElementPrompt(es[i]))
  }

  function ElementsPrompt(es: seq<Element>): string
  {
    Concat(ElementBlocks(es))
  }

  function Prompt(es: seq<Element>, filePath: string, fileType: string, subType: string): string
  {
    PromptHeader(filePath, fileType, subType) + ElementsPrompt(es)
  }

  /** The prompt of a concatenation is the concatenation of the prompts: every element contributes its own block, in order. */
  lemma ElementsPromptAppend(a: seq<Element>, b: seq<Element>)
    ensures ElementsPrompt(a + b) == ElementsPrompt(a) + ElementsPrompt(b)
  {
    assert ElementBlocks(a + b) == ElementBlocks(a) + ElementBlocks(b);
    ConcatAppend(ElementBlocks(a), ElementBlocks(b));
  }

  lemma ElementsPromptSnoc(es: seq<Element>, e: Element)
    ensures ElementsPrompt(es + [e]) == ElementsPrompt(es) + ElementPrompt(e)
  {
    ElementsPromptAppend(es, [e]);
    assert ElementBlocks([e]) == [ElementPrompt(e)];
    assert Concat([ElementPrompt(e)]) == ElementPrompt(e) + Concat([]);
  }

  /** Element `k`'s block sits between the blocks of the elements before it and those after it. */
  lemma PromptAt(es: seq<Element>, k: nat, filePath: string, fileType: string, subType: string)
    requires k < |es|
    ensures Prompt(es, filePath, fileType, subType) ==
      PromptHeader(filePath, fileType, subType) + ElementsPrompt(es[..k]) + ElementPrompt(es[k]) + ElementsPrompt(es[k + 1..])
  {
    assert es == es[..k] + [es[k]] + es[k + 1..];
    ElementsPromptAppend(es[..k] + [es[k]], es[k + 1..]);
    ElementsPromptSnoc(es[..k], es[k]);
  }

  /** The three appends of the loop body give the element's block. */
  lemma ElementPromptSteps(e: Element)
    ensures ElementPrompt(e) ==
      HeadingText(e)
      + (if IsTruthy(e.docstring) then "Description: " + e.docstring.value + "\n" else "")
      + (if IsTruthy(e.source) then "Content:\n" + e.source.value + "\n\n" else "")
  {
    var ps := ElementPieces(e);
    var d := if IsTruthy(e.docstring) then "Description: " + e.docstring.value + "\n" else "";
    var c := if IsTruthy(e.source) then "Content:\n" + e.source.value + "\n\n" else "";
    var ts := [HeadingText(e)] + (if IsTruthy(e.docstring) then [d] else []) + (if IsTruthy(e.source) then [c] else []);
    assert Texts(ps) == ts;
    ConcatAppend([HeadingText(e)] + (if IsTruthy(e.docstring) then [d] else []), if IsTruthy(e.source) then [c] else []);
    ConcatAppend([HeadingText(e)], if IsTruthy(e.docstring) then [d] else []);
  }

  // ---------------------------------------------------------------- result

  /** The record returned once the model was asked: the reply or the error, with the elements and both types. */
  function Outcome(reply: Result<string, string>, es: seq<Element>, fileType: string, subType: string): Analysis
  {
    match reply
    case Success(text) => Analysis(Some(text), None, Some(es), Some(fileType), Some(subType))
    case Failure(e) => Analysis(None, Some(e), Some(es), Some(fileType), Some(subType))
  }

  function AnalysisOf(es: seq<Element>, filePath: string, fileType: string, subType: string, generate: Generate): Analysis
  {
    if es == [] then Empty else Outcome(Ask(generate, Prompt(es, filePath, fileType, subType)), es, fileType, subType)
  }

  /**
   * No elements give `{}`; otherwise the record always carries the elements
   * and both types, and exactly one of the reply and the error, as the model
   * call went.
   */
  lemma AnalysisOfSpec(es: seq<Element>, filePath: string, fileType: string, subType: string, generate: Generate)
    ensures var a := AnalysisOf(es, filePath, fileType, subType, generate);
      && (es == [] <==> a == Empty)
      && (es != [] ==>
            var reply := Ask(generate, Prompt(es, filePath, fileType, subType));
            && a.elements == Some(es) && a.fileType == Some(fileType) && a.subType == Some(subType)
            && (a.analysis.Some? <==> a.error.None?)
            && (reply.Success? ==> a.analysis == Some(reply.value))
            && (reply.Failure? ==> a.error == Some(reply.error)))
  {
  }

  /** The loop body: the heading line, then the description and the content when they are non-empty. */
  method AppendElement(prompt: string, e: Element) returns (next: string)
    ensures next == prompt + ElementPrompt(e)
  {
    next := prompt + e.kind.GetOr("Element") + " " + e.name.GetOr("unnamed") + ":\n";
    if IsTruthy(e.docstring) {
      next := next + "Description: " + e.docstring.value + "\n";
    }
    if IsTruthy(e.source) {
      next := next + "Content:\n" + e.source.value + "\n\n";
    }
    ElementPromptSteps(e);
  }

  /** The loop of `_analyze_elements`: every element's lines, in input order. */
  method AppendElements(start: string, elements: seq<Element>) returns (prompt: string)
    ensures prompt == start + ElementsPrompt(elements)
  {
    prompt := start;
    var i := 0;
    while i < |elements|
      invariant 0 <= i <= |elements|
      invariant prompt == start + ElementsPrompt(elements[..i])
    {
      prompt := AppendElement(prompt, elements[i]);
      ElementsPromptSnoc(elements[..i], elements[i]);
      assert elements[..i + 1] == elements[..i] + [elements[i]];
      i := i + 1;
    }
    assert elements[..i] == elements;
  }

  /**
   * `_analyze_elements`: the prompt is built by appending each element's
   * lines; no elements means no model call. `sent` is the prompt handed to
   * the model, if any.
   */
  method AnalyzeElements(elements: seq<Element>, filePath: string, fileType: string, subType: string, generate: Generate)
    returns (result: Analysis, sent: Option<string>)
    ensures result == AnalysisOf(elements, filePath, fileType, subType, generate)
    ensures sent == if elements == [] then None else Some(Prompt(elements, filePath, fileType, subType))
  {
    if elements == [] {
      return Empty, None;
    }
    var prompt := AppendElements(PromptHeader(filePath, fileType, subType), elements);
    result := Outcome(Ask(generate, prompt), elements, fileType, subType);
    sent := Some(prompt);
  }

  // ---------------------------------------------------------------- one file

  /** `analyze_file` on a file with text `content`. */
  function FileAnalysis(path: Path, content: string, p: Extractors.Parsers, generate: Generate): Analysis
  {
    var ft := DetectFileType(path);
    AnalysisOf(Extractors.FileElements(content, ft, p), path.text, ft.category.Name(), ft.subType, generate)
  }

  method AnalyzeFile(path: Path, content: string, p: Extractors.Parsers, generate: Generate)
    returns (result: Analysis, sent: Option<string>)
    ensures result == FileAnalysis(path, content, p, generate)
  {
    var ft := DetectFileType(path);
    var elements := Extractors.ExtractFileElements(content, ft, p);
    result, sent := AnalyzeElements(elements, path.text, ft.category.Name(), ft.subType, generate);
  }

  /** A file's record is `{}` only for a Python file that parses and defines nothing at top level; otherwise it carries the file's category and label. */
  lemma FileAnalysisSpec(path: Path, content: string, p: Extractors.Parsers, generate: Generate)
    ensures var a := FileAnalysis(path, content, p, generate);
      var ft := DetectFileType(path);
      && (a == Empty ==> ft == FileType(Category.Code, "python") && Extractors.ParsePython(p, content).Success?)
      && (a != Empty ==> a.fileType == Some(ft.category.Name()) && a.subType == Some(ft.subType))
  {
    var ft := DetectFileType(path);
    var es := Extractors.FileElements(content, ft, p);
    Extractors.OnlyPythonCanBeEmpty(content, ft, p);
    AnalysisOfSpec(es, path.text, ft.category.Name(), ft.subType, generate);
  }

  // ---------------------------------------------------------------- directory

  /** One path of the walk: whether it is a regular file, and what reading it gives. */
  datatype Entry = Entry(path: Path, isFile: bool, content: Result<string, string>)

  /** `{'.' + e.lstrip('.').lower() for e in exts}`, the default list standing in for a missing one. */
  function ExtensionsOrDefault(fileExtensions: Option<seq<string>>): set<string>
  {
    ExtensionSet(fileExtensions.GetOr(DefaultExtensionNames))
  }

  /** A path whose record ends up in the results: it passes the three tests and reading it succeeds. */
  predicate Analysed(e: Entry, excludeDirs: seq<string>, exts: set<string>)
  {
    Selected(e.path, e.isFile, excludeDirs, exts) && e.content.Success?
  }

  /** How one readable file is analysed. */
  type Analyse = (Path, string) -> Analysis

  function AnalyseWith(p: Extractors.Parsers, generate: Generate): Analyse
  {
    (path, content) => FileAnalysis(path, content, p, generate)
  }

  function Apply(analyse: Analyse, path: Path, content: string): Analysis
  {
    analyse(path, content)
  }

  /** The (path, record) pairs of the analysed paths, in walk order. */
  function Reports(walk: seq<Entry>, excludeDirs: seq<string>, exts: set<string>, analyse: Analyse)
    : seq<(string, Analysis)>
  {
    if walk == [] then []
    else
      var e := walk[|walk| - 1];
      var rest := Reports(walk[..|walk| - 1], excludeDirs, exts, analyse);
      if Analysed(e, excludeDirs, exts) then rest + [(e.path.text, Apply(analyse, e.path, e.content.value))]
      else rest
  }

  function First(r: (string, Analysis)): string
  {
    r.0
  }

  /** `results[key] = record`: the latest record under a key wins. */
  function Latest(old_: Analysis, r: (string, Analysis)): Analysis
  {
    r.1
  }

  /** The dictionary the walk fills: one entry per analysed path, in order of first insertion. */
  function DirectoryResults(walk: seq<Entry>, excludeDirs: seq<string>, exts: set<string>, p: Extractors.Parsers, generate: Generate)
    : seq<(string, Analysis)>
  {
    Acc(Reports(walk, excludeDirs, exts, AnalyseWith(p, generate)), First, Empty, Latest)
  }

  /** One more entry of the walk: the records before it, updated with its own when it is analysed. */
  lemma ReportsSnoc(walk: seq<Entry>, e: Entry, excludeDirs: seq<string>, exts: set<string>, analyse: Analyse)
    ensures var d := Acc(Reports(walk, excludeDirs, exts, analyse), First, Empty, Latest);
      Acc(Reports(walk + [e], excludeDirs, exts, analyse), First, Empty, Latest)
      == if Analysed(e, excludeDirs, exts)
         then Upd(d, e.path.text, Empty, Latest, (e.path.text, Apply(analyse, e.path, e.content.value)))
         else d
  {
    assert (walk + [e])[..|walk|] == walk;
    var rs := Reports(walk, excludeDirs, exts, analyse);
    if Analysed(e, excludeDirs, exts) {
      var pair := (e.path.text, Apply(analyse, e.path, e.content.value));
      assert Reports(walk + [e], excludeDirs, exts, analyse) == rs + [pair];
      assert (rs + [pair])[..|rs|] == rs;
    }
  }

  /** The paths of the analysed entries, in walk order. */
  function AnalysedPaths(walk: seq<Entry>, excludeDirs: seq<string>, exts: set<string>): seq<string>
  {
    if walk == [] then []
    else
      var e := walk[|walk| - 1];
      var rest := AnalysedPaths(walk[..|walk| - 1], excludeDirs, exts);
      if Analysed(e, excludeDirs, exts) then rest + [e.path.text] else rest
  }

  /** Every listed path belongs to an analysed entry of the walk. */
  lemma {:induction false} AnalysedPathsSound(walk: seq<Entry>, excludeDirs: seq<string>, exts: set<string>)
    ensures forall k :: k in AnalysedPaths(walk, excludeDirs, exts) ==>
      exists i :: 0 <= i < |walk| && Analysed(walk[i], excludeDirs, exts) && walk[i].path.text == k
  {
    if walk != [] {
      var n := |walk| - 1;
      AnalysedPathsSound(walk[..n], excludeDirs, exts);
      forall k | k in AnalysedPaths(walk, excludeDirs, exts)
        ensures exists i :: 0 <= i < |walk| && Analysed(walk[i], excludeDirs, exts) && walk[i].path.text == k
      {
        if k in AnalysedPaths(walk[..n], excludeDirs, exts) {
          var i :| 0 <= i < n && Analysed(walk[..n][i], excludeDirs, exts) && walk[..n][i].path.text == k;
          assert walk[i] == walk[..n][i];
        } else {
          assert Analysed(walk[n], excludeDirs, exts) && walk[n].path.text == k;
        }
      }
    }
  }

  /** Every analysed entry of the walk has its path listed. */
  lemma {:induction false} AnalysedPathsComplete(walk: seq<Entry>, excludeDirs: seq<string>, exts: set<string>)
    ensures forall i :: 0 <= i < |walk| && Analysed(walk[i], excludeDirs, exts) ==>
      walk[i].path.text in AnalysedPaths(walk, excludeDirs, exts)
  {
    if walk != [] {
      var n := |walk| - 1;
      AnalysedPathsComplete(walk[..n], excludeDirs, exts);
      forall i | 0 <= i < n && Analysed(walk[i], excludeDirs, exts)
        ensures walk[i].path.text in AnalysedPaths(walk, excludeDirs, exts)
      {
        assert walk[..n][i] == walk[i];
      }
    }
  }

  /** A path is listed exactly when some entry of the walk with that path is analysed. */
  lemma AnalysedPathsSpec(walk: seq<Entry>, excludeDirs: seq<string>, exts: set<string>)
    ensures forall k :: k in AnalysedPaths(walk, excludeDirs, exts) <==>
      exists i :: 0 <= i < |walk| && Analysed(walk[i], excludeDirs, exts) && walk[i].path.text == k
  {
    AnalysedPathsSound(walk, excludeDirs, exts);
    AnalysedPathsComplete(walk, excludeDirs, exts);
  }

  /** The pairs carry exactly the analysed paths as keys, in walk order. */
  lemma {:induction false} ReportKeys(walk: seq<Entry>, excludeDirs: seq<string>, exts: set<string>, analyse: Analyse)
    ensures Mapped(Reports(walk, excludeDirs, exts, analyse), First) == AnalysedPaths(walk, excludeDirs, exts)
  {
    if walk != [] {
      var n := |walk| - 1;
      ReportKeys(walk[..n], excludeDirs, exts, analyse);
      var rest := Reports(walk[..n], excludeDirs, exts, analyse);
      if Analysed(walk[n], excludeDirs, exts) {
        var pair := (walk[n].path.text, Apply(analyse, walk[n].path, walk[n].content.value));
        assert Mapped(rest + [pair], First) == Mapped(rest, First) + [pair.0];
      }
    }
  }

  /** `j` is the last analysed entry of the walk whose path text is `k`. */
  predicate LastAnalysedFor(walk: seq<Entry>, excludeDirs: seq<string>, exts: set<string>, k: string, j: int)
  {
    && 0 <= j < |walk| && Analysed(walk[j], excludeDirs, exts) && walk[j].path.text == k
    && forall i :: j < i < |walk| && Analysed(walk[i], excludeDirs, exts) ==> walk[i].path.text != k
  }

  /** The entry holds the analysis of the last analysed entry of `walk` with its path. */
  ghost predicate IsLatest(entry: (string, Analysis), walk: seq<Entry>, excludeDirs: seq<string>, exts: set<string>, analyse: Analyse)
  {
    exists j :: LastAnalysedFor(walk, excludeDirs, exts, entry.0, j) && entry.1 == Apply(analyse, walk[j].path, walk[j].content.value)
  }

  /** Under each path of `d` sits the analysis of the last analysed entry of `walk` with that path. */
  ghost predicate HoldsLatest(d: seq<(string, Analysis)>, walk: seq<Entry>, excludeDirs: seq<string>, exts: set<string>, analyse: Analyse)
  {
    forall i :: 0 <= i < |d| ==> IsLatest(d[i], walk, excludeDirs, exts, analyse)
  }

  /** A witness stays the last one when the next entry does not carry its path. */
  lemma LastAnalysedSnoc(w: seq<Entry>, e: Entry, excludeDirs: seq<string>, exts: set<string>, k: string, j: int)
    requires LastAnalysedFor(w, excludeDirs, exts, k, j)
    requires !Analysed(e, excludeDirs, exts) || e.path.text != k
    ensures LastAnalysedFor(w + [e], excludeDirs, exts, k, j)
  {
  }

  /** The entries of `d` whose path the next entry does not update keep their witnesses. */
  lemma HoldsLatestKept(d: seq<(string, Analysis)>, w: seq<Entry>, e: Entry, excludeDirs: seq<string>, exts: set<string>, analyse: Analyse, i: int)
    requires HoldsLatest(d, w, excludeDirs, exts, analyse) && 0 <= i < |d|
    requires !Analysed(e, excludeDirs, exts) || d[i].0 != e.path.text
    ensures IsLatest(d[i], w + [e], excludeDirs, exts, analyse)
  {
    assert IsLatest(d[i], w, excludeDirs, exts, analyse);
    var j :| LastAnalysedFor(w, excludeDirs, exts, d[i].0, j) && d[i].1 == Apply(analyse, w[j].path, w[j].content.value);
    LastAnalysedSnoc(w, e, excludeDirs, exts, d[i].0, j);
    assert (w + [e])[j] == w[j];
  }

  /** An analysed entry: its path now holds its own analysis, and every other path keeps its witness. */
  lemma HoldsLatestAnalysed(d: seq<(string, Analysis)>, w: seq<Entry>, e: Entry, excludeDirs: seq<string>, exts: set<string>, analyse: Analyse)
    requires HoldsLatest(d, w, excludeDirs, exts, analyse) && DistinctKeys(d)
    requires Analysed(e, excludeDirs, exts)
    ensures var k := e.path.text;
      HoldsLatest(Upd(d, k, Empty, Latest, (k, Apply(analyse, e.path, e.content.value))), w + [e], excludeDirs, exts, analyse)
  {
    var walk := w + [e];
    var k, v := e.path.text, Apply(analyse, e.path, e.content.value);
    var r := Upd(d, k, Empty, Latest, (k, v));
    UpdSpec(d, k, Empty, Latest, (k, v));
    assert walk[|w|] == e;
    assert LastAnalysedFor(walk, excludeDirs, exts, k, |w|);
    forall i | 0 <= i < |r| ensures IsLatest(r[i], walk, excludeDirs, exts, analyse) {
      if r[i].0 == k {
        assert r[i].1 == v;
      } else {
        assert i < |d| && r[i] == d[i];
        HoldsLatestKept(d, w, e, excludeDirs, exts, analyse, i);
      }
    }
  }

  /** An entry that is not analysed leaves the dictionary and its witnesses as they are. */
  lemma HoldsLatestSkipped(d: seq<(string, Analysis)>, w: seq<Entry>, e: Entry, excludeDirs: seq<string>, exts: set<string>, analyse: Analyse)
    requires HoldsLatest(d, w, excludeDirs, exts, analyse)
    requires !Analysed(e, excludeDirs, exts)
    ensures HoldsLatest(d, w + [e], excludeDirs, exts, analyse)
  {
    var walk := w + [e];
    forall i | 0 <= i < |d| ensures IsLatest(d[i], walk, excludeDirs, exts, analyse) {
      HoldsLatestKept(d, w, e, excludeDirs, exts, analyse, i);
    }
  }

  /** Under each path the dictionary holds the analysis of the last analysed entry with that path. */
  lemma {:induction false} ReportValues(walk: seq<Entry>, excludeDirs: seq<string>, exts: set<string>, analyse: Analyse)
    ensures HoldsLatest(Acc(Reports(walk, excludeDirs, exts, analyse), First, Empty, Latest), walk, excludeDirs, exts, analyse)
  {
    if walk != [] {
      var n := |walk| - 1;
      var w, e := walk[..n], walk[n];
      assert walk == w + [e];
      ReportValues(w, excludeDirs, exts, analyse);
      ReportsSnoc(w, e, excludeDirs, exts, analyse);
      var rs := Reports(w, excludeDirs, exts, analyse);
      if Analysed(e, excludeDirs, exts) {
        AccSpec(rs, First, Empty, Latest);
        HoldsLatestAnalysed(Acc(rs, First, Empty, Latest), w, e, excludeDirs, exts, analyse);
      } else {
        HoldsLatestSkipped(Acc(rs, First, Empty, Latest), w, e, excludeDirs, exts, analyse);
      }
    }
  }

  /** Under each path of the results sits the analysis of the last analysed file with that path. */
  lemma DirectoryValues(walk: seq<Entry>, excludeDirs: seq<string>, exts: set<string>, p: Extractors.Parsers, generate: Generate)
    ensures var d := DirectoryResults(walk, excludeDirs, exts, p, generate);
      forall i :: 0 <= i < |d| ==> exists j ::
        LastAnalysedFor(walk, excludeDirs, exts, d[i].0, j)
        && d[i].1 == FileAnalysis(walk[j].path, walk[j].content.value, p, generate)
  {
    var d := DirectoryResults(walk, excludeDirs, exts, p, generate);
    ReportValues(walk, excludeDirs, exts, AnalyseWith(p, generate));
    forall i | 0 <= i < |d|
      ensures exists j :: (LastAnalysedFor(walk, excludeDirs, exts, d[i].0, j)
        && d[i].1 == FileAnalysis(walk[j].path, walk[j].content.value, p, generate))
    {
      assert IsLatest(d[i], walk, excludeDirs, exts, AnalyseWith(p, generate));
      var j :| LastAnalysedFor(walk, excludeDirs, exts, d[i].0, j)
        && d[i].1 == Apply(AnalyseWith(p, generate), walk[j].path, walk[j].content.value);
    }
  }

  /**
   * The results hold each path once, in walk order, and hold a path exactly
   * when some walked entry for it is a regular file outside the excluded
   * directories, has a wanted suffix, and could be read: a file that fails to
   * read drops only itself. Under each path sits the analysis of the last
   * analysed entry with that path, as `results[str(file_path)] =` leaves it.
   */
  lemma DirectoryResultsSpec(walk: seq<Entry>, excludeDirs: seq<string>, exts: set<string>, p: Extractors.Parsers, generate: Generate)
    ensures var d := DirectoryResults(walk, excludeDirs, exts, p, generate);
      && DistinctKeys(d)
      && Keys(d) == Dedup(AnalysedPaths(walk, excludeDirs, exts))
      && (forall k :: k in Keys(d) <==>
           exists i :: 0 <= i < |walk| && Analysed(walk[i], excludeDirs, exts) && walk[i].path.text == k)
      && forall i :: 0 <= i < |d| ==> exists j ::
           LastAnalysedFor(walk, excludeDirs, exts, d[i].0, j)
           && d[i].1 == FileAnalysis(walk[j].path, walk[j].content.value, p, generate)
  {
    DirectoryValues(walk, excludeDirs, exts, p, generate);
    var rs := Reports(walk, excludeDirs, exts, AnalyseWith(p, generate));
    AccSpec(rs, First, Empty, Latest);
    AccKeys(rs, First, Empty, Latest);
    ReportKeys(walk, excludeDirs, exts, AnalyseWith(p, generate));
    AnalysedPathsSpec(walk, excludeDirs, exts);
  }

  /** One step of the walk: the three tests, the read, then `results[str(path)] = analyze_file(path)`. */
  method VisitEntry(
    results: seq<(string, Analysis)>, e: Entry, exclude: seq<string>, extensions: set<string>, analyse: Analyse)
    returns (next: seq<(string, Analysis)>)
    ensures next == if Analysed(e, exclude, extensions)
      then Upd(results, e.path.text, Empty, Latest, (e.path.text, Apply(analyse, e.path, e.content.value)))
      else results
  {
    next := results;
    if e.isFile
      && !(exists j :: 0 <= j < |e.path.parts| && e.path.parts[j] in exclude)
      && Extension(e.path) in extensions
    {
      if e.content.Success? {
        var analysis := analyse(e.path, e.content.value);
        next := Upd(results, e.path.text, Empty, Latest, (e.path.text, analysis));
      }
    }
  }

  /** The loop of `analyze_directory` over the walk, with `analyse` standing for `analyze_file`. */
  method Walk(walk: seq<Entry>, exclude: seq<string>, extensions: set<string>, analyse: Analyse)
    returns (results: seq<(string, Analysis)>)
    ensures results == Acc(Reports(walk, exclude, extensions, analyse), First, Empty, Latest)
  {
    results := [];
    var i := 0;
    while i < |walk|
      invariant 0 <= i <= |walk|
      invariant results == Acc(Reports(walk[..i], exclude, extensions, analyse), First, Empty, Latest)
    {
      results := VisitEntry(results, walk[i], exclude, extensions, analyse);
      ReportsSnoc(walk[..i], walk[i], exclude, extensions, analyse);
      assert walk[..i + 1] == walk[..i] + [walk[i]];
      i := i + 1;
    }
    assert walk[..i] == walk;
  }

  /**
   * `analyze_directory`: a path that is not a directory is an error;
   * otherwise every walked path passing the three tests is analysed, and one
   * whose analysis raises is skipped.
   */
  method AnalyzeDirectory(
    directory: string, isDir: bool, walk: seq<Entry>,
    excludeDirs: Option<seq<string>>, fileExtensions: Option<seq<string>>,
    p: Extractors.Parsers, generate: Generate)
    returns (r: Result<seq<(string, Analysis)>, string>)
    ensures !isDir ==> r == Failure(directory + " is not a valid directory")
    ensures isDir ==> r == Success(DirectoryResults(
      walk, ExcludeDirsOrDefault(excludeDirs.GetOr([]), excludeDirs.Some?), ExtensionsOrDefault(fileExtensions), p, generate))
  {
    if !isDir {
      return Failure(directory + " is not a valid directory");
    }
    var exclude := ExcludeDirsOrDefault(excludeDirs.GetOr([]), excludeDirs.Some?);
    var extensions := ExtensionsOrDefault(fileExtensions);
    var results := Walk(walk, exclude, extensions, AnalyseWith(p, generate));
    return Success(results);
  }
}
