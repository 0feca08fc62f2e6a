/**
 * The element extractors of the analysis tool other than the line scanner,
 * and the dispatch that picks one for a file.
 *
 * Foreign code is a parameter (`Parsers`): the regular-expression search of
 * the scanner, the markdown heading split, the Python parser and the JSON
 * and YAML round trips. Everything the extractors do with their results is
 * modelled.
 */
module Extractors {
  import opened Wrappers
  import opened Text
  import opened CodeElement
  import opened PythonAst
  import opened FileTypes
  import LineScanner

  datatype Parsers = Parsers(
    search: LineScanner.Search,                         // re.search(pattern, line), as groups
    splitSections: string -> seq<string>,               // re.split(r'\n(#+\s+.*?)\n', content, flags=re.MULTILINE)
    parsePython: string -> Result<seq<Node>, string>,   // ast.parse(code).body, or the text of the exception
    dumpJson: string -> Result<string, string>,         // json.dumps(json.loads(content), indent=2)
    dumpYaml: string -> Result<string, string>)         // yaml.dump(yaml.safe_load(content), default_flow_style=False)

  function SplitSections(p: Parsers, content: string): seq<string>
  {
    p.splitSections(content)
  }

  function ParsePython(p: Parsers, code: string): Result<seq<Node>, string>
  {
    p.parsePython(code)
  }

  function DumpJson(p: Parsers, content: string): Result<string, string>
  {
    p.dumpJson(content)
  }

  function DumpYaml(p: Parsers, content: string): Result<string, string>
  {
    p.dumpYaml(content)
  }

  /** `s[:n]`: at most the first `n` characters, with no marker. */
  function Take(s: string, n: nat): (r: string)
    ensures |r| <= n && |r| <= |s| && r == s[..|r|]
    ensures |s| <= n ==> r == s
    ensures |s| > n ==> |r| == n
  {
    if |s| <= n then s else s[..n]
  }

  // ---------------------------------------------------------------- Python

  /** The record of one top-level definition. */
  function PythonElement(n: Node): Element
  {
    Element(
      Some(KindName(n.kind)), Some(n.name), Some(n.docstring.GetOr("")), Some(n.segment.GetOr("")),
      Some(n.lineno.GetOr(0)), Some(n.endLineno.GetOr(0)), None, None, Some("python"), None, None)
  }

  /** The single record returned when the code does not parse. */
  function PythonParseError(code: string, error: string): Element
  {
    Record("File", "content", "Error parsing Python file", Preview(code), "python").(error := Some(error))
  }

  /** The Python extractor: one record per top-level definition, or the parse-error record. */
  function PythonElements(code: string, parsed: Result<seq<Node>, string>): seq<Element>
  {
    match parsed
    case Failure(e) => [PythonParseError(code, e)]
    case Success(body) =>
      var defs := Definitions(body);
      seq(|defs|, k requires 0 <= k < |defs| => PythonElement(defs[k]))
  }

  /**
   * A parse error gives one record carrying the error and the preview; a
   * parsed module gives, for the `k`-th top-level definition (see
   * `DefinitionsSpec` for which nodes those are and their order), a
   * function or class record with that node's type and name, its docstring
   * and source segment (empty when absent), its line numbers (0 when
   * absent), the language, and no error.
   */
  lemma PythonElementsSpec(code: string, parsed: Result<seq<Node>, string>)
    ensures var r := PythonElements(code, parsed);
      && (parsed.Failure? ==> |r| == 1 && r[0].error == Some(parsed.error) && r[0].source == Some(Preview(code)))
      && (parsed.Success? ==>
            && |r| == |Definitions(parsed.value)| <= |parsed.value|
            && forall k :: 0 <= k < |r| ==>
                 var n := Definitions(parsed.value)[k];
                 && r[k].kind == Some(if n.kind == FunctionDef then "Function"
                                      else if n.kind == AsyncFunctionDef then "AsyncFunction" else "Class")
                 && r[k].name == Some(n.name)
                 && r[k].docstring == Some(if n.docstring.Some? then n.docstring.value else "")
                 && r[k].source == Some(if n.segment.Some? then n.segment.value else "")
                 && r[k].startLine == Some(if n.lineno.Some? then n.lineno.value else 0)
                 && r[k].endLine == Some(if n.endLineno.Some? then n.endLineno.value else 0)
                 && r[k].language == Some("python") && r[k].error == None)
  {
    KindNames();
    if parsed.Success? {
      var defs := Definitions(parsed.value);
      DefinitionsSpec(parsed.value);
      forall k | 0 <= k < |defs| ensures defs[k].kind != OtherStatement {
        assert defs[k] in defs;
      }
    }
  }

  // ---------------------------------------------------------------- data

  /** The record of a data file its parser rejected. */
  function DataError(content: string, dataType: string, error: string): Element
  {
    Record("Data", "content", "Error parsing " + dataType + " data: " + error, Preview(content), dataType).(error := Some(error))
  }

  /** The data extractor: JSON and YAML re-serialised and cut to 1000 characters, XML and CSV previewed, anything else as text. */
  function DataElements(content: string, dataType: string, p: Parsers): seq<Element>
  {
    if dataType == "json" then
      match DumpJson(p, content)
      case Success(text) => [Record("Data", "root", "JSON data", Take(text, 1000), "json")]
      case Failure(e) => [DataError(content, dataType, e)]
    else if dataType == "yaml" || dataType == "yml" then
      match DumpYaml(p, content)
      case Success(text) => [Record("Data", "root", "YAML data", Take(text, 1000), "yaml")]
      case Failure(e) => [DataError(content, dataType, e)]
    else if dataType == "xml" then [Record("Data", "xml_content", "XML data", Preview(content), "xml")]
    else if dataType == "csv" then [Record("Data", "csv_content", "CSV data", Preview(content), "csv")]
    else [ContentElement(content, "data")]
  }

  /**
   * Every data file gives exactly one record, with a source of at most 1003
   * characters; it carries an error exactly when a JSON or YAML parse failed.
   * A rejected file's record names the parser's message. A parsed JSON or
   * YAML file's source is the first 1000 characters of its re-serialisation; XML, CSV and rejected files carry the preview of the
   * content; any other data type is handled as a plain text of type `data`.
   */
  lemma DataElementsSpec(content: string, dataType: string, p: Parsers)
    ensures var r := DataElements(content, dataType, p);
      && |r| == 1
      && r[0].source.Some? && |r[0].source.value| <= 1003
      && (r[0].error.Some? <==>
            || (dataType == "json" && DumpJson(p, content).Failure?)
            || ((dataType == "yaml" || dataType == "yml") && DumpYaml(p, content).Failure?))
      && (r[0].error.Some? ==>
            && r[0].kind == Some("Data") && r[0].name == Some("content") && r[0].language == Some(dataType)
            && r[0].docstring == Some("Error parsing " + dataType + " data: " + r[0].error.value))
      && (dataType == "json" && DumpJson(p, content).Failure? ==> r[0].error == Some(DumpJson(p, content).error))
      && ((dataType == "yaml" || dataType == "yml") && DumpYaml(p, content).Failure? ==>
            r[0].error == Some(DumpYaml(p, content).error))
      && (dataType == "xml" || dataType == "csv" || r[0].error.Some? ==> r[0].source == Some(Preview(content)))
      && (dataType == "json" && DumpJson(p, content).Success? ==>
            && r[0].source == Some(Take(DumpJson(p, content).value, 1000))
            && r[0].name == Some("root") && r[0].language == Some("json"))
      && ((dataType == "yaml" || dataType == "yml") && DumpYaml(p, content).Success? ==>
            && r[0].source == Some(Take(DumpYaml(p, content).value, 1000))
            && r[0].name == Some("root") && r[0].language == Some("yaml"))
      && (dataType == "xml" ==> r[0].name == Some("xml_content") && r[0].language == Some("xml"))
      && (dataType == "csv" ==> r[0].name == Some("csv_content") && r[0].language == Some("csv"))
      && (dataType !in {"json", "yaml", "yml", "xml", "csv"} ==> r == [ContentElement(content, "data")])
  {
  }

  // ---------------------------------------------------------------- text

  /** The single record of a text file that is not split into sections. */
  function ContentElement(content: string, contentType: string): Element
  {
    Record("Content", "content", Capitalize(contentType) + " content", Preview(content), contentType)
  }

  /** The record of the heading at odd index `i` of the split: its name, and its text with the following body. */
  function SectionElement(parts: seq<string>, i: nat): Element
    requires i < |parts|
  {
    Record(
      "Section", Strip(StripChars(parts[i], {'#', ' '})), "",
      parts[i] + (if i + 1 < |parts| then "\n" + parts[i + 1] else ""), "markdown")
  }

  /** The record of the `k`-th heading, which sits at index `2 * k + 1` of the split. */
  function SectionAt(parts: seq<string>, k: nat): Element
    requires 2 * k + 1 < |parts|
  {
    SectionElement(parts, 2 * k + 1)
  }

  /** One record per heading of the split, in order. */
  function Sections(parts: seq<string>): (r: seq<Element>)
    ensures |r| == |parts| / 2
    ensures forall k :: 0 <= k < |r| ==> 2 * k + 1 < |parts| && r[k] == SectionAt(parts, k)
  {
    seq(|parts| / 2, k requires 0 <= k < |parts| / 2 => SectionAt(parts, k))
  }

  /** The record of a markdown text without headings. */
  function DocumentElement(content: string): Element
  {
    Record("Document", "content", "Markdown content", Preview(content), "markdown")
  }

  function MarkdownElements(content: string, parts: seq<string>): seq<Element>
  {
    var s := Sections(parts);
    if s == [] then [DocumentElement(content)] else s
  }

  /** The text extractor: markdown is cut into sections, any other kind of text is one record. */
  function TextElements(content: string, contentType: string, p: Parsers): seq<Element>
  {
    if contentType == "markdown" then MarkdownElements(content, SplitSections(p, content))
    else [ContentElement(content, contentType)]
  }

  /** `n // 2` from the bounds the loop ends with. */
  lemma Half(n: nat, m: nat)
    requires n <= 2 * m + 1 <= n + 1
    ensures m == n / 2
  {
  }

  /** The records of the first `|elements|` headings. */
  predicate SectionsSoFar(sections: seq<string>, elements: seq<Element>)
  {
    && 2 * |elements| <= |sections|
    && forall k :: 0 <= k < |elements| ==> elements[k] == SectionAt(sections, k)
  }

  lemma SectionsSoFarSnoc(sections: seq<string>, elements: seq<Element>)
    requires SectionsSoFar(sections, elements) && 2 * |elements| + 1 < |sections|
    ensures SectionsSoFar(sections, elements + [SectionAt(sections, |elements|)])
  {
    var next := elements + [SectionAt(sections, |elements|)];
    forall k | 0 <= k < |next| ensures next[k] == SectionAt(sections, k) {
      if k < |elements| {
        assert next[k] == elements[k];
      }
    }
  }

  lemma SectionsSoFarDone(sections: seq<string>, elements: seq<Element>)
    requires SectionsSoFar(sections, elements) && |sections| <= 2 * |elements| + 1
    ensures elements == Sections(sections)
  {
    Half(|sections|, |elements|);
  }

  /** The loop over the split: every odd index opens one section record. */
  method CollectSections(sections: seq<string>) returns (elements: seq<Element>)
    ensures elements == Sections(sections)
  {
    elements := [];
    var i := 1;
    while i < |sections|
      invariant i == 2 * |elements| + 1
      invariant SectionsSoFar(sections, elements)
    {
      SectionsSoFarSnoc(sections, elements);
      elements := elements + [SectionAt(sections, |elements|)];
      i := i + 2;
    }
    SectionsSoFarDone(sections, elements);
  }

  method ExtractTextElements(content: string, contentType: string, p: Parsers) returns (elements: seq<Element>)
    ensures elements == TextElements(content, contentType, p)
  {
    if contentType == "markdown" {
      elements := CollectSections(SplitSections(p, content));
      if elements == [] {
        elements := [DocumentElement(content)];
      }
    } else {
      elements := [ContentElement(content, contentType)];
    }
  }

  /** Markdown is never empty: no heading gives the single document record, and otherwise every record is a section. */
  lemma MarkdownNeverEmpty(content: string, parts: seq<string>)
    ensures var r := MarkdownElements(content, parts);
      && |r| >= 1
      && (|parts| < 2 <==> r == [DocumentElement(content)])
  {
    var r := MarkdownElements(content, parts);
    if |parts| >= 2 {
      assert r[0] == SectionElement(parts, 1);
      assert r[0].kind == Some("Section");
    }
  }

  /** With headings, one section per heading in order, named by the heading without its marks and starting with it. */
  lemma MarkdownSections(content: string, parts: seq<string>)
    requires |parts| >= 2
    ensures var r := MarkdownElements(content, parts);
      && |r| == |parts| / 2
      && forall k :: 0 <= k < |r| ==>
           && r[k].name == Some(Strip(StripChars(parts[2 * k + 1], {'#', ' '})))
           && StartsWith(r[k].source.value, parts[2 * k + 1])
  {
    var r := MarkdownElements(content, parts);
    assert r == Sections(parts);
    forall k | 0 <= k < |r|
      ensures StartsWith(r[k].source.value, parts[2 * k + 1])
    {
      var h := parts[2 * k + 1];
      assert r[k] == SectionElement(parts, 2 * k + 1);
      assert r[k].source.value[..|h|] == h;
    }
  }

  /** Pairs each heading with the body after it, from the front: `[h1 + "\n" + b1, h2 + "\n" + b2, ...]`. */
  function PairUp(q: seq<string>): seq<string>
    decreases |q|
  {
    if |q| == 0 then []
    else if |q| == 1 then [q[0]]
    else [q[0] + "\n" + q[1]] + PairUp(q[2..])
  }

  lemma {:induction false} PairUpAt(q: seq<string>)
    ensures |PairUp(q)| == (|q| + 1) / 2
    ensures forall k :: 0 <= k < (|q| + 1) / 2 ==>
      PairUp(q)[k] == q[2 * k] + (if 2 * k + 1 < |q| then "\n" + q[2 * k + 1] else "")
    decreases |q|
  {
    if |q| >= 2 {
      PairUpAt(q[2..]);
      var r := PairUp(q);
      forall k | 1 <= k < (|q| + 1) / 2
        ensures r[k] == q[2 * k] + (if 2 * k + 1 < |q| then "\n" + q[2 * k + 1] else "")
      {
        assert r[k] == PairUp(q[2..])[k - 1];
        assert q[2..][2 * (k - 1)] == q[2 * k];
        if 2 * k + 1 < |q| {
          assert q[2..][2 * (k - 1) + 1] == q[2 * k + 1];
        }
      }
    }
  }

  lemma {:induction false} JoinPairUp(q: seq<string>)
    ensures Join("\n", PairUp(q)) == Join("\n", q)
    decreases |q|
  {
    if |q| >= 2 {
      JoinPairUp(q[2..]);
      if |q| == 2 {
        assert q[1..] == [q[1]];
      } else {
        assert q[1..][1..] == q[2..];
        assert PairUp(q)[1..] == PairUp(q[2..]);
        PairUpAt(q[2..]);
      }
    }
  }

  /**
   * The split loses nothing: the text before the first heading, followed by
   * the sources of the sections, joined by newlines, is the split joined by
   * newlines, which is the text itself when the split cut it at newlines
   * around each heading.
   */
  lemma SectionsCoverText(parts: seq<string>)
    requires |parts| >= 1
    ensures var s := Sections(parts);
      Join("\n", [parts[0]] + seq(|s|, k requires 0 <= k < |s| => s[k].source.value)) == Join("\n", parts)
  {
    var s := Sections(parts);
    var q := parts[1..];
    var sources := seq(|s|, k requires 0 <= k < |s| => s[k].source.value);
    PairUpAt(q);
    assert sources == PairUp(q);
    JoinPairUp(q);
    if |q| == 0 {
      assert [parts[0]] + sources == parts;
    } else {
      assert ([parts[0]] + sources)[1..] == sources;
      assert parts[1..] == q;
    }
  }

  // ---------------------------------------------------------------- dispatch

  /**
   * The extractor `analyze_file` applies: Python code to the parser, other
   * code to the line scanner with its language, data files to the data
   * extractor, and everything else to the text extractor with its category.
   */
  function FileElements(content: string, ft: FileType, p: Parsers): seq<Element>
  {
    match ft.category
    case Code =>
      if ft.subType == "python" then PythonElements(content, ParsePython(p, content))
      else LineScanner.GenericElements(content, ft.subType, p.search)
    case Data => DataElements(content, ft.subType, p)
    case _ => TextElements(content, ft.category.Name(), p)
  }

  /** The dispatch as a method, running the scanner and the text loop. */
  method ExtractFileElements(content: string, ft: FileType, p: Parsers) returns (elements: seq<Element>)
    ensures elements == FileElements(content, ft, p)
  {
    match ft.category
    case Code =>
      if ft.subType == "python" {
        elements := PythonElements(content, ParsePython(p, content));
      } else {
        elements := LineScanner.ExtractGenericCodeElements(content, ft.subType, p.search);
      }
    case Data =>
      elements := DataElements(content, ft.subType, p);
    case _ =>
      elements := ExtractTextElements(content, ft.category.Name(), p);
  }

  lemma CapitalizeDocument()
    ensures Capitalize("document") == "Document"
  {
    assert "document"[1..] == "ocument";
    assert Lower("ocument") == "ocument";
  }

  lemma DocumentContent(content: string, ft: FileType, p: Parsers)
    requires ft.category == Document
    ensures FileElements(content, ft, p) == [Record("Content", "content", "Document content", Preview(content), "document")]
  {
    assert FileElements(content, ft, p) == [ContentElement(content, "document")];
    CapitalizeDocument();
    assert "Document" + " content" == "Document content";
  }

  /**
   * The text extractor is called with the category, never with the label:
   * every document file, markdown included, becomes the one record
   * `Document content`, and the section split is never used.
   */
  lemma DocumentsAreOneContentRecord(path: Path, content: string, p: Parsers)
    requires DetectFileType(path).category == Document
    ensures FileElements(content, DetectFileType(path), p) ==
      [Record("Content", "content", "Document content", Preview(content), "document")]
  {
    DocumentContent(content, DetectFileType(path), p);
  }

  /** Only Python code can give no record at all: a module that parses and has no top-level definition. */
  lemma OnlyPythonCanBeEmpty(content: string, ft: FileType, p: Parsers)
    ensures FileElements(content, ft, p) == [] ==>
      && ft == FileType(Code, "python")
      && ParsePython(p, content).Success?
      && Definitions(ParsePython(p, content).value) == []
  {
  }

  /**
   * The section split is unreachable from the dispatch: no file, whatever its
   * name and text, yields a `Section` record.
   */
  lemma NoSectionRecords(path: Path, content: string, p: Parsers)
    ensures forall e :: e in FileElements(content, DetectFileType(path), p) ==> e.kind != Some("Section")
  {
    NoSectionFor(content, DetectFileType(path), p);
  }

  lemma NoSectionFor(content: string, ft: FileType, p: Parsers)
    ensures forall e :: e in FileElements(content, ft, p) ==> e.kind != Some("Section")
  {
    var r := FileElements(content, ft, p);
    if ft.category == Code && ft.subType == "python" {
      NoSectionInPython(content, ParsePython(p, content));
    } else if ft.category == Code {
      LineScanner.GenericKinds(content, ft.subType, p.search);
    } else if ft.category == Data {
      NoSectionInData(content, ft.subType, p);
    } else {
      assert r == [ContentElement(content, ft.category.Name())];
    }
  }

  lemma NoSectionInPython(code: string, parsed: Result<seq<Node>, string>)
    ensures forall e :: e in PythonElements(code, parsed) ==> e.kind != Some("Section")
  {
    var r := PythonElements(code, parsed);
    PythonElementsSpec(code, parsed);
    forall e | e in r ensures e.kind != Some("Section") {
      var j :| 0 <= j < |r| && r[j] == e;
    }
  }

  lemma NoSectionInData(content: string, dataType: string, p: Parsers)
    ensures forall e :: e in DataElements(content, dataType, p) ==> e.kind != Some("Section")
  {
    var r := DataElements(content, dataType, p);
    assert |r| == 1 && (r[0].kind == Some("Data") || r[0].kind == Some("Content"));
  }
}
