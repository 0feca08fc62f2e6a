/**
 * src/action.py: the repository action. Every `.py` file is parsed into
 * element records, each record is stamped with its file, the records of all
 * files are gathered in file order, and the prompt built from them is sent
 * to the chat model.
 *
 * Reading a file and extracting its elements (`read_file_safely` and
 * `extract_elements`, neither of which is part of this model) are one
 * parameter `Loader`: given a path it returns the records, or fails with the
 * text of the exception. The file search is the list of paths it returned;
 * the chat call is a parameter as well.
 */
module RepositoryAction {
  import opened Wrappers
  import opened Text
  import opened CodeElement
  import opened Pieces
  import opened Results
  import Prompts

  type Loader = string -> Result<seq<Element>, string>

  type Chat = string -> Result<string, string>

  function Load(load: Loader, path: string): Result<seq<Element>, string>
  {
    load(path)
  }

  function Send(chat: Chat, prompt: string): Result<string, string>
  {
    chat(prompt)
  }

  // ---------------------------------------------------------------- parse_python_file

  /** Every record stamped with `'file' = path`. */
  function Annotate(els: seq<Element>, path: string): seq<Element>
  {
    seq(|els|, i requires 0 <= i < |els| => els[i].(file := Some(path)))
  }

  /** The records of one file: stamped with the path, or none at all when reading or extracting raised. */
  function Parsed(path: string, loaded: Result<seq<Element>, string>): seq<Element>
  {
    match loaded
    case Failure(_) => []
    case Success(els) => Annotate(els, path)
  }

  /**
   * Stamping keeps the records and their order, sets the file of each to the
   * path, and changes nothing else.
   */
  lemma AnnotateSpec(els: seq<Element>, path: string)
    ensures var r := Annotate(els, path);
      && |r| == |els|
      && forall i :: 0 <= i < |els| ==> r[i].file == Some(path) && r[i].(file := els[i].file) == els[i]
  {
  }

  /** Every record of a parsed file names that file. */
  lemma ParsedFiles(path: string, loaded: Result<seq<Element>, string>)
    ensures forall e :: e in Parsed(path, loaded) ==> e.file == Some(path)
    ensures loaded.Failure? ==> Parsed(path, loaded) == []
    ensures loaded.Success? ==> |Parsed(path, loaded)| == |loaded.value|
  {
  }

  /** The loop of `parse_python_file` over the extracted records, given the outcome of reading and extracting. */
  method ParsePythonFile(path: string, loaded: Result<seq<Element>, string>) returns (r: seq<Element>)
    ensures r == Parsed(path, loaded)
  {
    if loaded.Failure? {
      return [];
    }
    var els := loaded.value;
    var i := 0;
    while i < |els|
      invariant 0 <= i <= |els| && |els| == |loaded.value|
      invariant forall j :: 0 <= j < i ==> els[j] == loaded.value[j].(file := Some(path))
      invariant forall j :: i <= j < |els| ==> els[j] == loaded.value[j]
    {
      els := els[i := els[i].(file := Some(path))];
      i := i + 1;
    }
    r := els;
  }

  // ---------------------------------------------------------------- format_element

  /** The five values `format_element` reads with subscripts. */
  datatype Header = Header(file: string, kind: string, name: string, start: int, end: int)

  /** The subscripts in the order they run: file, type, name, start_line, end_line. */
  function HeaderOf(el: Element): Result<Header, string>
  {
    var file :- Lookup(el.file, "file");
    var kind :- Lookup(el.kind, "type");
    var name :- Lookup(el.name, "name");
    var start :- Lookup(el.startLine, "start_line");
    var end :- Lookup(el.endLine, "end_line");
    Success(Header(file, kind, name, start, end))
  }

  /**
   * Formatting fails exactly when one of the five keys is absent; the file is
   * read first, so a record that has it never fails on it.
   */
  lemma HeaderOfSpec(el: Element)
    ensures HeaderOf(el).Failure? <==>
      el.file.None? || el.kind.None? || el.name.None? || el.startLine.None? || el.endLine.None?
    ensures el.file.None? ==> HeaderOf(el) == Failure("file")
    ensures el.file.Some? && HeaderOf(el).Failure? ==> HeaderOf(el).error in ["type", "name", "start_line", "end_line"]
    ensures HeaderOf(el).Success? ==>
      var h := HeaderOf(el).value;
      Some(h.file) == el.file && Some(h.kind) == el.kind && Some(h.name) == el.name
      && Some(h.start) == el.startLine && Some(h.end) == el.endLine
  {
  }

  function FileText(file: string): string
  {
    "File: " + file
  }

  function HeadingText(kind: string, name: string): string
  {
    kind + " '" + name + "':"
  }

  function LocationText(start: int, end: int): string
  {
    "Location: Lines " + IntToString(start) + "-" + IntToString(end)
  }

  /** `el.get('docstring', 'No documentation')`: the default only when the key is absent. */
  function DocumentationText(docstring: Option<string>): string
  {
    "Documentation: " + docstring.GetOr("No documentation")
  }

  function ArgumentsText(args: Args): string
  {
    "Arguments: " + (if args.ArgList? then Join(", ", args.names) else "")
  }

  const ReturnsText: string := "Returns: Yes"

  function CodeText(source: string): string
  {
    "Code:\n" + source
  }

  /** The shape of the parts: four fixed ones, then three optional ones. */
  function Layout(file: string, heading: string, location: string, doc: string, args: Option<string>, ret: Option<string>, code: Option<string>): seq<Piece>
  {
    [Piece(FileLine, file), Piece(Heading, heading), Piece(Location, location), Piece(Documentation, doc)]
    + Optional(args.Some?, Arguments, args.GetOr(""))
    + Optional(ret.Some?, Returns, ret.GetOr(""))
    + Optional(code.Some?, Code, code.GetOr(""))
  }

  lemma LayoutRoles(file: string, heading: string, location: string, doc: string, args: Option<string>, ret: Option<string>, code: Option<string>)
    ensures var ps := Layout(file, heading, location, doc, args, ret, code);
      && InRoleOrder(ps)
      && Roles(ps) == [FileLine, Heading, Location, Documentation]
        + (if args.Some? then [Arguments] else [])
        + (if ret.Some? then [Returns] else [])
        + (if code.Some? then [Code] else [])
  {
    var h := [Piece(FileLine, file), Piece(Heading, heading), Piece(Location, location), Piece(Documentation, doc)];
    assert Roles(h) == [FileLine, Heading, Location, Documentation];
    AppendOptional(h, args.Some?, Arguments, args.GetOr(""));
    var ha := h + Optional(args.Some?, Arguments, args.GetOr(""));
    AppendOptional(ha, ret.Some?, Returns, ret.GetOr(""));
    var har := ha + Optional(ret.Some?, Returns, ret.GetOr(""));
    AppendOptional(har, code.Some?, Code, code.GetOr(""));
  }

  /**
   * The parts open with the file, heading, location and documentation parts,
   * hold each optional part exactly when it is given, each role at most once
   * and in that order.
   */
  lemma LayoutSpec(file: string, heading: string, location: string, doc: string, args: Option<string>, ret: Option<string>, code: Option<string>)
    ensures var ps := Layout(file, heading, location, doc, args, ret, code);
      && |ps| >= 4
      && ps[0] == Piece(FileLine, file) && ps[1] == Piece(Heading, heading)
      && ps[2] == Piece(Location, location) && ps[3] == Piece(Documentation, doc)
      && (Arguments in Roles(ps) <==> args.Some?)
      && (Returns in Roles(ps) <==> ret.Some?)
      && (Code in Roles(ps) <==> code.Some?)
      && InRoleOrder(ps)
  {
    LayoutRoles(file, heading, location, doc, args, ret, code);
    var h := [Piece(FileLine, file), Piece(Heading, heading), Piece(Location, location), Piece(Documentation, doc)];
    var tail := Optional(args.Some?, Arguments, args.GetOr("")) + Optional(ret.Some?, Returns, ret.GetOr(""))
      + Optional(code.Some?, Code, code.GetOr(""));
    assert Layout(file, heading, location, doc, args, ret, code) == h + tail;
  }

  /** The parts of one element, once its five subscripts have succeeded. */
  function ElementParts(h: Header, el: Element): seq<Piece>
  {
    Layout(
      FileText(h.file), HeadingText(h.kind, h.name), LocationText(h.start, h.end), DocumentationText(el.docstring),
      When(HasArgs(el.args), ArgumentsText(el.args.GetOr(NoArgs))),
      When(IsSet(el.hasReturn) && h.kind != "Class", ReturnsText),
      When(IsTruthy(el.source), CodeText(el.source.GetOr(""))))
  }

  /**
   * An element's parts: its file, its heading, its location and its
   * documentation, then the arguments exactly when the list is non-empty,
   * the returns line exactly when `has_return` is set and the type is not
   * `'Class'`, and the code exactly when the source is non-empty, in that order.
   */
  lemma ElementPartsSpec(h: Header, el: Element)
    ensures var ps := ElementParts(h, el);
      && |ps| >= 4
      && ps[0] == Piece(FileLine, FileText(h.file)) && ps[1] == Piece(Heading, HeadingText(h.kind, h.name))
      && ps[2] == Piece(Location, LocationText(h.start, h.end)) && ps[3] == Piece(Documentation, DocumentationText(el.docstring))
      && (Arguments in Roles(ps) <==> HasArgs(el.args))
      && (Returns in Roles(ps) <==> IsSet(el.hasReturn) && h.kind != "Class")
      && (Code in Roles(ps) <==> IsTruthy(el.source))
      && InRoleOrder(ps)
  {
    LayoutSpec(
      FileText(h.file), HeadingText(h.kind, h.name), LocationText(h.start, h.end), DocumentationText(el.docstring),
      When(HasArgs(el.args), ArgumentsText(el.args.GetOr(NoArgs))),
      When(IsSet(el.hasReturn) && h.kind != "Class", ReturnsText),
      When(IsTruthy(el.source), CodeText(el.source.GetOr(""))));
  }

  /** The text of one element, or the key whose absence raised. */
  function ElementText(el: Element): Result<string, string>
  {
    var h :- HeaderOf(el);
    Success(Join("\n", Texts(ElementParts(h, el))))
  }

  /** `format_element`: the list of parts built with conditional appends, then joined by newlines. */
  method FormatElement(el: Element) returns (r: Result<string, string>)
    ensures r == ElementText(el)
  {
    var file :- Lookup(el.file, "file");
    var kind :- Lookup(el.kind, "type");
    var name :- Lookup(el.name, "name");
    var start :- Lookup(el.startLine, "start_line");
    var end :- Lookup(el.endLine, "end_line");
    var h := Header(file, kind, name, start, end);
    assert HeaderOf(el) == Success(h);
    var parts := [FileText(file), HeadingText(kind, name), LocationText(start, end), DocumentationText(el.docstring)];
    ghost var pieces := [Piece(FileLine, parts[0]), Piece(Heading, parts[1]), Piece(Location, parts[2]), Piece(Documentation, parts[3])];
    assert parts == Texts(pieces);
    var withArgs := HasArgs(el.args);
    if withArgs {
      parts := parts + [ArgumentsText(el.args.GetOr(NoArgs))];
    }
    TextsOptional(pieces, withArgs, Arguments, ArgumentsText(el.args.GetOr(NoArgs)));
    pieces := pieces + Optional(withArgs, Arguments, ArgumentsText(el.args.GetOr(NoArgs)));
    var withReturn := IsSet(el.hasReturn) && kind != "Class";
    if withReturn {
      parts := parts + [ReturnsText];
    }
    TextsOptional(pieces, withReturn, Returns, ReturnsText);
    pieces := pieces + Optional(withReturn, Returns, ReturnsText);
    var withCode := IsTruthy(el.source);
    if withCode {
      parts := parts + [CodeText(el.source.GetOr(""))];
    }
    TextsOptional(pieces, withCode, Code, CodeText(el.source.GetOr("")));
    pieces := pieces + Optional(withCode, Code, CodeText(el.source.GetOr("")));
    assert pieces == ElementParts(h, el);
    assert parts == Texts(pieces);
    return Success(Join("\n", parts));
  }

  // ---------------------------------------------------------------- build_prompt

  /** The element texts joined by blank lines, in input order; the first failing element stops it. */
  function Listing(elements: seq<Element>): Result<string, string>
  {
    var texts :- Collect(elements, ElementText);
    Success(Join("\n\n", texts))
  }

  /** `build_prompt`: the listing inside the action's fixed prompt. */
  function BuildPrompt(elements: seq<Element>): Result<string, string>
  {
    var combined :- Listing(elements);
    Success(Prompts.SystemPrompt(Prompts.ActionOpening, combined))
  }

  /** The listing is built exactly when every element has the five keys formatting reads. */
  lemma ListingSucceeds(elements: seq<Element>)
    ensures Listing(elements).Success? <==> forall e :: e in elements ==> HeaderOf(e).Success?
  {
    CollectSucceedsIff(elements, ElementText);
    assert (forall i :: 0 <= i < |elements| ==> ElementText(elements[i]).Success?)
      <==> (forall e :: e in elements ==> HeaderOf(e).Success?);
  }

  /** A built listing holds one text per element, each the element's own, in input order, joined by blank lines. */
  lemma ListingParts(elements: seq<Element>)
    requires Listing(elements).Success?
    ensures var texts := Collect(elements, ElementText).value;
      && |texts| == |elements|
      && (forall i :: 0 <= i < |elements| ==> Success(texts[i]) == ElementText(elements[i]))
      && Listing(elements).value == Join("\n\n", texts)
  {
    CollectParts(elements, ElementText);
  }

  /** A failing listing raises the key error of the first element that lacks a key. */
  lemma ListingFails(elements: seq<Element>)
    requires Listing(elements).Failure?
    ensures exists k :: (0 <= k < |elements| && HeaderOf(elements[k]).Failure?
      && Listing(elements).error == HeaderOf(elements[k]).error
      && forall i :: 0 <= i < k ==> HeaderOf(elements[i]).Success?)
  {
    CollectFirstFailure(elements, ElementText);
  }

  /** The prompt is built exactly when the listing is; otherwise it raises the listing's error. */
  lemma BuildPromptFails(elements: seq<Element>)
    ensures BuildPrompt(elements).Failure? <==> Listing(elements).Failure?
    ensures BuildPrompt(elements).Failure? ==> BuildPrompt(elements).error == Listing(elements).error
  {
  }

  /** The listing can be read back from the prompt: two prompts are equal only for equal listings. */
  lemma BuildPromptInjective(a: seq<Element>, b: seq<Element>)
    requires BuildPrompt(a).Success? && BuildPrompt(a) == BuildPrompt(b)
    ensures Listing(a) == Listing(b)
  {
    Prompts.SystemPromptInjective(Prompts.ActionOpening, Listing(a).value, Listing(b).value);
  }

  // ---------------------------------------------------------------- analyze_repository

  /** The records of the files, in file order: what `all_elements` holds after the loop. */
  function Gathered(files: seq<string>, load: Loader): seq<Element>
  {
    if files == [] then []
    else Gathered(files[..|files| - 1], load) + Parsed(files[|files| - 1], Load(load, files[|files| - 1]))
  }

  /** The records of each file, in file order. */
  function PerFile(files: seq<string>, load: Loader): (r: seq<seq<Element>>)
    ensures |r| == |files|
    ensures forall i :: 0 <= i < |files| ==> r[i] == Parsed(files[i], Load(load, files[i]))
  {
    seq(|files|, i requires 0 <= i < |files| => Parsed(files[i], Load(load, files[i])))
  }

  /** `all_elements` is the concatenation of the per-file results in file order. */
  lemma {:induction false} GatheredSpec(files: seq<string>, load: Loader)
    ensures Gathered(files, load) == Concat(PerFile(files, load))
  {
    if files != [] {
      var n := |files| - 1;
      GatheredSpec(files[..n], load);
      var last := Parsed(files[n], Load(load, files[n]));
      assert PerFile(files, load) == PerFile(files[..n], load) + [last];
      ConcatAppend(PerFile(files[..n], load), [last]);
      assert Concat([last]) == last + Concat<Element>([]);
    }
  }

  /** Every gathered record names one of the files. */
  lemma {:induction false} GatheredFiles(files: seq<string>, load: Loader)
    ensures forall e :: e in Gathered(files, load) ==> e.file.Some? && e.file.value in files
  {
    if files != [] {
      var n := |files| - 1;
      GatheredFiles(files[..n], load);
      ParsedFiles(files[n], Load(load, files[n]));
      forall e | e in Gathered(files, load)
        ensures e.file.Some? && e.file.value in files
      {
        if e in Gathered(files[..n], load) {
          assert e.file.value in files[..n];
        }
      }
    }
  }

  /** How a run ends. */
  datatype Outcome =
    | NoFiles                          // "No Python files found!"
    | NoElements                       // "No code elements found to analyze."
    | PromptKeyError(key: string)      // the `KeyError` of `build_prompt`, which nothing catches
    | AnalysisFailed(message: string)  // the `RuntimeError` of `run_ollama_analysis`, logged
    | Reported(explanation: string)    // the report is printed

  /** The message of the `RuntimeError` a failed chat call becomes. */
  function AnalysisError(e: string): string
  {
    "Failed to generate analysis: " + e
  }

  function RunOutcome(files: seq<string>, load: Loader, chat: Chat): Outcome
  {
    if files == [] then NoFiles
    else
      var all := Gathered(files, load);
      if all == [] then NoElements
      else
        match BuildPrompt(all)
        case Failure(key) => PromptKeyError(key)
        case Success(prompt) =>
          match Send(chat, prompt)
          case Failure(e) => AnalysisFailed(AnalysisError(e))
          case Success(explanation) => Reported(explanation)
  }

  /** The prompt handed to the chat model, if the run gets that far. */
  function PromptSent(files: seq<string>, load: Loader): Option<string>
  {
    if files == [] || Gathered(files, load) == [] then None
    else
      match BuildPrompt(Gathered(files, load))
      case Failure(_) => None
      case Success(prompt) => Some(prompt)
  }

  /**
   * The model is contacted exactly when there are files, they yield records,
   * and the prompt can be built from them; it is then sent that prompt.
   */
  lemma PromptSentSpec(files: seq<string>, load: Loader)
    ensures PromptSent(files, load).Some? <==>
      files != [] && Gathered(files, load) != [] && BuildPrompt(Gathered(files, load)).Success?
    ensures PromptSent(files, load).Some? ==> PromptSent(files, load).value == BuildPrompt(Gathered(files, load)).value
  {
  }

  /** Every gathered record carries its file, so listing them never stops on `'file'`. */
  lemma ListingNeverMissesFile(files: seq<string>, load: Loader)
    ensures Listing(Gathered(files, load)).Failure? ==> Listing(Gathered(files, load)).error != "file"
  {
    var all := Gathered(files, load);
    if Listing(all).Failure? {
      ListingFails(all);
      var k :| 0 <= k < |all| && HeaderOf(all[k]).Failure? && Listing(all).error == HeaderOf(all[k]).error;
      GatheredFiles(files, load);
      assert all[k] in all;
      HeaderOfSpec(all[k]);
    }
  }

  /** A run that stops on a key error never stops on `'file'`. */
  lemma NeverMissesFile(files: seq<string>, load: Loader, chat: Chat)
    ensures !RunOutcome(files, load, chat).PromptKeyError? || RunOutcome(files, load, chat).key != "file"
  {
    ListingNeverMissesFile(files, load);
    BuildPromptFails(Gathered(files, load));
  }

  /** One turn of the loop: the file's records, extended onto `all_elements` when there are any. */
  method GatherFile(files: seq<string>, load: Loader, i: nat, all: seq<Element>) returns (next: seq<Element>)
    requires i < |files| && all == Gathered(files[..i], load)
    ensures next == Gathered(files[..i + 1], load)
  {
    var elements := ParsePythonFile(files[i], Load(load, files[i]));
    next := all;
    if elements != [] {
      next := next + elements;
    }
    assert files[..i + 1][..i] == files[..i];
  }

  /**
   * `analyze_repository`, given the files found: the outcome of the run and
   * the prompt sent to the model, if any.
   */
  method AnalyzeRepository(files: seq<string>, load: Loader, chat: Chat) returns (outcome: Outcome, sent: Option<string>)
    ensures outcome == RunOutcome(files, load, chat)
    ensures sent == PromptSent(files, load)
  {
    if files == [] {
      return NoFiles, None;
    }
    var all: seq<Element> := [];
    var i := 0;
    while i < |files|
      invariant 0 <= i <= |files|
      invariant all == Gathered(files[..i], load)
    {
      all := GatherFile(files, load, i, all);
      i := i + 1;
    }
    assert files[..i] == files;
    if all == [] {
      return NoElements, None;
    }
    var built := BuildPrompt(all);
    if built.Failure? {
      return PromptKeyError(built.error), None;
    }
    sent := Some(built.value);
    var reply := Send(chat, built.value);
    if reply.Failure? {
      outcome := AnalysisFailed(AnalysisError(reply.error));
    } else {
      outcome := Reported(reply.value);
    }
  }
}
