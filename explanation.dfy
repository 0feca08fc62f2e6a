/**
 * `generate_explanation`, of which src/code_analyzer_ai/llm_integration.py and
 * src/code_explainer/llm_integration.py hold the same text: the elements are
 * grouped by file, each file becomes a section of element sections, and the
 * sections are placed inside the fixed prompt sent to the chat model.
 *
 * The chat call is a parameter `Chat`: given the prompt it returns the
 * reply's content, or fails with the text of the exception. A `Failure`
 * result of `generate_explanation` stands for the `RuntimeError` it raises.
 */
module Explanation {
  import opened Wrappers
  import opened Text
  import opened CodeElement
  import opened Pieces
  import opened Grouping
  import opened Results
  import Prompts

  type Chat = string -> Result<string, string>

  function Send(chat: Chat, prompt: string): Result<string, string>
  {
    chat(prompt)
  }

  const NothingToAnalyze: string := "No code elements to analyze."

  /** The message of the `RuntimeError` every failure is turned into. */
  function ErrorText(e: string): string
  {
    "Error generating explanation: " + e
  }

  /** `el.get('file', 'main.py')`: the group an element goes to. */
  function FileOf(el: Element): string
  {
    el.file.GetOr("main.py")
  }

  // ---------------------------------------------------------------- one element

  /**
   * The subscripts of one element section in the order they run: type,
   * name, the two lines, docstring, args, then `has_return` only for a type
   * other than `'Class'`, then source. The first absent key is the error.
   */
  function FieldsOf(el: Element): Result<Fields, string>
  {
    var kind :- Lookup(el.kind, "type");
    var name :- Lookup(el.name, "name");
    var start :- Lookup(el.startLine, "start_line");
    var end :- Lookup(el.endLine, "end_line");
    var doc :- Lookup(el.docstring, "docstring");
    var args :- Lookup(el.args, "args");
    var withReturn :- if kind != "Class" then Lookup(el.hasReturn, "has_return") else Success(false);
    var source :- Lookup(el.source, "source");
    Success(Fields(kind, name, start, end, doc, args, withReturn, source))
  }

  /** An element section fails exactly when a key it reads is absent. */
  lemma FieldsOfSpec(el: Element)
    ensures FieldsOf(el).Failure? <==>
      || el.kind.None? || el.name.None? || el.startLine.None? || el.endLine.None?
      || el.docstring.None? || el.args.None?
      || (el.kind.Some? && el.kind.value != "Class" && el.hasReturn.None?)
      || el.source.None?
    ensures FieldsOf(el).Success? ==>
      var f := FieldsOf(el).value;
      && Some(f.kind) == el.kind && Some(f.name) == el.name && Some(f.source) == el.source
      && Some(f.start) == el.startLine && Some(f.end) == el.endLine
      && Some(f.docstring) == el.docstring && Some(f.args) == el.args
      && (f.withReturn <==> f.kind != "Class" && IsSet(el.hasReturn))
  {
  }

  function HeadingLine(kind: string, name: string): string
  {
    "## " + kind + " '" + name + "'\n"
  }

  function LocationLine(start: int, end: int): string
  {
    "Location: Lines " + IntToString(start) + "-" + IntToString(end) + "\n"
  }

  function DocumentationLine(docstring: string): string
  {
    "Documentation: " + docstring + "\n"
  }

  function ArgumentsLine(args: Args): string
  {
    "Arguments: " + (if args.ArgList? then Join(", ", args.names) else "") + "\n"
  }

  const ReturnsLine: string := "Returns: Yes\n"

  function CodeText(source: string): string
  {
    "Code:\n```python\n" + source + "\n```\n\n"
  }

  /** The shape of an element section: heading, location, three optional lines, the code. */
  function Layout(heading: string, location: string, doc: Option<string>, args: Option<string>, ret: Option<string>, code: string): seq<Piece>
  {
    [Piece(Heading, heading), Piece(Location, location)]
    + Optional(doc.Some?, Documentation, doc.GetOr(""))
    + Optional(args.Some?, Arguments, args.GetOr(""))
    + Optional(ret.Some?, Returns, ret.GetOr(""))
    + [Piece(Code, code)]
  }

  lemma LayoutRoles(heading: string, location: string, doc: Option<string>, args: Option<string>, ret: Option<string>, code: string)
    ensures var ps := Layout(heading, location, doc, args, ret, code);
      && InRoleOrder(ps)
      && Roles(ps) == [Heading, Location]
        + (if doc.Some? then [Documentation] else [])
        + (if args.Some? then [Arguments] else [])
        + (if ret.Some? then [Returns] else [])
        + [Code]
  {
    var h := [Piece(Heading, heading), Piece(Location, location)];
    assert Roles(h) == [Heading, Location];
    AppendOptional(h, doc.Some?, Documentation, doc.GetOr(""));
    var hd := h + Optional(doc.Some?, Documentation, doc.GetOr(""));
    AppendOptional(hd, args.Some?, Arguments, args.GetOr(""));
    var hda := hd + Optional(args.Some?, Arguments, args.GetOr(""));
    AppendOptional(hda, ret.Some?, Returns, ret.GetOr(""));
    var hdar := hda + Optional(ret.Some?, Returns, ret.GetOr(""));
    AppendOptional(hdar, true, Code, code);
    assert Layout(heading, location, doc, args, ret, code) == hdar + Optional(true, Code, code);
  }

  /**
   * A section opens with the heading and the location, holds each optional
   * line exactly when it is given, and ends with the code; each role at most
   * once, in that order.
   */
  lemma LayoutSpec(heading: string, location: string, doc: Option<string>, args: Option<string>, ret: Option<string>, code: string)
    ensures var ps := Layout(heading, location, doc, args, ret, code);
      && |ps| >= 3
      && ps[0].role == Heading && ps[1].role == Location
      && ps[|ps| - 1] == Piece(Code, code)
      && (Documentation in Roles(ps) <==> doc.Some?)
      && (Arguments in Roles(ps) <==> args.Some?)
      && (Returns in Roles(ps) <==> ret.Some?)
      && InRoleOrder(ps)
  {
    LayoutRoles(heading, location, doc, args, ret, code);
    var ps := Layout(heading, location, doc, args, ret, code);
    var rs := Roles(ps);
    assert rs[0] == Heading && rs[1] == Location;
  }

  /** The text of pieces placed one after the other. */
  lemma ConcatTextsAppend(ps: seq<Piece>, qs: seq<Piece>)
    ensures Concat(Texts(ps + qs)) == Concat(Texts(ps)) + Concat(Texts(qs))
  {
    assert Texts(ps + qs) == Texts(ps) + Texts(qs);
    ConcatAppend(Texts(ps), Texts(qs));
  }

  /** An optional piece contributes its text when present and nothing otherwise. */
  lemma ConcatTextsOptional(present: bool, role: Role, text: string)
    ensures Concat(Texts(Optional(present, role, text))) == if present then text else ""
  {
    if present {
      assert Texts(Optional(present, role, text)) == [text];
      assert Concat([text]) == text + Concat([]);
    }
  }

  /** The text of a section is its lines in order, the absent ones contributing nothing. */
  lemma LayoutText(heading: string, location: string, doc: Option<string>, args: Option<string>, ret: Option<string>, code: string)
    ensures Concat(Texts(Layout(heading, location, doc, args, ret, code))) ==
      heading + location + doc.GetOr("") + args.GetOr("") + ret.GetOr("") + code
  {
    var h := [Piece(Heading, heading), Piece(Location, location)];
    var pd := Optional(doc.Some?, Documentation, doc.GetOr(""));
    var pa := Optional(args.Some?, Arguments, args.GetOr(""));
    var pr := Optional(ret.Some?, Returns, ret.GetOr(""));
    var pc := Optional(true, Code, code);
    assert Layout(heading, location, doc, args, ret, code) == h + pd + pa + pr + pc;
    ConcatTextsAppend(h + pd + pa + pr, pc);
    ConcatTextsAppend(h + pd + pa, pr);
    ConcatTextsAppend(h + pd, pa);
    ConcatTextsAppend(h, pd);
    ConcatTextsAppend([Piece(Heading, heading)], [Piece(Location, location)]);
    assert h == [Piece(Heading, heading)] + [Piece(Location, location)];
    ConcatTextsOptional(true, Heading, heading);
    ConcatTextsOptional(true, Location, location);
    ConcatTextsOptional(doc.Some?, Documentation, doc.GetOr(""));
    ConcatTextsOptional(args.Some?, Arguments, args.GetOr(""));
    ConcatTextsOptional(ret.Some?, Returns, ret.GetOr(""));
    ConcatTextsOptional(true, Code, code);
  }

  /** The pieces of one element section. */
  function SectionPieces(f: Fields): seq<Piece>
  {
    Layout(
      HeadingLine(f.kind, f.name), LocationLine(f.start, f.end),
      When(f.docstring != "", DocumentationLine(f.docstring)),
      When(Listed(f.args), ArgumentsLine(f.args)),
      When(f.withReturn, ReturnsLine),
      CodeText(f.source))
  }

  /**
   * A section opens with the heading and the location, holds documentation
   * exactly when the docstring is non-empty, arguments exactly when the list
   * is non-empty, the return line exactly when `withReturn` holds, and ends
   * with the fenced source; each role at most once, in that order.
   */
  lemma SectionPiecesSpec(f: Fields)
    ensures var ps := SectionPieces(f);
      && |ps| >= 3
      && ps[0].role == Heading && ps[1].role == Location
      && ps[|ps| - 1] == Piece(Code, CodeText(f.source))
      && (Documentation in Roles(ps) <==> f.docstring != "")
      && (Arguments in Roles(ps) <==> Listed(f.args))
      && (Returns in Roles(ps) <==> f.withReturn)
      && InRoleOrder(ps)
  {
    LayoutSpec(
      HeadingLine(f.kind, f.name), LocationLine(f.start, f.end),
      When(f.docstring != "", DocumentationLine(f.docstring)),
      When(Listed(f.args), ArgumentsLine(f.args)),
      When(f.withReturn, ReturnsLine),
      CodeText(f.source));
  }

  function SectionText(f: Fields): string
  {
    Concat(Texts(SectionPieces(f)))
  }

  /** The text of one element section, or the key whose absence raised. */
  function ElementSection(el: Element): Result<string, string>
  {
    var f :- FieldsOf(el);
    Success(SectionText(f))
  }

  /** The appends of the method give the text of the pieces. */
  lemma SectionSteps(f: Fields)
    ensures SectionText(f) ==
      HeadingLine(f.kind, f.name) + LocationLine(f.start, f.end)
      + When(f.docstring != "", DocumentationLine(f.docstring)).GetOr("")
      + When(Listed(f.args), ArgumentsLine(f.args)).GetOr("")
      + When(f.withReturn, ReturnsLine).GetOr("")
      + CodeText(f.source)
  {
    LayoutText(
      HeadingLine(f.kind, f.name), LocationLine(f.start, f.end),
      When(f.docstring != "", DocumentationLine(f.docstring)),
      When(Listed(f.args), ArgumentsLine(f.args)),
      When(f.withReturn, ReturnsLine),
      CodeText(f.source));
  }

  /** The body of the inner loop: `element_section` built with `+=`, the subscripts in source order. */
  method BuildElementSection(el: Element) returns (r: Result<string, string>)
    ensures r == ElementSection(el)
  {
    var kind :- Lookup(el.kind, "type");
    var name :- Lookup(el.name, "name");
    var start :- Lookup(el.startLine, "start_line");
    var end :- Lookup(el.endLine, "end_line");
    var section := HeadingLine(kind, name) + LocationLine(start, end);
    ghost var expected := section;
    var doc :- Lookup(el.docstring, "docstring");
    if doc != "" {
      section := section + DocumentationLine(doc);
    }
    expected := expected + When(doc != "", DocumentationLine(doc)).GetOr("");
    assert section == expected;
    var args :- Lookup(el.args, "args");
    if Listed(args) {
      section := section + ArgumentsLine(args);
    }
    expected := expected + When(Listed(args), ArgumentsLine(args)).GetOr("");
    assert section == expected;
    var withReturn := false;
    if kind != "Class" {
      withReturn :- Lookup(el.hasReturn, "has_return");
      if withReturn {
        section := section + ReturnsLine;
      }
    }
    expected := expected + When(withReturn, ReturnsLine).GetOr("");
    assert section == expected;
    var source :- Lookup(el.source, "source");
    section := section + CodeText(source);
    var f := Fields(kind, name, start, end, doc, args, withReturn, source);
    assert FieldsOf(el) == Success(f);
    SectionSteps(f);
    return Success(section);
  }

  // ---------------------------------------------------------------- one file

  function FileHeader(file: string): string
  {
    "# File: " + file + "\n\n"
  }

  /** The header, then the section of each element in order; the first failing element stops it. */
  function FileSection(file: string, els: seq<Element>): Result<string, string>
  {
    var sections :- Collect(els, ElementSection);
    Success(FileHeader(file) + Concat(sections))
  }

  /** A file section succeeds exactly when every one of its elements does. */
  lemma FileSectionSpec(file: string, els: seq<Element>)
    ensures FileSection(file, els).Success? <==> forall e :: e in els ==> ElementSection(e).Success?
  {
    CollectSucceedsIff(els, ElementSection);
  }

  /** One turn of the inner loop: the section of element `j` appended, or the loop stopped by it. */
  method AppendElementSection(file: string, els: seq<Element>, j: nat, section: string, ghost sections: seq<string>)
    returns (r: Result<string, string>, ghost next: seq<string>)
    requires j < |els| && Collect(els[..j], ElementSection) == Success(sections)
    requires section == FileHeader(file) + Concat(sections)
    ensures r.Failure? ==> Collect(els, ElementSection) == Failure(r.error)
    ensures r.Success? ==> Collect(els[..j + 1], ElementSection) == Success(next) && r.value == FileHeader(file) + Concat(next)
  {
    var s := BuildElementSection(els[j]);
    if s.Failure? {
      CollectStops(els, ElementSection, j);
      return Failure(s.error), sections;
    }
    CollectStep(els, ElementSection, j, sections);
    ConcatSnoc(FileHeader(file), sections, s.value);
    return Success(section + s.value), sections + [s.value];
  }

  /** The inner loop: `file_section += element_section` for each element of the file. */
  method BuildFileSection(file: string, els: seq<Element>) returns (r: Result<string, string>)
    ensures r == FileSection(file, els)
  {
    var section := FileHeader(file);
    ghost var sections: seq<string> := [];
    var j := 0;
    while j < |els|
      invariant 0 <= j <= |els|
      invariant Collect(els[..j], ElementSection) == Success(sections)
      invariant section == FileHeader(file) + Concat(sections)
    {
      ghost var next;
      r, next := AppendElementSection(file, els, j, section, sections);
      if r.Failure? {
        return;
      }
      section, sections := r.value, next;
      j := j + 1;
    }
    assert els[..j] == els;
    return Success(section);
  }

  // ---------------------------------------------------------------- all files

  /** The section of one group of `elements_by_file`. */
  function GroupSection(group: (string, seq<Element>)): Result<string, string>
  {
    FileSection(group.0, group.1)
  }

  /** `elements_by_file`: the elements grouped by `FileOf`, files in order of first occurrence. */
  function Groups(elements: seq<Element>): seq<(string, seq<Element>)>
  {
    GroupBy(elements, FileOf)
  }

  /**
   * Files come in order of first occurrence, each once; a file's group is
   * its elements in input order; every element is in exactly one group.
   */
  lemma GroupsSpec(elements: seq<Element>)
    ensures var g := Groups(elements);
      && DistinctKeys(g)
      && Keys(g) == Dedup(Mapped(elements, FileOf))
      && (forall i :: 0 <= i < |g| ==> g[i].1 == Filter(elements, FileOf, g[i].0))
      && multiset(Members(g)) == multiset(elements)
  {
    GroupBySpec(elements, FileOf);
    GroupByPermutation(elements, FileOf);
  }

  /** `combined`: the file sections joined with newlines. */
  function Combined(elements: seq<Element>): Result<string, string>
  {
    var parts :- Collect(Groups(elements), GroupSection);
    Success(Join("\n", parts))
  }

  /** The listing can be built exactly when every element has the keys its section reads. */
  lemma CombinedSucceeds(elements: seq<Element>)
    ensures Combined(elements).Success? <==> forall e :: e in elements ==> ElementSection(e).Success?
  {
    var g := Groups(elements);
    GroupByMembers(elements, FileOf);
    CollectSucceedsIff(g, GroupSection);
    forall i | 0 <= i < |g| {
      FileSectionSpec(g[i].0, g[i].1);
    }
  }

  /** The explanation, or the message of the `RuntimeError`. */
  function Explanation(elements: seq<Element>, chat: Chat): Result<string, string>
  {
    if elements == [] then Success(NothingToAnalyze)
    else
      match Combined(elements)
      case Failure(key) => Failure(ErrorText(KeyErrorText(key)))
      case Success(combined) =>
        match Send(chat, Prompts.SystemPrompt(Prompts.Opening, combined))
        case Success(reply) => Success(reply)
        case Failure(e) => Failure(ErrorText(e))
  }

  /** The two loops of `generate_explanation`: grouping, then `combined_parts` file by file. */
  method BuildCombined(elements: seq<Element>) returns (r: Result<string, string>)
    ensures r == Combined(elements)
  {
    var groups := Accumulate(elements, FileOf, [], Push);
    var parts: seq<string> := [];
    var i := 0;
    while i < |groups|
      invariant 0 <= i <= |groups|
      invariant Collect(groups[..i], GroupSection) == Success(parts)
    {
      var section := BuildFileSection(groups[i].0, groups[i].1);
      if section.Failure? {
        CollectStops(groups, GroupSection, i);
        return Failure(section.error);
      }
      CollectStep(groups, GroupSection, i, parts);
      parts := parts + [section.value];
      i := i + 1;
    }
    assert groups[..i] == groups;
    return Success(Join("\n", parts));
  }

  /**
   * `generate_explanation`. `sent` is the prompt handed to the chat model,
   * `None` when the model was not contacted: for an empty list, and when a
   * missing key stopped the listing.
   */
  method GenerateExplanation(elements: seq<Element>, chat: Chat) returns (r: Result<string, string>, sent: Option<string>)
    ensures r == Explanation(elements, chat)
    ensures sent == if elements == [] || Combined(elements).Failure? then None
      else Some(Prompts.SystemPrompt(Prompts.Opening, Combined(elements).value))
  {
    if elements == [] {
      return Success(NothingToAnalyze), None;
    }
    var combined := BuildCombined(elements);
    if combined.Failure? {
      return Failure(ErrorText(KeyErrorText(combined.error))), None;
    }
    var prompt := Prompts.SystemPrompt(Prompts.Opening, combined.value);
    var reply := chat(prompt);
    sent := Some(prompt);
    match reply {
      case Success(text) => r := Success(text);
      case Failure(e) => r := Failure(ErrorText(e));
    }
  }

  /** Every failure, a missing key or a failed chat, comes back as the explanation error text. */
  lemma FailuresAreRuntimeErrors(elements: seq<Element>, chat: Chat)
    ensures Explanation(elements, chat).Failure? ==>
      StartsWith(Explanation(elements, chat).error, "Error generating explanation: ")
  {
  }
}
