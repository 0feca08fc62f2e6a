/**
 * main.py: the Streamlit explainer. `extract_elements` turns the top-level
 * definitions of a parsed module into records, and `llama_explain` lists the
 * records, places the listing inside the fixed prompt and sends it to the
 * chat model. Everything here is expressions; nothing is updated in place.
 *
 * Parsing is not modelled: the module body is a list of `PythonAst.Node`.
 * The chat call is a parameter that returns the reply's content or fails
 * with the text of the exception.
 */
module ExplainerApp {
  import opened Wrappers
  import opened Text
  import opened CodeElement
  import opened Pieces
  import opened Results
  import opened PythonAst
  import Prompts
  import Explanation

  type Chat = string -> Result<string, string>

  function Send(chat: Chat, prompt: string): Result<string, string>
  {
    chat(prompt)
  }

  // ---------------------------------------------------------------- extract_elements

  /**
   * The argument list as stored: the parameter names of a function, or
   * `None` for a class (no `args` attribute) and for a function without
   * parameters (`args if args else None`).
   */
  function StoredArgs(n: Node): Args
  {
    var names := if HasArgsAttribute(n) then n.params else [];
    if names != [] then ArgList(names) else NoArgs
  }

  /**
   * The record of one top-level definition: all eight keys set. The end line
   * falls back to the start line as written; nodes from `ast.parse` always
   * carry `end_lineno`, so the fallback is not reached for them.
   */
  function DefinitionRecord(n: Node): Element
  {
    var start := n.lineno.GetOr(0);
    Element(
      Some(KindName(n.kind)), Some(n.name), Some(n.docstring.GetOr("")), Some(n.segment.GetOr("")),
      Some(start), Some(n.endLineno.GetOr(start)), Some(StoredArgs(n)), Some(n.containsReturn),
      None, None, None)
  }

  /** `extract_elements`: one record per top-level definition, in order. */
  function ExtractElements(body: seq<Node>): (r: seq<Element>)
    ensures |r| == |Definitions(body)|
    ensures forall k :: 0 <= k < |r| ==> r[k] == DefinitionRecord(Definitions(body)[k])
  {
    var defs := Definitions(body);
    seq(|defs|, k requires 0 <= k < |defs| => DefinitionRecord(defs[k]))
  }

  /**
   * The `k`-th record describes the `k`-th top-level definition (see
   * `DefinitionsSpec` for which nodes those are and their order): its type
   * without the `Def`, its name, its docstring and source segment (empty
   * when absent), its line numbers, whether a `return` occurs in it, and an
   * argument list stored only when it has a name in it, so classes and
   * parameterless functions get no arguments line. A missing end line
   * falls back to the start line as written, a case nodes from `ast.parse`
   * do not reach.
   */
  lemma ExtractElementsSpec(body: seq<Node>)
    ensures var r := ExtractElements(body);
      forall k :: 0 <= k < |r| ==>
        var n := Definitions(body)[k];
        var start := if n.lineno.Some? then n.lineno.value else 0;
        && r[k].kind == Some(if n.kind == FunctionDef then "Function"
                             else if n.kind == AsyncFunctionDef then "AsyncFunction" else "Class")
        && r[k].name == Some(n.name)
        && r[k].docstring == Some(if n.docstring.Some? then n.docstring.value else "")
        && r[k].source == Some(if n.segment.Some? then n.segment.value else "")
        && r[k].startLine == Some(start)
        && r[k].endLine == Some(if n.endLineno.Some? then n.endLineno.value else start)
        && r[k].hasReturn == Some(n.containsReturn)
        && r[k].args.Some?
        && (HasArgs(r[k].args) <==> HasArgsAttribute(n) && n.params != [])
        && (HasArgs(r[k].args) ==> r[k].args == Some(ArgList(n.params)))
        && (r[k].kind == Some("Class") ==> r[k].args == Some(NoArgs))
  {
    KindNames();
    var defs := Definitions(body);
    DefinitionsSpec(body);
    forall k | 0 <= k < |defs| ensures defs[k].kind != OtherStatement {
      assert defs[k] in defs;
    }
  }

  // ---------------------------------------------------------------- the listing

  /**
   * The subscripts of one element in the order they run: type, name, the two
   * lines, docstring, args, `has_return`, source. Unlike
   * `generate_explanation`, `has_return` is read for classes too.
   */
  function FieldsOf(el: Element): Result<Fields, string>
  {
    var kind :- Lookup(el.kind, "type");
    var name :- Lookup(el.name, "name");
    var start :- Lookup(el.startLine, "start_line");
    var end :- Lookup(el.endLine, "end_line");
    var doc :- Lookup(el.docstring, "docstring");
    var args :- Lookup(el.args, "args");
    var hasReturn :- Lookup(el.hasReturn, "has_return");
    var source :- Lookup(el.source, "source");
    Success(Fields(kind, name, start, end, doc, args, hasReturn && kind != "Class", source))
  }

  function HeadingLine(kind: string, name: string): string
  {
    kind + " '" + name + "':\n"
  }

  function CodeLine(source: string): string
  {
    "Code:\n" + source
  }

  /** The pieces of one element: the same shape as a section of `generate_explanation`, the documentation always present. */
  function ElementPieces(f: Fields): seq<Piece>
  {
    Explanation.Layout(
      HeadingLine(f.kind, f.name), Explanation.LocationLine(f.start, f.end),
      Some(Explanation.DocumentationLine(f.docstring)),
      When(Listed(f.args), Explanation.ArgumentsLine(f.args)),
      When(f.withReturn, Explanation.ReturnsLine),
      CodeLine(f.source))
  }

  /**
   * An element opens with its heading and location, always holds the
   * documentation line (even for an empty docstring), holds the arguments
   * exactly when the list is non-empty and the return line exactly when
   * `has_return` is set on a non-class, and ends with the code.
   */
  lemma ElementPiecesSpec(f: Fields)
    ensures var ps := ElementPieces(f);
      && |ps| >= 4
      && ps[0] == Piece(Heading, HeadingLine(f.kind, f.name))
      && ps[1] == Piece(Location, Explanation.LocationLine(f.start, f.end))
      && ps[2] == Piece(Documentation, Explanation.DocumentationLine(f.docstring))
      && ps[|ps| - 1] == Piece(Code, CodeLine(f.source))
      && (Arguments in Roles(ps) <==> Listed(f.args))
      && (Returns in Roles(ps) <==> f.withReturn)
      && InRoleOrder(ps)
  {
    var doc := Some(Explanation.DocumentationLine(f.docstring));
    var args := When(Listed(f.args), Explanation.ArgumentsLine(f.args));
    var ret := When(f.withReturn, Explanation.ReturnsLine);
    Explanation.LayoutSpec(HeadingLine(f.kind, f.name), Explanation.LocationLine(f.start, f.end), doc, args, ret, CodeLine(f.source));
    var ps := ElementPieces(f);
    var h := [Piece(Heading, HeadingLine(f.kind, f.name)), Piece(Location, Explanation.LocationLine(f.start, f.end))];
    var rest := Optional(true, Documentation, Explanation.DocumentationLine(f.docstring))
      + Optional(args.Some?, Arguments, args.GetOr(""))
      + Optional(ret.Some?, Returns, ret.GetOr(""))
      + [Piece(Code, CodeLine(f.source))];
    assert ps == h + rest;
    assert ps[2] == rest[0];
  }

  /** The text of one element: its pieces, one after the other. */
  function ElementText(el: Element): Result<string, string>
  {
    var f :- FieldsOf(el);
    Success(Concat(Texts(ElementPieces(f))))
  }

  /** The text is the element's lines in order, the absent optional lines contributing nothing. */
  lemma ElementTextLines(f: Fields)
    ensures Concat(Texts(ElementPieces(f))) ==
      HeadingLine(f.kind, f.name) + Explanation.LocationLine(f.start, f.end)
      + Explanation.DocumentationLine(f.docstring)
      + (if Listed(f.args) then Explanation.ArgumentsLine(f.args) else "")
      + (if f.withReturn then Explanation.ReturnsLine else "")
      + CodeLine(f.source)
  {
    Explanation.LayoutText(
      HeadingLine(f.kind, f.name), Explanation.LocationLine(f.start, f.end),
      Some(Explanation.DocumentationLine(f.docstring)),
      When(Listed(f.args), Explanation.ArgumentsLine(f.args)),
      When(f.withReturn, Explanation.ReturnsLine),
      CodeLine(f.source));
  }

  /** `combined`: the element texts joined by blank lines, in input order; a missing key raises. */
  function Combined(elements: seq<Element>): Result<string, string>
  {
    var texts :- Collect(elements, ElementText);
    Success(Join("\n\n", texts))
  }

  /** The listing is built exactly when every element has all eight keys; then it holds each element's text in order. */
  lemma CombinedSpec(elements: seq<Element>)
    ensures Combined(elements).Success? <==> forall e :: e in elements ==> FieldsOf(e).Success?
    ensures Combined(elements).Success? ==>
      var texts := Collect(elements, ElementText).value;
      && |texts| == |elements|
      && (forall i :: 0 <= i < |elements| ==> Success(texts[i]) == ElementText(elements[i]))
      && Combined(elements).value == Join("\n\n", texts)
  {
    CollectSucceedsIff(elements, ElementText);
    assert (forall i :: 0 <= i < |elements| ==> ElementText(elements[i]).Success?)
      <==> (forall e :: e in elements ==> FieldsOf(e).Success?);
    if Combined(elements).Success? {
      CollectParts(elements, ElementText);
    }
  }

  /** Records made by `extract_elements` always have every key, so the listing never raises. */
  lemma ExtractedListing(body: seq<Node>)
    ensures Combined(ExtractElements(body)).Success?
  {
    var r := ExtractElements(body);
    ExtractElementsSpec(body);
    forall e | e in r ensures FieldsOf(e).Success? {
      var k :| 0 <= k < |r| && r[k] == e;
    }
    CombinedSpec(r);
  }

  // ---------------------------------------------------------------- llama_explain

  /** The text returned instead of raising when the chat call fails. */
  function ErrorText(e: string): string
  {
    "Error generating explanation: " + e
  }

  /** `llama_explain`: a `Failure` is a key error raised while listing; a failed chat call is returned as text. */
  function LlamaExplain(elements: seq<Element>, chat: Chat): Result<string, string>
  {
    var combined :- Combined(elements);
    match Send(chat, Prompts.SystemPrompt(Prompts.Opening, combined))
    case Success(content) => Success(content)
    case Failure(e) => Success(ErrorText(e))
  }

  /**
   * Once the listing is built, the chat model receives the fixed prompt
   * around it; its reply is returned as it is, and a failed call is
   * returned as the error text instead of being raised.
   */
  lemma LlamaExplainOutcome(elements: seq<Element>, chat: Chat)
    requires Combined(elements).Success?
    ensures var prompt := Prompts.SystemPrompt(Prompts.Opening, Combined(elements).value);
      && (chat(prompt).Success? ==> LlamaExplain(elements, chat) == chat(prompt))
      && (chat(prompt).Failure? ==>
            LlamaExplain(elements, chat) == Success("Error generating explanation: " + chat(prompt).error))
  {
  }

  /** On records from `extract_elements` the explainer never raises: it returns the reply or the error text. */
  lemma LlamaExplainTotal(body: seq<Node>, chat: Chat)
    ensures LlamaExplain(ExtractElements(body), chat).Success?
  {
    ExtractedListing(body);
  }
}
