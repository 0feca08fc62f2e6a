/**
 * `create_document` (src/code_explainer/document_generator.py): the Word
 * report of an analysis. The document is modelled as the list of headings
 * and paragraphs added to it, in order; fonts, alignment, the `Code` style's
 * creation and the saving to a buffer are left out. When `python-docx` is
 * missing the function returns `None`; any exception while the document is
 * built becomes a `RuntimeError`, which is the `Failure` of the outcome.
 */
module Document {
  import opened Wrappers
  import opened Text
  import opened CodeElement
  import opened Grouping
  import opened Results

  /** The paragraph styles the generator names. */
  datatype Style = Normal | ListBullet | IntenseQuote | CodeStyle

  datatype Block = Heading(level: nat, text: string) | Paragraph(text: string, style: Style)

  /** A Word document under construction: the blocks added so far, in order. */
  class Docx {
    var blocks: seq<Block>

    constructor ()
      ensures blocks == []
    {
      blocks := [];
    }

    /** `doc.add_heading(text, level=level)`. */
    method AddHeading(text: string, level: nat)
      modifies this
      ensures blocks == old(blocks) + [Heading(level, text)]
    {
      blocks := blocks + [Heading(level, text)];
    }

    /** `doc.add_paragraph(text, style=style)`. */
    method AddParagraph(text: string, style: Style)
      modifies this
      ensures blocks == old(blocks) + [Paragraph(text, style)]
    {
      blocks := blocks + [Paragraph(text, style)];
    }
  }

  // ---------------------------------------------------------------- counting

  /** `el.get('file', 'unknown.py')`: the key of both the counts and the grouping. */
  function FileKey(el: Element): string
  {
    el.file.GetOr("unknown.py")
  }

  /** `el.get('type', 'Unknown')`. */
  function TypeKey(el: Element): string
  {
    el.kind.GetOr("Unknown")
  }

  /** The three counters kept per file. */
  datatype Counts = Counts(functions: nat, classes: nat, asyncFunctions: nat)

  const NoCounts := Counts(0, 0, 0)

  /** One turn of the counting loop on one file's counters: only the three exact type names count. */
  function Tally(c: Counts, el: Element): Counts
  {
    var t := TypeKey(el);
    if t == "Function" then c.(functions := c.functions + 1)
    else if t == "AsyncFunction" then c.(asyncFunctions := c.asyncFunctions + 1)
    else if t == "Class" then c.(classes := c.classes + 1)
    else c
  }

  /** `elements_by_file` of the summary: counters per file, files in order of first occurrence. */
  function FileCounts(elements: seq<Element>): seq<(string, Counts)>
  {
    Acc(elements, FileKey, NoCounts, Tally)
  }

  /** `elements_by_type`: the number of elements per type, types in order of first occurrence. */
  function TypeCounts(elements: seq<Element>): seq<(string, nat)>
  {
    CountBy(elements, TypeKey)
  }

  /** The number of the items whose type is exactly `t`. */
  function OfType(ys: seq<Element>, t: string): nat
  {
    |Filter(ys, TypeKey, t)|
  }

  lemma {:induction false} FoldTally(ys: seq<Element>)
    ensures Fold(ys, NoCounts, Tally) == Counts(OfType(ys, "Function"), OfType(ys, "Class"), OfType(ys, "AsyncFunction"))
  {
    if ys != [] {
      FoldTally(ys[..|ys| - 1]);
    }
  }

  /**
   * Each file is counted once, in order of first occurrence, and its three
   * counters are the numbers of its elements whose type is exactly
   * `'Function'`, `'Class'` and `'AsyncFunction'`; no other type moves them.
   */
  lemma FileCountsSpec(elements: seq<Element>)
    ensures var d := FileCounts(elements);
      && DistinctKeys(d)
      && Keys(d) == Dedup(Mapped(elements, FileKey))
      && forall i :: 0 <= i < |d| ==>
        var own := Filter(elements, FileKey, d[i].0);
        d[i].1 == Counts(OfType(own, "Function"), OfType(own, "Class"), OfType(own, "AsyncFunction"))
  {
    AccSpec(elements, FileKey, NoCounts, Tally);
    var d := FileCounts(elements);
    forall i | 0 <= i < |d| {
      FoldTally(Filter(elements, FileKey, d[i].0));
    }
  }

  /** Each type is counted once, its count is the number of its elements, and the counts add up to the number of elements. */
  lemma TypeCountsSpec(elements: seq<Element>)
    ensures var c := TypeCounts(elements);
      && DistinctKeys(c)
      && Keys(c) == Dedup(Mapped(elements, TypeKey))
      && (forall i :: 0 <= i < |c| ==> c[i].1 == OfType(elements, c[i].0))
      && Total(c) == |elements|
  {
    CountBySpec(elements, TypeKey);
    CountByTotal(elements, TypeKey);
  }

  /** The loop of lines 61-79: both dictionaries filled in one pass. */
  method CountElements(elements: seq<Element>) returns (byFile: seq<(string, Counts)>, byType: seq<(string, nat)>)
    ensures byFile == FileCounts(elements) && byType == TypeCounts(elements)
  {
    byFile, byType := [], [];
    var i := 0;
    while i < |elements|
      invariant 0 <= i <= |elements|
      invariant byFile == FileCounts(elements[..i]) && byType == TypeCounts(elements[..i])
    {
      var el := elements[i];
      assert elements[..i + 1][..i] == elements[..i];
      byFile := Upd(byFile, FileKey(el), NoCounts, Tally, el);
      byType := Upd(byType, TypeKey(el), 0, Tick, el);
      i := i + 1;
    }
    assert elements[..i] == elements;
  }

  // ---------------------------------------------------------------- summary

  const Bullet: string := "\U{2022} "

  /** The non-zero counters, in the order classes, functions, async functions. */
  function CountParts(c: Counts): seq<string>
  {
    (if c.classes != 0 then [NatToString(c.classes) + " classes"] else [])
    + (if c.functions != 0 then [NatToString(c.functions) + " functions"] else [])
    + (if c.asyncFunctions != 0 then [NatToString(c.asyncFunctions) + " async functions"] else [])
  }

  /** The summary line of one file. */
  function FileLine(file: string, c: Counts): string
  {
    var parts := CountParts(c);
    Bullet + file + ": " + (if parts != [] then Join(", ", parts) else "No elements found")
  }

  /** A joined list opens with its first part. */
  lemma {:induction false} JoinStart(sep: string, parts: seq<string>)
    requires parts != []
    ensures StartsWith(Join(sep, parts), parts[0])
  {
  }

  /** Texts that open differently stay different after a common prefix. */
  lemma PrefixKeepsDifference(prefix: string, x: string, y: string)
    requires x != [] && y != [] && x[0] != y[0]
    ensures prefix + x != prefix + y
  {
    assert (prefix + x)[|prefix|] == x[0];
    assert (prefix + y)[|prefix|] == y[0];
  }

  /** With some counter set, the first part opens with a digit. */
  lemma PartsOpenWithDigit(c: Counts)
    requires c != NoCounts
    ensures CountParts(c) != [] && CountParts(c)[0] != [] && IsDigit(CountParts(c)[0][0])
  {
    var n := if c.classes != 0 then c.classes else if c.functions != 0 then c.functions else c.asyncFunctions;
    var digits := NatToString(n);
    assert IsDigit(digits[0]);
    var parts := CountParts(c);
    assert parts[0][0] == digits[0];
  }

  /**
   * A file's line reads "No elements found" exactly when none of its three
   * counters is set; otherwise it lists the counters that are set, each as a
   * decimal count, so it never reads "No elements found".
   */
  lemma FileLineSpec(file: string, c: Counts)
    ensures FileLine(file, c) == Bullet + file + ": No elements found" <==> c == NoCounts
  {
    var prefix := Bullet + file + ": ";
    var none := "No elements found";
    assert Bullet + file + ": No elements found" == prefix + none;
    if c != NoCounts {
      PartsOpenWithDigit(c);
      var parts := CountParts(c);
      JoinStart(", ", parts);
      var joined := Join(", ", parts);
      assert joined[0] == parts[0][0];
      assert none[0] == 'N';
      PrefixKeepsDifference(prefix, joined, none);
      assert FileLine(file, c) == prefix + joined;
    }
  }

  /** One part per non-zero count. */
  lemma CountPartsSize(c: Counts)
    ensures |CountParts(c)| == (if c.classes != 0 then 1 else 0) + (if c.functions != 0 then 1 else 0) + (if c.asyncFunctions != 0 then 1 else 0)
  {
  }

  function FileLines(byFile: seq<(string, Counts)>): (r: seq<Block>)
    ensures |r| == |byFile|
  {
    seq(|byFile|, i requires 0 <= i < |byFile| => Paragraph(FileLine(byFile[i].0, byFile[i].1), Normal))
  }

  function TypeLine(t: string, n: nat): string
  {
    Bullet + t + "s: " + NatToString(n)
  }

  function TypeLines(byType: seq<(string, nat)>): (r: seq<Block>)
    ensures |r| == |byType|
  {
    seq(|byType|, i requires 0 <= i < |byType| => Paragraph(TypeLine(byType[i].0, byType[i].1), ListBullet))
  }

  function TotalLine(n: nat): string
  {
    "Total elements found: " + NatToString(n)
  }

  /** The blocks after the `Summary` heading: the file lines, then the total and the type lines, each part only when its dictionary is non-empty. */
  function CountBlocks(byFile: seq<(string, Counts)>, byType: seq<(string, nat)>): seq<Block>
  {
    (if byFile != [] then [Heading(2, "Files Analyzed")] + FileLines(byFile) else [])
    + (if byType != [] then [Paragraph(TotalLine(Total(byType)), Normal)] + TypeLines(byType) else [])
  }

  /** Lines 84-92: one line per file. */
  method AddFileLines(doc: Docx, byFile: seq<(string, Counts)>)
    modifies doc
    ensures doc.blocks == old(doc.blocks) + FileLines(byFile)
  {
    ghost var start := doc.blocks;
    var i := 0;
    while i < |byFile|
      invariant 0 <= i <= |byFile|
      invariant doc.blocks == start + FileLines(byFile)[..i]
    {
      doc.AddParagraph(FileLine(byFile[i].0, byFile[i].1), Normal);
      assert FileLines(byFile)[..i + 1] == FileLines(byFile)[..i] + [FileLines(byFile)[i]];
      i := i + 1;
    }
    assert FileLines(byFile)[..i] == FileLines(byFile);
  }

  /** Lines 97-98: one bulleted line per type. */
  method AddTypeLines(doc: Docx, byType: seq<(string, nat)>)
    modifies doc
    ensures doc.blocks == old(doc.blocks) + TypeLines(byType)
  {
    ghost var start := doc.blocks;
    var i := 0;
    while i < |byType|
      invariant 0 <= i <= |byType|
      invariant doc.blocks == start + TypeLines(byType)[..i]
    {
      doc.AddParagraph(TypeLine(byType[i].0, byType[i].1), ListBullet);
      assert TypeLines(byType)[..i + 1] == TypeLines(byType)[..i] + [TypeLines(byType)[i]];
      i := i + 1;
    }
    assert TypeLines(byType)[..i] == TypeLines(byType);
  }

  /** Lines 81-98: the file summary, then the type summary, each only for a non-empty dictionary. */
  method AddCounts(doc: Docx, byFile: seq<(string, Counts)>, byType: seq<(string, nat)>)
    modifies doc
    ensures doc.blocks == old(doc.blocks) + CountBlocks(byFile, byType)
  {
    ghost var start := doc.blocks;
    ghost var files: seq<Block> := [];
    if byFile != [] {
      doc.AddHeading("Files Analyzed", 2);
      AddFileLines(doc, byFile);
      files := [Heading(2, "Files Analyzed")] + FileLines(byFile);
      AppendAssoc(start, [Heading(2, "Files Analyzed")], FileLines(byFile));
    }
    assert doc.blocks == start + files;
    ghost var types: seq<Block> := [];
    ghost var middle := doc.blocks;
    if byType != [] {
      doc.AddParagraph(TotalLine(Total(byType)), Normal);
      AddTypeLines(doc, byType);
      types := [Paragraph(TotalLine(Total(byType)), Normal)] + TypeLines(byType);
      AppendAssoc(middle, [Paragraph(TotalLine(Total(byType)), Normal)], TypeLines(byType));
    }
    assert doc.blocks == middle + types;
    AppendAssoc(start, files, types);
  }

  // ---------------------------------------------------------------- one element

  /**
   * The subscripts of one element's blocks in the order they run: type, name,
   * the two lines, args, then `has_return` only for a type other than
   * `'Class'`, then docstring and source.
   */
  function FieldsOf(el: Element): Result<Fields, string>
  {
    var kind :- Lookup(el.kind, "type");
    var name :- Lookup(el.name, "name");
    var start :- Lookup(el.startLine, "start_line");
    var end :- Lookup(el.endLine, "end_line");
    var args :- Lookup(el.args, "args");
    var withReturn :- if kind != "Class" then Lookup(el.hasReturn, "has_return") else Success(false);
    var doc :- Lookup(el.docstring, "docstring");
    var source :- Lookup(el.source, "source");
    Success(Fields(kind, name, start, end, doc, args, withReturn, source))
  }

  /** The blocks of an element fail exactly when a key they read is absent; on success the fields are the element's. */
  lemma FieldsOfSpec(el: Element)
    ensures FieldsOf(el).Failure? <==>
      || el.kind.None? || el.name.None? || el.startLine.None? || el.endLine.None? || el.args.None?
      || (el.kind.Some? && el.kind.value != "Class" && el.hasReturn.None?)
      || el.docstring.None? || el.source.None?
    ensures FieldsOf(el).Success? ==>
      var f := FieldsOf(el).value;
      && Some(f.kind) == el.kind && Some(f.name) == el.name && Some(f.docstring) == el.docstring
      && Some(f.source) == el.source && Some(f.args) == el.args
      && Some(f.start) == el.startLine && Some(f.end) == el.endLine
      && (f.withReturn <==> f.kind != "Class" && IsSet(el.hasReturn))
  {
  }

  function HeaderText(kind: string, name: string, start: int, end: int): string
  {
    kind + ": " + name + " (Lines " + IntToString(start) + "-" + IntToString(end) + ")"
  }

  function ArgumentsText(args: Args): string
  {
    "Arguments: " + (if args.ArgList? then Join(", ", args.names) else "")
  }

  const ReturnsText: string := "Returns: Yes"

  /** `"-" * 40`. */
  const Separator: string := "----------------------------------------"

  lemma SeparatorSpec()
    ensures Separator == Repeat("-", 40)
  {
    RepeatChar('-', 40);
  }

  /** What follows the optional blocks: the source under its label, then the separator between blank paragraphs. */
  function SourceBlocks(source: string): seq<Block>
  {
    [Paragraph("Source Code:", Normal), Paragraph(source, CodeStyle),
     Paragraph("", Normal), Paragraph(Separator, Normal), Paragraph("", Normal)]
  }

  function ArgumentsBlocks(args: Args): seq<Block>
  {
    if Listed(args) then [Paragraph(ArgumentsText(args), Normal)] else []
  }

  function ReturnsBlocks(withReturn: bool): seq<Block>
  {
    if withReturn then [Paragraph(ReturnsText, Normal)] else []
  }

  function DocstringBlocks(docstring: string): seq<Block>
  {
    if docstring != "" then [Paragraph("Documentation:", Normal), Paragraph(docstring, IntenseQuote)] else []
  }

  function BlocksOf(f: Fields): seq<Block>
  {
    [Heading(3, HeaderText(f.kind, f.name, f.start, f.end))]
    + ArgumentsBlocks(f.args)
    + ReturnsBlocks(f.withReturn)
    + DocstringBlocks(f.docstring)
    + SourceBlocks(f.source)
  }

  /** The blocks of one element, or the key whose absence raised. */
  function ElementBlocks(el: Element): Result<seq<Block>, string>
  {
    var f :- FieldsOf(el);
    Success(BlocksOf(f))
  }

  /** The fixed paragraph texts of an element's blocks begin with different characters. */
  lemma OpeningCharacters(args: Args)
    ensures ArgumentsText(args)[0] == 'A' && ReturnsText[0] == 'R'
    ensures "Documentation:"[0] == 'D' && "Source Code:"[0] == 'S' && Separator[0] == '-'
  {
  }

  /** An element's blocks open with its level-3 heading and close with the source and the separator. */
  lemma BlocksOfShape(f: Fields)
    ensures var b := BlocksOf(f);
      && |b| >= 6
      && b[0] == Heading(3, HeaderText(f.kind, f.name, f.start, f.end))
      && b[|b| - 5..] == SourceBlocks(f.source)
  {
    var b := BlocksOf(f);
    var front := [Heading(3, HeaderText(f.kind, f.name, f.start, f.end))] + ArgumentsBlocks(f.args) + ReturnsBlocks(f.withReturn) + DocstringBlocks(f.docstring);
    assert b == front + SourceBlocks(f.source);
    assert b[|b| - 5..] == SourceBlocks(f.source);
  }

  /** No other paragraph of an element's blocks reads like its argument or returns line. */
  lemma TextsDiffer(args: Args, source: string)
    ensures ArgumentsText(args) != ReturnsText && ArgumentsText(args) != "Documentation:"
    ensures ReturnsText != "Documentation:"
    ensures Paragraph(ArgumentsText(args), Normal) !in SourceBlocks(source)
    ensures Paragraph(ReturnsText, Normal) !in SourceBlocks(source)
  {
    OpeningCharacters(args);
  }

  /** The arguments paragraph is there exactly when the list is non-empty. */
  lemma ArgumentsShown(f: Fields)
    ensures Paragraph(ArgumentsText(f.args), Normal) in BlocksOf(f) <==> Listed(f.args)
  {
    var p := Paragraph(ArgumentsText(f.args), Normal);
    var head := [Heading(3, HeaderText(f.kind, f.name, f.start, f.end))];
    var a, r, d := ArgumentsBlocks(f.args), ReturnsBlocks(f.withReturn), DocstringBlocks(f.docstring);
    TextsDiffer(f.args, f.source);
    assert p !in r && p !in d;
    assert BlocksOf(f) == (head + a) + (r + d) + SourceBlocks(f.source);
  }

  /** The returns paragraph is there exactly when `withReturn` holds. */
  lemma ReturnsShown(f: Fields)
    ensures Paragraph(ReturnsText, Normal) in BlocksOf(f) <==> f.withReturn
  {
    var p := Paragraph(ReturnsText, Normal);
    var head := [Heading(3, HeaderText(f.kind, f.name, f.start, f.end))];
    var a, r, d := ArgumentsBlocks(f.args), ReturnsBlocks(f.withReturn), DocstringBlocks(f.docstring);
    TextsDiffer(f.args, f.source);
    assert p !in a && p !in d;
    assert BlocksOf(f) == (head + a) + (r + d) + SourceBlocks(f.source);
  }

  /** A quoted docstring is there exactly when the docstring is non-empty. */
  lemma DocstringShown(f: Fields)
    ensures Paragraph(f.docstring, IntenseQuote) in BlocksOf(f) <==> f.docstring != ""
  {
    var head := [Heading(3, HeaderText(f.kind, f.name, f.start, f.end))];
    var a, r, d := ArgumentsBlocks(f.args), ReturnsBlocks(f.withReturn), DocstringBlocks(f.docstring);
    assert BlocksOf(f) == (head + a + r) + d + SourceBlocks(f.source);
  }

  /** Lines 122-123: the arguments paragraph when the list is non-empty. */
  method AddArguments(doc: Docx, args: Args)
    modifies doc
    ensures doc.blocks == old(doc.blocks) + ArgumentsBlocks(args)
  {
    if Listed(args) {
      doc.AddParagraph(ArgumentsText(args), Normal);
    }
  }

  /** Lines 125-126: the returns paragraph, once the type and `has_return` have allowed it. */
  method AddReturns(doc: Docx, withReturn: bool)
    modifies doc
    ensures doc.blocks == old(doc.blocks) + ReturnsBlocks(withReturn)
  {
    if withReturn {
      doc.AddParagraph(ReturnsText, Normal);
    }
  }

  /** Lines 128-130: the docstring under its label when it is non-empty. */
  method AddDocstring(doc: Docx, docstring: string)
    modifies doc
    ensures doc.blocks == old(doc.blocks) + DocstringBlocks(docstring)
  {
    if docstring != "" {
      doc.AddParagraph("Documentation:", Normal);
      doc.AddParagraph(docstring, IntenseQuote);
    }
  }

  /** Lines 133-139: the source under its label, then the separator. */
  method AddSource(doc: Docx, source: string)
    modifies doc
    ensures doc.blocks == old(doc.blocks) + SourceBlocks(source)
  {
    doc.AddParagraph("Source Code:", Normal);
    doc.AddParagraph(source, CodeStyle);
    doc.AddParagraph("", Normal);
    doc.AddParagraph(Separator, Normal);
    doc.AddParagraph("", Normal);
  }

  /** Lines 116-139: one element's blocks added one by one; a missing key stops it. */
  method AddElement(doc: Docx, el: Element) returns (r: Result<(), string>)
    modifies doc
    ensures r.Failure? <==> ElementBlocks(el).Failure?
    ensures r.Failure? ==> r.error == ElementBlocks(el).error
    ensures r.Success? ==> doc.blocks == old(doc.blocks) + ElementBlocks(el).value
  {
    ghost var start := doc.blocks;
    var kind :- Lookup(el.kind, "type");
    var name :- Lookup(el.name, "name");
    var lineStart :- Lookup(el.startLine, "start_line");
    var lineEnd :- Lookup(el.endLine, "end_line");
    doc.AddHeading(HeaderText(kind, name, lineStart, lineEnd), 3);
    ghost var expected := [Heading(3, HeaderText(kind, name, lineStart, lineEnd))];
    var args :- Lookup(el.args, "args");
    AddArguments(doc, args);
    AppendAssoc(start, expected, ArgumentsBlocks(args));
    expected := expected + ArgumentsBlocks(args);
    var withReturn := false;
    if kind != "Class" {
      withReturn :- Lookup(el.hasReturn, "has_return");
    }
    AddReturns(doc, withReturn);
    AppendAssoc(start, expected, ReturnsBlocks(withReturn));
    expected := expected + ReturnsBlocks(withReturn);
    var docstring :- Lookup(el.docstring, "docstring");
    AddDocstring(doc, docstring);
    AppendAssoc(start, expected, DocstringBlocks(docstring));
    expected := expected + DocstringBlocks(docstring);
    var source :- Lookup(el.source, "source");
    AddSource(doc, source);
    AppendAssoc(start, expected, SourceBlocks(source));
    assert FieldsOf(el) == Success(Fields(kind, name, lineStart, lineEnd, docstring, args, withReturn, source));
    return Success(());
  }

  // ---------------------------------------------------------------- structure

  /** The blocks of one file: its level-2 heading, then each element's blocks in order. */
  function FileBlocks(group: (string, seq<Element>)): Result<seq<Block>, string>
  {
    var parts :- Collect(group.1, ElementBlocks);
    Success([Heading(2, "File: " + group.0)] + Concat(parts))
  }

  /** `elements_by_file` of the Code Structure section. */
  function Groups(elements: seq<Element>): seq<(string, seq<Element>)>
  {
    GroupBy(elements, FileKey)
  }

  /**
   * Files come in order of first occurrence, each once; a file's group is
   * its elements in input order; every element is in exactly one group.
   */
  lemma GroupsSpec(elements: seq<Element>)
    ensures var g := Groups(elements);
      && DistinctKeys(g)
      && Keys(g) == Dedup(Mapped(elements, FileKey))
      && (forall i :: 0 <= i < |g| ==> g[i].1 == Filter(elements, FileKey, g[i].0))
      && multiset(Members(g)) == multiset(elements)
  {
    GroupBySpec(elements, FileKey);
    GroupByPermutation(elements, FileKey);
  }

  /** The Code Structure section after its heading. */
  function StructureBlocks(elements: seq<Element>): Result<seq<Block>, string>
  {
    var parts :- Collect(Groups(elements), FileBlocks);
    Success(Concat(parts))
  }

  /** The section can be built exactly when every element has the keys its blocks read. */
  lemma StructureSucceeds(elements: seq<Element>)
    ensures StructureBlocks(elements).Success? <==> forall e :: e in elements ==> ElementBlocks(e).Success?
  {
    var g := Groups(elements);
    GroupByMembers(elements, FileKey);
    CollectSucceedsIff(g, FileBlocks);
    forall i | 0 <= i < |g|
      ensures FileBlocks(g[i]).Success? <==> forall e :: e in g[i].1 ==> ElementBlocks(e).Success?
    {
      CollectSucceedsIff(g[i].1, ElementBlocks);
    }
  }

  /** One turn of the inner loop: the blocks of element `j` added, or the loop stopped by it. */
  method AddElementStep(doc: Docx, els: seq<Element>, j: nat, ghost start: seq<Block>, ghost parts: seq<seq<Block>>)
    returns (r: Result<(), string>, ghost next: seq<seq<Block>>)
    modifies doc
    requires j < |els| && Collect(els[..j], ElementBlocks) == Success(parts)
    requires doc.blocks == start + Concat(parts)
    ensures r.Failure? ==> Collect(els, ElementBlocks) == Failure(r.error)
    ensures r.Success? ==> Collect(els[..j + 1], ElementBlocks) == Success(next) && doc.blocks == start + Concat(next)
  {
    r := AddElement(doc, els[j]);
    if r.Failure? {
      CollectStops(els, ElementBlocks, j);
      return r, parts;
    }
    CollectStep(els, ElementBlocks, j, parts);
    ConcatSnoc(start, parts, ElementBlocks(els[j]).value);
    return r, parts + [ElementBlocks(els[j]).value];
  }

  /** Lines 112-139 for one file: its heading, then its elements. */
  method AddFile(doc: Docx, group: (string, seq<Element>)) returns (r: Result<(), string>)
    modifies doc
    ensures r.Failure? <==> FileBlocks(group).Failure?
    ensures r.Failure? ==> r.error == FileBlocks(group).error
    ensures r.Success? ==> doc.blocks == old(doc.blocks) + FileBlocks(group).value
  {
    ghost var before := doc.blocks;
    doc.AddHeading("File: " + group.0, 2);
    ghost var start := doc.blocks;
    ghost var parts: seq<seq<Block>> := [];
    var els := group.1;
    var j := 0;
    while j < |els|
      invariant 0 <= j <= |els|
      invariant Collect(els[..j], ElementBlocks) == Success(parts)
      invariant doc.blocks == start + Concat(parts)
    {
      ghost var next;
      r, next := AddElementStep(doc, els, j, start, parts);
      if r.Failure? {
        return;
      }
      parts := next;
      j := j + 1;
    }
    assert els[..j] == els;
    AppendAssoc(before, [Heading(2, "File: " + group.0)], Concat(parts));
    return Success(());
  }

  /** Lines 103-139: the grouping loop, then the blocks of each file. */
  method AddStructure(doc: Docx, elements: seq<Element>) returns (r: Result<(), string>)
    modifies doc
    ensures r.Failure? <==> StructureBlocks(elements).Failure?
    ensures r.Failure? ==> r.error == StructureBlocks(elements).error
    ensures r.Success? ==> doc.blocks == old(doc.blocks) + StructureBlocks(elements).value
  {
    var groups := Accumulate(elements, FileKey, [], Push);
    ghost var start := doc.blocks;
    ghost var parts: seq<seq<Block>> := [];
    var i := 0;
    while i < |groups|
      invariant 0 <= i <= |groups|
      invariant Collect(groups[..i], FileBlocks) == Success(parts)
      invariant doc.blocks == start + Concat(parts)
    {
      r := AddFile(doc, groups[i]);
      if r.Failure? {
        CollectStops(groups, FileBlocks, i);
        return;
      }
      CollectStep(groups, FileBlocks, i, parts);
      ConcatSnoc(start, parts, FileBlocks(groups[i]).value);
      parts := parts + [FileBlocks(groups[i]).value];
      i := i + 1;
    }
    assert groups[..i] == groups;
    return Success(());
  }

  // ---------------------------------------------------------------- the document

  /** The blocks of the whole document, or the key whose absence raised. */
  function DocumentBlocks(elements: seq<Element>, explanation: string, title: string): Result<seq<Block>, string>
  {
    var structure :- StructureBlocks(elements);
    Success(
      [Heading(0, title), Heading(1, "Summary")]
      + CountBlocks(FileCounts(elements), TypeCounts(elements))
      + [Heading(1, "Code Structure")]
      + structure
      + [Heading(1, "AI Explanation"), Paragraph(explanation, Normal)])
  }

  function DocumentError(e: string): string
  {
    "Error generating document: " + e
  }

  /** The outcome of `create_document`: `None` without `python-docx`, else the document or the `RuntimeError` message. */
  function DocumentOutcome(elements: seq<Element>, explanation: string, title: string, docxAvailable: bool): Option<Result<seq<Block>, string>>
  {
    if !docxAvailable then None
    else
      match DocumentBlocks(elements, explanation, title)
      case Success(blocks) => Some(Success(blocks))
      case Failure(key) => Some(Failure(DocumentError(KeyErrorText(key))))
  }

  /** `create_document`. */
  method CreateDocument(elements: seq<Element>, explanation: string, title: string, docxAvailable: bool)
    returns (r: Option<Result<seq<Block>, string>>)
    ensures r == DocumentOutcome(elements, explanation, title, docxAvailable)
  {
    if !docxAvailable {
      return None;
    }
    var doc := new Docx();
    doc.AddHeading(title, 0);
    doc.AddHeading("Summary", 1);
    ghost var opening := [Heading(0, title), Heading(1, "Summary")];
    assert doc.blocks == opening;
    var byFile, byType := CountElements(elements);
    AddCounts(doc, byFile, byType);
    doc.AddHeading("Code Structure", 1);
    ghost var beforeStructure := doc.blocks;
    assert beforeStructure == opening + CountBlocks(FileCounts(elements), TypeCounts(elements)) + [Heading(1, "Code Structure")];
    var structure := AddStructure(doc, elements);
    if structure.Failure? {
      return Some(Failure(DocumentError(KeyErrorText(structure.error))));
    }
    ghost var afterStructure := doc.blocks;
    doc.AddHeading("AI Explanation", 1);
    doc.AddParagraph(explanation, Normal);
    AppendAssoc(afterStructure, [Heading(1, "AI Explanation")], [Paragraph(explanation, Normal)]);
    assert [Heading(1, "AI Explanation")] + [Paragraph(explanation, Normal)] == [Heading(1, "AI Explanation"), Paragraph(explanation, Normal)];
    return Some(Success(doc.blocks));
  }

  // ---------------------------------------------------------------- outline

  /** The headings of level 0 or 1, in order: the outline of the document. */
  function Outline(blocks: seq<Block>): seq<Block>
  {
    if blocks == [] then []
    else
      var rest := Outline(blocks[..|blocks| - 1]);
      var b := blocks[|blocks| - 1];
      if b.Heading? && b.level <= 1 then rest + [b] else rest
  }

  /** Every heading is of level 2 or deeper. */
  predicate Nested(blocks: seq<Block>)
  {
    forall i :: 0 <= i < |blocks| ==> blocks[i].Heading? ==> blocks[i].level >= 2
  }

  lemma {:induction false} OutlineAppend(a: seq<Block>, b: seq<Block>)
    ensures Outline(a + b) == Outline(a) + Outline(b)
  {
    if b != [] {
      var n := |b| - 1;
      assert (a + b)[..|a + b| - 1] == a + b[..n];
      OutlineAppend(a, b[..n]);
    } else {
      assert a + b == a;
    }
  }

  lemma {:induction false} OutlineNested(blocks: seq<Block>)
    requires Nested(blocks)
    ensures Outline(blocks) == []
  {
    if blocks != [] {
      OutlineNested(blocks[..|blocks| - 1]);
    }
  }

  lemma {:induction false} NestedConcat(parts: seq<seq<Block>>)
    requires forall i :: 0 <= i < |parts| ==> Nested(parts[i])
    ensures Nested(Concat(parts))
  {
    if parts != [] {
      NestedConcat(parts[1..]);
      assert Concat(parts) == parts[0] + Concat(parts[1..]);
    }
  }

  lemma {:induction false} NestedAppend(a: seq<Block>, b: seq<Block>)
    requires Nested(a) && Nested(b)
    ensures Nested(a + b)
  {
  }

  /** An element's blocks hold one heading, of level 3. */
  lemma BlocksOfNested(f: Fields)
    ensures Nested(BlocksOf(f))
  {
    var head := [Heading(3, HeaderText(f.kind, f.name, f.start, f.end))];
    var a, r, d := ArgumentsBlocks(f.args), ReturnsBlocks(f.withReturn), DocstringBlocks(f.docstring);
    NestedAppend(head + a + r + d, SourceBlocks(f.source));
  }

  lemma FileBlocksNested(group: (string, seq<Element>))
    requires FileBlocks(group).Success?
    ensures Nested(FileBlocks(group).value)
  {
    var els := group.1;
    CollectParts(els, ElementBlocks);
    var parts := Collect(els, ElementBlocks).value;
    forall i | 0 <= i < |parts| ensures Nested(parts[i]) {
      assert Success(parts[i]) == ElementBlocks(els[i]);
      BlocksOfNested(FieldsOf(els[i]).value);
    }
    NestedConcat(parts);
    NestedAppend([Heading(2, "File: " + group.0)], Concat(parts));
  }

  lemma StructureNested(elements: seq<Element>)
    requires StructureBlocks(elements).Success?
    ensures Nested(StructureBlocks(elements).value)
  {
    var g := Groups(elements);
    CollectParts(g, FileBlocks);
    var parts := Collect(g, FileBlocks).value;
    forall i | 0 <= i < |parts| ensures Nested(parts[i]) {
      FileBlocksNested(g[i]);
    }
    NestedConcat(parts);
  }

  /** The summary holds no top-level heading. */
  lemma CountBlocksNested(byFile: seq<(string, Counts)>, byType: seq<(string, nat)>)
    ensures Nested(CountBlocks(byFile, byType))
  {
    var files := if byFile != [] then [Heading(2, "Files Analyzed")] + FileLines(byFile) else [];
    var types := if byType != [] then [Paragraph(TotalLine(Total(byType)), Normal)] + TypeLines(byType) else [];
    if byFile != [] {
      NestedAppend([Heading(2, "Files Analyzed")], FileLines(byFile));
    }
    NestedAppend(files, types);
  }

  /** Two top-level headings are their own outline. */
  lemma OutlinePair(h: Block, k: Block)
    requires h.Heading? && h.level <= 1 && k.Heading? && k.level <= 1
    ensures Outline([h, k]) == [h, k]
  {
    assert [h, k][..1] == [h];
    assert Outline([h]) == Outline([]) + [h];
  }

  /** A top-level heading followed by a paragraph: only the heading is in the outline. */
  lemma OutlineHeadingParagraph(h: Block, p: Block)
    requires h.Heading? && h.level <= 1 && p.Paragraph?
    ensures Outline([h, p]) == [h]
  {
    assert [h, p][..1] == [h];
    assert Outline([h]) == Outline([]) + [h];
  }

  /** Whatever the summary and the structure hold, the outline is the top-level headings around them. */
  lemma {:induction false} OutlineOf(h0: Block, h1: Block, counts: seq<Block>, h2: Block, structure: seq<Block>, h3: Block, p: Block)
    requires h0.Heading? && h0.level <= 1 && h1.Heading? && h1.level <= 1
    requires h2.Heading? && h2.level <= 1 && h3.Heading? && h3.level <= 1 && p.Paragraph?
    requires Nested(counts) && Nested(structure)
    ensures Outline([h0, h1] + counts + [h2] + structure + [h3, p]) == [h0, h1, h2, h3]
  {
    OutlineNested(structure);
    OutlineNested(counts);
    OutlinePair(h0, h1);
    OutlineHeadingParagraph(h3, p);
    assert Outline([h2]) == [h2] by {
      assert [h2][..0] == [];
    }
    OutlineAppend([h0, h1] + counts + [h2] + structure, [h3, p]);
    OutlineAppend([h0, h1] + counts + [h2], structure);
    OutlineAppend([h0, h1] + counts, [h2]);
    OutlineAppend([h0, h1], counts);
  }

  /**
   * A finished document has exactly four top-level headings: the title, then
   * Summary, Code Structure and AI Explanation, in that order; the
   * explanation is its last block.
   */
  lemma DocumentOutline(elements: seq<Element>, explanation: string, title: string)
    requires DocumentBlocks(elements, explanation, title).Success?
    ensures var blocks := DocumentBlocks(elements, explanation, title).value;
      && Outline(blocks) == [Heading(0, title), Heading(1, "Summary"), Heading(1, "Code Structure"), Heading(1, "AI Explanation")]
      && blocks[|blocks| - 1] == Paragraph(explanation, Normal)
  {
    StructureNested(elements);
    CountBlocksNested(FileCounts(elements), TypeCounts(elements));
    OutlineOf(Heading(0, title), Heading(1, "Summary"), CountBlocks(FileCounts(elements), TypeCounts(elements)),
      Heading(1, "Code Structure"), StructureBlocks(elements).value, Heading(1, "AI Explanation"), Paragraph(explanation, Normal));
  }

  /**
   * Without `python-docx` nothing is built; otherwise the document fails
   * exactly when some element lacks a key its blocks read, and then with the
   * `RuntimeError` text naming that key.
   */
  lemma DocumentOutcomeSpec(elements: seq<Element>, explanation: string, title: string, docxAvailable: bool)
    ensures var r := DocumentOutcome(elements, explanation, title, docxAvailable);
      && (r.None? <==> !docxAvailable)
      && (r.Some? ==> (r.value.Failure? <==> exists e :: e in elements && ElementBlocks(e).Failure?))
      && (r.Some? && r.value.Failure? ==> StartsWith(r.value.error, "Error generating document: '"))
  {
    StructureSucceeds(elements);
  }

  /** The summary counts every element: its total line gives the number of elements, and it is there exactly when there are elements. */
  lemma SummaryTotal(elements: seq<Element>)
    ensures var b := CountBlocks(FileCounts(elements), TypeCounts(elements));
      && (b == [] <==> elements == [])
      && (elements != [] ==> Paragraph(TotalLine(|elements|), Normal) in b)
  {
    TypeCountsSpec(elements);
    AccKeys(elements, FileKey, NoCounts, Tally);
    AccKeys(elements, TypeKey, 0, Tick);
    if elements != [] {
      assert FileKey(elements[0]) in Mapped(elements, FileKey);
      assert TypeKey(elements[0]) in Mapped(elements, TypeKey);
      assert |FileCounts(elements)| > 0 && |TypeCounts(elements)| > 0;
    }
  }
}
