/**
 * code_analysis_tool/cli.py: the text report of `print_analysis` and the exit
 * status of `main`.
 *
 * The report is a list of lines built result by result and joined by
 * newlines. `main` is a decision over what happened along the way: whether
 * the arguments asked for the version, what argument parsing produced,
 * whether the path exists, what the analysis returned or raised, and whether
 * printing the report raised. Each of those is a parameter.
 */
module Cli {
  import opened Wrappers
  import opened Text
  import opened CodeElement
  import opened Analyzer

  // ---------------------------------------------------------------- print_analysis, text format

  /** A quarter of the rule. */
  const QuarterRule: string := "========================="

  /** `'=' * 100`. */
  const Rule: string := QuarterRule + QuarterRule + QuarterRule + QuarterRule

  lemma RuleSpec()
    ensures Rule == Repeat("=", 100)
  {
    RepeatChar('=', 25);
    assert QuarterRule == Repeat("=", 25);
    RepeatAdd("=", 25, 25);
    RepeatAdd("=", 50, 25);
    RepeatAdd("=", 75, 25);
  }

  /** The three header lines of one result; file type and sub-type default to `'unknown'`. */
  function HeaderLines(path: string, a: Analysis): seq<string>
  {
    ["\n" + Rule,
     "File: " + path + " (" + a.fileType.GetOr("unknown") + "/" + a.subType.GetOr("unknown") + ")",
     Rule + "\n"]
  }

  /** One line of the element summary; type and name default to `'element'` and `'unnamed'`. */
  function ElementLine(e: Element): string
  {
    "  - " + e.kind.GetOr("element") + ": " + e.name.GetOr("unnamed")
  }

  function ElementLines(els: seq<Element>): (r: seq<string>)
    ensures |r| == |els|
    ensures forall j :: 0 <= j < |els| ==> r[j] == ElementLine(els[j])
  {
    seq(|els|, j requires 0 <= j < |els| => ElementLine(els[j]))
  }

  /** The element summary, shown only for more than one element. */
  function SummaryLines(els: seq<Element>): seq<string>
  {
    if |els| > 1 then ["\nElements found:"] + ElementLines(els) else []
  }

  /** The lines of one result: the header, then its error alone, or its analysis text and the element summary. */
  function ResultLines(path: string, a: Analysis): seq<string>
  {
    HeaderLines(path, a)
    + if a.error.Some? then ["Error: " + a.error.value + "\n"]
      else [a.analysis.GetOr("No analysis available")] + SummaryLines(a.elements.GetOr([]))
  }

  /**
   * Each result opens with its header. A result with an error holds nothing
   * after it but the error line; any other holds its analysis text (or the
   * default), then one line per element under "Elements found:" exactly when
   * it has more than one element.
   */
  lemma ResultLinesSpec(path: string, a: Analysis)
    ensures var r := ResultLines(path, a);
      var els := a.elements.GetOr([]);
      && |r| >= 4
      && r[..3] == HeaderLines(path, a)
      && (a.error.Some? ==> |r| == 4 && r[3] == "Error: " + a.error.value + "\n")
      && (a.error.None? ==>
        && r[3] == a.analysis.GetOr("No analysis available")
        && |r| == (if |els| > 1 then 5 + |els| else 4)
        && (|els| > 1 ==> r[4] == "\nElements found:" && r[5..] == ElementLines(els)))
  {
    var r := ResultLines(path, a);
    var els := a.elements.GetOr([]);
    if a.error.None? && |els| > 1 {
      var tail := [a.analysis.GetOr("No analysis available")] + SummaryLines(els);
      assert r == HeaderLines(path, a) + tail;
      assert r[5..] == tail[2..];
    }
  }

  function ResultLinesOf(r: (string, Analysis)): seq<string>
  {
    ResultLines(r.0, r.1)
  }

  /** The lines of all results, in the order of the results dictionary. */
  function TextLines(results: seq<(string, Analysis)>): seq<string>
  {
    FlatMap(results, ResultLinesOf)
  }

  /** The blocks of lines, one per result. */
  function PerResult(results: seq<(string, Analysis)>): (r: seq<seq<string>>)
    ensures |r| == |results|
    ensures forall i :: 0 <= i < |results| ==> r[i] == ResultLines(results[i].0, results[i].1)
  {
    seq(|results|, i requires 0 <= i < |results| => ResultLines(results[i].0, results[i].1))
  }

  /** The report is the blocks of the results one after the other, in order. */
  lemma TextLinesSpec(results: seq<(string, Analysis)>)
    ensures TextLines(results) == Concat(PerResult(results))
  {
    FlatMapSpec(results, ResultLinesOf);
    assert Mapped(results, ResultLinesOf) == PerResult(results);
  }

  /** Every result contributes at least its header and one more line. */
  lemma {:induction false} TextLinesLength(results: seq<(string, Analysis)>)
    ensures |TextLines(results)| >= 4 * |results|
  {
    if results != [] {
      var n := |results| - 1;
      TextLinesLength(results[..n]);
      ResultLinesSpec(results[n].0, results[n].1);
      FlatMapSnoc(results, n, ResultLinesOf);
      assert results[..n + 1] == results;
    }
  }

  /** The inner loop: one summary line per element. */
  method AppendElementLines(lines: seq<string>, els: seq<Element>) returns (next: seq<string>)
    ensures next == lines + ElementLines(els)
  {
    next := lines;
    for j := 0 to |els|
      invariant next == lines + ElementLines(els[..j])
    {
      assert ElementLines(els[..j + 1]) == ElementLines(els[..j]) + [ElementLine(els[j])];
      next := next + [ElementLine(els[j])];
    }
    assert els[..|els|] == els;
  }

  /** One turn of the outer loop: the header, then the error and `continue`, or the analysis and the summary. */
  method AppendResult(lines: seq<string>, path: string, a: Analysis) returns (next: seq<string>)
    ensures next == lines + ResultLines(path, a)
  {
    var fileType := a.fileType.GetOr("unknown");
    var subType := a.subType.GetOr("unknown");
    next := lines + ["\n" + Rule];
    next := next + ["File: " + path + " (" + fileType + "/" + subType + ")"];
    next := next + [Rule + "\n"];
    assert next == lines + HeaderLines(path, a);
    if a.error.Some? {
      next := next + ["Error: " + a.error.value + "\n"];
      return;
    }
    var text := a.analysis.GetOr("No analysis available");
    next := next + [text];
    var els := a.elements.GetOr([]);
    ghost var before := next;
    if els != [] && |els| > 1 {
      next := next + ["\nElements found:"];
      next := AppendElementLines(next, els);
    }
    assert next == before + SummaryLines(els);
  }

  /** The text branch of `print_analysis`: the lines of every result, joined by newlines. */
  method RenderText(results: seq<(string, Analysis)>) returns (output: string)
    ensures output == Join("\n", TextLines(results))
  {
    var lines: seq<string> := [];
    for i := 0 to |results|
      invariant lines == TextLines(results[..i])
    {
      FlatMapSnoc(results, i, ResultLinesOf);
      lines := AppendResult(lines, results[i].0, results[i].1);
    }
    assert results[..|results|] == results;
    output := Join("\n", lines);
  }

  // ---------------------------------------------------------------- main

  /** What `parse_args` produced: the two flags `main` reads, or argparse's own exit with its status. */
  datatype Parse = Parsed(version: bool, listExtensions: bool) | Rejected(status: int)

  /**
   * What happened after parsing: whether the path exists, the number of
   * results the analysis returned or the exception it raised (an interrupt
   * included), and whether printing the report raised.
   */
  datatype Run = Run(pathExists: bool, analysed: Result<nat, string>, printed: Result<(), string>)

  /** How `main` ends: it returns a status, or argparse's `SystemExit` passes through it. */
  datatype Exit = Returned(status: int) | Exited(status: int)

  /** The flags that make `main` print the version before parsing. */
  predicate AsksVersion(args: seq<string>)
  {
    "--version" in args || "-v" in args
  }

  function MainExit(args: seq<string>, parse: Parse, run: Run): Exit
  {
    if AsksVersion(args) then Returned(0)
    else
      match parse
      case Rejected(status) => Exited(status)
      case Parsed(version, listExtensions) =>
        if version || listExtensions then Returned(0)
        else if !run.pathExists then Returned(1)
        else
          match run.analysed
          case Failure(_) => Returned(1)
          case Success(n) =>
            if n == 0 then Returned(0)
            else if run.printed.Failure? then Returned(1)
            else Returned(0)
  }

  /**
   * `main` returns 0 or 1 unless argparse exits on its own; it returns 1
   * exactly when, past the version and list flags, the path is missing, the
   * analysis raises, or printing a non-empty report raises.
   */
  lemma MainExitSpec(args: seq<string>, parse: Parse, run: Run)
    ensures var e := MainExit(args, parse, run);
      && (e.Exited? <==> !AsksVersion(args) && parse.Rejected?)
      && (e.Returned? ==> e.status == 0 || e.status == 1)
      && (e == Returned(1) <==>
        && !AsksVersion(args) && parse.Parsed? && !parse.version && !parse.listExtensions
        && (|| !run.pathExists
            || run.analysed.Failure?
            || (run.analysed.value > 0 && run.printed.Failure?)))
  {
  }

  /** The version flag wins over everything else, whatever follows it. */
  lemma VersionFirst(args: seq<string>, parse: Parse, run: Run)
    requires AsksVersion(args)
    ensures MainExit(args, parse, run) == Returned(0)
  {
  }
}
