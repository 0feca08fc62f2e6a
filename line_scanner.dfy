/**
 * The generic line scanner of the analysis tool: for a code file in a
 * language other than Python, split the text into lines, drop blank and
 * comment lines, start an element at every line the language's pattern
 * matches, and let every later line extend the element in progress.
 *
 * Regular-expression matching is not modelled: `Search` stands for
 * `re.search`, and every statement here holds whatever it returns. The
 * comment-prefix test and the keyword sniff that labels an element are
 * plain string tests and are modelled exactly.
 *
 * `ExtractGenericCodeElements` is the loop; `GenericElements` is an
 * independent description of its result in terms of blocks: the kept
 * lines are cut at every matching line, and each block from a matching
 * line up to the next one becomes one element.
 */
module LineScanner {
  import opened Wrappers
  import opened Text
  import opened CodeElement

  /** The groups of a match, `match.groups()`: one entry per capturing group of the pattern. */
  type Groups = g: seq<string> | |g| >= 1 witness [""]

  /** `re.Match(search, pattern, line)`: the groups of the first match, or `None` when nothing matches. */
  type Search = (string, string) -> Option<Groups>

  /** The declaration pattern of each language. */
  const Patterns: map<string, string> := map[
    "javascript" := @"(?:function|class|const|let|var)\s+([a-zA-Z0-9_$]+)",
    "typescript" := @"(?:function|class|interface|type|enum|const|let|var)\s+([a-zA-Z0-9_$]+)",
    "java" := @"(?:public|private|protected|static|final|native|synchronized|abstract|transient|class|interface|enum)\s+([a-zA-Z0-9_$<>, ]+?)[\s<{]",
    "c" := @"(?:#define|typedef|struct|union|enum|void|int|char|float|double)\s+([a-zA-Z0-9_]+)",
    "cpp" := @"(?:class|struct|union|enum|namespace|template|using)\s+([a-zA-Z0-9_:]+)",
    "csharp" := @"(?:class|interface|struct|enum|delegate|namespace|using)\s+([a-zA-Z0-9_.]+)",
    "go" := @"func\s+(\([^)]+\)\s+)?([a-zA-Z0-9_]+)",
    "rust" := @"(?:fn|struct|enum|trait|impl|mod)\s+([a-zA-Z0-9_]+)",
    "ruby" := @"(?:def|class|module)\s+([a-zA-Z0-9_]+[?!]?)",
    "php" := @"(?:function|class|interface|trait|namespace)\s+([a-zA-Z0-9_]+)",
    "swift" := @"(?:func|class|struct|enum|protocol|extension|typealias)\s+([a-zA-Z0-9_]+)",
    "kotlin" := @"(?:fun|class|interface|object|typealias|val|var)\s+([a-zA-Z0-9_]+)",
    "scala" := @"(?:def|class|trait|object|type|val|var)\s+([a-zA-Z0-9_]+)",
    "shell" := @"(?:function\s+)?([a-zA-Z0-9_]+)\s*\(\s*\)",
    "perl" := @"sub\s+([a-zA-Z0-9_]+)",
    "r" := @"([a-zA-Z0-9_.]+)\s*<\-\s*function",
    "matlab" := @"function\s+(?:\[.*\]\s*=\s*)?([a-zA-Z0-9_]+)",
    "julia" := @"(?:function|struct|mutable\s+struct|abstract\s+type|primitive\s+type)\s+([a-zA-Z0-9_!]+)"]

  /** The pattern used for a language without an entry of its own. */
  const DefaultPattern: string := @"\b(function|class|def|fn|fun|sub|proc)\s+([a-zA-Z0-9_]+)"

  function PatternFor(language: string): string
  {
    if language in Patterns then Patterns[language] else DefaultPattern
  }

  /** A stripped line that is empty or opens with a comment marker is skipped. */
  predicate Skipped(s: string)
  {
    || s == []
    || StartsWith(s, "//") || StartsWith(s, "/*") || StartsWith(s, "*") || StartsWith(s, "--")
    || StartsWith(s, "#") || StartsWith(s, "--[") || StartsWith(s, "--[[")
  }

  /** The two Lua block-comment markers add nothing: `--` already covers them. */
  lemma SkippedFivePrefixes(s: string)
    ensures Skipped(s) <==>
      || s == []
      || StartsWith(s, "//") || StartsWith(s, "/*") || StartsWith(s, "*") || StartsWith(s, "--") || StartsWith(s, "#")
  {
    if StartsWith(s, "--[") {
      assert s[..2] == s[..3][..2];
    }
    if StartsWith(s, "--[[") {
      assert s[..2] == s[..4][..2];
    }
  }

  /** A line kept by the scanner: its 1-based number and its stripped text. */
  datatype Line = Line(number: nat, text: string)

  /** Every line stripped of surrounding whitespace. */
  function StripAll(lines: seq<string>): (r: seq<string>)
    ensures |r| == |lines|
    ensures forall i :: 0 <= i < |lines| ==> r[i] == Strip(lines[i])
  {
    seq(|lines|, i requires 0 <= i < |lines| => Strip(lines[i]))
  }

  /** The lines the scanner looks at, given the stripped lines: numbered from 1, skipped ones left out. */
  function Kept(texts: seq<string>): seq<Line>
  {
    if texts == [] then []
    else
      var n := |texts| - 1;
      if Skipped(texts[n]) then Kept(texts[..n]) else Kept(texts[..n]) + [Line(n + 1, texts[n])]
  }

  /** Kept lines come from the input: each has a line number in range, that line's text, and is not skipped. */
  lemma {:induction false} KeptFromTexts(texts: seq<string>)
    ensures forall k :: 0 <= k < |Kept(texts)| ==>
      && 1 <= Kept(texts)[k].number <= |texts|
      && Kept(texts)[k].text == texts[Kept(texts)[k].number - 1]
      && !Skipped(Kept(texts)[k].text)
  {
    if texts != [] {
      var n := |texts| - 1;
      var ps := Kept(texts[..n]);
      KeptFromTexts(texts[..n]);
      var ks := Kept(texts);
      assert ks[..|ps|] == ps;
      forall k | 0 <= k < |ks|
        ensures 1 <= ks[k].number <= |texts| && ks[k].text == texts[ks[k].number - 1] && !Skipped(ks[k].text)
      {
        if k < |ps| {
          assert ks[k] == ps[k];
          assert texts[..n][ps[k].number - 1] == texts[ps[k].number - 1];
        }
      }
    }
  }

  /** Kept lines are in strictly increasing line order. */
  lemma {:induction false} KeptIncreasing(texts: seq<string>)
    ensures forall k, m :: 0 <= k < m < |Kept(texts)| ==> Kept(texts)[k].number < Kept(texts)[m].number
  {
    if texts != [] {
      var n := |texts| - 1;
      var ps := Kept(texts[..n]);
      KeptIncreasing(texts[..n]);
      KeptFromTexts(texts[..n]);
      var ks := Kept(texts);
      assert ks[..|ps|] == ps;
      forall k, m | 0 <= k < m < |ks| ensures ks[k].number < ks[m].number {
        assert ks[k] == ps[k];
        assert ps[k].number <= n;
        if m < |ps| {
          assert ks[m] == ps[m];
        } else {
          assert ks[m].number == n + 1;
        }
      }
    }
  }

  /** Every line that is not skipped is kept. */
  lemma {:induction false} KeptComplete(texts: seq<string>)
    ensures forall i :: 0 <= i < |texts| && !Skipped(texts[i]) ==>
      exists k :: 0 <= k < |Kept(texts)| && Kept(texts)[k].number == i + 1
  {
    if texts != [] {
      var n := |texts| - 1;
      var ps := Kept(texts[..n]);
      KeptComplete(texts[..n]);
      var ks := Kept(texts);
      assert ks[..|ps|] == ps;
      forall i | 0 <= i < |texts| && !Skipped(texts[i]) ensures exists k :: 0 <= k < |Kept(texts)| && Kept(texts)[k].number == i + 1 {
        if i < n {
          assert texts[..n][i] == texts[i];
          var k :| 0 <= k < |ps| && ps[k].number == i + 1;
          assert ks[k] == ps[k];
          assert 0 <= k < |Kept(texts)| && Kept(texts)[k].number == i + 1;
        } else {
          assert ks == ps + [Line(n + 1, texts[n])];
          assert Kept(texts)[|ks| - 1].number == i + 1;
        }
      }
    }
  }

  /** `re.search(pattern, line)`. */
  function Match(search: Search, pattern: string, line: string): Option<Groups>
  {
    search(pattern, line)
  }

  /** Whether the pattern matches a kept line. */
  predicate IsHeader(search: Search, pattern: string, l: Line)
  {
    Match(search, pattern, l.text).Some?
  }

  /** A stretch of kept lines: a matching line, the groups of its match, and the lines up to the next match. */
  datatype Block = Block(head: Line, groups: Groups, body: seq<Line>)

  /**
   * The blocks of the kept lines: a matching line opens a block, any other
   * line joins the open block, and lines before the first match join none.
   */
  function Blocks(ks: seq<Line>, search: Search, pattern: string): seq<Block>
  {
    if ks == [] then []
    else
      var n := |ks| - 1;
      var bs := Blocks(ks[..n], search, pattern);
      var m := Match(search, pattern, ks[n].text);
      if m.Some? then bs + [Block(ks[n], m.value, [])]
      else if bs == [] then []
      else bs[..|bs| - 1] + [bs[|bs| - 1].(body := bs[|bs| - 1].body + [ks[n]])]
  }

  /** All the lines of the blocks, block after block. */
  function LinesOf(bs: seq<Block>): seq<Line>
  {
    if bs == [] then [] else [bs[0].head] + bs[0].body + LinesOf(bs[1..])
  }

  lemma {:induction false} LinesOfAppend(bs: seq<Block>, cs: seq<Block>)
    ensures LinesOf(bs + cs) == LinesOf(bs) + LinesOf(cs)
  {
    if bs != [] {
      assert (bs + cs)[1..] == bs[1..] + cs;
      LinesOfAppend(bs[1..], cs);
    } else {
      assert bs + cs == cs;
    }
  }

  /** The block structure after one more kept line. */
  lemma BlocksSnoc(ks: seq<Line>, l: Line, search: Search, pattern: string)
    ensures var bs := Blocks(ks, search, pattern);
      Blocks(ks + [l], search, pattern) ==
        if Match(search, pattern, l.text).Some? then bs + [Block(l, Match(search, pattern, l.text).value, [])]
        else if bs == [] then []
        else bs[..|bs| - 1] + [bs[|bs| - 1].(body := bs[|bs| - 1].body + [l])]
  {
    assert (ks + [l])[..|ks|] == ks;
  }

  lemma LinesOfSingle(b: Block)
    ensures LinesOf([b]) == [b.head] + b.body
  {
    assert [b][1..] == [];
  }

  /** A new block adds its lines at the end. */
  lemma LinesOfSnocBlock(bs: seq<Block>, b: Block)
    ensures LinesOf(bs + [b]) == LinesOf(bs) + [b.head] + b.body
  {
    LinesOfAppend(bs, [b]);
    LinesOfSingle(b);
  }

  /** A line added to the last block comes last. */
  lemma LinesOfExtendLast(init: seq<Block>, last: Block, l: Line)
    ensures LinesOf(init + [last.(body := last.body + [l])]) == LinesOf(init + [last]) + [l]
  {
    LinesOfSnocBlock(init, last);
    LinesOfSnocBlock(init, last.(body := last.body + [l]));
    Regroup(LinesOf(init), last.head, last.body, l);
  }

  lemma Regroup<T>(a: seq<T>, h: T, b: seq<T>, x: T)
    ensures a + [h] + (b + [x]) == a + [h] + b + [x]
  {
  }

  lemma SuffixSnoc<T>(xs: seq<T>, p: int, x: T)
    requires 0 <= p <= |xs|
    ensures (xs + [x])[p..] == xs[p..] + [x]
  {
  }

  /** One more kept line either joins the lines of the blocks or, before any match, joins none. */
  lemma BlocksLinesSnoc(ks: seq<Line>, l: Line, search: Search, pattern: string)
    ensures LinesOf(Blocks(ks + [l], search, pattern)) ==
      if Blocks(ks, search, pattern) == [] && !IsHeader(search, pattern, l) then []
      else LinesOf(Blocks(ks, search, pattern)) + [l]
  {
    BlocksSnoc(ks, l, search, pattern);
    var bs := Blocks(ks, search, pattern);
    var r := Blocks(ks + [l], search, pattern);
    if Match(search, pattern, l.text).Some? {
      var b := Block(l, Match(search, pattern, l.text).value, []);
      assert r == bs + [b];
      LinesOfSnocBlock(bs, b);
    } else if bs != [] {
      var init, last := bs[..|bs| - 1], bs[|bs| - 1];
      assert bs == init + [last];
      assert r == init + [last.(body := last.body + [l])];
      LinesOfExtendLast(init, last, l);
    } else {
      assert r == [];
    }
  }

  /** The blocks hold, in order, exactly the kept lines from the first matching line on. */
  lemma {:induction false} BlocksLines(ks: seq<Line>, search: Search, pattern: string)
    ensures |LinesOf(Blocks(ks, search, pattern))| <= |ks|
    ensures LinesOf(Blocks(ks, search, pattern)) == ks[|ks| - |LinesOf(Blocks(ks, search, pattern))|..]
  {
    if ks != [] {
      var init, l := ks[..|ks| - 1], ks[|ks| - 1];
      assert ks == init + [l];
      BlocksLines(init, search, pattern);
      BlocksLinesSnoc(init, l, search, pattern);
      var prev := LinesOf(Blocks(init, search, pattern));
      var cur := LinesOf(Blocks(ks, search, pattern));
      if cur == [] {
        assert ks[|ks|..] == [];
      } else {
        assert cur == prev + [l];
        SuffixSnoc(init, |init| - |prev|, l);
      }
    }
  }

  /** No kept line before the first block matches: such lines belong to no element. */
  lemma {:induction false} BlocksLead(ks: seq<Line>, search: Search, pattern: string)
    ensures forall i :: 0 <= i < |ks| - |LinesOf(Blocks(ks, search, pattern))| ==> !IsHeader(search, pattern, ks[i])
  {
    if ks != [] {
      var n := |ks| - 1;
      var l := ks[n];
      assert ks == ks[..n] + [l];
      BlocksLead(ks[..n], search, pattern);
      BlocksLinesSnoc(ks[..n], l, search, pattern);
      var prev := LinesOf(Blocks(ks[..n], search, pattern));
      var cur := LinesOf(Blocks(ks, search, pattern));
      assert Blocks(ks[..n], search, pattern) == [] <==> prev == [];
      forall i | 0 <= i < |ks| - |cur| ensures !IsHeader(search, pattern, ks[i]) {
        if i < n {
          assert ks[..n][i] == ks[i];
        }
      }
    }
  }

  /** Every block opens with a line the pattern matches, and keeps the groups of that match. */
  lemma {:induction false} BlocksHeads(ks: seq<Line>, search: Search, pattern: string)
    ensures forall j :: 0 <= j < |Blocks(ks, search, pattern)| ==>
      Match(search, pattern, Blocks(ks, search, pattern)[j].head.text) == Some(Blocks(ks, search, pattern)[j].groups)
  {
    if ks != [] {
      var n := |ks| - 1;
      assert ks == ks[..n] + [ks[n]];
      BlocksHeads(ks[..n], search, pattern);
      BlocksSnoc(ks[..n], ks[n], search, pattern);
    }
  }

  /** No line of a block other than its first matches the pattern. */
  lemma {:induction false} BlocksBodies(ks: seq<Line>, search: Search, pattern: string)
    ensures forall j, i :: 0 <= j < |Blocks(ks, search, pattern)| && 0 <= i < |Blocks(ks, search, pattern)[j].body| ==>
      !IsHeader(search, pattern, Blocks(ks, search, pattern)[j].body[i])
  {
    if ks != [] {
      var n := |ks| - 1;
      var l := ks[n];
      assert ks == ks[..n] + [l];
      BlocksBodies(ks[..n], search, pattern);
      BlocksSnoc(ks[..n], l, search, pattern);
      var bs := Blocks(ks[..n], search, pattern);
      var r := Blocks(ks, search, pattern);
      forall j, i | 0 <= j < |r| && 0 <= i < |r[j].body| ensures !IsHeader(search, pattern, r[j].body[i]) {
        if j < |bs| && (Match(search, pattern, l.text).Some? || j < |bs| - 1) {
          assert r[j] == bs[j];
        } else if j < |bs| && i < |bs[j].body| {
          assert r[j].body[i] == bs[j].body[i];
        }
      }
    }
  }

  /** `'Function'` when the lower-cased line mentions `function`, `def ` or `fn `, otherwise `'Class'`. */
  function KindOf(line: string): string
  {
    var low := Lower(line);
    if Contains(low, "function") || Contains(low, "def ") || Contains(low, "fn ") then "Function" else "Class"
  }

  /** The name: the only group when the pattern has one, otherwise the second, stripped. */
  function NameOf(g: Groups): string
  {
    Strip(if |g| == 1 then g[0] else g[1])
  }

  function LineText(l: Line): string
  {
    l.text
  }

  /** The last line of a block. */
  function LastLine(b: Block): Line
  {
    if b.body == [] then b.head else b.body[|b.body| - 1]
  }

  /**
   * The element a block becomes: kind and name from its first line, its
   * lines joined by newlines as source, and its first and last line numbers.
   */
  function ElementOf(b: Block, language: string): Element
  {
    Element(
      Some(KindOf(b.head.text)), Some(NameOf(b.groups)), Some(""),
      Some(Join("\n", Mapped([b.head] + b.body, LineText))), Some(b.head.number), Some(LastLine(b).number),
      None, None, Some(language), None, None)
  }

  /** The element of a block one line longer: one more source line, a later end line, nothing else changed. */
  lemma ElementOfExtend(b: Block, language: string, l: Line)
    ensures var e := ElementOf(b, language);
      ElementOf(b.(body := b.body + [l]), language) == e.(source := Some(e.source.value + "\n" + l.text), endLine := Some(l.number))
  {
    var ls := [b.head] + b.body;
    assert [b.head] + (b.body + [l]) == ls + [l];
    assert Mapped(ls + [l], LineText) == Mapped(ls, LineText) + [l.text];
    JoinSnoc("\n", Mapped(ls, LineText), l.text);
  }

  /** The single element returned when no line matches. */
  function Fallback(code: string, language: string): Element
  {
    Record("File", "content", "No structured elements found", Preview(code), language)
  }

  /** `ElementOf` for one language, as a value. */
  function ElementFor(language: string): Block -> Element
  {
    b => ElementOf(b, language)
  }

  /** One value per block, in block order. */
  /** The scanner's result: one element per block, or the fallback when there is no block; never empty. */
  function GenericElements(code: string, language: string, search: Search): (r: seq<Element>)
    ensures |r| >= 1
  {
    var bs := Blocks(Kept(StripAll(Split(code, '\n'))), search, PatternFor(language));
    if bs == [] then [Fallback(code, language)] else Mapped(bs, ElementFor(language))
  }

  /**
   * The loop state for the blocks so far: the values `f` gives all blocks but
   * the last, and the last one's value in progress.
   */
  ghost predicate ScanState<E>(bs: seq<Block>, f: Block -> E, elements: seq<E>, current: Option<E>)
  {
    if bs == [] then elements == [] && current == None
    else
      && |elements| == |bs| - 1
      && (forall j :: 0 <= j < |bs| - 1 ==> elements[j] == f(bs[j]))
      && current == Some(f(bs[|bs| - 1]))
  }

  /** The element a matching line opens: its kind, its name, the line as source, and the line number as start and end. */
  function HeadElement(line: string, number: nat, g: Groups, language: string): Element
  {
    Element(Some(KindOf(line)), Some(NameOf(g)), Some(""), Some(line), Some(number), Some(number),
      None, None, Some(language), None, None)
  }

  /** The element in progress after one more line: the line appended to the source, the end moved to it. */
  function ExtendElement(e: Element, line: string, number: nat): Element
    requires e.source.Some?
  {
    e.(source := Some(e.source.value + "\n" + line), endLine := Some(number))
  }

  /** The loop body: what one stripped line, numbered from 1, does to the elements closed so far and the one in progress. */
  function ScanStep(elements: seq<Element>, current: Option<Element>, line: string, number: nat, language: string, search: Search, pattern: string)
    : (seq<Element>, Option<Element>)
  {
    if Skipped(line) then (elements, current)
    else match Match(search, pattern, line)
      case Some(g) => (if current.Some? then elements + [current.value] else elements, Some(HeadElement(line, number, g, language)))
      case None =>
        if current.Some? && current.value.source.Some? then (elements, Some(ExtendElement(current.value, line, number)))
        else (elements, current)
  }

  /** The loop state after the first `i` stripped lines. */
  function ScanPrefix(texts: seq<string>, i: nat, language: string, search: Search, pattern: string): (seq<Element>, Option<Element>)
    requires i <= |texts|
  {
    if i == 0 then ([], None)
    else
      var (elements, current) := ScanPrefix(texts, i - 1, language, search, pattern);
      ScanStep(elements, current, texts[i - 1], i, language, search, pattern)
  }

  /** The element of a block that is only its matching line. */
  lemma ElementOfHead(l: Line, g: Groups, language: string)
    ensures ElementFor(language)(Block(l, g, [])) == HeadElement(l.text, l.number, g, language)
  {
    assert Mapped([l], LineText) == [l.text];
  }

  /** A matching line closes the element in progress and opens a new one. */
  lemma ScanHeaderStep<E>(bs: seq<Block>, f: Block -> E, elements: seq<E>, current: Option<E>, b: Block)
    requires ScanState(bs, f, elements, current)
    ensures ScanState(bs + [b], f, elements + (if current.Some? then [current.value] else []), Some(f(b)))
  {
  }

  /** Any other kept line extends the element in progress, when there is one. */
  lemma ScanBodyStep<E>(bs: seq<Block>, f: Block -> E, elements: seq<E>, current: Option<E>, l: Line, next: E)
    requires ScanState(bs, f, elements, current)
    requires bs != [] && next == f(bs[|bs| - 1].(body := bs[|bs| - 1].body + [l]))
    ensures current.Some?
    ensures ScanState(bs[..|bs| - 1] + [bs[|bs| - 1].(body := bs[|bs| - 1].body + [l])], f, elements, Some(next))
  {
  }

  /** The kept lines after one more line of the file. */
  lemma KeptSnoc(texts: seq<string>, i: nat)
    requires i < |texts|
    ensures Kept(texts[..i + 1]) == if Skipped(texts[i]) then Kept(texts[..i]) else Kept(texts[..i]) + [Line(i + 1, texts[i])]
  {
    assert texts[..i + 1][..i] == texts[..i];
  }

  /** Closing the last element in progress gives one value per block. */
  lemma ScanFinish<E>(bs: seq<Block>, f: Block -> E, elements: seq<E>, current: Option<E>)
    requires ScanState(bs, f, elements, current)
    ensures bs == [] <==> current == None
    ensures bs != [] ==> elements + [current.value] == Mapped(bs, f)
  {
  }

  /** A blank or comment line changes nothing. */
  lemma SkipStep<E>(texts: seq<string>, i: nat, search: Search, pattern: string, f: Block -> E, elements: seq<E>, current: Option<E>)
    requires i < |texts| && Skipped(texts[i])
    requires ScanState(Blocks(Kept(texts[..i]), search, pattern), f, elements, current)
    ensures ScanState(Blocks(Kept(texts[..i + 1]), search, pattern), f, elements, current)
  {
    KeptSnoc(texts, i);
  }

  /** A matching line closes the element in progress and opens a new one. */
  lemma HeaderStep<E>(texts: seq<string>, i: nat, search: Search, pattern: string, f: Block -> E, elements: seq<E>, current: Option<E>, g: Groups)
    requires i < |texts| && !Skipped(texts[i]) && Match(search, pattern, texts[i]) == Some(g)
    requires ScanState(Blocks(Kept(texts[..i]), search, pattern), f, elements, current)
    ensures ScanState(Blocks(Kept(texts[..i + 1]), search, pattern), f,
      elements + (if current.Some? then [current.value] else []), Some(f(Block(Line(i + 1, texts[i]), g, []))))
  {
    KeptSnoc(texts, i);
    var ks := Kept(texts[..i]);
    var l := Line(i + 1, texts[i]);
    BlocksSnoc(ks, l, search, pattern);
    ScanHeaderStep(Blocks(ks, search, pattern), f, elements, current, Block(l, g, []));
  }

  /** A kept line before the first match joins no element. */
  lemma LeadStep<E>(texts: seq<string>, i: nat, search: Search, pattern: string, f: Block -> E, elements: seq<E>)
    requires i < |texts| && !Skipped(texts[i]) && Match(search, pattern, texts[i]).None?
    requires ScanState(Blocks(Kept(texts[..i]), search, pattern), f, elements, None)
    ensures ScanState(Blocks(Kept(texts[..i + 1]), search, pattern), f, elements, None)
  {
    KeptSnoc(texts, i);
    BlocksSnoc(Kept(texts[..i]), Line(i + 1, texts[i]), search, pattern);
  }

  /** Any other kept line extends the element in progress: one more source line and a later end line. */
  lemma BodyStep(texts: seq<string>, i: nat, search: Search, pattern: string, language: string, elements: seq<Element>, e: Element)
    requires i < |texts| && !Skipped(texts[i]) && Match(search, pattern, texts[i]).None?
    requires ScanState(Blocks(Kept(texts[..i]), search, pattern), ElementFor(language), elements, Some(e))
    ensures e.source.Some?
    ensures ScanState(Blocks(Kept(texts[..i + 1]), search, pattern), ElementFor(language), elements, Some(ExtendElement(e, texts[i], i + 1)))
  {
    KeptSnoc(texts, i);
    var ks := Kept(texts[..i]);
    var bs := Blocks(ks, search, pattern);
    var l := Line(i + 1, texts[i]);
    BlocksSnoc(ks, l, search, pattern);
    ElementOfExtend(bs[|bs| - 1], language, l);
    ScanBodyStep(bs, ElementFor(language), elements, Some(e), l, ExtendElement(e, texts[i], i + 1));
  }

  /** After any number of lines, the loop state is the element of every block so far, the last one still open. */
  lemma {:induction false} ScanPrefixState(texts: seq<string>, i: nat, language: string, search: Search, pattern: string)
    requires i <= |texts|
    ensures ScanState(Blocks(Kept(texts[..i]), search, pattern), ElementFor(language),
      ScanPrefix(texts, i, language, search, pattern).0, ScanPrefix(texts, i, language, search, pattern).1)
  {
    if i == 0 {
      assert texts[..0] == [];
    } else {
      var j := i - 1;
      ScanPrefixState(texts, j, language, search, pattern);
      var (elements, current) := ScanPrefix(texts, j, language, search, pattern);
      var line := texts[j];
      if Skipped(line) {
        SkipStep(texts, j, search, pattern, ElementFor(language), elements, current);
      } else if Match(search, pattern, line).Some? {
        var g := Match(search, pattern, line).value;
        HeaderStep(texts, j, search, pattern, ElementFor(language), elements, current, g);
        ElementOfHead(Line(i, line), g, language);
      } else if current.Some? {
        BodyStep(texts, j, search, pattern, language, elements, current.value);
      } else {
        LeadStep(texts, j, search, pattern, ElementFor(language), elements);
      }
    }
  }

  /** The elements at the end of the file: those closed so far, then the one in progress. */
  function Close(state: (seq<Element>, Option<Element>)): seq<Element>
  {
    if state.1.Some? then state.0 + [state.1.value] else state.0
  }

  /** Run over all lines, the loop closes exactly the blocks' elements, in order. */
  lemma ScanPrefixBlocks(texts: seq<string>, language: string, search: Search, pattern: string)
    ensures Close(ScanPrefix(texts, |texts|, language, search, pattern)) == Mapped(Blocks(Kept(texts), search, pattern), ElementFor(language))
  {
    ScanPrefixState(texts, |texts|, language, search, pattern);
    assert texts[..|texts|] == texts;
    var state := ScanPrefix(texts, |texts|, language, search, pattern);
    ScanFinish(Blocks(Kept(texts), search, pattern), ElementFor(language), state.0, state.1);
  }

  /** At the end of the file, closing the element in progress, or falling back when there is none, gives the scanner's result. */
  lemma ScanPrefixResult(code: string, language: string, search: Search)
    ensures var texts := StripAll(Split(code, '\n'));
      var closed := Close(ScanPrefix(texts, |texts|, language, search, PatternFor(language)));
      GenericElements(code, language, search) == if closed == [] then [Fallback(code, language)] else closed
  {
    var texts := StripAll(Split(code, '\n'));
    ScanPrefixBlocks(texts, language, search, PatternFor(language));
  }

  /** One pass of the loop body on the stripped line numbered `number`. */
  method ScanLine(elements: seq<Element>, current: Option<Element>, line: string, number: nat, language: string, search: Search, pattern: string)
    returns (elements': seq<Element>, current': Option<Element>)
    ensures (elements', current') == ScanStep(elements, current, line, number, language, search, pattern)
  {
    elements', current' := elements, current;
    if !Skipped(line) {
      var m := Match(search, pattern, line);
      if m.Some? {
        if current.Some? {
          elements' := elements + [current.value];
        }
        current' := Some(Element(
          Some(KindOf(line)), Some(NameOf(m.value)), Some(""), Some(line), Some(number), Some(number),
          None, None, Some(language), None, None));
      } else if current.Some? && current.value.source.Some? {
        current' := Some(current.value.(source := Some(current.value.source.value + "\n" + line), endLine := Some(number)));
      }
    }
  }

  /** Every state the loop reaches keeps a source text on the element in progress. */
  lemma {:induction false} ScanPrefixSource(texts: seq<string>, i: nat, language: string, search: Search, pattern: string)
    requires i <= |texts|
    ensures var current := ScanPrefix(texts, i, language, search, pattern).1;
      current.Some? ==> current.value.source.Some?
  {
    if i > 0 {
      ScanPrefixSource(texts, i - 1, language, search, pattern);
    }
  }

  /**
   * The loop of `_extract_generic_code_elements`: the elements closed so far
   * and the one in progress, after every stripped line.
   */
  method ScanLines(texts: seq<string>, language: string, search: Search, pattern: string) returns (elements: seq<Element>, current: Option<Element>)
    ensures (elements, current) == ScanPrefix(texts, |texts|, language, search, pattern)
  {
    elements := [];
    current := None;
    var i := 0;
    while i < |texts|
      invariant 0 <= i <= |texts|
      invariant (elements, current) == ScanPrefix(texts, i, language, search, pattern)
    {
      elements, current := ScanLine(elements, current, texts[i], i + 1, language, search, pattern);
      i := i + 1;
    }
  }

  /** `_extract_generic_code_elements`: scan the lines, close the last element, fall back when there is none. */
  method ExtractGenericCodeElements(code: string, language: string, search: Search) returns (elements: seq<Element>)
    ensures elements == GenericElements(code, language, search)
  {
    var texts := StripAll(Split(code, '\n'));
    var pattern := PatternFor(language);
    var current;
    elements, current := ScanLines(texts, language, search, pattern);
    ScanPrefixResult(code, language, search);
    if current.Some? {
      elements := elements + [current.value];
    }
    if elements == [] {
      elements := [Fallback(code, language)];
    }
  }

  /** Lines in strictly increasing line order. */
  predicate Increasing(ls: seq<Line>)
  {
    forall k, m :: 0 <= k < m < |ls| ==> ls[k].number < ls[m].number
  }

  /** Each element's lines run forwards, and each element ends before the next one starts. */
  predicate InLineOrder(es: seq<Element>)
  {
    forall j :: 0 <= j < |es| && es[j].startLine.Some? ==>
      && es[j].endLine.Some? && es[j].startLine.value <= es[j].endLine.value
      && (j + 1 < |es| ==> es[j + 1].startLine.Some? && es[j].endLine.value < es[j + 1].startLine.value)
  }

  /** Blocks cut from increasing lines: each runs forwards and ends before the next begins. */
  lemma {:induction false} BlocksOrdered(bs: seq<Block>)
    requires Increasing(LinesOf(bs))
    ensures forall j :: 0 <= j < |bs| ==> bs[j].head.number <= LastLine(bs[j]).number
    ensures forall j :: 0 <= j < |bs| - 1 ==> LastLine(bs[j]).number < bs[j + 1].head.number
  {
    if bs != [] {
      var ls := LinesOf(bs);
      var b := bs[0];
      var rest := LinesOf(bs[1..]);
      assert ls == [b.head] + b.body + rest;
      assert b.head == ls[0];
      assert LastLine(b) == ls[|b.body|];
      assert b.head.number <= LastLine(b).number;
      assert Increasing(rest) by {
        forall k, m | 0 <= k < m < |rest| ensures rest[k].number < rest[m].number {
          assert rest[k] == ls[1 + |b.body| + k] && rest[m] == ls[1 + |b.body| + m];
        }
      }
      BlocksOrdered(bs[1..]);
      if |bs| > 1 {
        assert bs[1..][0] == bs[1];
        assert rest[0] == bs[1].head;
        assert bs[1].head == ls[1 + |b.body|];
        assert LastLine(bs[0]).number < bs[1].head.number;
      }
      forall j | 1 <= j < |bs| ensures bs[j].head.number <= LastLine(bs[j]).number {
        assert bs[j] == bs[1..][j - 1];
      }
      forall j | 1 <= j < |bs| - 1 ensures LastLine(bs[j]).number < bs[j + 1].head.number {
        assert bs[j] == bs[1..][j - 1] && bs[j + 1] == bs[1..][j];
      }
    }
  }

  /** The lines of the blocks of the kept lines are in increasing order. */
  lemma BlockLinesIncreasing(texts: seq<string>, search: Search, pattern: string)
    ensures Increasing(LinesOf(Blocks(Kept(texts), search, pattern)))
  {
    var ks := Kept(texts);
    KeptIncreasing(texts);
    BlocksLines(ks, search, pattern);
    var ls := LinesOf(Blocks(ks, search, pattern));
    var p := |ks| - |ls|;
    forall k, m | 0 <= k < m < |ls| ensures ls[k].number < ls[m].number {
      assert ls[k] == ks[p + k] && ls[m] == ks[p + m];
    }
  }

  /** Ordered blocks give elements in line order. */
  lemma ElementsInLineOrder(bs: seq<Block>, language: string)
    requires forall j :: 0 <= j < |bs| ==> bs[j].head.number <= LastLine(bs[j]).number
    requires forall j :: 0 <= j < |bs| - 1 ==> LastLine(bs[j]).number < bs[j + 1].head.number
    ensures InLineOrder(Mapped(bs, ElementFor(language)))
  {
    var r := Mapped(bs, ElementFor(language));
    forall j | 0 <= j < |r|
      ensures r[j].startLine == Some(bs[j].head.number) && r[j].endLine == Some(LastLine(bs[j]).number)
    {
      assert r[j] == ElementOf(bs[j], language);
    }
  }

  /** The elements of the blocks of any stripped lines are in line order. */
  lemma BlocksInLineOrder(texts: seq<string>, language: string, search: Search, pattern: string)
    ensures InLineOrder(Mapped(Blocks(Kept(texts), search, pattern), ElementFor(language)))
  {
    var bs := Blocks(Kept(texts), search, pattern);
    BlockLinesIncreasing(texts, search, pattern);
    BlocksOrdered(bs);
    ElementsInLineOrder(bs, language);
  }

  /** Element after element, the first line of each comes after the last line of the one before. */
  lemma ScanOrder(code: string, language: string, search: Search)
    ensures InLineOrder(GenericElements(code, language, search))
  {
    var texts := StripAll(Split(code, '\n'));
    var pattern := PatternFor(language);
    var bs := Blocks(Kept(texts), search, pattern);
    var r := GenericElements(code, language, search);
    if bs == [] {
      assert r == [Fallback(code, language)];
      assert r[0].startLine == None;
      assert InLineOrder(r);
    } else {
      BlocksInLineOrder(texts, language, search, pattern);
      assert r == Mapped(bs, ElementFor(language));
      assert InLineOrder(r);
    }
  }

  /** The fallback element is returned exactly when no kept line matches. */
  lemma FallbackIffNoMatch(code: string, language: string, search: Search)
    ensures GenericElements(code, language, search) == [Fallback(code, language)] <==>
      forall i :: 0 <= i < |Kept(StripAll(Split(code, '\n')))| ==>
        !IsHeader(search, PatternFor(language), Kept(StripAll(Split(code, '\n')))[i])
  {
    var ks := Kept(StripAll(Split(code, '\n')));
    var pattern := PatternFor(language);
    var bs := Blocks(ks, search, pattern);
    BlocksLines(ks, search, pattern);
    BlocksLead(ks, search, pattern);
    if bs != [] {
      BlocksHeads(ks, search, pattern);
      var p := |ks| - |LinesOf(bs)|;
      assert LinesOf(bs)[0] == bs[0].head;
      assert ks[p] == bs[0].head;
      assert IsHeader(search, pattern, ks[p]);
      var r := GenericElements(code, language, search);
      assert r[0] == ElementOf(bs[0], language);
      assert r[0].docstring == Some("");
    }
  }

  /** Every element the scanner returns is a function, a class or the fallback file record. */
  lemma GenericKinds(code: string, language: string, search: Search)
    ensures forall e :: e in GenericElements(code, language, search) ==>
      e.kind == Some("Function") || e.kind == Some("Class") || e.kind == Some("File")
  {
    var bs := Blocks(Kept(StripAll(Split(code, '\n'))), search, PatternFor(language));
    if bs != [] {
      BlockKinds(bs, language);
      assert GenericElements(code, language, search) == Mapped(bs, ElementFor(language));
    }
  }

  lemma BlockKinds(bs: seq<Block>, language: string)
    ensures forall e :: e in Mapped(bs, ElementFor(language)) ==> e.kind == Some("Function") || e.kind == Some("Class")
  {
    var r := Mapped(bs, ElementFor(language));
    forall e | e in r ensures e.kind == Some("Function") || e.kind == Some("Class") {
      var j :| 0 <= j < |r| && r[j] == e;
      assert e == ElementOf(bs[j], language);
    }
  }

  /** None of the three keywords that mark a function occurs in a Go `func` line. */
  lemma GoFuncHasNoKeyword()
    ensures !Contains("func f", "function") && !Contains("func f", "def ") && !Contains("func f", "fn ")
  {
    var go := "func f";
    ContainsSpec(go, "function");
    ContainsSpec(go, "def ");
    ContainsSpec(go, "fn ");
    forall i ensures !OccursAt(go, "def ", i) && !OccursAt(go, "fn ", i)
    {
      if 0 <= i && i + 3 <= |go| {
        assert go[i..i + 3][0] == go[i] && go[i..i + 3][1] == go[i + 1];
        assert i == 0 || i == 1 || i == 2 || i == 3;
      }
    }
  }

  /** A Go `func` line is labelled a class. */
  lemma GoFuncIsClass()
    ensures KindOf("func f") == "Class"
  {
    assert Lower("func f") == "func f";
    GoFuncHasNoKeyword();
  }

  /** Rust `fn` and Python `def` lines are labelled functions. */
  lemma FnAndDefAreFunctions()
    ensures KindOf("fn f") == "Function"
    ensures KindOf("def f") == "Function"
  {
    assert Lower("fn f") == "fn f";
    assert Lower("def f") == "def f";
    assert StartsWith("fn f", "fn ");
    assert StartsWith("def f", "def ");
  }
}
