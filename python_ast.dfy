/**
 * The top-level statements of a parsed Python module, as far as the
 * extractors look at them. Parsing (`ast.parse`) and the helpers that read a
 * node (`ast.get_docstring`, `ast.get_source_segment`, `ast.walk`) are not
 * modelled: a `Node` carries what they return for it.
 */
module PythonAst {
  import opened Wrappers
  import opened Text

  /** The statement classes the extractors tell apart; every other statement is `OtherStatement`. */
  datatype NodeKind = FunctionDef | AsyncFunctionDef | ClassDef | OtherStatement {

    /** `node.__class__.__name__`. */
    function ClassName(): string
    {
      match this
      case FunctionDef => "FunctionDef"
      case AsyncFunctionDef => "AsyncFunctionDef"
      case ClassDef => "ClassDef"
      case OtherStatement => "Expr"
    }
  }

  datatype Node = Node(
    kind: NodeKind,
    name: string,
    docstring: Option<string>,   // ast.get_docstring(node); None when there is none
    segment: Option<string>,     // ast.get_source_segment(code, node)
    lineno: Option<int>,         // the `lineno` attribute, when set
    endLineno: Option<int>,      // the `end_lineno` attribute, when set
    params: seq<string>,         // [arg.arg for arg in node.args.args]
    containsReturn: bool)        // some ast.Return occurs in ast.walk(node)

  /** The statements both extractors keep: function, async function and class definitions. */
  predicate IsDefinition(n: Node)
  {
    n.kind != OtherStatement
  }

  /** `hasattr(node, 'args')`: functions have an argument list, classes do not. */
  predicate HasArgsAttribute(n: Node)
  {
    n.kind == FunctionDef || n.kind == AsyncFunctionDef
  }

  /** `s.replace(target, repl)` for a non-empty `target`: every occurrence, scanning left to right. */
  function Replace(s: string, target: string, repl: string): string
    requires target != []
    decreases |s|
  {
    if |s| < |target| then s
    else if s[..|target|] == target then repl + Replace(s[|target|..], target, repl)
    else [s[0]] + Replace(s[1..], target, repl)
  }

  /** The element type both extractors store: the class name with `Def` removed. */
  function KindName(k: NodeKind): string
  {
    Replace(k.ClassName(), "Def", "")
  }

  /** Removing a trailing occurrence from a text that holds no other start of it. */
  lemma {:induction false} ReplaceTrailing(a: string, target: string)
    requires target != []
    requires forall i :: 0 <= i < |a| ==> a[i] != target[0]
    ensures Replace(a + target, target, "") == a
  {
    if a == [] {
      assert a + target == target;
    } else {
      assert (a + target)[..|target|][0] != target[0];
      assert (a + target)[1..] == a[1..] + target;
      ReplaceTrailing(a[1..], target);
    }
  }

  lemma FunctionKindName()
    ensures KindName(FunctionDef) == "Function"
  {
    assert "FunctionDef" == "Function" + "Def";
    ReplaceTrailing("Function", "Def");
  }

  lemma AsyncFunctionKindName()
    ensures KindName(AsyncFunctionDef) == "AsyncFunction"
  {
    assert "AsyncFunctionDef" == "AsyncFunction" + "Def";
    ReplaceTrailing("AsyncFunction", "Def");
  }

  lemma ClassKindName()
    ensures KindName(ClassDef) == "Class"
  {
    assert "ClassDef" == "Class" + "Def";
    ReplaceTrailing("Class", "Def");
  }

  /** The three definition classes become `Function`, `AsyncFunction` and `Class`. */
  lemma KindNames()
    ensures KindName(FunctionDef) == "Function"
    ensures KindName(AsyncFunctionDef) == "AsyncFunction"
    ensures KindName(ClassDef) == "Class"
  {
    FunctionKindName();
    AsyncFunctionKindName();
    ClassKindName();
  }

  /** The definitions among the module's top-level statements, in order. Nested definitions are not visited. */
  function Definitions(body: seq<Node>): seq<Node>
  {
    if body == [] then []
    else
      var rest := Definitions(body[..|body| - 1]);
      if IsDefinition(body[|body| - 1]) then rest + [body[|body| - 1]] else rest
  }

  /**
   * `idx` lists, strictly increasing, a position of `body` for each element
   * of `r`, holding that element; and every definition of `body` sits at one
   * of the listed positions.
   */
  ghost predicate SelectsDefinitions(r: seq<Node>, body: seq<Node>, idx: seq<nat>)
  {
    && |idx| == |r|
    && (forall k :: 0 <= k < |idx| ==> idx[k] < |body| && r[k] == body[idx[k]])
    && (forall j, k :: 0 <= j < k < |idx| ==> idx[j] < idx[k])
    && (forall i :: 0 <= i < |body| && IsDefinition(body[i]) ==> i in idx)
  }

  /** Appending one statement to the body extends a selection by its position, when it is a definition. */
  lemma SelectsSnoc(r: seq<Node>, p: seq<Node>, idx: seq<nat>, x: Node)
    requires SelectsDefinitions(r, p, idx)
    ensures IsDefinition(x) ==> SelectsDefinitions(r + [x], p + [x], idx + [|p|])
    ensures !IsDefinition(x) ==> SelectsDefinitions(r, p + [x], idx)
  {
    assert forall i :: 0 <= i < |p| ==> (p + [x])[i] == p[i];
  }

  /**
   * The filter keeps exactly the top-level definitions, in body order, each
   * once: every kept node is a definition, the kept nodes come from strictly
   * increasing positions of the body, and every definition of the body is kept.
   */
  lemma {:induction false} DefinitionsSpec(body: seq<Node>)
    ensures var r := Definitions(body);
      && |r| <= |body|
      && (forall n :: n in r ==> n in body && IsDefinition(n))
      && (forall n :: n in body && IsDefinition(n) ==> n in r)
      && (exists idx :: SelectsDefinitions(r, body, idx))
  {
    if body == [] {
      assert SelectsDefinitions([], body, []);
    } else {
      var p := body[..|body| - 1];
      var x := body[|body| - 1];
      DefinitionsSpec(p);
      assert body == p + [x];
      var idx: seq<nat> :| SelectsDefinitions(Definitions(p), p, idx);
      SelectsSnoc(Definitions(p), p, idx, x);
    }
  }
}
