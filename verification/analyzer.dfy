/**
  `EnhancedQuestionGenerator.analyze_code` and `extract_docstrings`: six walks
  of the parsed tree, one per fact list. Every walk of the same tree yields the
  same breadth-first order, so the model computes that order once and selects
  each list from it.
*/
module Analyzer {
  import opened Wrappers
  import opened Syntax
  import opened AstWalk
  import opened Seqs
  import opened Text

  datatype FunctionFact = FunctionFact(name: string, lineno: nat, args: seq<string>)
  datatype VariableFact = VariableFact(name: string, lineno: nat)
  datatype LoopFact = LoopFact(lineno: nat)
  datatype ConditionalFact = ConditionalFact(lineno: nat)
  datatype ImportFact = ImportFact(name: string, lineno: nat)

  /** The dictionary `analyze_code` returns when parsing succeeds. */
  datatype Analysis = Analysis(
    functions: seq<FunctionFact>,
    variables: seq<VariableFact>,
    loops: seq<LoopFact>,
    conditionals: seq<ConditionalFact>,
    imports: seq<ImportFact>,
    docstrings: seq<string>)

  predicate IsFunctionDef(n: Node) { n.kind.FunctionDef? }
  predicate IsName(n: Node) { n.kind.Name? }
  predicate IsLoop(n: Node) { n.kind.For? || n.kind.While? }
  predicate IsIf(n: Node) { n.kind.If? }
  predicate IsImport(n: Node) { n.kind.Import? }

  /** A module or a (non-async) function whose docstring is present and non-empty. */
  predicate HasDocstring(n: Node)
  {
    && (n.kind.Module? || n.kind.FunctionDef?)
    && n.kind.doc.Some?
    && n.kind.doc.value != ""
  }

  /** `isinstance(node, ast.FunctionDef)`, recording the plain positional parameters `node.args.args`. */
  function AsFunction(n: Node): (r: Option<FunctionFact>)
    ensures r.Some? <==> IsFunctionDef(n)
  {
    match n.kind
    case FunctionDef(name, lineno, params, _) => Some(FunctionFact(name, lineno, params.args))
    case _ => None
  }

  /** `isinstance(node, ast.Name)`, whatever the expression context. */
  function AsVariable(n: Node): (r: Option<VariableFact>)
    ensures r.Some? <==> IsName(n)
  {
    match n.kind
    case Name(id, lineno, _) => Some(VariableFact(id, lineno))
    case _ => None
  }

  /** `isinstance(node, (ast.For, ast.While))`. */
  function AsLoop(n: Node): (r: Option<LoopFact>)
    ensures r.Some? <==> IsLoop(n)
  {
    match n.kind
    case For(lineno) => Some(LoopFact(lineno))
    case While(lineno) => Some(LoopFact(lineno))
    case _ => None
  }

  /** `isinstance(node, ast.If)`. */
  function AsConditional(n: Node): (r: Option<ConditionalFact>)
    ensures r.Some? <==> IsIf(n)
  {
    match n.kind
    case If(lineno) => Some(ConditionalFact(lineno))
    case _ => None
  }

  /** `isinstance(node, ast.Import)`, recording only the first imported name. */
  function AsImport(n: Node): (r: Option<ImportFact>)
    ensures r.Some? <==> IsImport(n)
  {
    match n.kind
    case Import(lineno, names) => Some(ImportFact(names[0], lineno))
    case _ => None
  }

  /** The stripped docstring of a module or function, when `ast.get_docstring` gives a non-empty one. */
  function AsDocstring(n: Node): (r: Option<string>)
    ensures r.Some? <==> HasDocstring(n)
    ensures r.Some? ==> IsStripped(r.value)
  {
    if (n.kind.Module? || n.kind.FunctionDef?) && n.kind.doc.Some? && n.kind.doc.value != ""
    then Some(Strip(n.kind.doc.value))
    else None
  }

  /** The docstring list of `extract_docstrings(tree)`. */
  function Docstrings(tree: Node): seq<string>
  {
    Collect(WalkOrder(tree), AsDocstring)
  }

  /** The fact lists of `analyze_code`: each category is its own pass over `ast.walk(tree)`. */
  function Analyze(tree: Node): Analysis
  {
    var order := WalkOrder(tree);
    Analysis(
      Collect(order, AsFunction),
      Collect(order, AsVariable),
      Collect(order, AsLoop),
      Collect(order, AsConditional),
      Collect(order, AsImport),
      Docstrings(tree))
  }

  /**
    `analyze_code`: a parse failure is reported with the parser's message and no
    facts; otherwise the tree is analyzed.
  */
  function AnalyzeCode(parsed: Result<Node, string>): (r: Result<Analysis, string>)
    ensures r.Failure? <==> parsed.Failure?
    ensures parsed.Failure? ==> r.error == parsed.error
    ensures parsed.Success? ==> r.value == Analyze(parsed.value)
  {
    match parsed
    case Failure(message) => Failure(message)
    case Success(tree) => Success(Analyze(tree))
  }

  /** `extract_docstrings`: the loop over `ast.walk(tree)` that appends each non-empty docstring, stripped. */
  method ExtractDocstrings(tree: Node) returns (docstrings: seq<string>)
    ensures docstrings == Docstrings(tree)
    ensures forall i :: 0 <= i < |docstrings| ==> IsStripped(docstrings[i])
  {
    var order := Walk(tree);
    docstrings := [];
    for i := 0 to |order|
      invariant docstrings == Collect(order[..i], AsDocstring)
    {
      var node := order[i];
      assert order[..i + 1] == order[..i] + [node];
      CollectAppend(order[..i], [node], AsDocstring);
      assert Collect([node], AsDocstring) == if HasDocstring(node) then [Strip(node.kind.doc.value)] else [];
      if node.kind.Module? || node.kind.FunctionDef? {
        var docstring := node.kind.doc;
        if docstring.Some? && docstring.value != "" {
          docstrings := docstrings + [Strip(docstring.value)];
        }
      }
    }
    assert order[..|order|] == order;
    CollectMembers(order, AsDocstring);
    forall i | 0 <= i < |docstrings|
      ensures IsStripped(docstrings[i])
    {
      assert docstrings[i] in docstrings;
    }
  }

  /**
    What `f` collects over the walk depends only on the tree's nodes: one entry
    per node satisfying `p`, each coming from such a node.
  */
  lemma CollectOverTree<U>(tree: Node, f: Node -> Option<U>, p: Node -> bool)
    requires forall n :: f(n).Some? <==> p(n)
    ensures |Collect(WalkOrder(tree), f)| == Count(Subtrees(tree), p)
    ensures forall y :: y in Collect(WalkOrder(tree), f) <==> exists n :: n in Subtrees(tree) && f(n) == Some(y)
  {
    var order := WalkOrder(tree);
    WalkVisitsEveryNodeOnce(tree);
    CollectPositions(order, f, p);
    CountPermutation(order, Subtrees(tree), p);
    CollectMembers(order, f);
  }

  /** Every fact list is the selection of its node kind from `ast.walk(tree)`, in walk order. */
  lemma FactsFollowWalkOrder(tree: Node)
    ensures var a, order := Analyze(tree), WalkOrder(tree);
            && SelectedInOrder(order, IsFunctionDef, AsFunction, a.functions)
            && SelectedInOrder(order, IsName, AsVariable, a.variables)
            && SelectedInOrder(order, IsLoop, AsLoop, a.loops)
            && SelectedInOrder(order, IsIf, AsConditional, a.conditionals)
            && SelectedInOrder(order, IsImport, AsImport, a.imports)
            && SelectedInOrder(order, HasDocstring, AsDocstring, a.docstrings)
  {
    var order := WalkOrder(tree);
    CollectPositions(order, AsFunction, IsFunctionDef);
    CollectPositions(order, AsVariable, IsName);
    CollectPositions(order, AsLoop, IsLoop);
    CollectPositions(order, AsConditional, IsIf);
    CollectPositions(order, AsImport, IsImport);
    CollectPositions(order, AsDocstring, HasDocstring);
  }

  /**
    One function fact per `FunctionDef` node of the tree (async definitions are
    not counted), holding its name, line and plain positional parameters only.
  */
  lemma FunctionsOfTree(tree: Node)
    ensures |Analyze(tree).functions| == Count(Subtrees(tree), IsFunctionDef)
    ensures forall f :: f in Analyze(tree).functions <==>
              exists n :: n in Subtrees(tree) && n.kind.FunctionDef?
                          && f == FunctionFact(n.kind.name, n.kind.lineno, n.kind.params.args)
  {
    CollectOverTree(tree, AsFunction, IsFunctionDef);
  }

  /**
    One variable fact per `Name` node, reads and assignment targets alike, with
    no merging of repeated names.
  */
  lemma VariablesOfTree(tree: Node)
    ensures |Analyze(tree).variables| == Count(Subtrees(tree), IsName)
    ensures forall v :: v in Analyze(tree).variables <==>
              exists n :: n in Subtrees(tree) && n.kind.Name? && v == VariableFact(n.kind.id, n.kind.lineno)
  {
    CollectOverTree(tree, AsVariable, IsName);
  }

  /** One loop fact per `For` or `While` node; `async for` is not a loop here. */
  lemma LoopsOfTree(tree: Node)
    ensures |Analyze(tree).loops| == Count(Subtrees(tree), IsLoop)
    ensures forall l :: l in Analyze(tree).loops <==>
              exists n :: n in Subtrees(tree) && (n.kind.For? || n.kind.While?) && l == LoopFact(n.kind.lineno)
  {
    CollectOverTree(tree, AsLoop, IsLoop);
  }

  /** One conditional fact per `If` node. */
  lemma ConditionalsOfTree(tree: Node)
    ensures |Analyze(tree).conditionals| == Count(Subtrees(tree), IsIf)
    ensures forall c :: c in Analyze(tree).conditionals <==>
              exists n :: n in Subtrees(tree) && n.kind.If? && c == ConditionalFact(n.kind.lineno)
  {
    CollectOverTree(tree, AsConditional, IsIf);
  }

  /**
    One import fact per `import` statement, naming only the first module it
    lists; `from ... import` statements contribute nothing.
  */
  lemma ImportsOfTree(tree: Node)
    ensures |Analyze(tree).imports| == Count(Subtrees(tree), IsImport)
    ensures forall i :: i in Analyze(tree).imports <==>
              exists n :: n in Subtrees(tree) && n.kind.Import? && i == ImportFact(n.kind.names[0], n.kind.lineno)
  {
    CollectOverTree(tree, AsImport, IsImport);
  }

  /**
    One docstring per module or function definition whose docstring is present
    and non-empty, stripped of surrounding whitespace; classes and async
    functions contribute none.
  */
  lemma DocstringsOfTree(tree: Node)
    ensures |Analyze(tree).docstrings| == Count(Subtrees(tree), HasDocstring)
    ensures forall d :: d in Analyze(tree).docstrings <==>
              exists n :: n in Subtrees(tree) && HasDocstring(n) && d == Strip(n.kind.doc.value)
  {
    CollectOverTree(tree, AsDocstring, HasDocstring);
  }
}
