/**
  Worked examples: small syntax trees written out by hand, as `ast.parse` builds
  them, with the analysis and the question pool they lead to.
*/
module Examples {
  import opened Wrappers
  import opened Syntax
  import opened AstWalk
  import opened Seqs
  import opened Dedup
  import opened Templates
  import opened Analyzer
  import opened Generator
  import opened Text

  /** A node without children whose kind the generator ignores: a context, an operator, an `arg`, a constant. */
  const Leaf: Node := Node(Other, [])

  /** `a` and `b` read in `return a + b` on line 2; each `Name` has its `Load` context node as child. */
  const ReadA: Node := Node(Name("a", 2, Load), [Leaf])
  const ReadB: Node := Node(Name("b", 2, Load), [Leaf])
  /** `a + b`: left operand, the `Add` operator node, right operand. */
  const Sum: Node := Node(Other, [ReadA, Leaf, ReadB])
  /** `return a + b` */
  const Ret: Node := Node(Other, [Sum])
  /** The parameter list `(a, b)`: an `arguments` node with one `arg` node per parameter. */
  const Params: Node := Node(Other, [Leaf, Leaf])
  /** `def add(a, b):` on line 1, without a docstring: its parameter list, then its body. */
  const AddDef: Node := Node(FunctionDef("add", 1, Arguments([], ["a", "b"], None, [], None), None), [Params, Ret])
  /** `def add(a, b):\n    return a + b` */
  const AddModule: Node := Node(Module(None), [AddDef])
  /** The order in which `ast.walk` visits the `add` example. */
  const AddOrder: seq<Node> := [AddModule, AddDef, Params, Ret, Leaf, Leaf, Sum, ReadA, Leaf, ReadB, Leaf, Leaf]

  /** The top levels of the tree: the module, the function, its parameters and body. */
  lemma AddUpperLevels()
    ensures Kids([AddModule]) == [AddDef]
    ensures Kids([AddDef]) == [Params, Ret]
    ensures Kids([Params, Ret]) == [Leaf, Leaf, Sum]
  {
    assert [Params, Ret][1..] == [Ret];
    assert Kids([Ret]) == Ret.children + Kids([]);
  }

  /** The lower levels of the tree, down to the `Load` context nodes. */
  lemma AddLowerLevels()
    ensures Kids([Leaf, Leaf, Sum]) == [ReadA, Leaf, ReadB]
    ensures Kids([ReadA, Leaf, ReadB]) == [Leaf, Leaf]
    ensures Kids([Leaf, Leaf]) == []
  {
    KidsOfThree(Leaf, Leaf, Sum);
    KidsOfThree(ReadA, Leaf, ReadB);
  }

  /** The children of a three-node level, written out one node at a time. */
  lemma KidsOfThree(x: Node, y: Node, z: Node)
    ensures Kids([x, y, z]) == x.children + y.children + z.children
  {
    assert [x, y, z][1..] == [y, z];
    assert [y, z][1..] == [z];
    assert Kids([z]) == z.children + Kids([]);
  }

  /** Breadth-first order is one level followed by the order below it. */
  lemma LevelStep(level: seq<Node>, next: seq<Node>, rest: seq<Node>)
    requires level != [] && Kids(level) == next && LevelOrder(next) == rest
    ensures LevelOrder(level) == level + rest
  {
  }

  /** Three levels, the last without children, in breadth-first order. */
  lemma ThreeLevels(a: seq<Node>, b: seq<Node>, c: seq<Node>)
    requires a != [] && b != [] && c != []
    requires Kids(a) == b && Kids(b) == c && Kids(c) == []
    ensures LevelOrder(a) == a + (b + c)
  {
    LevelStep(c, [], []);
    LevelStep(b, c, c);
    LevelStep(a, b, b + c);
  }

  /** Six levels, the last without children, in breadth-first order. */
  lemma SixLevels(a: seq<Node>, b: seq<Node>, c: seq<Node>, d: seq<Node>, e: seq<Node>, f: seq<Node>)
    requires a != [] && b != [] && c != [] && d != [] && e != [] && f != []
    requires Kids(a) == b && Kids(b) == c && Kids(c) == d && Kids(d) == e && Kids(e) == f && Kids(f) == []
    ensures LevelOrder(a) == a + (b + (c + (d + (e + f))))
  {
    ThreeLevels(d, e, f);
    LevelStep(c, d, d + (e + f));
    LevelStep(b, c, c + (d + (e + f)));
    LevelStep(a, b, b + (c + (d + (e + f))));
  }

  /** The visiting order of the `add` example cut at the level boundaries. */
  lemma AddOrderByLevel()
    ensures AddOrder == [AddModule] + ([AddDef] + ([Params, Ret] + ([Leaf, Leaf, Sum] + ([ReadA, Leaf, ReadB] + [Leaf, Leaf]))))
  {
    var tail := [ReadA, Leaf, ReadB] + [Leaf, Leaf];
    assert tail == AddOrder[7..];
    assert [Leaf, Leaf, Sum] + tail == AddOrder[4..];
    assert [Params, Ret] + AddOrder[4..] == AddOrder[2..];
  }

  lemma AddLevelOrder()
    ensures LevelOrder([AddModule]) == AddOrder
  {
    AddUpperLevels();
    AddLowerLevels();
    AddOrderByLevel();
    SixLevels([AddModule], [AddDef], [Params, Ret], [Leaf, Leaf, Sum], [ReadA, Leaf, ReadB], [Leaf, Leaf]);
  }

  /** `ast.walk` on the tree of `def add(a, b): return a + b`. */
  lemma AddWalk()
    ensures WalkOrder(AddModule) == AddOrder
  {
    AddLevelOrder();
    WalkIsBreadthFirst(AddModule);
  }

  /** A selection with one hit between two stretches that select nothing. */
  lemma CollectOneHit<T, U>(p: seq<T>, x: T, q: seq<T>, f: T -> Option<U>)
    requires Collect(p, f) == [] && Collect(q, f) == [] && f(x).Some?
    ensures Collect(p + ([x] + q), f) == [f(x).value]
  {
    CollectAppend(p, [x] + q, f);
    CollectAppend([x], q, f);
  }

  /** A selection with two hits, separated and surrounded by stretches that select nothing. */
  lemma CollectTwoHits<T, U>(p: seq<T>, x: T, m: seq<T>, y: T, q: seq<T>, f: T -> Option<U>)
    requires Collect(p, f) == [] && Collect(m, f) == [] && Collect(q, f) == []
    requires f(x).Some? && f(y).Some?
    ensures Collect(p + ([x] + (m + ([y] + q))), f) == [f(x).value, f(y).value]
  {
    CollectAppend(p, [x] + (m + ([y] + q)), f);
    CollectAppend([x], m + ([y] + q), f);
    CollectOneHit(m, y, q, f);
  }

  lemma AddFunctions()
    ensures Collect(AddOrder, AsFunction) == [FunctionFact("add", 1, ["a", "b"])]
  {
    var back := AddOrder[2..];
    assert AddOrder == [AddModule] + ([AddDef] + back);
    CollectEmpty([AddModule], AsFunction);
    CollectEmpty(back, AsFunction);
    CollectOneHit([AddModule], AddDef, back, AsFunction);
  }

  /** The visiting order of the `add` example cut around the two `Name` nodes. */
  lemma AddOrderAroundNames()
    ensures AddOrder == AddOrder[..7] + ([ReadA] + ([Leaf] + ([ReadB] + [Leaf, Leaf])))
  {
  }

  lemma AddVariables()
    ensures Collect(AddOrder, AsVariable) == [VariableFact("a", 2), VariableFact("b", 2)]
  {
    AddOrderAroundNames();
    CollectEmpty(AddOrder[..7], AsVariable);
    CollectEmpty([Leaf], AsVariable);
    CollectEmpty([Leaf, Leaf], AsVariable);
    CollectTwoHits(AddOrder[..7], ReadA, [Leaf], ReadB, [Leaf, Leaf], AsVariable);
  }

  /** A node that gives neither a loop, a conditional, an import nor a docstring. */
  predicate Quiet(n: Node)
  {
    !IsLoop(n) && !IsIf(n) && !IsImport(n) && !HasDocstring(n)
  }

  lemma QuietCollectsNothing(s: seq<Node>)
    requires forall i :: 0 <= i < |s| ==> Quiet(s[i])
    ensures Collect(s, AsLoop) == [] && Collect(s, AsConditional) == []
    ensures Collect(s, AsImport) == [] && Collect(s, AsDocstring) == []
  {
    CollectEmpty(s, AsLoop);
    CollectEmpty(s, AsConditional);
    CollectEmpty(s, AsImport);
    CollectEmpty(s, AsDocstring);
  }

  lemma AddNothingElse()
    ensures Collect(AddOrder, AsLoop) == [] && Collect(AddOrder, AsConditional) == []
    ensures Collect(AddOrder, AsImport) == [] && Collect(AddOrder, AsDocstring) == []
  {
    assert forall i :: 0 <= i < |AddOrder| ==>
             AddOrder[i].kind.Other? || AddOrder[i].kind.Name? || AddOrder[i].kind.doc == None;
    QuietCollectsNothing(AddOrder);
  }

  /**
    The facts of the `add` example: one function with parameters `a` and `b` on
    line 1 and the two names read on line 2; nothing else.
  */
  lemma AddAnalysis()
    ensures Analyze(AddModule) ==
              Analysis([FunctionFact("add", 1, ["a", "b"])], [VariableFact("a", 2), VariableFact("b", 2)], [], [], [], [])
  {
    AddWalk();
    AddFunctions();
    AddVariables();
    AddNothingElse();
  }

  /** Question lengths for a three-letter function name on a one-digit line. */
  lemma FunctionQuestionsOfShortName(fn: string, line: nat)
    requires |fn| == 3 && line < 10
    ensures |FunctionQuestion(fn, line)| == 42 && |FunctionArgsQuestion(fn)| == 61
  {
    assert |Decimal(line)| == 1;
  }

  /** Question length for a one-letter variable on a one-digit line. */
  lemma VariableQuestionOfShortName(x: string, line: nat)
    requires |x| == 1 && line < 10
    ensures |VariableQuestion(x, line)| == 47
  {
    assert |Decimal(line)| == 1;
  }

  lemma DistinctFour<T>(a: T, b: T, c: T, d: T)
    requires a != b && a != c && a != d && b != c && b != d && c != d
    ensures Distinct([a, b, c, d])
  {
  }

  /**
    A function question, its arguments question and two variable questions on
    one line differ pairwise when the names are short: their lengths differ,
    and the two variable questions name different variables.
  */
  lemma FourQuestionsDiffer(fn: string, line1: nat, x: string, y: string, line2: nat)
    requires |fn| == 3 && |x| == 1 && |y| == 1 && x != y && line1 < 10 && line2 < 10
    ensures Distinct([FunctionQuestion(fn, line1), FunctionArgsQuestion(fn), VariableQuestion(x, line2), VariableQuestion(y, line2)])
  {
    var q0, q1, q2, q3 := FunctionQuestion(fn, line1), FunctionArgsQuestion(fn), VariableQuestion(x, line2), VariableQuestion(y, line2);
    FunctionQuestionsOfShortName(fn, line1);
    VariableQuestionOfShortName(x, line2);
    VariableQuestionOfShortName(y, line2);
    assert q2 != q3 by {
      VariableQuestionRoundTrip(x, line2);
      VariableQuestionRoundTrip(y, line2);
    }
    DistinctFour(q0, q1, q2, q3);
  }

  lemma FunctionQuestionsOfOne(f: FunctionFact)
    requires f.args != []
    ensures FunctionQuestions([f]) == [FunctionQuestion(f.name, f.lineno), FunctionArgsQuestion(f.name)]
  {
    FunctionArgumentRule(f);
    assert FunctionQuestions([f]) == FunctionBlock(f) + FunctionQuestions([]);
  }

  /** Without loops, conditionals, imports or docstrings the pool is the function block, then the variable questions. */
  lemma PoolOfFunctionsAndVariables(fs: seq<FunctionFact>, vs: seq<VariableFact>)
    ensures QuestionPool(Analysis(fs, vs, [], [], [], [])) == FunctionQuestions(fs) + VariableQuestions(vs)
  {
  }

  lemma VariableQuestionsOfTwo(v: VariableFact, w: VariableFact)
    ensures VariableQuestions([v, w]) == [VariableQuestion(v.name, v.lineno), VariableQuestion(w.name, w.lineno)]
  {
  }

  /** The pool of an analysis holding one function with parameters and two variables. */
  lemma PoolOfFunctionAndTwoVariables(f: FunctionFact, v: VariableFact, w: VariableFact)
    requires f.args != []
    ensures QuestionPool(Analysis([f], [v, w], [], [], [], [])) ==
              [FunctionQuestion(f.name, f.lineno), FunctionArgsQuestion(f.name),
               VariableQuestion(v.name, v.lineno), VariableQuestion(w.name, w.lineno)]
  {
    PoolOfFunctionsAndVariables([f], [v, w]);
    FunctionQuestionsOfOne(f);
    VariableQuestionsOfTwo(v, w);
  }

  /**
    The `add` example offers four questions: what `add` does, what its arguments
    are for, and the roles of `a` and of `b`.
  */
  lemma AddCandidates()
    ensures Candidates(Analyze(AddModule)) ==
              [FunctionQuestion("add", 1), FunctionArgsQuestion("add"), VariableQuestion("a", 2), VariableQuestion("b", 2)]
  {
    AddAnalysis();
    PoolOfFunctionAndTwoVariables(FunctionFact("add", 1, ["a", "b"]), VariableFact("a", 2), VariableFact("b", 2));
    FourQuestionsDiffer("add", 1, "a", "b", 2);
    UniqueOfDistinct([FunctionQuestion("add", 1), FunctionArgsQuestion("add"), VariableQuestion("a", 2), VariableQuestion("b", 2)]);
  }

  /** `x = 1`: an assignment whose target `x` is a `Name` in store context, and the constant `1`. */
  const StoreX: Node := Node(Name("x", 1, Store), [Leaf])
  const Assign: Node := Node(Other, [StoreX, Leaf])
  const AssignModule: Node := Node(Module(None), [Assign])
  const AssignOrder: seq<Node> := [AssignModule, Assign, StoreX, Leaf, Leaf]

  lemma AssignWalk()
    ensures WalkOrder(AssignModule) == AssignOrder
  {
    AssignLevelOrder();
    WalkIsBreadthFirst(AssignModule);
  }

  lemma AssignLevelOrder()
    ensures LevelOrder([AssignModule]) == AssignOrder
  {
    assert Kids([Assign]) == [StoreX, Leaf];
    assert Kids([StoreX, Leaf]) == [Leaf];
    LevelStep([Leaf], [], []);
    LevelStep([StoreX, Leaf], [Leaf], [Leaf]);
    LevelStep([Assign], [StoreX, Leaf], [StoreX, Leaf, Leaf]);
    LevelStep([AssignModule], [Assign], [Assign, StoreX, Leaf, Leaf]);
  }

  lemma AssignVariables()
    ensures Collect(AssignOrder, AsVariable) == [VariableFact("x", 1)]
  {
    assert AssignOrder == [AssignModule, Assign] + ([StoreX] + [Leaf, Leaf]);
    CollectAppend([AssignModule, Assign], [StoreX] + [Leaf, Leaf], AsVariable);
    CollectAppend([StoreX], [Leaf, Leaf], AsVariable);
    CollectEmpty([AssignModule, Assign], AsVariable);
    CollectEmpty([Leaf, Leaf], AsVariable);
  }

  lemma AssignNothingElse()
    ensures Collect(AssignOrder, AsFunction) == [] && Collect(AssignOrder, AsLoop) == []
    ensures Collect(AssignOrder, AsConditional) == [] && Collect(AssignOrder, AsImport) == []
    ensures Collect(AssignOrder, AsDocstring) == []
  {
    assert forall i :: 0 <= i < |AssignOrder| ==>
             AssignOrder[i].kind.Other? || AssignOrder[i].kind.Name? || AssignOrder[i].kind == Module(None);
    CollectEmpty(AssignOrder, AsFunction);
    QuietCollectsNothing(AssignOrder);
  }

  /** An assignment target counts as a variable: `x = 1` offers exactly the question about `x`. */
  lemma AssignCandidates()
    ensures Analyze(AssignModule) == Analysis([], [VariableFact("x", 1)], [], [], [], [])
    ensures Candidates(Analyze(AssignModule)) == [VariableQuestion("x", 1)]
  {
    AssignWalk();
    AssignVariables();
    AssignNothingElse();
    var q := VariableQuestion("x", 1);
    assert VariableQuestions([VariableFact("x", 1)]) == [q];
    assert QuestionPool(Analyze(AssignModule)) == [q];
    assert Unique([q]) == Unique([]) + [q];
  }

  /** `42`: a module holding one expression statement with a constant. */
  const Expr: Node := Node(Other, [Leaf])
  const LiteralModule: Node := Node(Module(None), [Expr])

  lemma LiteralWalk()
    ensures WalkOrder(LiteralModule) == [LiteralModule, Expr, Leaf]
  {
    LiteralLevelOrder();
    WalkIsBreadthFirst(LiteralModule);
  }

  lemma LiteralLevelOrder()
    ensures LevelOrder([LiteralModule]) == [LiteralModule, Expr, Leaf]
  {
    LevelStep([Leaf], [], []);
    LevelStep([Expr], [Leaf], [Leaf]);
    LevelStep([LiteralModule], [Expr], [Expr, Leaf]);
  }

  lemma LiteralAnalysis()
    ensures Analyze(LiteralModule) == Analysis([], [], [], [], [], [])
  {
    var order := [LiteralModule, Expr, Leaf];
    LiteralWalk();
    CollectEmpty(order, AsFunction);
    CollectEmpty(order, AsVariable);
    QuietCollectsNothing(order);
  }

  /** A snippet with nothing to ask about leaves the random choice nothing to choose from. */
  lemma LiteralCandidates()
    ensures Candidates(Analyze(LiteralModule)) == []
  {
    LiteralAnalysis();
    assert QuestionPool(Analysis([], [], [], [], [], [])) == [];
  }

  /** `import os, sys` on line 1 and `from json import loads` on line 2; each alias is a child node. */
  const ImportOsSys: Node := Node(Kind.Import(1, ["os", "sys"]), [Leaf, Leaf])
  const FromJson: Node := Node(ImportFrom(2, Some("json"), ["loads"]), [Leaf])
  const ImportModule: Node := Node(Module(None), [ImportOsSys, FromJson])
  const ImportOrder: seq<Node> := [ImportModule, ImportOsSys, FromJson, Leaf, Leaf, Leaf]

  lemma ImportWalk()
    ensures WalkOrder(ImportModule) == ImportOrder
  {
    ImportLevelOrder();
    WalkIsBreadthFirst(ImportModule);
  }

  lemma ImportLevelOrder()
    ensures LevelOrder([ImportModule]) == ImportOrder
  {
    assert Kids([FromJson]) == [Leaf];
    assert Kids([ImportOsSys, FromJson]) == [Leaf, Leaf] + Kids([FromJson]);
    KidsOfThree(Leaf, Leaf, Leaf);
    LevelStep([Leaf, Leaf, Leaf], [], []);
    LevelStep([ImportOsSys, FromJson], [Leaf, Leaf, Leaf], [Leaf, Leaf, Leaf]);
    LevelStep([ImportModule], [ImportOsSys, FromJson], [ImportOsSys, FromJson, Leaf, Leaf, Leaf]);
  }

  lemma ImportFacts()
    ensures Collect(ImportOrder, AsImport) == [ImportFact("os", 1)]
  {
    assert ImportOrder == [ImportModule] + ([ImportOsSys] + ImportOrder[2..]);
    CollectAppend([ImportModule], [ImportOsSys] + ImportOrder[2..], AsImport);
    CollectAppend([ImportOsSys], ImportOrder[2..], AsImport);
    CollectEmpty(ImportOrder[2..], AsImport);
  }

  lemma ImportNothingElse()
    ensures Collect(ImportOrder, AsFunction) == [] && Collect(ImportOrder, AsVariable) == []
    ensures Collect(ImportOrder, AsLoop) == [] && Collect(ImportOrder, AsConditional) == []
    ensures Collect(ImportOrder, AsDocstring) == []
  {
    assert forall i :: 0 <= i < |ImportOrder| ==>
             ImportOrder[i].kind.Other? || ImportOrder[i].kind.Import? || ImportOrder[i].kind.ImportFrom?
             || ImportOrder[i].kind == Module(None);
    CollectEmpty(ImportOrder, AsFunction);
    CollectEmpty(ImportOrder, AsVariable);
    CollectEmpty(ImportOrder, AsLoop);
    CollectEmpty(ImportOrder, AsConditional);
    CollectEmpty(ImportOrder, AsDocstring);
  }

  /**
    Only the first module of `import os, sys` is asked about, and
    `from json import loads` is not asked about at all.
  */
  lemma ImportCandidates()
    ensures Analyze(ImportModule) == Analysis([], [], [], [], [ImportFact("os", 1)], [])
    ensures Candidates(Analyze(ImportModule)) == [ImportQuestion("os")]
  {
    ImportWalk();
    ImportFacts();
    ImportNothingElse();
    var q := ImportQuestion("os");
    assert ImportQuestions([ImportFact("os", 1)]) == [q];
    assert QuestionPool(Analyze(ImportModule)) == [q];
    assert Unique([q]) == Unique([]) + [q];
  }
}
