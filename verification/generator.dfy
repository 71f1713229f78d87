/**
  `EnhancedQuestionGenerator.generate_questions`: render every fact through its
  template in a fixed category order, deduplicate keeping first occurrences,
  and pick one question at random.
*/
module Generator {
  import opened Wrappers
  import opened Syntax
  import opened Seqs
  import opened Templates
  import opened Analyzer
  import opened Dedup

  /** The base question for a function, then the arguments question if it has parameters. */
  function FunctionBlock(f: FunctionFact): seq<string>
  {
    [FunctionQuestion(f.name, f.lineno)] + (if f.args != [] then [FunctionArgsQuestion(f.name)] else [])
  }

  function FunctionQuestions(fs: seq<FunctionFact>): seq<string>
    decreases |fs|
  {
    if fs == [] then [] else FunctionBlock(fs[0]) + FunctionQuestions(fs[1..])
  }

  function VariableQuestions(vs: seq<VariableFact>): (qs: seq<string>)
    ensures |qs| == |vs|
  {
    seq(|vs|, i requires 0 <= i < |vs| => VariableQuestion(vs[i].name, vs[i].lineno))
  }

  function LoopQuestions(ls: seq<LoopFact>): (qs: seq<string>)
    ensures |qs| == |ls|
  {
    seq(|ls|, i requires 0 <= i < |ls| => LoopQuestion(ls[i].lineno))
  }

  function ConditionalQuestions(cs: seq<ConditionalFact>): (qs: seq<string>)
    ensures |qs| == |cs|
  {
    seq(|cs|, i requires 0 <= i < |cs| => ConditionalQuestion(cs[i].lineno))
  }

  /** The import question is rendered from the module name alone. */
  function ImportQuestions(ims: seq<ImportFact>): (qs: seq<string>)
    ensures |qs| == |ims|
  {
    seq(|ims|, i requires 0 <= i < |ims| => ImportQuestion(ims[i].name))
  }

  function DocstringQuestions(ds: seq<string>): (qs: seq<string>)
    ensures |qs| == |ds|
  {
    seq(|ds|, i requires 0 <= i < |ds| => DocstringQuestion(ds[i]))
  }

  /** The `questions` list before deduplication. */
  function QuestionPool(a: Analysis): seq<string>
  {
    FunctionQuestions(a.functions)
    + VariableQuestions(a.variables)
    + LoopQuestions(a.loops)
    + ConditionalQuestions(a.conditionals)
    + ImportQuestions(a.imports)
    + DocstringQuestions(a.docstrings)
  }

  /** `list(dict.fromkeys(questions))`: the candidates `random.choice` picks from. */
  function Candidates(a: Analysis): seq<string>
  {
    Unique(QuestionPool(a))
  }

  predicate HasArgs(f: FunctionFact) { f.args != [] }

  /** What `generate_questions` returns or raises. */
  datatype Reply =
    | Question(text: string)          // one question string
    | ErrorList(messages: seq<string>) // the one-element list returned when analysis failed
    | EmptyPool                       // `random.choice` raised on an empty list

  /**
    `generate_questions`, with the parser's outcome as input. The random choice
    is left open: any candidate may be returned.
  */
  method GenerateQuestions(parsed: Result<Node, string>) returns (reply: Reply)
    ensures parsed.Failure? ==> reply == ErrorList(["Error analyzing code: " + parsed.error])
    ensures parsed.Success? ==> (reply == EmptyPool <==> Candidates(Analyze(parsed.value)) == [])
    ensures parsed.Success? && reply != EmptyPool ==>
              reply.Question? && reply.text in Candidates(Analyze(parsed.value))
  {
    var analysis := AnalyzeCode(parsed);
    if analysis.Failure? {
      return ErrorList(["Error analyzing code: " + analysis.error]);
    }
    var questions := QuestionPool(analysis.value);
    var unique := FromKeys(questions);
    if unique == [] {
      return EmptyPool;
    }
    var i :| 0 <= i < |unique|;
    return Question(unique[i]);
  }

  /**
    A function without parameters contributes exactly its base question; one
    with parameters contributes the base question and then the arguments question.
  */
  lemma FunctionArgumentRule(f: FunctionFact)
    ensures f.args == [] ==> FunctionBlock(f) == [FunctionQuestion(f.name, f.lineno)]
    ensures f.args != [] ==> FunctionBlock(f) == [FunctionQuestion(f.name, f.lineno), FunctionArgsQuestion(f.name)]
  {
  }

  lemma {:induction false} FunctionQuestionsLength(fs: seq<FunctionFact>)
    ensures |FunctionQuestions(fs)| == |fs| + Count(fs, HasArgs)
    decreases |fs|
  {
    if fs != [] {
      FunctionQuestionsLength(fs[1..]);
    }
  }

  /** Functions are rendered one after another, each block in the order of the fact list. */
  lemma {:induction false} FunctionQuestionsAppend(a: seq<FunctionFact>, b: seq<FunctionFact>)
    ensures FunctionQuestions(a + b) == FunctionQuestions(a) + FunctionQuestions(b)
    decreases |a|
  {
    if a == [] {
      assert a + b == b;
    } else {
      assert (a + b)[1..] == a[1..] + b;
      FunctionQuestionsAppend(a[1..], b);
    }
  }

  /** The pool holds one question per fact, plus one per function that has parameters. */
  lemma PoolSize(a: Analysis)
    ensures |QuestionPool(a)| == |a.functions| + Count(a.functions, HasArgs) + |a.variables| + |a.loops|
                                 + |a.conditionals| + |a.imports| + |a.docstrings|
  {
    FunctionQuestionsLength(a.functions);
  }

  /** The questions the function facts `fs` render to. */
  ghost predicate RendersFunction(fs: seq<FunctionFact>, q: string)
  {
    || (exists f :: f in fs && q == FunctionQuestion(f.name, f.lineno))
    || (exists f :: f in fs && f.args != [] && q == FunctionArgsQuestion(f.name))
  }

  /** The function block holds the questions of the functions' own blocks and nothing else. */
  lemma {:induction false} FunctionBlocksMembers(fs: seq<FunctionFact>)
    ensures forall q :: q in FunctionQuestions(fs) <==> exists f :: f in fs && q in FunctionBlock(f)
    decreases |fs|
  {
    if fs != [] {
      var f0, rest := fs[0], fs[1..];
      FunctionBlocksMembers(rest);
      assert FunctionQuestions(fs) == FunctionBlock(f0) + FunctionQuestions(rest);
      assert forall f :: f in fs <==> f == f0 || f in rest;
    }
  }

  /** The function block holds the base question of every function and the arguments question of those with parameters. */
  lemma FunctionQuestionsMembers(fs: seq<FunctionFact>)
    ensures forall q :: q in FunctionQuestions(fs) <==> RendersFunction(fs, q)
  {
    FunctionBlocksMembers(fs);
  }

  lemma VariableQuestionsMembers(vs: seq<VariableFact>)
    ensures forall q :: q in VariableQuestions(vs) <==> exists x :: x in vs && q == VariableQuestion(x.name, x.lineno)
  {
    var qs := VariableQuestions(vs);
    forall q | q in qs
      ensures exists x :: x in vs && q == VariableQuestion(x.name, x.lineno)
    {
      var i :| 0 <= i < |qs| && qs[i] == q;
      var x := vs[i];
      assert x in vs && q == VariableQuestion(x.name, x.lineno);
    }
    forall x | x in vs
      ensures VariableQuestion(x.name, x.lineno) in qs
    {
      var i :| 0 <= i < |vs| && vs[i] == x;
      assert qs[i] == VariableQuestion(x.name, x.lineno);
    }
  }

  lemma LoopQuestionsMembers(ls: seq<LoopFact>)
    ensures forall q :: q in LoopQuestions(ls) <==> exists x :: x in ls && q == LoopQuestion(x.lineno)
  {
    var qs := LoopQuestions(ls);
    forall q | q in qs
      ensures exists x :: x in ls && q == LoopQuestion(x.lineno)
    {
      var i :| 0 <= i < |qs| && qs[i] == q;
      var x := ls[i];
      assert x in ls && q == LoopQuestion(x.lineno);
    }
    forall x | x in ls
      ensures LoopQuestion(x.lineno) in qs
    {
      var i :| 0 <= i < |ls| && ls[i] == x;
      assert qs[i] == LoopQuestion(x.lineno);
    }
  }

  lemma ConditionalQuestionsMembers(cs: seq<ConditionalFact>)
    ensures forall q :: q in ConditionalQuestions(cs) <==> exists x :: x in cs && q == ConditionalQuestion(x.lineno)
  {
    var qs := ConditionalQuestions(cs);
    forall q | q in qs
      ensures exists x :: x in cs && q == ConditionalQuestion(x.lineno)
    {
      var i :| 0 <= i < |qs| && qs[i] == q;
      var x := cs[i];
      assert x in cs && q == ConditionalQuestion(x.lineno);
    }
    forall x | x in cs
      ensures ConditionalQuestion(x.lineno) in qs
    {
      var i :| 0 <= i < |cs| && cs[i] == x;
      assert qs[i] == ConditionalQuestion(x.lineno);
    }
  }

  lemma ImportQuestionsMembers(ims: seq<ImportFact>)
    ensures forall q :: q in ImportQuestions(ims) <==> exists x :: x in ims && q == ImportQuestion(x.name)
  {
    var qs := ImportQuestions(ims);
    forall q | q in qs
      ensures exists x :: x in ims && q == ImportQuestion(x.name)
    {
      var i :| 0 <= i < |qs| && qs[i] == q;
      var x := ims[i];
      assert x in ims && q == ImportQuestion(x.name);
    }
    forall x | x in ims
      ensures ImportQuestion(x.name) in qs
    {
      var i :| 0 <= i < |ims| && ims[i] == x;
      assert qs[i] == ImportQuestion(x.name);
    }
  }

  lemma DocstringQuestionsMembers(ds: seq<string>)
    ensures forall q :: q in DocstringQuestions(ds) <==> exists x :: x in ds && q == DocstringQuestion(x)
  {
    var qs := DocstringQuestions(ds);
    forall q | q in qs
      ensures exists x :: x in ds && q == DocstringQuestion(x)
    {
      var i :| 0 <= i < |qs| && qs[i] == q;
      var x := ds[i];
      assert x in ds && q == DocstringQuestion(x);
    }
    forall x | x in ds
      ensures DocstringQuestion(x) in qs
    {
      var i :| 0 <= i < |ds| && ds[i] == x;
      assert qs[i] == DocstringQuestion(x);
    }
  }

  /** The questions some fact of `a` renders to, category by category. */
  ghost predicate RendersFact(a: Analysis, q: string)
  {
    || RendersFunction(a.functions, q)
    || (exists v :: v in a.variables && q == VariableQuestion(v.name, v.lineno))
    || (exists l :: l in a.loops && q == LoopQuestion(l.lineno))
    || (exists c :: c in a.conditionals && q == ConditionalQuestion(c.lineno))
    || (exists m :: m in a.imports && q == ImportQuestion(m.name))
    || (exists d :: d in a.docstrings && q == DocstringQuestion(d))
  }

  /** A question is in the pool exactly when some fact renders to it. */
  lemma PoolMembers(a: Analysis)
    ensures forall q :: q in QuestionPool(a) <==> RendersFact(a, q)
  {
    FunctionQuestionsMembers(a.functions);
    VariableQuestionsMembers(a.variables);
    LoopQuestionsMembers(a.loops);
    ConditionalQuestionsMembers(a.conditionals);
    ImportQuestionsMembers(a.imports);
    DocstringQuestionsMembers(a.docstrings);
  }

  /** The two analyses agree on everything except, possibly, the lines of their import facts. */
  predicate DifferOnlyInImportLines(a: Analysis, b: Analysis)
  {
    && a.functions == b.functions && a.variables == b.variables && a.loops == b.loops
    && a.conditionals == b.conditionals && a.docstrings == b.docstrings
    && |a.imports| == |b.imports|
    && forall k :: 0 <= k < |a.imports| ==> a.imports[k].name == b.imports[k].name
  }

  /**
    The import question names only the module, so where the imports stand in the
    snippet changes neither the pool nor the candidates the choice is made from.
  */
  lemma ImportQuestionIgnoresLine(a: Analysis, b: Analysis)
    requires DifferOnlyInImportLines(a, b)
    ensures QuestionPool(a) == QuestionPool(b)
    ensures Candidates(a) == Candidates(b)
  {
    var qa, qb := ImportQuestions(a.imports), ImportQuestions(b.imports);
    forall k | 0 <= k < |qa|
      ensures qa[k] == qb[k]
    {
      assert a.imports[k].name == b.imports[k].name;
    }
    assert qa == qb;
    assert a == b.(imports := a.imports);
  }

  /** There is nothing to choose from exactly when the analysis found no facts at all. */
  lemma CandidatesEmptyIffNoFacts(a: Analysis)
    ensures Candidates(a) == [] <==>
              a.functions == [] && a.variables == [] && a.loops == [] && a.conditionals == []
              && a.imports == [] && a.docstrings == []
  {
    PoolSize(a);
    var pool := QuestionPool(a);
    if pool != [] {
      assert pool[0] in Candidates(a);
    }
  }

  /**
    The candidates are the pool's questions, each exactly once, in the order in
    which they first appear in the pool; deduplicating again changes nothing.
  */
  lemma CandidatesAreFirstOccurrences(a: Analysis)
    ensures var pool, c := QuestionPool(a), Candidates(a);
            && Distinct(c)
            && (forall q :: q in c <==> q in pool)
            && (forall i, j :: 0 <= i < j < |c| ==> FirstIndex(pool, c[i]) < FirstIndex(pool, c[j]))
            && Unique(c) == c
  {
    var pool := QuestionPool(a);
    UniqueKeepsFirstOccurrenceOrder(pool);
    UniqueIdempotent(pool);
    var c := Unique(pool);
    forall q
      ensures q in c <==> q in pool
    {
      if q in c {
        var i :| 0 <= i < |c| && c[i] == q;
      }
      if q in pool {
        var i :| 0 <= i < |pool| && pool[i] == q;
      }
    }
  }
}
