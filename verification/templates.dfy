/**
  The question template table and its rendering with `str.format`. Each template
  is kept already split into its literal text and its named placeholders, so
  `{name}` in the source's text is `Placeholder("name")` here.
*/
module Templates {
  import opened Wrappers
  import opened Text

  datatype Piece = Literal(text: string) | Placeholder(key: string)

  type Template = seq<Piece>

  /** Every placeholder of `t` has a keyword argument (otherwise `str.format` raises `KeyError`). */
  predicate Binds(t: Template, args: map<string, string>)
  {
    forall i :: 0 <= i < |t| && t[i].Placeholder? ==> t[i].key in args
  }

  /**
    `t.format(**args)`: literal text is copied, each placeholder is replaced by its
    argument, and arguments the template does not mention are ignored.
  */
  function Format(t: Template, args: map<string, string>): (r: string)
    requires Binds(t, args)
    decreases |t|
  {
    if t == [] then []
    else (match t[0] case Literal(s) => s case Placeholder(k) => args[k]) + Format(t[1..], args)
  }

  /** The keys of the template table: `function`, `function_args`, `variable`, `loop`, ... */
  datatype Category = Function | FunctionArgs | Variable | Loop | Conditional | Import | Docstring

  /** The template table. */
  function TemplateOf(c: Category): Template
  {
    match c
    case Function =>
      [Literal("What does the function '"), Placeholder("name"), Literal("' at line "), Placeholder("lineno"),
       Literal(" do?")]
    case FunctionArgs =>
      [Literal("What are the purposes of the arguments in the function '"), Placeholder("name"), Literal("'?")]
    case Variable =>
      [Literal("What is the role of the variable '"), Placeholder("name"), Literal("' at line "),
       Placeholder("lineno"), Literal("?")]
    case Loop =>
      [Literal("What is the significance of the loop starting at line "), Placeholder("lineno"), Literal("?")]
    case Conditional =>
      [Literal("Under what conditions does the code block at line "), Placeholder("lineno"), Literal(" execute?")]
    case Import =>
      [Literal("Why is the module '"), Placeholder("name"), Literal("' imported, and how is it used?")]
    case Docstring =>
      [Literal("What does the following docstring explain: '"), Placeholder("doc"), Literal("'?")]
  }

  /** The `function` question: `format(name=..., lineno=...)`, the line number printed in decimal. */
  function FunctionQuestion(name: string, lineno: nat): (q: string)
    ensures q == "What does the function '" + name + "' at line " + Decimal(lineno) + " do?"
  {
    Format(TemplateOf(Function), map["name" := name, "lineno" := Decimal(lineno)])
  }

  /** The `function_args` question: `format(name=...)`. */
  function FunctionArgsQuestion(name: string): (q: string)
    ensures q == "What are the purposes of the arguments in the function '" + name + "'?"
  {
    Format(TemplateOf(FunctionArgs), map["name" := name])
  }

  /** The `variable` question: `format(name=..., lineno=...)`. */
  function VariableQuestion(name: string, lineno: nat): (q: string)
    ensures q == "What is the role of the variable '" + name + "' at line " + Decimal(lineno) + "?"
  {
    Format(TemplateOf(Variable), map["name" := name, "lineno" := Decimal(lineno)])
  }

  /** The `loop` question: `format(lineno=...)`. */
  function LoopQuestion(lineno: nat): (q: string)
    ensures q == "What is the significance of the loop starting at line " + Decimal(lineno) + "?"
  {
    Format(TemplateOf(Loop), map["lineno" := Decimal(lineno)])
  }

  /** The `conditional` question: `format(lineno=...)`. */
  function ConditionalQuestion(lineno: nat): (q: string)
    ensures q == "Under what conditions does the code block at line " + Decimal(lineno) + " execute?"
  {
    Format(TemplateOf(Conditional), map["lineno" := Decimal(lineno)])
  }

  /** The `import` question: `format(name=...)`; the statement's line number is not passed. */
  function ImportQuestion(name: string): (q: string)
    ensures q == "Why is the module '" + name + "' imported, and how is it used?"
  {
    Format(TemplateOf(Import), map["name" := name])
  }

  /** The `docstring` question: `format(doc=...)`. */
  function DocstringQuestion(doc: string): (q: string)
    ensures q == "What does the following docstring explain: '" + doc + "'?"
  {
    Format(TemplateOf(Docstring), map["doc" := doc])
  }

  /*
    Reading a question back. Each reader undoes one template: it finds the fixed
    text around the placeholders and recovers the values that were substituted.
    The round-trip lemmas show that a question determines everything its
    template embeds, and nothing the template leaves out.
  */

  /** The text between a fixed beginning and a fixed end of `q`, if `q` has both. */
  function Between(q: string, lead: string, tail: string): (r: Option<string>)
    ensures r.Some? ==> q == lead + r.value + tail
  {
    if |lead| + |tail| <= |q| && q[..|lead|] == lead && q[|q| - |tail|..] == tail
    then Some(q[|lead|..|q| - |tail|])
    else None
  }

  lemma BetweenOf(lead: string, x: string, tail: string)
    ensures Between(lead + x + tail, lead, tail) == Some(x)
  {
    var q := lead + x + tail;
    assert q[..|lead|] == lead;
    assert q[|q| - |tail|..] == tail;
    assert q[|lead|..|q| - |tail|] == x;
  }

  /** A line number printed in decimal. */
  function ReadLine(text: string): Option<nat>
  {
    if text != [] && AllDigits(text) then Some(DigitsValue(text)) else None
  }

  lemma ReadLineOf(lineno: nat)
    ensures ReadLine(Decimal(lineno)) == Some(lineno)
  {
    DecimalRoundTrip(lineno);
  }

  /** A name followed by `' at line ` and a decimal line number. */
  function ReadNameAndLine(text: string): Option<(string, nat)>
  {
    var digits := TrailingDigits(text);
    var rest := text[..|text| - |digits|];
    if digits != [] && |rest| >= 10 && rest[|rest| - 10..] == "' at line "
    then Some((rest[..|rest| - 10], DigitsValue(digits)))
    else None
  }

  lemma ReadNameAndLineOf(name: string, lineno: nat)
    ensures ReadNameAndLine(name + "' at line " + Decimal(lineno)) == Some((name, lineno))
  {
    var x := name + "' at line ";
    var d := Decimal(lineno);
    assert x[|x| - 1] == ' ';
    TrailingDigitsAfter(x, d);
    assert (x + d)[..|x + d| - |d|] == x;
    assert x[|x| - 10..] == "' at line ";
    assert x[..|x| - 10] == name;
    DecimalRoundTrip(lineno);
  }

  function ReadFunctionQuestion(q: string): Option<(string, nat)>
  {
    match Between(q, "What does the function '", " do?")
    case Some(text) => ReadNameAndLine(text)
    case None => None
  }

  function ReadFunctionArgsQuestion(q: string): Option<string>
  {
    Between(q, "What are the purposes of the arguments in the function '", "'?")
  }

  function ReadVariableQuestion(q: string): Option<(string, nat)>
  {
    match Between(q, "What is the role of the variable '", "?")
    case Some(text) => ReadNameAndLine(text)
    case None => None
  }

  function ReadLoopQuestion(q: string): Option<nat>
  {
    match Between(q, "What is the significance of the loop starting at line ", "?")
    case Some(text) => ReadLine(text)
    case None => None
  }

  function ReadConditionalQuestion(q: string): Option<nat>
  {
    match Between(q, "Under what conditions does the code block at line ", " execute?")
    case Some(text) => ReadLine(text)
    case None => None
  }

  function ReadImportQuestion(q: string): Option<string>
  {
    Between(q, "Why is the module '", "' imported, and how is it used?")
  }

  function ReadDocstringQuestion(q: string): Option<string>
  {
    Between(q, "What does the following docstring explain: '", "'?")
  }

  /** A `function` question gives back the function's name and its line number. */
  lemma FunctionQuestionRoundTrip(name: string, lineno: nat)
    ensures ReadFunctionQuestion(FunctionQuestion(name, lineno)) == Some((name, lineno))
  {
    var text := name + "' at line " + Decimal(lineno);
    assert FunctionQuestion(name, lineno) == "What does the function '" + text + " do?";
    BetweenOf("What does the function '", text, " do?");
    ReadNameAndLineOf(name, lineno);
  }

  /** A `function_args` question gives back the function's name. */
  lemma FunctionArgsQuestionRoundTrip(name: string)
    ensures ReadFunctionArgsQuestion(FunctionArgsQuestion(name)) == Some(name)
  {
    BetweenOf("What are the purposes of the arguments in the function '", name, "'?");
  }

  /** A `variable` question gives back the variable's name and its line number. */
  lemma VariableQuestionRoundTrip(name: string, lineno: nat)
    ensures ReadVariableQuestion(VariableQuestion(name, lineno)) == Some((name, lineno))
  {
    var text := name + "' at line " + Decimal(lineno);
    assert VariableQuestion(name, lineno) == "What is the role of the variable '" + text + "?";
    BetweenOf("What is the role of the variable '", text, "?");
    ReadNameAndLineOf(name, lineno);
  }

  /** A `loop` question gives back the loop's line number. */
  lemma LoopQuestionRoundTrip(lineno: nat)
    ensures ReadLoopQuestion(LoopQuestion(lineno)) == Some(lineno)
  {
    BetweenOf("What is the significance of the loop starting at line ", Decimal(lineno), "?");
    ReadLineOf(lineno);
  }

  /** A `conditional` question gives back the branch's line number. */
  lemma ConditionalQuestionRoundTrip(lineno: nat)
    ensures ReadConditionalQuestion(ConditionalQuestion(lineno)) == Some(lineno)
  {
    BetweenOf("Under what conditions does the code block at line ", Decimal(lineno), " execute?");
    ReadLineOf(lineno);
  }

  /** An `import` question gives back the module name, and it carries no line number at all. */
  lemma ImportQuestionRoundTrip(name: string)
    ensures ReadImportQuestion(ImportQuestion(name)) == Some(name)
  {
    BetweenOf("Why is the module '", name, "' imported, and how is it used?");
  }

  /** A `docstring` question gives back the docstring text. */
  lemma DocstringQuestionRoundTrip(doc: string)
    ensures ReadDocstringQuestion(DocstringQuestion(doc)) == Some(doc)
  {
    BetweenOf("What does the following docstring explain: '", doc, "'?");
  }

  /** Two questions from the same template are equal exactly when the substituted values are. */
  lemma SameTemplateQuestionsEqualIffSameValues(name1: string, line1: nat, doc1: string, name2: string, line2: nat, doc2: string)
    ensures FunctionQuestion(name1, line1) == FunctionQuestion(name2, line2) <==> name1 == name2 && line1 == line2
    ensures FunctionArgsQuestion(name1) == FunctionArgsQuestion(name2) <==> name1 == name2
    ensures VariableQuestion(name1, line1) == VariableQuestion(name2, line2) <==> name1 == name2 && line1 == line2
    ensures LoopQuestion(line1) == LoopQuestion(line2) <==> line1 == line2
    ensures ConditionalQuestion(line1) == ConditionalQuestion(line2) <==> line1 == line2
    ensures ImportQuestion(name1) == ImportQuestion(name2) <==> name1 == name2
    ensures DocstringQuestion(doc1) == DocstringQuestion(doc2) <==> doc1 == doc2
  {
    FunctionQuestionRoundTrip(name1, line1);
    FunctionQuestionRoundTrip(name2, line2);
    FunctionArgsQuestionRoundTrip(name1);
    FunctionArgsQuestionRoundTrip(name2);
    VariableQuestionRoundTrip(name1, line1);
    VariableQuestionRoundTrip(name2, line2);
    LoopQuestionRoundTrip(line1);
    LoopQuestionRoundTrip(line2);
    ConditionalQuestionRoundTrip(line1);
    ConditionalQuestionRoundTrip(line2);
    ImportQuestionRoundTrip(name1);
    ImportQuestionRoundTrip(name2);
    DocstringQuestionRoundTrip(doc1);
    DocstringQuestionRoundTrip(doc2);
  }
}
