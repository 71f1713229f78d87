# Code-comprehension question generator, modelled in Dafny

This project models `EnhancedQuestionGenerator`, the class that turns a Python
code snippet into a comprehension question. It works in two stages.

- **Structural analysis** (`analyze_code`, `extract_docstrings`):
  - the parsed syntax tree is walked six times with `ast.walk`, once per category, and `ast.walk` visits nodes breadth-first;
  - every walk of the same unchanged tree yields the same order, so the model computes `WalkOrder(tree)` once and reuses it;
  - every node is sorted into six ordered fact lists: functions, variables, loops, conditionals, imports and docstrings.
- **Question synthesis** (`generate_questions`):
  - every fact is rendered through a fixed template table, category by category;
  - the pool is deduplicated keeping first occurrences (`dict.fromkeys`);
  - one question is picked at random.

The modules follow that structure.

- `Wrappers`: `Option` and `Result`.
- `Syntax`: the syntax tree. A `Node` is a node kind plus its children, in `ast.iter_child_nodes` order. `Size` and `Subtrees` are the tree's size and its pre-order node list.
- `AstWalk`: `ast.walk` as a queue.
  - `WalkQueue` pops the front node and appends that node's children.
  - `Walk` is the same algorithm as a loop.
  - The lemmas prove that the walk visits every node exactly once and that it equals the level-by-level order.
- `Text`: Python's `str.strip()`, and `str(n)` for non-negative integers (`Decimal`, with its inverse `DigitsValue`).
- `Seqs`: `Count`, and `Collect`, the filter-map behind every list comprehension of the form `[g(node) for node in ast.walk(tree) if isinstance(node, K)]`.
- `Dedup`: `Unique`, which is `list(dict.fromkeys(xs))`, and `FromKeys`, its loop implementation.
- `Templates`: the template table and `str.format`.
  - Each template is held already split into literal text and named placeholders.
  - `Format` substitutes the arguments.
  - One renderer per category gives the exact text of the question.
  - One reader per category inverts its renderer.
- `Analyzer`: `analyze_code` and `extract_docstrings`.
- `Generator`: `generate_questions`.
- `Examples`: hand-built syntax trees for a few snippets, with their proved walk order, analysis and candidate questions.

Parsing is an input: `analyze_code` and `generate_questions` take the parser's
outcome as a `Result<Node, string>`. A failure carries the text of the exception.

Each `Name` node becomes a variable fact whatever its context (load, store or
delete). So `x = 1; print(x)` yields three variable facts: `x`, `print` and `x`
again. Deduplication later merges only the questions that come out identical.

## Model

| member | source | states |
|---|---|---|
| AstWalk.Walk | app.py:70 | The node sequence `ast.walk(tree)` yields starts at the root and has exactly as many entries as the tree has nodes. |
| AstWalk.WalkVisitsEveryNodeOnce | app.py:34-57 | Every node of the tree is visited, and each exactly as many times as it occurs in the tree. The walk is a permutation of the tree's nodes. |
| AstWalk.WalkIsBreadthFirst | app.py:40 | The walk order is level order: the root, then all depth-1 nodes left to right, then all depth-2 nodes, and so on. |
| AstWalk.WalkQueueCons | app.py:40 | Visiting the node at the head of the queue yields it first and adds its children at the back of the queue. |
| AstWalk.WalkQueueShift | app.py:40 | After the first queue entries are visited, the walk goes on with the rest of the queue followed by those entries' children. |
| Text.Strip | app.py:74 | A stripped docstring neither starts nor ends with whitespace and is no longer than the original. |
| Text.StripRemovesOnlyWhitespace | app.py:74 | `strip()` returns a contiguous slice of its input, and everything cut off on either side is whitespace. |
| Text.StripIdempotent | app.py:74 | Stripping twice is the same as stripping once. |
| Text.Decimal | app.py:90 | A line number is printed as a non-empty run of decimal digits with no leading zero. |
| Text.DecimalRoundTrip | app.py:90 | Reading the printed digits back gives the original line number. |
| Text.DecimalInjective | app.py:100 | Two line numbers print the same exactly when they are equal. |
| Text.TrailingDigitsAfter | app.py:18 | When a line number follows text ending in a non-digit, the trailing digit run is exactly the number's digits. |
| Seqs.CountPermutation | app.py:34-57 | How many nodes satisfy a test does not depend on the order in which they are listed. |
| Seqs.CollectPositions | app.py:34-57 | A comprehension over a sequence keeps one entry per selected element, in order. The selected element at position `i` gives the entry whose index is the number of selected elements before `i`. |
| Seqs.CollectEmpty | app.py:34-57 | A comprehension collects nothing exactly when it selects no element. |
| Seqs.CollectMembers | app.py:34-57 | Every entry of a comprehension comes from some element, and every selected element contributes its entry. |
| Dedup.Unique | app.py:128 | `list(dict.fromkeys(xs))` has no repeats and holds exactly the elements of `xs`. |
| Dedup.UniqueKeepsFirstOccurrenceOrder | app.py:128 | The deduplicated list orders the elements by their first occurrence in the input. |
| Dedup.UniqueIdempotent | app.py:128 | Deduplicating twice is the same as deduplicating once. |
| Dedup.UniqueOfDistinct | app.py:128 | A list without repeats is unchanged by deduplication. |
| Dedup.UniqueUnchangedIffDistinct | app.py:128 | Deduplication leaves a list unchanged exactly when the list has no repeats. |
| Dedup.FromKeys | app.py:128 | Inserting the keys one by one into an insertion-ordered dictionary and listing it gives `Unique(xs)`. |
| Templates.FunctionQuestion | app.py:18 | The `function` question is "What does the function '", the name, "' at line ", the decimal line number, then " do?". |
| Templates.FunctionArgsQuestion | app.py:19 | The `function_args` question embeds the function name between its fixed opening and closing text. |
| Templates.VariableQuestion | app.py:20 | The `variable` question embeds the name and the decimal line number. |
| Templates.LoopQuestion | app.py:21 | The `loop` question embeds the decimal line number. |
| Templates.ConditionalQuestion | app.py:22 | The `conditional` question embeds the decimal line number. |
| Templates.ImportQuestion | app.py:23 | The `import` question embeds the module name and nothing else. |
| Templates.DocstringQuestion | app.py:24 | The `docstring` question embeds the docstring text. |
| Templates.Between | app.py:17-25 | The text read between a fixed beginning and a fixed end rebuilds the whole question when put back between them. |
| Templates.FunctionQuestionRoundTrip | app.py:90 | The function name and line number can be read back from a `function` question. |
| Templates.FunctionArgsQuestionRoundTrip | app.py:94 | The function name can be read back from a `function_args` question. |
| Templates.VariableQuestionRoundTrip | app.py:100 | The variable name and line number can be read back from a `variable` question. |
| Templates.LoopQuestionRoundTrip | app.py:106 | The line number can be read back from a `loop` question. |
| Templates.ConditionalQuestionRoundTrip | app.py:112 | The line number can be read back from a `conditional` question. |
| Templates.ImportQuestionRoundTrip | app.py:118 | The module name can be read back from an `import` question. |
| Templates.DocstringQuestionRoundTrip | app.py:124 | The docstring can be read back from a `docstring` question. |
| Templates.SameTemplateQuestionsEqualIffSameValues | app.py:17-25 | Two questions from the same template are equal exactly when the values substituted into them (names, line numbers, docstrings) are equal. |
| Analyzer.AsFunction | app.py:34-41 | A node gives a function fact exactly when it is a `FunctionDef`. |
| Analyzer.AsVariable | app.py:42-45 | A node gives a variable fact exactly when it is a `Name`. |
| Analyzer.AsLoop | app.py:46-49 | A node gives a loop fact exactly when it is a `For` or a `While`. |
| Analyzer.AsConditional | app.py:50-53 | A node gives a conditional fact exactly when it is an `If`. |
| Analyzer.AsImport | app.py:54-57 | A node gives an import fact exactly when it is an `Import`. |
| Analyzer.AsDocstring | app.py:71-74 | A node gives a docstring exactly when it is a module or function whose docstring is present and non-empty. The recorded text is stripped. |
| Analyzer.AnalyzeCode | app.py:27-62 | A parse failure gives an error that carries the parser's message, and no facts. A successful parse gives the analysis of the tree. |
| Analyzer.ExtractDocstrings | app.py:64-75 | The loop over the walk collects exactly the docstring list of the analysis, and every entry is stripped. |
| Analyzer.FactsFollowWalkOrder | app.py:33-58 | Each of the six fact lists is the in-order selection of its node kind from the walk. |
| Analyzer.CollectOverTree | app.py:34-57 | A comprehension over the walk has one entry per node of the selected kind anywhere in the tree. Every entry comes from such a node. |
| Analyzer.FunctionsOfTree | app.py:34-41 | There is one function fact per `FunctionDef` node, with its name, its line and its plain positional parameters. Async definitions are not counted. |
| Analyzer.VariablesOfTree | app.py:42-45 | There is one variable fact per `Name` node. Repeated names are kept. |
| Analyzer.LoopsOfTree | app.py:46-49 | There is one loop fact per `For` or `While` node. `async for` does not count. |
| Analyzer.ConditionalsOfTree | app.py:50-53 | There is one conditional fact per `If` node. |
| Analyzer.ImportsOfTree | app.py:54-57 | There is one import fact per `import` statement, holding only the first module name. `from … import` gives none. |
| Analyzer.DocstringsOfTree | app.py:69-75 | There is one stripped docstring per module or function with a non-empty docstring. Classes give none. |
| Generator.GenerateQuestions | app.py:77-131 | A parse error gives the one-element list "Error analyzing code: " + message. An empty candidate list fails the random choice. Otherwise the result is one of the deduplicated candidates. |
| Generator.FunctionArgumentRule | app.py:88-95 | A function without parameters gives only its base question. A function with parameters gives the base question and then the arguments question. |
| Generator.FunctionQuestionsLength | app.py:88-95 | The function block has one question per function plus one per function with parameters. |
| Generator.FunctionQuestionsAppend | app.py:88-95 | The function block renders functions one after another, in the order of the fact list. |
| Generator.FunctionBlocksMembers | app.py:88-95 | A question is in the function block exactly when it belongs to the block of one of the functions. |
| Generator.FunctionQuestionsMembers | app.py:88-95 | The function block holds every function's base question, and the arguments question of exactly the functions that have parameters. |
| Generator.VariableQuestionsMembers | app.py:98-101 | The variable questions are exactly the renderings of the variable facts. |
| Generator.LoopQuestionsMembers | app.py:104-107 | The loop questions are exactly the renderings of the loop facts. |
| Generator.ConditionalQuestionsMembers | app.py:110-113 | The conditional questions are exactly the renderings of the conditional facts. |
| Generator.ImportQuestionsMembers | app.py:116-119 | The import questions are exactly the renderings of the import facts' module names. |
| Generator.DocstringQuestionsMembers | app.py:122-125 | The docstring questions are exactly the renderings of the docstrings. |
| Generator.PoolSize | app.py:85-125 | The pool before deduplication has one question per fact, plus one per function with parameters. |
| Generator.PoolMembers | app.py:85-125 | A question is in the pool exactly when some fact of the analysis renders to it. |
| Generator.ImportQuestionIgnoresLine | app.py:116-119 | Two analyses that differ only in the line numbers of their import facts have the same question pool and the same candidates: the import question names only the module. |
| Generator.CandidatesEmptyIffNoFacts | app.py:128-131 | There is nothing to choose from exactly when all six fact lists are empty. |
| Generator.CandidatesAreFirstOccurrences | app.py:128 | The candidates have no repeats and hold exactly the pool's questions, ordered by first occurrence. Deduplicating again changes nothing. |
| Examples.AddWalk | app.py:40 | `ast.walk` visits the tree of `def add(a, b): return a + b` level by level: the module, the definition, its parameter list and body, and so on down to the `Load` context nodes. |
| Examples.AddAnalysis | app.py:33-58 | The `add` snippet gives one function fact (`add`, line 1, parameters `a` and `b`) and two variable facts (`a` and `b` on line 2), and nothing else. |
| Examples.AddCandidates | app.py:85-131 | The `add` snippet offers exactly four questions, in this order: what `add` at line 1 does, what its arguments are for, the role of `a` at line 2, and the role of `b` at line 2. |
| Examples.AssignCandidates | app.py:42-45 | In `x = 1` the assignment target is a `Name` node. It gives one variable fact and the single question about `x` at line 1. |
| Examples.LiteralCandidates | app.py:128-131 | A snippet that is just a constant leaves no candidates, so the random choice has nothing to pick from. |
| Examples.ImportCandidates | app.py:54-57 | `import os, sys` followed by `from json import loads` gives one import fact, for `os`, and the single question about `os`. |

## Left out

- The web endpoint, JSON handling, CORS and server start-up (app.py:3-10, 134-150) are transport around the generator, so they are not modelled.
- `ast.parse` is CPython's parser, so it is not modelled. Its outcome is an input, either a tree or the exception's message.
- `ast.get_docstring` is not modelled either. Its result, including the `inspect.cleandoc` indentation clean-up, is the `doc` field of a module or function node.
- The text of exceptions (`str(e)`) is an opaque string.
- `random.choice` is modelled as an unspecified choice. The contract says only that the answer is one of the candidates.
- The source returns a list on the error path but a bare string on success. These are separate `Reply` variants rather than one dynamically typed value.
- `random.choice` raising on an empty list is the `EmptyPool` reply. Python's exception is not modelled.
- Most syntax-tree kinds are `Other`, and their fields are not modelled. They still carry children, so the walk visits below them. `AsyncFunctionDef`, `ClassDef`, `AsyncFor` and `ImportFrom` are never tested by the source, and it never reads a `Name` node's context. These are kept as separate constructors with their fields so that the lemmas can show they yield no facts.
- Text is modelled as Dafny strings, which are sequences of Unicode scalar values. A Python `str` can also hold lone surrogates, for example a docstring `"""\ud800 x"""`. In the source such text flows through `strip`, `format`, deduplication and the random choice into the returned question, but the model cannot represent it, so those inputs are excluded.
- The example trees are written out by hand, following the node shapes of Python's `ast` module. The parser is not modelled, so nothing ties them to the exact output of `ast.parse`.
- Line numbers are unbounded naturals, and Python's integers are unbounded too.
- Templates.Format: the template strings are held already split into literal text and placeholders. Python's format-string parser (escaped braces, conversions, format specs) is not modelled, because the seven templates use none of those features.
- Generator.QuestionPool: the order of the categories in the pool follows from the definition itself. No lemma restates it position by position.
- Generator.PoolMembers: the templates' fixed openings differ, so questions from different templates should never coincide. The model does not prove this. Only same-template equality is characterised, by Templates.SameTemplateQuestionsEqualIffSameValues.
