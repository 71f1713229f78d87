/**
  The part of Python's abstract syntax tree that the question generator looks at.
  A node is a kind tag, carrying the attributes the generator reads, together with
  the node's children in the order `ast.iter_child_nodes` yields them. A few kinds
  the generator does not select (`AsyncFunctionDef`, `ClassDef`, `AsyncFor`,
  `ImportFrom`) and the context of a `Name` are kept, so that lemmas can show they
  yield no facts; every other kind is collapsed into `Other`.
*/
module Syntax {
  import opened Wrappers

  /** The expression context of a `Name` node: read, assignment target or `del` target. */
  datatype Context = Load | Store | Del

  /** The parameter list of a function definition, as in `ast.arguments`. */
  datatype Arguments = Arguments(
    posonlyargs: seq<string>,
    args: seq<string>,
    vararg: Option<string>,
    kwonlyargs: seq<string>,
    kwarg: Option<string>)

  /** The names listed by an `import` statement; the parser never produces an empty list. */
  type AliasNames = s: seq<string> | |s| >= 1 witness [""]

  /**
    The kind of a node. Docstrings are the result of `ast.get_docstring` on the
    node (already cleaned by that foreign call), `None` when there is none.
  */
  datatype Kind =
    | Module(doc: Option<string>)
    | FunctionDef(name: string, lineno: nat, params: Arguments, doc: Option<string>)
    | AsyncFunctionDef(name: string, lineno: nat, params: Arguments, doc: Option<string>)
    | ClassDef(name: string, lineno: nat, doc: Option<string>)
    | Name(id: string, lineno: nat, ctx: Context)
    | For(lineno: nat)
    | AsyncFor(lineno: nat)
    | While(lineno: nat)
    | If(lineno: nat)
    | Import(lineno: nat, names: AliasNames)
    | ImportFrom(lineno: nat, source: Option<string>, names: AliasNames)
    | Other

  datatype Node = Node(kind: Kind, children: seq<Node>)

  /** The number of nodes in a tree. */
  function Size(n: Node): (r: nat)
    ensures r >= 1
    decreases n
  {
    1 + SizeSeq(n.children)
  }

  /** The number of nodes in a forest. */
  function SizeSeq(s: seq<Node>): nat
    decreases s
  {
    if s == [] then 0 else Size(s[0]) + SizeSeq(s[1..])
  }

  lemma {:induction false} SizeSeqAppend(a: seq<Node>, b: seq<Node>)
    ensures SizeSeq(a + b) == SizeSeq(a) + SizeSeq(b)
    decreases |a|
  {
    if a == [] {
      assert a + b == b;
    } else {
      assert (a + b)[1..] == a[1..] + b;
      SizeSeqAppend(a[1..], b);
    }
  }

  /**
    Every node of a tree, each exactly once, in depth-first pre-order. This is the
    reference against which the breadth-first walk is measured.
  */
  function Subtrees(n: Node): (r: seq<Node>)
    ensures |r| == Size(n)
    ensures r[0] == n
    decreases n
  {
    [n] + SubtreesSeq(n.children)
  }

  /** Every node of a forest, tree after tree. */
  function SubtreesSeq(s: seq<Node>): (r: seq<Node>)
    ensures |r| == SizeSeq(s)
    decreases s
  {
    if s == [] then [] else Subtrees(s[0]) + SubtreesSeq(s[1..])
  }

  lemma {:induction false} SubtreesSeqAppend(a: seq<Node>, b: seq<Node>)
    ensures SubtreesSeq(a + b) == SubtreesSeq(a) + SubtreesSeq(b)
    decreases |a|
  {
    if a == [] {
      assert a + b == b;
    } else {
      assert (a + b)[1..] == a[1..] + b;
      SubtreesSeqAppend(a[1..], b);
    }
  }
}
