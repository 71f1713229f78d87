/**
  `ast.walk`: a breadth-first traversal that keeps a queue of pending nodes, pops
  the front node, appends its children at the back and yields the popped node.
*/
module AstWalk {
  import opened Syntax

  /** The children of every node of a queue: queue order first, then child order. */
  function Kids(q: seq<Node>): (r: seq<Node>)
    ensures SizeSeq(r) + |q| == SizeSeq(q)
    decreases q
  {
    if q == [] then []
    else
      SizeSeqAppend(q[0].children, Kids(q[1..]));
      q[0].children + Kids(q[1..])
  }

  lemma {:induction false} KidsAppend(a: seq<Node>, b: seq<Node>)
    ensures Kids(a + b) == Kids(a) + Kids(b)
    decreases |a|
  {
    if a == [] {
      assert a + b == b;
    } else {
      assert (a + b)[1..] == a[1..] + b;
      KidsAppend(a[1..], b);
    }
  }

  /** The nodes the traversal yields once `todo` is its pending queue, in yield order. */
  function WalkQueue(todo: seq<Node>): (r: seq<Node>)
    ensures |r| == SizeSeq(todo)
    decreases SizeSeq(todo)
  {
    if todo == [] then []
    else
      var node := todo[0];
      SizeSeqAppend(todo[1..], node.children);
      assert SizeSeq(todo) == Size(node) + SizeSeq(todo[1..]);
      [node] + WalkQueue(todo[1..] + node.children)
  }

  /** The order in which `ast.walk(root)` yields the nodes of `root`. */
  function WalkOrder(root: Node): seq<Node>
  {
    WalkQueue([root])
  }

  /** `ast.walk` itself: the queue loop, producing every yielded node in order. */
  method Walk(root: Node) returns (order: seq<Node>)
    ensures order == WalkOrder(root)
    ensures |order| == Size(root) && order[0] == root
  {
    var todo := [root];
    order := [];
    while todo != []
      invariant order + WalkQueue(todo) == WalkOrder(root)
      decreases SizeSeq(todo)
    {
      var node := todo[0];
      SizeSeqAppend(todo[1..], node.children);
      assert WalkQueue(todo) == [node] + WalkQueue(todo[1..] + node.children);
      todo := todo[1..] + node.children;
      order := order + [node];
    }
    assert order == order + WalkQueue([]);
  }

  /**
    Breadth-first order, defined level by level: the nodes at depth 0, then all
    nodes at depth 1 left to right, and so on.
  */
  function LevelOrder(level: seq<Node>): seq<Node>
    decreases SizeSeq(level)
  {
    if level == [] then [] else level + LevelOrder(Kids(level))
  }

  /** The walk yields the first pending node and queues its children at the back. */
  lemma WalkQueueCons(h: Node, r: seq<Node>)
    ensures WalkQueue([h] + r) == [h] + WalkQueue(r + h.children)
  {
    assert ([h] + r)[1..] == r;
  }

  /** Pending nodes ahead of `b` are yielded first; their children queue up behind `b`. */
  lemma {:induction false} WalkQueueShift(a: seq<Node>, b: seq<Node>)
    ensures WalkQueue(a + b) == a + WalkQueue(b + Kids(a))
    decreases |a|
  {
    if a == [] {
      assert a + b == b;
      assert b + Kids(a) == b;
    } else {
      var h, t := a[0], a[1..];
      calc {
        WalkQueue(a + b);
      == { assert a + b == [h] + (t + b);
           WalkQueueCons(h, t + b);
           assert (t + b) + h.children == t + (b + h.children); }
        [h] + WalkQueue(t + (b + h.children));
      == { WalkQueueShift(t, b + h.children);
           assert Kids(a) == h.children + Kids(t);
           assert (b + h.children) + Kids(t) == b + Kids(a); }
        [h] + (t + WalkQueue(b + Kids(a)));
      == { assert a == [h] + t; }
        a + WalkQueue(b + Kids(a));
      }
    }
  }

  /** The queue-driven walk is exactly the level-by-level breadth-first order. */
  lemma {:induction false} WalkIsLevelOrder(q: seq<Node>)
    ensures WalkQueue(q) == LevelOrder(q)
    decreases SizeSeq(q)
  {
    if q != [] {
      WalkQueueShift(q, []);
      assert q + [] == q;
      assert [] + Kids(q) == Kids(q);
      WalkIsLevelOrder(Kids(q));
    }
  }

  /** The walk yields every node of the queued trees exactly as often as they occur. */
  lemma {:induction false} WalkQueuePermutesSubtrees(q: seq<Node>)
    ensures multiset(WalkQueue(q)) == multiset(SubtreesSeq(q))
    decreases SizeSeq(q)
  {
    if q != [] {
      var h := q[0];
      var t := q[1..];
      SizeSeqAppend(t, h.children);
      assert SizeSeq(q) == Size(h) + SizeSeq(t);
      WalkQueuePermutesSubtrees(t + h.children);
      SubtreesSeqAppend(t, h.children);
      assert SubtreesSeq(q) == [h] + SubtreesSeq(h.children) + SubtreesSeq(t);
    }
  }

  /** `ast.walk(root)` visits every node of the tree exactly once. */
  lemma WalkVisitsEveryNodeOnce(root: Node)
    ensures multiset(WalkOrder(root)) == multiset(Subtrees(root))
    ensures forall n :: n in WalkOrder(root) <==> n in Subtrees(root)
  {
    WalkQueuePermutesSubtrees([root]);
    assert SubtreesSeq([root]) == Subtrees(root) + SubtreesSeq([]);
    forall n
      ensures n in WalkOrder(root) <==> n in Subtrees(root)
    {
      assert n in WalkOrder(root) <==> n in multiset(WalkOrder(root));
      assert n in Subtrees(root) <==> n in multiset(Subtrees(root));
    }
  }

  /** `ast.walk(root)` is the breadth-first order of the tree. */
  lemma WalkIsBreadthFirst(root: Node)
    ensures WalkOrder(root) == LevelOrder([root])
  {
    WalkIsLevelOrder([root]);
  }
}
