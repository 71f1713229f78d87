/**
  Order-preserving selection over sequences: the shape of a Python list
  comprehension `[g(x) for x in xs if test(x)]`, with `f(x) == Some(g(x))`
  exactly when `test(x)` holds.
*/
module Seqs {
  import opened Wrappers

  /** How many elements of `s` satisfy `p`. */
  function Count<T>(s: seq<T>, p: T -> bool): (n: nat)
    ensures n <= |s|
    decreases |s|
  {
    if s == [] then 0 else (if p(s[0]) then 1 else 0) + Count(s[1..], p)
  }

  lemma {:induction false} CountAppend<T>(a: seq<T>, b: seq<T>, p: T -> bool)
    ensures Count(a + b, p) == Count(a, p) + Count(b, p)
    decreases |a|
  {
    if a == [] {
      assert a + b == b;
    } else {
      assert (a + b)[1..] == a[1..] + b;
      CountAppend(a[1..], b, p);
    }
  }

  /** Taking one element out of a sequence takes its share out of the count. */
  lemma CountMiddle<T>(front: seq<T>, x: T, back: seq<T>, p: T -> bool)
    ensures Count(front + ([x] + back), p) == (if p(x) then 1 else 0) + Count(front + back, p)
  {
    CountAppend(front, [x] + back, p);
    CountAppend(front, back, p);
    assert ([x] + back)[1..] == back;
  }

  /** Removing the first element of `a` and a copy of it from `b` keeps the two multisets equal. */
  lemma MultisetRemove<T>(a: seq<T>, b: seq<T>, j: nat)
    requires multiset(a) == multiset(b)
    requires a != [] && j < |b| && b[j] == a[0]
    ensures multiset(a[1..]) == multiset(b[..j] + b[j + 1..])
  {
    var x := a[0];
    assert b == b[..j] + ([x] + b[j + 1..]);
    assert multiset(b) == multiset(b[..j]) + multiset([x]) + multiset(b[j + 1..]);
    assert a == [x] + a[1..];
    assert multiset(a) == multiset([x]) + multiset(a[1..]);
    assert multiset(b[..j] + b[j + 1..]) == multiset(b[..j]) + multiset(b[j + 1..]);
    assert multiset(a[1..]) == multiset(a) - multiset([x]);
  }

  /** Reordering a sequence does not change how many of its elements satisfy `p`. */
  lemma {:induction false} CountPermutation<T>(a: seq<T>, b: seq<T>, p: T -> bool)
    requires multiset(a) == multiset(b)
    ensures Count(a, p) == Count(b, p)
    decreases |a|
  {
    if a == [] {
      assert |multiset(b)| == 0;
    } else {
      var x := a[0];
      assert x in multiset(b);
      var j :| 0 <= j < |b| && b[j] == x;
      var rest := b[..j] + b[j + 1..];
      MultisetRemove(a, b, j);
      CountPermutation(a[1..], rest, p);
      assert b == b[..j] + ([x] + b[j + 1..]);
      CountMiddle(b[..j], x, b[j + 1..], p);
    }
  }

  /** The values `f` selects from `s`, in the order of `s`. */
  function Collect<T, U>(s: seq<T>, f: T -> Option<U>): (r: seq<U>)
    ensures |r| <= |s|
    decreases |s|
  {
    if s == [] then []
    else (match f(s[0]) case Some(y) => [y] case None => []) + Collect(s[1..], f)
  }

  /** Every collected value comes from an element of `s`, and every selected element yields one. */
  lemma {:induction false} CollectMembers<T, U>(s: seq<T>, f: T -> Option<U>)
    ensures forall y :: y in Collect(s, f) ==> exists x :: x in s && f(x) == Some(y)
    ensures forall x :: x in s && f(x).Some? ==> f(x).value in Collect(s, f)
    decreases |s|
  {
    if s != [] {
      CollectMembers(s[1..], f);
      assert forall x :: x in s ==> x == s[0] || x in s[1..];
    }
  }

  /** Nothing is collected exactly when `f` selects no element of `s`. */
  lemma {:induction false} CollectEmpty<T, U>(s: seq<T>, f: T -> Option<U>)
    ensures Collect(s, f) == [] <==> forall i :: 0 <= i < |s| ==> f(s[i]).None?
    decreases |s|
  {
    if s != [] {
      CollectEmpty(s[1..], f);
      assert forall i :: 1 <= i < |s| ==> s[i] == s[1..][i - 1];
    }
  }

  lemma {:induction false} CollectAppend<T, U>(a: seq<T>, b: seq<T>, f: T -> Option<U>)
    ensures Collect(a + b, f) == Collect(a, f) + Collect(b, f)
    decreases |a|
  {
    if a == [] {
      assert a + b == b;
    } else {
      assert (a + b)[1..] == a[1..] + b;
      CollectAppend(a[1..], b, f);
    }
  }

  /**
    `r` lists what `f` selects from `s`, in order and with multiplicity: one
    entry per element satisfying `p`, and the selected element at index `i`
    sits at the position given by how many elements before it were selected.
  */
  ghost predicate SelectedInOrder<T, U>(s: seq<T>, p: T -> bool, f: T -> Option<U>, r: seq<U>)
  {
    && |r| == Count(s, p)
    && forall i :: 0 <= i < |s| && p(s[i]) ==> Count(s[..i], p) < |r| && f(s[i]) == Some(r[Count(s[..i], p)])
  }

  /** `Collect` is an order-preserving selection. */
  lemma {:induction false} CollectPositions<T, U>(s: seq<T>, f: T -> Option<U>, p: T -> bool)
    requires forall x :: f(x).Some? <==> p(x)
    ensures SelectedInOrder(s, p, f, Collect(s, f))
    decreases |s|
  {
    if s != [] {
      var r := Collect(s, f);
      var t := s[1..];
      CollectPositions(t, f, p);
      var c0 := if p(s[0]) then 1 else 0;
      assert r == (if p(s[0]) then [f(s[0]).value] else []) + Collect(t, f);
      forall i | 0 <= i < |s| && p(s[i])
        ensures Count(s[..i], p) < |r| && f(s[i]) == Some(r[Count(s[..i], p)])
      {
        if i > 0 {
          assert s[..i] == [s[0]] + t[..i - 1];
          assert ([s[0]] + t[..i - 1])[1..] == t[..i - 1];
          assert Count(s[..i], p) == c0 + Count(t[..i - 1], p);
          assert s[i] == t[i - 1];
        }
      }
    }
  }
}
