/**
  `list(dict.fromkeys(xs))`: keeps the first occurrence of every value and drops
  later repeats, preserving the order of first occurrences.
*/
module Dedup {

  predicate Distinct<T(==)>(s: seq<T>)
  {
    forall i, j :: 0 <= i < j < |s| ==> s[i] != s[j]
  }

  /** Left-to-right reference: append each element unless it is already kept. */
  function Unique<T(==)>(s: seq<T>): (r: seq<T>)
    ensures |r| <= |s|
    ensures Distinct(r)
    ensures forall i :: 0 <= i < |r| ==> r[i] in s
    ensures forall i :: 0 <= i < |s| ==> s[i] in r
    decreases |s|
  {
    if s == [] then []
    else
      var u := Unique(s[..|s| - 1]);
      var x := s[|s| - 1];
      assert forall i :: 0 <= i < |s| - 1 ==> s[i] == s[..|s| - 1][i];
      if x in u then u else u + [x]
  }

  /** The index of the first occurrence of `x` in `s`. */
  function FirstIndex<T(==)>(s: seq<T>, x: T): (i: nat)
    requires x in s
    ensures i < |s| && s[i] == x && x !in s[..i]
    decreases |s|
  {
    if s[0] == x then 0
    else
      var j := FirstIndex(s[1..], x);
      assert s[..j + 1] == [s[0]] + s[1..][..j];
      j + 1
  }

  lemma FirstIndexExtend<T>(s: seq<T>, x: T, y: T)
    requires y in s
    ensures FirstIndex(s + [x], y) == FirstIndex(s, y)
  {
    var i := FirstIndex(s, y);
    var k := FirstIndex(s + [x], y);
    assert (s + [x])[..i + 1] == s[..i + 1];
  }

  /** The kept values appear in the order of their first occurrence in the input. */
  lemma {:induction false} UniqueKeepsFirstOccurrenceOrder<T>(s: seq<T>)
    ensures forall i, j :: 0 <= i < j < |Unique(s)| ==>
              FirstIndex(s, Unique(s)[i]) < FirstIndex(s, Unique(s)[j])
    decreases |s|
  {
    if s != [] {
      var p := s[..|s| - 1];
      var x := s[|s| - 1];
      var u := Unique(p);
      UniqueKeepsFirstOccurrenceOrder(p);
      assert s == p + [x];
      forall k | 0 <= k < |u|
        ensures FirstIndex(s, u[k]) == FirstIndex(p, u[k])
      {
        FirstIndexExtend(p, x, u[k]);
      }
      if x !in u {
        assert x !in p;
        var r := u + [x];
        forall i | 0 <= i < |u|
          ensures FirstIndex(s, r[i]) < FirstIndex(s, x)
        {
          assert r[i] == u[i];
          assert FirstIndex(s, x) == |p| by {
            assert s[|p|] == x;
            assert s[..|p|] == p;
          }
        }
      }
    }
  }

  /** A sequence without repeats is left unchanged. */
  lemma {:induction false} UniqueOfDistinct<T>(s: seq<T>)
    requires Distinct(s)
    ensures Unique(s) == s
    decreases |s|
  {
    if s != [] {
      var p := s[..|s| - 1];
      assert Distinct(p);
      UniqueOfDistinct(p);
      assert s[|s| - 1] !in p;
      assert s == p + [s[|s| - 1]];
    }
  }

  /** Deduplicating twice is the same as deduplicating once. */
  lemma UniqueIdempotent<T>(s: seq<T>)
    ensures Unique(Unique(s)) == Unique(s)
  {
    UniqueOfDistinct(Unique(s));
  }

  /** Deduplication removes something exactly when the input has a repeat. */
  lemma UniqueUnchangedIffDistinct<T>(s: seq<T>)
    ensures Unique(s) == s <==> Distinct(s)
  {
    if Distinct(s) {
      UniqueOfDistinct(s);
    }
  }

  /** `list(dict.fromkeys(xs))`: one pass over `xs`, remembering the keys already inserted. */
  method FromKeys<T(==)>(xs: seq<T>) returns (keys: seq<T>)
    ensures keys == Unique(xs)
  {
    var seen: set<T> := {};
    keys := [];
    for i := 0 to |xs|
      invariant keys == Unique(xs[..i])
      invariant forall y :: y in seen <==> y in keys
    {
      assert xs[..i + 1][..i] == xs[..i];
      if xs[i] !in seen {
        seen := seen + {xs[i]};
        keys := keys + [xs[i]];
      }
    }
    assert xs[..|xs|] == xs;
  }
}
