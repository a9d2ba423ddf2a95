/**
 Sequences with set-insertion semantics: `[...new Set(xs)]` keeps each element
 once, at the place where it was first seen.
 */
module Seqs {

  /** Adding `x` to an insertion-ordered set. */
  function Insert<T(==)>(xs: seq<T>, x: T): seq<T>
  {
    if x in xs then xs else xs + [x]
  }

  /** `[...new Set(xs)]`. */
  function Distinct<T(==)>(xs: seq<T>): seq<T>
  {
    if |xs| == 0 then [] else Insert(Distinct(xs[..|xs| - 1]), xs[|xs| - 1])
  }

  predicate NoDuplicates<T(==)>(xs: seq<T>)
  {
    forall i, j :: 0 <= i < j < |xs| ==> xs[i] != xs[j]
  }

  /** Position of the first occurrence of `x` in `xs`. */
  function FirstIndex<T(==)>(xs: seq<T>, x: T): (k: nat)
    requires x in xs
    ensures k < |xs| && xs[k] == x && x !in xs[..k]
  {
    if xs[0] == x then 0
    else
      var k := FirstIndex(xs[1..], x) + 1;
      assert xs[..k] == [xs[0]] + xs[1..][..k - 1];
      k
  }

  /** Distinct keeps exactly the elements of `xs`, each once. */
  lemma {:induction false} DistinctElements<T>(xs: seq<T>)
    ensures NoDuplicates(Distinct(xs))
    ensures forall x :: x in Distinct(xs) ==> x in xs
    ensures forall x :: x in xs ==> x in Distinct(xs)
    decreases |xs|
  {
    if |xs| > 0 {
      var init := xs[..|xs| - 1];
      DistinctElements(init);
      assert xs == init + [xs[|xs| - 1]];
    }
  }

  /** Distinct lists elements in the order of their first occurrence in `xs`. */
  lemma {:induction false} DistinctFirstSeenOrder<T>(xs: seq<T>, i: nat, j: nat)
    requires i < j < |Distinct(xs)|
    ensures Distinct(xs)[i] in xs && Distinct(xs)[j] in xs
    ensures FirstIndex(xs, Distinct(xs)[i]) < FirstIndex(xs, Distinct(xs)[j])
    decreases |xs|
  {
    var d := Distinct(xs);
    DistinctElements(xs);
    var init := xs[..|xs| - 1];
    var last := xs[|xs| - 1];
    var d0 := Distinct(init);
    DistinctElements(init);
    assert xs == init + [last];
    assert i < |d0| && d[i] == d0[i] && d0[i] in d0;
    assert d[i] in init;
    FirstIndexPrefix(init, last, d[i]);
    if j < |d0| {
      DistinctFirstSeenOrder(init, i, j);
      FirstIndexPrefix(init, last, d[j]);
    } else {
      // d[j] is `last`, newly inserted: it does not occur in init
      assert d == d0 + [last] && d[j] == last && last !in init;
      assert d[i] in init;
      var k := FirstIndex(xs, last);
      assert xs[|init|] == last;
      assert xs[..k] == init[..k] || k >= |init|;
    }
  }

  lemma FirstIndexPrefix<T>(init: seq<T>, last: T, x: T)
    requires x in init
    ensures FirstIndex(init + [last], x) == FirstIndex(init, x) < |init|
  {
    var xs := init + [last];
    var k := FirstIndex(init, x);
    assert xs[k] == x;
    assert xs[..k] == init[..k];
  }
}
