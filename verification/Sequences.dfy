/** Sequences without repetition, as the kernel's lists are. */
module Sequences {
  ghost predicate Distinct<T>(xs: seq<T>) {
    forall i, j :: 0 <= i < j < |xs| ==> xs[i] != xs[j]
  }

  function Without<T(==)>(xs: seq<T>, x: T): seq<T> {
    if xs == [] then []
    else if xs[0] == x then xs[1..]
    else [xs[0]] + Without(xs[1..], x)
  }

  function InsertAt<T>(xs: seq<T>, k: nat, x: T): seq<T>
    requires k <= |xs|
  {
    xs[..k] + [x] + xs[k..]
  }

  lemma InsertAtMembers<T>(xs: seq<T>, k: nat, x: T)
    requires k <= |xs|
    ensures forall y :: y in InsertAt(xs, k, x) <==> y in xs || y == x
  {
    assert xs == xs[..k] + xs[k..];
  }

  lemma InsertAtDistinct<T>(xs: seq<T>, k: nat, x: T)
    requires k <= |xs| && Distinct(xs) && x !in xs
    ensures Distinct(InsertAt(xs, k, x))
  {
    var r := InsertAt(xs, k, x);
    forall i, j | 0 <= i < j < |r|
      ensures r[i] != r[j]
    {
      assert i != k ==> r[i] == xs[if i < k then i else i - 1];
      assert j != k ==> r[j] == xs[if j < k then j else j - 1];
    }
  }

  function RemoveAt<T>(xs: seq<T>, k: nat): seq<T>
    requires k < |xs|
  {
    xs[..k] + xs[k + 1..]
  }

  lemma RemoveAtMembers<T>(xs: seq<T>, k: nat)
    requires k < |xs| && Distinct(xs)
    ensures forall y :: y in RemoveAt(xs, k) <==> y in xs && y != xs[k]
  {
    assert xs == xs[..k] + [xs[k]] + xs[k + 1..];
  }

  lemma RemoveAtDistinct<T>(xs: seq<T>, k: nat)
    requires k < |xs| && Distinct(xs)
    ensures Distinct(RemoveAt(xs, k))
  {
  }

  lemma TailDistinct<T>(xs: seq<T>)
    requires xs != [] && Distinct(xs)
    ensures Distinct(xs[1..]) && xs[0] !in xs[1..]
    ensures forall x :: x in xs <==> x == xs[0] || x in xs[1..]
  {
    assert xs == [xs[0]] + xs[1..];
  }

  lemma {:induction false} WithoutSplits<T>(xs: seq<T>, x: T) returns (i: nat)
    requires x in xs
    ensures i < |xs| && xs[i] == x && Without(xs, x) == xs[..i] + xs[i + 1..]
  {
    if xs[0] == x {
      i := 0;
    } else {
      var j := WithoutSplits(xs[1..], x);
      i := j + 1;
      assert xs[..i] == [xs[0]] + xs[1..][..j];
    }
  }

  lemma {:induction false} WithoutMembers<T>(xs: seq<T>, x: T)
    requires Distinct(xs)
    ensures Distinct(Without(xs, x)) && forall y :: y in Without(xs, x) <==> y in xs && y != x
    ensures |Without(xs, x)| == if x in xs then |xs| - 1 else |xs|
    ensures x !in xs ==> Without(xs, x) == xs
  {
    if xs != [] {
      TailDistinct(xs);
      if xs[0] != x {
        WithoutMembers(xs[1..], x);
        var rest := Without(xs[1..], x);
        assert xs[0] !in rest;
        assert forall i, j :: 0 <= i < j < |rest| ==> rest[i] != rest[j];
      }
    }
  }

  function Elems<T(!new)>(xs: seq<T>): (r: set<T>)
    ensures forall x :: x in r <==> x in xs
  {
    if xs == [] then {} else {xs[0]} + Elems(xs[1..])
  }

  function Upto(n: nat): (r: set<nat>)
    ensures forall i: nat :: i in r <==> i < n
    ensures |r| == n
  {
    if n == 0 then {} else Upto(n - 1) + {n - 1}
  }

  lemma {:induction false} DistinctCount<T(!new)>(xs: seq<T>)
    requires Distinct(xs)
    ensures |Elems(xs)| == |xs|
  {
    if xs != [] {
      TailDistinct(xs);
      DistinctCount(xs[1..]);
    }
  }
}
