/**
 Circular doubly linked lists, as `src/memheap.c` uses them for its blocks and its free blocks:
 the two pointers of every node, and the sequence of nodes they stand for.
 */
module Rings {
  import opened Sequences

  type Links = map<int, int>

  function Succ(n: nat, i: nat): (j: nat)
    requires i < n
    ensures j < n
  {
    if i + 1 < n then i + 1 else 0
  }

  /** Node `i` and its successor point at each other. */
  ghost predicate RingAt(next: Links, prev: Links, xs: seq<int>, i: nat)
    requires i < |xs|
  {
    var s := xs[Succ(|xs|, i)];
    xs[i] in next && next[xs[i]] == s && s in prev && prev[s] == xs[i]
  }

  ghost predicate Ring(next: Links, prev: Links, xs: seq<int>) {
    && xs != [] && Distinct(xs)
    && forall i: nat {:trigger RingAt(next, prev, xs, i)} :: i < |xs| ==> RingAt(next, prev, xs, i)
  }

  /** The links around one node, forward and back. */
  lemma RingLinks(next: Links, prev: Links, xs: seq<int>, i: nat)
    requires Ring(next, prev, xs) && i < |xs|
    ensures xs[i] in next && next[xs[i]] == xs[Succ(|xs|, i)]
    ensures xs[i] in prev && prev[xs[i]] == xs[if i == 0 then |xs| - 1 else i - 1]
  {
    assert RingAt(next, prev, xs, i);
    assert RingAt(next, prev, xs, if i == 0 then |xs| - 1 else i - 1);
  }

  /** Linking `x` in behind node `k`. */
  lemma RingInsert(next: Links, prev: Links, xs: seq<int>, k: nat, x: int)
    requires Ring(next, prev, xs) && k < |xs| && x !in xs
    ensures xs[k] in next
    ensures Ring(next[x := next[xs[k]]][xs[k] := x], prev[x := xs[k]][next[xs[k]] := x], InsertAt(xs, k + 1, x))
  {
    RingLinks(next, prev, xs, k);
    var n := xs[Succ(|xs|, k)];
    var next', prev', ys := next[x := n][xs[k] := x], prev[x := xs[k]][n := x], InsertAt(xs, k + 1, x);
    InsertAtDistinct(xs, k + 1, x);
    forall i: nat | i < |ys|
      ensures RingAt(next', prev', ys, i)
    {
      RingInsertAt(next, prev, xs, k, x, i);
    }
  }

  lemma RingInsertAt(next: Links, prev: Links, xs: seq<int>, k: nat, x: int, i: nat)
    requires Ring(next, prev, xs) && k < |xs| && x !in xs && i <= |xs|
    ensures var n := xs[Succ(|xs|, k)];
      RingAt(next[x := n][xs[k] := x], prev[x := xs[k]][n := x], InsertAt(xs, k + 1, x), i)
  {
    var ys := InsertAt(xs, k + 1, x);
    RingLinks(next, prev, xs, k);
    if i < k || i > k + 1 {
      var j := if i < k then i else i - 1;
      RingLinks(next, prev, xs, j);
      assert ys[i] == xs[j] && xs[j] in xs;
      var s := Succ(|xs|, j);
      assert ys[Succ(|ys|, i)] == xs[s] && xs[s] in xs;
      assert s != Succ(|xs|, k);
      assert xs[s] != xs[Succ(|xs|, k)];
      RingLinks(next, prev, xs, s);
    }
  }

  /** Unlinking node `k`, not the first. */
  lemma RingRemove(next: Links, prev: Links, xs: seq<int>, k: nat)
    requires Ring(next, prev, xs) && 0 < k < |xs|
    ensures xs[k] in next && xs[k] in prev
    ensures Ring(next[prev[xs[k]] := next[xs[k]]], prev[next[xs[k]] := prev[xs[k]]], RemoveAt(xs, k))
  {
    RingLinks(next, prev, xs, k);
    var p, n := xs[k - 1], xs[Succ(|xs|, k)];
    var next', prev', ys := next[p := n], prev[n := p], RemoveAt(xs, k);
    RemoveAtDistinct(xs, k);
    forall i: nat | i < |ys|
      ensures RingAt(next', prev', ys, i)
    {
      RingRemoveAt(next, prev, xs, k, i);
    }
  }

  lemma RingRemoveAt(next: Links, prev: Links, xs: seq<int>, k: nat, i: nat)
    requires Ring(next, prev, xs) && 0 < k < |xs| && i + 1 < |xs|
    ensures var p, n := xs[k - 1], xs[Succ(|xs|, k)];
      RingAt(next[p := n], prev[n := p], RemoveAt(xs, k), i)
  {
    var ys := RemoveAt(xs, k);
    if i != k - 1 {
      var j := if i < k then i else i + 1;
      RingLinks(next, prev, xs, j);
      var s := Succ(|xs|, j);
      assert ys[i] == xs[j] && ys[Succ(|ys|, i)] == xs[s];
      assert j != k - 1 && s != Succ(|xs|, k);
      RingLinks(next, prev, xs, s);
    }
  }
}
