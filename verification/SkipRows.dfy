/**
 The rows of a skip list, as sequences. The bottom row holds everything in the
 order of the keys; each row above is the bottom row filtered by a smaller set.
 */
module SkipRows {
  import opened Sequences

  type Tid = nat

  function Filter(xs: seq<Tid>, s: set<Tid>): seq<Tid> {
    if xs == [] then []
    else (if xs[0] in s then [xs[0]] else []) + Filter(xs[1..], s)
  }

  /** The sequence without any `x`. */
  function Erase(xs: seq<Tid>, x: Tid): seq<Tid> {
    if xs == [] then []
    else (if xs[0] == x then [] else [xs[0]]) + Erase(xs[1..], x)
  }

  lemma {:induction false} FilterMembers(xs: seq<Tid>, s: set<Tid>)
    ensures forall x :: x in Filter(xs, s) <==> x in xs && x in s
    ensures |Filter(xs, s)| <= |xs|
  {
    if xs != [] {
      FilterMembers(xs[1..], s);
      assert xs == [xs[0]] + xs[1..];
    }
  }

  lemma {:induction false} FilterDistinct(xs: seq<Tid>, s: set<Tid>)
    requires Distinct(xs)
    ensures Distinct(Filter(xs, s))
  {
    if xs != [] {
      FilterDistinct(xs[1..], s);
      FilterMembers(xs[1..], s);
    }
  }

  lemma Regroup(x: seq<Tid>, y: seq<Tid>, z: seq<Tid>)
    ensures x + (y + z) == x + y + z
  {
  }

  lemma FilterOne(x: Tid, s: set<Tid>)
    ensures Filter([x], s) == if x in s then [x] else []
  {
    assert [x][1..] == [];
  }

  lemma {:induction false} FilterAppend(xs: seq<Tid>, ys: seq<Tid>, s: set<Tid>)
    ensures Filter(xs + ys, s) == Filter(xs, s) + Filter(ys, s)
  {
    if xs == [] {
      assert xs + ys == ys;
    } else {
      assert (xs + ys)[1..] == xs[1..] + ys && (xs + ys)[0] == xs[0];
      FilterAppend(xs[1..], ys, s);
      Regroup(if xs[0] in s then [xs[0]] else [], Filter(xs[1..], s), Filter(ys, s));
    }
  }

  lemma {:induction false} FilterFrame(xs: seq<Tid>, s: set<Tid>, s': set<Tid>)
    requires forall x :: x in xs ==> (x in s <==> x in s')
    ensures Filter(xs, s) == Filter(xs, s')
  {
    if xs != [] {
      FilterFrame(xs[1..], s, s');
    }
  }

  lemma {:induction false} FilterAll(xs: seq<Tid>, s: set<Tid>)
    requires forall x :: x in xs ==> x in s
    ensures Filter(xs, s) == xs
  {
    if xs != [] {
      FilterAll(xs[1..], s);
    }
  }

  lemma {:induction false} FilterTwice(xs: seq<Tid>, s: set<Tid>, s': set<Tid>)
    requires s' <= s
    ensures Filter(Filter(xs, s), s') == Filter(xs, s')
  {
    if xs != [] {
      FilterTwice(xs[1..], s, s');
      var head := if xs[0] in s then [xs[0]] else [];
      FilterAppend(head, Filter(xs[1..], s), s');
      assert [xs[0]][1..] == [];
    }
  }

  lemma {:induction false} EraseMembers(xs: seq<Tid>, x: Tid)
    ensures forall y :: y in Erase(xs, x) <==> y in xs && y != x
    ensures x !in xs ==> Erase(xs, x) == xs
  {
    if xs != [] {
      EraseMembers(xs[1..], x);
      assert xs == [xs[0]] + xs[1..];
    }
  }

  /** Removing an element is filtering by all the others. */
  lemma {:induction false} EraseIsFilter(xs: seq<Tid>, x: Tid, s: set<Tid>)
    requires forall y :: y in xs ==> (y in s <==> y != x)
    ensures Erase(xs, x) == Filter(xs, s)
  {
    if xs != [] {
      EraseIsFilter(xs[1..], x, s);
    }
  }

  /** `rt_list_remove` on the rows commutes with filtering. */
  lemma {:induction false} EraseOfFilter(xs: seq<Tid>, s: set<Tid>, x: Tid)
    ensures Erase(Filter(xs, s), x) == Filter(Erase(xs, x), s - {x})
  {
    if xs != [] {
      EraseOfFilter(xs[1..], s, x);
      var f, w := Filter(xs[1..], s), Erase(xs[1..], x);
      assert ([xs[0]] + f)[1..] == f && [] + f == f;
      assert ([xs[0]] + w)[1..] == w && [] + w == w;
      assert [] + Erase(f, x) == Erase(f, x);
      assert [] + Filter(w, s - {x}) == Filter(w, s - {x});
    }
  }

  function IndexOf(xs: seq<Tid>, x: Tid): (i: nat)
    requires x in xs
    ensures i < |xs| && xs[i] == x
  {
    if xs[0] == x then 0 else 1 + IndexOf(xs[1..], x)
  }

  // ----- order

  /** Earlier keys first; of equal keys, the one entered earlier. */
  ghost predicate Before(due: map<Tid, nat>, stamp: map<Tid, nat>, x: Tid, y: Tid) {
    && x in due && y in due && x in stamp && y in stamp
    && (due[x] < due[y] || (due[x] == due[y] && stamp[x] < stamp[y]))
  }

  ghost predicate Sorted(due: map<Tid, nat>, stamp: map<Tid, nat>, xs: seq<Tid>) {
    forall i, j :: 0 <= i < j < |xs| ==> Before(due, stamp, xs[i], xs[j])
  }

  /** How many elements a linear scan passes before the first with a key after `d`. */
  function LinearScan(due: map<Tid, nat>, xs: seq<Tid>, d: nat): (k: nat)
    ensures k <= |xs|
    ensures forall i :: 0 <= i < k ==> xs[i] in due && due[xs[i]] <= d
    ensures k < |xs| ==> xs[k] !in due || due[xs[k]] > d
  {
    if xs == [] || xs[0] !in due || due[xs[0]] > d then 0
    else 1 + LinearScan(due, xs[1..], d)
  }

  /** Insertion into a list in order, behind all elements with keys up to its own. */
  function LinearInsert(due: map<Tid, nat>, xs: seq<Tid>, x: Tid, d: nat): seq<Tid> {
    var k := LinearScan(due, xs, d);
    xs[..k] + [x] + xs[k..]
  }

  lemma SortedTail(due: map<Tid, nat>, stamp: map<Tid, nat>, xs: seq<Tid>, d: nat)
    requires Sorted(due, stamp, xs) && forall x :: x in xs ==> x in due
    ensures forall i :: LinearScan(due, xs, d) <= i < |xs| ==> due[xs[i]] > d
  {
    var k := LinearScan(due, xs, d);
    forall i | k <= i < |xs|
      ensures due[xs[i]] > d
    {
      assert k < i ==> Before(due, stamp, xs[k], xs[i]);
    }
  }

  lemma InsertSorted(due: map<Tid, nat>, stamp: map<Tid, nat>, xs: seq<Tid>, x: Tid)
    requires Sorted(due, stamp, xs) && forall y :: y in xs ==> y in due && y in stamp
    requires x in due && x in stamp && forall y :: y in xs ==> stamp[y] < stamp[x]
    ensures Sorted(due, stamp, LinearInsert(due, xs, x, due[x]))
  {
    var k := LinearScan(due, xs, due[x]);
    var r := LinearInsert(due, xs, x, due[x]);
    SortedTail(due, stamp, xs, due[x]);
    forall i, j | 0 <= i < j < |r|
      ensures Before(due, stamp, r[i], r[j])
    {
      if j < k {
        assert Before(due, stamp, xs[i], xs[j]);
      } else if k < i {
        assert Before(due, stamp, xs[i - 1], xs[j - 1]);
      } else if j == k {
        assert r[i] == xs[i] && xs[i] in xs;
      } else if i == k {
        assert r[j] == xs[j - 1];
      } else {
        assert Before(due, stamp, xs[i], xs[j - 1]);
      }
    }
  }

  lemma InsertMembers(due: map<Tid, nat>, xs: seq<Tid>, x: Tid, d: nat)
    ensures forall y :: y in LinearInsert(due, xs, x, d) <==> y in xs || y == x
  {
    var k := LinearScan(due, xs, d);
    assert xs == xs[..k] + xs[k..];
  }

  lemma InsertDistinct(due: map<Tid, nat>, xs: seq<Tid>, x: Tid, d: nat)
    requires Distinct(xs) && x !in xs
    ensures Distinct(LinearInsert(due, xs, x, d))
  {
    var k := LinearScan(due, xs, d);
    var r := LinearInsert(due, xs, x, d);
    forall i, j | 0 <= i < j < |r|
      ensures r[i] != r[j]
    {
      assert i != k ==> r[i] == xs[if i < k then i else i - 1];
      assert j != k ==> r[j] == xs[if j < k then j else j - 1];
    }
  }

  lemma FilterSorted(due: map<Tid, nat>, stamp: map<Tid, nat>, xs: seq<Tid>, s: set<Tid>)
    requires Sorted(due, stamp, xs)
    ensures Sorted(due, stamp, Filter(xs, s))
  {
    if xs != [] {
      FilterSorted(due, stamp, xs[1..], s);
      FilterMembers(xs[1..], s);
      var rest := Filter(xs[1..], s);
      forall y | y in rest
        ensures Before(due, stamp, xs[0], y)
      {
        var j :| 0 <= j < |xs[1..]| && xs[1..][j] == y;
        assert Before(due, stamp, xs[0], xs[j + 1]);
      }
    }
  }

  // ----- rows

  /** The last row holds everything; each row holds the elements of `rows[r]`, in the order of the last. */
  ghost predicate RowsOk(rows: seq<seq<Tid>>) {
    && rows != []
    && Distinct(rows[|rows| - 1])
    && (forall r :: 0 <= r < |rows| ==> rows[r] == Filter(rows[|rows| - 1], Elems(rows[r])))
    && Nested(rows)
  }

  ghost predicate Nested(rows: seq<seq<Tid>>) {
    forall r, q :: 0 <= r < q < |rows| ==> Elems(rows[r]) <= Elems(rows[q])
  }

  /** Each row is a subsequence of every later row. */
  lemma RowsAreSubsequences(rows: seq<seq<Tid>>, r: nat, q: nat)
    requires RowsOk(rows) && r <= q < |rows|
    ensures rows[r] == Filter(rows[q], Elems(rows[r])) && Distinct(rows[r])
  {
    FilterTwice(rows[|rows| - 1], Elems(rows[q]), Elems(rows[r]));
    FilterDistinct(rows[|rows| - 1], Elems(rows[r]));
  }

  /** The position in row `xs` behind the last of its elements with a key up to `d`. */
  ghost predicate IsRowPosition(due: map<Tid, nat>, xs: seq<Tid>, d: nat, p: nat) {
    && p <= |xs|
    && (forall i :: 0 <= i < p ==> xs[i] in due && due[xs[i]] <= d)
    && (forall i :: p <= i < |xs| ==> xs[i] in due && due[xs[i]] > d)
  }

  lemma PositionIsLinear(due: map<Tid, nat>, xs: seq<Tid>, d: nat, p: nat)
    requires IsRowPosition(due, xs, d, p)
    ensures p == LinearScan(due, xs, d)
  {
    var k := LinearScan(due, xs, d);
    assert p < |xs| ==> xs[p] in due && due[xs[p]] > d;
    assert k < |xs| ==> xs[k] !in due || due[xs[k]] > d;
  }

  /** Going down a row never overshoots: the element found above is before the position below. */
  lemma DescendBelow(due: map<Tid, nat>, above: seq<Tid>, below: seq<Tid>, d: nat, p: nat, q: nat)
    requires IsRowPosition(due, above, d, p) && IsRowPosition(due, below, d, q) && p > 0
    requires above[p - 1] in below
    ensures IndexOf(below, above[p - 1]) + 1 <= q
  {
    assert due[above[p - 1]] <= d;
  }

  /** The position in a filtered row is where the filtered first part ends. */
  lemma RowSplit(due: map<Tid, nat>, lo: seq<Tid>, hi: seq<Tid>, s: set<Tid>, d: nat, p: nat)
    requires forall x :: x in lo ==> x in due && due[x] <= d
    requires forall x :: x in hi ==> x in due && due[x] > d
    requires IsRowPosition(due, Filter(lo + hi, s), d, p)
    ensures Filter(lo + hi, s)[..p] == Filter(lo, s) && Filter(lo + hi, s)[p..] == Filter(hi, s)
  {
    var row, flo, fhi := Filter(lo + hi, s), Filter(lo, s), Filter(hi, s);
    FilterAppend(lo, hi, s);
    FilterMembers(lo, s);
    FilterMembers(hi, s);
    hide Filter;
    assert forall i :: 0 <= i < |flo| ==> row[i] == flo[i] && flo[i] in lo;
    assert forall i :: |flo| <= i < |row| ==> row[i] == fhi[i - |flo|] && fhi[i - |flo|] in hi;
    assert IsRowPosition(due, row, d, |flo|);
    PositionIsLinear(due, row, d, |flo|);
    PositionIsLinear(due, row, d, p);
  }

  lemma PositionSplits(due: map<Tid, nat>, xs: seq<Tid>, d: nat, k: nat)
    requires IsRowPosition(due, xs, d, k)
    ensures forall x :: x in xs[..k] ==> x in due && due[x] <= d
    ensures forall x :: x in xs[k..] ==> x in due && due[x] > d
    ensures xs == xs[..k] + xs[k..]
  {
  }

  /** Inserting into a row is inserting into the bottom row and filtering. */
  lemma InsertInRow(due: map<Tid, nat>, bottom: seq<Tid>, s: set<Tid>, x: Tid, d: nat, k: nat, p: nat)
    requires IsRowPosition(due, bottom, d, k) && IsRowPosition(due, Filter(bottom, s), d, p) && x !in bottom
    ensures var row := Filter(bottom, s);
      row[..p] + [x] + row[p..] == Filter(bottom[..k] + [x] + bottom[k..], s + {x})
  {
    hide Filter;
    var lo, hi := bottom[..k], bottom[k..];
    PositionSplits(due, bottom, d, k);
    RowSplit(due, lo, hi, s, d, p);
    FilterAppend(lo + [x], hi, s + {x});
    FilterAppend(lo, [x], s + {x});
    FilterOne(x, s + {x});
    FilterFrame(lo, s, s + {x});
    FilterFrame(hi, s, s + {x});
  }

  /** Not inserting into a row is filtering by the old set. */
  lemma SkipRow(bottom: seq<Tid>, s: set<Tid>, x: Tid, k: nat)
    requires k <= |bottom| && x !in s
    ensures Filter(bottom, s) == Filter(bottom[..k] + [x] + bottom[k..], s)
  {
    hide Filter;
    var lo, hi := bottom[..k], bottom[k..];
    assert bottom == lo + hi;
    FilterAppend(lo, hi, s);
    FilterAppend(lo + [x], hi, s);
    FilterAppend(lo, [x], s);
    FilterOne(x, s);
  }

  // ----- changing the rows

  lemma InsertAtElems(xs: seq<Tid>, p: nat, x: Tid)
    requires p <= |xs|
    ensures Elems(InsertAt(xs, p, x)) == Elems(xs) + {x}
  {
    assert xs == xs[..p] + xs[p..];
  }

  /** `x` has been inserted into the rows from `c` on, at the positions a search for `d` has found. */
  ghost predicate InsertedFrom(rows: seq<seq<Tid>>, rows': seq<seq<Tid>>, heads: seq<nat>, c: nat, x: Tid) {
    && |rows'| == |rows| == |heads| && c < |rows|
    && forall r :: 0 <= r < |rows| ==>
         heads[r] <= |rows[r]| && rows'[r] == if r >= c then InsertAt(rows[r], heads[r], x) else rows[r]
  }

  ghost predicate Positions(due: map<Tid, nat>, rows: seq<seq<Tid>>, d: nat, heads: seq<nat>) {
    |heads| == |rows| && forall r :: 0 <= r < |rows| ==> IsRowPosition(due, rows[r], d, heads[r])
  }

  lemma InsertedRow(due: map<Tid, nat>, rows: seq<seq<Tid>>, rows': seq<seq<Tid>>, heads: seq<nat>, c: nat, x: Tid, d: nat, r: nat)
    requires RowsOk(rows) && Positions(due, rows, d, heads) && InsertedFrom(rows, rows', heads, c, x)
    requires x !in rows[|rows| - 1] && r < |rows|
    ensures rows'[r] == Filter(rows'[|rows| - 1], Elems(rows'[r]))
  {
    hide Filter, IsRowPosition, Distinct;
    var bottom, k := rows[|rows| - 1], heads[|rows| - 1];
    var s := Elems(rows[r]);
    assert s <= Elems(bottom);
    assert rows[r] == Filter(bottom, s);
    assert rows'[|rows| - 1] == InsertAt(bottom, k, x);
    if r >= c {
      InsertAtElems(rows[r], heads[r], x);
      InsertInRow(due, bottom, s, x, d, k, heads[r]);
    } else {
      SkipRow(bottom, s, x, k);
    }
  }

  lemma InsertedBottom(due: map<Tid, nat>, rows: seq<seq<Tid>>, rows': seq<seq<Tid>>, heads: seq<nat>, c: nat, x: Tid, d: nat)
    requires rows != [] && Positions(due, rows, d, heads) && InsertedFrom(rows, rows', heads, c, x)
    ensures rows'[|rows| - 1] == LinearInsert(due, rows[|rows| - 1], x, d)
  {
    PositionIsLinear(due, rows[|rows| - 1], d, heads[|rows| - 1]);
  }

  lemma InsertedElems(rows: seq<seq<Tid>>, rows': seq<seq<Tid>>, heads: seq<nat>, c: nat, x: Tid, r: nat)
    requires InsertedFrom(rows, rows', heads, c, x) && r < |rows|
    ensures Elems(rows'[r]) == if r >= c then Elems(rows[r]) + {x} else Elems(rows[r])
  {
    InsertAtElems(rows[r], heads[r], x);
  }

  lemma InsertedNested(rows: seq<seq<Tid>>, rows': seq<seq<Tid>>, heads: seq<nat>, c: nat, x: Tid)
    requires Nested(rows) && InsertedFrom(rows, rows', heads, c, x)
    ensures Nested(rows')
  {
    forall r, q | 0 <= r < q < |rows'|
      ensures Elems(rows'[r]) <= Elems(rows'[q])
    {
      InsertedElems(rows, rows', heads, c, x, r);
      InsertedElems(rows, rows', heads, c, x, q);
      assert Elems(rows[r]) <= Elems(rows[q]);
    }
  }

  lemma InsertedBottomDistinct(due: map<Tid, nat>, rows: seq<seq<Tid>>, rows': seq<seq<Tid>>, heads: seq<nat>, c: nat, x: Tid, d: nat)
    requires RowsOk(rows) && Positions(due, rows, d, heads) && InsertedFrom(rows, rows', heads, c, x)
    requires x !in rows[|rows| - 1]
    ensures |rows'| == |rows| > 0 && Distinct(rows'[|rows'| - 1])
  {
    hide Filter, LinearInsert, Distinct;
    InsertedBottom(due, rows, rows', heads, c, x, d);
    InsertDistinct(due, rows[|rows| - 1], x, d);
  }

  lemma InsertedRowsOk(due: map<Tid, nat>, rows: seq<seq<Tid>>, rows': seq<seq<Tid>>, heads: seq<nat>, c: nat, x: Tid, d: nat)
    requires RowsOk(rows) && Positions(due, rows, d, heads) && InsertedFrom(rows, rows', heads, c, x)
    requires x !in rows[|rows| - 1]
    ensures RowsOk(rows') && rows'[|rows| - 1] == LinearInsert(due, rows[|rows| - 1], x, d)
  {
    hide Filter, LinearInsert, InsertedFrom, Positions, Distinct, Elems, Nested;
    InsertedBottomDistinct(due, rows, rows', heads, c, x, d);
    InsertedBottom(due, rows, rows', heads, c, x, d);
    InsertedNested(rows, rows', heads, c, x);
    forall r | 0 <= r < |rows'|
      ensures rows'[r] == Filter(rows'[|rows'| - 1], Elems(rows'[r]))
    {
      InsertedRow(due, rows, rows', heads, c, x, d, r);
    }
  }

  function RemoveFromAll(rows: seq<seq<Tid>>, x: Tid): seq<seq<Tid>> {
    seq(|rows|, r requires 0 <= r < |rows| => Erase(rows[r], x))
  }

  lemma EraseDistinct(xs: seq<Tid>, x: Tid)
    requires Distinct(xs)
    ensures Distinct(Erase(xs, x))
  {
    EraseIsFilter(xs, x, Elems(xs) - {x});
    FilterDistinct(xs, Elems(xs) - {x});
  }

  lemma RemovedRowsOk(rows: seq<seq<Tid>>, x: Tid)
    requires RowsOk(rows)
    ensures RowsOk(RemoveFromAll(rows, x))
  {
    var rows', last := RemoveFromAll(rows, x), |rows| - 1;
    EraseDistinct(rows[last], x);
    forall r | 0 <= r < |rows|
      ensures rows'[r] == Filter(rows'[last], Elems(rows'[r]))
      ensures Elems(rows'[r]) == Elems(rows[r]) - {x}
    {
      EraseMembers(rows[r], x);
      assert Elems(rows'[r]) == Elems(rows[r]) - {x};
      assert rows[r] == Filter(rows[last], Elems(rows[r]));
      EraseOfFilter(rows[last], Elems(rows[r]), x);
    }
  }

  lemma EraseSorted(due: map<Tid, nat>, stamp: map<Tid, nat>, xs: seq<Tid>, x: Tid)
    requires Sorted(due, stamp, xs)
    ensures Sorted(due, stamp, Erase(xs, x))
  {
    EraseIsFilter(xs, x, Elems(xs) - {x});
    FilterSorted(due, stamp, xs, Elems(xs) - {x});
  }

  lemma InsertStep(due: map<Tid, nat>, xs: seq<Tid>, x: Tid, d: nat)
    requires xs != [] && xs[0] in due && due[xs[0]] <= d
    ensures LinearInsert(due, xs, x, d) == [xs[0]] + LinearInsert(due, xs[1..], x, d)
  {
    var k := LinearScan(due, xs[1..], d);
    assert LinearScan(due, xs, d) == k + 1;
    assert xs[..k + 1] == [xs[0]] + xs[1..][..k];
  }

  /** Insertion leaves alone what is due no later. */
  lemma {:induction false} InsertBehind(due: map<Tid, nat>, xs: seq<Tid>, ys: seq<Tid>, x: Tid, d: nat)
    requires forall y :: y in xs ==> y in due && due[y] <= d
    ensures LinearInsert(due, xs + ys, x, d) == xs + LinearInsert(due, ys, x, d)
  {
    hide LinearInsert;
    if xs == [] {
      assert xs + ys == ys;
    } else {
      assert (xs + ys)[1..] == xs[1..] + ys && (xs + ys)[0] == xs[0];
      InsertBehind(due, xs[1..], ys, x, d);
      InsertStep(due, xs + ys, x, d);
      assert [xs[0]] + (xs[1..] + LinearInsert(due, ys, x, d)) == xs + LinearInsert(due, ys, x, d);
    }
  }
}
