/**
 The geometry of the memheap allocator of `src/memheap.c`: blocks that tile a pool up to a used, empty
 block at its end, the list of the free ones, and the bytes they have for callers.

 Every operation replaces a short stretch of neighbouring blocks by another with the same ends
 (`Replace`); the lemmas about stretches make each operation's proof local.
 */
module HeapBlocks {
  import opened Sequences
  import opened Rings
  import opened Arithmetic

  /** RT_ALIGN_SIZE, RT_MEMHEAP_SIZE, RT_MEMHEAP_MINIALLOC and the size of the pool. */
  datatype Layout = Layout(align: nat, header: nat, minAlloc: nat, pool: nat) {
    ghost predicate Valid() {
      && align > 0 && header > 0 && minAlloc > 0 && 2 * header <= pool
      && Aligned(header, align) && Aligned(minAlloc, align) && Aligned(pool, align)
    }

    function Tail(): int {
      pool - header
    }
  }

  type Flags = map<int, bool>

  ghost predicate Free(used: Flags, o: int) {
    o in used && !used[o]
  }

  /** Block `i` ends where block `i + 1` starts, leaves room for its header, and is aligned. */
  ghost predicate GapAt(l: Layout, offs: seq<int>, i: nat)
    requires i + 1 < |offs|
  {
    0 <= offs[i] && offs[i] + l.header <= offs[i + 1] && l.align > 0 && Aligned(offs[i + 1], l.align)
  }

  ghost predicate Gaps(l: Layout, offs: seq<int>) {
    forall i: nat {:trigger GapAt(l, offs, i)} :: i + 1 < |offs| ==> GapAt(l, offs, i)
  }

  ghost predicate Tiling(l: Layout, offs: seq<int>) {
    l.Valid() && |offs| >= 2 && offs[0] == 0 && offs[|offs| - 1] == l.Tail() && Gaps(l, offs)
  }

  ghost predicate NotBothFree(used: Flags, offs: seq<int>, i: nat)
    requires i + 1 < |offs|
  {
    !Free(used, offs[i]) || !Free(used, offs[i + 1])
  }

  ghost predicate Merged(used: Flags, offs: seq<int>) {
    forall i: nat {:trigger NotBothFree(used, offs, i)} :: i + 1 < |offs| ==> NotBothFree(used, offs, i)
  }

  ghost predicate Flagged(used: Flags, offs: seq<int>) {
    (forall o :: o in offs ==> o in used) && offs != [] && !Free(used, offs[|offs| - 1])
  }

  /** The free list holds exactly the free blocks. */
  ghost predicate FreeList(used: Flags, offs: seq<int>, fl: seq<int>) {
    Distinct(fl) && forall o :: o in fl <==> o in offs && Free(used, o)
  }

  /** The bytes that the free blocks have for callers. */
  ghost function FreeSum(l: Layout, used: Flags, offs: seq<int>): int {
    if |offs| < 2 then 0
    else (if Free(used, offs[0]) then offs[1] - offs[0] - l.header else 0) + FreeSum(l, used, offs[1..])
  }

  ghost predicate Inv(l: Layout, used: Flags, offs: seq<int>, fl: seq<int>) {
    Tiling(l, offs) && Merged(used, offs) && Flagged(used, offs) && FreeList(used, offs, fl)
  }

  // ----- order

  lemma {:induction false} Ascends(l: Layout, offs: seq<int>, i: nat, j: nat)
    requires Gaps(l, offs) && i < j < |offs|
    ensures 0 <= offs[i] && offs[i] + l.header <= offs[j]
  {
    assert GapAt(l, offs, j - 1);
    if i < j - 1 {
      Ascends(l, offs, i, j - 1);
    }
  }

  lemma OffsetsDistinct(l: Layout, offs: seq<int>)
    requires Gaps(l, offs) && l.header > 0
    ensures Distinct(offs)
  {
    forall i, j | 0 <= i < j < |offs|
      ensures offs[i] != offs[j]
    {
      Ascends(l, offs, i, j);
    }
  }

  // ----- replacing a stretch

  /** Blocks `i` to `j - 1` replaced by `mid`. */
  function Replace(offs: seq<int>, i: nat, j: nat, mid: seq<int>): seq<int>
    requires i <= j <= |offs|
  {
    offs[..i] + mid + offs[j..]
  }

  /** The stretch and what replaces it begin and end at the same blocks. */
  ghost predicate SameEnds(offs: seq<int>, i: nat, j: nat, mid: seq<int>) {
    i + 2 <= j <= |offs| && |mid| >= 2 && mid[0] == offs[i] && mid[|mid| - 1] == offs[j - 1]
  }

  /** A pair of neighbours of the new blocks is one of the old or one of the stretch. */
  lemma NeighbourCases(offs: seq<int>, i: nat, j: nat, mid: seq<int>, k: nat)
    requires SameEnds(offs, i, j, mid) && k + 1 < |Replace(offs, i, j, mid)|
    ensures var r := Replace(offs, i, j, mid);
      || (k < i && r[k] == offs[k] && r[k + 1] == offs[k + 1])
      || (i <= k < i + |mid| - 1 && r[k] == mid[k - i] && r[k + 1] == mid[k - i + 1])
      || (k >= i + |mid| - 1 && k + j - i - |mid| + 1 < |offs|
          && r[k] == offs[k + j - i - |mid|] && r[k + 1] == offs[k + j - i - |mid| + 1])
  {
  }

  lemma ReplaceTiling(l: Layout, offs: seq<int>, i: nat, j: nat, mid: seq<int>)
    requires Tiling(l, offs) && SameEnds(offs, i, j, mid) && Gaps(l, mid)
    ensures Tiling(l, Replace(offs, i, j, mid))
  {
    var r := Replace(offs, i, j, mid);
    forall k: nat | k + 1 < |r|
      ensures GapAt(l, r, k)
    {
      NeighbourCases(offs, i, j, mid, k);
      if k < i {
        assert GapAt(l, offs, k);
      } else if k < i + |mid| - 1 {
        assert GapAt(l, mid, k - i);
      } else {
        assert GapAt(l, offs, k + j - i - |mid|);
      }
    }
  }

  /** Outside the inner blocks of the stretch and its first one, the flags are as they were. */
  ghost predicate SameFlags(used: Flags, used': Flags, offs: seq<int>, i: nat, j: nat)
    requires i < j <= |offs|
  {
    && (forall k :: 0 <= k < i ==> (Free(used', offs[k]) <==> Free(used, offs[k])))
    && (forall k :: j - 1 <= k < |offs| ==> (Free(used', offs[k]) <==> Free(used, offs[k])))
  }

  lemma ReplaceMerged(used: Flags, used': Flags, offs: seq<int>, i: nat, j: nat, mid: seq<int>)
    requires Merged(used, offs) && SameEnds(offs, i, j, mid) && SameFlags(used, used', offs, i, j)
    requires Merged(used', mid)
    requires i > 0 ==> !Free(used', offs[i - 1]) || !Free(used', offs[i])
    ensures Merged(used', Replace(offs, i, j, mid))
  {
    var r := Replace(offs, i, j, mid);
    forall k: nat | k + 1 < |r|
      ensures NotBothFree(used', r, k)
    {
      NeighbourCases(offs, i, j, mid, k);
      if k < i {
        assert NotBothFree(used, offs, k);
      } else if k < i + |mid| - 1 {
        assert NotBothFree(used', mid, k - i);
      } else {
        assert NotBothFree(used, offs, k + j - i - |mid|);
      }
    }
  }

  lemma ReplaceMembers(offs: seq<int>, i: nat, j: nat, mid: seq<int>)
    requires SameEnds(offs, i, j, mid) && Distinct(offs)
    ensures forall o :: o in Replace(offs, i, j, mid) <==> o in mid || (o in offs && o !in offs[i..j])
  {
    assert offs == offs[..i] + offs[i..j] + offs[j..];
    forall o | o in offs[..i] || o in offs[j..]
      ensures o !in offs[i..j]
    {
    }
  }

  // ----- the bytes that are free

  lemma {:induction false} SumSplit(l: Layout, used: Flags, xs: seq<int>, k: nat)
    requires k < |xs|
    ensures FreeSum(l, used, xs) == FreeSum(l, used, xs[..k + 1]) + FreeSum(l, used, xs[k..])
  {
    if k == 0 {
      assert xs[0..] == xs;
    } else {
      SumSplit(l, used, xs[1..], k - 1);
      assert xs[1..][..k] == xs[..k + 1][1..] && xs[1..][k - 1..] == xs[k..];
    }
  }

  lemma {:induction false} SumFrame(l: Layout, used: Flags, used': Flags, xs: seq<int>)
    requires forall k :: 0 <= k < |xs| - 1 ==> (Free(used', xs[k]) <==> Free(used, xs[k]))
    ensures FreeSum(l, used', xs) == FreeSum(l, used, xs)
  {
    if |xs| >= 2 {
      SumFrame(l, used, used', xs[1..]);
    }
  }

  lemma SumInThree(l: Layout, used: Flags, xs: seq<int>, i: nat, j: nat)
    requires i < j <= |xs|
    ensures FreeSum(l, used, xs) == FreeSum(l, used, xs[..i + 1]) + FreeSum(l, used, xs[i..j]) + FreeSum(l, used, xs[j - 1..])
  {
    hide FreeSum;
    SumSplit(l, used, xs, i);
    SumSplit(l, used, xs[i..], j - i - 1);
    assert xs[i..][..j - i] == xs[i..j] && xs[i..][j - i - 1..] == xs[j - 1..];
  }

  lemma ReplaceParts(offs: seq<int>, i: nat, j: nat, mid: seq<int>)
    requires SameEnds(offs, i, j, mid)
    ensures var r := Replace(offs, i, j, mid);
      && i + |mid| <= |r| && r[i..i + |mid|] == mid
      && r[i + |mid| - 1..] == offs[j - 1..] && r[..i + 1] == offs[..i + 1]
  {
  }

  /** The sum changes by what the stretch changes. */
  lemma ReplaceSum(l: Layout, used: Flags, used': Flags, offs: seq<int>, i: nat, j: nat, mid: seq<int>)
    requires SameEnds(offs, i, j, mid) && SameFlags(used, used', offs, i, j)
    ensures FreeSum(l, used', Replace(offs, i, j, mid)) - FreeSum(l, used', mid) == FreeSum(l, used, offs) - FreeSum(l, used, offs[i..j])
  {
    var r := Replace(offs, i, j, mid);
    ReplaceParts(offs, i, j, mid);
    SumInThree(l, used, offs, i, j);
    SumInThree(l, used', r, i, i + |mid|);
    SumFrame(l, used, used', offs[..i + 1]);
    SumFrame(l, used, used', offs[j - 1..]);
    hide FreeSum, Replace;
  }

  lemma SumTwo(l: Layout, used: Flags, a: int, b: int)
    ensures FreeSum(l, used, [a, b]) == if Free(used, a) then b - a - l.header else 0
  {
    assert [a, b][1..] == [b];
  }

  lemma SumThree(l: Layout, used: Flags, a: int, b: int, c: int)
    ensures FreeSum(l, used, [a, b, c]) ==
            (if Free(used, a) then b - a - l.header else 0) + (if Free(used, b) then c - b - l.header else 0)
  {
    assert [a, b, c][1..] == [b, c];
    SumTwo(l, used, b, c);
  }

  lemma SumFour(l: Layout, used: Flags, a: int, b: int, c: int, d: int)
    ensures FreeSum(l, used, [a, b, c, d]) ==
            (if Free(used, a) then b - a - l.header else 0) + (if Free(used, b) then c - b - l.header else 0)
            + (if Free(used, c) then d - c - l.header else 0)
  {
    assert [a, b, c, d][1..] == [b, c, d];
    SumThree(l, used, b, c, d);
  }

  lemma {:induction false} SumIsNatural(l: Layout, used: Flags, offs: seq<int>)
    requires Gaps(l, offs)
    ensures FreeSum(l, used, offs) >= 0
  {
    if |offs| >= 2 {
      assert GapAt(l, offs, 0);
      forall k: nat | k + 1 < |offs[1..]|
        ensures GapAt(l, offs[1..], k)
      {
        assert GapAt(l, offs, k + 1);
      }
      SumIsNatural(l, used, offs[1..]);
    }
  }

  /** One free block has at most what all have together. */
  lemma {:induction false} FreeIsPart(l: Layout, used: Flags, offs: seq<int>, i: nat)
    requires Gaps(l, offs) && i + 1 < |offs| && Free(used, offs[i])
    ensures offs[i + 1] - offs[i] - l.header <= FreeSum(l, used, offs)
  {
    forall k: nat | k + 1 < |offs[1..]|
      ensures GapAt(l, offs[1..], k)
    {
      assert GapAt(l, offs, k + 1);
    }
    assert GapAt(l, offs, 0);
    if i == 0 {
      SumIsNatural(l, used, offs[1..]);
    } else {
      FreeIsPart(l, used, offs[1..], i - 1);
    }
  }

  // ----- steps

  lemma StepKeeps(l: Layout, used: Flags, used': Flags, offs: seq<int>, i: nat, j: nat, mid: seq<int>, fl: seq<int>, fl': seq<int>)
    requires Inv(l, used, offs, fl) && SameEnds(offs, i, j, mid) && SameFlags(used, used', offs, i, j)
    requires Gaps(l, mid) && Merged(used', mid)
    requires i > 0 ==> !Free(used', offs[i - 1]) || !Free(used', offs[i])
    requires used.Keys <= used'.Keys && forall o :: o in mid ==> o in used'
    requires Distinct(fl') && forall o :: o in fl' <==> Free(used', o) && (o in mid || (o in offs && o !in offs[i..j]))
    ensures Inv(l, used', Replace(offs, i, j, mid), fl')
    ensures FreeSum(l, used', Replace(offs, i, j, mid)) == FreeSum(l, used, offs) - FreeSum(l, used, offs[i..j]) + FreeSum(l, used', mid)
  {
    OffsetsDistinct(l, offs);
    ReplaceTiling(l, offs, i, j, mid);
    ReplaceMerged(used, used', offs, i, j, mid);
    ReplaceSum(l, used, used', offs, i, j, mid);
    StepLists(used, used', offs, i, j, mid, fl');
    hide Gaps, Merged, Distinct, Replace, SameEnds, FreeSum, Free;
  }

  lemma StepLists(used: Flags, used': Flags, offs: seq<int>, i: nat, j: nat, mid: seq<int>, fl': seq<int>)
    requires Distinct(offs) && Flagged(used, offs) && SameEnds(offs, i, j, mid) && SameFlags(used, used', offs, i, j)
    requires used.Keys <= used'.Keys && forall o :: o in mid ==> o in used'
    requires Distinct(fl') && forall o :: o in fl' <==> Free(used', o) && (o in mid || (o in offs && o !in offs[i..j]))
    ensures Flagged(used', Replace(offs, i, j, mid)) && FreeList(used', Replace(offs, i, j, mid), fl')
  {
    ReplaceMembers(offs, i, j, mid);
    LastBlock(offs, i, j, mid);
    hide Distinct, Replace;
    assert forall o :: o in offs ==> o in used.Keys && o in used'.Keys;
  }

  lemma LastBlock(offs: seq<int>, i: nat, j: nat, mid: seq<int>)
    requires SameEnds(offs, i, j, mid)
    ensures var r := Replace(offs, i, j, mid); r != [] && offs != [] && r[|r| - 1] == offs[|offs| - 1]
  {
  }

  /** Neighbouring blocks of a tiling, in order and with their flags. */
  lemma Pair(l: Layout, used: Flags, offs: seq<int>, fl: seq<int>, i: nat)
    requires Inv(l, used, offs, fl) && i + 1 < |offs|
    ensures 0 <= offs[i] && offs[i] + l.header <= offs[i + 1] && Aligned(offs[i + 1], l.align)
    ensures offs[i] in used && offs[i + 1] in used && (!Free(used, offs[i]) || !Free(used, offs[i + 1]))
    ensures offs[i] in fl <==> Free(used, offs[i])
    ensures offs[i] in offs
  {
    assert GapAt(l, offs, i);
    assert NotBothFree(used, offs, i);
  }

  lemma Strictly(l: Layout, used: Flags, offs: seq<int>, fl: seq<int>, i: nat, q: int)
    requires Inv(l, used, offs, fl) && i + 1 < |offs| && offs[i] < q < offs[i + 1]
    ensures q !in offs && q !in fl
  {
    forall k | 0 <= k < |offs|
      ensures offs[k] != q
    {
      if k < i { Ascends(l, offs, k, i); }
      if k > i + 1 { Ascends(l, offs, i + 1, k); }
    }
  }

  lemma TakeWhole(l: Layout, used: Flags, offs: seq<int>, fl: seq<int>, i: nat, k: nat)
    requires Inv(l, used, offs, fl) && k < |fl| && i + 1 < |offs| && offs[i] == fl[k]
    ensures var used' := used[offs[i] := true];
      && Inv(l, used', offs, RemoveAt(fl, k))
      && FreeSum(l, used', offs) == FreeSum(l, used, offs) - (offs[i + 1] - offs[i] - l.header)
  {
    hide FreeSum, Gaps, Distinct;
    var o, n, used', mid := offs[i], offs[i + 1], used[offs[i] := true], [offs[i], offs[i + 1]];
    Pair(l, used, offs, fl, i);
    OffsetsDistinct(l, offs);
    RemoveAtMembers(fl, k);
    RemoveAtDistinct(fl, k);
    assert offs[i..i + 2] == mid;
    assert Replace(offs, i, i + 2, mid) == offs;
    SumTwo(l, used, o, n);
    SumTwo(l, used', o, n);
    GapsTwo(l, o, n);
    StepKeeps(l, used, used', offs, i, i + 2, mid, fl, RemoveAt(fl, k)) by {
      assert forall x :: x in RemoveAt(fl, k) <==> Free(used', x) && (x in mid || (x in offs && x !in offs[i..i + 2]));
    }
  }

  lemma GapsTwo(l: Layout, a: int, b: int)
    requires l.align > 0 && 0 <= a && a + l.header <= b && Aligned(b, l.align)
    ensures Gaps(l, [a, b])
  {
    assert GapAt(l, [a, b], 0);
  }

  lemma GapsThree(l: Layout, a: int, b: int, c: int)
    requires l.align > 0 && 0 <= a && a + l.header <= b && b + l.header <= c
    requires Aligned(b, l.align) && Aligned(c, l.align)
    ensures Gaps(l, [a, b, c])
  {
    assert GapAt(l, [a, b, c], 0) && GapAt(l, [a, b, c], 1);
  }

  /** Block `i` cut at `q`: its rest is free, itself in use. */
  lemma CutKeeps(l: Layout, used: Flags, offs: seq<int>, fl: seq<int>, i: nat, q: nat, used': Flags, fl': seq<int>)
    requires Inv(l, used, offs, fl) && i + 1 < |offs|
    requires offs[i] + l.header <= q && q + l.header <= offs[i + 1] && Aligned(q, l.align)
    requires used' == used[q := false][offs[i] := true] && !Free(used, offs[i + 1])
    requires Distinct(fl') && forall x :: x in fl' <==> x == q || (x in fl && x != offs[i])
    ensures Inv(l, used', Replace(offs, i, i + 2, [offs[i], q, offs[i + 1]]), fl')
    ensures FreeSum(l, used', Replace(offs, i, i + 2, [offs[i], q, offs[i + 1]])) ==
            FreeSum(l, used, offs) - (if Free(used, offs[i]) then offs[i + 1] - offs[i] - l.header else 0) + offs[i + 1] - q - l.header
  {
    var o, n, mid := offs[i], offs[i + 1], [offs[i], q, offs[i + 1]];
    Pair(l, used, offs, fl, i);
    Strictly(l, used, offs, fl, i, q);
    OffsetsDistinct(l, offs);
    assert offs[i..i + 2] == [o, n];
    SumTwo(l, used, o, n);
    SumThree(l, used', o, q, n);
    GapsThree(l, o, q, n);
    StepKeeps(l, used, used', offs, i, i + 2, mid, fl, fl') by {
      assert offs[i + 1] in offs;
      assert forall x :: x in fl' <==> Free(used', x) && (x in mid || (x in offs && x !in offs[i..i + 2]));
    }
  }

  /** The boundary between block `i`, in use, and the free block after it moved to `q`. */
  lemma MoveKeeps(l: Layout, used: Flags, offs: seq<int>, fl: seq<int>, i: nat, q: nat, fl': seq<int>)
    requires Inv(l, used, offs, fl) && i + 2 < |offs| && !Free(used, offs[i]) && Free(used, offs[i + 1])
    requires offs[i] + l.header <= q && q + l.header <= offs[i + 2] && Aligned(q, l.align) && q != offs[i + 1]
    requires Distinct(fl') && forall x :: x in fl' <==> x == q || (x in fl && x != offs[i + 1])
    ensures Inv(l, used[q := false], Replace(offs, i, i + 3, [offs[i], q, offs[i + 2]]), fl')
    ensures FreeSum(l, used[q := false], Replace(offs, i, i + 3, [offs[i], q, offs[i + 2]])) ==
            FreeSum(l, used, offs) + offs[i + 1] - q
  {
    var o, n, nn, used', mid := offs[i], offs[i + 1], offs[i + 2], used[q := false], [offs[i], q, offs[i + 2]];
    Pair(l, used, offs, fl, i);
    Pair(l, used, offs, fl, i + 1);
    if q < n {
      Strictly(l, used, offs, fl, i, q);
    } else {
      Strictly(l, used, offs, fl, i + 1, q);
    }
    OffsetsDistinct(l, offs);
    assert offs[i..i + 3] == [o, n, nn];
    SumThree(l, used, o, n, nn);
    SumThree(l, used', o, q, nn);
    GapsThree(l, o, q, nn);
    StepKeeps(l, used, used', offs, i, i + 3, mid, fl, fl') by {
      assert offs[i + 2] in offs;
      assert forall x :: x in fl' <==> Free(used', x) && (x in mid || (x in offs && x !in offs[i..i + 3]));
    }
  }

  /** The stretch that a free of block `i` merges into one, and the list of the free blocks after it. */
  ghost predicate Merges(used: Flags, offs: seq<int>, i: nat, left: bool, right: bool) {
    && i + 1 < |offs| && !Free(used, offs[i]) && offs[i] in used
    && (left <==> i > 0 && Free(used, offs[i - 1])) && (right <==> Free(used, offs[i + 1]))
    && (right ==> i + 2 < |offs|)
  }

  function From(i: nat, left: bool): (a: int) {
    if left then i - 1 else i
  }

  function To(i: nat, right: bool): nat {
    if right then i + 3 else i + 2
  }

  lemma FreeKeeps(l: Layout, used: Flags, offs: seq<int>, fl: seq<int>, i: nat, left: bool, right: bool, fl': seq<int>)
    requires Inv(l, used, offs, fl) && Merges(used, offs, i, left, right)
    requires Distinct(fl') && forall x :: x in fl' <==> (x in fl || (x == offs[i] && !left)) && !(right && x == offs[i + 1])
    ensures var a, b := From(i, left), To(i, right);
      && 0 <= a && b <= |offs|
      && Inv(l, used[offs[i] := false], Replace(offs, a, b, [offs[a], offs[b - 1]]), fl')
      && FreeSum(l, used[offs[i] := false], Replace(offs, a, b, [offs[a], offs[b - 1]])) ==
         FreeSum(l, used, offs) + offs[i + 1] - offs[i] - l.header + (if left then l.header else 0) + (if right then l.header else 0)
  {
    var a: nat, b: nat, o := From(i, left), To(i, right), offs[i];
    var used', mid := used[o := false], [offs[a], offs[b - 1]];
    FreeStretch(l, used, offs, fl, i, left, right);
    OffsetsDistinct(l, offs);
    forall x
      ensures x in fl' <==> Free(used', x) && (x in mid || (x in offs && x !in offs[a..b]))
    {
      FreeMember(used, offs, fl, i, left, right, x);
    }
    assert mid[0] == offs[a] && mid[1] == offs[b - 1];
    assert !Free(used, offs[b - 1]) && offs[b - 1] in offs;
    assert NotBothFree(used', mid, 0);
    if a > 0 { Pair(l, used, offs, fl, a - 1); }
    StepKeeps(l, used, used', offs, a, b, mid, fl, fl');
  }

  lemma FreeMember(used: Flags, offs: seq<int>, fl: seq<int>, i: nat, left: bool, right: bool, x: int)
    requires Merges(used, offs, i, left, right) && Distinct(offs) && FreeList(used, offs, fl)
    ensures var a: nat, b := From(i, left), To(i, right); var used' := used[offs[i] := false];
      (x in fl || (x == offs[i] && !left)) && !(right && x == offs[i + 1])
      <==> Free(used', x) && (x in [offs[a], offs[b - 1]] || (x in offs && x !in offs[a..b]))
  {
    var a: nat, b := From(i, left), To(i, right);
    assert offs[a..b] == (if left then [offs[i - 1]] else []) + [offs[i], offs[i + 1]] + (if right then [offs[i + 2]] else []);
    assert offs[i] in offs && offs[i + 1] in offs && offs[a] in offs && offs[b - 1] in offs;
  }

  /** Merging frees the headers between, too. */
  lemma FreeStretch(l: Layout, used: Flags, offs: seq<int>, fl: seq<int>, i: nat, left: bool, right: bool)
    requires Inv(l, used, offs, fl) && Merges(used, offs, i, left, right)
    ensures var a: nat, b, used' := From(i, left), To(i, right), used[offs[i] := false];
      && Gaps(l, [offs[a], offs[b - 1]]) && SameFlags(used, used', offs, a, b) && !Free(used, offs[b - 1])
      && FreeSum(l, used', [offs[a], offs[b - 1]]) - FreeSum(l, used, offs[a..b]) ==
         offs[i + 1] - offs[i] - l.header + (if left then l.header else 0) + (if right then l.header else 0)
  {
    var a: nat, b, used' := From(i, left), To(i, right), used[offs[i] := false];
    var o, n := offs[i], offs[i + 1];
    OffsetsDistinct(l, offs);
    Pair(l, used, offs, fl, i);
    if left { Pair(l, used, offs, fl, i - 1); }
    if right { Pair(l, used, offs, fl, i + 1); }
    GapsTwo(l, offs[a], offs[b - 1]);
    SumTwo(l, used', offs[a], offs[b - 1]);
    if left && right {
      assert offs[a..b] == [offs[a], o, n, offs[b - 1]];
      SumFour(l, used, offs[a], o, n, offs[b - 1]);
    } else if left {
      assert offs[a..b] == [offs[a], o, n];
      SumThree(l, used, offs[a], o, n);
    } else if right {
      assert offs[a..b] == [o, n, offs[b - 1]];
      SumThree(l, used, o, n, offs[b - 1]);
    } else {
      assert offs[a..b] == [o, n];
      SumTwo(l, used, o, n);
    }
  }

  // ----- what callers hold

  /** The blocks in use, with their ends. */
  ghost function Held(used: Flags, offs: seq<int>): map<int, int> {
    if |offs| < 2 then map[]
    else if Free(used, offs[0]) then Held(used, offs[1..]) else Held(used, offs[1..])[offs[0] := offs[1]]
  }

  lemma {:induction false} HeldIs(used: Flags, offs: seq<int>)
    requires Distinct(offs)
    ensures forall s :: s in Held(used, offs) ==> s in offs && s != offs[|offs| - 1] && !Free(used, s)
    ensures forall i :: 0 <= i < |offs| - 1 && !Free(used, offs[i]) ==> offs[i] in Held(used, offs) && Held(used, offs)[offs[i]] == offs[i + 1]
  {
    if |offs| >= 2 {
      assert Distinct(offs[1..]);
      HeldIs(used, offs[1..]);
      forall i | 0 <= i < |offs| - 1 && !Free(used, offs[i])
        ensures offs[i] in Held(used, offs) && Held(used, offs)[offs[i]] == offs[i + 1]
      {
        if i > 0 { assert offs[1..][i - 1] == offs[i]; }
      }
    }
  }

  /** What block `s` is to a caller: its end, if it is held. */
  ghost predicate HeldAs(used: Flags, offs: seq<int>, s: int, held: bool, end: int) {
    (s in Held(used, offs) <==> held) && (held ==> s in Held(used, offs) && Held(used, offs)[s] == end)
  }

  lemma HeldAt(used: Flags, offs: seq<int>, i: nat)
    requires Distinct(offs) && i + 1 < |offs|
    ensures HeldAs(used, offs, offs[i], !Free(used, offs[i]), offs[i + 1])
  {
    HeldIs(used, offs);
  }

  lemma HeldNot(used: Flags, offs: seq<int>, s: int)
    requires Distinct(offs) && s !in offs
    ensures s !in Held(used, offs)
  {
    HeldIs(used, offs);
  }

  lemma ReplaceKeepsPair(offs: seq<int>, i: nat, j: nat, mid: seq<int>, k: nat) returns (k': nat)
    requires SameEnds(offs, i, j, mid) && k + 1 < |offs| && (k < i || k >= j - 1)
    ensures var r := Replace(offs, i, j, mid); k' + 1 < |r| && r[k'] == offs[k] && r[k' + 1] == offs[k + 1]
  {
    k' := if k < i then k else k - j + i + |mid|;
  }

  lemma ReplaceHeldAt(used: Flags, used': Flags, offs: seq<int>, i: nat, j: nat, mid: seq<int>, k: nat)
    requires SameEnds(offs, i, j, mid) && SameFlags(used, used', offs, i, j)
    requires Distinct(offs) && Distinct(Replace(offs, i, j, mid)) && k + 1 < |offs| && (k < i || k >= j - 1)
    ensures HeldAs(used', Replace(offs, i, j, mid), offs[k], offs[k] in Held(used, offs), offs[k + 1])
    ensures HeldAs(used, offs, offs[k], offs[k] in Held(used, offs), offs[k + 1])
  {
    var k' := ReplaceKeepsPair(offs, i, j, mid, k);
    HeldAt(used, offs, k);
    HeldAt(used', Replace(offs, i, j, mid), k');
    hide Held, Replace, Distinct;
  }

  lemma PlaceOutside(offs: seq<int>, i: nat, j: nat, s: int) returns (k: nat)
    requires s in offs && i + 2 <= j <= |offs| && s !in offs[i..j - 1]
    ensures k < |offs| && offs[k] == s && (k < i || k >= j - 1)
  {
    k :| 0 <= k < |offs| && offs[k] == s;
  }

  lemma LastNotHeld(used: Flags, offs: seq<int>)
    requires Distinct(offs) && offs != []
    ensures offs[|offs| - 1] !in Held(used, offs)
  {
    HeldIs(used, offs);
  }

  /** Outside the stretch nothing changes for callers. */
  lemma ReplaceHeld(used: Flags, used': Flags, offs: seq<int>, i: nat, j: nat, mid: seq<int>, s: int)
    requires SameEnds(offs, i, j, mid) && SameFlags(used, used', offs, i, j)
    requires Distinct(offs) && Distinct(Replace(offs, i, j, mid))
    requires s !in mid[..|mid| - 1] && s !in offs[i..j - 1]
    ensures s in Held(used', Replace(offs, i, j, mid)) <==> s in Held(used, offs)
    ensures s in Held(used, offs) ==> Held(used', Replace(offs, i, j, mid))[s] == Held(used, offs)[s]
  {
    var r := Replace(offs, i, j, mid);
    ReplaceMembers(offs, i, j, mid);
    LastBlock(offs, i, j, mid);
    LastNotHeld(used, offs);
    LastNotHeld(used', r);
    if s in offs {
      var k := PlaceOutside(offs, i, j, s);
      if k + 1 < |offs| {
        ReplaceHeldAt(used, used', offs, i, j, mid, k);
      }
    } else {
      assert s !in mid by { assert mid == mid[..|mid| - 1] + [mid[|mid| - 1]]; assert offs[j - 1] in offs; }
      HeldNot(used, offs, s);
      HeldNot(used', r, s);
    }
  }

  /** `b` is `a` but for the entries of `ks`. */
  ghost predicate SameBut(a: map<int, int>, b: map<int, int>, ks: set<int>) {
    forall s :: s !in ks ==> (s in b <==> s in a) && (s in a ==> s in b && b[s] == a[s])
  }

  lemma SameAfter(a: map<int, int>, b: map<int, int>, ks: set<int>)
    requires SameBut(a, b, ks)
    requires forall k :: k in ks ==> (k in b <==> k in a) && (k in a ==> k in b && b[k] == a[k])
    ensures a == b
  {
    forall s
      ensures (s in a <==> s in b) && (s in a ==> s in b && a[s] == b[s])
    {
      if s !in ks {
        assert (s in b <==> s in a) && (s in a ==> s in b && b[s] == a[s]);
      }
    }
    assert a.Keys == b.Keys;
  }

  lemma ReplaceHeldBut(used: Flags, used': Flags, offs: seq<int>, i: nat, j: nat, mid: seq<int>, ks: set<int>)
    requires SameEnds(offs, i, j, mid) && SameFlags(used, used', offs, i, j)
    requires Distinct(offs) && Distinct(Replace(offs, i, j, mid))
    requires forall k :: 0 <= k < |mid| - 1 ==> mid[k] in ks
    requires forall k :: i <= k < j - 1 ==> offs[k] in ks
    ensures SameBut(Held(used, offs), Held(used', Replace(offs, i, j, mid)), ks)
  {
    forall s | s !in ks
      ensures s in Held(used', Replace(offs, i, j, mid)) <==> s in Held(used, offs)
      ensures s in Held(used, offs) ==> Held(used', Replace(offs, i, j, mid))[s] == Held(used, offs)[s]
    {
      ReplaceHeld(used, used', offs, i, j, mid, s);
    }
  }

  lemma ReplaceAt(offs: seq<int>, i: nat, j: nat, mid: seq<int>, k: nat)
    requires SameEnds(offs, i, j, mid) && k + 1 < |mid|
    ensures var r := Replace(offs, i, j, mid); i + k + 1 < |r| && r[i + k] == mid[k] && r[i + k + 1] == mid[k + 1]
  {
  }

  lemma MidHeld(used': Flags, offs: seq<int>, i: nat, j: nat, mid: seq<int>, k: nat)
    requires SameEnds(offs, i, j, mid) && k + 1 < |mid| && Distinct(Replace(offs, i, j, mid))
    ensures HeldAs(used', Replace(offs, i, j, mid), mid[k], !Free(used', mid[k]), mid[k + 1])
  {
    ReplaceAt(offs, i, j, mid, k);
    HeldAt(used', Replace(offs, i, j, mid), i + k);
  }

  lemma WholeHeld(used: Flags, offs: seq<int>, i: nat)
    requires Distinct(offs) && i + 1 < |offs|
    ensures Held(used[offs[i] := true], offs) == Held(used, offs)[offs[i] := offs[i + 1]]
  {
    var o, used', mid := offs[i], used[offs[i] := true], [offs[i], offs[i + 1]];
    assert Replace(offs, i, i + 2, mid) == offs;
    ReplaceHeldBut(used, used', offs, i, i + 2, mid, {o});
    HeldAt(used', offs, i);
    hide Held;
    SameAfter(Held(used, offs)[o := offs[i + 1]], Held(used', offs), {o});
  }

  /** After the cut, the caller of block `i` holds it up to `q`. */
  lemma CutHeld(used: Flags, offs: seq<int>, i: nat, q: int)
    requires Distinct(offs) && i + 1 < |offs| && q !in offs
    requires Distinct(Replace(offs, i, i + 2, [offs[i], q, offs[i + 1]]))
    ensures Held(used[q := false][offs[i] := true], Replace(offs, i, i + 2, [offs[i], q, offs[i + 1]])) == Held(used, offs)[offs[i] := q]
  {
    var o, used', mid := offs[i], used[q := false][offs[i] := true], [offs[i], q, offs[i + 1]];
    var r := Replace(offs, i, i + 2, mid);
    assert offs[i] in offs;
    ReplaceHeldBut(used, used', offs, i, i + 2, mid, {o, q});
    MidHeld(used', offs, i, i + 2, mid, 0);
    MidHeld(used', offs, i, i + 2, mid, 1);
    HeldNot(used, offs, q);
    hide Held, Distinct, Replace;
    SameAfter(Held(used, offs)[o := q], Held(used', r), {o, q});
  }

  lemma MoveHeld(used: Flags, offs: seq<int>, i: nat, q: int)
    requires Distinct(offs) && i + 2 < |offs| && q !in offs && !Free(used, offs[i]) && Free(used, offs[i + 1])
    requires Distinct(Replace(offs, i, i + 3, [offs[i], q, offs[i + 2]]))
    ensures Held(used[q := false], Replace(offs, i, i + 3, [offs[i], q, offs[i + 2]])) == Held(used, offs)[offs[i] := q]
  {
    var o, n, used', mid := offs[i], offs[i + 1], used[q := false], [offs[i], q, offs[i + 2]];
    var r := Replace(offs, i, i + 3, mid);
    assert offs[i] in offs && offs[i + 1] in offs;
    ReplaceHeldBut(used, used', offs, i, i + 3, mid, {o, q, n});
    MidHeld(used', offs, i, i + 3, mid, 0);
    MidHeld(used', offs, i, i + 3, mid, 1);
    HeldAt(used, offs, i + 1);
    ReplaceMembers(offs, i, i + 3, mid);
    assert offs[i..i + 3][1] == n;
    HeldNot(used', r, n);
    HeldNot(used, offs, q);
    hide Held, Distinct, Replace;
    SameAfter(Held(used, offs)[o := q], Held(used', r), {o, q, n});
  }

  lemma FreeHeld(used: Flags, offs: seq<int>, i: nat, left: bool, right: bool)
    requires Distinct(offs) && Merges(used, offs, i, left, right)
    requires Distinct(Replace(offs, From(i, left), To(i, right), [offs[From(i, left)], offs[To(i, right) - 1]]))
    ensures Held(used[offs[i] := false], Replace(offs, From(i, left), To(i, right), [offs[From(i, left)], offs[To(i, right) - 1]])) ==
            Held(used, offs) - {offs[i]}
  {
    var a: nat, b, o, n := From(i, left), To(i, right), offs[i], offs[i + 1];
    var used', mid := used[o := false], [offs[a], offs[b - 1]];
    var r, ks := Replace(offs, a, b, mid), {offs[a], o} + if right then {n} else {};
    ReplaceHeldBut(used, used', offs, a, b, mid, ks);
    MidHeld(used', offs, a, b, mid, 0);
    GoneUnlessFirst(used, used', offs, a, b, mid, i);
    GoneUnlessFirst(used, used', offs, a, b, mid, i + 1);
    HeldAt(used, offs, a);
    if right { HeldAt(used, offs, i + 1); }
    hide Held, Distinct, Replace;
    SameAfter(Held(used, offs) - {o}, Held(used', r), ks);
  }

  /** Of the blocks merged into one, only the first keeps its name. */
  lemma GoneUnlessFirst(used: Flags, used': Flags, offs: seq<int>, a: nat, b: nat, mid: seq<int>, k: nat)
    requires SameEnds(offs, a, b, mid) && |mid| == 2 && Distinct(offs) && Distinct(Replace(offs, a, b, mid))
    requires a <= k
    ensures a < k < b - 1 ==> offs[k] !in Held(used', Replace(offs, a, b, mid))
  {
    if a < k < b - 1 {
      ReplaceMembers(offs, a, b, mid);
      assert offs[a..b][k - a] == offs[k];
      HeldNot(used', Replace(offs, a, b, mid), offs[k]);
    }
  }
}
