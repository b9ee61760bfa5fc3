/**
 The memheap allocator of `src/memheap.c` over the geometry of `HeapBlocks`: block headers in one
 circular list, free blocks in another that begins at a header outside the pool.
 */
module MemHeap {
  import opened Wrappers
  import opened Sequences
  import opened Rings
  import opened HeapBlocks
  import opened Arithmetic
  import opened Bytes

  /** The address of `free_header`, which is in no pool. */
  const HEADER: int := -1

  /** The bytes a request stands for. */
  function Need(l: Layout, size: nat): nat
    requires l.align > 0
  {
    var n := RoundUp(size, l.align);
    if n < l.minAlloc then l.minAlloc else n
  }

  /** The bytes of block `o` for its caller (`MEMITEM_SIZE`). */
  function Size(l: Layout, next: Links, o: int): int {
    if o in next then next[o] - o - l.header else 0
  }

  /** The first of the free blocks that has room; their number if none has. */
  function FirstFit(l: Layout, next: Links, fl: seq<int>, need: nat): (k: nat)
    ensures k <= |fl|
    ensures forall j :: 0 <= j < k ==> Size(l, next, fl[j]) < need
    ensures k < |fl| ==> Size(l, next, fl[k]) >= need
  {
    if fl == [] || Size(l, next, fl[0]) >= need then 0 else 1 + FirstFit(l, next, fl[1..], need)
  }

  ghost function Index(xs: seq<int>, x: int): (i: nat)
    requires x in xs
    ensures i < |xs| && xs[i] == x
  {
    var i :| 0 <= i < |xs| && xs[i] == x;
    i
  }

  ghost predicate Lists(l: Layout, next: Links, prev: Links, nextFree: Links, prevFree: Links, offs: seq<int>, fl: seq<int>) {
    Ring(next, prev, offs) && Ring(nextFree, prevFree, [HEADER] + fl)
  }

  /** A free block is found by its place in the list, and its size by the next block. */
  lemma Known(l: Layout, next: Links, prev: Links, used: Flags, offs: seq<int>, fl: seq<int>, i: nat)
    requires Inv(l, used, offs, fl) && Ring(next, prev, offs) && i + 1 < |offs|
    ensures offs[i] in next && next[offs[i]] == offs[i + 1] && Size(l, next, offs[i]) == offs[i + 1] - offs[i] - l.header >= 0
    ensures offs[i + 1] in prev && prev[offs[i + 1]] == offs[i]
    ensures offs[i] in used && offs[i + 1] in used
  {
    RingLinks(next, prev, offs, i);
    RingLinks(next, prev, offs, i + 1);
    Pair(l, used, offs, fl, i);
  }

  lemma NotTail(l: Layout, used: Flags, offs: seq<int>, fl: seq<int>, o: int)
    requires Inv(l, used, offs, fl) && o in offs && (o != l.Tail() || Free(used, o))
    ensures Index(offs, o) + 1 < |offs|
  {
  }

  /** The search of `rt_memheap_alloc` fails exactly if no free block has room. */
  lemma NoFitIff(l: Layout, next: Links, prev: Links, used: Flags, offs: seq<int>, fl: seq<int>, need: nat)
    requires Inv(l, used, offs, fl) && Ring(next, prev, offs)
    ensures FirstFit(l, next, fl, need) == |fl| <==>
            forall i :: 0 <= i < |offs| - 1 && Free(used, offs[i]) ==> offs[i + 1] - offs[i] - l.header < need
  {
    var k := FirstFit(l, next, fl, need);
    if k == |fl| {
      forall i | 0 <= i < |offs| - 1 && Free(used, offs[i])
        ensures offs[i + 1] - offs[i] - l.header < need
      {
        Known(l, next, prev, used, offs, fl, i);
        assert offs[i] in fl;
        var j := Index(fl, offs[i]);
        assert Size(l, next, fl[j]) < need;
      }
    } else {
      assert fl[k] in fl;
      NotTail(l, used, offs, fl, fl[k]);
      Known(l, next, prev, used, offs, fl, Index(offs, fl[k]));
    }
  }

  /**
   The test `size < available_size` refuses a request that a block has room for only if that block
   is all there is and the request wants all of it.
   */
  lemma GuardRefuses(l: Layout, used: Flags, offs: seq<int>, fl: seq<int>, i: nat, need: nat)
    requires Inv(l, used, offs, fl) && i + 1 < |offs| && Free(used, offs[i]) && offs[i + 1] - offs[i] - l.header >= need
    ensures need >= FreeSum(l, used, offs) <==> need == offs[i + 1] - offs[i] - l.header == FreeSum(l, used, offs)
  {
    FreeIsPart(l, used, offs, i);
  }

  lemma FreshInv(l: Layout)
    requires l.Valid()
    ensures var used, offs := map[0 := false, l.Tail() := true], [0, l.Tail()];
      Inv(l, used, offs, [0]) && FreeSum(l, used, offs) == l.Tail() - l.header
  {
    var used, offs := map[0 := false, l.Tail() := true], [0, l.Tail()];
    AlignedSum(l.pool, l.header, l.align);
    GapsTwo(l, 0, l.Tail());
    SumTwo(l, used, 0, l.Tail());
    assert NotBothFree(used, offs, 0);
  }

  /** What callers hold does not overlap. */
  lemma BlocksDisjoint(l: Layout, used: Flags, offs: seq<int>, fl: seq<int>, i: nat, j: nat)
    requires Inv(l, used, offs, fl) && i < j && j + 1 < |offs|
    ensures 0 <= offs[i] && offs[i + 1] <= offs[j] && offs[j] + l.header <= offs[j + 1] <= l.pool
  {
    if i + 1 < j {
      Ascends(l, offs, i + 1, j);
    }
    assert GapAt(l, offs, j) && GapAt(l, offs, i);
    if j + 2 < |offs| {
      Ascends(l, offs, j + 1, |offs| - 1);
    }
  }

  lemma FreeRingOutside(l: Layout, used: Flags, offs: seq<int>, fl: seq<int>)
    requires Inv(l, used, offs, fl)
    ensures HEADER !in offs && HEADER !in fl
  {
    forall i | 0 <= i < |offs|
      ensures offs[i] >= 0
    {
      if i > 0 { Ascends(l, offs, 0, i); }
    }
  }

  /** The free ring, position by position. */
  lemma FreeLink(nextFree: Links, prevFree: Links, fl: seq<int>, k: nat)
    requires Ring(nextFree, prevFree, [HEADER] + fl) && k <= |fl|
    ensures var x := if k == 0 then HEADER else fl[k - 1];
      x in nextFree && nextFree[x] == if k < |fl| then fl[k] else HEADER
  {
    RingLinks(nextFree, prevFree, [HEADER] + fl, k);
  }

  lemma FreeKnown(l: Layout, next: Links, prev: Links, used: Flags, offs: seq<int>, fl: seq<int>, k: nat)
    requires Inv(l, used, offs, fl) && Ring(next, prev, offs) && k < |fl|
    ensures fl[k] in next && fl[k] in offs && Free(used, fl[k]) && fl[k] in used
    ensures var i := Index(offs, fl[k]);
      i + 1 < |offs| && !Free(used, offs[i + 1]) && Size(l, next, fl[k]) == offs[i + 1] - offs[i] - l.header >= 0
  {
    assert fl[k] in fl;
    NotTail(l, used, offs, fl, fl[k]);
    var i := Index(offs, fl[k]);
    Known(l, next, prev, used, offs, fl, i);
    Pair(l, used, offs, fl, i);
  }

  lemma FitIs(l: Layout, next: Links, fl: seq<int>, need: nat, k: nat)
    requires k <= |fl| && (forall j :: 0 <= j < k ==> Size(l, next, fl[j]) < need) && (k < |fl| ==> Size(l, next, fl[k]) >= need)
    ensures k == FirstFit(l, next, fl, need)
  {
  }

  /** The blocks after block `i` has been cut at `q`, as the links make them. */
  lemma CutIsInsert(offs: seq<int>, i: nat, q: int)
    requires i + 1 < |offs|
    ensures InsertAt(offs, i + 1, q) == Replace(offs, i, i + 2, [offs[i], q, offs[i + 1]])
  {
  }

  lemma NeedFits(l: Layout, size: nat)
    requires l.Valid()
    ensures var n := Need(l, size); n >= size && n >= l.minAlloc > 0 && Aligned(n, l.align)
    ensures Need(l, Need(l, size)) == Need(l, size)
  {
    RoundUpIsLeast(size, l.align);
    var n := Need(l, size);
    RoundUpIsLeast(n, l.align);
    assert RoundUp(n, l.align) <= n;
  }

  /** It is the least aligned number of bytes that holds the request and a smallest block. */
  lemma NeedIsLeast(l: Layout, size: nat)
    requires l.Valid()
    ensures Aligned(Need(l, size), l.align) && size <= Need(l, size) && l.minAlloc <= Need(l, size)
    ensures forall n: nat :: Aligned(n, l.align) && size <= n && l.minAlloc <= n ==> Need(l, size) <= n
  {
    RoundUpIsLeast(size, l.align);
  }

  lemma BackLink(nextFree: Links, prevFree: Links, fl: seq<int>, k: nat)
    requires Ring(nextFree, prevFree, [HEADER] + fl) && k <= |fl|
    ensures var n := if k < |fl| then fl[k] else HEADER;
      n in prevFree && prevFree[n] == if k == 0 then HEADER else fl[k - 1]
  {
    RingLinks(nextFree, prevFree, [HEADER] + fl, if k < |fl| then k + 1 else 0);
  }

  /** What cutting a free block for a request keeps, and what its caller then holds. */
  lemma TakeSplit(l: Layout, used: Flags, offs: seq<int>, fl: seq<int>, i: nat, k: nat, need: nat)
    requires Inv(l, used, offs, fl) && k < |fl| && i + 1 < |offs| && offs[i] == fl[k] && need > 0
    requires Aligned(need, l.align) && offs[i] + l.header + need + l.header <= offs[i + 1]
    ensures var o, q := offs[i], offs[i] + l.header + need;
      var used', offs', fl' := used[q := false][o := true], InsertAt(offs, i + 1, q), [q] + RemoveAt(fl, k);
      && Inv(l, used', offs', fl') && Held(used', offs') == Held(used, offs)[o := q]
      && FreeSum(l, used', offs') == FreeSum(l, used, offs) - need - l.header
      && q !in offs && q !in fl && q != HEADER
  {
    var o, q := offs[i], offs[i] + l.header + need;
    var used', offs', fl' := used[q := false][o := true], InsertAt(offs, i + 1, q), [q] + RemoveAt(fl, k);
    Pair(l, used, offs, fl, i);
    Strictly(l, used, offs, fl, i, q);
    BlockAligned(l, used, offs, fl, i);
    AlignedSum(o, l.header, l.align);
    AlignedSum(o + l.header, need, l.align);
    RemoveAtMembers(fl, k);
    RemoveAtDistinct(fl, k);
    CutIsInsert(offs, i, q);
    OffsetsDistinct(l, offs);
    InsertAtDistinct(offs, i + 1, q);
    CutHeld(used, offs, i, q);
    hide FreeSum, Held, Replace, InsertAt;
    CutKeeps(l, used, offs, fl, i, q, used', fl');
  }

  lemma BlockAligned(l: Layout, used: Flags, offs: seq<int>, fl: seq<int>, i: nat)
    requires Inv(l, used, offs, fl) && i < |offs|
    ensures offs[i] >= 0 && Aligned(offs[i], l.align)
  {
    if i > 0 {
      Pair(l, used, offs, fl, i - 1);
    }
  }

  /** The blocks after those merged with block `i` have been unlinked, one by one. */
  function Unlinked(offs: seq<int>, i: nat, left: bool, right: bool): seq<int>
    requires i + 1 < |offs| && (left ==> i > 0)
  {
    var once := if left then RemoveAt(offs, i) else offs;
    if right then RemoveAt(once, if left then i else i + 1) else once
  }

  lemma UnlinkedIsReplace(offs: seq<int>, i: nat, left: bool, right: bool)
    requires i + 1 < |offs| && (left ==> i > 0) && (right ==> i + 2 < |offs|)
    ensures var a: nat, b := From(i, left), To(i, right);
      Unlinked(offs, i, left, right) == Replace(offs, a, b, [offs[a], offs[b - 1]])
  {
    var a: nat, b := From(i, left), To(i, right);
    ReplaceEnds(offs, a, b);
    var front := offs[..a + 1];
    var once := if left then RemoveAt(offs, i) else offs;
    hide Replace;
    assert once == front + offs[i + 1..];
    if right {
      RemoveMiddle(front, offs[i + 1..]);
      assert offs[i + 1..][1..] == offs[i + 2..];
      hide RemoveAt;
    }
  }

  lemma RemoveMiddle(xs: seq<int>, ys: seq<int>)
    requires ys != []
    ensures RemoveAt(xs + ys, |xs|) == xs + ys[1..]
  {
  }

  lemma ReplaceEnds(offs: seq<int>, a: nat, b: nat)
    requires a + 1 < b <= |offs|
    ensures Replace(offs, a, b, [offs[a], offs[b - 1]]) == offs[..a + 1] + offs[b - 1..]
  {
    assert offs[..a + 1] == offs[..a] + [offs[a]];
    assert offs[b - 1..] == [offs[b - 1]] + offs[b..];
  }

  /** The free list after a free of block `i`; a block that is not merged to the left goes to place `k`. */
  ghost function FreedList(fl: seq<int>, o: int, n: int, left: bool, right: bool, k: nat): seq<int> {
    var rest := if right && n in fl then RemoveAt(fl, Index(fl, n)) else fl;
    if left || k > |rest| then rest else InsertAt(rest, k, o)
  }

  lemma FreedListMembers(fl: seq<int>, o: int, n: int, left: bool, right: bool, k: nat)
    requires Distinct(fl) && o !in fl && o != n && (right ==> n in fl)
    requires k <= if right then |fl| - 1 else |fl|
    ensures var fl' := FreedList(fl, o, n, left, right, k);
      Distinct(fl') && forall x :: x in fl' <==> (x in fl || (x == o && !left)) && !(right && x == n)
  {
    var rest := if right then RemoveAt(fl, Index(fl, n)) else fl;
    if right {
      RemoveAtMembers(fl, Index(fl, n));
      RemoveAtDistinct(fl, Index(fl, n));
    }
    InsertAtMembers(rest, k, o);
    InsertAtDistinct(rest, k, o);
  }

  /** What a free keeps, in terms of the links it changes. */
  lemma FreeStep(l: Layout, used: Flags, offs: seq<int>, fl: seq<int>, i: nat, left: bool, right: bool, k: nat)
    requires Inv(l, used, offs, fl) && Merges(used, offs, i, left, right)
    requires k <= if right then |fl| - 1 else |fl|
    ensures var used', offs' := used[offs[i] := false], Unlinked(offs, i, left, right);
      var fl' := FreedList(fl, offs[i], offs[i + 1], left, right, k);
      && Inv(l, used', offs', fl') && Held(used', offs') == Held(used, offs) - {offs[i]}
      && FreeSum(l, used', offs') ==
         FreeSum(l, used, offs) + offs[i + 1] - offs[i] - l.header + (if left then l.header else 0) + (if right then l.header else 0)
  {
    var o, n := offs[i], offs[i + 1];
    OffsetsDistinct(l, offs);
    Pair(l, used, offs, fl, i);
    if right { Pair(l, used, offs, fl, i + 1); }
    UnlinkedIsReplace(offs, i, left, right);
    hide FreeSum, Held, Replace, Unlinked;
    FreedListMembers(fl, o, n, left, right, k);
    FreeKeeps(l, used, offs, fl, i, left, right, FreedList(fl, o, n, left, right, k));
    OffsetsDistinct(l, Unlinked(offs, i, left, right));
    FreeHeld(used, offs, i, left, right);
  }

  /** The neighbours of a held block, and whether a free merges with them. */
  lemma FreeReady(l: Layout, next: Links, prev: Links, used: Flags, offs: seq<int>, fl: seq<int>, o: int) returns (i: nat, left: bool, right: bool)
    requires Inv(l, used, offs, fl) && Ring(next, prev, offs) && o in Held(used, offs)
    ensures i + 1 < |offs| && offs[i] == o && Merges(used, offs, i, left, right)
    ensures o in next && o in prev && next[o] == offs[i + 1] && prev[o] == offs[if i == 0 then |offs| - 1 else i - 1]
    ensures next[o] in used && prev[o] in used && (left <==> !used[prev[o]]) && (right <==> !used[next[o]])
    ensures (right ==> next[o] in fl) && o !in fl && o != HEADER && prev[o] != o && next[o] != o && (left ==> prev[o] in fl)
    ensures Held(used, offs)[o] == next[o] && Size(l, next, o) >= 0
  {
    OffsetsDistinct(l, offs);
    HeldIs(used, offs);
    i := Index(offs, o);
    left := i > 0 && Free(used, offs[i - 1]);
    right := Free(used, offs[i + 1]);
    RingLinks(next, prev, offs, i);
    Pair(l, used, offs, fl, i);
    if i > 0 { Pair(l, used, offs, fl, i - 1); }
    FreeRingOutside(l, used, offs, fl);
  }

  lemma QAligned(l: Layout, used: Flags, offs: seq<int>, fl: seq<int>, i: nat, need: nat)
    requires Inv(l, used, offs, fl) && i < |offs| && Aligned(need, l.align)
    ensures offs[i] >= 0 && Aligned(offs[i] + l.header + need, l.align)
  {
    BlockAligned(l, used, offs, fl, i);
    AlignedSum(offs[i], l.header, l.align);
    AlignedSum(offs[i] + l.header, need, l.align);
  }

  lemma MovePlaces(offs: seq<int>, i: nat, q: int)
    requires i + 2 < |offs|
    ensures InsertAt(RemoveAt(offs, i + 1), i + 1, q) == Replace(offs, i, i + 3, [offs[i], q, offs[i + 2]])
    ensures RemoveAt(InsertAt(offs, i + 1, q), i + 2) == Replace(offs, i, i + 3, [offs[i], q, offs[i + 2]])
    ensures i < |RemoveAt(offs, i + 1)| && RemoveAt(offs, i + 1)[i] == offs[i]
  {
  }

  /** Moving the end of a held block into or out of the free block behind it, in either order of the links. */
  lemma MoveStep(l: Layout, used: Flags, offs: seq<int>, fl: seq<int>, i: nat, q: nat, k: nat)
    requires Inv(l, used, offs, fl) && i + 2 < |offs| && !Free(used, offs[i]) && k < |fl| && fl[k] == offs[i + 1]
    requires offs[i] + l.header <= q && q + l.header <= offs[i + 2] && q != offs[i + 1] && Aligned(q, l.align)
    ensures var used', offs', fl' := used[q := false], InsertAt(RemoveAt(offs, i + 1), i + 1, q), [q] + RemoveAt(fl, k);
      && Inv(l, used', offs', fl') && Held(used', offs') == Held(used, offs)[offs[i] := q]
      && FreeSum(l, used', offs') == FreeSum(l, used, offs) + offs[i + 1] - q
      && q !in offs && q !in fl && q !in RemoveAt(offs, i + 1) && q !in RemoveAt(fl, k) && q != HEADER
      && offs' == RemoveAt(InsertAt(offs, i + 1, q), i + 2)
      && i < |RemoveAt(offs, i + 1)| && RemoveAt(offs, i + 1)[i] == offs[i]
  {
    var o, n, nn, r := offs[i], offs[i + 1], offs[i + 2], Replace(offs, i, i + 3, [offs[i], q, offs[i + 2]]);
    assert n in fl;
    Pair(l, used, offs, fl, i);
    Pair(l, used, offs, fl, i + 1);
    if q < n { Strictly(l, used, offs, fl, i, q); } else { Strictly(l, used, offs, fl, i + 1, q); }
    OffsetsDistinct(l, offs);
    RemoveAtMembers(fl, k);
    RemoveAtDistinct(fl, k);
    RemoveAtMembers(offs, i + 1);
    MovePlaces(offs, i, q);
    hide FreeSum, Held, Replace, InsertAt, RemoveAt;
    MoveKeeps(l, used, offs, fl, i, q, [q] + RemoveAt(fl, k));
    OffsetsDistinct(l, r);
    MoveHeld(used, offs, i, q);
  }

  /** Both outcomes of a shrink, as the links make them. */
  lemma ShrinkStep(l: Layout, used: Flags, offs: seq<int>, fl: seq<int>, i: nat, q: nat)
    requires Inv(l, used, offs, fl) && i + 1 < |offs| && !Free(used, offs[i]) && offs[i] in used
    requires offs[i] + l.header <= q && q + l.header < offs[i + 1] && Aligned(q, l.align)
    ensures q !in offs && q !in fl && q != HEADER
    ensures Free(used, offs[i + 1]) ==>
      var k := if offs[i + 1] in fl then Index(fl, offs[i + 1]) else 0;
      && i + 2 < |offs| && offs[i + 1] in fl
      && Inv(l, used[q := false], RemoveAt(InsertAt(offs, i + 1, q), i + 2), [q] + RemoveAt(fl, k))
      && Held(used[q := false], RemoveAt(InsertAt(offs, i + 1, q), i + 2)) == Held(used, offs)[offs[i] := q]
      && FreeSum(l, used[q := false], RemoveAt(InsertAt(offs, i + 1, q), i + 2)) == FreeSum(l, used, offs) + offs[i + 1] - q
      && q !in RemoveAt(fl, k)
    ensures !Free(used, offs[i + 1]) ==>
      && Inv(l, used[q := false], InsertAt(offs, i + 1, q), [q] + fl)
      && Held(used[q := false], InsertAt(offs, i + 1, q)) == Held(used, offs)[offs[i] := q]
      && FreeSum(l, used[q := false], InsertAt(offs, i + 1, q)) == FreeSum(l, used, offs) + offs[i + 1] - q - l.header
  {
    Pair(l, used, offs, fl, i);
    Strictly(l, used, offs, fl, i, q);
    FreeRingOutside(l, used, offs, fl);
    if Free(used, offs[i + 1]) {
      assert offs[i + 1] in offs;
      NotTail(l, used, offs, fl, offs[i + 1]);
      OffsetsDistinct(l, offs);
      assert Index(offs, offs[i + 1]) == i + 1;
      Pair(l, used, offs, fl, i + 1);
      MoveStep(l, used, offs, fl, i, q, Index(fl, offs[i + 1]));
    } else {
      ShrinkCut(l, used, offs, fl, i, q);
    }
  }

  lemma ShrinkCut(l: Layout, used: Flags, offs: seq<int>, fl: seq<int>, i: nat, q: nat)
    requires Inv(l, used, offs, fl) && i + 1 < |offs| && !Free(used, offs[i]) && !Free(used, offs[i + 1]) && offs[i] in used
    requires offs[i] + l.header <= q && q + l.header < offs[i + 1] && Aligned(q, l.align)
    ensures Inv(l, used[q := false], InsertAt(offs, i + 1, q), [q] + fl)
    ensures Held(used[q := false], InsertAt(offs, i + 1, q)) == Held(used, offs)[offs[i] := q]
    ensures FreeSum(l, used[q := false], InsertAt(offs, i + 1, q)) == FreeSum(l, used, offs) + offs[i + 1] - q - l.header
  {
    var o, used' := offs[i], used[q := false];
    Pair(l, used, offs, fl, i);
    Strictly(l, used, offs, fl, i, q);
    assert used' == used[q := false][o := true];
    OffsetsDistinct(l, offs);
    CutIsInsert(offs, i, q);
    hide FreeSum, Held, Replace, InsertAt;
    CutKeeps(l, used, offs, fl, i, q, used', [q] + fl);
    OffsetsDistinct(l, InsertAt(offs, i + 1, q));
    CutHeld(used, offs, i, q);
  }

  lemma ShrinkPlaces(offs: seq<int>, i: nat, q: int)
    requires i + 1 < |offs|
    ensures var once := InsertAt(offs, i + 1, q);
      && |once| == |offs| + 1 && once[i + 1] == q && once[i + 2] == offs[i + 1]
      && |RemoveAt(once, i + 2)| == |offs| && RemoveAt(once, i + 2)[i + 1] == q
      && (i + 2 < |offs| ==> once[i + 3] == offs[i + 2] && RemoveAt(once, i + 2)[i + 2] == offs[i + 2])
  {
  }

  /** What an allocation depends on, and what a caller sees of it. */
  datatype View = View(held: map<int, int>, next: Links, prev: Links, used: Flags, fl: seq<int>, available: int, maxUsed: int)

  /** An allocation succeeds. */
  predicate Grants(l: Layout, v: View, need: nat) {
    need < v.available && FirstFit(l, v.next, v.fl, need) < |v.fl|
  }

  /** The block it takes. */
  function GrantAt(l: Layout, v: View, need: nat): int
    requires Grants(l, v, need)
  {
    v.fl[FirstFit(l, v.next, v.fl, need)]
  }

  predicate Splits(l: Layout, v: View, need: nat)
    requires Grants(l, v, need)
  {
    Size(l, v.next, GrantAt(l, v, need)) >= need + l.header + l.minAlloc
  }

  /** The end of what it hands out, which has room for the request. */
  function GrantEnd(l: Layout, v: View, need: nat): (end: int)
    requires Grants(l, v, need)
    ensures end >= GrantAt(l, v, need) + l.header + need
  {
    GrantAt(l, v, need) + l.header + if Splits(l, v, need) then need else Size(l, v.next, GrantAt(l, v, need))
  }

  /** The bytes that are available no more. */
  function Cost(l: Layout, v: View, need: nat): int
    requires Grants(l, v, need)
  {
    if Splits(l, v, need) then need + l.header else Size(l, v.next, GrantAt(l, v, need))
  }

  /** A fresh block of at least `need` bytes, or nothing. */
  ghost predicate Allocated(l: Layout, v: View, v': View, need: nat, p: Option<int>) {
    && (p.Some? <==> Grants(l, v, need))
    && (p.None? ==> v' == v)
    && (p.Some? ==>
          && p.value == GrantAt(l, v, need) + l.header
          && GrantAt(l, v, need) !in v.held && v'.held == v.held[GrantAt(l, v, need) := GrantEnd(l, v, need)]
          && v'.available == v.available - Cost(l, v, need)
          && v'.maxUsed == Max(v.maxUsed, l.pool - v'.available))
  }

  lemma AllocatedIs(l: Layout, v: View, v': View, need: nat, p: Option<int>)
    requires v.available > need && FirstFit(l, v.next, v.fl, need) < |v.fl| <==> p.Some?
    requires p.None? ==> v' == v
    requires p.Some? ==>
               var o := v.fl[FirstFit(l, v.next, v.fl, need)];
               var had := Size(l, v.next, o);
               var split := had >= need + l.header + l.minAlloc;
               && p.value == o + l.header && o !in v.held
               && v'.held == v.held[o := o + l.header + if split then need else had]
               && v'.available == v.available - (if split then need + l.header else had)
               && v'.maxUsed == Max(v.maxUsed, l.pool - v'.available)
    ensures Allocated(l, v, v', need, p)
  {
    hide FirstFit, Size;
  }

  /** The links and flags after block `GrantAt` has been cut in two, or taken as it is. */
  ghost predicate Relinked(l: Layout, v: View, v': View, need: nat)
    requires Grants(l, v, need)
  {
    var o, q := GrantAt(l, v, need), GrantAt(l, v, need) + l.header + need;
    if Splits(l, v, need) then
      && o in v.next
      && v'.used == v.used[q := false][o := true]
      && v'.next == v.next[q := v.next[o]][o := q] && v'.prev == v.prev[q := o][v.next[o] := q]
    else
      v'.used == v.used[o := true] && v'.next == v.next && v'.prev == v.prev
  }

  ghost predicate FreeAt(used: Flags, links: Links, o: int) {
    o in links && Free(used, links[o])
  }

  function Neighbour(links: Links, o: int): int {
    if o in links then links[o] else 0
  }

  /** Once another block has been allocated, the block before `o` is free: it is what it was, or the rest of a split. */
  ghost predicate FreeBefore(l: Layout, v: View, need: nat, o: int)
    requires Grants(l, v, need)
  {
    FreeAt(v.used, v.prev, o) && (GrantAt(l, v, need) == Neighbour(v.prev, o) ==> Splits(l, v, need))
  }

  ghost predicate FreeBehind(l: Layout, v: View, need: nat, o: int)
    requires Grants(l, v, need)
  {
    FreeAt(v.used, v.next, o) && GrantAt(l, v, need) != Neighbour(v.next, o)
  }

  /** A block that moves: another is allocated, and then the old one is freed and merged with its free neighbours. */
  ghost predicate Moved(l: Layout, v: View, v': View, o: int, need: nat, r: Option<int>) {
    && (r.Some? <==> Grants(l, v, need))
    && (r.None? ==> v' == v)
    && (r.Some? ==>
          && r.value == GrantAt(l, v, need) + l.header
          && GrantAt(l, v, need) !in v.held && v'.held == v.held[GrantAt(l, v, need) := GrantEnd(l, v, need)] - {o}
          && v'.available == v.available - Cost(l, v, need) + Size(l, v.next, o)
                             + (if FreeBefore(l, v, need, o) then l.header else 0)
                             + (if FreeBehind(l, v, need, o) then l.header else 0)
          && v'.maxUsed == Max(v.maxUsed, l.pool - (v.available - Cost(l, v, need))))
  }

  lemma MovedIs(l: Layout, v: View, u: View, v': View, o: int, need: nat, r: Option<int>)
    requires Allocated(l, v, u, need, r) && r.Some?
    requires Size(l, u.next, o) == Size(l, v.next, o)
    requires FreeAt(u.used, u.prev, o) <==> FreeBefore(l, v, need, o)
    requires FreeAt(u.used, u.next, o) <==> FreeBehind(l, v, need, o)
    requires v'.held == u.held - {o} && v'.maxUsed == u.maxUsed
    requires v'.available == u.available + Size(l, u.next, o) + (if FreeAt(u.used, u.prev, o) then l.header else 0)
                             + (if FreeAt(u.used, u.next, o) then l.header else 0)
    ensures Moved(l, v, v', o, need, r)
  {
    hide Grants, GrantAt, GrantEnd, Cost, Size, FreeAt, FreeBefore, FreeBehind;
  }

  lemma AllocatedGrants(l: Layout, v: View, u: View, need: nat, r: Option<int>)
    requires Allocated(l, v, u, need, r) && r.Some?
    ensures Grants(l, v, need)
  {
  }

  lemma MovedNot(l: Layout, v: View, v': View, o: int, need: nat)
    requires Allocated(l, v, v', need, None)
    ensures Moved(l, v, v', o, need, None)
  {
    hide FirstFit, Size;
  }

  datatype Branch = Stay | CutDown | Extend | Relocate

  /** The branch of `rt_memheap_realloc` for block `o` and a request of `need` bytes. */
  ghost function BranchFor(l: Layout, v: View, o: int, need: nat): (b: Branch)
    ensures b.Stay? || b.CutDown? <==> need <= Size(l, v.next, o)
    ensures b.CutDown? <==> need + l.header + l.minAlloc < Size(l, v.next, o)
    ensures b.Extend? <==> need > Size(l, v.next, o) && FreeAt(v.used, v.next, o)
                           && Size(l, v.next, Neighbour(v.next, o)) + Size(l, v.next, o) > need + l.minAlloc
  {
    var had := Size(l, v.next, o);
    if need > had then
      if FreeAt(v.used, v.next, o) && Size(l, v.next, Neighbour(v.next, o)) + had > need + l.minAlloc then Extend else Relocate
    else if need + l.header + l.minAlloc < had then CutDown
    else Stay
  }

  /** What a reallocation of block `o` does: stay, shrink or grow in place, or move. */
  ghost predicate Resized(l: Layout, v: View, v': View, o: int, need: nat, r: Option<int>) {
    var had := Size(l, v.next, o);
    match BranchFor(l, v, o, need)
    case Stay => r == Some(o + l.header) && v' == v
    case CutDown =>
      && r == Some(o + l.header) && v'.held == v.held[o := o + l.header + need] && v'.maxUsed == v.maxUsed
      && v'.available == v.available + had - need - if FreeAt(v.used, v.next, o) then 0 else l.header
    case Extend =>
      && r == Some(o + l.header) && v'.held == v.held[o := o + l.header + need]
      && v'.available == v.available - (need - had) && v'.maxUsed == Max(v.maxUsed, l.pool - v'.available)
    case Relocate => Moved(l, v, v', o, need, r)
  }

  /** An allocation changes the neighbours of a held block only as `FreeBefore` and `FreeBehind` say. */
  lemma NeighboursAfter(l: Layout, v: View, v': View, offs: seq<int>, need: nat, o: int)
    requires Inv(l, v.used, offs, v.fl) && Ring(v.next, v.prev, offs) && o in Held(v.used, offs)
    requires need > 0 && Grants(l, v, need) && Relinked(l, v, v', need)
    ensures Size(l, v'.next, o) == Size(l, v.next, o)
    ensures FreeAt(v'.used, v'.prev, o) <==> FreeBefore(l, v, need, o)
    ensures FreeAt(v'.used, v'.next, o) <==> FreeBehind(l, v, need, o)
  {
    var i, left, right := FreeReady(l, v.next, v.prev, v.used, offs, v.fl, o);
    var k := FirstFit(l, v.next, v.fl, need);
    var g := v.fl[k];
    FreeKnown(l, v.next, v.prev, v.used, offs, v.fl, k);
    var j := Index(offs, g);
    Known(l, v.next, v.prev, v.used, offs, v.fl, j);
    OffsetsDistinct(l, offs);
    if Splits(l, v, need) {
      Strictly(l, v.used, offs, v.fl, j, g + l.header + need);
    }
    assert offs[i] == o && v.next[o] in offs && v.prev[o] in offs;
    hide Inv, Ring, Held, FirstFit;
  }

  ghost function RestOf(fl: seq<int>, n: int, right: bool): seq<int> {
    if right && n in fl then RemoveAt(fl, Index(fl, n)) else fl
  }

  /** After the merging: what is left of the free list and of the blocks. */
  lemma FreeAfter(l: Layout, used: Flags, offs: seq<int>, fl: seq<int>, i: nat, left: bool, right: bool)
    requires Inv(l, used, offs, fl) && Merges(used, offs, i, left, right)
    ensures var rest := RestOf(fl, offs[i + 1], right);
      && (right ==> offs[i + 1] in fl && |rest| == |fl| - 1)
      && offs[i] !in rest && HEADER !in rest && offs[i] != HEADER
    ensures left ==> i > 0 && offs[i - 1] == RemoveAt(offs, i)[i - 1] && (right ==> RemoveAt(offs, i)[i] == offs[i + 1])
    ensures left && !right ==> i < |RemoveAt(offs, i)| && RemoveAt(offs, i)[i] == offs[i + 1]
    ensures offs[i + 1] in used && (left <==> i > 0 && Free(used, offs[i - 1])) && (right <==> !used[offs[i + 1]])
  {
    Pair(l, used, offs, fl, i);
    if right {
      Pair(l, used, offs, fl, i + 1);
      RemoveAtMembers(fl, Index(fl, offs[i + 1]));
    }
    FreeRingOutside(l, used, offs, fl);
    OffsetsDistinct(l, offs);
    hide Inv;
  }

  lemma FreedListIs(fl: seq<int>, o: int, n: int, left: bool, right: bool, k: nat)
    requires k <= |RestOf(fl, n, right)|
    ensures FreedList(fl, o, n, left, right, k) == if left then RestOf(fl, n, right) else InsertAt(RestOf(fl, n, right), k, o)
  {
  }

  /** In the links after the merging, the sizes that an insertion looks at are there. */
  lemma InsertReady(l: Layout, next: Links, prev: Links, used: Flags, offs: seq<int>, fl: seq<int>, i: nat, right: bool)
    requires Inv(l, used, offs, fl) && Merges(used, offs, i, false, right) && Ring(next, prev, Unlinked(offs, i, false, right))
    ensures offs[i] in next && Size(l, next, offs[i]) >= 0
    ensures forall x :: x in RestOf(fl, offs[i + 1], right) ==> x in next
  {
    var offs', o := Unlinked(offs, i, false, right), offs[i];
    var rest := RestOf(fl, offs[i + 1], right);
    Pair(l, used, offs, fl, i);
    if right { Pair(l, used, offs, fl, i + 1); }
    assert offs'[i] == o && offs'[i + 1] == offs[if right then i + 2 else i + 1];
    RingLinks(next, prev, offs', i);
    OffsetsDistinct(l, offs);
    if right {
      RemoveAtMembers(fl, Index(fl, offs[i + 1]));
      RemoveAtMembers(offs, i + 1);
    }
    forall x | x in rest
      ensures x in next
    {
      assert x in fl && x in offs';
      RingLinks(next, prev, offs', Index(offs', x));
    }
  }

  class Heap {
    const l: Layout
    const best: bool
    const bytes: array<bv8>
    var next: Links
    var prev: Links
    var nextFree: Links
    var prevFree: Links
    var used: Flags
    var available: int
    var maxUsed: int
    ghost var offs: seq<int>
    ghost var fl: seq<int>

    ghost predicate Valid()
      reads this
    {
      && Inv(l, used, offs, fl)
      && Lists(l, next, prev, nextFree, prevFree, offs, fl)
      && available == FreeSum(l, used, offs)
      && l.pool - available <= maxUsed
      && bytes.Length == l.pool
    }

    ghost function See(): View
      reads this
    {
      View(Held(used, offs), next, prev, used, fl, available, maxUsed)
    }

    /** `rt_memheap_init`. */
    constructor (layout: Layout, best: bool)
      requires layout.Valid()
      ensures Valid() && l == layout && this.best == best && fresh(bytes)
      ensures offs == [0, l.Tail()] && fl == [0] && available == l.pool - 2 * l.header && maxUsed == 2 * l.header
    {
      l, this.best := layout, best;
      bytes := new bv8[layout.pool];
      next, prev := map[0 := layout.Tail(), layout.Tail() := 0], map[0 := layout.Tail(), layout.Tail() := 0];
      nextFree, prevFree := map[HEADER := 0, 0 := HEADER], map[HEADER := 0, 0 := HEADER];
      used := map[0 := false, layout.Tail() := true];
      available := layout.pool - 2 * layout.header;
      maxUsed := 2 * layout.header;
      offs, fl := [0, layout.Tail()], [0];
      new;
      FreshInv(l);
      assert RingAt(next, prev, offs, 0) && RingAt(next, prev, offs, 1);
      assert [HEADER] + fl == [HEADER, 0];
      assert RingAt(nextFree, prevFree, [HEADER] + fl, 0) && RingAt(nextFree, prevFree, [HEADER] + fl, 1);
    }

    // ----- links

    method UnlinkFree(o: int, ghost k: nat)
      requires Ring(nextFree, prevFree, [HEADER] + fl) && k < |fl| && fl[k] == o
      modifies this`nextFree, this`prevFree, this`fl
      ensures fl == RemoveAt(old(fl), k) && Ring(nextFree, prevFree, [HEADER] + fl)
    {
      RingRemove(nextFree, prevFree, [HEADER] + fl, k + 1);
      assert RemoveAt([HEADER] + fl, k + 1) == [HEADER] + RemoveAt(fl, k);
      hide Ring;
      var n, p := nextFree[o], prevFree[o];
      prevFree := prevFree[n := p];
      nextFree := nextFree[p := n];
      fl := RemoveAt(fl, k);
    }

    /** Behind the header of the free list. */
    method PushFree(o: int)
      requires Ring(nextFree, prevFree, [HEADER] + fl) && o != HEADER && o !in fl
      modifies this`nextFree, this`prevFree, this`fl
      ensures fl == [o] + old(fl) && Ring(nextFree, prevFree, [HEADER] + fl)
    {
      RingInsert(nextFree, prevFree, [HEADER] + fl, 0, o);
      assert InsertAt([HEADER] + fl, 1, o) == [HEADER] + ([o] + fl);
      hide Ring;
      var n := nextFree[HEADER];
      nextFree := nextFree[o := n][HEADER := o];
      prevFree := prevFree[o := HEADER][n := o];
      fl := [o] + fl;
    }

    /** Block `q` behind block `o`. */
    method LinkBlock(o: int, q: int, ghost i: nat)
      requires Ring(next, prev, offs) && i < |offs| && offs[i] == o && q !in offs
      modifies this`next, this`prev, this`offs
      ensures offs == InsertAt(old(offs), i + 1, q) && Ring(next, prev, offs)
      ensures o in old(next)
      ensures next == old(next)[q := old(next)[o]][o := q] && prev == old(prev)[q := o][old(next)[o] := q]
    {
      RingInsert(next, prev, offs, i, q);
      hide Ring;
      var n := next[o];
      next := next[q := n][o := q];
      prev := prev[q := o][n := q];
      offs := InsertAt(offs, i + 1, q);
    }

    method UnlinkBlock(o: int, ghost i: nat)
      requires Ring(next, prev, offs) && 0 < i < |offs| && offs[i] == o
      modifies this`next, this`prev, this`offs
      ensures offs == RemoveAt(old(offs), i) && Ring(next, prev, offs)
    {
      RingRemove(next, prev, offs, i);
      hide Ring;
      var n, p := next[o], prev[o];
      prev := prev[n := p];
      next := next[p := n];
      offs := RemoveAt(offs, i);
    }

    // ----- allocation

    /** The search of `rt_memheap_alloc` along the free list. */
    method Search(need: nat) returns (o: int, size: int)
      requires Valid() && need > 0
      ensures var k := FirstFit(l, next, fl, need);
        if k < |fl| then o == fl[k] && size == Size(l, next, o) >= need else size < need
    {
      FreeLink(nextFree, prevFree, fl, 0);
      o := nextFree[HEADER];
      size := 0;
      ghost var k := 0;
      FreeRingOutside(l, used, offs, fl);
      while o != HEADER && size < need
        invariant k <= |fl| && o == (if k < |fl| then fl[k] else HEADER)
        invariant forall j :: 0 <= j < k ==> Size(l, next, fl[j]) < need
        invariant size >= need ==> k < |fl| && size == Size(l, next, fl[k])
        decreases |fl| - k, need - size
      {
        FreeKnown(l, next, prev, used, offs, fl, k);
        size := next[o] - o - l.header;
        if size < need {
          FreeLink(nextFree, prevFree, fl, k + 1);
          o := nextFree[o];
          k := k + 1;
        }
      }
      assert k < |fl| ==> fl[k] in fl;
      FitIs(l, next, fl, need, k);
    }

    /** The branch of `rt_memheap_alloc` that splits a block. */
    method TakeCut(o: int, need: nat, ghost k: nat)
      requires Valid() && k < |fl| && fl[k] == o && Size(l, next, o) >= need + l.header && need > 0
      requires Aligned(need, l.align)
      modifies this
      ensures Valid()
      ensures Held(used, offs) == Held(old(used), old(offs))[o := o + l.header + need]
      ensures fl == [o + l.header + need] + RemoveAt(old(fl), k)
      ensures available == old(available) - need - l.header
      ensures maxUsed == Max(old(maxUsed), l.pool - available)
      ensures o in old(next) && used == old(used)[o + l.header + need := false][o := true]
      ensures next == old(next)[o + l.header + need := old(next)[o]][o := o + l.header + need]
      ensures prev == old(prev)[o + l.header + need := o][old(next)[o] := o + l.header + need]
    {
      FreeKnown(l, next, prev, used, offs, fl, k);
      ghost var i := Index(offs, o);
      var q := o + l.header + need;
      TakeSplit(l, used, offs, fl, i, k, need);
      hide Inv, Ring, Held, FreeSum, RemoveAt, InsertAt;
      LinkBlock(o, q, i);
      UnlinkFree(o, k);
      PushFree(q);
      available := available - need - l.header;
      if l.pool - available > maxUsed {
        maxUsed := l.pool - available;
      }
      used := used[q := false][o := true];
    }

    /** The branch of `rt_memheap_alloc` that takes a block as it is. */
    method TakeAll(o: int, size: int, ghost k: nat)
      requires Valid() && k < |fl| && fl[k] == o && Size(l, next, o) == size
      modifies this
      ensures Valid()
      ensures Held(used, offs) == Held(old(used), old(offs))[o := o + l.header + size]
      ensures fl == RemoveAt(old(fl), k) && available == old(available) - size
      ensures maxUsed == Max(old(maxUsed), l.pool - available)
      ensures used == old(used)[o := true] && next == old(next) && prev == old(prev)
    {
      FreeKnown(l, next, prev, used, offs, fl, k);
      ghost var i := Index(offs, o);
      TakeWhole(l, used, offs, fl, i, k);
      OffsetsDistinct(l, offs);
      WholeHeld(used, offs, i);
      hide Inv, Ring, Held, FreeSum, RemoveAt;
      available := available - size;
      if l.pool - available > maxUsed {
        maxUsed := l.pool - available;
      }
      UnlinkFree(o, k);
      used := used[o := true];
    }

    /** `rt_memheap_alloc`. */
    method Alloc(size: nat) returns (p: Option<int>)
      requires Valid()
      modifies this
      ensures Valid()
      ensures var need, k := Need(l, size), FirstFit(l, old(next), old(fl), Need(l, size));
        && (p.Some? <==> need < old(available) && k < |old(fl)|)
        && (p.None? ==> used == old(used) && offs == old(offs) && old(See()) == See())
        && (p.Some? ==>
              var o := old(fl)[k];
              var had := Size(l, old(next), o);
              var split := had >= need + l.header + l.minAlloc;
              && p.value == o + l.header
              && Held(used, offs) == Held(old(used), old(offs))[o := o + l.header + if split then need else had]
              && fl == (if split then [o + l.header + need] else []) + RemoveAt(old(fl), k)
              && available == old(available) - (if split then need + l.header else had)
              && maxUsed == Max(old(maxUsed), l.pool - available)
              && Relinked(l, old(See()), See(), need))
    {
      NeedFits(l, size);
      var need := Need(l, size);
      p := None;
      if need < available {
        var o, had := Search(need);
        if had >= need {
          if had >= need + l.header + l.minAlloc {
            TakeCut(o, need, FirstFit(l, next, fl, need));
          } else {
            TakeAll(o, had, FirstFit(l, next, fl, need));
          }
          p := Some(o + l.header);
        }
      }
    }

    // ----- freeing

    /** The free block before which a freed one goes: the first, or in best mode the first that is not smaller. */
    method FreePlace(o: int) returns (n: int, ghost k: nat)
      requires Ring(nextFree, prevFree, [HEADER] + fl) && HEADER !in fl
      requires o in next && Size(l, next, o) >= 0 && forall x :: x in fl ==> x in next
      ensures k == if best then FirstFit(l, next, fl, Size(l, next, o)) else 0
      ensures k <= |fl| && n == if k < |fl| then fl[k] else HEADER
    {
      k := 0;
      FreeLink(nextFree, prevFree, fl, 0);
      n := nextFree[HEADER];
      if best {
        var size: nat := next[o] - o - l.header;
        while n != HEADER
          invariant k <= |fl| && n == (if k < |fl| then fl[k] else HEADER)
          invariant forall j :: 0 <= j < k ==> Size(l, next, fl[j]) < size
          decreases |fl| - k
        {
          if size <= next[n] - n - l.header {
            break;
          }
          FreeLink(nextFree, prevFree, fl, k + 1);
          n := nextFree[n];
          k := k + 1;
        }
        assert k < |fl| ==> fl[k] in fl;
        FitIs(l, next, fl, size, k);
      }
    }

    method InsertFree(o: int) returns (ghost k: nat)
      requires Ring(nextFree, prevFree, [HEADER] + fl) && o !in fl && o != HEADER && HEADER !in fl
      requires o in next && Size(l, next, o) >= 0 && forall x :: x in fl ==> x in next
      modifies this`nextFree, this`prevFree, this`fl
      ensures k == if best then FirstFit(l, next, old(fl), Size(l, next, o)) else 0
      ensures k <= |old(fl)| && fl == InsertAt(old(fl), k, o) && Ring(nextFree, prevFree, [HEADER] + fl)
    {
      hide Ring, FirstFit, Size;
      var n;
      n, k := FreePlace(o);
      RingInsert(nextFree, prevFree, [HEADER] + fl, k, o);
      RingLinks(nextFree, prevFree, [HEADER] + fl, k);
      BackLink(nextFree, prevFree, fl, k);
      assert InsertAt([HEADER] + fl, k + 1, o) == [HEADER] + InsertAt(fl, k, o);
      var p := prevFree[n];
      nextFree := nextFree[o := n][p := o];
      prevFree := prevFree[o := p][n := o];
      fl := InsertAt(fl, k, o);
    }

    /** The first half of the merging: a freed block becomes part of its free left neighbour. */
    method MergeLeft(o: int, ghost i: nat) returns (h: int, merged: bool)
      requires Ring(next, prev, offs) && i + 1 < |offs| && offs[i] == o && o in prev && prev[o] in used
      requires i == 0 ==> used[prev[o]]
      modifies this`next, this`prev, this`offs, this`available
      ensures merged == !used[old(prev)[o]] && (merged ==> i > 0)
      ensures h == if merged then old(offs)[i - 1] else o
      ensures offs == (if merged then RemoveAt(old(offs), i) else old(offs)) && Ring(next, prev, offs)
      ensures available == old(available) + if merged then l.header else 0
    {
      RingLinks(next, prev, offs, i);
      hide Ring;
      h, merged := o, false;
      if !used[prev[o]] {
        available := available + l.header;
        h := prev[o];
        UnlinkBlock(o, i);
        merged := true;
      }
    }

    /** The second half: block `h` swallows its free right neighbour. */
    method MergeRight(h: int, ghost i: nat) returns (merged: bool)
      requires Ring(next, prev, offs) && i + 1 < |offs| && offs[i] == h && offs[i + 1] in used
      requires Ring(nextFree, prevFree, [HEADER] + fl) && (!used[offs[i + 1]] ==> offs[i + 1] in fl)
      modifies this`next, this`prev, this`offs, this`available, this`nextFree, this`prevFree, this`fl
      ensures merged == !used[old(offs)[i + 1]]
      ensures offs == (if merged then RemoveAt(old(offs), i + 1) else old(offs)) && Ring(next, prev, offs)
      ensures fl == (if merged then RemoveAt(old(fl), Index(old(fl), old(offs)[i + 1])) else old(fl))
      ensures Ring(nextFree, prevFree, [HEADER] + fl)
      ensures available == old(available) + if merged then l.header else 0
    {
      RingLinks(next, prev, offs, i);
      hide Ring;
      merged := !used[next[h]];
      if merged {
        available := available + l.header;
        var n := next[h];
        ghost var k := Index(fl, n);
        UnlinkBlock(n, i + 1);
        UnlinkFree(n, k);
      }
    }

    /** `rt_memheap_free`; block `o` has a caller. */
    method FreeBlock(o: int) returns (ghost k: nat)
      requires Valid() && o in Held(used, offs)
      modifies this
      ensures Valid() && Held(used, offs) == Held(old(used), old(offs)) - {o} && maxUsed == old(maxUsed)
      ensures var left, right := FreeAt(old(used), old(prev), o), FreeAt(old(used), old(next), o);
        && available == old(available) + Size(l, old(next), o) + (if left then l.header else 0) + (if right then l.header else 0)
        && fl == FreedList(old(fl), o, Neighbour(old(next), o), left, right, k)
        && k == if best && !left then FirstFit(l, next, RestOf(old(fl), Neighbour(old(next), o), right), Max(Size(l, next, o), 0)) else 0
    {
      hide Inv, Ring, Held, FreeSum, RemoveAt, InsertAt, FreedList, Merges, Unlinked;
      ghost var i, left, right := FreeReady(l, next, prev, used, offs, fl, o);
      ghost var flags, blocks, frees := used, offs, fl;
      used := used[o := false];
      available := available + next[o] - o - l.header;
      k := Merge(o, flags, i, left, right);
      FreeStep(l, flags, blocks, frees, i, left, right, k);
    }

    /** The merging of a freed block with its free neighbours. */
    method MergeBoth(o: int, ghost flags: Flags, ghost i: nat, ghost left: bool, ghost right: bool) returns (merged: bool)
      requires Inv(l, flags, offs, fl) && used == flags[o := false] && Merges(flags, offs, i, left, right) && offs[i] == o
      requires Lists(l, next, prev, nextFree, prevFree, offs, fl) && o in prev && prev[o] in flags
      requires prev[o] == offs[if i == 0 then |offs| - 1 else i - 1] != o
      modifies this`next, this`prev, this`offs, this`available, this`nextFree, this`prevFree, this`fl
      ensures merged == left
      ensures offs == Unlinked(old(offs), i, left, right) && fl == RestOf(old(fl), old(offs)[i + 1], right)
      ensures Lists(l, next, prev, nextFree, prevFree, offs, fl)
      ensures available == old(available) + (if left then l.header else 0) + (if right then l.header else 0)
    {
      FreeAfter(l, flags, offs, fl, i, left, right);
      assert i == 0 ==> flags[prev[o]];
      hide Inv, Ring, RemoveAt, InsertAt, FreedList, Merges;
      var h;
      h, merged := MergeLeft(o, i);
      var mergedRight := MergeRight(h, if left then i - 1 else i);
    }

    /** The merging, and the insertion of a block that has not gone to its left neighbour. */
    method Merge(o: int, ghost flags: Flags, ghost i: nat, ghost left: bool, ghost right: bool) returns (ghost k: nat)
      requires Inv(l, flags, offs, fl) && used == flags[o := false] && Merges(flags, offs, i, left, right) && offs[i] == o
      requires Lists(l, next, prev, nextFree, prevFree, offs, fl) && o in prev && prev[o] in flags
      requires prev[o] == offs[if i == 0 then |offs| - 1 else i - 1] != o
      modifies this`next, this`prev, this`offs, this`available, this`nextFree, this`prevFree, this`fl
      ensures offs == Unlinked(old(offs), i, left, right) && fl == FreedList(old(fl), o, old(offs)[i + 1], left, right, k)
      ensures Lists(l, next, prev, nextFree, prevFree, offs, fl)
      ensures available == old(available) + (if left then l.header else 0) + (if right then l.header else 0)
      ensures k <= if right then |old(fl)| - 1 else |old(fl)|
      ensures k == if best && !left then FirstFit(l, next, RestOf(old(fl), old(offs)[i + 1], right), Max(Size(l, next, o), 0)) else 0
    {
      FreeAfter(l, flags, offs, fl, i, left, right);
      hide Inv, Ring, RemoveAt, InsertAt, FreedList, Merges, RestOf, Unlinked;
      ghost var blocks, frees := offs, fl;
      k := 0;
      var merged := MergeBoth(o, flags, i, left, right);
      if !merged {
        InsertReady(l, next, prev, flags, blocks, frees, i, right);
        k := InsertFree(o);
      }
      FreedListIs(frees, o, blocks[i + 1], left, right, k);
    }

    // ----- reallocation

    /** Growth into the free block behind, which starts later by as much. */
    method Grow(o: int, need: nat, ghost i: nat, ghost k: nat)
      requires Valid() && i + 2 < |offs| && offs[i] == o && !Free(used, o) && o in Held(used, offs)
      requires k < |fl| && fl[k] == offs[i + 1] && Free(used, offs[i + 1])
      requires need > Size(l, next, o) && Aligned(need, l.align) && o + l.header + need + l.header <= offs[i + 2]
      modifies this
      ensures Valid() && Held(used, offs) == Held(old(used), old(offs))[o := o + l.header + need]
      ensures fl == [o + l.header + need] + RemoveAt(old(fl), k)
      ensures available == old(available) - (need - Size(l, old(next), o)) && maxUsed == Max(old(maxUsed), l.pool - available)
    {
      hide Inv, Ring, Held, FreeSum, RemoveAt, InsertAt;
      QAligned(l, used, offs, fl, i, need);
      var q: nat := o + l.header + need;
      Known(l, next, prev, used, offs, fl, i);
      MoveStep(l, used, offs, fl, i, q, k);
      var n, size := next[o], next[o] - o - l.header;
      available := available - (need - size);
      if l.pool - available > maxUsed {
        maxUsed := l.pool - available;
      }
      UnlinkFree(n, k);
      UnlinkBlock(n, i + 1);
      used := used[q := false];
      LinkBlock(o, q, i);
      PushFree(q);
    }

    /** The new free block `h` of a shrink swallows the free block behind it, whose bytes are counted anew later. */
    method Swallow(h: int, ghost i: nat)
      requires Ring(next, prev, offs) && i + 2 < |offs| && offs[i] == h && offs[i + 1] in used
      requires Ring(nextFree, prevFree, [HEADER] + fl) && !used[offs[i + 1]] && offs[i + 1] in fl
      modifies this`next, this`prev, this`offs, this`available, this`nextFree, this`prevFree, this`fl
      ensures offs == RemoveAt(old(offs), i + 1) && Ring(next, prev, offs)
      ensures fl == RemoveAt(old(fl), Index(old(fl), old(offs)[i + 1])) && Ring(nextFree, prevFree, [HEADER] + fl)
      ensures available == old(available) - (old(offs)[i + 2] - old(offs)[i + 1] - l.header)
    {
      RingLinks(next, prev, offs, i);
      RingLinks(next, prev, offs, i + 1);
      hide Ring, RemoveAt;
      var n := next[h];
      ghost var k := Index(fl, n);
      available := available - (next[n] - n - l.header);
      UnlinkBlock(n, i + 1);
      UnlinkFree(n, k);
    }

    /** The rest of a shrunk block becomes free, alone or with the free block behind it. */
    method Shrink(o: int, need: nat, ghost i: nat)
      requires Valid() && i + 1 < |offs| && offs[i] == o && !Free(used, o) && o in Held(used, offs)
      requires need > 0 && Aligned(need, l.align) && o + l.header + need + l.header < offs[i + 1]
      modifies this
      ensures Valid() && Held(used, offs) == Held(old(used), old(offs))[o := o + l.header + need]
      ensures fl == [o + l.header + need] + RestOf(old(fl), old(offs)[i + 1], Free(old(used), old(offs)[i + 1]))
      ensures maxUsed == old(maxUsed)
      ensures available == old(available) + Size(l, old(next), o) - need
                           - if Free(old(used), old(offs)[i + 1]) then 0 else l.header
    {
      hide Inv, Ring, Held, FreeSum, RemoveAt, InsertAt;
      QAligned(l, used, offs, fl, i, need);
      var q: nat := o + l.header + need;
      Known(l, next, prev, used, offs, fl, i);
      ghost var flags, blocks, frees, right := used, offs, fl, Free(used, offs[i + 1]);
      ShrinkStep(l, used, offs, fl, i, q);
      ShrinkPlaces(offs, i, q);
      LinkBlock(o, q, i);
      used := used[q := false];
      RingLinks(next, prev, offs, i + 1);
      if !used[next[q]] {
        Swallow(q, i + 1);
      }
      PushFree(q);
      RingLinks(next, prev, offs, i + 1);
      available := available + next[q] - q - l.header;
    }

    /** `rt_memheap_realloc` of a block for a request of `need` bytes. */
    method Resize(o: int, need: nat) returns (r: Option<int>)
      requires Valid() && o in Held(used, offs) && need == Need(l, need)
      modifies this, bytes
      ensures Valid()
      ensures Resized(l, old(See()), See(), o, need, r)
      ensures if r.Some? && BranchFor(l, old(See()), o, need) == Relocate
              then Copied(old(bytes[..]), bytes[..], r.value, o + l.header, Size(l, old(next), o))
              else bytes[..] == old(bytes[..])
    {
      hide Gaps, Merged, FreeList, Flagged, Lists, Held, FreeSum, Moved, Copied;
      NeedFits(l, need);
      HeldReady(o);
      ghost var i := Index(offs, o);
      var had := next[o] - o - l.header;
      if need > had {
        var n := next[o];
        if !used[n] && next[n] - n - l.header + had > need + l.minAlloc {
          Grow(o, need, i, Index(fl, n));
          return Some(o + l.header);
        }
        r := Move(o, need, had);
        return;
      }
      if need + l.header + l.minAlloc < had {
        Shrink(o, need, i);
      }
      r := Some(o + l.header);
    }

    /** The moving branch of `rt_memheap_realloc`. */
    method Move(o: int, need: nat, had: nat) returns (r: Option<int>)
      requires Valid() && o in Held(used, offs) && need == Need(l, need) && had == Size(l, next, o) < need
      modifies this, bytes
      ensures Valid()
      ensures Moved(l, old(See()), See(), o, need, r)
      ensures if r.Some? then Copied(old(bytes[..]), bytes[..], r.value, o + l.header, had) else bytes[..] == old(bytes[..])
    {
      hide Inv, Lists, Ring, Held, FreeSum, FirstFit, Size, Relinked, Splits, Copied, FreeAt, FreeBefore, FreeBehind, FreedList, RestOf, Cost, GrantEnd, GrantAt, Allocated, Moved, Need;
      ghost var v, blocks := See(), offs;
      Parts();
      r := AllocHeld(need);
      if r.Some? {
        ghost var u := See();
        AllocatedGrants(l, v, u, need, r);
        NeighboursAfter(l, v, u, blocks, need, o);
        HeldApart(o, r.value - l.header);
        CopyBytes(bytes, r.value, o + l.header, had);
        ghost var k := FreeBlock(o);
        MovedIs(l, v, u, See(), o, need, r);
      } else {
        MovedNot(l, v, See(), o, need);
      }
    }

    lemma Parts()
      requires Valid()
      ensures Inv(l, used, offs, fl) && Ring(next, prev, offs) && bytes.Length == l.pool
      ensures forall n: nat :: Need(l, n) > 0
    {
      forall n: nat
        ensures Need(l, n) > 0
      {
        NeedFits(l, n);
      }
    }

    /** `rt_memheap_realloc`. */
    method Realloc(p: Option<int>, size: nat) returns (r: Option<int>)
      requires Valid() && (p.Some? ==> p.value - l.header in Held(used, offs))
      modifies this, bytes
      ensures Valid()
      ensures size == 0 ==> r == None && maxUsed == old(maxUsed) && Held(used, offs) == if p.None? then Held(old(used), old(offs)) else Held(old(used), old(offs)) - {p.value - l.header}
      ensures size > 0 && p.None? ==> Allocated(l, old(See()), See(), Need(l, size), r)
      ensures size > 0 && p.Some? ==> Resized(l, old(See()), See(), p.value - l.header, Need(l, size), r)
      ensures if size > 0 && p.Some? && r.Some? && BranchFor(l, old(See()), p.value - l.header, Need(l, size)) == Relocate
              then Copied(old(bytes[..]), bytes[..], r.value, p.value, Size(l, old(next), p.value - l.header))
              else bytes[..] == old(bytes[..])
    {
      hide Gaps, Merged, FreeList, Flagged, Lists, Held, FreeSum, Resized, Allocated, Copied, BranchFor;
      NeedFits(l, size);
      if size == 0 {
        if p.Some? {
          ghost var k := FreeBlock(p.value - l.header);
        }
        r := None;
      } else if p == None {
        r := AllocHeld(Need(l, size));
      } else {
        r := Resize(p.value - l.header, Need(l, size));
      }
    }

    /** An allocation, as its caller sees it. */
    method AllocHeld(size: nat) returns (p: Option<int>)
      requires Valid()
      modifies this
      ensures Valid()
      ensures Allocated(l, old(See()), See(), Need(l, size), p)
      ensures p.Some? ==> Relinked(l, old(See()), See(), Need(l, size))
      ensures p.Some? ==>
        var q, held := p.value - l.header, old(Held(used, offs));
        && q !in held && q in Held(used, offs) && p.value + Need(l, size) <= Held(used, offs)[q]
        && forall b :: b in held ==> b in Held(used, offs) && Held(used, offs)[b] == held[b]
    {
      FreeNotHeld();
      assert l.align > 0;
      hide Inv, Lists, Held, FreeSum, FirstFit, Size, Allocated, RemoveAt, Relinked;
      ghost var v := See();
      p := Alloc(size);
      AllocatedIs(l, v, See(), Need(l, size), p);
    }

    /** Two blocks that are held do not overlap. */
    lemma HeldApart(a: int, b: int)
      requires Valid() && a in Held(used, offs) && b in Held(used, offs) && a != b
      ensures 0 <= a && a + l.header <= Held(used, offs)[a] <= l.pool && Held(used, offs)[a] == a + l.header + Size(l, next, a)
      ensures 0 <= b && b + l.header <= Held(used, offs)[b] <= l.pool
      ensures Held(used, offs)[a] <= b || Held(used, offs)[b] <= a
    {
      var i, _, _ := FreeReady(l, next, prev, used, offs, fl, a);
      var j, _, _ := FreeReady(l, next, prev, used, offs, fl, b);
      BlocksDisjoint(l, used, offs, fl, if i < j then i else j, if i < j then j else i);
      hide Held;
    }

    lemma FreeNotHeld()
      requires Valid()
      ensures forall k :: 0 <= k < |fl| ==> fl[k] !in Held(used, offs)
    {
      OffsetsDistinct(l, offs);
      HeldIs(used, offs);
      assert forall k :: 0 <= k < |fl| ==> fl[k] in fl && Free(used, fl[k]);
    }

    /** A held block among its neighbours. */
    lemma HeldReady(o: int)
      requires Valid() && o in Held(used, offs)
      ensures o in offs && !Free(used, o) && o in next && next[o] in used && Size(l, next, o) >= 0
      ensures Index(offs, o) + 1 < |offs| && offs[Index(offs, o) + 1] == next[o]
      ensures Free(used, next[o]) ==>
        Index(offs, o) + 2 < |offs| && next[o] in fl && next[o] in next && next[next[o]] == offs[Index(offs, o) + 2]
    {
      var i, left, right := FreeReady(l, next, prev, used, offs, fl, o);
      OffsetsDistinct(l, offs);
      assert Index(offs, o) == i;
      if right {
        assert offs[i + 1] in offs;
        NotTail(l, used, offs, fl, offs[i + 1]);
        assert Index(offs, offs[i + 1]) == i + 1;
        Known(l, next, prev, used, offs, fl, i + 1);
      }
    }
  }

  /** A fresh heap refuses a request for all that is free, although its one free block has the room. */
  method FreshHeapRefusesAll(layout: Layout, best: bool, size: nat) returns (h: Heap, p: Option<int>)
    requires layout.Valid() && Need(layout, size) == layout.Tail() - layout.header
    ensures fresh(h) && h.Valid() && h.fl == [0] && Size(layout, h.next, 0) == Need(layout, size) == h.available
    ensures p == None
  {
    h := new Heap(layout, best);
    Known(layout, h.next, h.prev, h.used, h.offs, h.fl, 0);
    p := h.Alloc(size);
  }
}
