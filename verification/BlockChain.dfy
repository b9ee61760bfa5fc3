/**
 The small-memory heap (src/mem.c): a first-fit allocator whose block headers
 are chained in the pool they describe. Addresses are offsets from `heap_ptr`.

 The history variable `offs` lists the offsets of the blocks, the sentinel at
 `heap_end` last. `Live` is what callers hold. Because free blocks are always
 merged, the blocks are a function of the live ones (`LiveDeterminesBlocks`), so
 the contracts speak of `Live` only.
 */
module BlockChain {
  import opened Wrappers
  import opened Arithmetic
  import opened Sequences

  /**
   The constants of a build: RT_ALIGN_SIZE, SIZEOF_STRUCT_MEM, MIN_SIZE (three
   words), and `mem_size_aligned` of the pool.
   */
  datatype Layout = Layout(align: nat, header: nat, minSize: nat, size: nat) {
    ghost predicate Valid() {
      align > 0 && header > 0 && Aligned(header, align) && Aligned(size, align)
    }

    function End(): nat {
      size + header
    }

    function MinAligned(): nat
      requires align > 0
    {
      RoundUp(minSize, align)
    }
  }

  datatype Item = Item(next: nat, prev: nat, used: bool)

  type Headers = map<nat, Item>

  // ----- the chain of blocks

  ghost predicate Ascending(offs: seq<nat>) {
    forall i, j :: 0 <= i < j < |offs| ==> offs[i] < offs[j]
  }

  /** Block `i` ends where block `i + 1` starts, and block `i + 1` points back, unless it is the sentinel. */
  ghost predicate LinkAt(l: Layout, hdr: Headers, offs: seq<nat>, i: nat)
    requires i + 1 < |offs|
  {
    && offs[i] in hdr && offs[i + 1] in hdr
    && hdr[offs[i]].next == offs[i + 1]
    && offs[i] + l.header <= offs[i + 1]
    && (i + 2 < |offs| ==> hdr[offs[i + 1]].prev == offs[i])
  }

  /** The blocks tile the pool, from 0 to the used, empty sentinel at the end. */
  ghost predicate Chained(l: Layout, hdr: Headers, offs: seq<nat>) {
    && l.Valid()
    && |offs| >= 2 && offs[0] == 0 && offs[|offs| - 1] == l.End()
    && Ascending(offs)
    && (forall i {:trigger LinkAt(l, hdr, offs, i)} :: 0 <= i < |offs| - 1 ==> LinkAt(l, hdr, offs, i))
    && (forall i :: 0 <= i < |offs| ==> offs[i] in hdr && Aligned(offs[i], l.align))
    && hdr[0].prev == 0
    && hdr[l.End()].next == l.End() && hdr[l.End()].used
  }

  ghost predicate NotBothFree(hdr: Headers, offs: seq<nat>, i: nat)
    requires i + 1 < |offs|
  {
    offs[i] in hdr && offs[i + 1] in hdr && (hdr[offs[i]].used || hdr[offs[i + 1]].used)
  }

  /** No block and its successor are both free, but for the blocks in `skip`. */
  ghost predicate Merged(hdr: Headers, offs: seq<nat>, skip: set<int>) {
    forall i {:trigger NotBothFree(hdr, offs, i)} :: 0 <= i < |offs| - 1 && i !in skip ==> NotBothFree(hdr, offs, i)
  }

  ghost predicate LowestFree(l: Layout, hdr: Headers, offs: seq<nat>, lfree: nat) {
    && lfree in offs
    && (forall o :: o in offs && o in hdr && o < lfree ==> hdr[o].used)
    && (lfree == l.End() || (lfree in hdr && !hdr[lfree].used))
  }

  function Extent(hdr: Headers, o: nat): int {
    if o in hdr && hdr[o].used then hdr[o].next - o else 0
  }

  /** The extents of the used blocks; the sentinel has none. */
  ghost function UsedSum(hdr: Headers, offs: seq<nat>): int {
    if offs == [] then 0 else Extent(hdr, offs[0]) + UsedSum(hdr, offs[1..])
  }

  /** The blocks callers hold, by offset of their header, with their ends. */
  ghost function Live(l: Layout, hdr: Headers, offs: seq<nat>): map<nat, nat> {
    map o | o in offs && o in hdr && o != l.End() && hdr[o].used :: hdr[o].next
  }

  ghost predicate Inv(l: Layout, hdr: Headers, offs: seq<nat>, lfree: nat, used: int) {
    && Chained(l, hdr, offs)
    && Merged(hdr, offs, {})
    && LowestFree(l, hdr, offs, lfree)
    && used == UsedSum(hdr, offs)
  }

  /** Block `i` is free and has room for `need` bytes. */
  ghost predicate Fits(l: Layout, hdr: Headers, offs: seq<nat>, i: nat, need: nat)
    requires i + 1 < |offs|
  {
    offs[i] in hdr && !hdr[offs[i]].used && offs[i + 1] - offs[i] - l.header >= need
  }

  // ----- sums

  lemma {:induction false} SumAppend(hdr: Headers, a: seq<nat>, b: seq<nat>)
    ensures UsedSum(hdr, a + b) == UsedSum(hdr, a) + UsedSum(hdr, b)
  {
    if a == [] {
      assert a + b == b;
    } else {
      assert (a + b)[1..] == a[1..] + b;
      SumAppend(hdr, a[1..], b);
    }
  }

  lemma SumPair(hdr: Headers, a: nat, b: nat)
    ensures UsedSum(hdr, [a, b]) == Extent(hdr, a) + Extent(hdr, b)
  {
    assert [a, b][1..] == [b];
    assert [b][1..] == [];
    assert UsedSum(hdr, [b]) == Extent(hdr, b) + UsedSum(hdr, []);
  }

  lemma {:induction false} SumFrame(hdr: Headers, hdr': Headers, a: seq<nat>)
    requires forall o :: o in a ==> Extent(hdr', o) == Extent(hdr, o)
    ensures UsedSum(hdr', a) == UsedSum(hdr, a)
  {
    if a != [] {
      SumFrame(hdr, hdr', a[1..]);
    }
  }

  /** A change confined to block `i` changes the sum by the change of its extent. */
  lemma SumChange(hdr: Headers, hdr': Headers, offs: seq<nat>, i: nat)
    requires i < |offs|
    requires forall j :: 0 <= j < |offs| && j != i ==> Extent(hdr', offs[j]) == Extent(hdr, offs[j])
    ensures UsedSum(hdr', offs) == UsedSum(hdr, offs) - Extent(hdr, offs[i]) + Extent(hdr', offs[i])
  {
    var a, b := offs[..i], offs[i + 1..];
    assert offs == a + ([offs[i]] + b);
    SumAppend(hdr, a, [offs[i]] + b);
    SumAppend(hdr', a, [offs[i]] + b);
    SumAppend(hdr, [offs[i]], b);
    SumAppend(hdr', [offs[i]], b);
    assert UsedSum(hdr, [offs[i]]) == Extent(hdr, offs[i]) by { assert [offs[i]][1..] == []; }
    assert UsedSum(hdr', [offs[i]]) == Extent(hdr', offs[i]) by { assert [offs[i]][1..] == []; }
    SumFrame(hdr, hdr', a);
    SumFrame(hdr, hdr', b);
  }

  /** A free block more or less in the list does not matter. */
  lemma SumRemove(hdr: Headers, offs: seq<nat>, i: nat)
    requires i < |offs| && Extent(hdr, offs[i]) == 0
    ensures UsedSum(hdr, offs[..i] + offs[i + 1..]) == UsedSum(hdr, offs)
  {
    var a, b := offs[..i], offs[i + 1..];
    assert offs == a + ([offs[i]] + b);
    SumAppend(hdr, a, [offs[i]] + b);
    SumAppend(hdr, [offs[i]], b);
    assert UsedSum(hdr, [offs[i]]) == 0 by { assert [offs[i]][1..] == []; }
    SumAppend(hdr, a, b);
  }

  // ----- splitting and merging

  /** The headers after block `o` has been cut at `q`, the rest becoming a free block. */
  function Cut(hdr: Headers, o: nat, q: nat, end: nat): Headers
    requires o in hdr && hdr[o].next in hdr
  {
    var n := hdr[o].next;
    var hdr' := hdr[q := Item(n, o, false)][o := hdr[o].(next := q)];
    if n != end && n in hdr' then hdr'[n := hdr'[n].(prev := q)] else hdr'
  }

  /** The headers after block `o` has swallowed its successor. */
  function Absorb(hdr: Headers, o: nat): Headers
    requires o in hdr && hdr[o].next in hdr && hdr[hdr[o].next].next in hdr
  {
    var nn := hdr[hdr[o].next].next;
    var hdr' := hdr[o := hdr[o].(next := nn)];
    hdr'[nn := hdr'[nn].(prev := o)]
  }

  ghost predicate CanCut(l: Layout, hdr: Headers, offs: seq<nat>, i: nat, q: nat) {
    && Chained(l, hdr, offs) && i + 1 < |offs| && Aligned(q, l.align)
    && offs[i] + l.header <= q && q + l.header <= offs[i + 1]
    && offs[i] in hdr && hdr[offs[i]].next == offs[i + 1] && offs[i + 1] in hdr
  }

  lemma CutItems(l: Layout, hdr: Headers, offs: seq<nat>, i: nat, q: nat)
    requires CanCut(l, hdr, offs, i, q)
    ensures var hdr' := Cut(hdr, offs[i], q, l.End());
      && q !in offs && q in hdr' && hdr'[q] == Item(offs[i + 1], offs[i], false)
      && hdr'[offs[i]] == hdr[offs[i]].(next := q)
      && (forall j :: 0 <= j < |offs| && j != i && j != i + 1 ==> offs[j] in hdr' && hdr'[offs[j]] == hdr[offs[j]])
      && hdr'[offs[i + 1]] == if i + 2 < |offs| then hdr[offs[i + 1]].(prev := q) else hdr[offs[i + 1]]
  {
    forall j | 0 <= j < |offs|
      ensures offs[j] != q
    {
      assert j < i ==> offs[j] < offs[i];
      assert j > i + 1 ==> offs[i + 1] < offs[j];
    }
  }

  lemma CutLink(l: Layout, hdr: Headers, offs: seq<nat>, i: nat, q: nat, j: nat)
    requires CanCut(l, hdr, offs, i, q) && j < |offs|
    ensures LinkAt(l, Cut(hdr, offs[i], q, l.End()), InsertAt(offs, i + 1, q), j)
  {
    CutItems(l, hdr, offs, i, q);
    if j <= i {
      assert LinkAt(l, hdr, offs, j);
      assert j > 0 ==> LinkAt(l, hdr, offs, j - 1);
    } else {
      assert LinkAt(l, hdr, offs, j - 1);
    }
  }

  lemma InsertAscending(offs: seq<nat>, k: nat, q: nat)
    requires Ascending(offs) && 0 < k < |offs| && offs[k - 1] < q < offs[k]
    ensures Ascending(InsertAt(offs, k, q))
  {
  }

  lemma RemoveAscending(offs: seq<nat>, k: nat)
    requires Ascending(offs) && k < |offs|
    ensures Ascending(RemoveAt(offs, k))
  {
  }

  lemma CutChained(l: Layout, hdr: Headers, offs: seq<nat>, i: nat, q: nat)
    requires CanCut(l, hdr, offs, i, q)
    ensures Chained(l, Cut(hdr, offs[i], q, l.End()), InsertAt(offs, i + 1, q))
  {
    var hdr', offs' := Cut(hdr, offs[i], q, l.End()), InsertAt(offs, i + 1, q);
    CutItems(l, hdr, offs, i, q);
    InsertAscending(offs, i + 1, q);
    hide Ascending, Aligned;
    forall j | 0 <= j < |offs'| - 1
      ensures LinkAt(l, hdr', offs', j)
    {
      CutLink(l, hdr, offs, i, q, j);
    }
    forall j | 0 <= j < |offs'|
      ensures offs'[j] in hdr' && Aligned(offs'[j], l.align)
    {
      assert j != i + 1 ==> offs'[j] == offs[if j <= i then j else j - 1];
    }
  }

  lemma RemovedOffsets(offs: seq<nat>, k: nat)
    requires k < |offs| && Ascending(offs)
    ensures forall x :: x in RemoveAt(offs, k) <==> x in offs && x != offs[k]
  {
    assert Distinct(offs);
    RemoveAtMembers(offs, k);
  }

  /** Cutting a used block shortens what its holder has. */
  lemma CutLive(l: Layout, hdr: Headers, offs: seq<nat>, i: nat, q: nat)
    requires CanCut(l, hdr, offs, i, q)
    ensures var live := Live(l, hdr, offs);
      Live(l, Cut(hdr, offs[i], q, l.End()), InsertAt(offs, i + 1, q))
      == if hdr[offs[i]].used then live[offs[i] := q] else live
  {
    CutItems(l, hdr, offs, i, q);
    InsertAtMembers(offs, i + 1, q);
    CutOthers(l, hdr, offs, i, q);
  }

  lemma CutOthers(l: Layout, hdr: Headers, offs: seq<nat>, i: nat, q: nat)
    requires CanCut(l, hdr, offs, i, q)
    ensures var hdr' := Cut(hdr, offs[i], q, l.End());
      forall o :: o in offs ==>
        o in hdr && o in hdr' && hdr'[o].used == hdr[o].used && (o != offs[i] ==> hdr'[o].next == hdr[o].next)
  {
    var hdr' := Cut(hdr, offs[i], q, l.End());
    CutItems(l, hdr, offs, i, q);
    forall o | o in offs
      ensures o in hdr && o in hdr' && hdr'[o].used == hdr[o].used && (o != offs[i] ==> hdr'[o].next == hdr[o].next)
    {
      var j :| 0 <= j < |offs| && offs[j] == o;
    }
  }

  lemma SumInsert(hdr: Headers, hdr': Headers, offs: seq<nat>, i: nat, q: nat)
    requires i < |offs| && Extent(hdr', q) == 0
    requires forall j :: 0 <= j < |offs| && j != i ==> Extent(hdr', offs[j]) == Extent(hdr, offs[j])
    ensures UsedSum(hdr', InsertAt(offs, i + 1, q))
            == UsedSum(hdr, offs) - Extent(hdr, offs[i]) + Extent(hdr', offs[i])
  {
    var offs' := InsertAt(offs, i + 1, q);
    SumChange(hdr, hdr', offs, i);
    SumRemove(hdr', offs', i + 1);
    assert offs'[..i + 1] + offs'[i + 1 + 1..] == offs;
  }

  lemma CutSum(l: Layout, hdr: Headers, offs: seq<nat>, i: nat, q: nat)
    requires CanCut(l, hdr, offs, i, q)
    ensures UsedSum(Cut(hdr, offs[i], q, l.End()), InsertAt(offs, i + 1, q))
            == UsedSum(hdr, offs) - if hdr[offs[i]].used then offs[i + 1] - q else 0
  {
    var hdr' := Cut(hdr, offs[i], q, l.End());
    CutItems(l, hdr, offs, i, q);
    CutOthers(l, hdr, offs, i, q);
    forall j | 0 <= j < |offs| && j != i
      ensures Extent(hdr', offs[j]) == Extent(hdr, offs[j])
    {
      assert offs[j] != offs[i];
    }
    SumInsert(hdr, hdr', offs, i, q);
  }

  ghost predicate CanAbsorb(l: Layout, hdr: Headers, offs: seq<nat>, i: nat) {
    && Chained(l, hdr, offs) && i + 2 < |offs|
    && offs[i] in hdr && hdr[offs[i]].next == offs[i + 1]
    && offs[i + 1] in hdr && hdr[offs[i + 1]].next == offs[i + 2]
    && offs[i + 2] in hdr
  }

  lemma AbsorbItems(l: Layout, hdr: Headers, offs: seq<nat>, i: nat)
    requires CanAbsorb(l, hdr, offs, i)
    ensures var hdr' := Absorb(hdr, offs[i]);
      && hdr'[offs[i]] == hdr[offs[i]].(next := offs[i + 2])
      && hdr'[offs[i + 2]] == hdr[offs[i + 2]].(prev := offs[i])
      && (forall j :: 0 <= j < |offs| && j != i && j != i + 2 ==> offs[j] in hdr' && hdr'[offs[j]] == hdr[offs[j]])
      && (forall o :: o in offs ==> o in hdr && o in hdr' && hdr'[o].used == hdr[o].used
                                    && (o != offs[i] ==> hdr'[o].next == hdr[o].next))
  {
    assert offs[i] < offs[i + 2];
  }

  lemma AbsorbLink(l: Layout, hdr: Headers, offs: seq<nat>, i: nat, j: nat)
    requires CanAbsorb(l, hdr, offs, i) && j < |offs| - 2
    ensures LinkAt(l, Absorb(hdr, offs[i]), RemoveAt(offs, i + 1), j)
  {
    hide Ascending, Aligned;
    AbsorbItems(l, hdr, offs, i);
    var offs' := RemoveAt(offs, i + 1);
    assert offs'[j] == offs[if j <= i then j else j + 1] && offs'[j + 1] == offs[if j < i then j + 1 else j + 2];
    assert LinkAt(l, hdr, offs, j + 1);
    assert LinkAt(l, hdr, offs, j);
  }

  lemma AbsorbChained(l: Layout, hdr: Headers, offs: seq<nat>, i: nat)
    requires CanAbsorb(l, hdr, offs, i)
    ensures Chained(l, Absorb(hdr, offs[i]), RemoveAt(offs, i + 1))
  {
    var hdr', offs' := Absorb(hdr, offs[i]), RemoveAt(offs, i + 1);
    AbsorbItems(l, hdr, offs, i);
    RemoveAscending(offs, i + 1);
    hide Ascending, Aligned;
    forall j | 0 <= j < |offs'| - 1
      ensures LinkAt(l, hdr', offs', j)
    {
      AbsorbLink(l, hdr, offs, i, j);
    }
    forall j | 0 <= j < |offs'|
      ensures offs'[j] in hdr' && Aligned(offs'[j], l.align)
    {
      assert offs'[j] == offs[if j <= i then j else j + 1];
    }
  }

  /** Merging two free blocks changes nothing for the holders of the others. */
  lemma AbsorbLive(l: Layout, hdr: Headers, offs: seq<nat>, i: nat)
    requires CanAbsorb(l, hdr, offs, i) && !hdr[offs[i]].used && !hdr[offs[i + 1]].used
    ensures Live(l, Absorb(hdr, offs[i]), RemoveAt(offs, i + 1)) == Live(l, hdr, offs)
    ensures UsedSum(Absorb(hdr, offs[i]), RemoveAt(offs, i + 1)) == UsedSum(hdr, offs)
  {
    var hdr', offs' := Absorb(hdr, offs[i]), RemoveAt(offs, i + 1);
    AbsorbItems(l, hdr, offs, i);
    RemovedOffsets(offs, i + 1);
    forall o | o in offs
      ensures Extent(hdr', o) == Extent(hdr, o)
    {
    }
    SumFrame(hdr, hdr', offs);
    SumRemove(hdr', offs, i + 1);
  }

  // ----- taking a free block, giving a used one back

  function Mark(hdr: Headers, o: nat, used: bool): Headers
    requires o in hdr
  {
    hdr[o := hdr[o].(used := used)]
  }

  lemma MarkChained(l: Layout, hdr: Headers, offs: seq<nat>, i: nat, used: bool)
    requires Chained(l, hdr, offs) && i + 1 < |offs| && offs[i] in hdr
    ensures Chained(l, Mark(hdr, offs[i], used), offs)
  {
    var hdr' := Mark(hdr, offs[i], used);
    assert offs[i] < offs[|offs| - 1];
    forall j | 0 <= j < |offs| - 1
      ensures LinkAt(l, hdr', offs, j)
    {
      assert LinkAt(l, hdr, offs, j);
    }
  }

  lemma MarkLive(l: Layout, hdr: Headers, offs: seq<nat>, i: nat, used: bool)
    requires Chained(l, hdr, offs) && i + 1 < |offs| && offs[i] in hdr
    ensures Live(l, Mark(hdr, offs[i], used), offs)
            == if used then Live(l, hdr, offs)[offs[i] := hdr[offs[i]].next] else Live(l, hdr, offs) - {offs[i]}
  {
    assert offs[i] < offs[|offs| - 1];
  }

  lemma MarkSum(l: Layout, hdr: Headers, offs: seq<nat>, i: nat, used: bool)
    requires Chained(l, hdr, offs) && i + 1 < |offs| && offs[i] in hdr
    ensures hdr[offs[i]].used != used ==>
      UsedSum(Mark(hdr, offs[i], used), offs)
      == if used then UsedSum(hdr, offs) + offs[i + 1] - offs[i] else UsedSum(hdr, offs) - offs[i + 1] + offs[i]
  {
    assert LinkAt(l, hdr, offs, i);
    SumChange(hdr, Mark(hdr, offs[i], used), offs, i);
  }

  /** Where an allocation of `need` bytes in the free block from `o` to `e` ends: the rest is split off if it can hold a block. */
  function EndAfter(l: Layout, o: nat, e: nat, need: nat): nat
    requires l.align > 0
  {
    if e - o - l.header >= need + l.header + l.MinAligned() then o + l.header + need else e
  }

  /** All of the block is taken unless what is behind the request has room for a header and a smallest block. */
  lemma EndAfterIs(l: Layout, o: nat, e: nat, need: nat)
    requires l.align > 0 && o + l.header + need <= e
    ensures var end, cut := EndAfter(l, o, e, need), o + l.header + need;
      && (end == cut || end == e)
      && (end < e <==> e - cut >= l.header + l.MinAligned() && e > cut)
  {
  }

  ghost predicate CanTake(l: Layout, hdr: Headers, offs: seq<nat>, lfree: nat, i: nat, need: nat) {
    && Chained(l, hdr, offs) && Merged(hdr, offs, {}) && LowestFree(l, hdr, offs, lfree)
    && i + 1 < |offs| && Fits(l, hdr, offs, i, need) && Aligned(need, l.align)
    && hdr[offs[i]].next == offs[i + 1] && offs[i + 1] in hdr
  }

  /** The chain after `need` bytes have been taken from block `i`. */
  ghost function TakenHeaders(l: Layout, hdr: Headers, offs: seq<nat>, i: nat, need: nat): Headers
    requires l.align > 0 && i + 1 < |offs| && offs[i] in hdr && hdr[offs[i]].next in hdr
  {
    var q := EndAfter(l, offs[i], offs[i + 1], need);
    Mark(if q == offs[i + 1] then hdr else Cut(hdr, offs[i], q, l.End()), offs[i], true)
  }

  ghost function TakenOffsets(l: Layout, offs: seq<nat>, i: nat, need: nat): seq<nat>
    requires l.align > 0 && i + 1 < |offs|
  {
    var q := EndAfter(l, offs[i], offs[i + 1], need);
    if q == offs[i + 1] then offs else InsertAt(offs, i + 1, q)
  }

  lemma CanTakeCuts(l: Layout, hdr: Headers, offs: seq<nat>, lfree: nat, i: nat, need: nat)
    requires CanTake(l, hdr, offs, lfree, i, need)
    ensures var q := EndAfter(l, offs[i], offs[i + 1], need);
      q != offs[i + 1] ==> q == offs[i] + l.header + need && CanCut(l, hdr, offs, i, q)
  {
    AlignedSum(offs[i], l.header, l.align);
    AlignedSum(offs[i] + l.header, need, l.align);
  }

  lemma TakenChained(l: Layout, hdr: Headers, offs: seq<nat>, lfree: nat, i: nat, need: nat)
    requires CanTake(l, hdr, offs, lfree, i, need)
    ensures Chained(l, TakenHeaders(l, hdr, offs, i, need), TakenOffsets(l, offs, i, need))
  {
    var q := EndAfter(l, offs[i], offs[i + 1], need);
    if q == offs[i + 1] {
      MarkChained(l, hdr, offs, i, true);
    } else {
      CanTakeCuts(l, hdr, offs, lfree, i, need);
      CutChained(l, hdr, offs, i, q);
      CutItems(l, hdr, offs, i, q);
      MarkChained(l, Cut(hdr, offs[i], q, l.End()), InsertAt(offs, i + 1, q), i, true);
    }
  }

  lemma TakenLive(l: Layout, hdr: Headers, offs: seq<nat>, lfree: nat, i: nat, need: nat)
    requires CanTake(l, hdr, offs, lfree, i, need)
    ensures var hdr', offs', q := TakenHeaders(l, hdr, offs, i, need), TakenOffsets(l, offs, i, need),
                                  EndAfter(l, offs[i], offs[i + 1], need);
      && offs[i] !in Live(l, hdr, offs)
      && Live(l, hdr', offs') == Live(l, hdr, offs)[offs[i] := q]
      && UsedSum(hdr', offs') == UsedSum(hdr, offs) + q - offs[i]
  {
    var q := EndAfter(l, offs[i], offs[i + 1], need);
    if q == offs[i + 1] {
      MarkLive(l, hdr, offs, i, true);
      MarkSum(l, hdr, offs, i, true);
    } else {
      CanTakeCuts(l, hdr, offs, lfree, i, need);
      var hdr1, offs1 := Cut(hdr, offs[i], q, l.End()), InsertAt(offs, i + 1, q);
      CutChained(l, hdr, offs, i, q);
      CutItems(l, hdr, offs, i, q);
      CutLive(l, hdr, offs, i, q);
      CutSum(l, hdr, offs, i, q);
      assert offs1[i] == offs[i] && offs1[i + 1] == q;
      MarkLive(l, hdr1, offs1, i, true);
      MarkSum(l, hdr1, offs1, i, true);
    }
  }

  lemma TakenMerged(l: Layout, hdr: Headers, offs: seq<nat>, lfree: nat, i: nat, need: nat)
    requires CanTake(l, hdr, offs, lfree, i, need)
    ensures Merged(TakenHeaders(l, hdr, offs, i, need), TakenOffsets(l, offs, i, need), {})
  {
    var q := EndAfter(l, offs[i], offs[i + 1], need);
    var hdr', offs' := TakenHeaders(l, hdr, offs, i, need), TakenOffsets(l, offs, i, need);
    if q != offs[i + 1] {
      CanTakeCuts(l, hdr, offs, lfree, i, need);
      CutItems(l, hdr, offs, i, q);
      CutOthers(l, hdr, offs, i, q);
    }
    assert NotBothFree(hdr, offs, i);
    forall j | 0 <= j < |offs'| - 1
      ensures NotBothFree(hdr', offs', j)
    {
      if q == offs[i + 1] || j < i {
        assert NotBothFree(hdr, offs, j);
      } else if j > i + 1 {
        assert NotBothFree(hdr, offs, j - 1);
      }
    }
  }

  /** Below and at the old `lfree` everything is used if that is the block taken; otherwise it stays the lowest. */
  lemma TakenLowest(l: Layout, hdr: Headers, offs: seq<nat>, lfree: nat, i: nat, need: nat)
    requires CanTake(l, hdr, offs, lfree, i, need)
    ensures var hdr', offs' := TakenHeaders(l, hdr, offs, i, need), TakenOffsets(l, offs, i, need);
      && lfree in offs'
      && (forall o :: o in offs' && o in hdr' && o < lfree ==> hdr'[o].used)
      && (lfree != offs[i] ==> LowestFree(l, hdr', offs', lfree))
  {
    var q := EndAfter(l, offs[i], offs[i + 1], need);
    assert lfree <= offs[i];
    if q != offs[i + 1] {
      CanTakeCuts(l, hdr, offs, lfree, i, need);
      CutItems(l, hdr, offs, i, q);
      CutOthers(l, hdr, offs, i, q);
      InsertAtMembers(offs, i + 1, q);
    }
  }

  // ----- merging around a freed block

  ghost predicate CanPlug(l: Layout, hdr: Headers, offs: seq<nat>, k: nat, lfree: nat) {
    && Chained(l, hdr, offs) && LowestFree(l, hdr, offs, lfree)
    && k + 1 < |offs| && offs[k] in hdr && !hdr[offs[k]].used
  }

  lemma PlugForward(l: Layout, hdr: Headers, offs: seq<nat>, k: nat, lfree: nat)
    requires CanPlug(l, hdr, offs, k, lfree) && Merged(hdr, offs, {k - 1, k})
    requires k + 2 < |offs| && offs[k + 1] in hdr && !hdr[offs[k + 1]].used
    ensures CanAbsorb(l, hdr, offs, k) && lfree != offs[k + 1]
    ensures var hdr', offs' := Absorb(hdr, offs[k]), RemoveAt(offs, k + 1);
      && CanPlug(l, hdr', offs', k, lfree) && Merged(hdr', offs', {k - 1})
      && Live(l, hdr', offs') == Live(l, hdr, offs) && UsedSum(hdr', offs') == UsedSum(hdr, offs)
      && offs'[k] == offs[k]
  {
    assert LinkAt(l, hdr, offs, k) && LinkAt(l, hdr, offs, k + 1);
    AbsorbChained(l, hdr, offs, k);
    AbsorbLive(l, hdr, offs, k);
    AbsorbItems(l, hdr, offs, k);
    AbsorbLowest(l, hdr, offs, k, lfree);
    ForwardMerged(l, hdr, offs, k);
  }

  /** The neighbours after a merge were neighbours before, or of the swallowed block. */
  lemma AbsorbPair(l: Layout, hdr: Headers, offs: seq<nat>, i: nat, j: nat)
    requires CanAbsorb(l, hdr, offs, i) && j < |offs| - 2
    requires hdr[offs[i]].used == hdr[offs[i + 1]].used
    requires NotBothFree(hdr, offs, if j < i then j else j + 1)
    ensures NotBothFree(Absorb(hdr, offs[i]), RemoveAt(offs, i + 1), j)
  {
    AbsorbItems(l, hdr, offs, i);
    var offs' := RemoveAt(offs, i + 1);
    assert offs'[j] == offs[if j <= i then j else j + 1] && offs'[j + 1] == offs[if j < i then j + 1 else j + 2];
  }

  lemma ForwardMerged(l: Layout, hdr: Headers, offs: seq<nat>, k: nat)
    requires CanAbsorb(l, hdr, offs, k) && Merged(hdr, offs, {k - 1, k})
    requires hdr[offs[k]].used == hdr[offs[k + 1]].used
    ensures Merged(Absorb(hdr, offs[k]), RemoveAt(offs, k + 1), {k - 1})
  {
    var hdr', offs' := Absorb(hdr, offs[k]), RemoveAt(offs, k + 1);
    forall j | 0 <= j < |offs'| - 1 && j != k - 1
      ensures NotBothFree(hdr', offs', j)
    {
      assert NotBothFree(hdr, offs, if j < k then j else j + 1);
      AbsorbPair(l, hdr, offs, k, j);
    }
  }

  lemma BackwardMerged(l: Layout, hdr: Headers, offs: seq<nat>, i: nat)
    requires CanAbsorb(l, hdr, offs, i) && Merged(hdr, offs, {i})
    requires hdr[offs[i]].used == hdr[offs[i + 1]].used
    ensures Merged(Absorb(hdr, offs[i]), RemoveAt(offs, i + 1), {})
  {
    var hdr', offs' := Absorb(hdr, offs[i]), RemoveAt(offs, i + 1);
    forall j | 0 <= j < |offs'| - 1
      ensures NotBothFree(hdr', offs', j)
    {
      assert NotBothFree(hdr, offs, if j < i then j else j + 1);
      AbsorbPair(l, hdr, offs, i, j);
    }
  }

  lemma BackwardReady(l: Layout, hdr: Headers, offs: seq<nat>, k: nat, lfree: nat)
    requires CanPlug(l, hdr, offs, k, lfree) && 0 < k && offs[k - 1] in hdr
    ensures CanAbsorb(l, hdr, offs, k - 1)
  {
    assert LinkAt(l, hdr, offs, k - 1) && LinkAt(l, hdr, offs, k);
  }

  lemma PlugBackward(l: Layout, hdr: Headers, offs: seq<nat>, k: nat, lfree: nat)
    requires CanPlug(l, hdr, offs, k, lfree) && Merged(hdr, offs, {k - 1})
    requires 0 < k && offs[k - 1] in hdr && !hdr[offs[k - 1]].used
    ensures CanAbsorb(l, hdr, offs, k - 1) && lfree != offs[k]
    ensures var hdr', offs' := Absorb(hdr, offs[k - 1]), RemoveAt(offs, k);
      && Chained(l, hdr', offs') && LowestFree(l, hdr', offs', lfree) && Merged(hdr', offs', {})
      && Live(l, hdr', offs') == Live(l, hdr, offs) && UsedSum(hdr', offs') == UsedSum(hdr, offs)
  {
    hide Chained, Live, UsedSum, Merged, LowestFree;
    BackwardReady(l, hdr, offs, k, lfree);
    AbsorbChained(l, hdr, offs, k - 1);
    AbsorbLive(l, hdr, offs, k - 1);
    AbsorbLowest(l, hdr, offs, k - 1, lfree);
    BackwardMerged(l, hdr, offs, k - 1);
  }

  lemma AbsorbLowest(l: Layout, hdr: Headers, offs: seq<nat>, i: nat, lfree: nat)
    requires CanAbsorb(l, hdr, offs, i) && LowestFree(l, hdr, offs, lfree)
    requires !hdr[offs[i]].used && !hdr[offs[i + 1]].used
    ensures LowestFree(l, Absorb(hdr, offs[i]), RemoveAt(offs, i + 1), lfree) && lfree != offs[i + 1]
  {
    AbsorbItems(l, hdr, offs, i);
    RemovedOffsets(offs, i + 1);
    assert offs[i] < offs[i + 1];
  }

  /** If neither neighbour is free, nothing is left to merge. */
  lemma NothingToPlug(hdr: Headers, offs: seq<nat>, k: nat, back: bool)
    requires k + 1 < |offs| && Merged(hdr, offs, if back then {k - 1} else {k - 1, k})
    requires forall i :: 0 <= i < |offs| ==> offs[i] in hdr
    ensures !back && hdr[offs[k + 1]].used ==> Merged(hdr, offs, {k - 1})
    ensures back && (k == 0 || hdr[offs[k - 1]].used) ==> Merged(hdr, offs, {})
  {
    if !back && hdr[offs[k + 1]].used {
      forall j | 0 <= j < |offs| - 1 && j != k - 1
        ensures NotBothFree(hdr, offs, j)
      {
      }
    }
    if back && (k == 0 || hdr[offs[k - 1]].used) {
      forall j | 0 <= j < |offs| - 1
        ensures NotBothFree(hdr, offs, j)
      {
      }
    }
  }

  lemma FreedMerged(l: Layout, hdr: Headers, offs: seq<nat>, k: nat)
    requires Chained(l, hdr, offs) && Merged(hdr, offs, {}) && k + 1 < |offs| && offs[k] in hdr
    ensures Merged(Mark(hdr, offs[k], false), offs, {k - 1, k})
  {
    forall j | 0 <= j < |offs| - 1 && j != k && j != k - 1
      ensures NotBothFree(Mark(hdr, offs[k], false), offs, j)
    {
      assert NotBothFree(hdr, offs, j);
    }
  }

  lemma FreedChain(l: Layout, hdr: Headers, offs: seq<nat>, k: nat, lfree: nat)
    requires Chained(l, hdr, offs) && Merged(hdr, offs, {}) && LowestFree(l, hdr, offs, lfree)
    requires k + 1 < |offs| && offs[k] in hdr && hdr[offs[k]].used
    ensures var hdr' := Mark(hdr, offs[k], false);
      && CanPlug(l, hdr', offs, k, if offs[k] < lfree then offs[k] else lfree)
      && Merged(hdr', offs, {k - 1, k})
      && Live(l, hdr', offs) == Live(l, hdr, offs) - {offs[k]}
      && UsedSum(hdr', offs) == UsedSum(hdr, offs) - (offs[k + 1] - offs[k])
  {
    MarkChained(l, hdr, offs, k, false);
    MarkLive(l, hdr, offs, k, false);
    MarkSum(l, hdr, offs, k, false);
    FreedMerged(l, hdr, offs, k);
  }

  lemma ShrunkMerged(l: Layout, hdr: Headers, offs: seq<nat>, k: nat, q: nat, lfree: nat)
    requires CanCut(l, hdr, offs, k, q) && Merged(hdr, offs, {}) && LowestFree(l, hdr, offs, lfree) && hdr[offs[k]].used
    ensures var hdr', offs' := Cut(hdr, offs[k], q, l.End()), InsertAt(offs, k + 1, q);
      && Merged(hdr', offs', {k, k + 1})
      && LowestFree(l, hdr', offs', if q < lfree then q else lfree)
  {
    var hdr', offs' := Cut(hdr, offs[k], q, l.End()), InsertAt(offs, k + 1, q);
    CutItems(l, hdr, offs, k, q);
    CutOthers(l, hdr, offs, k, q);
    InsertAtMembers(offs, k + 1, q);
    forall j | 0 <= j < |offs'| - 1 && j != k && j != k + 1
      ensures NotBothFree(hdr', offs', j)
    {
      ShrunkPair(l, hdr, offs, k, q, j);
    }
  }

  lemma CutUsed(l: Layout, hdr: Headers, offs: seq<nat>, k: nat, q: nat, m: nat)
    requires CanCut(l, hdr, offs, k, q) && m < |offs|
    ensures var hdr' := Cut(hdr, offs[k], q, l.End());
      offs[m] in hdr && offs[m] in hdr' && hdr'[offs[m]].used == hdr[offs[m]].used
  {
    CutItems(l, hdr, offs, k, q);
  }

  lemma ShrunkPair(l: Layout, hdr: Headers, offs: seq<nat>, k: nat, q: nat, j: nat)
    requires CanCut(l, hdr, offs, k, q) && Merged(hdr, offs, {}) && j < |offs| && j != k && j != k + 1
    ensures NotBothFree(Cut(hdr, offs[k], q, l.End()), InsertAt(offs, k + 1, q), j)
  {
    var i := if j < k then j else j - 1;
    var offs' := InsertAt(offs, k + 1, q);
    assert NotBothFree(hdr, offs, i);
    assert offs'[j] == offs[i] && offs'[j + 1] == offs[i + 1];
    CutUsed(l, hdr, offs, k, q, i);
    CutUsed(l, hdr, offs, k, q, i + 1);
    hide Chained, Cut, InsertAt, Merged;
  }

  lemma ShrunkChain(l: Layout, hdr: Headers, offs: seq<nat>, k: nat, q: nat, lfree: nat)
    requires CanCut(l, hdr, offs, k, q) && Merged(hdr, offs, {}) && LowestFree(l, hdr, offs, lfree) && hdr[offs[k]].used
    ensures var hdr', offs' := Cut(hdr, offs[k], q, l.End()), InsertAt(offs, k + 1, q);
      && Merged(hdr', offs', {k, k + 1})
      && CanPlug(l, hdr', offs', k + 1, if q < lfree then q else lfree)
      && offs'[k + 1] == q
      && Live(l, hdr', offs') == Live(l, hdr, offs)[offs[k] := q]
      && UsedSum(hdr', offs') == UsedSum(hdr, offs) - (offs[k + 1] - q)
  {
    CutChained(l, hdr, offs, k, q);
    CutLive(l, hdr, offs, k, q);
    CutSum(l, hdr, offs, k, q);
    CutItems(l, hdr, offs, k, q);
    ShrunkMerged(l, hdr, offs, k, q, lfree);
  }

  // ----- the blocks are a function of the live ones

  lemma {:induction false} LiveDeterminesOffset(l: Layout, hdr: Headers, offs: seq<nat>, hdr': Headers, offs': seq<nat>, k: nat)
    requires Chained(l, hdr, offs) && Merged(hdr, offs, {})
    requires Chained(l, hdr', offs') && Merged(hdr', offs', {})
    requires Live(l, hdr, offs) == Live(l, hdr', offs')
    requires k < |offs|
    ensures k < |offs'| && offs[k] == offs'[k]
  {
    if k > 0 {
      LiveDeterminesOffset(l, hdr, offs, hdr', offs', k - 1);
      assert LinkAt(l, hdr, offs, k - 1);
      assert offs[k - 1] != l.End();
      assert LinkAt(l, hdr', offs', k - 1);
      if !hdr[offs[k - 1]].used {
        NextIsLowestLive(l, hdr, offs, k - 1);
        NextIsLowestLive(l, hdr', offs', k - 1);
      } else {
        assert offs[k - 1] in Live(l, hdr, offs);
      }
    }
  }

  /** A free block ends at the lowest live block above it, or at the end of the pool. */
  lemma NextIsLowestLive(l: Layout, hdr: Headers, offs: seq<nat>, i: nat)
    requires Chained(l, hdr, offs) && Merged(hdr, offs, {}) && i + 1 < |offs|
    requires offs[i] !in Live(l, hdr, offs)
    ensures offs[i + 1] in Live(l, hdr, offs) || offs[i + 1] == l.End()
    ensures forall o :: o in Live(l, hdr, offs) && offs[i] < o ==> offs[i + 1] <= o
    ensures offs[i + 1] <= l.End()
  {
    assert offs[i] < offs[|offs| - 1];
    assert NotBothFree(hdr, offs, i);
    forall o | o in Live(l, hdr, offs) && offs[i] < o
      ensures offs[i + 1] <= o
    {
      var j :| 0 <= j < |offs| && offs[j] == o;
      assert j > i;
    }
  }

  lemma LiveDeterminesBlocks(l: Layout, hdr: Headers, offs: seq<nat>, hdr': Headers, offs': seq<nat>)
    requires Chained(l, hdr, offs) && Merged(hdr, offs, {})
    requires Chained(l, hdr', offs') && Merged(hdr', offs', {})
    requires Live(l, hdr, offs) == Live(l, hdr', offs')
    ensures offs == offs'
  {
    forall k | 0 <= k < |offs|
      ensures k < |offs'| && offs[k] == offs'[k]
    {
      LiveDeterminesOffset(l, hdr, offs, hdr', offs', k);
    }
    LiveDeterminesOffset(l, hdr', offs', hdr, offs, |offs'| - 1);
  }

  // ----- no two holders share a byte

  /** The payloads of live blocks lie in the pool, aligned, apart from each other and from every header. */
  lemma LiveBlocksDisjoint(l: Layout, hdr: Headers, offs: seq<nat>)
    requires Chained(l, hdr, offs)
    ensures var live := Live(l, hdr, offs);
      && (forall o :: o in live ==> o + l.header <= live[o] <= l.End() && Aligned(o + l.header, l.align))
      && (forall o, p :: o in live && p in offs && o < p ==> live[o] <= p)
      && (forall o, p :: o in live && p in offs && p < o ==> p + l.header <= o)
  {
    hide Aligned;
    var live := Live(l, hdr, offs);
    forall o | o in live
      ensures o + l.header <= live[o] <= l.End() && Aligned(o + l.header, l.align)
      ensures forall p :: p in offs && o < p ==> live[o] <= p
      ensures forall p :: p in offs && p < o ==> p + l.header <= o
    {
      var i :| 0 <= i < |offs| && offs[i] == o;
      assert LinkAt(l, hdr, offs, i);
      AlignedSum(o, l.header, l.align);
      forall p | p in offs
        ensures o < p ==> live[o] <= p
        ensures p < o ==> p + l.header <= o
      {
        var j :| 0 <= j < |offs| && offs[j] == p;
        if j < i {
          assert LinkAt(l, hdr, offs, j);
        } else if i < j {
          assert offs[i + 1] <= offs[j];
        }
      }
    }
  }

  /** A free block with room for `need` bytes does not overlap a live one. */
  lemma FreeApart(l: Layout, hdr: Headers, offs: seq<nat>, o: nat, i: nat, need: nat)
    requires Chained(l, hdr, offs) && o in Live(l, hdr, offs) && i + 1 < |offs| && Fits(l, hdr, offs, i, need)
    ensures offs[i] + l.header + need <= l.End() && Live(l, hdr, offs)[o] <= l.End()
    ensures Live(l, hdr, offs)[o] <= offs[i] || offs[i] + l.header + need <= o
  {
    var k: nat :| k < |offs| && offs[k] == o;
    assert LinkAt(l, hdr, offs, i) && LinkAt(l, hdr, offs, k);
    OffsetsOrdered(offs, i + 1, |offs| - 1);
    OffsetsOrdered(offs, k + 1, |offs| - 1);
    if i < k {
      OffsetsOrdered(offs, i + 1, k);
    } else if k < i {
      OffsetsOrdered(offs, k + 1, i);
    }
  }

  lemma OffsetsOrdered(offs: seq<nat>, i: nat, j: nat)
    requires Ascending(offs) && i <= j < |offs|
    ensures offs[i] <= offs[j]
  {
  }
}
