/** The allocator of src/mem.c over the block chains of `BlockChain`. */
module SmallMemory {
  import opened Wrappers
  import opened BlockChain
  import opened Arithmetic
  import opened Sequences
  import opened Bytes

  /** RT_ALIGN_DOWN. */
  function RoundDown(n: nat, a: nat): nat
    requires a > 0
  {
    n / a * a
  }

  /**
   The address arithmetic of `rt_smem_init`: where the heap starts and how much of it blocks may use,
   for a pool of `size` bytes at `begin` that must also hold its own control structure.
   */
  function InitialHeap(begin: nat, size: nat, control: nat, align: nat, header: nat): Option<(nat, int)>
    requires align > 0
  {
    var start := RoundUp(begin, align) + control;
    var beginAlign, endAlign := RoundUp(start, align), RoundDown(begin + size, align);
    if endAlign > 2 * header && endAlign - 2 * header >= start
    then Some((beginAlign, endAlign - beginAlign - 2 * header))
    else None
  }

  /** The test in `rt_smem_init` keeps the size from underflowing, and the heap within the pool. */
  lemma InitialHeapFits(begin: nat, size: nat, control: nat, align: nat, header: nat)
    requires align > 0 && Aligned(header, align)
    ensures var r := InitialHeap(begin, size, control, align, header);
      r.Some? ==>
        var (heap, memSize) := r.value;
        && 0 <= memSize && Aligned(heap, align) && Aligned(memSize, align)
        && begin + control <= heap && heap + memSize + 2 * header <= begin + size
        && heap + memSize + 2 * header == RoundDown(begin + size, align)
        && heap == RoundUp(RoundUp(begin, align) + control, align)
    ensures var r := InitialHeap(begin, size, control, align, header);
      r.None? <==> RoundDown(begin + size, align) <= 2 * header
                   || RoundUp(RoundUp(begin, align) + control, align) + 2 * header > RoundDown(begin + size, align)
  {
    var start := RoundUp(begin, align) + control;
    var end := RoundDown(begin + size, align);
    RoundUpIsLeast(begin, align);
    RoundUpIsLeast(start, align);
    MultipleIsAligned((begin + size) / align, align);
    RoundDownBelow(begin + size, align);
    AlignedSum(header, header, align);
    if end >= 2 * header {
      AlignedSum(end, 2 * header, align);
      if end - 2 * header >= start {
        assert RoundUp(start, align) <= end - 2 * header;
        AlignedSum(end - 2 * header, RoundUp(start, align), align);
      }
    }
  }

  /** `RoundDown` gives the greatest aligned number that is not above `n`. */
  lemma RoundDownBelow(n: nat, a: nat)
    requires a > 0
    ensures Aligned(RoundDown(n, a), a) && RoundDown(n, a) <= n < RoundDown(n, a) + a
  {
    assert n == n / a * a + n % a;
    MultipleIsAligned(n / a, a);
  }

  function Min(a: int, b: int): (m: int)
    ensures m <= a && m <= b && (m == a || m == b)
  {
    if a < b then a else b
  }

  /** `lfree` once block `o` has become part of block `into`. */
  function Redirect(lfree: nat, o: nat, into: nat): nat {
    if lfree == o then into else lfree
  }

  /** The branches of `rt_smem_realloc`. */
  datatype Branch = TooLarge | Release | Fresh | Keep | CutOff | Relocate

  class Pool {
    const l: Layout
    var hdr: Headers
    var lfree: nat
    var used: int
    var max: int
    const bytes: array<bv8>
    ghost var offs: seq<nat>

    ghost predicate Valid()
      reads this
    {
      Inv(l, hdr, offs, lfree, used) && used <= max && bytes.Length == l.End()
    }

    /** What callers hold: the offsets of their block headers, with the ends of the blocks. */
    ghost function Held(): map<nat, nat>
      reads this
    {
      Live(l, hdr, offs)
    }

    /** `rt_smem_init`, for a pool of `layout.size` bytes. */
    constructor (layout: Layout)
      requires layout.Valid()
      ensures Valid() && l == layout && Held() == map[] && used == 0 && max == 0
      ensures fresh(bytes)
    {
      l := layout;
      hdr := map[0 := Item(layout.End(), 0, false), layout.End() := Item(layout.End(), layout.End(), true)];
      lfree, used, max := 0, 0, 0;
      offs := [0, layout.End()];
      bytes := new bv8[layout.End()];
      new;
      AlignedSum(l.size, l.header, l.align);
      assert LinkAt(l, hdr, offs, 0) && NotBothFree(hdr, offs, 0);
      SumPair(hdr, 0, l.End());
    }

    /** The size `rt_smem_alloc` looks for. */
    function Need(size: nat): nat
      requires l.align > 0
    {
      var n := RoundUp(size, l.align);
      if n < l.MinAligned() then l.MinAligned() else n
    }

    /** It is the least aligned size that holds the request and a smallest block. */
    lemma NeedIsLeast(size: nat)
      requires l.Valid()
      ensures Aligned(Need(size), l.align) && size <= Need(size) && l.minSize <= Need(size)
      ensures forall n: nat :: Aligned(n, l.align) && size <= n && l.minSize <= n ==> Need(size) <= n
    {
      RoundUpIsLeast(size, l.align);
      RoundUpIsLeast(l.minSize, l.align);
    }

    /** Block `i` is the lowest that can hold `need` bytes. */
    ghost predicate FirstFit(i: nat, need: nat)
      reads this
    {
      && i + 1 < |offs|
      && Fits(l, hdr, offs, i, need)
      && forall j :: 0 <= j < i ==> !Fits(l, hdr, offs, j, need)
    }

    ghost predicate NoFit(need: nat)
      reads this
    {
      forall j :: 0 <= j < |offs| - 1 ==> !Fits(l, hdr, offs, j, need)
    }

    /** There is no fit exactly if every free block is too small. */
    lemma NoFitIff(need: nat)
      requires Valid()
      ensures NoFit(need) <==> forall j :: 0 <= j < |offs| - 1 && offs[j] in hdr && !hdr[offs[j]].used ==>
                                 offs[j + 1] - offs[j] - l.header < need
    {
      if j :| 0 <= j < |offs| - 1 && offs[j] in hdr && !hdr[offs[j]].used && offs[j + 1] - offs[j] - l.header >= need {
        assert Fits(l, hdr, offs, j, need);
      }
    }

    /** `rt_smem_alloc`; the result is the offset of the payload. */
    method Alloc(size: nat) returns (r: Option<nat>, ghost i: nat)
      requires Valid()
      modifies this
      ensures Valid()
      ensures r.None? <==> size == 0 || old(NoFit(Need(size)))
      ensures r.None? ==> hdr == old(hdr) && offs == old(offs) && lfree == old(lfree) && used == old(used) && max == old(max)
      ensures r.Some? ==>
        old(Takes(i, size)) && r.value == old(offs[i]) + l.header && Held() == old(HeldWith(i, size))
      ensures r.Some? ==>
        var o := r.value - l.header;
        o !in old(Held()) && o in Held() && r.value + size <= Held()[o] && forall p :: p in old(Held()) ==> p in Held() && Held()[p] == old(Held()[p])
      ensures max == Max(old(max), used)
      ensures r.Some? ==> used == old(used) + Held()[r.value - l.header] - (r.value - l.header)
    {
      i := 0;
      if size == 0 {
        return None, i;
      }
      var need := Need(size);
      RoundUpIsLeast(size, l.align);
      RoundUpIsLeast(l.minSize, l.align);
      if need > l.size {
        TooBig(need);
        return None, i;
      }
      r, i := AllocAligned(need);
    }

    lemma TooBig(need: nat)
      requires Valid() && need > l.size
      ensures NoFit(need)
    {
      forall j | 0 <= j < |offs| - 1
        ensures !Fits(l, hdr, offs, j, need)
      {
        assert j + 1 < |offs| - 1 ==> offs[j + 1] < offs[|offs| - 1];
      }
    }

    /** The search of `rt_smem_alloc`, from the lowest free block to the last offset at which `need` bytes can start. */
    method AllocAligned(need: nat) returns (r: Option<nat>, ghost i: nat)
      requires Valid() && Aligned(need, l.align) && need <= l.size
      modifies this
      ensures Valid()
      ensures r.None? <==> old(NoFit(need))
      ensures r.None? ==> hdr == old(hdr) && offs == old(offs) && lfree == old(lfree) && used == old(used) && max == old(max)
      ensures r.Some? ==>
        old(FirstFit(i, need)) && r.value == old(offs[i]) + l.header
          && old(offs[i]) !in old(Held())
          && Held() == old(Held()[offs[i] := EndAfter(l, offs[i], offs[i + 1], need)])
          && used == old(used) + old(EndAfter(l, offs[i], offs[i + 1], need) - offs[i])
      ensures max == Max(old(max), used)
    {
      var ptr := lfree;
      i :| i < |offs| && offs[i] == lfree;
      SkippedAreUsed(i, need);
      while ptr <= l.size - need
        invariant i < |offs| && offs[i] == ptr
        invariant forall j :: 0 <= j < i && j < |offs| - 1 ==> !Fits(l, hdr, offs, j, need)
        decreases l.End() - ptr
      {
        assert i + 1 < |offs| && LinkAt(l, hdr, offs, i);
        if !hdr[ptr].used && hdr[ptr].next - (ptr + l.header) >= need {
          assert FirstFit(i, need);
          TakeBlock(ptr, i, need);
          return Some(ptr + l.header), i;
        }
        assert i + 1 < |offs| - 1 ==> offs[i + 1] < offs[|offs| - 1];
        ptr := hdr[ptr].next;
        i := i + 1;
      }
      TailTooSmall(i, need);
      r := None;
    }

    /** Nothing below the lowest free block is free. */
    lemma SkippedAreUsed(i: nat, need: nat)
      requires Valid() && i < |offs| && offs[i] == lfree
      ensures forall j :: 0 <= j < i && j < |offs| - 1 ==> !Fits(l, hdr, offs, j, need)
    {
      forall j | 0 <= j < i && j < |offs| - 1
        ensures !Fits(l, hdr, offs, j, need)
      {
        assert offs[j] < lfree && offs[j] in offs;
      }
    }

    /** No block from offset `size - need + 1` on has room. */
    lemma TailTooSmall(i: nat, need: nat)
      requires Valid() && i < |offs| && need <= l.size && offs[i] > l.size - need
      requires forall j :: 0 <= j < i && j < |offs| - 1 ==> !Fits(l, hdr, offs, j, need)
      ensures NoFit(need)
    {
      forall j | 0 <= j < |offs| - 1
        ensures !Fits(l, hdr, offs, j, need)
      {
        if j >= i {
          assert offs[i] <= offs[j];
          assert j + 1 < |offs| - 1 ==> offs[j + 1] < offs[|offs| - 1];
        }
      }
    }

    /** The body of the search when the block at `ptr` fits. */
    method TakeBlock(ptr: nat, ghost i: nat, need: nat)
      requires Valid() && CanTake(l, hdr, offs, lfree, i, need) && ptr == offs[i]
      modifies this
      ensures Valid()
      ensures old(offs[i]) !in old(Held())
      ensures Held() == old(Held()[offs[i] := EndAfter(l, offs[i], offs[i + 1], need)])
      ensures used == old(used) + old(EndAfter(l, offs[i], offs[i + 1], need) - offs[i])
      ensures max == Max(old(max), used)
    {
      TakenChained(l, hdr, offs, lfree, i, need);
      TakenLive(l, hdr, offs, lfree, i, need);
      TakenMerged(l, hdr, offs, lfree, i, need);
      TakenLowest(l, hdr, offs, lfree, i, need);
      MarkTaken(ptr, i, need);
      offs := TakenOffsets(l, offs, i, need);
      if ptr == lfree {
        AdvanceLowestFree();
      }
    }

    /** Splitting, accounting and marking in `rt_smem_alloc`. */
    method MarkTaken(ptr: nat, ghost i: nat, need: nat)
      requires l.Valid() && i + 1 < |offs| && offs[i] == ptr && ptr in hdr
      requires hdr[ptr].next == offs[i + 1] && offs[i + 1] in hdr && ptr + l.header + need <= offs[i + 1]
      requires used <= max
      modifies this`hdr, this`used, this`max
      ensures hdr == old(TakenHeaders(l, hdr, offs, i, need))
      ensures used == old(used) + EndAfter(l, offs[i], offs[i + 1], need) - ptr
      ensures max == Max(old(max), used)
    {
      var next := hdr[ptr].next;
      if next - (ptr + l.header) >= need + l.header + l.MinAligned() {
        var ptr2 := ptr + l.header + need;
        hdr := Cut(hdr, ptr, ptr2, l.End());
        used := used + need + l.header;
      } else {
        used := used + next - ptr;
      }
      max := Max(max, used);
      hdr := Mark(hdr, ptr, true);
    }

    /** The loop of `rt_smem_alloc` that finds the next free block. */
    method AdvanceLowestFree()
      requires Chained(l, hdr, offs) && lfree in offs
      requires forall o :: o in offs && o in hdr && o < lfree ==> hdr[o].used
      modifies this`lfree
      ensures LowestFree(l, hdr, offs, lfree)
    {
      ghost var i: nat :| i < |offs| && offs[i] == lfree;
      while hdr[lfree].used && lfree != l.End()
        invariant i < |offs| && offs[i] == lfree
        invariant forall j :: 0 <= j < i ==> hdr[offs[j]].used
        decreases |offs| - i
      {
        assert LinkAt(l, hdr, offs, i);
        lfree := hdr[lfree].next;
        i := i + 1;
      }
      forall o | o in offs && o < lfree
        ensures hdr[o].used
      {
        var j :| 0 <= j < |offs| && offs[j] == o;
      }
    }

    /** `plug_holes`: merge the free block `mem`, at index `k` of the chain, with its free neighbours. */
    method PlugHoles(mem: nat, ghost k: nat)
      requires CanPlug(l, hdr, offs, k, lfree) && Merged(hdr, offs, {k - 1, k}) && offs[k] == mem
      modifies this`hdr, this`lfree, this`offs
      ensures Chained(l, hdr, offs) && Merged(hdr, offs, {}) && LowestFree(l, hdr, offs, lfree)
      ensures Held() == old(Held()) && UsedSum(hdr, offs) == old(UsedSum(hdr, offs))
    {
      PlugNext(mem, k);
      PlugPrevious(mem, k);
    }

    /** "plug hole forward". */
    method PlugNext(mem: nat, ghost k: nat)
      requires CanPlug(l, hdr, offs, k, lfree) && Merged(hdr, offs, {k - 1, k}) && offs[k] == mem
      modifies this`hdr, this`lfree, this`offs
      ensures CanPlug(l, hdr, offs, k, lfree) && Merged(hdr, offs, {k - 1}) && offs[k] == mem
      ensures Held() == old(Held()) && UsedSum(hdr, offs) == old(UsedSum(hdr, offs))
    {
      assert LinkAt(l, hdr, offs, k);
      var nmem := hdr[mem].next;
      assert nmem in hdr;
      hide Chained, Merged, LowestFree, UsedSum, Live, LinkAt;
      if mem != nmem && !hdr[nmem].used && nmem != l.End() {
        PlugForward(l, hdr, offs, k, lfree);
        lfree := Redirect(lfree, nmem, mem);
        hdr := Absorb(hdr, mem);
        offs := RemoveAt(offs, k + 1);
      } else {
        NothingToPlug(hdr, offs, k, false);
      }
    }

    /** "plug hole backward". */
    method PlugPrevious(mem: nat, ghost k: nat)
      requires CanPlug(l, hdr, offs, k, lfree) && Merged(hdr, offs, {k - 1}) && offs[k] == mem
      modifies this`hdr, this`lfree, this`offs
      ensures Chained(l, hdr, offs) && Merged(hdr, offs, {}) && LowestFree(l, hdr, offs, lfree)
      ensures Held() == old(Held()) && UsedSum(hdr, offs) == old(UsedSum(hdr, offs))
    {
      assert k > 0 ==> LinkAt(l, hdr, offs, k - 1);
      var pmem := hdr[mem].prev;
      if pmem != mem && !hdr[pmem].used {
        PlugBackward(l, hdr, offs, k, lfree);
        lfree := Redirect(lfree, mem, pmem);
        hdr := Absorb(hdr, pmem);
        offs := RemoveAt(offs, k);
      } else {
        NothingToPlug(hdr, offs, k, true);
      }
    }

    /** `rt_smem_free`, of a block that is held. */
    method Free(rmem: Option<nat>)
      requires Valid()
      requires rmem.Some? ==> rmem.value >= l.header && rmem.value - l.header in Held()
      modifies this
      ensures Valid()
      ensures rmem.None? ==> Held() == old(Held()) && used == old(used)
      ensures rmem.Some? ==>
        var o := rmem.value - l.header;
        o in old(Held()) && Held() == old(Held()) - {o} && used == old(used) - (old(Held())[o] - o)
      ensures max == old(max)
    {
      if rmem.None? {
        return;
      }
      hide Chained, Live, UsedSum, Merged, LowestFree, Valid, CanPlug;
      var mem := rmem.value - l.header;
      ghost var k := FreeReady(mem);
      hdr := Mark(hdr, mem, false);
      lfree := if mem < lfree then mem else lfree;
      used := used - (hdr[mem].next - mem);
      PlugHoles(mem, k);
      ValidAgain();
    }

    /** The chain is ready for `mem` to become free. */
    lemma FreeReady(mem: nat) returns (k: nat)
      requires Valid() && mem in Held()
      ensures k + 1 < |offs| && offs[k] == mem && mem in hdr && hdr[mem].next == Held()[mem]
      ensures used == UsedSum(hdr, offs) && used <= max && bytes.Length == l.End() && mem < Held()[mem]
      ensures var hdr' := Mark(hdr, mem, false);
        && CanPlug(l, hdr', offs, k, if mem < lfree then mem else lfree)
        && Merged(hdr', offs, {k - 1, k})
        && Live(l, hdr', offs) == Live(l, hdr, offs) - {mem}
        && UsedSum(hdr', offs) == UsedSum(hdr, offs) - (Held()[mem] - mem)
    {
      k :| k < |offs| && offs[k] == mem;
      assert LinkAt(l, hdr, offs, k);
      FreedChain(l, hdr, offs, k, lfree);
    }

    lemma ValidAgain()
      requires Chained(l, hdr, offs) && Merged(hdr, offs, {}) && LowestFree(l, hdr, offs, lfree)
      requires used == UsedSum(hdr, offs) && used <= max && bytes.Length == l.End()
      ensures Valid()
    {
    }

    /** The bytes a holder may use, from its payload offset on. */
    ghost function Payload(o: int): int
      reads this
    {
      if 0 <= o && o in Held() then Held()[o] - o - l.header else 0
    }

    /** The splitting branch of `rt_smem_realloc`. */
    method Shrink(mem: nat, newsize: nat)
      requires Valid() && mem in Held() && Aligned(newsize, l.align)
      requires newsize + l.header <= Payload(mem)
      modifies this
      ensures Valid()
      ensures Held() == old(Held())[mem := mem + l.header + newsize]
      ensures used == old(used) - (old(Payload(mem)) - newsize) && max == old(max)
    {
      hide CanPlug, Chained, Live, UsedSum, Merged, LowestFree, Valid;
      ghost var k := ShrinkReady(mem, newsize);
      var ptr2 := mem + l.header + newsize;
      used := used - (hdr[mem].next - mem - l.header - newsize);
      hdr := Cut(hdr, mem, ptr2, l.End());
      offs := InsertAt(offs, k + 1, ptr2);
      lfree := if ptr2 < lfree then ptr2 else lfree;
      PlugHoles(ptr2, k + 1);
      ValidAgain();
    }

    /** A held block is a used block of the chain. */
    lemma BlockIndex(mem: nat) returns (k: nat)
      requires Valid() && mem in Held()
      ensures l.Valid() && Aligned(mem, l.align) && Aligned(l.header, l.align)
      ensures k + 1 < |offs| && offs[k] == mem && mem in hdr && hdr[mem].used
      ensures hdr[mem].next == offs[k + 1] == Held()[mem] && offs[k + 1] in hdr && mem + l.header <= offs[k + 1]
    {
      k :| k < |offs| && offs[k] == mem;
      assert LinkAt(l, hdr, offs, k);
    }

    /** The chain is ready to be cut within the payload of `mem`. */
    lemma ShrinkReady(mem: nat, newsize: nat) returns (k: nat)
      requires Valid() && mem in Held() && Aligned(newsize, l.align)
      requires newsize + l.header <= Payload(mem)
      ensures k + 1 < |offs| && offs[k] == mem && mem in hdr && hdr[mem].next in hdr
      ensures hdr[mem].next - mem - l.header == Payload(mem)
      ensures used == UsedSum(hdr, offs) && used <= max && bytes.Length == l.End()
      ensures var q: nat := mem + l.header + newsize;
        var hdr', offs': seq<nat> := Cut(hdr, mem, q, l.End()), InsertAt(offs, k + 1, q);
        && CanPlug(l, hdr', offs', k + 1, if q < lfree then q else lfree)
        && Merged(hdr', offs', {k, k + 1})
        && offs'[k + 1] == q
        && Live(l, hdr', offs') == Live(l, hdr, offs)[mem := q]
        && UsedSum(hdr', offs') == UsedSum(hdr, offs) - (Payload(mem) - newsize)
    {
      hide Merged, LowestFree, UsedSum, Chained, Live, Aligned;
      k := BlockIndex(mem);
      AlignedSum(mem, l.header, l.align);
      AlignedSum(mem + l.header, newsize, l.align);
      ShrunkChain(l, hdr, offs, k, mem + l.header + newsize, lfree);
    }

    /** Block `i` is the one an allocation of `size` bytes takes. */
    ghost predicate Takes(i: nat, size: nat)
      requires l.align > 0
      reads this
    {
      FirstFit(i, Need(size)) && offs[i] !in Held()
    }

    /** What is held when block `i` has been taken for `size` bytes. */
    ghost function HeldWith(i: nat, size: nat): map<nat, nat>
      requires l.align > 0 && i + 1 < |offs|
      reads this
    {
      Held()[offs[i] := EndAfter(l, offs[i], offs[i + 1], Need(size))]
    }

    /** Two payloads do not overlap. */
    lemma HeldApart(o: nat, p: nat)
      requires Valid() && o in Held() && p in Held() && o != p
      ensures o + l.header <= Held()[o] <= bytes.Length && p + l.header <= Held()[p] <= bytes.Length
      ensures Held()[o] <= p || Held()[p] <= o
    {
      LiveBlocksDisjoint(l, hdr, offs);
    }

    /** The moving branch of `rt_smem_realloc`. */
    method Move(rmem: nat, newsize: nat) returns (r: Option<nat>, ghost i: nat)
      requires Valid() && rmem >= l.header && rmem - l.header in Held()
      requires 0 < newsize <= l.size && Aligned(newsize, l.align)
      modifies this, bytes
      ensures Valid()
      ensures r.None? <==> old(NoFit(Need(newsize)))
      ensures r.None? ==> Held() == old(Held()) && bytes[..] == old(bytes[..])
      ensures r.Some? ==>
        && old(Takes(i, newsize)) && r.value == old(offs[i]) + l.header
        && Held() == old(HeldWith(i, newsize)) - {rmem - l.header}
        && Copied(old(bytes[..]), bytes[..], r.value, rmem, Min(old(Payload(rmem - l.header)), newsize))
    {
      hide Chained, Live, Merged, LowestFree, UsedSum, Valid, NoFit, Copied, Takes, HeldWith, Need, RoundUp, Aligned;
      var mem := rmem - l.header;
      var size := PayloadSize(mem);
      r, i := Alloc(newsize);
      if r.Some? {
        Transfer(rmem, r.value, size, newsize);
      }
    }

    /** `rmem` is copied to `dst` and freed. */
    method Transfer(rmem: nat, dst: nat, size: nat, newsize: nat)
      requires Valid() && rmem >= l.header && rmem - l.header in Held() && size == Payload(rmem - l.header)
      requires dst >= l.header && dst - l.header in Held() && dst != rmem && dst + newsize <= Held()[dst - l.header]
      modifies this, bytes
      ensures Valid() && Held() == old(Held()) - {rmem - l.header}
      ensures Copied(old(bytes[..]), bytes[..], dst, rmem, Min(size, newsize))
    {
      hide Chained, Live, Merged, LowestFree, UsedSum, Valid, Copied;
      HeldApart(rmem - l.header, dst - l.header);
      CopyBytes(bytes, dst, rmem, if size < newsize then size else newsize);
      Free(Some(rmem));
    }

    /** `mem->next - ptr - SIZEOF_STRUCT_MEM` for a held block. */
    method PayloadSize(mem: nat) returns (size: nat)
      requires Valid() && mem in Held()
      ensures size == Payload(mem) && mem + l.header + size <= l.End()
    {
      LiveBlocksDisjoint(l, hdr, offs);
      size := hdr[mem].next - mem - l.header;
    }

    /** Which branch a call takes. */
    ghost function BranchFor(rmem: Option<nat>, newsize: nat): (b: Branch)
      reads this
      ensures b == TooLarge <==> newsize > l.size
      ensures b == Release <==> newsize == 0
      ensures b == Fresh <==> 0 < newsize <= l.size && rmem.None?
      ensures rmem.Some? && 0 < newsize <= l.size ==>
        var payload := Payload(rmem.value - l.header);
        && (b == Keep <==> newsize == payload)
        && (b == CutOff <==> newsize != payload && newsize + l.header + l.minSize < payload)
    {
      if newsize > l.size then TooLarge
      else if newsize == 0 then Release
      else if rmem.None? then Fresh
      else if newsize == Payload(rmem.value - l.header) then Keep
      else if newsize + l.header + l.minSize < Payload(rmem.value - l.header) then CutOff
      else Relocate
    }

    /** `rt_smem_realloc`. */
    method Realloc(rmem: Option<nat>, size: nat) returns (r: Option<nat>, ghost i: nat)
      requires Valid()
      requires rmem.Some? ==> rmem.value >= l.header && rmem.value - l.header in Held()
      modifies this, bytes
      ensures Valid()
      ensures var n := RoundUp(size, l.align);
        match old(BranchFor(rmem, n))
        case TooLarge => r.None? && Held() == old(Held()) && bytes[..] == old(bytes[..])
        case Release =>
          && r.None? && bytes[..] == old(bytes[..])
          && Held() == old(Held()) - (if rmem.Some? then {rmem.value - l.header} else {})
        case Fresh =>
          && bytes[..] == old(bytes[..])
          && (r.None? <==> old(NoFit(Need(n))))
          && (r.None? ==> Held() == old(Held()))
          && (r.Some? ==> old(Takes(i, n)) && r.value == old(offs[i]) + l.header && Held() == old(HeldWith(i, n)))
        case Keep => r == rmem && Held() == old(Held()) && bytes[..] == old(bytes[..])
        case CutOff =>
          && r == rmem && bytes[..] == old(bytes[..])
          && rmem.Some? && Held() == old(Held())[rmem.value - l.header := rmem.value + n]
        case Relocate =>
          && (r.None? <==> old(NoFit(Need(n))))
          && (r.None? ==> Held() == old(Held()) && bytes[..] == old(bytes[..]))
          && (r.Some? ==>
                && old(Takes(i, n)) && r.value == old(offs[i]) + l.header
                && rmem.Some? && Held() == old(HeldWith(i, n)) - {rmem.value - l.header}
                && Copied(old(bytes[..]), bytes[..], r.value, rmem.value,
                          Min(old(Payload(rmem.value - l.header)), n)))
    {
      hide Live, Merged, LowestFree, UsedSum, Takes, HeldWith, NoFit, Copied, Need, RoundUp, Aligned;
      var newsize := RoundUp(size, l.align);
      RoundUpIsLeast(size, l.align);
      i := 0;
      if newsize > l.size {
        return None, i;
      } else if newsize == 0 {
        Free(rmem);
        return None, i;
      }
      if rmem.None? {
        r, i := Alloc(newsize);
        return;
      }
      r, i := Resize(rmem.value, newsize);
    }

    /** `rt_smem_realloc` of a block, to a size the pool could hold. */
    method Resize(rmem: nat, newsize: nat) returns (r: Option<nat>, ghost i: nat)
      requires Valid() && rmem >= l.header && rmem - l.header in Held()
      requires 0 < newsize <= l.size && Aligned(newsize, l.align)
      modifies this, bytes
      ensures Valid()
      ensures old(BranchFor(Some(rmem), newsize)) == Keep ==>
                r == Some(rmem) && Held() == old(Held()) && bytes[..] == old(bytes[..])
      ensures old(BranchFor(Some(rmem), newsize)) == CutOff ==>
                r == Some(rmem) && bytes[..] == old(bytes[..]) && Held() == old(Held())[rmem - l.header := rmem + newsize]
      ensures old(BranchFor(Some(rmem), newsize)) == Relocate ==>
                && (r.None? <==> old(NoFit(Need(newsize))))
                && (r.None? ==> Held() == old(Held()) && bytes[..] == old(bytes[..]))
                && (r.Some? ==>
                      && old(Takes(i, newsize)) && r.value == old(offs[i]) + l.header
                      && Held() == old(HeldWith(i, newsize)) - {rmem - l.header}
                      && Copied(old(bytes[..]), bytes[..], r.value, rmem, Min(old(Payload(rmem - l.header)), newsize)))
    {
      hide Chained, Live, Merged, LowestFree, UsedSum, Takes, HeldWith, NoFit, Copied, Need, RoundUp, Aligned;
      i := 0;
      var mem := rmem - l.header;
      var payload := PayloadSize(mem);
      if payload == newsize {
        return Some(rmem), i;
      }
      if newsize + l.header + l.minSize < payload {
        Shrink(mem, newsize);
        return Some(rmem), i;
      }
      r, i := Move(rmem, newsize);
    }
  }
}
