/**
 The zones of the slab allocator (`src/slab.c`): size classes, and a zone's chunks.
 */
module SlabZones {
  import opened Wrappers
  import opened Arithmetic
  import opened Sequences
  import Bits

  /** RT_SLAB_NZONES. */
  const CLASSES: nat := 72

  /** `zoneindex`: the class of a request and the size it is rounded to. */
  function ZoneIndex(n: nat): (int, nat) {
    if n < 128 then (RoundUp(n, 8) / 8 - 1, RoundUp(n, 8))
    else if n < 256 then (RoundUp(n, 16) / 16 + 7, RoundUp(n, 16))
    else if n < 8192 then
      if n < 512 then (RoundUp(n, 32) / 32 + 15, RoundUp(n, 32))
      else if n < 1024 then (RoundUp(n, 64) / 64 + 23, RoundUp(n, 64))
      else if n < 2048 then (RoundUp(n, 128) / 128 + 31, RoundUp(n, 128))
      else if n < 4096 then (RoundUp(n, 256) / 256 + 39, RoundUp(n, 256))
      else (RoundUp(n, 512) / 512 + 47, RoundUp(n, 512))
    else if n < 16384 then (RoundUp(n, 1024) / 1024 + 55, RoundUp(n, 1024))
    else (0, n)
  }

  /** The chunk size of each class, from 8 bytes in steps that double every eight classes from the 16th on. */
  function ChunkSize(i: nat): nat {
    if i < 16 then 8 * (i + 1)
    else 128 * Bits.Mask((i - 16) / 8) + 16 * Bits.Mask((i - 16) / 8) * ((i - 16) % 8 + 1)
  }

  lemma ChunkSizeAt(i: nat)
    requires i < CLASSES
    ensures ChunkSize(i) ==
            if i < 16 then 8 * (i + 1) else if i < 24 then 16 * (i - 7) else if i < 32 then 32 * (i - 15)
            else if i < 40 then 64 * (i - 23) else if i < 48 then 128 * (i - 31) else if i < 56 then 256 * (i - 39)
            else if i < 64 then 512 * (i - 47) else 1024 * (i - 55)
  {
    Bits.MasksTo15();
  }

  /** Larger classes have larger chunks: classes and sizes correspond one to one. */
  lemma ChunkSizesGrow(i: nat, j: nat)
    requires i < j < CLASSES
    ensures 0 < ChunkSize(i) < ChunkSize(j)
  {
    ChunkSizeAt(i);
    ChunkSizeAt(j);
    hide ChunkSize;
  }

  /** Rounding up to a multiple of `m`, and its quotient. */
  lemma OneStep(n: nat, m: nat)
    requires m > 0 && n > 0
    ensures var q := RoundUp(n, m) / m; RoundUp(n, m) == m * q && n <= m * q && m * (q - 1) < n && q > 0
  {
    var q := (n + m - 1) / m;
    assert n + m - 1 == q * m + (n + m - 1) % m;
    assert RoundUp(n, m) == m * q;
    ExactQuotient(q, m);
  }

  /** A request goes to the class with the smallest chunks that hold it, and is rounded to their size. */
  lemma SmallestClass(n: nat)
    requires 0 < n < 16384
    ensures var (i, size) := ZoneIndex(n);
      && 0 <= i < CLASSES && size == ChunkSize(i) && n <= size
      && (i > 0 ==> ChunkSize(i - 1) < n)
  {
    if n < 512 {
      SmallestLow(n);
    } else if n < 2048 {
      SmallestMiddle(n);
    } else {
      SmallestHigh(n);
    }
  }

  lemma SmallestLow(n: nat)
    requires 0 < n < 512
    ensures var (i, size) := ZoneIndex(n);
      && 0 <= i < CLASSES && size == ChunkSize(i) && n <= size
      && (i > 0 ==> ChunkSize(i - 1) < n)
  {
    var m := if n < 128 then 8 else if n < 256 then 16 else 32;
    OneStep(n, m);
    hide RoundUp, ChunkSize;
    var i: nat := ZoneIndex(n).0;
    ChunkSizeAt(i);
    if i > 0 { ChunkSizeAt(i - 1); }
  }

  lemma SmallestMiddle(n: nat)
    requires 512 <= n < 2048
    ensures var (i, size) := ZoneIndex(n);
      && 0 <= i < CLASSES && size == ChunkSize(i) && n <= size
      && (i > 0 ==> ChunkSize(i - 1) < n)
  {
    OneStep(n, if n < 1024 then 64 else 128);
    hide RoundUp, ChunkSize;
    var i: nat := ZoneIndex(n).0;
    ChunkSizeAt(i);
    ChunkSizeAt(i - 1);
  }

  lemma SmallestHigh(n: nat)
    requires 2048 <= n < 16384
    ensures var (i, size) := ZoneIndex(n);
      && 0 <= i < CLASSES && size == ChunkSize(i) && n <= size
      && (i > 0 ==> ChunkSize(i - 1) < n)
  {
    OneStep(n, if n < 4096 then 256 else if n < 8192 then 512 else 1024);
    hide RoundUp, ChunkSize;
    var i: nat := ZoneIndex(n).0;
    ChunkSizeAt(i);
    ChunkSizeAt(i - 1);
  }

  /** Rounding stops at the limit for zones, which is a chunk size itself. */
  lemma WithinLimit(n: nat, limit: nat)
    requires 0 < n < limit && limit in {8192, 16384}
    ensures ZoneIndex(n).1 <= limit
  {
  }

  // ----- zones

  /** `zone_size` and `zone_limit`, as `rt_slab_init` sets them, and the size of a zone's header. */
  datatype Layout = Layout(page: nat, zonePages: nat, zoneSize: nat, limit: nat, header: nat) {
    ghost predicate Valid() {
      && page > 0 && zonePages > 0 && zoneSize == zonePages * page
      && zoneSize in {32768, 65536, 131072}
      && limit == (if zoneSize / 4 > 16384 then 16384 else zoneSize / 4)
      && 0 < header <= 1024
    }
  }

  /** The loop of `rt_slab_init` that doubles the zone size while the heap is large enough. */
  method ZoneSize(limsize: nat) returns (size: nat)
    ensures size in {32768, 65536, 131072}
    ensures size > 32768 ==> size < limsize / 1024
    ensures size < 131072 ==> 2 * size >= limsize / 1024
  {
    size := 32768;
    while size < 131072 && size * 2 < limsize / 1024
      invariant size in {32768, 65536, 131072}
      invariant size > 32768 ==> size < limsize / 1024
      decreases 131072 - size
    {
      size := size * 2;
    }
  }

  /** Chunks are numbered from the start of the zone's chunk array. */
  datatype Zone = Zone(index: nat, size: nat, base: nat, nmax: nat, nfree: nat, uindex: nat, free: seq<nat>)

  /** The free chunks are the list and what has never been used; all chunks lie in the zone. */
  ghost predicate ZoneOk(l: Layout, z: Zone) {
    && z.index < CLASSES && z.size == ChunkSize(z.index) && z.nmax >= 2 && z.uindex < z.nmax
    && z.nfree == |z.free| + (z.nmax - 1 - z.uindex)
    && Distinct(z.free) && (forall k :: k in z.free ==> k <= z.uindex)
    && l.header <= z.base && z.base + z.nmax * z.size <= l.zoneSize
    && Packed(l, z.base, z.size, z.nmax)
  }

  /** What the chunks of a zone are aligned to. */
  ghost function Unit(size: nat): (u: nat)
    ensures u > 0
  {
    if Bits.PowerOfTwo(size) && size > 0 then size else 8
  }

  /** The chunks start at the first place behind the header that is aligned, and there are as many as fit. */
  ghost predicate Packed(l: Layout, base: nat, size: nat, nmax: nat) {
    && Aligned(base, Unit(size))
    && (forall b: nat :: l.header <= b && Aligned(b, Unit(size)) ==> base <= b)
    && base + (nmax + 1) * size > l.zoneSize
  }

  predicate LiveIn(z: Zone, k: nat) {
    k <= z.uindex && k !in z.free
  }

  /** A zone has as many chunks in use as it says. */
  lemma LiveCount(l: Layout, z: Zone)
    requires ZoneOk(l, z)
    ensures var live := Upto(z.uindex + 1) - Elems(z.free);
      && |live| == z.nmax - z.nfree && z.nfree <= z.nmax && forall k: nat :: k in live <==> LiveIn(z, k)
    ensures z.nfree == z.nmax <==> forall k: nat :: !LiveIn(z, k)
  {
    hide Packed, ChunkSize;
    var all, free := Upto(z.uindex + 1), Elems(z.free);
    DistinctCount(z.free);
    assert free <= all;
    assert |all - free| == |all| - |free|;
    var live := all - free;
    assert forall k: nat :: k in live <==> LiveIn(z, k);
    if z.nfree == z.nmax {
      assert live == {};
    } else {
      var k :| k in live;
      assert LiveIn(z, k);
    }
  }

  /** Where the chunks of a new zone start: aligned to their size if that is a power of two, else to 8 bytes. */
  function BaseOf(l: Layout, size: nat): nat
    requires size > 0
  {
    if Bits.Or(size, size - 1) + 1 == 2 * size then RoundUp(l.header, size) else RoundUp(l.header, 8)
  }

  function Chunks(room: nat, size: nat): nat
    requires size > 0
  {
    room / size
  }

  /** A zone as `rt_slab_alloc` makes it, with its first chunk in use. */
  function NewZone(l: Layout, index: nat, size: nat): Zone
    requires size > 0
  {
    var base := BaseOf(l, size);
    var nmax := if l.zoneSize >= base then Chunks(l.zoneSize - base, size) else 0;
    Zone(index, size, base, nmax, if nmax > 0 then nmax - 1 else 0, 0, [])
  }

  /** A new zone has room for two chunks at least: one to hand out, one to keep the zone on its list. */
  lemma NewZoneOk(l: Layout, n: nat)
    requires l.Valid() && 0 < n < l.limit
    ensures var (i, size) := ZoneIndex(n);
      && 0 <= i && size > 0 && ZoneOk(l, NewZone(l, i, size))
      && (forall k: nat :: LiveIn(NewZone(l, i, size), k) <==> k == 0)
      && NewZone(l, i, size).nfree > 0
  {
    hide ZoneIndex, BaseOf, Packed, ChunkSize;
    var (i, size) := ZoneIndex(n);
    SmallestClass(n);
    WithinLimit(n, l.limit);
    BaseBounds(l, size);
    ChunksFit(l.zoneSize - BaseOf(l, size), size);
    NewZonePacked(l, i, size);
  }

  lemma BaseBounds(l: Layout, size: nat)
    requires size > 0
    ensures l.header <= BaseOf(l, size) < l.header + size + 8
  {
    hide RoundUp, Aligned;
    RoundUpBounds(l.header, size);
    RoundUpBounds(l.header, 8);
  }

  lemma ChunksFit(room: nat, size: nat)
    requires size > 0 && room >= 2 * size
    ensures room / size >= 2 && room / size * size <= room < (room / size + 1) * size
  {
    assert room == room / size * size + room % size;
  }

  lemma NewZonePacked(l: Layout, i: nat, size: nat)
    requires size > 0 && BaseOf(l, size) + 2 * size <= l.zoneSize
    ensures var z := NewZone(l, i, size); Packed(l, z.base, z.size, z.nmax)
  {
    var base := BaseOf(l, size);
    Bits.PowerTest(size);
    RoundUpIsLeast(l.header, Unit(size));
    assert base == RoundUp(l.header, Unit(size));
    hide RoundUp, Aligned, Unit;
    ChunksFit(l.zoneSize - base, size);
  }

  /** A chunk out of a zone that has one: from the part never used while there is any, else from the list. */
  function TakeChunk(z: Zone): (Zone, nat) {
    var z' := z.(nfree := if z.nfree > 0 then z.nfree - 1 else 0);
    if z.uindex + 1 != z.nmax then (z'.(uindex := z.uindex + 1), z.uindex + 1)
    else if z.free != [] then (z'.(free := z.free[1..]), z.free[0])
    else (z', 0)
  }

  lemma TakeChunkKeeps(l: Layout, z: Zone)
    requires ZoneOk(l, z) && z.nfree > 0
    ensures var (z', k) := TakeChunk(z);
      && ZoneOk(l, z') && z'.nfree == z.nfree - 1 && z'.index == z.index && z'.nmax == z.nmax && z'.size == z.size && z'.base == z.base
      && !LiveIn(z, k) && k < z.nmax
      && forall j: nat :: LiveIn(z', j) <==> j == k || LiveIn(z, j)
  {
    hide Packed, ChunkSize;
    if z.uindex + 1 == z.nmax {
      assert z.free == [z.free[0]] + z.free[1..];
      assert forall j :: j in z.free <==> j == z.free[0] || j in z.free[1..];
    } else {
      assert z.uindex + 1 !in z.free;
    }
  }

  function GiveChunk(z: Zone, k: nat): Zone {
    z.(free := [k] + z.free, nfree := z.nfree + 1)
  }

  lemma GiveChunkKeeps(l: Layout, z: Zone, k: nat)
    requires ZoneOk(l, z) && LiveIn(z, k)
    ensures var z' := GiveChunk(z, k);
      && ZoneOk(l, z') && z.nfree < z.nmax
      && forall j: nat :: LiveIn(z', j) <==> j != k && LiveIn(z, j)
  {
    NotAllFree(l, z, k);
    hide ChunkSize;
    var free := [k] + z.free;
    assert forall i, j :: 0 <= i < j < |free| ==> free[i] != free[j];
  }

  /** While a zone has chunks that were never used, the next of them is handed out, and none a second time. */
  lemma NeverUsedFirst(l: Layout, z: Zone)
    requires ZoneOk(l, z) && z.uindex + 1 < z.nmax
    ensures var (z', k) := TakeChunk(z); k == z.uindex + 1 == z'.uindex && z'.free == z.free
  {
  }

  /** After that, the chunk given back last is the next handed out. */
  lemma LastGivenIsNext(l: Layout, z: Zone, k: nat)
    requires ZoneOk(l, z) && LiveIn(z, k) && z.uindex + 1 == z.nmax
    ensures TakeChunk(GiveChunk(z, k)) == (z, k)
  {
    assert ([k] + z.free)[1..] == z.free;
  }

  lemma NotAllFree(l: Layout, z: Zone, k: nat)
    requires ZoneOk(l, z) && LiveIn(z, k)
    ensures z.nfree < z.nmax
  {
    LiveCount(l, z);
  }

  /** The address of a chunk, from the page its zone starts at. */
  function ChunkAddr(l: Layout, zone: nat, z: Zone, k: nat): nat {
    zone * l.page + z.base + k * z.size
  }

  /** A chunk starts in the pages of its zone, and behind the zone's header. */
  lemma ChunkInZone(l: Layout, zone: nat, z: Zone, k: nat)
    requires l.Valid() && ZoneOk(l, z) && k < z.nmax
    ensures var a := ChunkAddr(l, zone, z, k);
      && zone <= a / l.page < zone + l.zonePages
      && zone * l.page + l.header <= a && a + z.size <= (zone + l.zonePages) * l.page
  {
    hide Packed, ChunkSize, Distinct, ChunkAddr;
    ChunkSizeAt(z.index);
    OffsetBelow(z.base, k, z.nmax, z.size, l.zoneSize);
    InPages(zone, l.header, z.base, k, z.size, l.page, l.zonePages, l.zoneSize);
    AddrIs(l, zone, z, k);
  }

  lemma AddrIs(l: Layout, zone: nat, z: Zone, k: nat)
    ensures ChunkAddr(l, zone, z, k) == zone * l.page + z.base + k * z.size
  {
  }

  lemma OffsetBelow(base: nat, k: nat, n: nat, size: nat, room: nat)
    requires k < n && base + n * size <= room
    ensures base + k * size + size <= room
  {
    ProductMonotone(k + 1, n, size);
  }

  lemma InPages(zone: nat, header: nat, base: nat, k: nat, size: nat, page: nat, pages: nat, room: int)
    requires page > 0 && size > 0 && header <= base && base + k * size + size <= room && room == pages * page
    ensures var a := zone * page + base + k * size;
      zone <= a / page < zone + pages && zone * page + header <= a && a + size <= (zone + pages) * page
  {
    PageOf(zone, base + k * size, page, pages);
  }

  lemma ChunkSizeAligned(i: nat)
    requires i < CLASSES
    ensures Aligned(ChunkSize(i), 8)
  {
    ChunkSizeAt(i);
    hide ChunkSize, Aligned;
    MultipleIsAligned(if i < 16 then i + 1 else if i < 24 then 2 * (i - 7) else if i < 32 then 4 * (i - 15)
                      else if i < 40 then 8 * (i - 23) else if i < 48 then 16 * (i - 31) else if i < 56 then 32 * (i - 39)
                      else if i < 64 then 64 * (i - 47) else 128 * (i - 55), 8);
  }

  lemma AlignedFactor(n: nat, a: nat, b: nat)
    requires a > 0 && b > 0 && Aligned(n, a) && Aligned(a, b)
    ensures Aligned(n, b)
  {
    var q := n / a;
    assert n == q * a;
    AlignedTimes(q, a, b);
  }

  lemma {:induction false} AlignedTimes(k: nat, n: nat, a: nat)
    requires a > 0 && Aligned(n, a)
    ensures Aligned(k * n, a)
  {
    if k > 0 {
      AlignedTimes(k - 1, n, a);
      assert k * n == (k - 1) * n + n;
      AlignedSum((k - 1) * n, n, a);
    }
  }

  /** `a` is aligned as chunks of `size` bytes are to be, as far as pages are. */
  ghost predicate ChunkAligned(l: Layout, size: nat, a: nat) {
    && (Aligned(l.page, 8) ==> Aligned(a, 8))
    && (size > 0 && Bits.PowerOfTwo(size) && Aligned(l.page, size) ==> Aligned(a, size))
  }

  /** Every chunk is aligned to eight bytes, and to its own size if that is a power of two. */
  lemma ChunksAligned(l: Layout, zone: nat, z: Zone, k: nat)
    requires ZoneOk(l, z)
    ensures ChunkAligned(l, z.size, ChunkAddr(l, zone, z, k))
  {
    ChunkSizeAligned(z.index);
    ChunkSizeAt(z.index);
    var u := Unit(z.size);
    assert Aligned(z.base, u) && Aligned(u, 8);
    AlignedFactor(z.base, u, 8);
    hide Aligned, ChunkSize, ZoneOk;
    if Aligned(l.page, 8) {
      AddrAligned(l, zone, z, k, 8);
    }
    if Bits.PowerOfTwo(z.size) && Aligned(l.page, z.size) {
      SelfAligned(z.size);
      AddrAligned(l, zone, z, k, z.size);
    }
  }

  lemma SelfAligned(n: nat)
    requires n > 0
    ensures Aligned(n, n)
  {
  }

  lemma AddrAligned(l: Layout, zone: nat, z: Zone, k: nat, a: nat)
    requires a > 0 && Aligned(l.page, a) && Aligned(z.base, a) && Aligned(z.size, a)
    ensures Aligned(ChunkAddr(l, zone, z, k), a)
  {
    hide Aligned;
    AlignedTimes(zone, l.page, a);
    AlignedTimes(k, z.size, a);
    AlignedSum(zone * l.page, z.base, a);
    AlignedSum(zone * l.page + z.base, k * z.size, a);
  }

  lemma PageOf(zone: nat, off: nat, page: nat, pages: nat)
    requires page > 0 && off < pages * page
    ensures zone <= (zone * page + off) / page < zone + pages
  {
    var q := (zone * page + off) / page;
    assert zone * page + off == q * page + (zone * page + off) % page;
    if q < zone { ProductMonotone(q + 1, zone, page); }
    if q >= zone + pages { ProductMonotone(zone + pages, q, page); }
  }

  /** Different chunks do not overlap. */
  lemma ChunksApart(l: Layout, zone: nat, z: Zone, j: nat, k: nat)
    requires j < k
    ensures ChunkAddr(l, zone, z, j) + z.size <= ChunkAddr(l, zone, z, k)
  {
    ProductMonotone(j + 1, k, z.size);
  }
}
