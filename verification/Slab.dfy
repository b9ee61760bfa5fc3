/** The operations of the slab allocator (`src/slab.c`) on the books of `SlabHeap`. */
module Slab {
  import opened Wrappers
  import opened Sequences
  import opened Arithmetic
  import opened SlabZones
  import opened SlabPages
  import opened SlabHeap

  /** What a caller holds: a chunk of a zone, or pages. */
  datatype Block = Chunk(zone: nat, number: nat) | Whole(start: nat)

  ghost predicate LongEnough(runs: seq<Run>, n: nat) {
    exists i :: 0 <= i < |runs| && runs[i].count >= n
  }

  ghost predicate HeldBlock(l: Layout, b: Books, block: Block, a: nat) {
    match block
    case Chunk(z, k) => LiveChunk(b.zones, z, k) && a == ChunkAddr(l, z, b.zones[z], k)
    case Whole(s) => s in b.large && a == s * l.page
  }

  lemma NotHeld(runs: seq<Run>, owner: map<nat, nat>, npages: nat, s: nat, n: nat)
    requires PagesOk(runs, owner, npages) && forall p: nat :: InSpan(s, n, p) ==> p in owner
    ensures forall p: nat :: InSpan(s, n, p) ==> !Free(runs, p)
  {
  }

  /** The pages of the table of pages. */
  function TablePages(count: nat, page: nat, entry: nat): nat
    requires page > 0
  {
    RoundUp(count * entry, page) / page
  }

  /** They are as few as hold the table, and no more than there are. */
  lemma TableFits(count: nat, page: nat, entry: nat)
    requires count > 0 && 0 < entry <= page
    ensures 0 < TablePages(count, page, entry) <= count
    ensures page * (TablePages(count, page, entry) - 1) < count * entry <= page * TablePages(count, page, entry)
  {
    assert count * entry > 0;
    OneStep(count * entry, page);
    var q := RoundUp(count * entry, page) / page;
    assert page * count == count * entry + count * (page - entry);
    OrderOf(page, q - 1, count);
  }

  lemma OrderOf(m: nat, x: nat, y: nat)
    requires m * x < m * y
    ensures x < y
  {
    assert m * x == x * m && m * y == y * m;
    if x >= y {
      ProductMonotone(y, x, m);
    }
  }

  lemma WholePages(size: nat, page: nat)
    requires page > 0 && size in {32768, 65536, 131072} && 32768 % page == 0
    ensures size / page > 0 && size == size / page * page
  {
    var q := 32768 / page;
    assert 32768 == q * page;
    var m := size / 32768;
    assert size == 32768 * m;
    assert size == page * (q * m);
    ExactQuotient(q * m, page);
    assert q > 0 && m > 0;
    assert q * m > 0;
  }

  lemma LongEnoughIs(runs: seq<Run>, n: nat)
    ensures LongEnough(runs, n) <==> exists i :: 0 <= i < |runs| && runs[i].count >= n
  {
  }

  lemma StartPages(runs: seq<Run>, count: nat)
    requires Canonical(runs) && Total(runs) == count && forall p: nat :: Free(runs, p) <==> p < count
    requires count > 0
    ensures PagesOk(runs, map[], count) && forall n: nat :: 0 < n <= count ==> LongEnough(runs, n)
  {
    var one := [Run(0, count)];
    forall p: nat
      ensures Free(one, p) <==> p < count
    {
      FreeOne(one[0], p);
    }
    RunsUnique(runs, one);
    assert runs[0].count == count;
  }

  lemma StartBooks(l: Layout, s: nat, n: nat)
    requires n > 0
    ensures BooksOk(l, s, Books(map[], seq(CLASSES, i => []), [], map[], map[s := n], Owned(map[], s, n), {}))
  {
    var b := Books(map[], seq(CLASSES, i => []), [], map[], map[s := n], Owned(map[], s, n), {});
    assert HeldOk(map[], map[]);
    HoldSpan(map[], map[], s, n);
    assert map[][s := n] == map[s := n];
    forall i: nat
      ensures ArrayAt(b.zones, b.arrays, i)
    {
    }
    assert Smalls(b) == {};
    forall r: nat
      ensures RoleOk(l, s, b, r)
    {
    }
  }

  /** The zone size is the largest of the three that a heap of `limsize` bytes is worth. */
  ghost predicate ZoneSizeFor(size: nat, limsize: int) {
    && size in {32768, 65536, 131072}
    && (size > 32768 ==> size < limsize / 1024)
    && (size < 131072 ==> 2 * size >= limsize / 1024)
  }

  /** The sizes that `rt_slab_init` computes. */
  method MakeLayout(count: nat, page: nat, header: nat) returns (l: Layout)
    requires page > 0 && 32768 % page == 0 && 0 < header <= 1024
    ensures l.Valid() && l.page == page && l.header == header && ZoneSizeFor(l.zoneSize, count * page)
  {
    var size := ZoneSize(count * page);
    var limit := if size / 4 > 16384 then 16384 else size / 4;
    WholePages(size, page);
    l := Layout(page, size / page, size, limit, header);
  }

  /** The pages of a new heap, of which the first hold the table of pages. */
  method MakePages(count: nat, page: nat, entry: nat) returns (heap: Pages, start: nat, n: nat)
    requires count > 0 && page > 0 && 0 < entry <= page
    ensures fresh(heap) && heap.Valid() && n > 0 && n == TablePages(count, page, entry)
    ensures PagesOk(heap.runs, Owned(map[], start, n), count)
  {
    heap := new Pages(count);
    TableFits(count, page, entry);
    StartPages(heap.runs, count);
    hide Canonical, Free, Total, PagesOk, RoundUp;
    n := TablePages(count, page, entry);
    ghost var before := heap.runs;
    LongEnoughIs(before, n);
    var s := heap.Alloc(n);
    start := s.value;
    PagesTaken(before, map[], count, start, n, heap.runs);
  }

  /** A request for nothing, or one that no list, spare zone or run of pages can meet. */
  ghost predicate Refused(l: Layout, arrays: seq<seq<nat>>, spare: seq<nat>, runs: seq<Run>, size: nat)
    requires l.page > 0
  {
    if size == 0 then true
    else if size >= l.limit then !LongEnough(runs, RoundUp(size, l.page) / l.page)
    else
      var i := ZoneIndex(size).0;
      (0 <= i < |arrays| ==> arrays[i] == []) && spare == [] && !LongEnough(runs, l.zonePages)
  }

  /** What has been granted was not held before, is large enough, and is all that has changed for callers. */
  ghost predicate Granted(l: Layout, b: Books, b': Books, size: nat, block: Block, a: nat)
    requires l.page > 0
  {
    match block
    case Whole(s) =>
      && size >= l.limit && s !in b.large && b'.large == b.large + {s} && b'.zones == b.zones && a == s * l.page
      && s in b'.spans && b'.spans[s] * l.page >= size
    case Chunk(z, k) =>
      && size < l.limit && z in b'.zones && b'.zones[z].size == ZoneIndex(size).1 >= size && b'.large == b.large
      && a == ChunkAddr(l, z, b'.zones[z], k) && !LiveChunk(b.zones, z, k) && OneChunk(b.zones, b'.zones, z, k)
  }

  lemma LargeGranted(l: Layout, b: Books, b': Books, size: nat, s: nat)
    requires l.page > 0 && size > 0 && b' == AfterHold(l, b, s, RoundUp(size, l.page) / l.page, false)
    ensures b'.large == b.large + {s} && b'.zones == b.zones && s in b'.spans && b'.spans[s] * l.page >= size
  {
    OneStep(size, l.page);
    var q := RoundUp(size, l.page) / l.page;
    assert q * l.page == l.page * q;
  }

  lemma ClassesKnown(l: Layout, reserved: nat, b: Books)
    requires BooksOk(l, reserved, b)
    ensures |b.arrays| == CLASSES
  {
  }

  lemma ZoneSized(l: Layout, reserved: nat, b: Books, z: nat)
    requires BooksOk(l, reserved, b) && z in b.zones
    ensures b.zones[z].size == ChunkSize(b.zones[z].index)
  {
    ZoneMarked(l, reserved, b, z);
  }

  lemma ZoneKnown(l: Layout, reserved: nat, b: Books, z: nat, k: nat)
    requires BooksOk(l, reserved, b) && LiveChunk(b.zones, z, k)
    ensures z in b.zones && ZoneOk(l, b.zones[z]) && b.zones[z].index < |b.arrays| && b.zones[z].size > 0
    ensures z !in b.large
  {
    ZoneMarked(l, reserved, b, z);
    assert RoleOk(l, reserved, b, z);
  }

  /** A zone that gives up its last chunk in use is on the list of its class already. */
  lemma LastIsListed(l: Layout, reserved: nat, b: Books, z: nat, k: nat)
    requires BooksOk(l, reserved, b) && LiveChunk(b.zones, z, k)
    ensures z in b.zones && b.zones[z].nmax >= 2 && b.zones[z].index < |b.arrays|
    ensures b.zones[z].nfree + 1 == b.zones[z].nmax ==>
              GivenList(b.arrays[b.zones[z].index], z, b.zones[z].nfree) == b.arrays[b.zones[z].index]
  {
    ZoneMarked(l, reserved, b, z);
  }

  lemma SpareFew(l: Layout, reserved: nat, b: Books)
    requires BooksOk(l, reserved, b)
    ensures |b.spare| <= 2
  {
  }

  lemma GiveReady(l: Layout, reserved: nat, b: Books, z: nat, k: nat)
    requires BooksOk(l, reserved, b) && LiveChunk(b.zones, z, k)
    ensures !Leaves(b, z, k) ==> BooksOk(l, reserved, AfterGive(b, z, k))
  {
    if !Leaves(b, z, k) { GiveStep(l, reserved, b, z, k); }
  }

  /** What a zone's retirement leaves: the zone spare, or its pages given back. */
  ghost predicate RetireOk(l: Layout, reserved: nat, b: Books, z: nat) {
    if |b.spare| < RELEASE_THRESH then BooksOk(l, reserved, Retired(b, z).(spare := [z] + b.spare))
    else BooksOk(l, reserved, AfterRelease(Retired(b, z), z, l.zonePages, Unmarked(b.usage, z, l.zonePages)))
  }

  lemma RetireReady(l: Layout, reserved: nat, b: Books, z: nat, k: nat)
    requires BooksOk(l, reserved, b) && LiveChunk(b.zones, z, k)
    ensures RetireOk(l, reserved, b, z) && |b.spare| <= RELEASE_THRESH && z !in b.large
    ensures z in b.zones && b.zones[z].index < |b.arrays|
    ensures forall p: nat :: InSpan(z, l.zonePages, p) ==> p in b.owner
  {
    ReleaseZone(l, reserved, b, z, k);
    ZoneKnown(l, reserved, b, z, k);
    if |b.spare| < RELEASE_THRESH {
      RetireStep(l, reserved, b, z, k);
    }
  }

  lemma RetiredIs(l: Layout, b: Books, b': Books, z: nat)
    requires z in b.zones && b.zones[z].index < |b.arrays| && z !in b.large
    requires b'.zones == Retired(b, z).zones && b'.arrays == Retired(b, z).arrays && b'.large == b.large && b'.spare == b.spare
    requires b'.usage == Unmarked(b.usage, z, l.zonePages) && b'.spans == b.spans - {z} && b'.owner == Disowned(b.owner, z, l.zonePages)
    ensures b' == AfterRelease(Retired(b, z), z, l.zonePages, Unmarked(b.usage, z, l.zonePages))
  {
    assert b.large - {z} == b.large;
  }

  lemma RetireDone(l: Layout, reserved: nat, b: Books, b': Books, z: nat)
    requires RetireOk(l, reserved, b, z)
    requires b' == if |b.spare| < RELEASE_THRESH then Retired(b, z).(spare := [z] + b.spare)
                   else AfterRelease(Retired(b, z), z, l.zonePages, Unmarked(b.usage, z, l.zonePages))
    ensures BooksOk(l, reserved, b')
  {
  }

  lemma LargeReleased(b: Books, b': Books, s: nat, n: nat)
    requires b' == b.(usage := b.usage[s := Usage(Large, 0)], spans := b.spans - {s}, owner := Disowned(b.owner, s, n), large := b.large - {s})
    ensures b' == AfterRelease(b, s, n, b.usage[s := Usage(Large, 0)])
  {
  }

  class Heap {
    const l: Layout
    const npages: nat
    const reserved: nat
    const pages: Pages
    var zones: Zones
    var arrays: seq<seq<nat>>
    var spare: seq<nat>
    var spareCnt: nat
    var usage: map<nat, Usage>
    ghost var spans: map<nat, nat>
    ghost var owner: map<nat, nat>
    ghost var large: set<nat>

    ghost function B(): Books
      reads this
    {
      Books(zones, arrays, spare, usage, spans, owner, large)
    }

    ghost predicate Valid()
      reads this, pages
    {
      && l.Valid() && BooksOk(l, reserved, B()) && spareCnt == |spare|
      && pages.Valid() && PagesOk(pages.runs, owner, npages)
    }

    /** `rt_slab_init`, for a heap of `count` pages; `entry` is the size of an entry of the table of pages. */
    constructor (count: nat, page: nat, header: nat, entry: nat)
      requires count > 0 && page > 0 && 32768 % page == 0 && 0 < header <= 1024 && 0 < entry <= page
      ensures Valid() && zones == map[] && large == {} && npages == count && fresh(pages)
      ensures l.page == page && l.header == header && ZoneSizeFor(l.zoneSize, count * page)
    {
      var layout := MakeLayout(count, page, header);
      var heap, start, n := MakePages(count, page, entry);
      l, npages, reserved, pages := layout, count, start, heap;
      zones, arrays, spare, spareCnt, usage := map[], seq(CLASSES, i => []), [], 0, map[];
      spans, owner, large := map[start := n], Owned(map[], start, n), {};
      new;
      hide BooksOk, PagesOk, Canonical;
      StartBooks(l, reserved, n);
    }

    /** A request of whole pages. */
    method AllocLarge(size: nat) returns (a: Option<nat>)
      requires Valid() && size > 0
      modifies this, pages
      ensures Valid()
      ensures var n := RoundUp(size, l.page) / l.page;
        && (a.Some? <==> LongEnough(old(pages.runs), n))
        && (a.None? ==> B() == old(B()) && pages.runs == old(pages.runs))
        && (a.Some? ==>
              var s := a.value / l.page;
              a.value == s * l.page && Aligned(a.value, l.page) && s !in old(large) && B() == AfterHold(l, old(B()), s, n, false))
    {
      hide BooksOk, Canonical, Free, Total, PagesOk, AfterHold, Owned, RoundUp;
      OneStep(size, l.page);
      var n := RoundUp(size, l.page) / l.page;
      LongEnoughIs(pages.runs, n);
      ghost var runs, b := pages.runs, B();
      var start := pages.Alloc(n);
      if start == None {
        return None;
      }
      var s := start.value;
      PagesTaken(runs, owner, npages, s, n, pages.runs);
      HoldLarge(l, reserved, b, s, n);
      HoldIs(l, b, s, n);
      usage := usage[s := Usage(Large, n)];
      spans, owner, large := spans[s := n], Owned(owner, s, n), large + {s};
      StartOf(s, l.page);
      MultipleIsAligned(s, l.page);
      a := Some(s * l.page);
    }

    /** A chunk of the first zone of the class. */
    method AllocChunk(i: nat) returns (a: nat, ghost z: nat, ghost k: nat)
      requires Valid() && i < CLASSES && arrays[i] != []
      modifies this
      ensures Valid() && large == old(large)
      ensures z == old(arrays)[i][0] && z in zones && zones[z].index == i && a == ChunkAddr(l, z, zones[z], k)
      ensures ChunkAligned(l, zones[z].size, a)
      ensures !LiveChunk(old(zones), z, k) && OneChunk(old(zones), zones, z, k)
    {
      hide BooksOk, PagesOk, OneChunk, LiveChunk, ChunkAligned, ZoneOk;
      TakeStep(l, reserved, B(), i);
      var zone := arrays[i][0];
      TakeLive(l, zones, zone);
      ghost var after := AfterTake(B(), i);
      TakeChunkKeepsClass(l, zones[zone]);
      ChunksAligned(l, zone, zones[zone], TakeChunk(zones[zone]).1);
      var (taken, number) := TakeChunk(zones[zone]);
      zones := zones[zone := taken];
      if taken.nfree == 0 {
        arrays := arrays[i := arrays[i][1..]];
      }
      assert arrays == after.arrays;
      z, k := zone, number;
      a := ChunkAddr(l, zone, taken, number);
    }

    /** A new zone for the class, spare or of fresh pages, and its first chunk. */
    method AllocZone(n: nat) returns (a: Option<nat>, ghost z: nat)
      requires Valid() && 0 < n < l.limit && arrays[ZoneIndex(n).0] == []
      modifies this, pages
      ensures Valid() && large == old(large)
      ensures a.Some? <==> old(spare) != [] || LongEnough(old(pages.runs), l.zonePages)
      ensures a.None? ==> B() == old(B()) && pages.runs == old(pages.runs)
      ensures a.Some? ==> z in zones && zones[z].index == ZoneIndex(n).0 && a.value == ChunkAddr(l, z, zones[z], 0)
      ensures a.Some? ==> ChunkAligned(l, zones[z].size, a.value) && Packed(l, zones[z].base, zones[z].size, zones[z].nmax)
      ensures a.Some? ==> !LiveChunk(old(zones), z, 0) && OneChunk(old(zones), zones, z, 0)
      ensures old(spare) != [] ==> z == old(spare)[0] && pages.runs == old(pages.runs)
    {
      var (i, size) := ZoneIndex(n);
      NewZoneOk(l, n);
      var zone := NewZone(l, i, size);
      NewZoneFields(l, i, size);
      assert Packed(l, zone.base, zone.size, zone.nmax);
      hide Packed, ChunkAligned;
      hide BooksOk, PagesOk, Canonical, Free, Total, OneChunk, LiveChunk, ZoneOk, NewZone, LongEnough, LiveIn;
      var s: Option<nat>;
      if spare != [] {
        s := ReuseZone(i, zone);
      } else {
        s := FreshZone(i, zone);
      }
      if s == None {
        return None, 0;
      }
      NewLive(l, old(zones), s.value, zone);
      z := s.value;
      ChunksAligned(l, z, zone, 0);
      a := Some(ChunkAddr(l, s.value, zone, 0));
    }

    method ReuseZone(i: nat, zone: Zone) returns (s: Option<nat>)
      requires Valid() && spare != [] && ZoneOk(l, zone) && 0 < zone.nfree < zone.nmax && zone.index == i
      modifies this
      ensures Valid() && s == Some(old(spare)[0]) && s.value !in old(zones)
      ensures zones == old(zones)[s.value := zone] && large == old(large)
    {
      ReuseStep(l, reserved, B(), zone);
      InClasses(l, zone, arrays, B(), reserved);
      hide BooksOk, PagesOk, ZoneOk, Canonical;
      var z := spare[0];
      InstallSpare(zone);
      s := Some(z);
    }

    /** The first spare zone comes off its list and starts to serve a class. */
    method InstallSpare(zone: Zone)
      requires spare != [] && spareCnt == |spare| && zone.index < |arrays|
      modifies this
      ensures B() == AfterNew(old(B()).(spare := old(spare)[1..]), old(spare)[0], zone) && spareCnt == |spare|
    {
      var z := spare[0];
      spare := spare[1..];
      spareCnt := spareCnt - 1;
      zones := zones[z := zone];
      arrays := arrays[zone.index := [z] + arrays[zone.index]];
    }

    method FreshZone(i: nat, zone: Zone) returns (s: Option<nat>)
      requires Valid() && ZoneOk(l, zone) && 0 < zone.nfree < zone.nmax && zone.index == i
      modifies this, pages
      ensures Valid() && large == old(large)
      ensures s.Some? <==> LongEnough(old(pages.runs), l.zonePages)
      ensures s.None? ==> B() == old(B()) && pages.runs == old(pages.runs)
      ensures s.Some? ==> s.value !in old(zones) && zones == old(zones)[s.value := zone]
    {
      ghost var b, runs := B(), pages.runs;
      InClasses(l, zone, arrays, B(), reserved);
      LongEnoughIs(pages.runs, l.zonePages);
      hide BooksOk, PagesOk, Canonical, Free, Total, ZoneOk, Marked, Owned, LongEnough;
      s := pages.Alloc(l.zonePages);
      if s == None {
        return;
      }
      PagesTaken(runs, owner, npages, s.value, l.zonePages, pages.runs);
      HoldZone(l, reserved, b, s.value, zone);
      Install(s.value, zone);
    }

    /** Fresh pages entered as zone `z`. */
    method Install(z: nat, zone: Zone)
      requires zone.index < |arrays|
      modifies this
      ensures B() == AfterNew(AfterHold(l, old(B()), z, l.zonePages, true), z, zone) && spareCnt == old(spareCnt)
    {
      MarkPages(z);
      spans, owner := spans[z := l.zonePages], Owned(owner, z, l.zonePages);
      zones := zones[z := zone];
      arrays := arrays[zone.index := [z] + arrays[zone.index]];
    }

    /** The loop that enters a new zone in the table of pages. */
    method MarkPages(z: nat)
      modifies this`usage
      ensures usage == Marked(old(usage), z, l.zonePages)
    {
      var off := 0;
      while off < l.zonePages
        invariant off <= l.zonePages && usage == Marked(old(usage), z, off)
      {
        usage := usage[z + off := Usage(Small, off)];
        off := off + 1;
      }
    }

    method UnmarkPages(z: nat)
      modifies this`usage
      ensures usage == Unmarked(old(usage), z, l.zonePages)
    {
      var off := 0;
      while off < l.zonePages
        invariant off <= l.zonePages && usage == Unmarked(old(usage), z, off)
      {
        usage := usage[z + off := Usage(Unused, 0)];
        off := off + 1;
      }
    }

    /** `rt_slab_alloc`; `block` says what the caller has got. */
    method Alloc(size: nat) returns (a: Option<nat>, ghost block: Block)
      requires Valid()
      modifies this, pages
      ensures Valid()
      ensures a.None? <==> Refused(l, old(arrays), old(spare), old(pages.runs), size)
      ensures a.None? ==> B() == old(B()) && pages.runs == old(pages.runs)
      ensures a.Some? ==> Granted(l, old(B()), B(), size, block, a.value)
      ensures a.Some? && block.Chunk? ==>
        var i := ZoneIndex(size).0;
        && 0 <= i < |old(arrays)|
        && (old(arrays)[i] != [] ==> block.zone == old(arrays)[i][0])
        && (old(arrays)[i] == [] && old(spare) != [] ==> block.zone == old(spare)[0])
      ensures a.Some? ==> if size < l.limit then ChunkAligned(l, ZoneIndex(size).1, a.value) else Aligned(a.value, l.page)
    {
      hide ChunkAligned, Aligned, Packed;
      hide BooksOk, PagesOk, Canonical, LongEnough, OneChunk, LiveChunk, ChunkAddr, RoundUp;
      block := Whole(0);
      if size == 0 {
        return None, block;
      }
      if size >= l.limit {
        a := AllocLarge(size);
        block := Whole(if a.Some? then a.value / l.page else 0);
        if a.Some? { LargeGranted(l, old(B()), B(), size, a.value / l.page); }
        return;
      }
      var (i, chunk) := ZoneIndex(size);
      SmallestClass(size);
      ClassesKnown(l, reserved, B());
      ghost var z, k := 0, 0;
      if arrays[i] != [] {
        var got;
        got, z, k := AllocChunk(i);
        a := Some(got);
      } else {
        a, z := AllocZone(size);
      }
      block := Chunk(z, k);
      if a.Some? { ZoneSized(l, reserved, B(), z); }
    }

    /** `rt_slab_free`; nothing but the block has changed for callers. */
    method Release(a: nat, ghost block: Block)
      requires Valid() && HeldBlock(l, B(), block, a)
      modifies this, pages
      ensures Valid()
      ensures match block
              case Whole(s) => large == old(large) - {s} && zones == old(zones)
              case Chunk(z, k) => large == old(large) && !LiveChunk(zones, z, k) && OneChunk(zones, old(zones), z, k)
      ensures block.Chunk? ==> block.zone in old(zones)
      ensures block.Chunk? ==>
        var was := old(zones)[block.zone];
        && was.index < |old(arrays)|
        && (block.zone !in zones <==> was.nfree + 1 == was.nmax && old(arrays)[was.index] != [block.zone])
      ensures |spare| <= 2
    {
      var page := a / l.page;
      if block.Whole? {
        ReleaseLarge(l, reserved, B(), block.start);
        assert block.start * l.page == l.page * block.start;
        ExactQuotient(block.start, l.page);
      } else {
        TableFinds(l, reserved, B(), block.zone, block.number);
      }
      hide BooksOk, PagesOk, Canonical, LiveChunk, OneChunk, ChunkAddr, HeldOk, UsageOk;
      var kup := usage[page];
      if kup.kind == Large {
        FreeLarge(page);
      } else {
        var z := page - kup.size;
        ZoneKnown(l, reserved, B(), z, block.number);
        var k := (a - z * l.page - zones[z].base) / zones[z].size;
        FreeChunk(z, k);
      }
      SpareFew(l, reserved, B());
    }

    method FreeLarge(s: nat)
      requires Valid() && s in large
      modifies this, pages
      ensures Valid() && large == old(large) - {s} && zones == old(zones)
    {
      ghost var b := B();
      hide BooksOk, PagesOk, Canonical, HeldOk, UsageOk, Disowned, AfterRelease;
      ReleaseLarge(l, reserved, b, s);
      var size := usage[s].size;
      usage := usage[s := Usage(Large, 0)];
      GivePages(s, size);
      large := large - {s};
      LargeReleased(b, B(), s, size);
    }

    /** A span goes back to the page allocator. */
    method GivePages(s: nat, n: nat)
      requires n > 0 && pages.Valid() && PagesOk(pages.runs, owner, npages) && forall p: nat :: InSpan(s, n, p) ==> p in owner
      modifies this`spans, this`owner, pages
      ensures pages.Valid() && PagesOk(pages.runs, owner, npages)
      ensures spans == old(spans) - {s} && owner == Disowned(old(owner), s, n)
    {
      ghost var runs := pages.runs;
      NotHeld(runs, owner, npages, s, n);
      hide PagesOk, Canonical, Free, Total, Disowned;
      pages.Give(s, n);
      PagesGiven(runs, owner, npages, s, n, pages.runs);
      spans, owner := spans - {s}, Disowned(owner, s, n);
    }

    method FreeChunk(z: nat, k: nat)
      requires Valid() && LiveChunk(zones, z, k)
      modifies this, pages
      ensures Valid() && large == old(large)
      ensures !LiveChunk(zones, z, k) && OneChunk(zones, old(zones), z, k)
      ensures z in old(zones) && old(zones)[z].index < |old(arrays)|
      ensures z !in zones <==> old(zones)[z].nfree + 1 == old(zones)[z].nmax && old(arrays)[old(zones)[z].index] != [z]
      ensures z in zones ==>
        var i := old(zones)[z].index;
        && spare == old(spare)
        && arrays == if old(zones)[z].nfree == 0 then old(arrays)[i := [z] + old(arrays)[i]] else old(arrays)
      ensures z !in zones ==>
        var i := old(zones)[z].index;
        && arrays == old(arrays)[i := Without(old(arrays)[i], z)]
        && spare == if |old(spare)| < 2 then [z] + old(spare) else old(spare)
    {
      hide BooksOk, PagesOk, Canonical, LiveChunk, OneChunk, ZoneOk, GiveChunk, HeldOk, UsageOk;
      LastIsListed(l, reserved, B(), z, k);
      ZoneKnown(l, reserved, B(), z, k);
      GiveLive(l, zones, z, k);
      GiveReady(l, reserved, B(), z, k);
      var zone := zones[z];
      if zone.nfree + 1 == zone.nmax && GivenList(arrays[zone.index], z, zone.nfree) != [z] {
        Retire(z, k);
      } else {
        PutBack(z, k);
      }
    }

    /** The chunk goes onto the list of its zone. */
    method PutBack(z: nat, k: nat)
      requires z in zones && zones[z].index < |arrays|
      modifies this`zones, this`arrays
      ensures B() == AfterGive(old(B()), z, k)
      ensures z in old(zones) && old(zones)[z].index < |old(arrays)|
      ensures var i := old(zones)[z].index;
        arrays == if old(zones)[z].nfree == 0 then old(arrays)[i := [z] + old(arrays)[i]] else old(arrays)
    {
      var zone := zones[z];
      zones := zones[z := GiveChunk(zone, k)];
      if zone.nfree == 0 {
        arrays := arrays[zone.index := [z] + arrays[zone.index]];
      }
      assert arrays == old(arrays)[zone.index := GivenList(old(arrays)[zone.index], z, zone.nfree)];
    }

    /** The chunk was the zone's last; the zone becomes spare, or one too many and its pages go back. */
    method Retire(z: nat, k: nat)
      requires Valid() && LiveChunk(zones, z, k) && Leaves(B(), z, k)
      modifies this, pages
      ensures Valid() && large == old(large) && zones == old(zones) - {z}
      ensures z in old(zones) && old(zones)[z].index < |old(arrays)|
      ensures var i, nfree := old(zones)[z].index, old(zones)[z].nfree;
        && arrays == old(arrays)[i := Without(GivenList(old(arrays)[i], z, nfree), z)]
        && spare == if |old(spare)| < 2 then [z] + old(spare) else old(spare)
    {
      ghost var b := B();
      RetireReady(l, reserved, b, z, k);
      hide BooksOk, PagesOk, Canonical, LiveChunk, Disowned, Unmarked, Without, Retired, AfterRelease, RetireOk;
      TakeOff(z);
      spare := [z] + spare;
      spareCnt := spareCnt + 1;
      assert B() == Retired(b, z).(spare := [z] + b.spare);
      if spareCnt > RELEASE_THRESH {
        ReleaseSpare(b);
        RetiredIs(l, b, B(), z);
      }
      RetireDone(l, reserved, b, B(), z);
    }

    /** The zone that has just become spare is one too many. */
    method ReleaseSpare(ghost b: Books)
      requires spare != [] && spareCnt == |spare| && pages.Valid() && PagesOk(pages.runs, owner, npages) && l.zonePages > 0
      requires forall p: nat :: InSpan(spare[0], l.zonePages, p) ==> p in owner
      modifies this, pages
      ensures pages.Valid() && PagesOk(pages.runs, owner, npages) && spareCnt == |spare|
      ensures spare == old(spare)[1..] && zones == old(zones) && arrays == old(arrays) && large == old(large)
      ensures usage == Unmarked(old(usage), old(spare)[0], l.zonePages)
      ensures spans == old(spans) - {old(spare)[0]} && owner == Disowned(old(owner), old(spare)[0], l.zonePages)
    {
      hide PagesOk, Canonical, Disowned, Unmarked;
      var y := spare[0];
      spare := spare[1..];
      spareCnt := spareCnt - 1;
      UnmarkPages(y);
      GivePages(y, l.zonePages);
    }

    /** Zone `z` leaves the list of its class, which it may just have entered. */
    method TakeOff(z: nat)
      requires z in zones && zones[z].index < |arrays|
      modifies this`zones, this`arrays
      ensures B() == Retired(old(B()), z)
    {
      var i := zones[z].index;
      arrays := arrays[i := Without(GivenList(arrays[i], z, zones[z].nfree), z)];
      zones := zones - {z};
    }
  }

  lemma StartOf(s: nat, page: nat)
    requires page > 0
    ensures s * page / page == s
  {
    assert s * page == page * s;
    ExactQuotient(s, page);
  }

  lemma HoldIs(l: Layout, b: Books, s: nat, n: nat)
    ensures AfterHold(l, b, s, n, false) ==
            b.(spans := b.spans[s := n], owner := Owned(b.owner, s, n), large := b.large + {s}, usage := b.usage[s := Usage(Large, n)])
  {
  }

  lemma TakeChunkKeepsClass(l: Layout, z: Zone)
    ensures TakeChunk(z).0.index == z.index && TakeChunk(z).0.size == z.size && TakeChunk(z).0.base == z.base
  {
  }

  lemma InClasses(l: Layout, zone: Zone, arrays: seq<seq<nat>>, b: Books, reserved: nat)
    requires ZoneOk(l, zone) && BooksOk(l, reserved, b) && b.arrays == arrays
    ensures zone.index < CLASSES == |arrays|
  {
  }

  lemma NewZoneFields(l: Layout, i: nat, size: nat)
    requires size > 0
    ensures NewZone(l, i, size).index == i && NewZone(l, i, size).nfree <= NewZone(l, i, size).nmax
    ensures NewZone(l, i, size).nmax > 0 ==> NewZone(l, i, size).nfree < NewZone(l, i, size).nmax
  {
  }

  lemma NewLive(l: Layout, zones: Zones, z: nat, zone: Zone)
    requires z !in zones && forall k: nat :: LiveIn(zone, k) <==> k == 0
    ensures !LiveChunk(zones, z, 0) && OneChunk(zones, zones[z := zone], z, 0)
  {
  }
}
