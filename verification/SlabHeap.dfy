/**
 The slab allocator of `src/slab.c`: zones of chunks on the lists of their classes, a few spare zones, and the
 page allocator under them. A table tells for every page to which zone it belongs.
 */
module SlabHeap {
  import opened Wrappers
  import opened Sequences
  import opened Arithmetic
  import opened SlabZones
  import opened SlabPages

  /** PAGE_TYPE_FREE, _SMALL and _LARGE, and `size` of `rt_slab_memusage`. */
  datatype Kind = Unused | Small | Large
  datatype Usage = Usage(kind: Kind, size: nat)

  type Zones = map<nat, Zone>

  /** ZONE_RELEASE_THRESH. */
  const RELEASE_THRESH: nat := 2

  // ----- pages held

  ghost predicate SpanOk(spans: map<nat, nat>, owner: map<nat, nat>, s: nat) {
    s in spans && spans[s] > 0 && forall p: nat :: InSpan(s, spans[s], p) ==> p in owner && owner[p] == s
  }

  ghost predicate PageOk(spans: map<nat, nat>, owner: map<nat, nat>, p: nat) {
    p in owner && owner[p] in spans && InSpan(owner[p], spans[owner[p]], p)
  }

  /** The spans held are disjoint, and `owner` holds exactly their pages. */
  ghost predicate HeldOk(spans: map<nat, nat>, owner: map<nat, nat>) {
    && (forall s {:trigger SpanOk(spans, owner, s)} :: s in spans ==> SpanOk(spans, owner, s))
    && (forall p {:trigger PageOk(spans, owner, p)} :: p in owner ==> PageOk(spans, owner, p))
  }

  /** Every page is either free or held. */
  ghost predicate PagesOk(runs: seq<Run>, owner: map<nat, nat>, npages: nat) {
    && Canonical(runs)
    && (forall p: nat :: Free(runs, p) <==> p < npages && p !in owner)
    && (forall p: nat :: p in owner ==> p < npages)
    && |owner| + Total(runs) == npages
  }

  function Owned(owner: map<nat, nat>, s: nat, n: nat): map<nat, nat> {
    if n == 0 then owner else Owned(owner, s, n - 1)[s + n - 1 := s]
  }

  function Disowned(owner: map<nat, nat>, s: nat, n: nat): map<nat, nat> {
    if n == 0 then owner else Disowned(owner, s, n - 1) - {s + n - 1}
  }

  lemma {:induction false} OwnedIs(owner: map<nat, nat>, s: nat, n: nat)
    requires forall p: nat :: InSpan(s, n, p) ==> p !in owner
    ensures |Owned(owner, s, n)| == |owner| + n
    ensures forall p: nat :: p in Owned(owner, s, n) <==> p in owner || InSpan(s, n, p)
    ensures forall p: nat :: p in Owned(owner, s, n) ==> Owned(owner, s, n)[p] == if InSpan(s, n, p) then s else owner[p]
  {
    if n > 0 {
      assert InSpan(s, n, s + n - 1);
      forall p: nat | InSpan(s, n - 1, p) ensures p !in owner { assert InSpan(s, n, p); }
      OwnedIs(owner, s, n - 1);
      assert !InSpan(s, n - 1, s + n - 1);
      assert s + n - 1 !in Owned(owner, s, n - 1);
    }
  }

  lemma RemoveOne(m: map<nat, nat>, q: nat)
    requires q in m
    ensures |m - {q}| == |m| - 1
  {
    assert (m - {q}).Keys == m.Keys - {q};
    assert |m - {q}| == |(m - {q}).Keys| && |m| == |m.Keys|;
  }

  lemma {:induction false} DisownedAt(owner: map<nat, nat>, s: nat, n: nat, p: nat)
    ensures p in Disowned(owner, s, n) <==> p in owner && !InSpan(s, n, p)
    ensures p in Disowned(owner, s, n) ==> Disowned(owner, s, n)[p] == owner[p]
  {
    if n > 0 {
      DisownedAt(owner, s, n - 1, p);
    }
  }

  lemma SpanLast(s: nat, n: nat)
    requires n > 0
    ensures InSpan(s, n, s + n - 1) && !InSpan(s, n - 1, s + n - 1)
    ensures forall p: nat :: InSpan(s, n - 1, p) ==> InSpan(s, n, p)
  {
  }

  lemma DisownedStep(owner: map<nat, nat>, s: nat, n: nat)
    requires n > 0 && s + n - 1 in Disowned(owner, s, n - 1)
    ensures |Disowned(owner, s, n)| == |Disowned(owner, s, n - 1)| - 1
  {
    var q: nat, was := s + n - 1, Disowned(owner, s, n - 1);
    RemoveOne(was, q);
    assert Disowned(owner, s, n) == was - {q};
  }

  lemma DisownedNone(owner: map<nat, nat>, s: nat)
    ensures |Disowned(owner, s, 0)| == |owner|
  {
  }

  lemma {:induction false} DisownedCount(owner: map<nat, nat>, s: nat, n: nat)
    requires forall p: nat :: InSpan(s, n, p) ==> p in owner
    ensures |Disowned(owner, s, n)| + n == |owner|
  {
    hide *;
    if n == 0 {
      DisownedNone(owner, s);
    } else {
      var q: nat := s + n - 1;
      SpanLast(s, n);
      DisownedAt(owner, s, n - 1, q);
      DisownedCount(owner, s, n - 1);
      assert q in owner;
      DisownedStep(owner, s, n);
    }
  }

  lemma DisownedIs(owner: map<nat, nat>, s: nat, n: nat)
    requires forall p: nat :: InSpan(s, n, p) ==> p in owner
    ensures |Disowned(owner, s, n)| + n == |owner|
    ensures forall p: nat :: p in Disowned(owner, s, n) <==> p in owner && !InSpan(s, n, p)
    ensures forall p: nat :: p in Disowned(owner, s, n) ==> Disowned(owner, s, n)[p] == owner[p]
  {
    DisownedCount(owner, s, n);
    forall p: nat
      ensures p in Disowned(owner, s, n) <==> p in owner && !InSpan(s, n, p)
      ensures p in Disowned(owner, s, n) ==> Disowned(owner, s, n)[p] == owner[p]
    {
      DisownedAt(owner, s, n, p);
    }
  }

  lemma HoldSpan(spans: map<nat, nat>, owner: map<nat, nat>, s: nat, n: nat)
    requires HeldOk(spans, owner) && n > 0 && forall p: nat :: InSpan(s, n, p) ==> p !in owner
    ensures s !in spans && HeldOk(spans[s := n], Owned(owner, s, n))
  {
    OwnedIs(owner, s, n);
    assert InSpan(s, n, s);
    if s in spans {
      assert SpanOk(spans, owner, s);
      assert InSpan(s, spans[s], s);
      assert false;
    }
    var spans', owner' := spans[s := n], Owned(owner, s, n);
    forall r | r in spans'
      ensures SpanOk(spans', owner', r)
    {
      if r != s {
        assert SpanOk(spans, owner, r);
        forall p: nat | InSpan(r, spans[r], p)
          ensures p in owner' && owner'[p] == r
        {
          assert p in owner && owner[p] == r;
        }
      }
    }
    forall p | p in owner'
      ensures PageOk(spans', owner', p)
    {
      if !InSpan(s, n, p) {
        assert PageOk(spans, owner, p);
      }
    }
  }

  lemma ReleaseSpan(spans: map<nat, nat>, owner: map<nat, nat>, s: nat)
    requires HeldOk(spans, owner) && s in spans
    ensures forall p: nat :: InSpan(s, spans[s], p) ==> p in owner
    ensures HeldOk(spans - {s}, Disowned(owner, s, spans[s]))
  {
    assert SpanOk(spans, owner, s);
    DisownedIs(owner, s, spans[s]);
    var spans', owner' := spans - {s}, Disowned(owner, s, spans[s]);
    forall r | r in spans'
      ensures SpanOk(spans', owner', r)
    {
      assert SpanOk(spans, owner, r);
      forall p: nat | InSpan(r, spans[r], p)
        ensures p in owner' && owner'[p] == r
      {
        assert p in owner && owner[p] == r;
        assert r != s;
      }
    }
    forall p | p in owner'
      ensures PageOk(spans', owner', p)
    {
      assert PageOk(spans, owner, p);
    }
  }

  lemma PagesTaken(runs: seq<Run>, owner: map<nat, nat>, npages: nat, s: nat, n: nat, runs': seq<Run>)
    requires PagesOk(runs, owner, npages) && Canonical(runs') && Total(runs') == Total(runs) - n
    requires forall p: nat :: Free(runs', p) <==> Free(runs, p) && !InSpan(s, n, p)
    requires forall p: nat :: InSpan(s, n, p) ==> Free(runs, p)
    ensures (forall p: nat :: InSpan(s, n, p) ==> p !in owner) && PagesOk(runs', Owned(owner, s, n), npages)
  {
    forall p: nat | InSpan(s, n, p)
      ensures p !in owner && p < npages
    {
      assert Free(runs, p);
    }
    OwnedIs(owner, s, n);
    hide Canonical, Free, Total, Owned;
  }

  lemma PagesGiven(runs: seq<Run>, owner: map<nat, nat>, npages: nat, s: nat, n: nat, runs': seq<Run>)
    requires PagesOk(runs, owner, npages) && Canonical(runs') && Total(runs') == Total(runs) + n
    requires forall p: nat :: Free(runs', p) <==> Free(runs, p) || InSpan(s, n, p)
    requires forall p: nat :: InSpan(s, n, p) ==> p in owner
    ensures PagesOk(runs', Disowned(owner, s, n), npages)
  {
    DisownedIs(owner, s, n);
    hide Canonical, Free, Total, Disowned;
  }

  // ----- the lists of the classes

  ghost predicate WhollyFree(zones: Zones, z: nat) {
    z in zones && zones[z].nfree == zones[z].nmax
  }

  /** The list of class `i` holds its zones that are not full, and of these at most one is wholly free. */
  ghost predicate ArrayOk(zones: Zones, list: seq<nat>, i: nat) {
    && Distinct(list)
    && (forall z {:trigger z in list} :: z in list <==> z in zones && zones[z].index == i && zones[z].nfree > 0)
    && (forall y, z :: y in list && z in list && WhollyFree(zones, y) && WhollyFree(zones, z) ==> y == z)
  }

  ghost predicate ArrayAt(zones: Zones, arrays: seq<seq<nat>>, i: nat) {
    i < |arrays| ==> ArrayOk(zones, arrays[i], i)
  }

  ghost predicate ArraysOk(l: Layout, zones: Zones, arrays: seq<seq<nat>>) {
    && |arrays| == CLASSES
    && (forall i: nat {:trigger ArrayAt(zones, arrays, i)} :: ArrayAt(zones, arrays, i))
    && (forall z {:trigger zones[z]} :: z in zones ==> ZoneOk(l, zones[z]))
  }

  /** A change of zone `z` and of the list of its class. */
  lemma ArraysChange(l: Layout, zones: Zones, arrays: seq<seq<nat>>, z: nat, zone: Zone, list: seq<nat>)
    requires ArraysOk(l, zones, arrays) && ZoneOk(l, zone) && (z in zones ==> zones[z].index == zone.index)
    requires ArrayOk(zones[z := zone], list, zone.index)
    ensures ArraysOk(l, zones[z := zone], arrays[zone.index := list])
  {
    var zones', arrays' := zones[z := zone], arrays[zone.index := list];
    forall i: nat
      ensures ArrayAt(zones', arrays', i)
    {
      assert ArrayAt(zones, arrays, i);
    }
    hide ZoneOk;
    forall y | y in zones'
      ensures ZoneOk(l, zones'[y])
    {
      if y != z { assert y in zones; }
    }
  }

  /** Zone `z` gone, and off the list of its class. */
  lemma ArraysRemove(l: Layout, zones: Zones, arrays: seq<seq<nat>>, z: nat, list: seq<nat>)
    requires ArraysOk(l, zones, arrays) && z in zones && zones[z].index < CLASSES
    requires ArrayOk(zones - {z}, list, zones[z].index)
    ensures ArraysOk(l, zones - {z}, arrays[zones[z].index := list])
  {
    var zones', arrays' := zones - {z}, arrays[zones[z].index := list];
    forall i: nat
      ensures ArrayAt(zones', arrays', i)
    {
      assert ArrayAt(zones, arrays, i);
    }
    hide ZoneOk;
    forall y | y in zones'
      ensures ZoneOk(l, zones'[y])
    {
      assert y in zones;
    }
  }

  // ----- the table of pages

  function Marked(usage: map<nat, Usage>, z: nat, n: nat): map<nat, Usage> {
    if n == 0 then usage else Marked(usage, z, n - 1)[z + n - 1 := Usage(Small, n - 1)]
  }

  function Unmarked(usage: map<nat, Usage>, z: nat, n: nat): map<nat, Usage> {
    if n == 0 then usage else Unmarked(usage, z, n - 1)[z + n - 1 := Usage(Unused, 0)]
  }

  lemma {:induction false} MarkedIs(usage: map<nat, Usage>, z: nat, n: nat)
    ensures forall p: nat :: InSpan(z, n, p) ==> p in Marked(usage, z, n) && Marked(usage, z, n)[p] == Usage(Small, p - z)
    ensures forall p: nat :: !InSpan(z, n, p) && p in usage ==> p in Marked(usage, z, n) && Marked(usage, z, n)[p] == usage[p]
    ensures forall p: nat :: !InSpan(z, n, p) && p in usage ==> p in Unmarked(usage, z, n) && Unmarked(usage, z, n)[p] == usage[p]
  {
    if n > 0 {
      MarkedIs(usage, z, n - 1);
      forall p: nat
        ensures InSpan(z, n, p) <==> InSpan(z, n - 1, p) || p == z + n - 1
      {
      }
    }
  }

  /** Every page of a zone says how far it is from the zone's first page; a large block's first page says its length. */
  ghost predicate UsedAs(usage: map<nat, Usage>, s: nat, n: nat, small: bool) {
    if small then forall p: nat :: InSpan(s, n, p) ==> p in usage && usage[p] == Usage(Small, p - s)
    else s in usage && usage[s] == Usage(Large, n)
  }

  ghost predicate UsageOk(usage: map<nat, Usage>, spans: map<nat, nat>, small: set<nat>, large: set<nat>) {
    forall s {:trigger s in spans} :: s in spans && (s in small || s in large) ==> UsedAs(usage, s, spans[s], s in small)
  }

  lemma UsageFrame(usage: map<nat, Usage>, usage': map<nat, Usage>, spans: map<nat, nat>, owner: map<nat, nat>, spans': map<nat, nat>, small: set<nat>, large: set<nat>, small': set<nat>, large': set<nat>, s: nat, n: nat)
    requires UsageOk(usage, spans, small, large) && HeldOk(spans, owner)
    requires forall p: nat :: InSpan(s, n, p) ==> p !in owner || owner[p] == s
    requires forall p: nat :: !InSpan(s, n, p) && p in usage ==> p in usage' && usage'[p] == usage[p]
    requires forall r :: r in spans' && r != s && (r in small' || r in large') ==>
               r in spans && spans'[r] == spans[r] && (r in small' <==> r in small) && (r in large' <==> r in large)
    requires s in spans' && (s in small' || s in large') ==> UsedAs(usage', s, spans'[s], s in small')
    ensures UsageOk(usage', spans', small', large')
  {
    forall r | r in spans' && (r in small' || r in large') && r != s
      ensures UsedAs(usage', r, spans'[r], r in small')
    {
      assert SpanOk(spans, owner, r);
      assert UsedAs(usage, r, spans[r], r in small);
      forall p: nat | InSpan(r, spans[r], p)
        ensures !InSpan(s, n, p)
      {
        assert p in owner && owner[p] == r;
      }
      assert InSpan(r, spans[r], r);
    }
  }

  // ----- the books

  /** All that the allocator keeps; `spans` and `owner` record the pages held, `large` the large blocks. */
  datatype Books = Books(zones: Zones, arrays: seq<seq<nat>>, spare: seq<nat>, usage: map<nat, Usage>,
                         spans: map<nat, nat>, owner: map<nat, nat>, large: set<nat>)

  function Smalls(b: Books): set<nat> {
    b.zones.Keys + Elems(b.spare)
  }

  /** Every span held is a zone, a spare zone, a large block or the table of pages, and only one of these. */
  ghost predicate RoleOk(l: Layout, reserved: nat, b: Books, s: nat) {
    && (s in b.spans <==> s in b.zones || s in b.spare || s in b.large || s == reserved)
    && (s in b.zones ==> s !in b.spare && s !in b.large && s != reserved && s in b.spans && b.spans[s] == l.zonePages)
    && (s in b.spare ==> s !in b.large && s != reserved && s in b.spans && b.spans[s] == l.zonePages)
    && (s in b.large ==> s != reserved)
  }

  ghost predicate BooksOk(l: Layout, reserved: nat, b: Books) {
    && ArraysOk(l, b.zones, b.arrays)
    && HeldOk(b.spans, b.owner)
    && Distinct(b.spare) && |b.spare| <= RELEASE_THRESH
    && (forall s: nat {:trigger RoleOk(l, reserved, b, s)} :: RoleOk(l, reserved, b, s))
    && UsageOk(b.usage, b.spans, Smalls(b), b.large)
  }

  ghost predicate LiveChunk(zones: Zones, z: nat, k: nat) {
    z in zones && LiveIn(zones[z], k)
  }

  /** Zones that stay keep their layout. */
  ghost predicate SameLayout(zones: Zones, zones': Zones) {
    forall z :: z in zones && z in zones' ==>
      && zones'[z].index == zones[z].index && zones'[z].size == zones[z].size
      && zones'[z].base == zones[z].base && zones'[z].nmax == zones[z].nmax
  }

  /** `b'` differs from `b` in zones, lists and spare zones only, and no zone has come or gone but between those. */
  lemma SameSpans(l: Layout, reserved: nat, b: Books, b': Books)
    requires BooksOk(l, reserved, b) && ArraysOk(l, b'.zones, b'.arrays)
    requires b'.usage == b.usage && b'.spans == b.spans && b'.owner == b.owner && b'.large == b.large
    requires Distinct(b'.spare) && |b'.spare| <= RELEASE_THRESH
    requires forall s: nat :: s in b'.zones || s in b'.spare <==> s in b.zones || s in b.spare
    requires forall s: nat :: s in b'.zones ==> s !in b'.spare
    ensures BooksOk(l, reserved, b')
  {
    assert Smalls(b') == Smalls(b);
    hide ArraysOk, HeldOk, UsageOk, Distinct;
    forall s: nat
      ensures RoleOk(l, reserved, b', s)
    {
      assert RoleOk(l, reserved, b, s);
    }
  }

  // ----- chunks

  function AfterTake(b: Books, i: nat): Books {
    if i < |b.arrays| && b.arrays[i] != [] && b.arrays[i][0] in b.zones then
      var z := b.arrays[i][0];
      var zone := TakeChunk(b.zones[z]).0;
      b.(zones := b.zones[z := zone], arrays := b.arrays[i := if zone.nfree == 0 then b.arrays[i][1..] else b.arrays[i]])
    else b
  }

  lemma ListKnown(l: Layout, zones: Zones, arrays: seq<seq<nat>>, i: nat)
    requires ArraysOk(l, zones, arrays) && i < CLASSES
    ensures ArrayOk(zones, arrays[i], i)
    ensures forall z :: z in arrays[i] ==> z in zones && ZoneOk(l, zones[z]) && zones[z].index == i && zones[z].nfree > 0
  {
    assert ArrayAt(zones, arrays, i);
    forall z | z in arrays[i]
      ensures z in zones && ZoneOk(l, zones[z]) && zones[z].index == i && zones[z].nfree > 0
    {
      assert z in zones;
      assert ZoneOk(l, zones[z]);
    }
  }

  lemma TakeList(zones: Zones, list: seq<nat>, i: nat, zone: Zone)
    requires ArrayOk(zones, list, i) && list != [] && list[0] in zones && zone.index == i
    requires zone.nfree < zone.nmax
    ensures ArrayOk(zones[list[0] := zone], if zone.nfree == 0 then list[1..] else list, i)
  {
    assert list == [list[0]] + list[1..];
    assert forall y :: y in list <==> y == list[0] || y in list[1..];
    var list' := if zone.nfree == 0 then list[1..] else list;
    forall y, z | y in list' && z in list' && WhollyFree(zones[list[0] := zone], y) && WhollyFree(zones[list[0] := zone], z)
      ensures y == z
    {
      assert WhollyFree(zones, y) && WhollyFree(zones, z);
    }
  }

  lemma TakeArrays(l: Layout, zones: Zones, arrays: seq<seq<nat>>, i: nat)
    requires ArraysOk(l, zones, arrays) && i < CLASSES && arrays[i] != []
    ensures var z := arrays[i][0];
      && z in zones && zones[z].nfree > 0 && ZoneOk(l, zones[z]) && zones[z].index == i
      && var zone := TakeChunk(zones[z]).0;
         ArraysOk(l, zones[z := zone], arrays[i := if zone.nfree == 0 then arrays[i][1..] else arrays[i]])
  {
    ListKnown(l, zones, arrays, i);
    var z := arrays[i][0];
    assert z in arrays[i];
    var zone := TakeChunk(zones[z]).0;
    NotOver(l, zones[z]);
    TakeChunkKeeps(l, zones[z]);
    hide ArrayOk, ArrayAt, ZoneOk, TakeChunk, LiveIn;
    TakeList(zones, arrays[i], i, zone);
    ArraysChange(l, zones, arrays, z, zone, if zone.nfree == 0 then arrays[i][1..] else arrays[i]);
  }

  /** Zones and spare zones are apart. */
  lemma SpareApart(l: Layout, reserved: nat, b: Books)
    requires BooksOk(l, reserved, b)
    ensures forall s :: s in b.zones ==> s !in b.spare
  {
    forall s | s in b.zones
      ensures s !in b.spare
    {
      assert RoleOk(l, reserved, b, s);
    }
  }

  /** Taking a chunk of the first zone of a list. */
  lemma TakeStep(l: Layout, reserved: nat, b: Books, i: nat)
    requires BooksOk(l, reserved, b) && i < CLASSES && b.arrays[i] != []
    ensures |b.arrays| == CLASSES && b.arrays[i][0] in b.zones && b.zones[b.arrays[i][0]].nfree > 0
    ensures ZoneOk(l, b.zones[b.arrays[i][0]]) && b.zones[b.arrays[i][0]].index == i
    ensures BooksOk(l, reserved, AfterTake(b, i))
  {
    TakeArrays(l, b.zones, b.arrays, i);
    SpareApart(l, reserved, b);
    hide HeldOk, UsageOk, RoleOk, ZoneOk, TakeChunk, Distinct, ArrayAt;
    SameSpans(l, reserved, b, AfterTake(b, i));
  }

  /** Chunk `k` of zone `z`, and no other, has come into use or gone out of it. */
  ghost predicate OneChunk(zones: Zones, zones': Zones, z: nat, k: nat) {
    SameLayout(zones, zones') && forall y, j :: LiveChunk(zones', y, j) <==> (y == z && j == k) || LiveChunk(zones, y, j)
  }

  lemma TakeLive(l: Layout, zones: Zones, z: nat)
    requires z in zones && ZoneOk(l, zones[z]) && zones[z].nfree > 0
    ensures var (zone, k) := TakeChunk(zones[z]);
      k < zones[z].nmax && !LiveChunk(zones, z, k) && OneChunk(zones, zones[z := zone], z, k)
  {
    TakeChunkKeeps(l, zones[z]);
    hide ZoneOk, TakeChunk, LiveIn;
    var (zone, k) := TakeChunk(zones[z]);
    forall y, j
      ensures LiveChunk(zones[z := zone], y, j) <==> (y == z && j == k) || LiveChunk(zones, y, j)
    {
    }
  }

  lemma NotOver(l: Layout, z: Zone)
    requires ZoneOk(l, z)
    ensures z.nfree <= z.nmax
  {
    LiveCount(l, z);
  }

  // ----- new zones

  /** Zone `z` starts to serve class `zone.index`; its pages are held already. */
  function AfterNew(b: Books, z: nat, zone: Zone): Books {
    if zone.index < |b.arrays| then
      b.(zones := b.zones[z := zone], arrays := b.arrays[zone.index := [z] + b.arrays[zone.index]])
    else b
  }

  lemma NewList(zones: Zones, list: seq<nat>, i: nat, z: nat, zone: Zone)
    requires ArrayOk(zones, list, i) && z !in zones && zone.index == i && 0 < zone.nfree < zone.nmax
    ensures ArrayOk(zones[z := zone], [z] + list, i)
  {
    var list', zones' := [z] + list, zones[z := zone];
    assert z !in list;
    forall x, y | x in list' && y in list' && WhollyFree(zones', x) && WhollyFree(zones', y)
      ensures x == y
    {
      assert WhollyFree(zones, x) && WhollyFree(zones, y);
    }
  }

  /** A spare zone is used again. */
  lemma ReuseStep(l: Layout, reserved: nat, b: Books, zone: Zone)
    requires BooksOk(l, reserved, b) && b.spare != [] && ZoneOk(l, zone) && 0 < zone.nfree < zone.nmax
    ensures b.spare[0] !in b.zones && BooksOk(l, reserved, AfterNew(b.(spare := b.spare[1..]), b.spare[0], zone))
  {
    var z := b.spare[0];
    assert b.spare == [z] + b.spare[1..];
    assert RoleOk(l, reserved, b, z);
    ListKnown(l, b.zones, b.arrays, zone.index);
    NewList(b.zones, b.arrays[zone.index], zone.index, z, zone);
    hide ArrayOk, ArrayAt, HeldOk, UsageOk, ZoneOk;
    ArraysChange(l, b.zones, b.arrays, z, zone, [z] + b.arrays[zone.index]);
    SparePart(l, reserved, b);
    SameSpans(l, reserved, b, AfterNew(b.(spare := b.spare[1..]), z, zone));
  }

  lemma SparePart(l: Layout, reserved: nat, b: Books)
    requires BooksOk(l, reserved, b) && b.spare != []
    ensures Distinct(b.spare[1..]) && b.spare[0] !in b.spare[1..]
    ensures forall s :: s in b.spare <==> s == b.spare[0] || s in b.spare[1..]
    ensures forall s :: s in b.zones ==> s !in b.spare
  {
    assert b.spare == [b.spare[0]] + b.spare[1..];
    forall s | s in b.zones
      ensures s !in b.spare
    {
      assert RoleOk(l, reserved, b, s);
    }
  }

  /** The books when pages `s` to `s + n - 1` have been taken for a zone or for a large block. */
  function AfterHold(l: Layout, b: Books, s: nat, n: nat, small: bool): Books {
    b.(spans := b.spans[s := n], owner := Owned(b.owner, s, n),
       large := if small then b.large else b.large + {s},
       usage := if small then Marked(b.usage, s, n) else b.usage[s := Usage(Large, n)])
  }

  lemma HoldRoles(l: Layout, reserved: nat, b: Books, s: nat, n: nat, small: bool)
    requires BooksOk(l, reserved, b) && n > 0 && (forall p: nat :: InSpan(s, n, p) ==> p !in b.owner)
    ensures s !in b.spans && s !in b.zones && s !in b.spare && s !in b.large && s != reserved
    ensures HeldOk(b.spans[s := n], Owned(b.owner, s, n))
  {
    HoldSpan(b.spans, b.owner, s, n);
    assert RoleOk(l, reserved, b, s);
  }

  lemma HoldLarge(l: Layout, reserved: nat, b: Books, s: nat, n: nat)
    requires BooksOk(l, reserved, b) && n > 0 && (forall p: nat :: InSpan(s, n, p) ==> p !in b.owner)
    ensures BooksOk(l, reserved, AfterHold(l, b, s, n, false)) && s !in b.large
  {
    var b' := AfterHold(l, b, s, n, false);
    HoldRoles(l, reserved, b, s, n, false);
    UsageFrame(b.usage, b'.usage, b.spans, b.owner, b'.spans, Smalls(b), b.large, Smalls(b'), b'.large, s, n) by {
      assert forall p: nat :: !InSpan(s, n, p) ==> p != s;
    }
    hide ArraysOk, HeldOk, UsageOk;
    forall r: nat
      ensures RoleOk(l, reserved, b', r)
    {
      assert RoleOk(l, reserved, b, r);
    }
  }

  /** Fresh pages become a zone. */
  lemma HoldZone(l: Layout, reserved: nat, b: Books, s: nat, zone: Zone)
    requires BooksOk(l, reserved, b) && l.zonePages > 0 && (forall p: nat :: InSpan(s, l.zonePages, p) ==> p !in b.owner)
    requires ZoneOk(l, zone) && 0 < zone.nfree < zone.nmax
    ensures s !in b.zones && BooksOk(l, reserved, AfterNew(AfterHold(l, b, s, l.zonePages, true), s, zone))
  {
    var b' := AfterNew(AfterHold(l, b, s, l.zonePages, true), s, zone);
    HoldRoles(l, reserved, b, s, l.zonePages, true);
    MarkedIs(b.usage, s, l.zonePages);
    assert Smalls(b') == Smalls(b) + {s};
    UsageFrame(b.usage, b'.usage, b.spans, b.owner, b'.spans, Smalls(b), b.large, Smalls(b'), b'.large, s, l.zonePages);
    ListKnown(l, b.zones, b.arrays, zone.index);
    NewList(b.zones, b.arrays[zone.index], zone.index, s, zone);
    hide ArrayOk, ArrayAt, HeldOk, UsageOk, ZoneOk, Marked, Owned;
    ArraysChange(l, b.zones, b.arrays, s, zone, [s] + b.arrays[zone.index]);
    forall r: nat
      ensures RoleOk(l, reserved, b', r)
    {
      assert RoleOk(l, reserved, b, r);
    }
  }

  // ----- chunks and pages given back

  function GivenList(list: seq<nat>, z: nat, nfree: nat): seq<nat> {
    if nfree == 0 then [z] + list else list
  }

  lemma GiveList(zones: Zones, list: seq<nat>, i: nat, z: nat, zone: Zone)
    requires ArrayOk(zones, list, i) && z in zones && zones[z].index == i && zone.index == i && zone.nfree > 0
    ensures var list' := GivenList(list, z, zones[z].nfree);
      && z in list'
      && (zone.nfree < zone.nmax || list' == [z] ==> ArrayOk(zones[z := zone], list', i))
      && ArrayOk(zones - {z}, Without(list', z), i)
  {
    var list', zones' := GivenList(list, z, zones[z].nfree), zones[z := zone];
    assert z in list <==> zones[z].nfree > 0;
    assert Distinct(list');
    WithoutMembers(list', z);
    forall x, y | x in list' && y in list' && WhollyFree(zones', x) && WhollyFree(zones', y) && (zone.nfree < zone.nmax || list' == [z])
      ensures x == y
    {
      assert x != z ==> WhollyFree(zones, x);
      assert y != z ==> WhollyFree(zones, y);
    }
    var rest := Without(list', z);
    forall x, y | x in rest && y in rest && WhollyFree(zones - {z}, x) && WhollyFree(zones - {z}, y)
      ensures x == y
    {
      assert WhollyFree(zones, x) && WhollyFree(zones, y);
    }
  }

  /** The chunk is back, and the zone stays. */
  function AfterGive(b: Books, z: nat, k: nat): Books {
    if z in b.zones && b.zones[z].index < |b.arrays| then
      var zone := GiveChunk(b.zones[z], k);
      b.(zones := b.zones[z := zone], arrays := b.arrays[zone.index := GivenList(b.arrays[zone.index], z, b.zones[z].nfree)])
    else b
  }

  /** The chunk was the last of the zone, and the zone leaves its class. */
  function Retired(b: Books, z: nat): Books {
    if z in b.zones && b.zones[z].index < |b.arrays| then
      var i := b.zones[z].index;
      b.(zones := b.zones - {z}, arrays := b.arrays[i := Without(GivenList(b.arrays[i], z, b.zones[z].nfree), z)])
    else b
  }

  /** Must the zone leave when chunk `k` comes back? */
  predicate Leaves(b: Books, z: nat, k: nat) {
    && z in b.zones && b.zones[z].index < |b.arrays|
    && b.zones[z].nfree + 1 == b.zones[z].nmax
    && GivenList(b.arrays[b.zones[z].index], z, b.zones[z].nfree) != [z]
  }

  lemma GiveArrays(l: Layout, zones: Zones, arrays: seq<seq<nat>>, z: nat, k: nat)
    requires ArraysOk(l, zones, arrays) && LiveChunk(zones, z, k)
    ensures zones[z].index < CLASSES == |arrays| && zones[z].nfree < zones[z].nmax && ZoneOk(l, zones[z])
    ensures var i, zone := zones[z].index, GiveChunk(zones[z], k);
      var list := GivenList(arrays[i], z, zones[z].nfree);
      && z in list
      && (zone.nfree < zone.nmax || list == [z] ==> ArraysOk(l, zones[z := zone], arrays[i := list]))
      && ArraysOk(l, zones - {z}, arrays[i := Without(list, z)])
  {
    assert ZoneOk(l, zones[z]);
    var i, zone := zones[z].index, GiveChunk(zones[z], k);
    var list := GivenList(arrays[i], z, zones[z].nfree);
    ListKnown(l, zones, arrays, i);
    GiveChunkKeeps(l, zones[z], k);
    GiveList(zones, arrays[i], i, z, zone);
    hide ArrayOk, ArrayAt, ZoneOk, LiveIn, GivenList, Without;
    if zone.nfree < zone.nmax || list == [z] {
      ArraysChange(l, zones, arrays, z, zone, list);
    }
    ArraysRemove(l, zones, arrays, z, Without(list, z));
  }

  lemma GiveStep(l: Layout, reserved: nat, b: Books, z: nat, k: nat)
    requires BooksOk(l, reserved, b) && LiveChunk(b.zones, z, k) && !Leaves(b, z, k)
    ensures BooksOk(l, reserved, AfterGive(b, z, k))
  {
    GiveArrays(l, b.zones, b.arrays, z, k);
    SpareApart(l, reserved, b);
    hide HeldOk, UsageOk, RoleOk, ZoneOk, Distinct, ArrayAt, LiveIn, GivenList, Without;
    SameSpans(l, reserved, b, AfterGive(b, z, k));
  }

  /** The zone becomes spare. */
  lemma RetireStep(l: Layout, reserved: nat, b: Books, z: nat, k: nat)
    requires BooksOk(l, reserved, b) && LiveChunk(b.zones, z, k) && |b.spare| < RELEASE_THRESH
    ensures BooksOk(l, reserved, Retired(b, z).(spare := [z] + b.spare))
  {
    GiveArrays(l, b.zones, b.arrays, z, k);
    SpareApart(l, reserved, b);
    var spare' := [z] + b.spare;
    assert Distinct(spare');
    hide HeldOk, UsageOk, RoleOk, ZoneOk, Distinct, ArrayAt, LiveIn, GivenList, Without, ArraysOk;
    SameSpans(l, reserved, b, Retired(b, z).(spare := spare'));
  }

  /** The books when span `s` has been given back. */
  function AfterRelease(b: Books, s: nat, n: nat, usage: map<nat, Usage>): Books {
    b.(spans := b.spans - {s}, owner := Disowned(b.owner, s, n), large := b.large - {s}, usage := usage)
  }

  lemma ReleasedRole(l: Layout, reserved: nat, b: Books, z: nat, usage: map<nat, Usage>, r: nat)
    requires BooksOk(l, reserved, b) && z in b.zones && b.zones[z].index < |b.arrays|
    ensures RoleOk(l, reserved, AfterRelease(Retired(b, z), z, l.zonePages, usage), r)
  {
    hide ArraysOk, HeldOk, UsageOk, GivenList, Without, Disowned, Smalls;
    assert RoleOk(l, reserved, b, r) && RoleOk(l, reserved, b, z);
  }

  /** The zone's pages go back to the page allocator. */
  lemma ReleaseZone(l: Layout, reserved: nat, b: Books, z: nat, k: nat)
    requires BooksOk(l, reserved, b) && LiveChunk(b.zones, z, k)
    ensures z in b.spans && b.spans[z] == l.zonePages
    ensures forall p: nat :: InSpan(z, l.zonePages, p) ==> p in b.owner && b.owner[p] == z
    ensures BooksOk(l, reserved, AfterRelease(Retired(b, z), z, l.zonePages, Unmarked(b.usage, z, l.zonePages)))
  {
    hide ArraysOk, UsageOk, GivenList, Without, Unmarked, Disowned, LiveIn, ZoneOk;
    var b' := AfterRelease(Retired(b, z), z, l.zonePages, Unmarked(b.usage, z, l.zonePages));
    assert RoleOk(l, reserved, b, z);
    assert SpanOk(b.spans, b.owner, z);
    GiveArrays(l, b.zones, b.arrays, z, k);
    ReleaseSpan(b.spans, b.owner, z);
    MarkedIs(b.usage, z, l.zonePages);
    UsageFrame(b.usage, b'.usage, b.spans, b.owner, b'.spans, Smalls(b), b.large, Smalls(b'), b'.large, z, l.zonePages);
    forall r: nat
      ensures RoleOk(l, reserved, b', r)
    {
      ReleasedRole(l, reserved, b, z, b'.usage, r);
    }
  }

  lemma ReleaseLarge(l: Layout, reserved: nat, b: Books, s: nat)
    requires BooksOk(l, reserved, b) && s in b.large
    ensures s in b.spans && s in b.usage && b.usage[s] == Usage(Large, b.spans[s]) && b.spans[s] > 0
    ensures forall p: nat :: InSpan(s, b.spans[s], p) ==> p in b.owner && b.owner[p] == s
    ensures BooksOk(l, reserved, AfterRelease(b, s, b.spans[s], b.usage[s := Usage(Large, 0)]))
  {
    assert RoleOk(l, reserved, b, s);
    assert SpanOk(b.spans, b.owner, s);
    assert UsedAs(b.usage, s, b.spans[s], s in Smalls(b));
    var b' := AfterRelease(b, s, b.spans[s], b.usage[s := Usage(Large, 0)]);
    ReleaseSpan(b.spans, b.owner, s);
    assert InSpan(s, b.spans[s], s);
    UsageFrame(b.usage, b'.usage, b.spans, b.owner, b'.spans, Smalls(b), b.large, Smalls(b'), b'.large, s, b.spans[s]);
    hide HeldOk, UsageOk, ArraysOk, Disowned, SpanOk;
    forall r: nat
      ensures RoleOk(l, reserved, b', r)
    {
      assert RoleOk(l, reserved, b, r);
    }
  }

  lemma ChunkNumber(l: Layout, z: nat, zone: Zone, k: nat)
    requires zone.size > 0
    ensures var a := ChunkAddr(l, z, zone, k);
      a >= z * l.page + zone.base && (a - z * l.page - zone.base) / zone.size == k
  {
    assert k * zone.size == zone.size * k;
    ExactQuotient(k, zone.size);
  }

  lemma ZoneMarked(l: Layout, reserved: nat, b: Books, z: nat)
    requires BooksOk(l, reserved, b) && z in b.zones
    ensures ZoneOk(l, b.zones[z]) && b.zones[z].size > 0
    ensures forall p: nat :: InSpan(z, l.zonePages, p) ==> p in b.usage && b.usage[p] == Usage(Small, p - z)
  {
    assert RoleOk(l, reserved, b, z);
    assert UsedAs(b.usage, z, b.spans[z], z in Smalls(b));
    assert ZoneOk(l, b.zones[z]);
    ChunkSizeAt(b.zones[z].index);
  }

  /** From the address of a chunk in use, the table of pages leads to its zone, and the zone to its number. */
  lemma TableFinds(l: Layout, reserved: nat, b: Books, z: nat, k: nat)
    requires l.Valid() && BooksOk(l, reserved, b) && LiveChunk(b.zones, z, k)
    ensures var a := ChunkAddr(l, z, b.zones[z], k);
      && a / l.page in b.usage && z <= a / l.page && b.usage[a / l.page] == Usage(Small, a / l.page - z)
      && b.zones[z].size > 0 && a >= z * l.page + b.zones[z].base && (a - z * l.page - b.zones[z].base) / b.zones[z].size == k
  {
    ZoneMarked(l, reserved, b, z);
    LiveBelow(l, b.zones[z], k);
    hide BooksOk, ZoneOk, ChunkAddr;
    ChunkInZone(l, z, b.zones[z], k);
    assert InSpan(z, l.zonePages, ChunkAddr(l, z, b.zones[z], k) / l.page);
    ChunkNumber(l, z, b.zones[z], k);
  }

  lemma LiveBelow(l: Layout, zone: Zone, k: nat)
    requires ZoneOk(l, zone) && LiveIn(zone, k)
    ensures k < zone.nmax
  {
  }

  lemma LastChunk(l: Layout, zone: Zone, k: nat, j: nat)
    requires ZoneOk(l, zone) && LiveIn(zone, k) && zone.nfree + 1 == zone.nmax
    ensures LiveIn(zone, j) <==> j == k
  {
    GiveChunkKeeps(l, zone, k);
    var zone' := GiveChunk(zone, k);
    NoneLive(l, zone', j);
    hide ZoneOk, LiveIn;
  }

  lemma NoneLive(l: Layout, zone: Zone, j: nat)
    requires ZoneOk(l, zone) && zone.nfree == zone.nmax
    ensures !LiveIn(zone, j)
  {
    LiveCount(l, zone);
  }

  lemma GiveLive(l: Layout, zones: Zones, z: nat, k: nat)
    requires LiveChunk(zones, z, k) && ZoneOk(l, zones[z])
    ensures OneChunk(zones[z := GiveChunk(zones[z], k)], zones, z, k)
    ensures !LiveChunk(zones[z := GiveChunk(zones[z], k)], z, k)
    ensures zones[z].nfree + 1 == zones[z].nmax ==> OneChunk(zones - {z}, zones, z, k)
    ensures !LiveChunk(zones - {z}, z, k)
  {
    GiveChunkKeeps(l, zones[z], k);
    SameZone(zones[z], k);
    hide ZoneOk, LiveIn, GiveChunk;
    if zones[z].nfree + 1 == zones[z].nmax {
      forall y, j
        ensures LiveChunk(zones, y, j) <==> (y == z && j == k) || LiveChunk(zones - {z}, y, j)
      {
        if y == z { LastChunk(l, zones[z], k, j); }
      }
    }
  }

  lemma SameZone(zone: Zone, k: nat)
    ensures var zone' := GiveChunk(zone, k);
      zone'.index == zone.index && zone'.size == zone.size && zone'.base == zone.base && zone'.nmax == zone.nmax
  {
  }
}
