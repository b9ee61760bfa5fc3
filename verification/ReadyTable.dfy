/**
 The ready queue of the schedulers: a list of threads for every priority, and a bitmap that tells which
 lists are not empty. Up to 32 priorities the bitmap is one word, up to 256 a word over 32 bytes.
 */
module ReadyTable {
  import opened Wrappers
  import opened Bits
  import opened Sequences

  type Tid = nat

  datatype Table = Table(lists: seq<seq<Tid>>, group: nat, bytes: seq<nat>)

  /** `number`, `number_mask` and `high_mask` of a thread. */
  datatype Masks = Masks(number: nat, numberMask: nat, highMask: nat)

  predicate TwoLevel(levels: nat) {
    levels > 32
  }

  function MasksFor(levels: nat, prio: nat): Masks {
    if TwoLevel(levels) then Masks(prio / 8, Mask(prio / 8), Mask(prio % 8)) else Masks(0, Mask(prio), 0)
  }

  function Empty(levels: nat): Table {
    Table(seq(levels, i => []), 0, seq(32, i => 0))
  }

  /** The bit of priority `p`. */
  ghost predicate BitAt(t: Table, p: nat) {
    if TwoLevel(|t.lists|) then p / 8 < |t.bytes| && HasBit(t.bytes[p / 8], p % 8) else HasBit(t.group, p)
  }

  ghost predicate AgreesAt(t: Table, p: nat) {
    BitAt(t, p) <==> p < |t.lists| && t.lists[p] != []
  }

  /** The upper level tells which bytes of the lower one are zero. */
  ghost predicate ByteAt(t: Table, n: nat) {
    if n < |t.bytes| then t.bytes[n] < 256 && (HasBit(t.group, n) <==> t.bytes[n] != 0) else !HasBit(t.group, n)
  }

  /** The bitmap agrees with the lists. */
  ghost predicate Agrees(t: Table) {
    && 0 < |t.lists| <= 256 && |t.bytes| == 32 && t.group < Mask(32)
    && (forall p: nat {:trigger AgreesAt(t, p)} :: AgreesAt(t, p))
    && (TwoLevel(|t.lists|) ==> forall n: nat {:trigger ByteAt(t, n)} :: ByteAt(t, n))
  }

  lemma EmptyAgrees(levels: nat)
    requires 0 < levels <= 256
    ensures Agrees(Empty(levels))
  {
    var t := Empty(levels);
    forall p: nat
      ensures AgreesAt(t, p)
    {
      ZeroHasNoBits(p);
      ZeroHasNoBits(p % 8);
    }
    forall n: nat
      ensures TwoLevel(levels) ==> ByteAt(t, n)
    {
      ZeroHasNoBits(n);
    }
  }

  // ----- insertion and removal

  function SetBit(t: Table, m: Masks): Table {
    if TwoLevel(|t.lists|) then
      if m.number < |t.bytes| then
        t.(bytes := t.bytes[m.number := Or(t.bytes[m.number], m.highMask)], group := Or(t.group, m.numberMask))
      else t
    else t.(group := Or(t.group, m.numberMask))
  }

  function ClearBit(t: Table, m: Masks): Table {
    if TwoLevel(|t.lists|) then
      if m.number < |t.bytes| then
        var b := AndNot(t.bytes[m.number], m.highMask);
        t.(bytes := t.bytes[m.number := b], group := if b == 0 then AndNot(t.group, m.numberMask) else t.group)
      else t
    else t.(group := AndNot(t.group, m.numberMask))
  }

  /** Into the list of priority `p`, at its end or at its start. */
  function Insert(t: Table, p: nat, m: Masks, x: Tid, atEnd: bool): Table
    requires p < |t.lists|
  {
    SetBit(t, m).(lists := t.lists[p := if atEnd then t.lists[p] + [x] else [x] + t.lists[p]])
  }

  function Remove(t: Table, p: nat, m: Masks, x: Tid): Table
    requires p < |t.lists|
  {
    var t' := t.(lists := t.lists[p := Without(t.lists[p], x)]);
    if t'.lists[p] == [] then ClearBit(t', m) else t'
  }

  ghost predicate SameBits(t: Table, t': Table, p: nat, bit: bool) {
    && |t'.lists| == |t.lists| && |t'.bytes| == 32 && t'.group < Mask(32)
    && (forall q: nat {:trigger BitAt(t', q)} :: BitAt(t', q) <==> if q == p then bit else BitAt(t, q))
    && (TwoLevel(|t.lists|) ==> forall n: nat {:trigger ByteAt(t', n)} :: ByteAt(t', n))
  }

  lemma SetBitSets(t: Table, p: nat)
    requires Agrees(t) && p < |t.lists|
    ensures SameBits(t, SetBit(t, MasksFor(|t.lists|, p)), p, true)
  {
    var m := MasksFor(|t.lists|, p);
    var t' := SetBit(t, m);
    if TwoLevel(|t.lists|) {
      MaskBelow(p / 8, 32);
      MaskBelow(p % 8, 8);
      assert Mask(8) == 256;
      assert ByteAt(t, m.number);
      OrBelow(t.group, m.numberMask, 32);
      OrBelow(t.bytes[m.number], m.highMask, 8);
      forall q: nat
        ensures BitAt(t', q) <==> if q == p then true else BitAt(t, q)
      {
        if q / 8 == m.number {
          OrBits(t.bytes[m.number], m.highMask, q % 8);
          MaskBits(p % 8, q % 8);
        }
      }
      forall n: nat
        ensures ByteAt(t', n)
      {
        assert ByteAt(t, n);
        OrBits(t.group, m.numberMask, n);
        MaskBits(p / 8, n);
        if n == m.number { OrNotZero(t.bytes[n], m.highMask); }
      }
    } else {
      MaskBelow(p, 32);
      OrBelow(t.group, m.numberMask, 32);
      forall q: nat
        ensures BitAt(t', q) <==> if q == p then true else BitAt(t, q)
      {
        OrBits(t.group, m.numberMask, q);
        MaskBits(p, q);
      }
    }
  }

  lemma OrNotZero(x: nat, y: nat)
    requires y > 0
    ensures Or(x, y) != 0
  {
    LowestIsLowest(y);
    OrBits(x, y, Lowest(y) - 1);
    ZeroHasNoBits(Lowest(y) - 1);
  }

  lemma ClearBitClears(t: Table, p: nat)
    requires |t.bytes| == 32 && t.group < Mask(32) && p < |t.lists| <= 256
    requires TwoLevel(|t.lists|) ==> forall n: nat {:trigger ByteAt(t, n)} :: ByteAt(t, n)
    ensures SameBits(t, ClearBit(t, MasksFor(|t.lists|, p)), p, false)
  {
    var m := MasksFor(|t.lists|, p);
    var t' := ClearBit(t, m);
    AndNotBelow(t.group, m.numberMask);
    if TwoLevel(|t.lists|) {
      assert ByteAt(t, m.number);
      AndNotBelow(t.bytes[m.number], m.highMask);
      forall q: nat
        ensures BitAt(t', q) <==> if q == p then false else BitAt(t, q)
      {
        if q / 8 == m.number {
          AndNotBits(t.bytes[m.number], m.highMask, q % 8);
          MaskBits(p % 8, q % 8);
        }
      }
      forall n: nat
        ensures ByteAt(t', n)
      {
        assert ByteAt(t, n);
        AndNotBits(t.group, m.numberMask, n);
        MaskBits(p / 8, n);
        if n == m.number && t.bytes[n] == 0 {
          assert AndNot(t.bytes[n], m.highMask) == 0;
        }
      }
    } else {
      forall q: nat
        ensures BitAt(t', q) <==> if q == p then false else BitAt(t, q)
      {
        AndNotBits(t.group, m.numberMask, q);
        MaskBits(p, q);
      }
    }
  }

  lemma InsertAgrees(t: Table, p: nat, x: Tid, atEnd: bool)
    requires Agrees(t) && p < |t.lists|
    ensures Agrees(Insert(t, p, MasksFor(|t.lists|, p), x, atEnd))
  {
    var m := MasksFor(|t.lists|, p);
    var s, t' := SetBit(t, m), Insert(t, p, m, x, atEnd);
    SetBitSets(t, p);
    hide SetBit;
    forall q: nat
      ensures AgreesAt(t', q)
    {
      assert AgreesAt(t, q);
      assert BitAt(t', q) <==> BitAt(s, q);
    }
    forall n: nat
      ensures TwoLevel(|t.lists|) ==> ByteAt(t', n)
    {
      assert TwoLevel(|t.lists|) ==> ByteAt(s, n);
    }
  }

  lemma RemoveAgrees(t: Table, p: nat, x: Tid)
    requires Agrees(t) && p < |t.lists|
    ensures Agrees(Remove(t, p, MasksFor(|t.lists|, p), x))
  {
    var m := MasksFor(|t.lists|, p);
    var s, t' := t.(lists := t.lists[p := Without(t.lists[p], x)]), Remove(t, p, m, x);
    forall n: nat
      ensures TwoLevel(|s.lists|) ==> ByteAt(s, n)
    {
      assert TwoLevel(|t.lists|) ==> ByteAt(t, n);
    }
    ClearBitClears(s, p);
    hide ClearBit;
    forall q: nat
      ensures AgreesAt(t', q)
    {
      assert AgreesAt(t, q);
      assert BitAt(s, q) <==> BitAt(t, q);
    }
  }

  // ----- the most urgent list

  /** The first list that is not empty, by looking at each. */
  function FirstReady(lists: seq<seq<Tid>>): (p: Option<nat>)
    ensures p.Some? ==> p.value < |lists| && lists[p.value] != [] && forall q :: 0 <= q < p.value ==> lists[q] == []
    ensures p.None? ==> forall q :: 0 <= q < |lists| ==> lists[q] == []
  {
    if lists == [] then None
    else if lists[0] != [] then Some(0)
    else
      match FirstReady(lists[1..])
      case None => None
      case Some(p) => Some(p + 1)
  }

  function PrioOf(p: Option<nat>): int {
    if p.Some? then p.value else -1
  }

  function Find(tiny: bool, x: nat): int
    requires x < Mask(32)
  {
    MasksTo31();
    assert Mask(32) == 2 * Mask(31);
    if tiny then FfsTiny(x) else Ffs(x)
  }

  /** The most urgent priority with a ready thread, from the bitmap; -1 if there is none. */
  function Highest(tiny: bool, t: Table): int
    requires t.group < Mask(32)
  {
    if TwoLevel(|t.lists|) then
      var number := Find(tiny, t.group) - 1;
      if 0 <= number < |t.bytes| && t.bytes[number] < Mask(32) then number * 8 + Find(tiny, t.bytes[number]) - 1 else -1
    else Find(tiny, t.group) - 1
  }

  lemma FindIsLowest(tiny: bool, x: nat)
    requires x < Mask(32)
    ensures Find(tiny, x) == Lowest(x)
  {
    MasksTo31();
    assert Mask(32) == 2 * Mask(31);
    hide Mask, Lowest, Ffs, FfsTiny;
    FfsAgree(x);
  }

  /** One lookup in the bitmap finds what looking at every list finds, in either form and with either `__rt_ffs`. */
  lemma HighestIsFirst(tiny: bool, t: Table)
    requires Agrees(t)
    ensures Highest(tiny, t) == PrioOf(FirstReady(t.lists))
  {
    FindIsLowest(tiny, t.group);
    if TwoLevel(|t.lists|) {
      TwoLevelHighest(tiny, t);
    } else {
      match FirstReady(t.lists)
      case None =>
        NoBitsIsZero(t.group) by {
          forall k: nat
            ensures !HasBit(t.group, k)
          {
            assert AgreesAt(t, k);
          }
        }
      case Some(p) =>
        assert AgreesAt(t, p);
        LowestUnique(t.group, p) by {
          forall k: nat | k < p
            ensures !HasBit(t.group, k)
          {
            assert AgreesAt(t, k);
          }
        }
    }
  }

  lemma NoBitsIsZero(x: nat)
    requires forall k: nat :: !HasBit(x, k)
    ensures x == 0
  {
    if x > 0 {
      LowestIsLowest(x);
    }
  }

  lemma ByteHasBit(t: Table, n: nat)
    requires Agrees(t) && TwoLevel(|t.lists|) && n < 32 && t.bytes[n] != 0
    ensures var k := Lowest(t.bytes[n]) - 1; 0 <= k < 8 && n * 8 + k < |t.lists| && t.lists[n * 8 + k] != []
  {
    var x := t.bytes[n];
    assert ByteAt(t, n);
    assert Mask(8) == 256;
    LowestIsLowest(x);
    LowestBelow(x, 8);
    var k := Lowest(x) - 1;
    assert (n * 8 + k) / 8 == n && (n * 8 + k) % 8 == k;
    assert AgreesAt(t, n * 8 + k);
  }

  lemma LowerInByte(t: Table, q: nat)
    requires Agrees(t) && TwoLevel(|t.lists|) && q < |t.lists| && t.bytes[q / 8] != 0 && q % 8 < Lowest(t.bytes[q / 8]) - 1
    ensures t.lists[q] == []
  {
    LowestIsLowest(t.bytes[q / 8]);
    assert AgreesAt(t, q);
  }

  lemma ByteHasNone(t: Table, n: nat, q: nat)
    requires Agrees(t) && TwoLevel(|t.lists|) && n < 32 && t.bytes[n] == 0 && q / 8 == n && q < |t.lists|
    ensures t.lists[q] == []
  {
    assert AgreesAt(t, q);
    ZeroHasNoBits(q % 8);
  }

  lemma TwoLevelHighest(tiny: bool, t: Table)
    requires Agrees(t) && TwoLevel(|t.lists|)
    ensures Highest(tiny, t) == PrioOf(FirstReady(t.lists))
  {
    FindIsLowest(tiny, t.group);
    if t.group == 0 {
      NoneReady(t);
    } else {
      SomeReady(tiny, t);
    }
  }

  /** The byte that the upper level points to. */
  lemma SomeByte(t: Table) returns (n: nat)
    requires Agrees(t) && TwoLevel(|t.lists|) && t.group != 0
    ensures n < 32 == |t.bytes| && 0 < t.bytes[n] < 256 < Mask(32) && Lowest(t.group) == n + 1 && t.group < Mask(32)
    ensures forall k: nat :: k < n ==> !HasBit(t.group, k)
  {
    LowestBelow(t.group, 32);
    LowestIsLowest(t.group);
    n := Lowest(t.group) - 1;
    assert ByteAt(t, n);
    MasksTo15();
    MaskBelow(8, 32);
  }

  lemma SomeReady(tiny: bool, t: Table)
    requires Agrees(t) && TwoLevel(|t.lists|) && t.group != 0
    ensures Highest(tiny, t) == PrioOf(FirstReady(t.lists))
  {
    hide *;
    var n := SomeByte(t);
    ByteHasBit(t, n);
    LowerLists(t, n);
    FirstIs(t.lists, n * 8 + Lowest(t.bytes[n]) - 1);
    HighestByBytes(tiny, t, n);
    FoundPrio(n * 8 + Lowest(t.bytes[n]) - 1);
  }

  lemma FoundPrio(p: nat)
    ensures PrioOf(Some(p)) == p
  {
  }

  lemma HighestByBytes(tiny: bool, t: Table, n: nat)
    requires t.group < Mask(32) && TwoLevel(|t.lists|) && n < |t.bytes| && t.bytes[n] < Mask(32) && Lowest(t.group) == n + 1
    ensures Highest(tiny, t) == n * 8 + Lowest(t.bytes[n]) - 1
  {
    hide Lowest, Mask, Find;
    FindIsLowest(tiny, t.group);
    FindIsLowest(tiny, t.bytes[n]);
  }

  lemma NoneReady(t: Table)
    requires Agrees(t) && TwoLevel(|t.lists|) && t.group == 0
    ensures FirstReady(t.lists) == None
  {
    forall q | 0 <= q < |t.lists|
      ensures t.lists[q] == []
    {
      assert ByteAt(t, q / 8);
      ZeroHasNoBits(q / 8);
      ByteHasNone(t, q / 8, q);
    }
  }

  lemma FirstIs(lists: seq<seq<Tid>>, p: nat)
    requires p < |lists| && lists[p] != [] && forall q :: 0 <= q < p ==> lists[q] == []
    ensures FirstReady(lists) == Some(p)
  {
  }

  lemma LowerLists(t: Table, n: nat)
    requires Agrees(t) && TwoLevel(|t.lists|) && n < 32 && t.bytes[n] != 0 && forall k: nat :: k < n ==> !HasBit(t.group, k)
    ensures forall q :: 0 <= q < n * 8 + Lowest(t.bytes[n]) - 1 && q < |t.lists| ==> t.lists[q] == []
  {
    assert ByteAt(t, n);
    assert Mask(8) == 256;
    LowestBelow(t.bytes[n], 8);
    forall q: nat | q < n * 8 + Lowest(t.bytes[n]) - 1 && q < |t.lists|
      ensures t.lists[q] == []
    {
      if q / 8 < n {
        assert ByteAt(t, q / 8);
        ByteHasNone(t, q / 8, q);
      } else {
        LowerInByte(t, q);
      }
    }
  }

  /** The test the schedulers make before they look for a thread. */
  lemma GroupIsZeroIff(t: Table)
    requires Agrees(t)
    ensures t.group == 0 <==> FirstReady(t.lists) == None
  {
    FindIsLowest(false, t.group);
    HighestIsFirst(false, t);
    if t.group != 0 && TwoLevel(|t.lists|) {
      var n := SomeByte(t);
      ByteHasBit(t, n);
    }
  }
}
