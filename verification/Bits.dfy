/**
 Bits of natural numbers, and the two versions of `__rt_ffs` in `src/kservice.c`.
 */
module Bits {
  ghost predicate HasBit(x: nat, k: nat) {
    if k == 0 then x % 2 == 1 else HasBit(x / 2, k - 1)
  }

  /** One bit: `1 << k`. */
  function Mask(k: nat): (m: nat)
    ensures m > 0
  {
    if k == 0 then 1 else 2 * Mask(k - 1)
  }

  function Or(x: nat, y: nat): nat {
    if x == 0 then y else if y == 0 then x
    else 2 * Or(x / 2, y / 2) + if x % 2 == 1 || y % 2 == 1 then 1 else 0
  }

  function And(x: nat, y: nat): nat {
    if x == 0 || y == 0 then 0
    else 2 * And(x / 2, y / 2) + if x % 2 == 1 && y % 2 == 1 then 1 else 0
  }

  function Xor(x: nat, y: nat): nat {
    if x == 0 then y else if y == 0 then x
    else 2 * Xor(x / 2, y / 2) + if x % 2 != y % 2 then 1 else 0
  }

  /** `x & ~y`. */
  function AndNot(x: nat, y: nat): nat {
    if x == 0 || y == 0 then x
    else 2 * AndNot(x / 2, y / 2) + if x % 2 == 1 && y % 2 == 0 then 1 else 0
  }

  lemma {:induction false} ZeroHasNoBits(k: nat)
    ensures !HasBit(0, k)
  {
    if k > 0 { ZeroHasNoBits(k - 1); }
  }

  lemma {:induction false} MaskBits(j: nat, k: nat)
    ensures HasBit(Mask(j), k) <==> j == k
  {
    if j > 0 && k > 0 {
      assert Mask(j) / 2 == Mask(j - 1);
      MaskBits(j - 1, k - 1);
    } else if j == 0 && k > 0 {
      ZeroHasNoBits(k - 1);
    }
  }

  lemma {:induction false} OrBits(x: nat, y: nat, k: nat)
    ensures HasBit(Or(x, y), k) <==> HasBit(x, k) || HasBit(y, k)
  {
    if x == 0 || y == 0 {
      ZeroHasNoBits(k);
    } else if k > 0 {
      OrBits(x / 2, y / 2, k - 1);
      assert Or(x, y) / 2 == Or(x / 2, y / 2);
    }
  }

  lemma {:induction false} AndNotBits(x: nat, y: nat, k: nat)
    ensures HasBit(AndNot(x, y), k) <==> HasBit(x, k) && !HasBit(y, k)
  {
    if x == 0 || y == 0 {
      ZeroHasNoBits(k);
    } else if k > 0 {
      AndNotBits(x / 2, y / 2, k - 1);
      assert AndNot(x, y) / 2 == AndNot(x / 2, y / 2);
    }
  }

  /** Masks below a power of two stay below it. */
  lemma {:induction false} MaskBelow(k: nat, n: nat)
    ensures Mask(k) < Mask(n) <==> k < n
  {
    if k > 0 && n > 0 {
      MaskBelow(k - 1, n - 1);
    }
  }

  ghost predicate PowerOfTwo(n: nat) {
    exists k: nat :: n == Mask(k)
  }

  lemma PowerHalves(n: nat)
    requires n > 0
    ensures PowerOfTwo(2 * n) <==> PowerOfTwo(n)
    ensures PowerOfTwo(2 * n - 1) <==> n == 1
  {
    if k: nat :| n == Mask(k) {
      assert 2 * n == Mask(k + 1);
    }
    if k: nat :| 2 * n == Mask(k) {
      assert n == Mask(k - 1);
    }
    if k: nat :| 2 * n - 1 == Mask(k) {
      assert k > 0 ==> Mask(k) == 2 * Mask(k - 1);
    }
    assert Mask(0) == 1;
  }

  lemma {:induction false} OrSame(n: nat)
    ensures Or(n, n) == n
  {
    if n > 0 { OrSame(n / 2); }
  }

  /** The test for a power of two by which zones align their chunks. */
  lemma {:induction false} PowerTest(n: nat)
    requires n > 0
    ensures Or(n, n - 1) + 1 == 2 * n <==> PowerOfTwo(n)
  {
    if n == 1 {
      assert Mask(0) == 1;
    } else if n % 2 == 0 {
      PowerTest(n / 2);
      PowerHalves(n / 2);
      assert (n - 1) / 2 == n / 2 - 1;
    } else {
      OrSame(n / 2);
      PowerHalves(n / 2 + 1);
      assert (n - 1) / 2 == n / 2;
    }
  }

  lemma {:induction false} OrBelow(x: nat, y: nat, n: nat)
    requires x < Mask(n) && y < Mask(n)
    ensures Or(x, y) < Mask(n)
  {
    if x != 0 && y != 0 {
      OrBelow(x / 2, y / 2, n - 1);
    }
  }

  lemma {:induction false} AndNotBelow(x: nat, y: nat)
    ensures AndNot(x, y) <= x
  {
    if x != 0 && y != 0 {
      AndNotBelow(x / 2, y / 2);
    }
  }

  /** A number below `1 << n` has no bit from `n` on. */
  lemma {:induction false} NoHighBits(x: nat, n: nat, k: nat)
    requires x < Mask(n) && k >= n
    ensures !HasBit(x, k)
  {
    if n == 0 {
      ZeroHasNoBits(k);
    } else {
      NoHighBits(x / 2, n - 1, k - 1);
    }
  }

  // ----- the lowest bit

  /** The place of the lowest bit, counted from 1; 0 for zero. */
  function Lowest(x: nat): (r: nat) {
    if x == 0 then 0 else if x % 2 == 1 then 1 else 1 + Lowest(x / 2)
  }

  /** `Lowest` is what its name says. */
  lemma {:induction false} LowestIsLowest(x: nat)
    requires x > 0
    ensures Lowest(x) >= 1 && HasBit(x, Lowest(x) - 1)
    ensures forall k: nat :: k < Lowest(x) - 1 ==> !HasBit(x, k)
  {
    if x % 2 == 0 {
      LowestIsLowest(x / 2);
      forall k: nat | k < Lowest(x) - 1
        ensures !HasBit(x, k)
      {
        assert k > 0 ==> !HasBit(x / 2, k - 1);
      }
    }
  }

  lemma LowestUnique(x: nat, j: nat)
    requires HasBit(x, j) && forall k: nat :: k < j ==> !HasBit(x, k)
    ensures Lowest(x) == j + 1
  {
    ZeroHasNoBits(j);
    LowestIsLowest(x);
    assert HasBit(x, Lowest(x) - 1);
  }

  lemma {:induction false} LowestBelow(x: nat, n: nat)
    requires x < Mask(n)
    ensures Lowest(x) <= n
  {
    if x > 0 && x % 2 == 0 {
      LowestBelow(x / 2, n - 1);
    }
  }

  lemma {:induction false} LowestScaled(x: nat, n: nat)
    ensures Lowest(x * Mask(n)) == if x == 0 then 0 else Lowest(x) + n
  {
    if x > 0 && n > 0 {
      assert x * Mask(n) == 2 * (x * Mask(n - 1));
      LowestScaled(x, n - 1);
    }
  }

  /** The lowest `n` bits. */
  function Low(x: nat, n: nat): nat {
    if n == 0 then 0 else x % 2 + 2 * Low(x / 2, n - 1)
  }

  lemma LowNibble(x: nat)
    ensures Low(x, 4) == x % 16
  {
    hide Low;
    LowShift(x, 3, 3);
    LowShift(x / 2, 2, 2);
    LowShift(x / 2 / 2, 1, 1);
    LowShift(x / 2 / 2 / 2, 0, 0);
    LowNone(x / 2 / 2 / 2 / 2);
    HalvesOfSixteen(x);
  }

  lemma HalvesOfFour(x: nat)
    ensures x % 2 + 2 * (x / 2 % 2) == x % 4
  {
  }

  lemma QuartersOfSixteen(x: nat)
    ensures x % 4 + 4 * (x / 4 % 4) == x % 16 && x / 2 / 2 == x / 4 && x / 2 / 2 / 2 == x / 4 / 2
  {
    var y := x / 4;
    assert x == 4 * y + x % 4 && y == 4 * (y / 4) + y % 4;
    assert x == 16 * (y / 4) + (4 * (y % 4) + x % 4);
  }

  lemma HalvesOfSixteen(x: nat)
    ensures x % 2 + 2 * (x / 2 % 2) + 4 * (x / 2 / 2 % 2) + 8 * (x / 2 / 2 / 2 % 2) == x % 16
  {
    HalvesOfFour(x);
    HalvesOfFour(x / 4);
    QuartersOfSixteen(x);
  }

  lemma LowSplit(x: nat)
    ensures Low(x, 8) == Low(x, 4) + 16 * Low(x / 16, 4)
  {
    hide Low;
    assert x / 2 / 2 == x / 4 && x / 4 / 2 == x / 8 && x / 8 / 2 == x / 16;
    LowShift(x, 7, 3);
    LowShift(x / 2, 6, 2);
    LowShift(x / 4, 5, 1);
    LowShift(x / 8, 4, 0);
    LowNone(x / 16);
  }

  lemma LowShift(x: nat, n: nat, m: nat)
    ensures Low(x, n + 1) == x % 2 + 2 * Low(x / 2, n) && Low(x, m + 1) == x % 2 + 2 * Low(x / 2, m)
  {
  }

  lemma LowNone(x: nat)
    ensures Low(x, 0) == 0
  {
  }

  lemma LowByte(x: nat)
    ensures Low(x, 8) == x % 256
  {
    hide Low;
    LowSplit(x);
    LowNibble(x);
    LowNibble(x / 16);
    var q := x / 16;
    assert x == 16 * q + x % 16 && q == 16 * (q / 16) + q % 16;
  }

  /** Higher bits do not matter when there are lower ones. */
  lemma {:induction false} LowestOfLow(x: nat, n: nat)
    requires Low(x, n) != 0
    ensures Lowest(x) == Lowest(Low(x, n))
  {
    if x % 2 == 0 && n > 0 {
      assert Low(x, n) / 2 == Low(x / 2, n - 1);
      LowestOfLow(x / 2, n - 1);
    }
  }

  // ----- __rt_ffs by bytes

  /** The table, by its rows of 16 bytes. */
  function BitmapRow(h: nat): (r: seq<nat>)
    ensures |r| == 16
  {
    if h == 0 then [0, 0, 1, 0, 2, 0, 1, 0, 3, 0, 1, 0, 2, 0, 1, 0]
    else if h == 1 then [4, 0, 1, 0, 2, 0, 1, 0, 3, 0, 1, 0, 2, 0, 1, 0]
    else if h == 2 then [5, 0, 1, 0, 2, 0, 1, 0, 3, 0, 1, 0, 2, 0, 1, 0]
    else if h == 3 then [4, 0, 1, 0, 2, 0, 1, 0, 3, 0, 1, 0, 2, 0, 1, 0]
    else if h == 4 then [6, 0, 1, 0, 2, 0, 1, 0, 3, 0, 1, 0, 2, 0, 1, 0]
    else if h == 5 then [4, 0, 1, 0, 2, 0, 1, 0, 3, 0, 1, 0, 2, 0, 1, 0]
    else if h == 6 then [5, 0, 1, 0, 2, 0, 1, 0, 3, 0, 1, 0, 2, 0, 1, 0]
    else if h == 7 then [4, 0, 1, 0, 2, 0, 1, 0, 3, 0, 1, 0, 2, 0, 1, 0]
    else if h == 8 then [7, 0, 1, 0, 2, 0, 1, 0, 3, 0, 1, 0, 2, 0, 1, 0]
    else if h == 9 then [4, 0, 1, 0, 2, 0, 1, 0, 3, 0, 1, 0, 2, 0, 1, 0]
    else if h == 10 then [5, 0, 1, 0, 2, 0, 1, 0, 3, 0, 1, 0, 2, 0, 1, 0]
    else if h == 11 then [4, 0, 1, 0, 2, 0, 1, 0, 3, 0, 1, 0, 2, 0, 1, 0]
    else if h == 12 then [6, 0, 1, 0, 2, 0, 1, 0, 3, 0, 1, 0, 2, 0, 1, 0]
    else if h == 13 then [4, 0, 1, 0, 2, 0, 1, 0, 3, 0, 1, 0, 2, 0, 1, 0]
    else if h == 14 then [5, 0, 1, 0, 2, 0, 1, 0, 3, 0, 1, 0, 2, 0, 1, 0]
    else [4, 0, 1, 0, 2, 0, 1, 0, 3, 0, 1, 0, 2, 0, 1, 0]
  }

  function Bitmap(b: nat): nat
    requires b < 256
  {
    BitmapRow(b / 16)[b % 16]
  }

  /** The first column by itself. */
  lemma FirstColumn(h: nat)
    requires h < 16
    ensures BitmapRow(h)[0] == if h == 0 then 0 else Lowest(h) + 3
  {
    assert Lowest(1) == Lowest(3) == Lowest(5) == Lowest(7) == Lowest(9) == Lowest(11) == Lowest(13) == Lowest(15) == 1;
    assert Lowest(2) == Lowest(6) == Lowest(10) == Lowest(14) == 2;
    assert Lowest(4) == Lowest(12) == 3 && Lowest(8) == 4;
  }

  /** The other columns repeat in every row. */
  lemma OtherColumns(h: nat, l: nat)
    requires h < 16 && 0 < l < 16
    ensures BitmapRow(h)[l] == BitmapRow(0)[l]
  {
    assert BitmapRow(0)[1..] == [0, 1, 0, 2, 0, 1, 0, 3, 0, 1, 0, 2, 0, 1, 0];
    if h == 1 {
      assert BitmapRow(1)[1..] == BitmapRow(0)[1..];
    }
    if h == 2 {
      assert BitmapRow(2)[1..] == BitmapRow(0)[1..];
    }
    if h == 3 {
      assert BitmapRow(3)[1..] == BitmapRow(0)[1..];
    }
    if h == 4 {
      assert BitmapRow(4)[1..] == BitmapRow(0)[1..];
    }
    if h == 5 {
      assert BitmapRow(5)[1..] == BitmapRow(0)[1..];
    }
    if h == 6 {
      assert BitmapRow(6)[1..] == BitmapRow(0)[1..];
    }
    if h == 7 {
      assert BitmapRow(7)[1..] == BitmapRow(0)[1..];
    }
    if h == 8 {
      assert BitmapRow(8)[1..] == BitmapRow(0)[1..];
    }
    if h == 9 {
      assert BitmapRow(9)[1..] == BitmapRow(0)[1..];
    }
    if h == 10 {
      assert BitmapRow(10)[1..] == BitmapRow(0)[1..];
    }
    if h == 11 {
      assert BitmapRow(11)[1..] == BitmapRow(0)[1..];
    }
    if h == 12 {
      assert BitmapRow(12)[1..] == BitmapRow(0)[1..];
    }
    if h == 13 {
      assert BitmapRow(13)[1..] == BitmapRow(0)[1..];
    }
    if h == 14 {
      assert BitmapRow(14)[1..] == BitmapRow(0)[1..];
    }
    if h == 15 {
      assert BitmapRow(15)[1..] == BitmapRow(0)[1..];
    }
    assert BitmapRow(h)[l] == BitmapRow(h)[1..][l - 1] && BitmapRow(0)[l] == BitmapRow(0)[1..][l - 1];
  }

  lemma ColumnIsLowest(l: nat)
    requires 0 < l < 16
    ensures BitmapRow(0)[l] + 1 == Lowest(l)
  {
    FirstColumn(l);
  }

  /** Every entry of the table but the first is the place of the lowest bit of its index, counted from 0. */
  lemma TableIsLowest(b: nat)
    requires 0 < b < 256
    ensures Bitmap(b) + 1 == Lowest(b)
  {
    hide BitmapRow, Low, Lowest;
    if b % 16 == 0 {
      FirstColumn(b / 16);
      FirstEntry(b / 16);
    } else {
      OtherColumns(b / 16, b % 16);
      ColumnIsLowest(b % 16);
      LowNibble(b);
      LowestOfLow(b, 4);
    }
  }

  lemma FirstEntry(h: nat)
    requires h > 0
    ensures Lowest(16 * h) == Lowest(h) + 4
  {
    assert Mask(4) == 16;
    LowestScaled(h, 4);
  }

  /** `__rt_ffs`: `value & 0xff00` and the shift after it leave the second byte, and so on. */
  function Ffs(value: nat): int
    requires value < 0x1_0000_0000
  {
    if value == 0 then 0
    else if value % 256 != 0 then Bitmap(value % 256) + 1
    else if value / 256 % 256 != 0 then Bitmap(value / 256 % 256) + 9
    else if value / 65536 % 256 != 0 then Bitmap(value / 65536 % 256) + 17
    else Bitmap(value / 16777216 % 256) + 25
  }

  /** One byte of the search. */
  lemma ByteIsLowest(x: nat)
    requires x % 256 != 0
    ensures Bitmap(x % 256) + 1 == Lowest(x)
  {
    TableIsLowest(x % 256);
    LowByte(x);
    LowestOfLow(x, 8);
  }

  /** An empty byte moves the lowest bit up by eight. */
  lemma EmptyByte(x: nat)
    requires x % 256 == 0 && x > 0
    ensures Lowest(x) == Lowest(x / 256) + 8
  {
    assert Mask(8) == 256;
    LowestScaled(x / 256, 8);
  }

  lemma FfsIsLowest(value: nat)
    requires value < 0x1_0000_0000
    ensures Ffs(value) == Lowest(value)
  {
    hide Lowest, Bitmap;
    if value == 0 {
      LowestOfZero();
    } else if value % 256 != 0 {
      ByteIsLowest(value);
    } else {
      EmptyByte(value);
      FfsUpper(value);
    }
  }

  lemma LowestOfZero()
    ensures Lowest(0) == 0
  {
  }

  lemma FfsUpper(value: nat)
    requires 0 < value < 0x1_0000_0000 && value % 256 == 0
    ensures Ffs(value) == Lowest(value / 256) + 8
  {
    hide Lowest, Bitmap;
    var v := value / 256;
    if v % 256 != 0 {
      ByteIsLowest(v);
    } else {
      EmptyByte(v);
      var w := v / 256;
      assert w == value / 65536;
      if w % 256 != 0 {
        ByteIsLowest(w);
      } else {
        EmptyByte(w);
        assert w / 256 == value / 16777216 && 0 < w / 256 < 256;
        ByteIsLowest(w / 256);
      }
    }
  }

  // ----- the small __rt_ffs

  const Tiny: seq<nat> :=
    [0, 1, 2, 27, 3, 24, 28, 32,
     4, 17, 25, 31, 29, 12, 32, 14,
     5, 8, 18, 32, 26, 23, 32, 16,
     30, 11, 13, 7, 32, 22, 15, 10,
     6, 21, 9, 20, 19]

  function FfsTiny(value: nat): int {
    var low := if value == 0 then 0 else Xor(And(value, value - 1), value);
    if low % 37 < |Tiny| then Tiny[low % 37] else 0
  }

  lemma {:induction false} AndSelf(x: nat)
    ensures And(x, x) == x && Xor(x, x) == 0
  {
    if x > 0 { AndSelf(x / 2); }
  }

  /** `x & (x - 1) ^ x` is the lowest bit of `x`. */
  lemma {:induction false} IsolatesLowest(x: nat)
    requires x > 0
    ensures Lowest(x) > 0 && Xor(And(x, x - 1), x) == Mask(Lowest(x) - 1)
  {
    var h := x / 2;
    if x % 2 == 1 {
      assert (x - 1) / 2 == h;
      AndSelf(h);
      assert And(x, x - 1) == 2 * h;
      assert h > 0 ==> Xor(2 * h, x) == 2 * Xor(h, h) + 1;
    } else {
      assert h > 0 && (x - 1) / 2 == h - 1;
      IsolatesLowest(h);
      assert x > 1 ==> And(x, x - 1) == 2 * And(h, h - 1);
      assert And(h, h - 1) > 0 ==> Xor(And(x, x - 1), x) == 2 * Xor(And(h, h - 1), h);
    }
  }

  /** The powers of two below `1 << 32` all differ modulo 37. */
  lemma TinyOfMask(k: nat)
    requires k < 32
    ensures Tiny[Mask(k) % 37] == k + 1
  {
    if k < 16 {
      TinyLow(k);
    } else {
      TinyHigh(k);
    }
  }

  lemma TinyLow(k: nat)
    requires k < 16
    ensures Tiny[Mask(k) % 37] == k + 1
  {
    MasksTo15();
    hide Mask;
    if k == 0 { assert Tiny[1] == 1; }
    if k == 1 { assert Tiny[2] == 2; }
    if k == 2 { assert Tiny[4] == 3; }
    if k == 3 { assert Tiny[8] == 4; }
    if k == 4 { assert Tiny[16] == 5; }
    if k == 5 { assert Tiny[32] == 6; }
    if k == 6 { assert Tiny[27] == 7; }
    if k == 7 { assert Tiny[17] == 8; }
    if k == 8 { assert Tiny[34] == 9; }
    if k == 9 { assert Tiny[31] == 10; }
    if k == 10 { assert Tiny[25] == 11; }
    if k == 11 { assert Tiny[13] == 12; }
    if k == 12 { assert Tiny[26] == 13; }
    if k == 13 { assert Tiny[15] == 14; }
    if k == 14 { assert Tiny[30] == 15; }
    if k == 15 { assert Tiny[23] == 16; }
  }

  lemma TinyHigh(k: nat)
    requires 16 <= k < 32
    ensures Tiny[Mask(k) % 37] == k + 1
  {
    hide Mask;
    if k < 20 { TinyFrom16(k); } else if k < 24 { TinyFrom20(k); } else { TinyFrom24(k); }
  }

  lemma TinyFrom16(k: nat)
    requires 16 <= k < 20
    ensures Tiny[Mask(k) % 37] == k + 1
  {
    hide Mask;
    MasksTo31();
    if k == 16 { assert Tiny[9] == 17; }
    if k == 17 { assert Tiny[18] == 18; }
    if k == 18 { assert Tiny[36] == 19; }
    if k == 19 { assert Tiny[35] == 20; }
  }

  lemma TinyFrom20(k: nat)
    requires 20 <= k < 24
    ensures Tiny[Mask(k) % 37] == k + 1
  {
    hide Mask;
    MasksTo31();
    if k == 20 { assert Tiny[33] == 21; }
    if k == 21 { assert Tiny[29] == 22; }
    if k == 22 { assert Tiny[21] == 23; }
    if k == 23 { assert Tiny[5] == 24; }
  }

  lemma TinyFrom24(k: nat)
    requires 24 <= k < 32
    ensures Tiny[Mask(k) % 37] == k + 1
  {
    hide Mask;
    MasksTo31();
    if k == 24 { assert Tiny[10] == 25; }
    if k == 25 { assert Tiny[20] == 26; }
    if k == 26 { assert Tiny[3] == 27; }
    if k == 27 { assert Tiny[6] == 28; }
    if k == 28 { assert Tiny[12] == 29; }
    if k == 29 { assert Tiny[24] == 30; }
    if k == 30 { assert Tiny[11] == 31; }
    if k == 31 { assert Tiny[22] == 32; }
  }

  lemma MasksTo15()
    ensures Mask(0) == 1
    ensures Mask(1) == 2
    ensures Mask(2) == 4
    ensures Mask(3) == 8
    ensures Mask(4) == 16
    ensures Mask(5) == 32
    ensures Mask(6) == 64
    ensures Mask(7) == 128
    ensures Mask(8) == 256
    ensures Mask(9) == 512
    ensures Mask(10) == 1024
    ensures Mask(11) == 2048
    ensures Mask(12) == 4096
    ensures Mask(13) == 8192
    ensures Mask(14) == 16384
    ensures Mask(15) == 32768
  {
  }

  lemma MasksTo31()
    ensures Mask(16) == 65536
    ensures Mask(17) == 131072
    ensures Mask(18) == 262144
    ensures Mask(19) == 524288
    ensures Mask(20) == 1048576
    ensures Mask(21) == 2097152
    ensures Mask(22) == 4194304
    ensures Mask(23) == 8388608
    ensures Mask(24) == 16777216
    ensures Mask(25) == 33554432
    ensures Mask(26) == 67108864
    ensures Mask(27) == 134217728
    ensures Mask(28) == 268435456
    ensures Mask(29) == 536870912
    ensures Mask(30) == 1073741824
    ensures Mask(31) == 2147483648
  {
    MasksTo15();
    assert Mask(16) == 2 * Mask(15) && Mask(17) == 2 * Mask(16) && Mask(18) == 2 * Mask(17) && Mask(19) == 2 * Mask(18);
    assert Mask(20) == 2 * Mask(19) && Mask(21) == 2 * Mask(20) && Mask(22) == 2 * Mask(21) && Mask(23) == 2 * Mask(22);
    assert Mask(24) == 2 * Mask(23) && Mask(25) == 2 * Mask(24) && Mask(26) == 2 * Mask(25) && Mask(27) == 2 * Mask(26);
    assert Mask(28) == 2 * Mask(27) && Mask(29) == 2 * Mask(28) && Mask(30) == 2 * Mask(29) && Mask(31) == 2 * Mask(30);
  }

  /** Both versions of `__rt_ffs` return the same, on every 32-bit value. */
  lemma FfsAgree(value: nat)
    requires value < 0x1_0000_0000
    ensures FfsTiny(value) == Ffs(value) == Lowest(value)
  {
    FfsIsLowest(value);
    if value > 0 {
      IsolatesLowest(value);
      MasksTo31();
      assert Mask(32) == 2 * Mask(31);
      LowestBelow(value, 32);
      hide Xor, And, Ffs, Lowest, Mask;
      TinyOfMask(Lowest(value) - 1);
    }
  }
}
