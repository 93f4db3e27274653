/** The priority bit map (kernel/task.c:108-202, kernel/task.h:345-350): 16 bits, bit
    `pri` standing for priority `pri`, the lowest bit for the highest priority. */
module Bitmap {

  const WIDTH := 16

  /** PRIMAP_BIT. */
  function PrimapBit(pri: int): bv16
    requires 0 <= pri < WIDTH
  {
    (1 as bv16) << pri
  }

  ghost predicate Bit(b: bv16, pri: int) {
    0 <= pri < WIDTH && b & PrimapBit(pri) != 0
  }

  lemma BitsApart(i: int, j: int)
    requires 0 <= i < WIDTH && 0 <= j < WIDTH
    ensures PrimapBit(i) & PrimapBit(j) == if i == j then PrimapBit(i) else 0
    ensures PrimapBit(i) != 0
  {
  }

  lemma MaskOr(b: bv16, x: bv16, y: bv16)
    ensures (b | x) & y == (b & y) | (x & y)
  {
  }

  lemma OrZero(x: bv16, y: bv16)
    ensures x | y == 0 <==> x == 0 && y == 0
  {
  }

  lemma MaskNot(b: bv16, x: bv16, y: bv16)
    requires x & y == 0
    ensures b & !x & y == b & y
  {
    assert !x & y == y;
  }

  lemma MaskSelf(b: bv16, x: bv16)
    ensures b & !x & x == 0
  {
  }

  /** primap_set: the bit is set and no other changes. */
  function PrimapSet(b: bv16, pri: int): (r: bv16)
    requires 0 <= pri < WIDTH
    ensures forall i {:trigger Bit(r, i)} {:trigger Bit(b, i)} :: Bit(r, i) <==> Bit(b, i) || i == pri
  {
    SetBits(b, pri);
    b | PrimapBit(pri)
  }

  lemma SetBits(b: bv16, pri: int)
    requires 0 <= pri < WIDTH
    ensures forall i {:trigger Bit(b | PrimapBit(pri), i)} {:trigger Bit(b, i)} :: Bit(b | PrimapBit(pri), i) <==>
            Bit(b, i) || i == pri
  {
    forall i | 0 <= i < WIDTH
      ensures Bit(b | PrimapBit(pri), i) <==> Bit(b, i) || i == pri
    {
      SetBit(b, pri, i);
    }
    hide PrimapBit;
  }

  lemma SetBit(b: bv16, pri: int, i: int)
    requires 0 <= pri < WIDTH && 0 <= i < WIDTH
    ensures (b | PrimapBit(pri)) & PrimapBit(i) != 0 <==> b & PrimapBit(i) != 0 || i == pri
  {
    BitsApart(pri, i);
    hide PrimapBit;
    MaskOr(b, PrimapBit(pri), PrimapBit(i));
    OrZero(b & PrimapBit(i), PrimapBit(pri) & PrimapBit(i));
  }

  /** primap_clear: the bit is cleared and no other changes. */
  function PrimapClear(b: bv16, pri: int): (r: bv16)
    requires 0 <= pri < WIDTH
    ensures forall i {:trigger Bit(r, i)} {:trigger Bit(b, i)} :: Bit(r, i) <==> Bit(b, i) && i != pri
  {
    ClearBits(b, pri);
    b & !PrimapBit(pri)
  }

  lemma ClearBits(b: bv16, pri: int)
    requires 0 <= pri < WIDTH
    ensures forall i {:trigger Bit(b & !PrimapBit(pri), i)} {:trigger Bit(b, i)} :: Bit(b & !PrimapBit(pri), i) <==>
            Bit(b, i) && i != pri
  {
    forall i | 0 <= i < WIDTH
      ensures Bit(b & !PrimapBit(pri), i) <==> Bit(b, i) && i != pri
    {
      ClearBit(b, pri, i);
    }
    hide PrimapBit;
  }

  lemma ClearBit(b: bv16, pri: int, i: int)
    requires 0 <= pri < WIDTH && 0 <= i < WIDTH
    ensures (b & !PrimapBit(pri)) & PrimapBit(i) != 0 <==> b & PrimapBit(i) != 0 && i != pri
  {
    BitsApart(pri, i);
    hide PrimapBit;
    if i == pri {
      MaskSelf(b, PrimapBit(pri));
    } else {
      MaskNot(b, PrimapBit(pri), PrimapBit(i));
    }
  }

  /** Bit n is set and no lower one is. */
  ghost predicate Lowest(b: bv16, n: int) {
    Bit(b, n) && forall i {:trigger Bit(b, i)} :: 0 <= i < n ==> !Bit(b, i)
  }

  const BITMAP_SEARCH_TABLE := [0, 1, 0, 2, 0, 1, 0, 3, 0, 1, 0, 2, 0, 1, 0]

  /** The table has the lowest bit of each nibble. */
  lemma TableLowest(x: bv16)
    requires x & 0xf != 0
    ensures 0 <= (x & 0xf) as int - 1 < |BITMAP_SEARCH_TABLE|
    ensures var n := BITMAP_SEARCH_TABLE[(x & 0xf) as int - 1];
      0 <= n < 4 && x & PrimapBit(n) != 0 && forall i {:trigger PrimapBit(i)} :: 0 <= i < n ==> x & PrimapBit(i) == 0
  {
    var nibble := x & 0xf;
    assert nibble == 1 || nibble == 2 || nibble == 3 || nibble == 4 || nibble == 5 || nibble == 6 || nibble == 7
           || nibble == 8
        || nibble == 9 || nibble == 10 || nibble == 11 || nibble == 12 || nibble == 13 || nibble == 14 || nibble == 15;
  }

  lemma LowestInNibble(x: bv16)
    requires x & 0xf != 0
    ensures 0 <= (x & 0xf) as int - 1 < |BITMAP_SEARCH_TABLE|
    ensures var n := BITMAP_SEARCH_TABLE[(x & 0xf) as int - 1]; 0 <= n < 4 && Lowest(x, n)
  {
    TableLowest(x);
    hide PrimapBit;
  }

  /** A shift moves bit 8 + i, or 4 + i, to bit i. */
  lemma ShiftedEight(b: bv16, i: int)
    requires 0 <= i < 8
    ensures Bit(b >> 8, i) <==> Bit(b, 8 + i)
  {
    PrimapBitShifts(i);
    hide PrimapBit;
    ShiftedByte(b, PrimapBit(i), PrimapBit(8 + i));
  }

  lemma ShiftedFour(b: bv16, i: int)
    requires 0 <= i < 12
    ensures Bit(b >> 4, i) <==> Bit(b, 4 + i)
  {
    PrimapBitShifts(i);
    hide PrimapBit;
    ShiftedNibble(b, PrimapBit(i), PrimapBit(4 + i));
  }

  lemma PrimapBitShifts(i: int)
    requires 0 <= i
    ensures i < 8 ==> PrimapBit(i) << 8 == PrimapBit(8 + i) && PrimapBit(i) & 0xff == PrimapBit(i)
    ensures i < 12 ==> PrimapBit(i) << 4 == PrimapBit(4 + i) && PrimapBit(i) & 0xfff == PrimapBit(i)
  {
  }

  lemma ShiftedByte(b: bv16, x: bv16, y: bv16)
    requires x & 0xff == x && y == x << 8
    ensures (b >> 8) & x != 0 <==> b & y != 0
  {
    assert ((b >> 8) & x) << 8 == b & (x << 8);
    assert (b & (x << 8)) >> 8 == (b >> 8) & x;
  }

  lemma ShiftedNibble(b: bv16, x: bv16, y: bv16)
    requires x & 0xfff == x && y == x << 4
    ensures (b >> 4) & x != 0 <==> b & y != 0
  {
    assert ((b >> 4) & x) << 4 == b & (x << 4);
    assert (b & (x << 4)) >> 4 == (b >> 4) & x;
  }

  lemma LowBits(b: bv16, i: int)
    requires 0 <= i < WIDTH
    ensures b & 0xff == 0 && i < 8 ==> !Bit(b, i)
    ensures b & 0xf == 0 && i < 4 ==> !Bit(b, i)
  {
  }

  /** bitmap_search: the number of the lowest bit that is set. */
  method BitmapSearch(bitmap: bv16) returns (n: int)
    requires bitmap != 0
    ensures Lowest(bitmap, n)
  {
    var b := bitmap;
    n := 0;
    if b & 0x00ff == 0 {
      b := b >> 8;
      n := n + 8;
    }
    assert b & 0xff != 0;
    ghost var m, c := n, b;
    if b & 0x0f == 0 {
      b := b >> 4;
      n := n + 4;
    }
    assert b & 0xf != 0;
    LowestInNibble(b);
    hide Lowest;
    var j := BITMAP_SEARCH_TABLE[(b & 0xf) as int - 1];
    SearchedLowest(bitmap, c, b, m, n - m, j);
    n := n + j;
  }

  lemma SearchedLowest(a: bv16, c: bv16, b: bv16, m: int, s: int, j: int)
    requires Lowest(b, j) && 0 <= j < 4
    requires if m == 8 then c == a >> 8 && a & 0xff == 0 else m == 0 && c == a
    requires if s == 4 then b == c >> 4 && c & 0xf == 0 else s == 0 && b == c
    ensures Lowest(a, m + s + j)
  {
    hide PrimapBit, Bit;
    assert Lowest(c, s + j) by {
      if s == 4 {
        ShiftedFour(c, j);
        forall i | 0 <= i < s + j
          ensures !Bit(c, i)
        {
          if i < 4 {
            LowBits(c, i);
          } else {
            ShiftedFour(c, i - 4);
          }
        }
      }
    }
    if m == 8 {
      ShiftedEight(a, s + j);
      forall i | 0 <= i < m + s + j
        ensures !Bit(a, i)
      {
        if i < 8 {
          LowBits(a, i);
        } else {
          ShiftedEight(a, i - 8);
        }
      }
    }
  }

  /** primap_empty. */
  lemma EmptyMap(b: bv16)
    ensures b == 0 <==> forall i {:trigger Bit(b, i)} :: !Bit(b, i)
  {
    if forall i {:trigger Bit(b, i)} :: !Bit(b, i) {
      assert !Bit(b, 0) && !Bit(b, 1) && !Bit(b, 2) && !Bit(b, 3);
      assert !Bit(b, 4) && !Bit(b, 5) && !Bit(b, 6) && !Bit(b, 7);
      assert !Bit(b, 8) && !Bit(b, 9) && !Bit(b, 10) && !Bit(b, 11);
      assert !Bit(b, 12) && !Bit(b, 13) && !Bit(b, 14) && !Bit(b, 15);
    }
  }
}
