/** Bytes as small integers, and the bit vectors they stand for. */
module Bytes {

  type byte = b: int | 0 <= b < 256

  type uint16 = x: int | 0 <= x < 0x1_0000

  type uint32 = x: int | 0 <= x < 0x1_0000_0000

  const TWO32: nat := 0x1_0000_0000

  function Power2(k: nat): nat {
    if k == 0 then 1 else 2 * Power2(k - 1)
  }

  /** The bit vector with value n (for n below 2^16). */
  function ToBits(n: nat): bv16
    decreases n
  {
    if n == 0 then 0
    else (ToBits(n / 2) << 1) | (if n % 2 == 1 then 1 else 0)
  }

  function FromBits(x: bv16): nat
    decreases x
  {
    if x == 0 then 0
    else FromBits(x >> 1) * 2 + (if x & 1 == 1 then 1 else 0)
  }

  lemma PushBit(x: bv16, bit: bv16)
    requires bit < 2
    ensures x < 128 ==> (x << 1) | bit < 256
    ensures x < 64 ==> (x << 1) | bit < 128
    ensures x < 32 ==> (x << 1) | bit < 64
    ensures x < 16 ==> (x << 1) | bit < 32
    ensures x < 8 ==> (x << 1) | bit < 16
    ensures x < 4 ==> (x << 1) | bit < 8
    ensures x < 2 ==> (x << 1) | bit < 4
    ensures x < 1 ==> (x << 1) | bit < 2
  {
  }

  lemma {:induction false} BitsBelow(n: nat)
    ensures n < 256 ==> ToBits(n) < 256
    ensures n < 128 ==> ToBits(n) < 128
    ensures n < 64 ==> ToBits(n) < 64
    ensures n < 32 ==> ToBits(n) < 32
    ensures n < 16 ==> ToBits(n) < 16
    ensures n < 8 ==> ToBits(n) < 8
    ensures n < 4 ==> ToBits(n) < 4
    ensures n < 2 ==> ToBits(n) < 2
    decreases n
  {
    if n != 0 {
      BitsBelow(n / 2);
      PushBit(ToBits(n / 2), if n % 2 == 1 then 1 else 0);
    }
  }

  lemma PopBit(x: bv16, bit: bv16)
    requires x < 128 && bit < 2
    ensures ((x << 1) | bit) >> 1 == x
    ensures ((x << 1) | bit) & 1 == 1 <==> bit == 1
    ensures (x << 1) | bit == 0 ==> x == 0 && bit == 0
  {
  }

  lemma SplitBit(x: bv16)
    ensures x & 1 == 1 ==> ((x >> 1) << 1) | 1 == x
    ensures x & 1 != 1 ==> ((x >> 1) << 1) | 0 == x
  {
  }

  lemma HalfBelow(x: bv16)
    ensures x < 256 ==> x >> 1 < 128
    ensures x < 128 ==> x >> 1 < 64
    ensures x < 64 ==> x >> 1 < 32
    ensures x < 32 ==> x >> 1 < 16
    ensures x < 16 ==> x >> 1 < 8
    ensures x < 8 ==> x >> 1 < 4
    ensures x < 4 ==> x >> 1 < 2
    ensures x < 2 ==> x == 0 || x == 1
  {
  }

  lemma {:induction false} ByteThroughBits(n: nat)
    requires n < 256
    ensures FromBits(ToBits(n)) == n
    decreases n
  {
    if n != 0 {
      var bit: bv16 := if n % 2 == 1 then 1 else 0;
      ByteThroughBits(n / 2);
      BitsBelow(n / 2);
      PopBit(ToBits(n / 2), bit);
    }
  }

  lemma ToBitsOfPair(h: nat)
    ensures ToBits(h * 2 + 1) == (ToBits(h) << 1) | 1
    ensures h != 0 ==> ToBits(h * 2) == (ToBits(h) << 1) | 0
  {
    assert (h * 2 + 1) / 2 == h && (h * 2 + 1) % 2 == 1;
  }

  lemma ShiftedOut(x: bv16)
    ensures x >> 1 == 0 && x & 1 != 1 ==> x == 0
    ensures x != 0 ==> x >> 1 < x
  {
  }

  lemma {:induction false} FromBitsZero(x: bv16)
    ensures FromBits(x) == 0 ==> x == 0
    decreases x
  {
    if x != 0 {
      ShiftedOut(x);
      FromBitsZero(x >> 1);
    }
  }

  lemma LowestBitFirst(x: bv16)
    requires x != 0
    ensures x & 1 == 1 ==> FromBits(x) == FromBits(x >> 1) * 2 + 1
    ensures x & 1 != 1 ==> FromBits(x) == FromBits(x >> 1) * 2
  {
  }

  lemma JoinOdd(x: bv16, half: nat)
    requires ToBits(half) == x >> 1 && x & 1 == 1
    ensures ToBits(half * 2 + 1) == x
  {
    ToBitsOfPair(half);
    hide ToBits;
    SplitBit(x);
  }

  lemma {:induction false} JoinEven(x: bv16, half: nat)
    requires ToBits(half) == x >> 1 && x & 1 != 1 && half != 0
    ensures ToBits(half * 2) == x
  {
    ToBitsOfPair(half);
    hide ToBits;
    SplitBit(x);
  }

  lemma {:induction false} BitsThroughNumber(x: bv16)
    ensures ToBits(FromBits(x)) == x
    decreases x
  {
    if x != 0 {
      ShiftedOut(x);
      BitsThroughNumber(x >> 1);
      LowestBitFirst(x);
      var half := FromBits(x >> 1);
      if x & 1 == 1 {
        JoinOdd(x, half);
      } else {
        FromBitsZero(x >> 1);
        JoinEven(x, half);
      }
    }
  }

  lemma {:induction false} NumberBelow(x: bv16)
    ensures x < 256 ==> FromBits(x) < 256
    ensures x < 128 ==> FromBits(x) < 128
    ensures x < 64 ==> FromBits(x) < 64
    ensures x < 32 ==> FromBits(x) < 32
    ensures x < 16 ==> FromBits(x) < 16
    ensures x < 8 ==> FromBits(x) < 8
    ensures x < 4 ==> FromBits(x) < 4
    ensures x < 2 ==> FromBits(x) < 2
    decreases x
  {
    if x != 0 {
      NumberBelow(x >> 1);
      HalfBelow(x);
    }
  }

  lemma ByteMask(x: bv16)
    ensures x & 0xff < 256 && x >> 8 < 256
  {
  }

  /** The low and high bytes of a 16-bit value. */
  function LowByte(x: bv16): byte {
    assert FromBits(x & 0xff) < 256 by {
      NumberBelow(x & 0xff);
      ByteMask(x);
    }
    FromBits(x & 0xff)
  }

  function HighByte(x: bv16): byte {
    assert FromBits(x >> 8) < 256 by {
      NumberBelow(x >> 8);
      ByteMask(x);
    }
    FromBits(x >> 8)
  }
}
