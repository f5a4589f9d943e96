/** The frame check sequence of the HDLC framer (Appendix C of RFC 1662): the
    bit-at-a-time shift register, and the lookup table that computes it bytewise. */
module CrcCcitt {

  import opened Bytes

  // ---- The table-driven step ----

  /** The 256 constants of the lookup table, row by row. */
  function Table(i: bv16): bv16 {
    match i >> 4
    case 0 => (match i & 0xf
      case 0 => 0x0000 case 1 => 0x1189 case 2 => 0x2312 case 3 => 0x329b case 4 => 0x4624 case 5 => 0x57ad case 6 => 0x6536 case 7 => 0x74bf
      case 8 => 0x8c48 case 9 => 0x9dc1 case 10 => 0xaf5a case 11 => 0xbed3 case 12 => 0xca6c case 13 => 0xdbe5 case 14 => 0xe97e case _ => 0xf8f7)
    case 1 => (match i & 0xf
      case 0 => 0x1081 case 1 => 0x0108 case 2 => 0x3393 case 3 => 0x221a case 4 => 0x56a5 case 5 => 0x472c case 6 => 0x75b7 case 7 => 0x643e
      case 8 => 0x9cc9 case 9 => 0x8d40 case 10 => 0xbfdb case 11 => 0xae52 case 12 => 0xdaed case 13 => 0xcb64 case 14 => 0xf9ff case _ => 0xe876)
    case 2 => (match i & 0xf
      case 0 => 0x2102 case 1 => 0x308b case 2 => 0x0210 case 3 => 0x1399 case 4 => 0x6726 case 5 => 0x76af case 6 => 0x4434 case 7 => 0x55bd
      case 8 => 0xad4a case 9 => 0xbcc3 case 10 => 0x8e58 case 11 => 0x9fd1 case 12 => 0xeb6e case 13 => 0xfae7 case 14 => 0xc87c case _ => 0xd9f5)
    case 3 => (match i & 0xf
      case 0 => 0x3183 case 1 => 0x200a case 2 => 0x1291 case 3 => 0x0318 case 4 => 0x77a7 case 5 => 0x662e case 6 => 0x54b5 case 7 => 0x453c
      case 8 => 0xbdcb case 9 => 0xac42 case 10 => 0x9ed9 case 11 => 0x8f50 case 12 => 0xfbef case 13 => 0xea66 case 14 => 0xd8fd case _ => 0xc974)
    case 4 => (match i & 0xf
      case 0 => 0x4204 case 1 => 0x538d case 2 => 0x6116 case 3 => 0x709f case 4 => 0x0420 case 5 => 0x15a9 case 6 => 0x2732 case 7 => 0x36bb
      case 8 => 0xce4c case 9 => 0xdfc5 case 10 => 0xed5e case 11 => 0xfcd7 case 12 => 0x8868 case 13 => 0x99e1 case 14 => 0xab7a case _ => 0xbaf3)
    case 5 => (match i & 0xf
      case 0 => 0x5285 case 1 => 0x430c case 2 => 0x7197 case 3 => 0x601e case 4 => 0x14a1 case 5 => 0x0528 case 6 => 0x37b3 case 7 => 0x263a
      case 8 => 0xdecd case 9 => 0xcf44 case 10 => 0xfddf case 11 => 0xec56 case 12 => 0x98e9 case 13 => 0x8960 case 14 => 0xbbfb case _ => 0xaa72)
    case 6 => (match i & 0xf
      case 0 => 0x6306 case 1 => 0x728f case 2 => 0x4014 case 3 => 0x519d case 4 => 0x2522 case 5 => 0x34ab case 6 => 0x0630 case 7 => 0x17b9
      case 8 => 0xef4e case 9 => 0xfec7 case 10 => 0xcc5c case 11 => 0xddd5 case 12 => 0xa96a case 13 => 0xb8e3 case 14 => 0x8a78 case _ => 0x9bf1)
    case 7 => (match i & 0xf
      case 0 => 0x7387 case 1 => 0x620e case 2 => 0x5095 case 3 => 0x411c case 4 => 0x35a3 case 5 => 0x242a case 6 => 0x16b1 case 7 => 0x0738
      case 8 => 0xffcf case 9 => 0xee46 case 10 => 0xdcdd case 11 => 0xcd54 case 12 => 0xb9eb case 13 => 0xa862 case 14 => 0x9af9 case _ => 0x8b70)
    case 8 => (match i & 0xf
      case 0 => 0x8408 case 1 => 0x9581 case 2 => 0xa71a case 3 => 0xb693 case 4 => 0xc22c case 5 => 0xd3a5 case 6 => 0xe13e case 7 => 0xf0b7
      case 8 => 0x0840 case 9 => 0x19c9 case 10 => 0x2b52 case 11 => 0x3adb case 12 => 0x4e64 case 13 => 0x5fed case 14 => 0x6d76 case _ => 0x7cff)
    case 9 => (match i & 0xf
      case 0 => 0x9489 case 1 => 0x8500 case 2 => 0xb79b case 3 => 0xa612 case 4 => 0xd2ad case 5 => 0xc324 case 6 => 0xf1bf case 7 => 0xe036
      case 8 => 0x18c1 case 9 => 0x0948 case 10 => 0x3bd3 case 11 => 0x2a5a case 12 => 0x5ee5 case 13 => 0x4f6c case 14 => 0x7df7 case _ => 0x6c7e)
    case 10 => (match i & 0xf
      case 0 => 0xa50a case 1 => 0xb483 case 2 => 0x8618 case 3 => 0x9791 case 4 => 0xe32e case 5 => 0xf2a7 case 6 => 0xc03c case 7 => 0xd1b5
      case 8 => 0x2942 case 9 => 0x38cb case 10 => 0x0a50 case 11 => 0x1bd9 case 12 => 0x6f66 case 13 => 0x7eef case 14 => 0x4c74 case _ => 0x5dfd)
    case 11 => (match i & 0xf
      case 0 => 0xb58b case 1 => 0xa402 case 2 => 0x9699 case 3 => 0x8710 case 4 => 0xf3af case 5 => 0xe226 case 6 => 0xd0bd case 7 => 0xc134
      case 8 => 0x39c3 case 9 => 0x284a case 10 => 0x1ad1 case 11 => 0x0b58 case 12 => 0x7fe7 case 13 => 0x6e6e case 14 => 0x5cf5 case _ => 0x4d7c)
    case 12 => (match i & 0xf
      case 0 => 0xc60c case 1 => 0xd785 case 2 => 0xe51e case 3 => 0xf497 case 4 => 0x8028 case 5 => 0x91a1 case 6 => 0xa33a case 7 => 0xb2b3
      case 8 => 0x4a44 case 9 => 0x5bcd case 10 => 0x6956 case 11 => 0x78df case 12 => 0x0c60 case 13 => 0x1de9 case 14 => 0x2f72 case _ => 0x3efb)
    case 13 => (match i & 0xf
      case 0 => 0xd68d case 1 => 0xc704 case 2 => 0xf59f case 3 => 0xe416 case 4 => 0x90a9 case 5 => 0x8120 case 6 => 0xb3bb case 7 => 0xa232
      case 8 => 0x5ac5 case 9 => 0x4b4c case 10 => 0x79d7 case 11 => 0x685e case 12 => 0x1ce1 case 13 => 0x0d68 case 14 => 0x3ff3 case _ => 0x2e7a)
    case 14 => (match i & 0xf
      case 0 => 0xe70e case 1 => 0xf687 case 2 => 0xc41c case 3 => 0xd595 case 4 => 0xa12a case 5 => 0xb0a3 case 6 => 0x8238 case 7 => 0x93b1
      case 8 => 0x6b46 case 9 => 0x7acf case 10 => 0x4854 case 11 => 0x59dd case 12 => 0x2d62 case 13 => 0x3ceb case 14 => 0x0e70 case _ => 0x1ff9)
    case _ => (match i & 0xf
      case 0 => 0xf78f case 1 => 0xe606 case 2 => 0xd49d case 3 => 0xc514 case 4 => 0xb1ab case 5 => 0xa022 case 6 => 0x92b9 case 7 => 0x8330
      case 8 => 0x7bc7 case 9 => 0x6a4e case 10 => 0x58d5 case 11 => 0x495c case 12 => 0x3de3 case 13 => 0x2c6a case 14 => 0x1ef1 case _ => 0x0f78)
  }

  function Xor(a: bv16, b: bv16): bv16 {
    a ^ b
  }

  function Upper(a: bv16): bv16 {
    a >> 8
  }

  function Lower(a: bv16): bv16 {
    a & 0xff
  }

  function CrcByte(crc: bv16, c: byte): bv16 {
    Xor(Upper(crc), Table(Lower(Xor(crc, ToBits(c)))))
  }

  // ---- Reference: the shift register, one bit at a time ----

  /** One shift, polynomial x^16 + x^12 + x^5 + 1 with the bits reversed. */
  function BitStep(r: bv16): bv16 {
    if r & 1 == 1 then (r >> 1) ^ 0x8408 else r >> 1
  }

  function Shift(r: bv16, n: nat): bv16
    decreases n
  {
    if n == 0 then r else Shift(BitStep(r), n - 1)
  }

  function ShiftByte(crc: bv16, c: byte): bv16 {
    Shift(Xor(crc, ToBits(c)), 8)
  }

  const INIT_FCS: bv16 := 0xffff
  const GOOD_FCS: bv16 := 0xf0b8

  /** The register after a message, started from a given value. */
  function Register(crc: bv16, data: seq<byte>): bv16
    decreases |data|
  {
    if |data| == 0 then crc
    else ShiftByte(Register(crc, data[..|data| - 1]), data[|data| - 1])
  }

  function Fcs(data: seq<byte>): bv16 {
    Register(INIT_FCS, data)
  }

  /** The two bytes the sender appends: the complemented check value, low byte first. */
  function FcsTail(data: seq<byte>): (tail: seq<byte>)
    ensures |tail| == 2
  {
    var fcs := Xor(Fcs(data), INIT_FCS);
    [LowByte(fcs), HighByte(fcs)]
  }

  // ---- The table lookup is eight shifts ----

  function EightSteps(r: bv16): bv16 {
    BitStep(BitStep(BitStep(BitStep(BitStep(BitStep(BitStep(BitStep(r))))))))
  }

  lemma {:induction false} ShiftEight(r: bv16)
    ensures Shift(r, 8) == EightSteps(r)
  {
    hide BitStep;
    var r2 := BitStep(BitStep(r));
    var r4 := BitStep(BitStep(r2));
    var r6 := BitStep(BitStep(r4));
    assert Shift(r, 8) == Shift(r2, 6);
    assert Shift(r2, 6) == Shift(r4, 4);
    assert Shift(r4, 4) == Shift(r6, 2);
    assert Shift(r6, 2) == Shift(BitStep(r6), 1) == Shift(BitStep(BitStep(r6)), 0);
  }

  lemma TableIsEightSteps(i: bv16)
    requires i < 256
    ensures Table(i) == EightSteps(i)
  {
  }

  lemma SplitSteps(r: bv16)
    ensures EightSteps(r) == Xor(Upper(r), EightSteps(Lower(r)))
  {
  }

  lemma UpperUntouched(crc: bv16, c: bv16)
    requires c < 256
    ensures Upper(Xor(crc, c)) == Upper(crc)
  {
  }

  lemma LowerBelow(r: bv16)
    ensures Lower(r) < 256
  {
  }

  /** The lookup advances the register by the eight bits of one byte. */
  lemma CrcByteIsShiftByte(crc: bv16, c: byte)
    ensures CrcByte(crc, c) == ShiftByte(crc, c)
  {
    hide EightSteps, Table, Shift, ToBits, Xor, Upper, Lower;
    var r := Xor(crc, ToBits(c));
    LowerBelow(r);
    TableIsEightSteps(Lower(r));
    SplitSteps(r);
    BitsBelow(c);
    UpperUntouched(crc, ToBits(c));
    ShiftEight(r);
  }

  /** The check value the byte loops compute: one lookup for each byte. */
  function TableFold(crc: bv16, data: seq<byte>): bv16
    decreases |data|
  {
    if |data| == 0 then crc
    else TableFold(CrcByte(crc, data[0]), data[1..])
  }

  /** Table-driven and bit-at-a-time check values agree on every message. */
  lemma {:induction false} TableDrivenIsBitwise(crc: bv16, data: seq<byte>)
    ensures TableFold(crc, data) == Register(crc, data)
    decreases |data|
  {
    hide CrcByte, ShiftByte;
    if |data| > 0 {
      CrcByteIsShiftByte(crc, data[0]);
      TableDrivenIsBitwise(CrcByte(crc, data[0]), data[1..]);
      RegisterOfOne(crc, data[0]);
      RegisterAppend(crc, [data[0]], data[1..]);
      assert [data[0]] + data[1..] == data;
    }
  }

  lemma {:induction false} RegisterOfOne(crc: bv16, c: byte)
    ensures Register(crc, [c]) == ShiftByte(crc, c)
  {
    hide ShiftByte;
    assert [c][..0] == [];
  }

  lemma {:induction false} RegisterAppend(crc: bv16, a: seq<byte>, b: seq<byte>)
    ensures Register(crc, a + b) == Register(Register(crc, a), b)
    decreases |b|
  {
    hide ShiftByte;
    if |b| == 0 {
      assert a + b == a;
    } else {
      assert (a + b)[..|a + b| - 1] == a + b[..|b| - 1];
      RegisterAppend(crc, a, b[..|b| - 1]);
    }
  }

  lemma {:induction false} RegisterOfPair(crc: bv16, x: byte, y: byte)
    ensures Register(crc, [x, y]) == ShiftByte(ShiftByte(crc, x), y)
  {
    hide ShiftByte;
    RegisterOfOne(crc, x);
    assert [x, y][..1] == [x];
  }

  /** One more byte of a message, as the byte loops compute it. */
  lemma FcsSnoc(data: seq<byte>, c: byte)
    ensures Fcs(data + [c]) == CrcByte(Fcs(data), c)
  {
    hide ShiftByte, CrcByte;
    assert (data + [c])[..|data|] == data;
    CrcByteIsShiftByte(Fcs(data), c);
  }

  // ---- The good final value ----

  lemma TailGivesGoodFcs(crc: bv16, comp: bv16)
    requires comp == Xor(crc, 0xffff)
    ensures EightSteps(Xor(EightSteps(Xor(crc, Lower(comp))), Upper(comp))) == 0xf0b8
  {
  }

  lemma GoodFcsGivesTail(crc: bv16, t0: bv16, t1: bv16)
    requires t0 < 256 && t1 < 256
    requires EightSteps(Xor(EightSteps(Xor(crc, t0)), t1)) == 0xf0b8
    ensures t0 == Lower(Xor(crc, 0xffff)) && t1 == Upper(Xor(crc, 0xffff))
  {
  }

  lemma {:induction false} TwoMoreBytes(data: seq<byte>, t0: byte, t1: byte)
    ensures Fcs(data + [t0, t1]) == EightSteps(Xor(EightSteps(Xor(Fcs(data), ToBits(t0))), ToBits(t1)))
  {
    hide EightSteps, Shift, Register, ToBits, Xor;
    RegisterAppend(INIT_FCS, data, [t0, t1]);
    RegisterOfPair(Fcs(data), t0, t1);
    ShiftEight(Xor(Fcs(data), ToBits(t0)));
    ShiftEight(Xor(ShiftByte(Fcs(data), t0), ToBits(t1)));
  }

  lemma TailBits(data: seq<byte>)
    ensures ToBits(FcsTail(data)[0]) == Lower(Xor(Fcs(data), INIT_FCS))
    ensures ToBits(FcsTail(data)[1]) == Upper(Xor(Fcs(data), INIT_FCS))
  {
    hide Fcs, ToBits, FromBits, Xor;
    var comp := Xor(Fcs(data), INIT_FCS);
    BitsThroughNumber(comp & 0xff);
    BitsThroughNumber(comp >> 8);
  }

  /** A body passes the receiver's check exactly when its last two bytes are the
      check sequence of the bytes before them. */
  lemma GoodFcsIffTail(data: seq<byte>, tail: seq<byte>)
    requires |tail| == 2
    ensures Fcs(data + tail) == GOOD_FCS <==> tail == FcsTail(data)
  {
    hide EightSteps, Fcs, ToBits, FromBits, Xor, Upper, Lower, FcsTail;
    var comp := Xor(Fcs(data), INIT_FCS);
    var t0, t1 := tail[0], tail[1];
    assert tail == [t0, t1];
    TwoMoreBytes(data, t0, t1);
    TailBits(data);
    if tail == FcsTail(data) {
      TailGivesGoodFcs(Fcs(data), comp);
    }
    if Fcs(data + tail) == GOOD_FCS {
      BitsBelow(t0);
      BitsBelow(t1);
      GoodFcsGivesTail(Fcs(data), ToBits(t0), ToBits(t1));
      ByteBitsInjective(t0, FcsTail(data)[0]);
      ByteBitsInjective(t1, FcsTail(data)[1]);
      assert tail == FcsTail(data);
    }
  }

  // ---- Error detection ----

  lemma BitStepInjective(a: bv16, b: bv16)
    requires BitStep(a) == BitStep(b)
    ensures a == b
  {
  }

  lemma {:induction false} ShiftInjective(a: bv16, b: bv16, n: nat)
    requires Shift(a, n) == Shift(b, n)
    ensures a == b
    decreases n
  {
    hide BitStep;
    if n > 0 {
      ShiftInjective(BitStep(a), BitStep(b), n - 1);
      BitStepInjective(a, b);
    }
  }

  lemma XorCancels(a: bv16, b: bv16, m: bv16)
    requires Xor(a, m) == Xor(b, m)
    ensures a == b
  {
    assert (a ^ m) ^ m == a && (b ^ m) ^ m == b;
  }

  lemma ShiftByteInjective(a: bv16, b: bv16, c: byte)
    requires ShiftByte(a, c) == ShiftByte(b, c)
    ensures a == b
  {
    hide Shift, ToBits, Xor;
    ShiftInjective(Xor(a, ToBits(c)), Xor(b, ToBits(c)), 8);
    XorCancels(a, b, ToBits(c));
  }

  /** Equal suffixes never merge two different register values. */
  lemma {:induction false} RegisterInjective(a: bv16, b: bv16, data: seq<byte>)
    requires Register(a, data) == Register(b, data)
    ensures a == b
    decreases |data|
  {
    hide ShiftByte;
    if |data| > 0 {
      var front, last := data[..|data| - 1], data[|data| - 1];
      ShiftByteInjective(Register(a, front), Register(b, front), last);
      RegisterInjective(a, b, front);
    }
  }

  lemma UpperOfSteps(r: bv16)
    ensures Upper(EightSteps(r)) == Upper(EightSteps(Lower(r)))
  {
    hide EightSteps;
    SplitSteps(r);
    UpperDropsUpper(r, EightSteps(Lower(r)));
  }

  lemma UpperDropsUpper(r: bv16, z: bv16)
    ensures Upper(Xor(Upper(r), z)) == Upper(z)
  {
  }

  lemma UpperByteInjective(a: bv16, b: bv16)
    requires a < 256 && b < 256 && Upper(EightSteps(a)) == Upper(EightSteps(b))
    ensures a == b
  {
  }

  lemma LowerCancels(crc: bv16, x: bv16, y: bv16)
    requires x < 256 && y < 256 && Lower(Xor(crc, x)) == Lower(Xor(crc, y))
    ensures x == y
  {
  }

  lemma XorCommutes(a: bv16, b: bv16)
    ensures Xor(a, b) == Xor(b, a)
  {
  }

  lemma PairsInjective(crc: bv16, x0: bv16, x1: bv16, y0: bv16, y1: bv16)
    requires x0 < 256 && x1 < 256 && y0 < 256 && y1 < 256
    requires Xor(EightSteps(Xor(crc, x0)), x1) == Xor(EightSteps(Xor(crc, y0)), y1)
    ensures x0 == y0 && x1 == y1
  {
    hide EightSteps, Xor, Upper, Lower;
    var r, s := Xor(crc, x0), Xor(crc, y0);
    UpperUntouched(EightSteps(r), x1);
    UpperUntouched(EightSteps(s), y1);
    UpperOfSteps(r);
    UpperOfSteps(s);
    LowerBelow(r);
    LowerBelow(s);
    UpperByteInjective(Lower(r), Lower(s));
    LowerCancels(crc, x0, y0);
    XorCommutes(EightSteps(r), x1);
    XorCommutes(EightSteps(r), y1);
    XorCancels(x1, y1, EightSteps(r));
  }

  lemma {:induction false} ByteBitsInjective(x: byte, y: byte)
    requires ToBits(x) == ToBits(y)
    ensures x == y
  {
    ByteThroughBits(x);
    ByteThroughBits(y);
  }

  lemma PairRegisterInjective(crc: bv16, x0: byte, x1: byte, y0: byte, y1: byte)
    requires ShiftByte(ShiftByte(crc, x0), x1) == ShiftByte(ShiftByte(crc, y0), y1)
    ensures x0 == y0 && x1 == y1
  {
    hide EightSteps, Shift, ToBits, Xor;
    ShiftInjective(Xor(ShiftByte(crc, x0), ToBits(x1)), Xor(ShiftByte(crc, y0), ToBits(y1)), 8);
    ShiftEight(Xor(crc, ToBits(x0)));
    ShiftEight(Xor(crc, ToBits(y0)));
    BitsBelow(x0); BitsBelow(x1); BitsBelow(y0); BitsBelow(y1);
    PairsInjective(crc, ToBits(x0), ToBits(x1), ToBits(y0), ToBits(y1));
    ByteBitsInjective(x0, y0);
    ByteBitsInjective(x1, y1);
  }

  /** Every error confined to two neighbouring bytes is caught: bodies that agree
      outside such a window and differ inside it never share a check value. */
  lemma BurstErrorDetected(pre: seq<byte>, x: seq<byte>, y: seq<byte>, post: seq<byte>)
    requires |x| == |y| == 2 && x != y
    ensures Fcs(pre + x + post) != Fcs(pre + y + post)
  {
    hide ShiftByte;
    var crc := Fcs(pre);
    RegisterAppend(INIT_FCS, pre + x, post);
    RegisterAppend(INIT_FCS, pre + y, post);
    RegisterAppend(INIT_FCS, pre, x);
    RegisterAppend(INIT_FCS, pre, y);
    if Fcs(pre + x + post) == Fcs(pre + y + post) {
      RegisterInjective(Register(crc, x), Register(crc, y), post);
      assert x == [x[0], x[1]] && y == [y[0], y[1]];
      RegisterOfPair(crc, x[0], x[1]);
      RegisterOfPair(crc, y[0], y[1]);
      PairRegisterInjective(crc, x[0], x[1], y[0], y[1]);
    }
  }

  /** The single-byte case: altering one byte of a good body makes it a bad one. */
  lemma AlteredByteDetected(a: seq<byte>, b: seq<byte>, k: nat)
    requires |a| == |b| >= 2 && k < |a|
    requires a[k] != b[k] && forall i :: 0 <= i < |a| && i != k ==> a[i] == b[i]
    ensures Fcs(a) == GOOD_FCS ==> Fcs(b) != GOOD_FCS
  {
    hide Fcs;
    var s := if k == 0 then 0 else k - 1;
    assert a == a[..s] + a[s..s + 2] + a[s + 2..];
    assert b == a[..s] + b[s..s + 2] + a[s + 2..];
    assert a[s..s + 2][k - s] != b[s..s + 2][k - s];
    BurstErrorDetected(a[..s], a[s..s + 2], b[s..s + 2], a[s + 2..]);
  }
}
