/** The check value of the GSM 07.10 multiplexer (section 5.2.1.6 of 3GPP TS 27.010). */
module MuxCrc {
  import opened Bytes
  import Ccitt = CrcCcitt

  /** The 256 constants of the lookup table, row by row. */
  function Table(i: bv16): bv16 {
    match i >> 4
    case 0 => (match i & 0xf
      case 0 => 0x00 case 1 => 0x91 case 2 => 0xe3 case 3 => 0x72 case 4 => 0x07 case 5 => 0x96 case 6 => 0xe4 case 7 => 0x75
      case 8 => 0x0e case 9 => 0x9f case 10 => 0xed case 11 => 0x7c case 12 => 0x09 case 13 => 0x98 case 14 => 0xea case _ => 0x7b)
    case 1 => (match i & 0xf
      case 0 => 0x1c case 1 => 0x8d case 2 => 0xff case 3 => 0x6e case 4 => 0x1b case 5 => 0x8a case 6 => 0xf8 case 7 => 0x69
      case 8 => 0x12 case 9 => 0x83 case 10 => 0xf1 case 11 => 0x60 case 12 => 0x15 case 13 => 0x84 case 14 => 0xf6 case _ => 0x67)
    case 2 => (match i & 0xf
      case 0 => 0x38 case 1 => 0xa9 case 2 => 0xdb case 3 => 0x4a case 4 => 0x3f case 5 => 0xae case 6 => 0xdc case 7 => 0x4d
      case 8 => 0x36 case 9 => 0xa7 case 10 => 0xd5 case 11 => 0x44 case 12 => 0x31 case 13 => 0xa0 case 14 => 0xd2 case _ => 0x43)
    case 3 => (match i & 0xf
      case 0 => 0x24 case 1 => 0xb5 case 2 => 0xc7 case 3 => 0x56 case 4 => 0x23 case 5 => 0xb2 case 6 => 0xc0 case 7 => 0x51
      case 8 => 0x2a case 9 => 0xbb case 10 => 0xc9 case 11 => 0x58 case 12 => 0x2d case 13 => 0xbc case 14 => 0xce case _ => 0x5f)
    case 4 => (match i & 0xf
      case 0 => 0x70 case 1 => 0xe1 case 2 => 0x93 case 3 => 0x02 case 4 => 0x77 case 5 => 0xe6 case 6 => 0x94 case 7 => 0x05
      case 8 => 0x7e case 9 => 0xef case 10 => 0x9d case 11 => 0x0c case 12 => 0x79 case 13 => 0xe8 case 14 => 0x9a case _ => 0x0b)
    case 5 => (match i & 0xf
      case 0 => 0x6c case 1 => 0xfd case 2 => 0x8f case 3 => 0x1e case 4 => 0x6b case 5 => 0xfa case 6 => 0x88 case 7 => 0x19
      case 8 => 0x62 case 9 => 0xf3 case 10 => 0x81 case 11 => 0x10 case 12 => 0x65 case 13 => 0xf4 case 14 => 0x86 case _ => 0x17)
    case 6 => (match i & 0xf
      case 0 => 0x48 case 1 => 0xd9 case 2 => 0xab case 3 => 0x3a case 4 => 0x4f case 5 => 0xde case 6 => 0xac case 7 => 0x3d
      case 8 => 0x46 case 9 => 0xd7 case 10 => 0xa5 case 11 => 0x34 case 12 => 0x41 case 13 => 0xd0 case 14 => 0xa2 case _ => 0x33)
    case 7 => (match i & 0xf
      case 0 => 0x54 case 1 => 0xc5 case 2 => 0xb7 case 3 => 0x26 case 4 => 0x53 case 5 => 0xc2 case 6 => 0xb0 case 7 => 0x21
      case 8 => 0x5a case 9 => 0xcb case 10 => 0xb9 case 11 => 0x28 case 12 => 0x5d case 13 => 0xcc case 14 => 0xbe case _ => 0x2f)
    case 8 => (match i & 0xf
      case 0 => 0xe0 case 1 => 0x71 case 2 => 0x03 case 3 => 0x92 case 4 => 0xe7 case 5 => 0x76 case 6 => 0x04 case 7 => 0x95
      case 8 => 0xee case 9 => 0x7f case 10 => 0x0d case 11 => 0x9c case 12 => 0xe9 case 13 => 0x78 case 14 => 0x0a case _ => 0x9b)
    case 9 => (match i & 0xf
      case 0 => 0xfc case 1 => 0x6d case 2 => 0x1f case 3 => 0x8e case 4 => 0xfb case 5 => 0x6a case 6 => 0x18 case 7 => 0x89
      case 8 => 0xf2 case 9 => 0x63 case 10 => 0x11 case 11 => 0x80 case 12 => 0xf5 case 13 => 0x64 case 14 => 0x16 case _ => 0x87)
    case 10 => (match i & 0xf
      case 0 => 0xd8 case 1 => 0x49 case 2 => 0x3b case 3 => 0xaa case 4 => 0xdf case 5 => 0x4e case 6 => 0x3c case 7 => 0xad
      case 8 => 0xd6 case 9 => 0x47 case 10 => 0x35 case 11 => 0xa4 case 12 => 0xd1 case 13 => 0x40 case 14 => 0x32 case _ => 0xa3)
    case 11 => (match i & 0xf
      case 0 => 0xc4 case 1 => 0x55 case 2 => 0x27 case 3 => 0xb6 case 4 => 0xc3 case 5 => 0x52 case 6 => 0x20 case 7 => 0xb1
      case 8 => 0xca case 9 => 0x5b case 10 => 0x29 case 11 => 0xb8 case 12 => 0xcd case 13 => 0x5c case 14 => 0x2e case _ => 0xbf)
    case 12 => (match i & 0xf
      case 0 => 0x90 case 1 => 0x01 case 2 => 0x73 case 3 => 0xe2 case 4 => 0x97 case 5 => 0x06 case 6 => 0x74 case 7 => 0xe5
      case 8 => 0x9e case 9 => 0x0f case 10 => 0x7d case 11 => 0xec case 12 => 0x99 case 13 => 0x08 case 14 => 0x7a case _ => 0xeb)
    case 13 => (match i & 0xf
      case 0 => 0x8c case 1 => 0x1d case 2 => 0x6f case 3 => 0xfe case 4 => 0x8b case 5 => 0x1a case 6 => 0x68 case 7 => 0xf9
      case 8 => 0x82 case 9 => 0x13 case 10 => 0x61 case 11 => 0xf0 case 12 => 0x85 case 13 => 0x14 case 14 => 0x66 case _ => 0xf7)
    case 14 => (match i & 0xf
      case 0 => 0xa8 case 1 => 0x39 case 2 => 0x4b case 3 => 0xda case 4 => 0xaf case 5 => 0x3e case 6 => 0x4c case 7 => 0xdd
      case 8 => 0xa6 case 9 => 0x37 case 10 => 0x45 case 11 => 0xd4 case 12 => 0xa1 case 13 => 0x30 case 14 => 0x42 case _ => 0xd3)
    case _ => (match i & 0xf
      case 0 => 0xb4 case 1 => 0x25 case 2 => 0x57 case 3 => 0xc6 case 4 => 0xb3 case 5 => 0x22 case 6 => 0x50 case 7 => 0xc1
      case 8 => 0xba case 9 => 0x2b case 10 => 0x59 case 11 => 0xc8 case 12 => 0xbd case 13 => 0x2c case 14 => 0x5e case _ => 0xcf)
  }

  function Step(crc: bv16, c: byte): bv16 {
    Table(Ccitt.Xor(crc, ToBits(c)))
  }

  const INIT: bv16 := 0xff
  const GOOD: bv16 := 0xcf

  function Crc(data: seq<byte>): bv16
    decreases |data|
  {
    if |data| == 0 then INIT else Step(Crc(data[..|data| - 1]), data[|data| - 1])
  }

  /** The check byte a sender appends: the complement. */
  function Fcs(data: seq<byte>): byte {
    FcsBelow(data);
    FromBits(Ccitt.Xor(Crc(data), 0xff))
  }

  /** The receiver's check: one more lookup has to give the good value. */
  predicate CheckFcs(data: seq<byte>, fcs: byte) {
    Step(Crc(data), fcs) == GOOD
  }

  // ---- The register the table stands for ----

  /** One bit of the reversed polynomial 0xe0. */
  function BitStep(x: bv16): bv16 {
    if x & 1 == 1 then (x >> 1) ^ 0xe0 else x >> 1
  }

  function Shift(x: bv16, n: nat): bv16
    decreases n
  {
    if n == 0 then x else Shift(BitStep(x), n - 1)
  }

  function EightSteps(x: bv16): bv16 {
    BitStep(BitStep(BitStep(BitStep(BitStep(BitStep(BitStep(BitStep(x))))))))
  }

  function ShiftByte(crc: bv16, c: byte): bv16 {
    Shift(Ccitt.Xor(crc, ToBits(c)), 8)
  }

  function Register(data: seq<byte>): bv16
    decreases |data|
  {
    if |data| == 0 then INIT else ShiftByte(Register(data[..|data| - 1]), data[|data| - 1])
  }

  lemma {:induction false} ShiftEight(x: bv16)
    ensures Shift(x, 8) == EightSteps(x)
  {
    hide BitStep;
    var x4 := BitStep(BitStep(BitStep(BitStep(x))));
    assert Shift(x, 8) == Shift(BitStep(BitStep(x)), 6);
    assert Shift(BitStep(BitStep(x)), 6) == Shift(x4, 4);
    assert Shift(x4, 4) == Shift(BitStep(BitStep(x4)), 2);
    assert Shift(BitStep(BitStep(x4)), 2) == EightSteps(x);
  }

  lemma TableIsEightSteps(i: bv16)
    requires i < 256
    ensures Table(i) == EightSteps(i) && Table(i) < 256
  {
  }

  lemma XorBelow(a: bv16, b: bv16)
    requires a < 256 && b < 256
    ensures Ccitt.Xor(a, b) < 256
  {
  }

  lemma StepIsShiftByte(crc: bv16, c: byte)
    requires crc < 256
    ensures Step(crc, c) == ShiftByte(crc, c) && Step(crc, c) < 256
  {
    hide Table, EightSteps, ToBits, Ccitt.Xor, Shift;
    BitsBelow(c);
    XorBelow(crc, ToBits(c));
    TableIsEightSteps(Ccitt.Xor(crc, ToBits(c)));
    ShiftEight(Ccitt.Xor(crc, ToBits(c)));
  }

  lemma {:induction false} CrcBelow(data: seq<byte>)
    ensures Crc(data) < 256
    decreases |data|
  {
    hide Step;
    if |data| > 0 {
      CrcBelow(data[..|data| - 1]);
      StepIsShiftByte(Crc(data[..|data| - 1]), data[|data| - 1]);
    }
  }

  lemma {:induction false} FcsBelow(data: seq<byte>)
    ensures FromBits(Ccitt.Xor(Crc(data), 0xff)) < 256
  {
    hide Crc, FromBits, Ccitt.Xor;
    CrcBelow(data);
    XorBelow(Crc(data), 0xff);
    NumberBelow(Ccitt.Xor(Crc(data), 0xff));
  }

  /** Table-driven and bit-at-a-time check values agree on every message. */
  lemma {:induction false} TableDrivenIsBitwise(data: seq<byte>)
    ensures Crc(data) == Register(data)
    decreases |data|
  {
    hide Step, ShiftByte;
    if |data| > 0 {
      TableDrivenIsBitwise(data[..|data| - 1]);
      CrcBelow(data[..|data| - 1]);
      StepIsShiftByte(Crc(data[..|data| - 1]), data[|data| - 1]);
    }
  }

  // ---- What the check accepts ----

  lemma GoodIffAllOnes(x: bv16)
    requires x < 256
    ensures EightSteps(x) == GOOD <==> x == 0xff
  {
  }

  lemma XorFull(crc: bv16, x: bv16)
    ensures Ccitt.Xor(crc, x) == 0xff <==> x == Ccitt.Xor(crc, 0xff)
  {
    XorTwice(crc, x);
    XorTwice(crc, 0xff);
    hide Ccitt.Xor;
  }

  lemma XorTwice(a: bv16, b: bv16)
    ensures Ccitt.Xor(a, Ccitt.Xor(a, b)) == b
  {
  }

  /** The receiver accepts exactly the check byte the sender would append. */
  lemma CheckFcsIff(data: seq<byte>, fcs: byte)
    ensures CheckFcs(data, fcs) <==> fcs == Fcs(data)
  {
    hide Table, EightSteps, ToBits, FromBits, Ccitt.Xor, Crc;
    CrcBelow(data);
    BitsBelow(fcs);
    XorBelow(Crc(data), ToBits(fcs));
    TableIsEightSteps(Ccitt.Xor(Crc(data), ToBits(fcs)));
    GoodIffAllOnes(Ccitt.Xor(Crc(data), ToBits(fcs)));
    XorFull(Crc(data), ToBits(fcs));
    ByteThroughBits(fcs);
    BitsThroughNumber(Ccitt.Xor(Crc(data), 0xff));
  }

  lemma BitStepInjective(a: bv16, b: bv16)
    requires a < 256 && b < 256 && BitStep(a) == BitStep(b)
    ensures a == b
  {
  }

  lemma EightStepsInjective(a: bv16, b: bv16)
    requires a < 256 && b < 256 && EightSteps(a) == EightSteps(b)
    ensures a == b
  {
  }

  lemma StepInjective(a: bv16, b: bv16, x: byte, y: byte)
    requires a < 256 && b < 256 && Step(a, x) == Step(b, y)
    ensures a == b ==> x == y
    ensures x == y ==> a == b
  {
    hide Table, EightSteps, ToBits, Ccitt.Xor;
    BitsBelow(x);
    BitsBelow(y);
    XorBelow(a, ToBits(x));
    XorBelow(b, ToBits(y));
    TableIsEightSteps(Ccitt.Xor(a, ToBits(x)));
    TableIsEightSteps(Ccitt.Xor(b, ToBits(y)));
    EightStepsInjective(Ccitt.Xor(a, ToBits(x)), Ccitt.Xor(b, ToBits(y)));
    if a == b {
      Ccitt.XorCommutes(a, ToBits(x));
      Ccitt.XorCommutes(a, ToBits(y));
      Ccitt.XorCancels(ToBits(x), ToBits(y), a);
      Ccitt.ByteBitsInjective(x, y);
    }
    if x == y {
      Ccitt.XorCancels(a, b, ToBits(x));
    }
  }

  /** Headers that differ in exactly one byte have different check bytes, so a header with
      one altered byte, address, control or length, is refused with the check byte it was
      sent with. */
  lemma {:induction false} AlteredHeaderRefused(a: seq<byte>, b: seq<byte>, k: nat)
    requires |a| == |b| && k < |a| && a[k] != b[k]
    requires forall i :: 0 <= i < |a| && i != k ==> a[i] == b[i]
    ensures Crc(a) != Crc(b)
    ensures !CheckFcs(b, Fcs(a))
    decreases |a|
  {
    hide Step, Fcs, CheckFcs;
    var n := |a| - 1;
    CrcBelow(a[..n]);
    CrcBelow(b[..n]);
    if k < n {
      AlteredHeaderRefused(a[..n], b[..n], k);
    } else {
      assert a[..n] == b[..n];
    }
    if Crc(a) == Crc(b) {
      StepInjective(Crc(a[..n]), Crc(b[..n]), a[n], b[n]);
    }
    FcsTellsCrc(a, b);
    CheckFcsIff(b, Fcs(a));
  }

  lemma {:induction false} FcsTellsCrc(a: seq<byte>, b: seq<byte>)
    ensures Fcs(a) == Fcs(b) ==> Crc(a) == Crc(b)
  {
    hide Crc, ToBits, FromBits, Ccitt.Xor;
    BitsThroughNumber(Ccitt.Xor(Crc(a), 0xff));
    BitsThroughNumber(Ccitt.Xor(Crc(b), 0xff));
    if Fcs(a) == Fcs(b) {
      Ccitt.XorCancels(Crc(a), Crc(b), 0xff);
    }
  }
}
