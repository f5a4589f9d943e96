/** What goes over the line, in the numbers of sections 4.2 and C.2 of RFC 1662: the escaped
    form of each byte, which bytes are escaped and which are dropped, and one whole frame. */
module HdlcWire {
  import opened Bytes
  import opened CrcCcitt
  import opened HdlcCodec

  // ---- The transparency modifier ----

  function Join(x: bv16, odd: bool): bv16 {
    if odd then (x << 1) | 1 else (x << 1) | 0
  }

  function Twice(m: bv16): bv16 {
    m << 1
  }

  lemma FlipLowest(x: bv16)
    ensures Join(x, true) == Xor(Join(x, false), 1) && Join(x, false) == Xor(Join(x, true), 1)
  {
  }

  lemma XorShiftedOne(x: bv16, m: bv16)
    ensures Join(Xor(x, m), true) == Xor(Join(x, true), Twice(m))
  {
  }

  lemma XorShiftedNone(x: bv16, m: bv16)
    ensures Join(Xor(x, m), false) == Xor(Join(x, false), Twice(m))
  {
  }

  lemma XorShifted(x: bv16, m: bv16, odd: bool)
    ensures Join(Xor(x, m), odd) == Xor(Join(x, odd), Twice(m))
  {
    hide *;
    if odd {
      XorShiftedOne(x, m);
    } else {
      XorShiftedNone(x, m);
    }
  }

  lemma FiveTimes()
    ensures Twice(Twice(Twice(Twice(Twice(1))))) == 0x20
  {
  }

  lemma ZeroBits()
    ensures Join(0, false) == 0 && ToBits(0) == 0
  {
  }

  lemma ToBitsOfHalf(h: nat)
    ensures ToBits(h * 2 + 1) == Join(ToBits(h), true) && (h != 0 ==> ToBits(h * 2) == Join(ToBits(h), false))
  {
    hide *;
    ToBitsOfPair(h);
    JoinIs(ToBits(h));
  }

  lemma JoinIs(x: bv16)
    ensures Join(x, true) == (x << 1) | 1 && Join(x, false) == (x << 1) | 0
  {
  }

  lemma {:induction false} ToBitsHalves(n: nat)
    ensures ToBits(n) == Join(ToBits(n / 2), n % 2 == 1)
  {
    hide *;
    ZeroBits();
    ToBitsOfHalf(n / 2);
    assert n == n / 2 * 2 + n % 2;
  }

  /** A bit flipped in the upper half of a number is the next bit of the number. */
  lemma {:induction false} FlipAbove(n: nat, t: nat, m: bv16)
    requires ToBits(t / 2) == Xor(ToBits(n / 2), m) && n % 2 == t % 2
    ensures ToBits(t) == Xor(ToBits(n), Twice(m))
  {
    hide *;
    ToBitsHalves(n);
    ToBitsHalves(t);
    XorShifted(ToBits(n / 2), m, n % 2 == 1);
  }

  lemma {:induction false} FlipParity(n: nat, t: nat)
    requires n / 2 == t / 2 && n % 2 != t % 2
    ensures ToBits(t) == Xor(ToBits(n), 1)
  {
    hide *;
    ToBitsHalves(n);
    ToBitsHalves(t);
    FlipLowest(ToBits(n / 2));
  }

  /** The bits of a byte and of its escaped form, from the sixth one down. */
  lemma ToggleHalves(c: byte)
    ensures var t := Toggle(c);
      && t / 32 / 2 == c / 32 / 2 && t / 32 % 2 != c / 32 % 2
      && t / 16 / 2 == t / 32 && t / 16 % 2 == c / 16 % 2 && c / 16 / 2 == c / 32
      && t / 8 / 2 == t / 16 && t / 8 % 2 == c / 8 % 2 && c / 8 / 2 == c / 16
      && t / 4 / 2 == t / 8 && t / 4 % 2 == c / 4 % 2 && c / 4 / 2 == c / 8
      && t / 2 / 2 == t / 4 && t / 2 % 2 == c / 2 % 2 && c / 2 / 2 == c / 4
      && t % 2 == c % 2
  {
    var t := Toggle(c);
    assert if (c / 32) % 2 == 1 then t == c - 32 else t == c + 32;
    hide Toggle;
    HalvesNest(c);
    HalvesNest(t);
    if t == c - 32 {
      HalvesOfSum(t);
    } else {
      HalvesOfSum(c);
    }
  }

  lemma HalvesNest(c: nat)
    ensures c / 2 / 2 == c / 4 && c / 4 / 2 == c / 8 && c / 8 / 2 == c / 16 && c / 16 / 2 == c / 32
  {
  }

  lemma HalvesOfSum(c: nat)
    ensures var t := c + 32;
      && t / 2 % 2 == c / 2 % 2 && t / 4 % 2 == c / 4 % 2 && t / 8 % 2 == c / 8 % 2 && t / 16 % 2 == c / 16 % 2
      && t / 32 == c / 32 + 1 && t % 2 == c % 2
  {
    SumOver(c, 2, 16);
    SumOver(c, 4, 8);
    SumOver(c, 8, 4);
    SumOver(c, 16, 2);
    SumOver(c, 32, 1);
    EvenSum(c / 2, 8);
    EvenSum(c / 4, 4);
    EvenSum(c / 8, 2);
    EvenSum(c / 16, 1);
    EvenSum(c, 16);
  }

  lemma EvenSum(c: nat, k: nat)
    ensures (c + 2 * k) % 2 == c % 2
  {
  }

  lemma SumOver(c: nat, d: nat, e: nat)
    requires d > 0 && d * e == 32
    ensures (c + 32) / d == c / d + e
  {
    assert (c / d + e) * d == c / d * d + e * d;
    QuotientIs(c + 32, d, c / d + e, c % d);
  }

  /** An escaped byte is the byte with 0x20 exclusive-ored into it. */
  lemma {:induction false} ToggleIsXor(c: byte)
    ensures ToBits(Toggle(c)) == Xor(ToBits(c), 0x20)
  {
    hide *;
    var t := Toggle(c);
    ToggleHalves(c);
    FlipParity(c / 32, t / 32);
    FlipAbove(c / 16, t / 16, 1);
    FlipAbove(c / 8, t / 8, Twice(1));
    FlipAbove(c / 4, t / 4, Twice(Twice(1)));
    FlipAbove(c / 2, t / 2, Twice(Twice(Twice(1))));
    FlipAbove(c, t, Twice(Twice(Twice(Twice(1)))));
    FiveTimes();
  }

  // ---- Which bytes are escaped, and which are dropped ----

  lemma {:induction false} TestBitIs(w: nat, k: nat)
    ensures Power2(k) > 0 && (TestBit(w, k) <==> (w / Power2(k)) % 2 == 1)
    decreases k
  {
    if k > 0 {
      TestBitIs(w / 2, k - 1);
      HalfThenRest(w, Power2(k - 1));
    }
  }

  lemma HalfThenRest(w: nat, p: nat)
    requires p > 0
    ensures w / 2 / p == w / (2 * p)
  {
    var q, r := w / (2 * p), w % (2 * p);
    assert w == 2 * (q * p) + r;
    var m := q * p;
    assert w == 2 * m + r;
    assert w / 2 == m + r / 2;
    assert r / 2 < p;
    QuotientIs(w / 2, p, q, r / 2);
  }

  lemma QuotientIs(n: nat, p: nat, q: nat, r: nat)
    requires p > 0 && n == q * p + r && r < p
    ensures n / p == q
  {
    var d := n / p;
    var e := n - d * p;
    assert 0 <= e < p;
    ProductAtLeast(d - q, p);
    ProductAtLeast(q - d, p);
    assert (d - q) * p == d * p - q * p && (q - d) * p == q * p - d * p;
  }

  lemma ProductAtLeast(a: int, p: nat)
    ensures a >= 1 ==> a * p >= p
  {
  }

  /** What the sender makes of a byte: flag and escape always go out as 7d 5e and 7d 5d, a
      control character as 7d and its value plus 0x20 if its bit in the map is set, and as
      itself otherwise. */
  lemma {:induction false} StuffedBytes(accm: XmitAccm, c: byte)
    ensures StuffByte(accm, 0x7e) == [0x7d, 0x5e] && StuffByte(accm, 0x7d) == [0x7d, 0x5d]
    ensures Power2(c) > 0 && (c < 0x20 ==> StuffByte(accm, c) == if (accm[0] / Power2(c)) % 2 == 1 then [0x7d, c + 0x20] else [c])
  {
    FramingCharsEscaped(accm);
    ToggledAre();
    TestBitIs(accm[0], c);
    hide TestBit, Toggle;
  }

  lemma ToggledAre()
    ensures Toggle(0x7e) == 0x5e && Toggle(0x7d) == 0x5d && forall c: byte :: c < 0x20 ==> Toggle(c) == c + 0x20
  {
  }

  /** What the receiver makes of a byte in the middle of a frame: whatever follows an escape
      is stored with 0x20 exclusive-ored into it, a control character is dropped if its bit
      in the map is set, and anything else but flag and escape is stored as it is. */
  lemma {:induction false} StoredBytes(recvAccm: uint32, rx: Rx, b: byte)
    ensures var r := Step(recvAccm, rx, b);
      && Power2(b) > 0
      && (rx.escape ==> !r.escape && |r.body| == |rx.body| + 1 && r.body[..|rx.body|] == rx.body
                        && ToBits(r.body[|rx.body|]) == Xor(ToBits(b), 0x20))
      && (!rx.escape && b != 0x7d && b != 0x7e ==>
            r.body == if b < 0x20 && (recvAccm / Power2(b)) % 2 == 1 then rx.body else rx.body + [b])
      && (!rx.escape && b == 0x7d ==> r == rx.(escape := true))
      && (!rx.escape && b == 0x7e ==> r.body == [])
  {
    TestBitIs(recvAccm, b);
    ToggleIsXor(b);
    hide Toggle, ToBits, Xor, TestBit, CrcByte;
  }

  /** Where a carriage return is taken for the report of a modem that lost its carrier, it
      stops the receiver in front of it, unless a frame has begun; everywhere else every
      byte is consumed. */
  lemma {:induction false} CarriageReturnStops(cfg: RxConfig, rx: Rx, b: byte, more: seq<byte>)
    ensures if cfg.noCarrierDetect && rx.body == [] && b == 0x0d
            then Feed(cfg, rx, [b] + more) == rx && Consumed(cfg, rx, [b] + more) == 0
            else Feed(cfg, rx, [b] + more) == Feed(cfg, Step(cfg.recvAccm, rx, b), more)
                 && Consumed(cfg, rx, [b] + more) == 1 + Consumed(cfg, Step(cfg.recvAccm, rx, b), more)
  {
    hide Step;
    assert ([b] + more)[1..] == more;
  }

  // ---- A whole frame ----

  /** A Configure-Request of LCP without options. */
  const ASKING: seq<byte> := [0xff, 0x03, 0xc0, 0x21, 0x01, 0x01, 0x00, 0x04]

  lemma AskingBits()
    ensures ToBits(0xff) == 0xff && ToBits(0x03) == 0x03 && ToBits(0xc0) == 0xc0 && ToBits(0x21) == 0x21
    ensures ToBits(0x01) == 0x01 && ToBits(0x00) == 0x00 && ToBits(0x04) == 0x04
  {
  }

  lemma AskingSteps()
    ensures Xor(Upper(0xffff), Table(Lower(Xor(0xffff, 0xff)))) == 0x00ff
    ensures Xor(Upper(0x00ff), Table(Lower(Xor(0x00ff, 0x03)))) == 0x3de3
    ensures Xor(Upper(0x3de3), Table(Lower(Xor(0x3de3, 0xc0)))) == 0x13a4
    ensures Xor(Upper(0x13a4), Table(Lower(Xor(0x13a4, 0x21)))) == 0xd3b6
    ensures Xor(Upper(0xd3b6), Table(Lower(Xor(0xd3b6, 0x01)))) == 0xc1e7
    ensures Xor(Upper(0xc1e7), Table(Lower(Xor(0xc1e7, 0x01)))) == 0x82f9
    ensures Xor(Upper(0x82f9), Table(Lower(Xor(0x82f9, 0x00)))) == 0x6acc
    ensures Xor(Upper(0x6acc), Table(Lower(Xor(0x6acc, 0x04)))) == 0x4a2e
  {
  }

  lemma AskingFcs()
    ensures Fcs(ASKING) == 0x4a2e
  {
    hide *;
    AskingBits();
    AskingSteps();
    AskingFold();
    TableDrivenIsBitwise(INIT_FCS, ASKING);
    FcsIs(ASKING);
  }

  lemma {:induction false} FcsIs(data: seq<byte>)
    ensures Fcs(data) == Register(0xffff, data) && INIT_FCS == 0xffff
  {
  }

  lemma {:induction false} FoldOne(crc: bv16, c: byte, bits: bv16, next: bv16, more: seq<byte>)
    requires ToBits(c) == bits && Xor(Upper(crc), Table(Lower(Xor(crc, bits)))) == next
    ensures TableFold(crc, [c] + more) == TableFold(next, more) && TableFold(next, []) == next
  {
    hide Xor, Upper, Lower, Table, ToBits;
    CrcByteIs(crc, c);
    hide CrcByte;
    assert ([c] + more)[1..] == more;
  }

  lemma {:induction false} CrcByteIs(crc: bv16, c: byte)
    ensures CrcByte(crc, c) == Xor(Upper(crc), Table(Lower(Xor(crc, ToBits(c)))))
  {
    hide Xor, Upper, Lower, Table, ToBits;
  }

  lemma AskingFold()
    ensures TableFold(0xffff, ASKING) == 0x4a2e
  {
    hide *;
    AskingParts();
    AskingBits();
    AskingSteps();
    FoldOne(0xffff, 0xff, 0xff, 0x00ff, ASKING[1..]);
    FoldOne(0x00ff, 0x03, 0x03, 0x3de3, ASKING[2..]);
    FoldOne(0x3de3, 0xc0, 0xc0, 0x13a4, ASKING[3..]);
    FoldOne(0x13a4, 0x21, 0x21, 0xd3b6, ASKING[4..]);
    FoldOne(0xd3b6, 0x01, 0x01, 0xc1e7, ASKING[5..]);
    FoldOne(0xc1e7, 0x01, 0x01, 0x82f9, ASKING[6..]);
    FoldOne(0x82f9, 0x00, 0x00, 0x6acc, ASKING[7..]);
    FoldOne(0x6acc, 0x04, 0x04, 0x4a2e, []);
  }

  lemma AskingParts()
    ensures |ASKING| == 8
    ensures ASKING == [0xff] + ASKING[1..] && ASKING[1..] == [0x03] + ASKING[2..] && ASKING[2..] == [0xc0] + ASKING[3..]
    ensures ASKING[3..] == [0x21] + ASKING[4..] && ASKING[4..] == [0x01] + ASKING[5..] && ASKING[5..] == [0x01] + ASKING[6..]
    ensures ASKING[6..] == [0x00] + ASKING[7..] && ASKING[7..] == [0x04] + []
  {
    var s := ASKING;
    assert s[0] == 0xff && s[1] == 0x03 && s[2] == 0xc0 && s[3] == 0x21 && s[4] == 0x01 && s[5] == 0x01 && s[6] == 0x00 && s[7] == 0x04;
    hide ASKING;
    FirstAndRest(s, 0);
    FirstAndRest(s, 1);
    FirstAndRest(s, 2);
    FirstAndRest(s, 3);
    FirstAndRest(s, 4);
    FirstAndRest(s, 5);
    FirstAndRest(s, 6);
    FirstAndRest(s, 7);
    assert s[0..] == s && s[8..] == [];
  }

  lemma FirstAndRest(s: seq<byte>, i: nat)
    requires i < |s|
    ensures s[i..] == [s[i]] + s[i + 1..]
  {
  }

  lemma AskingTail()
    ensures FcsTail(ASKING) == [0xd1, 0xb5]
  {
    hide *;
    AskingFcs();
    TailBits(ASKING);
    TailValues();
    FcsIs(ASKING);
    ByteBitsInjective(FcsTail(ASKING)[0], 0xd1);
    ByteBitsInjective(FcsTail(ASKING)[1], 0xb5);
    assert FcsTail(ASKING) == [FcsTail(ASKING)[0], FcsTail(ASKING)[1]];
  }

  lemma TailValues()
    ensures Lower(Xor(0x4a2e, 0xffff)) == 0xd1 && Upper(Xor(0x4a2e, 0xffff)) == 0xb5
    ensures ToBits(0xd1) == 0xd1 && ToBits(0xb5) == 0xb5
  {
    hide *;
    TailParts();
    TailBytes();
  }

  lemma TailBytes()
    ensures ToBits(0xd1) == 0xd1 && ToBits(0xb5) == 0xb5
  {
    HighTailByte();
    LowTailByte();
    hide ToBits;
  }

  lemma LowTailByte()
    ensures ToBits(0xd1) == 0xd1
  {
    assert ToBits(0x0d) == 0x0d;
    assert ToBits(0x68) == 0x68;
  }

  lemma HighTailByte()
    ensures ToBits(0xb5) == 0xb5
  {
    assert ToBits(0x0b) == 0x0b;
    assert ToBits(0x5a) == 0x5a;
  }

  lemma TailParts()
    ensures Lower(Xor(0x4a2e, 0xffff)) == 0xd1 && Upper(Xor(0x4a2e, 0xffff)) == 0xb5
  {
  }

  /** The map before anything is negotiated: every control character is escaped. */
  const EVERYTHING: XmitAccm := [0xffff_ffff, 0, 0, 0x6000_0000, 0, 0, 0, 0]

  lemma {:induction false} NoBits(k: nat)
    ensures !TestBit(0, k)
    decreases k
  {
    if k > 0 {
      NoBits(k - 1);
    }
  }

  lemma PlainBytes(c: byte)
    requires 0x20 <= c && c / 32 != 3
    ensures StuffByte(EVERYTHING, c) == [c]
  {
    NoBits(c % 32);
    hide TestBit, Toggle;
    assert 1 <= c / 32 < 8;
    assert EVERYTHING[1] == EVERYTHING[2] == EVERYTHING[4] == EVERYTHING[5] == EVERYTHING[6] == EVERYTHING[7] == 0;
  }

  lemma ControlBytes(c: byte)
    requires c < 0x20
    ensures StuffByte(EVERYTHING, c) == [0x7d, c + 0x20]
  {
    FullMapEscapes(c);
    ToggledAre();
    hide TestBit, Toggle;
  }

  lemma {:induction false} FullMapEscapes(c: byte)
    requires c < 0x20
    ensures TestBit(0xffff_ffff, c)
  {
    assert Power2(8) == 0x100 && Power2(16) == 0x1_0000 && Power2(24) == 0x100_0000 && Power2(32) == 0x1_0000_0000;
    AllOnes(0xffff_ffff, c, 32);
  }

  lemma {:induction false} StuffOne(accm: XmitAccm, c: byte, more: seq<byte>)
    ensures Stuff(accm, [c] + more) == StuffByte(accm, c) + Stuff(accm, more) && Stuff(accm, []) == []
  {
    assert ([c] + more)[1..] == more;
  }

  /** That request on the line, before anything is negotiated. */
  lemma AskingFrame()
    ensures Frame(EVERYTHING, ASKING) ==
      [0xff, 0x7d, 0x23, 0xc0, 0x21, 0x7d, 0x21, 0x7d, 0x21, 0x7d, 0x20, 0x7d, 0x24, 0xd1, 0xb5, 0x7e]
  {
    hide Stuff, StuffByte, FcsTail, NeedEscape;
    AskingTail();
    AskingParts();
    PlainBytes(0xff);
    ControlBytes(0x03);
    PlainBytes(0xc0);
    PlainBytes(0x21);
    ControlBytes(0x01);
    ControlBytes(0x00);
    ControlBytes(0x04);
    PlainBytes(0xd1);
    PlainBytes(0xb5);
    StuffOne(EVERYTHING, 0xff, ASKING[1..]);
    StuffOne(EVERYTHING, 0x03, ASKING[2..]);
    StuffOne(EVERYTHING, 0xc0, ASKING[3..]);
    StuffOne(EVERYTHING, 0x21, ASKING[4..]);
    StuffOne(EVERYTHING, 0x01, ASKING[5..]);
    StuffOne(EVERYTHING, 0x01, ASKING[6..]);
    StuffOne(EVERYTHING, 0x00, ASKING[7..]);
    StuffOne(EVERYTHING, 0x04, []);
    StuffOne(EVERYTHING, 0xd1, [0xb5]);
    StuffOne(EVERYTHING, 0xb5, []);
    assert [0xb5] + [] == [0xb5] && [0xd1] + [0xb5] == [0xd1, 0xb5];
    assert Stuff(EVERYTHING, [0xd1, 0xb5]) == [0xd1, 0xb5];
    assert Stuff(EVERYTHING, ASKING) == [0xff, 0x7d, 0x23, 0xc0, 0x21, 0x7d, 0x21, 0x7d, 0x21, 0x7d, 0x20, 0x7d, 0x24];
  }
}
