/** The byte-stuffed frame format (section 4.2 of RFC 1662): how a payload is written,
    how a byte at a time is read back, and that the two are inverse. */
module HdlcCodec {
  import opened Bytes
  import opened CrcCcitt

  const FLAG: byte := 0x7e
  const ESCAPE: byte := 0x7d
  const CARRIAGE_RETURN: byte := 0x0d
  const BUFFER_SIZE: nat := 4096

  function TestBit(w: nat, k: nat): bool
    decreases k
  {
    if k == 0 then w % 2 == 1 else TestBit(w / 2, k - 1)
  }

  /** Exclusive or with the transparency modifier 0x20. */
  function Toggle(b: byte): byte {
    if (b / 32) % 2 == 1 then b - 32 else b + 32
  }

  /** The sender's escape map: one settable word for the control characters, and the
      two framing characters, which are always escaped. */
  type XmitAccm = a: seq<uint32> | |a| == 8 && a[3] == 0x6000_0000
    witness [0, 0, 0, 0x6000_0000, 0, 0, 0, 0]

  predicate NeedEscape(accm: XmitAccm, c: byte) {
    TestBit(accm[c / 32], c % 32)
  }

  function StuffByte(accm: XmitAccm, c: byte): seq<byte> {
    if NeedEscape(accm, c) then [ESCAPE, Toggle(c)] else [c]
  }

  function Stuff(accm: XmitAccm, data: seq<byte>): seq<byte> {
    if |data| == 0 then []
    else StuffByte(accm, data[0]) + Stuff(accm, data[1..])
  }

  /** What the sender writes for one payload, after any opening flag. */
  function Frame(accm: XmitAccm, payload: seq<byte>): seq<byte> {
    Stuff(accm, payload) + Stuff(accm, FcsTail(payload)) + [FLAG]
  }

  // ---- The receiver ----

  datatype RxConfig = RxConfig(recvAccm: uint32, noCarrierDetect: bool)

  datatype Rx = Rx(body: seq<byte>, fcs: bv16, escape: bool, delivered: seq<seq<byte>>)

  const FRESH: Rx := Rx([], INIT_FCS, false, [])

  predicate Masked(recvAccm: uint32, c: byte) {
    c < 0x20 && TestBit(recvAccm, c)
  }

  function Store(rx: Rx, c: byte): Rx {
    rx.(body := rx.body + [c], fcs := CrcByte(rx.fcs, c))
  }

  function EndFrame(rx: Rx): Rx {
    var d := if |rx.body| > 2 && rx.fcs == GOOD_FCS
             then rx.delivered + [rx.body[..|rx.body| - 2]] else rx.delivered;
    rx.(body := [], fcs := INIT_FCS, delivered := d)
  }

  /** One received byte. */
  function Step(recvAccm: uint32, rx: Rx, b: byte): Rx {
    if rx.escape then Store(rx, Toggle(b)).(escape := false)
    else if b == ESCAPE then rx.(escape := true)
    else if b == FLAG then EndFrame(rx)
    else if !Masked(recvAccm, b) then Store(rx, b)
    else rx
  }

  /** A carriage return where a frame should start is taken for a NO CARRIER report. */
  predicate LooksLikeNoCarrier(cfg: RxConfig, rx: Rx, b: byte) {
    cfg.noCarrierDetect && |rx.body| == 0 && b == CARRIAGE_RETURN
  }

  /** All the bytes handed over in one go. */
  function Feed(cfg: RxConfig, rx: Rx, bytes: seq<byte>): Rx
    decreases |bytes|
  {
    if |bytes| == 0 || LooksLikeNoCarrier(cfg, rx, bytes[0]) then rx
    else Feed(cfg, Step(cfg.recvAccm, rx, bytes[0]), bytes[1..])
  }

  /** How many of them are consumed. */
  function Consumed(cfg: RxConfig, rx: Rx, bytes: seq<byte>): (n: nat)
    ensures n <= |bytes|
    decreases |bytes|
  {
    if |bytes| == 0 || LooksLikeNoCarrier(cfg, rx, bytes[0]) then 0
    else 1 + Consumed(cfg, Step(cfg.recvAccm, rx, bytes[0]), bytes[1..])
  }

  /** The check value is that of the bytes stored since the last flag. */
  predicate InStep(rx: Rx) {
    rx.fcs == Fcs(rx.body)
  }

  lemma StepKeepsInStep(recvAccm: uint32, rx: Rx, b: byte)
    requires InStep(rx)
    ensures InStep(Step(recvAccm, rx, b))
  {
    hide CrcByte;
    FcsSnoc(rx.body, b);
    FcsSnoc(rx.body, Toggle(b));
  }

  /** Reads may be split anywhere. */
  lemma {:induction false} FeedAppend(cfg: RxConfig, rx: Rx, a: seq<byte>, b: seq<byte>)
    requires Consumed(cfg, rx, a) == |a|
    ensures Feed(cfg, rx, a + b) == Feed(cfg, Feed(cfg, rx, a), b)
    ensures Consumed(cfg, rx, a + b) == |a| + Consumed(cfg, Feed(cfg, rx, a), b)
    decreases |a|
  {
    hide Step;
    if |a| == 0 {
      assert a + b == b;
    } else {
      assert (a + b)[1..] == a[1..] + b;
      FeedAppend(cfg, Step(cfg.recvAccm, rx, a[0]), a[1..], b);
    }
  }

  lemma {:induction false} ShiftedBit(w: nat, k: nat, n: nat)
    ensures TestBit(w * Power2(n), k + n) == TestBit(w, k)
    decreases n
  {
    if n > 0 {
      ShiftedBit(w, k, n - 1);
      assert w * Power2(n) == 2 * (w * Power2(n - 1));
    }
  }

  lemma FramingCharsEscaped(accm: XmitAccm)
    ensures NeedEscape(accm, FLAG) && NeedEscape(accm, ESCAPE)
  {
    TopBits();
    hide TestBit;
    ShiftedBit(3, 0, 29);
    ShiftedBit(3, 1, 29);
  }

  lemma TopBits()
    ensures Power2(29) == 0x2000_0000 && TestBit(3, 0) && TestBit(3, 1)
  {
    assert Power2(8) == 0x100;
    assert Power2(15) == 0x8000;
    assert Power2(22) == 0x40_0000;
  }

  /** The sender escapes whatever the receiver would drop. */
  ghost predicate Compatible(recvAccm: uint32, accm: XmitAccm) {
    forall c: byte :: Masked(recvAccm, c) ==> NeedEscape(accm, c)
  }

  lemma {:induction false} AllOnes(w: nat, k: nat, n: nat)
    requires k < n && w + 1 == Power2(n)
    ensures TestBit(w, k)
    decreases k
  {
    var half := Power2(n - 1);
    assert w == 2 * half - 1;
    hide Power2;
    if k > 0 {
      AllOnes(w / 2, k - 1, n - 1);
    }
  }

  /** A sender that escapes every control character reaches every receiver. */
  lemma FullMapReachesAll(recvAccm: uint32, accm: XmitAccm)
    requires accm[0] == 0xffff_ffff
    ensures Compatible(recvAccm, accm)
  {
    assert Power2(8) == 0x100;
    assert Power2(16) == 0x1_0000;
    assert Power2(24) == 0x100_0000;
    assert Power2(32) == 0x1_0000_0000;
    forall c: byte | Masked(recvAccm, c) ensures NeedEscape(accm, c) {
      AllOnes(accm[0], c, 32);
    }
  }

  ghost predicate Transparent(recvAccm: uint32, accm: XmitAccm, data: seq<byte>) {
    forall i :: 0 <= i < |data| && Masked(recvAccm, data[i]) ==> NeedEscape(accm, data[i])
  }

  lemma ToggleTwice(c: byte)
    ensures Toggle(Toggle(c)) == c
  {
  }

  function Absorb(rx: Rx, data: seq<byte>): Rx
    decreases |data|
  {
    if |data| == 0 then rx else Absorb(Store(rx, data[0]), data[1..])
  }

  lemma {:induction false} FeedStuffedByte(cfg: RxConfig, rx: Rx, accm: XmitAccm, c: byte)
    requires !rx.escape
    requires Masked(cfg.recvAccm, c) ==> NeedEscape(accm, c)
    requires cfg.noCarrierDetect ==> |rx.body| > 0 || CARRIAGE_RETURN !in StuffByte(accm, c)
    ensures Feed(cfg, rx, StuffByte(accm, c)) == Store(rx, c)
    ensures Consumed(cfg, rx, StuffByte(accm, c)) == |StuffByte(accm, c)|
  {
    hide CrcByte, NeedEscape;
    FramingCharsEscaped(accm);
    ToggleTwice(c);
    var s := StuffByte(accm, c);
    if NeedEscape(accm, c) {
      assert s == [ESCAPE, Toggle(c)] && s[1..] == [Toggle(c)] && s[1..][1..] == [];
      assert s[1] in s;
      var mid := rx.(escape := true);
      assert Step(cfg.recvAccm, rx, s[0]) == mid;
      assert Step(cfg.recvAccm, mid, s[1]) == Store(rx, c);
      assert Feed(cfg, mid, s[1..]) == Feed(cfg, Store(rx, c), []);
    } else {
      assert s == [c] && s[1..] == [];
      assert s[0] in s;
    }
  }

  /** Unstuffing undoes stuffing. */
  lemma {:induction false} FeedStuffed(cfg: RxConfig, rx: Rx, accm: XmitAccm, data: seq<byte>)
    requires !rx.escape && Transparent(cfg.recvAccm, accm, data)
    requires cfg.noCarrierDetect && |data| > 0 ==> |rx.body| > 0 || CARRIAGE_RETURN !in StuffByte(accm, data[0])
    ensures Feed(cfg, rx, Stuff(accm, data)) == Absorb(rx, data)
    ensures Consumed(cfg, rx, Stuff(accm, data)) == |Stuff(accm, data)|
    decreases |data|
  {
    hide StuffByte, Step, CrcByte, NeedEscape;
    if |data| > 0 {
      FeedStuffedByte(cfg, rx, accm, data[0]);
      FeedAppend(cfg, rx, StuffByte(accm, data[0]), Stuff(accm, data[1..]));
      FeedStuffed(cfg, Store(rx, data[0]), accm, data[1..]);
    }
  }

  lemma {:induction false} AbsorbIs(rx: Rx, data: seq<byte>)
    requires InStep(rx)
    ensures Absorb(rx, data) == rx.(body := rx.body + data, fcs := Fcs(rx.body + data))
    decreases |data|
  {
    hide CrcByte, Fcs;
    if |data| == 0 {
      assert rx.body + data == rx.body;
    } else {
      FcsSnoc(rx.body, data[0]);
      AbsorbIs(Store(rx, data[0]), data[1..]);
      assert rx.body + [data[0]] + data[1..] == rx.body + data;
    }
  }

  lemma {:induction false} StuffAppend(accm: XmitAccm, a: seq<byte>, b: seq<byte>)
    ensures Stuff(accm, a + b) == Stuff(accm, a) + Stuff(accm, b)
    decreases |a|
  {
    hide StuffByte;
    if |a| == 0 {
      assert a + b == b;
    } else {
      assert (a + b)[1..] == a[1..] + b;
      StuffAppend(accm, a[1..], b);
    }
  }

  /** A frame arriving at a receiver that is between frames is delivered exactly, and
      leaves the receiver between frames again. */
  lemma {:induction false} FeedFrame(cfg: RxConfig, rx: Rx, accm: XmitAccm, payload: seq<byte>)
    requires !rx.escape && rx.body == [] && InStep(rx) && |payload| > 0
    requires Transparent(cfg.recvAccm, accm, payload + FcsTail(payload))
    requires cfg.noCarrierDetect ==> CARRIAGE_RETURN !in StuffByte(accm, payload[0])
    ensures Feed(cfg, rx, Frame(accm, payload)) ==
            rx.(fcs := INIT_FCS, delivered := rx.delivered + [payload])
    ensures Consumed(cfg, rx, Frame(accm, payload)) == |Frame(accm, payload)|
  {
    hide Stuff, StuffByte, NeedEscape, Fcs, FcsTail;
    var body := payload + FcsTail(payload);
    StuffAppend(accm, payload, FcsTail(payload));
    FeedStuffed(cfg, rx, accm, body);
    AbsorbIs(rx, body);
    assert [] + body == body;
    FeedAppend(cfg, rx, Stuff(accm, body), [FLAG]);
    GoodFcsIffTail(payload, FcsTail(payload));
    FeedFlag(cfg, rx.(body := body, fcs := Fcs(body)));
    assert body[..|body| - 2] == payload;
  }

  lemma {:induction false} FeedFlag(cfg: RxConfig, rx: Rx)
    requires !rx.escape
    ensures Feed(cfg, rx, [FLAG]) == EndFrame(rx) && Consumed(cfg, rx, [FLAG]) == 1
  {
    hide EndFrame;
    assert [FLAG][1..] == [];
    assert Step(cfg.recvAccm, rx, FLAG) == EndFrame(rx);
    assert Feed(cfg, EndFrame(rx), []) == EndFrame(rx);
  }

  /** Flags between frames are harmless. */
  lemma {:induction false} IdleFlag(cfg: RxConfig, rx: Rx)
    requires !rx.escape && rx.body == [] && rx.fcs == INIT_FCS
    ensures Feed(cfg, rx, [FLAG]) == rx && Consumed(cfg, rx, [FLAG]) == 1
  {
    FeedFlag(cfg, rx);
  }

  // ---- Exactly when a frame survives the receiver's character map ----

  /** The bytes that reach the decode buffer: those not dropped as unescaped control characters. */
  function Kept(recvAccm: uint32, accm: XmitAccm, data: seq<byte>): seq<byte> {
    if |data| == 0 then []
    else (if Masked(recvAccm, data[0]) && !NeedEscape(accm, data[0]) then [] else [data[0]])
         + Kept(recvAccm, accm, data[1..])
  }

  lemma {:induction false} KeptAllIffTransparent(recvAccm: uint32, accm: XmitAccm, data: seq<byte>)
    ensures |Kept(recvAccm, accm, data)| <= |data|
    ensures Transparent(recvAccm, accm, data) <==> |Kept(recvAccm, accm, data)| == |data|
    ensures Transparent(recvAccm, accm, data) ==> Kept(recvAccm, accm, data) == data
    decreases |data|
  {
    hide NeedEscape, Masked;
    if |data| > 0 {
      KeptAllIffTransparent(recvAccm, accm, data[1..]);
      assert Transparent(recvAccm, accm, data) <==>
        (Masked(recvAccm, data[0]) ==> NeedEscape(accm, data[0])) && Transparent(recvAccm, accm, data[1..]) by {
        if Transparent(recvAccm, accm, data) {
          forall i | 0 <= i < |data[1..]| && Masked(recvAccm, data[1..][i])
            ensures NeedEscape(accm, data[1..][i])
          {
            assert data[1..][i] == data[i + 1];
          }
        }
      }
    }
  }

  lemma {:induction false} FeedDroppedByte(cfg: RxConfig, rx: Rx, accm: XmitAccm, c: byte)
    requires !rx.escape && !cfg.noCarrierDetect
    requires Masked(cfg.recvAccm, c) && !NeedEscape(accm, c)
    ensures Feed(cfg, rx, StuffByte(accm, c)) == rx
    ensures Consumed(cfg, rx, StuffByte(accm, c)) == |StuffByte(accm, c)|
  {
    hide CrcByte, NeedEscape;
    FramingCharsEscaped(accm);
    assert [c][1..] == [];
    assert Step(cfg.recvAccm, rx, c) == rx;
  }

  lemma {:induction false} FeedStuffedKept(cfg: RxConfig, rx: Rx, accm: XmitAccm, data: seq<byte>)
    requires !rx.escape && !cfg.noCarrierDetect
    ensures Feed(cfg, rx, Stuff(accm, data)) == Absorb(rx, Kept(cfg.recvAccm, accm, data))
    ensures Consumed(cfg, rx, Stuff(accm, data)) == |Stuff(accm, data)|
    decreases |data|
  {
    hide StuffByte, Step, CrcByte, NeedEscape;
    if |data| > 0 {
      var c, rest := data[0], data[1..];
      FeedAppendAfter(cfg, rx, accm, c, rest);
      var kept := Kept(cfg.recvAccm, accm, rest);
      if Masked(cfg.recvAccm, c) && !NeedEscape(accm, c) {
        FeedDroppedByte(cfg, rx, accm, c);
        FeedStuffedKept(cfg, rx, accm, rest);
        assert [] + kept == kept;
      } else {
        FeedStuffedByte(cfg, rx, accm, c);
        FeedStuffedKept(cfg, Store(rx, c), accm, rest);
        assert ([c] + kept)[0] == c && ([c] + kept)[1..] == kept;
      }
    }
  }

  lemma {:induction false} FeedAppendAfter(cfg: RxConfig, rx: Rx, accm: XmitAccm, c: byte, rest: seq<byte>)
    requires !rx.escape && !cfg.noCarrierDetect
    ensures Consumed(cfg, rx, StuffByte(accm, c)) == |StuffByte(accm, c)|
    ensures var next := Feed(cfg, rx, StuffByte(accm, c)); var more := Stuff(accm, rest);
      && Feed(cfg, rx, StuffByte(accm, c) + more) == Feed(cfg, next, more)
      && Consumed(cfg, rx, StuffByte(accm, c) + more) == |StuffByte(accm, c)| + Consumed(cfg, next, more)
  {
    hide StuffByte, Step, CrcByte, NeedEscape;
    if Masked(cfg.recvAccm, c) && !NeedEscape(accm, c) {
      FeedDroppedByte(cfg, rx, accm, c);
    } else {
      FeedStuffedByte(cfg, rx, accm, c);
    }
    FeedAppend(cfg, rx, StuffByte(accm, c), Stuff(accm, rest));
  }

  /** A frame is delivered as its payload if and only if the sender escaped every byte of
      the payload and of its check sequence that the receiver would drop. */
  lemma {:induction false} FrameDeliveredIff(cfg: RxConfig, rx: Rx, accm: XmitAccm, payload: seq<byte>)
    requires !rx.escape && rx.body == [] && InStep(rx) && |payload| > 0 && !cfg.noCarrierDetect
    ensures Feed(cfg, rx, Frame(accm, payload)).delivered == rx.delivered + [payload]
            <==> Transparent(cfg.recvAccm, accm, payload + FcsTail(payload))
  {
    hide Stuff, StuffByte, NeedEscape, Fcs, FcsTail, Kept;
    var body := payload + FcsTail(payload);
    var kept := Kept(cfg.recvAccm, accm, body);
    StuffAppend(accm, payload, FcsTail(payload));
    FeedStuffedKept(cfg, rx, accm, body);
    AbsorbIs(rx, kept);
    assert [] + kept == kept;
    FeedAppend(cfg, rx, Stuff(accm, body), [FLAG]);
    FeedFlag(cfg, rx.(body := kept, fcs := Fcs(kept)));
    KeptAllIffTransparent(cfg.recvAccm, accm, body);
    if Transparent(cfg.recvAccm, accm, body) {
      FeedFrame(cfg, rx, accm, payload);
    } else {
      var after := EndFrame(rx.(body := kept, fcs := Fcs(kept))).delivered;
      if |kept| > 2 && Fcs(kept) == GOOD_FCS {
        assert after[|after| - 1] == kept[..|kept| - 2] != payload;
      } else {
        assert |after| == |rx.delivered|;
      }
    }
  }

  // ---- Whole streams ----

  /** One accepted frame: whether an opening flag preceded it, the escape map in force,
      and the payload. */
  datatype Sent = Sent(lead: bool, accm: XmitAccm, payload: seq<byte>)

  function Encoded(f: Sent): seq<byte> {
    (if f.lead then [FLAG] else []) + Frame(f.accm, f.payload)
  }

  function Stream(frames: seq<Sent>): seq<byte> {
    if |frames| == 0 then []
    else Stream(frames[..|frames| - 1]) + Encoded(frames[|frames| - 1])
  }

  function Payloads(frames: seq<Sent>): (s: seq<seq<byte>>)
    ensures |s| == |frames|
  {
    seq(|frames|, i requires 0 <= i < |frames| => frames[i].payload)
  }

  ghost predicate Receivable(cfg: RxConfig, f: Sent) {
    && |f.payload| > 0
    && Compatible(cfg.recvAccm, f.accm)
    && (cfg.noCarrierDetect ==> CARRIAGE_RETURN !in StuffByte(f.accm, f.payload[0]))
  }

  lemma {:induction false} FeedEncoded(cfg: RxConfig, rx: Rx, f: Sent)
    requires !rx.escape && rx.body == [] && rx.fcs == INIT_FCS && Receivable(cfg, f)
    ensures Feed(cfg, rx, Encoded(f)) == rx.(delivered := rx.delivered + [f.payload])
    ensures Consumed(cfg, rx, Encoded(f)) == |Encoded(f)|
  {
    hide Stuff, StuffByte, FcsTail, Frame, Feed, Consumed, CrcByte;
    assert Fcs([]) == INIT_FCS;
    FeedFrame(cfg, rx, f.accm, f.payload);
    if f.lead {
      IdleFlag(cfg, rx);
      FeedAppend(cfg, rx, [FLAG], Frame(f.accm, f.payload));
    } else {
      assert [] + Frame(f.accm, f.payload) == Frame(f.accm, f.payload);
    }
  }

  lemma {:induction false} StreamLast(frames: seq<Sent>)
    requires |frames| > 0
    ensures Stream(frames) == Stream(frames[..|frames| - 1]) + Encoded(frames[|frames| - 1])
  {
  }

  lemma PayloadsLast(front: seq<Sent>, last: Sent)
    ensures Payloads(front + [last]) == Payloads(front) + [last.payload]
  {
    var p, q := Payloads(front + [last]), Payloads(front) + [last.payload];
    forall i | 0 <= i < |p| ensures p[i] == q[i] {
      assert p[i] == (front + [last])[i].payload;
    }
  }

  lemma {:induction false} NothingDelivered(cfg: RxConfig)
    ensures Feed(cfg, FRESH, Stream([])) == FRESH.(delivered := Payloads([]))
    ensures Consumed(cfg, FRESH, Stream([])) == |Stream([])|
  {
  }

  /** End to end: what a fresh receiver delivers from everything a sender wrote is the
      list of payloads, in order. */
  lemma {:induction false} StreamDelivered(cfg: RxConfig, frames: seq<Sent>)
    requires forall i :: 0 <= i < |frames| ==> Receivable(cfg, frames[i])
    ensures Feed(cfg, FRESH, Stream(frames)) == FRESH.(delivered := Payloads(frames))
    ensures Consumed(cfg, FRESH, Stream(frames)) == |Stream(frames)|
    decreases |frames|
  {
    hide Stream, Feed, Consumed, Encoded, Receivable, Payloads;
    if |frames| == 0 {
      assert frames == [];
      NothingDelivered(cfg);
    } else {
      var front, last := frames[..|frames| - 1], frames[|frames| - 1];
      StreamLast(frames);
      PayloadsLast(front, last);
      assert front + [last] == frames;
      StreamDelivered(cfg, front);
      FeedAppend(cfg, FRESH, Stream(front), Encoded(last));
      FeedEncoded(cfg, FRESH.(delivered := Payloads(front)), last);
    }
  }

  lemma {:induction false} DeliveredGrows(cfg: RxConfig, rx: Rx, bytes: seq<byte>)
    ensures rx.delivered <= Feed(cfg, rx, bytes).delivered
    decreases |bytes|
  {
    hide CrcByte;
    if |bytes| > 0 && !LooksLikeNoCarrier(cfg, rx, bytes[0]) {
      DeliveredGrows(cfg, Step(cfg.recvAccm, rx, bytes[0]), bytes[1..]);
    }
  }

  lemma {:induction false} ConsumedPrefix(cfg: RxConfig, rx: Rx, a: seq<byte>, b: seq<byte>)
    requires Consumed(cfg, rx, a + b) == |a + b|
    ensures Consumed(cfg, rx, a) == |a|
    decreases |a|
  {
    hide Step;
    if |a| > 0 {
      assert (a + b)[1..] == a[1..] + b;
      ConsumedPrefix(cfg, Step(cfg.recvAccm, rx, a[0]), a[1..], b);
    }
  }

  /** At every moment of a transfer the payloads delivered so far are the first ones sent. */
  lemma {:induction false} PartialStreamDelivered(cfg: RxConfig, frames: seq<Sent>, got: seq<byte>)
    requires forall i :: 0 <= i < |frames| ==> Receivable(cfg, frames[i])
    requires got <= Stream(frames)
    ensures Feed(cfg, FRESH, got).delivered <= Payloads(frames)
    ensures Consumed(cfg, FRESH, got) == |got|
  {
    hide Stream, Feed, Consumed;
    StreamDelivered(cfg, frames);
    var rest := Stream(frames)[|got|..];
    assert got + rest == Stream(frames);
    ConsumedPrefix(cfg, FRESH, got, rest);
    FeedAppend(cfg, FRESH, got, rest);
    DeliveredGrows(cfg, Feed(cfg, FRESH, got), rest);
  }

  lemma {:induction false} StuffedLength(accm: XmitAccm, data: seq<byte>)
    ensures |Stuff(accm, data)| >= |data|
    decreases |data|
  {
    if |data| > 0 {
      StuffedLength(accm, data[1..]);
    }
  }

  lemma EncodedLength(f: Sent)
    ensures |Encoded(f)| >= |f.payload| + 3
  {
    StuffedLength(f.accm, f.payload);
    StuffedLength(f.accm, FcsTail(f.payload));
  }

  lemma {:induction false} StreamSnoc(frames: seq<Sent>, f: Sent)
    ensures Stream(frames + [f]) == Stream(frames) + Encoded(f)
  {
    assert (frames + [f])[..|frames|] == frames;
  }

  // ---- Reads ----

  function Flatten(chunks: seq<seq<byte>>): seq<byte> {
    if |chunks| == 0 then [] else chunks[0] + Flatten(chunks[1..])
  }

  /** The receiver over a run of reads. */
  function FeedChunks(cfg: RxConfig, rx: Rx, chunks: seq<seq<byte>>): Rx
    decreases |chunks|
  {
    if |chunks| == 0 then rx else FeedChunks(cfg, Feed(cfg, rx, chunks[0]), chunks[1..])
  }

  /** The decode buffer never overflows while these bytes are handled. */
  ghost predicate Fits(cfg: RxConfig, rx: Rx, bytes: seq<byte>)
    decreases |bytes|
  {
    |bytes| == 0 || LooksLikeNoCarrier(cfg, rx, bytes[0]) ||
    (|Step(cfg.recvAccm, rx, bytes[0]).body| <= BUFFER_SIZE &&
     Fits(cfg, Step(cfg.recvAccm, rx, bytes[0]), bytes[1..]))
  }

  lemma {:induction false} FitsIfShort(cfg: RxConfig, rx: Rx, bytes: seq<byte>)
    requires |rx.body| + |bytes| <= BUFFER_SIZE
    ensures Fits(cfg, rx, bytes)
    decreases |bytes|
  {
    hide CrcByte, TestBit;
    if |bytes| > 0 {
      FitsIfShort(cfg, Step(cfg.recvAccm, rx, bytes[0]), bytes[1..]);
    }
  }

  lemma {:induction false} FitsAppend(cfg: RxConfig, rx: Rx, a: seq<byte>, b: seq<byte>)
    requires Consumed(cfg, rx, a) == |a| && Fits(cfg, rx, a) && Fits(cfg, Feed(cfg, rx, a), b)
    ensures Fits(cfg, rx, a + b)
    decreases |a|
  {
    hide Step;
    if |a| == 0 {
      assert a + b == b;
    } else {
      assert (a + b)[1..] == a[1..] + b;
      FitsAppend(cfg, Step(cfg.recvAccm, rx, a[0]), a[1..], b);
    }
  }

  lemma {:induction false} FitsSplit(cfg: RxConfig, rx: Rx, a: seq<byte>, b: seq<byte>)
    requires Consumed(cfg, rx, a) == |a| && Fits(cfg, rx, a + b)
    ensures Fits(cfg, rx, a) && Fits(cfg, Feed(cfg, rx, a), b)
    decreases |a|
  {
    hide Step;
    if |a| == 0 {
      assert a + b == b;
    } else {
      assert (a + b)[1..] == a[1..] + b;
      FitsSplit(cfg, Step(cfg.recvAccm, rx, a[0]), a[1..], b);
    }
  }

  ghost predicate Acceptable(cfg: RxConfig, frames: seq<Sent>) {
    forall i :: 0 <= i < |frames| ==> Receivable(cfg, frames[i]) && |Encoded(frames[i])| <= BUFFER_SIZE
  }

  /** Frames that fit a write buffer never overflow the receiver's decode buffer. */
  lemma {:induction false} StreamFits(cfg: RxConfig, frames: seq<Sent>)
    requires Acceptable(cfg, frames)
    ensures Fits(cfg, FRESH, Stream(frames))
  {
    hide Encoded, Feed, Consumed, Receivable;
    if |frames| > 0 {
      var front, last := frames[..|frames| - 1], frames[|frames| - 1];
      StreamFits(cfg, front);
      StreamDelivered(cfg, front);
      FitsIfShort(cfg, FRESH.(delivered := Payloads(front)), Encoded(last));
      FitsAppend(cfg, FRESH, Stream(front), Encoded(last));
    }
  }

  lemma {:induction false} ReadsJoin(cfg: RxConfig, rx: Rx, chunks: seq<seq<byte>>)
    requires Consumed(cfg, rx, Flatten(chunks)) == |Flatten(chunks)|
    ensures FeedChunks(cfg, rx, chunks) == Feed(cfg, rx, Flatten(chunks))
    decreases |chunks|
  {
    hide Feed, Consumed;
    if |chunks| == 0 {
      NothingFed(cfg, rx);
    } else {
      ConsumedPrefix(cfg, rx, chunks[0], Flatten(chunks[1..]));
      FeedAppend(cfg, rx, chunks[0], Flatten(chunks[1..]));
      ReadsJoin(cfg, Feed(cfg, rx, chunks[0]), chunks[1..]);
    }
  }

  lemma {:induction false} NothingFed(cfg: RxConfig, rx: Rx)
    ensures Feed(cfg, rx, []) == rx
  {
  }

  /** The transfer as a whole. Whatever part of the stream has arrived, in reads of any
      sizes, a fresh receiver stays within its buffer and has delivered the first payloads
      sent, exactly and in order; once everything has arrived it has delivered them all. */
  lemma {:induction false} ChunkedTransfer(cfg: RxConfig, frames: seq<Sent>, chunks: seq<seq<byte>>)
    requires Acceptable(cfg, frames) && Flatten(chunks) <= Stream(frames)
    ensures Fits(cfg, FRESH, Flatten(chunks))
    ensures FeedChunks(cfg, FRESH, chunks).delivered <= Payloads(frames)
    ensures Flatten(chunks) == Stream(frames) ==> FeedChunks(cfg, FRESH, chunks).delivered == Payloads(frames)
  {
    hide Stream, Feed, Consumed, FeedChunks, Fits, Receivable;
    PartialStreamDelivered(cfg, frames, Flatten(chunks));
    ReadsJoin(cfg, FRESH, chunks);
    StreamDelivered(cfg, frames);
    StreamFits(cfg, frames);
    assert Stream(frames) == Flatten(chunks) + Stream(frames)[|Flatten(chunks)|..];
    FitsSplit(cfg, FRESH, Flatten(chunks), Stream(frames)[|Flatten(chunks)|..]);
  }

  // ---- Damaged frames ----

  /** Two bodies of the same length that differ in one byte, or only inside two neighbouring
      bytes, are never both delivered. */
  lemma DamagedFrameDropped(a: Rx, b: Rx, pre: seq<byte>, x: seq<byte>, y: seq<byte>, post: seq<byte>)
    requires InStep(a) && InStep(b) && |x| == |y| == 2 && x != y
    requires a.body == pre + x + post && b.body == pre + y + post
    ensures EndFrame(a).delivered == a.delivered || EndFrame(b).delivered == b.delivered
  {
    hide Fcs;
    BurstErrorDetected(pre, x, y, post);
  }
}
