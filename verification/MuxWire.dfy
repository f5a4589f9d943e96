/** The multiplexer on the line, in the numbers of sections 5.2 to 5.4 of 3GPP TS 27.010:
    the bytes of a frame, and what reading one frame does to a channel. */
module MuxWire {
  import opened Bytes
  import Ccitt = CrcCcitt
  import HdlcCodec
  import opened MuxCrc
  import opened Gsm0710
  import opened MuxTransfer
  import opened MuxReads

  // ---- The bytes of a frame ----

  /** In basic mode: flag, address with both low bits set, type, length in seven bits or in
      fifteen with the low seven first, data, check byte, flag. */
  lemma BasicBytes(p: Packet)
    requires Sendable(p)
    ensures var n := |p.data|;
      var header := [p.dlc * 4 + 3, p.control] + if n <= 127 then [n * 2 + 1] else [n % 128 * 2, n / 128];
      BasicFrame(p) == [0xf9] + header + p.data + [Fcs(header), 0xf9]
  {
    hide Fcs;
    var n := |p.data|;
    assert n * 2 % 256 == n % 128 * 2;
    assert [Fcs(BasicHeader(p))] + [0xf9] == [Fcs(BasicHeader(p)), 0xf9];
    assert [0xf9] + BasicHeader(p) + p.data + [Fcs(BasicHeader(p))] + [0xf9]
        == [0xf9] + BasicHeader(p) + p.data + ([Fcs(BasicHeader(p))] + [0xf9]);
  }

  /** In advanced mode: flag, address, type, data and a check byte of address and type, all
      of them quoted, flag. */
  lemma AdvancedBytes(p: Packet)
    requires Sendable(p)
    ensures AdvancedFrame(p) ==
      [0x7e] + QuoteAll([p.dlc * 4 + 3, p.control] + p.data + [Fcs([p.dlc * 4 + 3, p.control])]) + [0x7e]
  {
    hide Fcs, QuoteAll;
  }

  /** Flag and escape go out as 7d 5e and 7d 5d, everything else as it is. */
  lemma {:induction false} QuotedBytes(c: byte, more: seq<byte>)
    ensures QuoteAll([c] + more) ==
      (if c == 0x7e then [0x7d, 0x5e] else if c == 0x7d then [0x7d, 0x5d] else [c]) + QuoteAll(more)
    ensures QuoteAll([]) == []
  {
    assert ([c] + more)[1..] == more;
  }

  lemma OpeningBits()
    ensures ToBits(0x03) == 0x03 && ToBits(0x3f) == 0x3f && ToBits(0x01) == 0x01
    ensures ToBits(0x1c) == 0x1c && ToBits(0xfc) == 0xfc
  {
    SmallBits();
    CheckBits();
    hide ToBits;
  }

  lemma SmallBits()
    ensures ToBits(0x03) == 0x03 && ToBits(0x3f) == 0x3f && ToBits(0x01) == 0x01
  {
  }

  lemma CheckBits()
    ensures ToBits(0x1c) == 0x1c && ToBits(0xfc) == 0xfc
  {
  }

  lemma OpeningSteps()
    ensures Table(Ccitt.Xor(0xff, 0x03)) == 0xbd && Table(Ccitt.Xor(0xbd, 0x3f)) == 0x03 && Table(Ccitt.Xor(0x03, 0x01)) == 0xe3
    ensures Ccitt.Xor(0xe3, 0xff) == 0x1c && Ccitt.Xor(0x03, 0xff) == 0xfc
  {
  }

  lemma {:induction false} CrcOne(data: seq<byte>, c: byte, bits: bv16, crc: bv16, next: bv16)
    requires Crc(data) == crc && ToBits(c) == bits && Table(Ccitt.Xor(crc, bits)) == next
    ensures Crc(data + [c]) == next
  {
    hide Table, ToBits, Ccitt.Xor;
    assert (data + [c])[..|data|] == data;
  }

  lemma CrcStarts()
    ensures Crc([]) == 0xff
  {
  }

  lemma {:induction false} OpeningFcs()
    ensures Fcs([0x03, 0x3f, 0x01]) == 0x1c && Fcs([0x03, 0x3f]) == 0xfc
  {
    hide *;
    OpeningBits();
    OpeningSteps();
    CrcStarts();
    assert [] + [0x03] == [0x03] && [0x03] + [0x3f] == [0x03, 0x3f] && [0x03, 0x3f] + [0x01] == [0x03, 0x3f, 0x01];
    CrcOne([], 0x03, 0x03, 0xff, 0xbd);
    CrcOne([0x03], 0x3f, 0x3f, 0xbd, 0x03);
    CrcOne([0x03, 0x3f], 0x01, 0x01, 0x03, 0xe3);
    FcsBits([0x03, 0x3f, 0x01], 0x1c, 0x1c);
    FcsBits([0x03, 0x3f], 0xfc, 0xfc);
  }

  lemma {:induction false} FcsBits(data: seq<byte>, c: byte, bits: bv16)
    requires Ccitt.Xor(Crc(data), 0xff) == bits && ToBits(c) == bits
    ensures Fcs(data) == c
  {
    hide Crc, ToBits, FromBits, Ccitt.Xor;
    ByteThroughBits(c);
  }

  /** The request to open channel 0, in both formats. */
  lemma OpeningFrame()
    ensures BasicFrame(Packet(0, 0x3f, [])) == [0xf9, 0x03, 0x3f, 0x01, 0x1c, 0xf9]
    ensures AdvancedFrame(Packet(0, 0x3f, [])) == [0x7e, 0x03, 0x3f, 0xfc, 0x7e]
  {
    hide *;
    OpeningSendable();
    OpeningFcs();
    BasicBytes(Packet(0, 0x3f, []));
    AdvancedBytes(Packet(0, 0x3f, []));
    QuotedBytes(0x03, [0x3f, 0xfc]);
    QuotedBytes(0x3f, [0xfc]);
    QuotedBytes(0xfc, []);
    assert [0x03] + [0x3f, 0xfc] == [0x03, 0x3f, 0xfc] && [0x3f] + [0xfc] == [0x3f, 0xfc] && [0xfc] + [] == [0xfc];
    assert [0x03, 0x3f] + [0x01] == [0x03, 0x3f, 0x01] && [0x03, 0x3f] + [] + [0xfc] == [0x03, 0x3f, 0xfc];
  }

  lemma OpeningSendable()
    ensures Sendable(Packet(0, 0x3f, []))
  {
  }

  // ---- Reading one frame ----

  /** A frame read behind the flag of the one before, or behind nothing, is handed out as
      one packet: a data packet, 0xef or 0x03 but for the poll/final bit, brings its channel
      exactly its data and other channels nothing; every other type brings nobody anything. */
  lemma {:induction false} FrameDelivered(mode: Mode, lead: seq<byte>, p: Packet, before: byte, dlc: byte)
    requires Sendable(p) && (lead == [] || lead == [Flag(mode)])
    ensures var r := FeedBuffer(mode, lead + Frame(mode, p), before);
      && r.sound && r.found.rest == [Flag(mode)] && |r.found.packets| == 1 && r.found.packets[0].dlc == p.dlc
      && Fed(r.found.packets, dlc) ==
         if dlc == p.dlc && (p.control == 0xef || p.control == 0xff || p.control == 0x03 || p.control == 0x13) then p.data else []
  {
    hide Frame, FeedBuffer, Demux, LongFrames;
    var s := lead + Frame(mode, p);
    assert [p][1..] == [];
    assert Stream(mode, [p]) == Frame(mode, p) by {
      assert Stream(mode, [p]) == Frame(mode, p) + Stream(mode, [p][1..]);
    }
    if mode.Advanced? {
      StreamLong(lead, [p], Stream(mode, [p]));
    }
    LongFramesFed(mode, s, before);
    OneFrame(mode, lead, p);
    DataTypes(p.control);
    assert Fed([Received(p)], dlc) == if dlc == p.dlc && IsData(StripPf(p.control)) then p.data else [] by {
      assert [Received(p)][1..] == [];
    }
  }

  lemma {:induction false} OneFrame(mode: Mode, lead: seq<byte>, p: Packet)
    requires Sendable(p) && (lead == [] || lead == [Flag(mode)])
    ensures Demux(mode, lead + Frame(mode, p)) == Demuxed([Received(p)], [Flag(mode)])
  {
    hide Frame, Demux;
    FrameStarts(mode, p);
    assert Frame(mode, p) + [] == Frame(mode, p) && [Flag(mode)] + [] == [Flag(mode)];
    assert lead == [] ==> lead + Frame(mode, p) == Frame(mode, p);
    LeadingFlag(mode, Frame(mode, p));
    FrameFound(mode, p, []);
    FlagAlone(mode);
  }

  // ---- Damaged frames ----

  /** A basic frame with a wrong check byte is passed over, and its closing flag opens the
      next frame. */
  lemma {:induction false} DamagedBasic(p: Packet, fcs: byte, more: seq<byte>)
    requires Sendable(p) && fcs != Fcs(BasicHeader(p))
    ensures BasicDemux([0xf9] + BasicHeader(p) + p.data + [fcs, 0xf9] + more) == BasicDemux([0xf9] + more)
  {
    hide Fcs, CheckFcs, BasicHeader, BasicSkips, BasicWaits;
    var good, h := BasicFrame(p) + more, BasicHeader(p);
    var s := [0xf9] + h + p.data + [fcs, 0xf9] + more;
    BasicParts(p, more);
    HeaderStays(p, good, s);
    assert s[1..1 + |h|] == h;
    CheckFcsIff(h, fcs);
    assert s[BasicSize(s) - 1] == fcs && s[BasicSize(s)..] == [0xf9] + more;
  }

  /** What a search sees of a frame before its check byte. */
  lemma HeaderStays(p: Packet, good: seq<byte>, s: seq<byte>)
    requires Sendable(p) && |s| == |good| >= 6 && good[0] == BASIC_FLAG && !BasicSkips(good) && !BasicWaits(good)
    requires HeaderSize(good) == |BasicHeader(p)| && InfoLen(good) == |p.data| && s[..1 + |BasicHeader(p)|] == good[..1 + |BasicHeader(p)|]
    ensures !BasicSkips(s) && !BasicWaits(s) && HeaderSize(s) == HeaderSize(good) && InfoLen(s) == InfoLen(good)
  {
    hide Fcs;
    forall i | 0 <= i < 1 + |BasicHeader(p)| ensures s[i] == good[i] {
      assert s[i] == s[..1 + |BasicHeader(p)|][i];
    }
  }

  /** A flag in front of an address with its lowest bit clear opens no frame. */
  lemma {:induction false} EvenAddress(a: byte, more: seq<byte>)
    requires a % 2 == 0 && |more| >= 2
    ensures BasicDemux([0xf9, a] + more) == BasicDemux([a] + more)
  {
    assert ([0xf9, a] + more)[1..] == [a] + more;
  }

  /** The same in advanced mode, for any three bytes or more between two flags whose last is
      not the check byte of the first two. */
  lemma {:induction false} DamagedAdvanced(body: seq<byte>, more: seq<byte>)
    requires |body| >= 3 && body[0] != 0x7e && body[|body| - 1] != Fcs(body[..2])
    ensures AdvancedDemux([0x7e] + QuoteAll(body) + [0x7e] + more) == AdvancedDemux([0x7e] + more)
  {
    hide Fcs, CheckFcs, Segment, AdvancedSkips, AdvancedWaits, AdvancedSize, AdvancedPacket, QuoteAll;
    Between(QuoteAll(body), body, more);
    CheckFcsIff(body[..2], body[|body| - 1]);
  }

  /** What a search makes of quoted bytes between two flags. */
  lemma {:induction false} Between(q: seq<byte>, body: seq<byte>, more: seq<byte>)
    requires |body| > 0 && body[0] != 0x7e && q == QuoteAll(body)
    ensures var s := [0x7e] + q + [0x7e] + more;
      !AdvancedSkips(s) && !AdvancedWaits(s) && Segment(s) == body && s[AdvancedSize(s)..] == [0x7e] + more
  {
    hide QuoteAll, Unquote;
    var s := [0x7e] + q + [0x7e] + more;
    UnquoteQuoted(body);
    HeadOf(body);
    forall k | 1 <= k < 1 + |q| ensures s[k] != ADVANCED_FLAG {
      assert s[k] == q[k - 1];
      assert q[k - 1] in q;
    }
    FlagFirst(s, 1, 1 + |q|);
    assert s[1..1 + |q|] == q;
    assert s[1 + |q|..] == [0x7e] + more;
  }

  lemma {:induction false} HeadOf(body: seq<byte>)
    requires |body| > 0
    ensures |QuoteAll(body)| > 0 && QuoteAll(body)[0] != ADVANCED_FLAG
  {
  }

  // ---- Fragments ----

  ghost predicate CutTo(size: nat, dlc: byte, control: byte, ps: seq<Packet>) {
    && (forall i :: 0 <= i < |ps| ==> ps[i].dlc == dlc && ps[i].control == control && 0 < |ps[i].data| <= size)
    && (forall i :: 0 <= i < |ps| - 1 ==> |ps[i].data| == size)
  }

  lemma CutMore(size: nat, dlc: byte, control: byte, p: Packet, rest: seq<Packet>)
    requires CutTo(size, dlc, control, rest) && size > 0 && p == Packet(dlc, control, p.data) && |p.data| == size
    ensures CutTo(size, dlc, control, [p] + rest)
  {
    var ps := [p] + rest;
    forall i | 0 <= i < |ps|
      ensures ps[i].dlc == dlc && ps[i].control == control && 0 < |ps[i].data| <= size
      ensures i < |ps| - 1 ==> |ps[i].data| == size
    {
      if i > 0 {
        assert ps[i] == rest[i - 1];
      }
    }
  }

  /** A write is cut into frames for its channel and of its type, each of them of the
      negotiated size except the last, which is not empty. */
  lemma {:induction false} FragmentsAre(size: nat, dlc: byte, control: byte, data: seq<byte>)
    requires 0 < size <= MAX_INFO && dlc <= 63
    ensures CutTo(size, dlc, control, Fragments(size, dlc, control, data))
    decreases |data|
  {
    if |data| > size {
      FragmentsAre(size, dlc, control, data[size..]);
      CutMore(size, dlc, control, Packet(dlc, control, data[..size]), Fragments(size, dlc, control, data[size..]));
    }
  }
}
