/** A multiplexed transfer from end to end: writes on channels become frames, frames a byte
    stream, the stream arrives in reads of any size, and each channel gets its own bytes. */
module MuxTransfer {
  import opened Bytes
  import HdlcCodec
  import opened MuxCrc
  import opened Gsm0710

  // ---- One frame ----

  lemma AddressIs(p: Packet)
    requires Sendable(p)
    ensures Address(p.dlc) / 4 == p.dlc && Address(p.dlc) % 2 == 1
    ensures Address(p.dlc) != BASIC_FLAG && Address(p.dlc) != ADVANCED_FLAG && Address(p.dlc) != QUOTE
  {
  }

  /** The bytes of a basic frame, placed at the front of a stream. */
  lemma BasicParts(p: Packet, more: seq<byte>)
    requires Sendable(p)
    ensures var s := BasicFrame(p) + more;
      && |s| >= 6 && s[0] == BASIC_FLAG && s[1] == Address(p.dlc) && !BasicSkips(s) && !BasicWaits(s)
      && HeaderSize(s) == |BasicHeader(p)| && InfoLen(s) == |p.data|
      && s[BasicSize(s)..] == [BASIC_FLAG] + more
  {
    hide Fcs;
    AddressIs(p);
    var s, h, n := BasicFrame(p) + more, BasicHeader(p), |p.data|;
    assert s[..1 + |h|] == [BASIC_FLAG] + h;
    if n <= 127 {
      assert s[3] == s[..1 + |h|][3] == n * 2 + 1;
    } else {
      assert s[3] == s[..1 + |h|][3] == (n * 2) % 256;
      assert s[4] == s[..1 + |h|][4] == n / 128;
      assert (n * 2) % 256 / 2 + n / 128 * 128 == n;
    }
  }

  lemma BasicContents(p: Packet, more: seq<byte>)
    requires Sendable(p)
    ensures var s := BasicFrame(p) + more; !BasicWaits(s) && BasicGood(s) && BasicPacket(s) == Received(p)
  {
    hide Fcs, CheckFcs, BasicSkips, BasicWaits;
    var s, h := BasicFrame(p) + more, BasicHeader(p);
    BasicParts(p, more);
    AddressIs(p);
    assert s[1..1 + |h|] == h;
    assert s[1 + |h|..1 + |h| + |p.data|] == p.data;
    CheckFcsIff(h, Fcs(h));
  }

  lemma {:induction false} UnquoteOne(c: byte, more: seq<byte>)
    ensures Unquote(QuoteByte(c) + more) == [c] + Unquote(more)
  {
    var q := QuoteByte(c);
    HdlcCodec.ToggleTwice(c);
    assert (q + more)[|q|..] == more;
  }

  lemma {:induction false} UnquoteAppend(d: seq<byte>, more: seq<byte>)
    ensures Unquote(QuoteAll(d) + more) == d + Unquote(more)
    decreases |d|
  {
    hide QuoteByte, Unquote;
    if |d| == 0 {
      assert [] + more == more;
      assert QuoteAll(d) == [];
    } else {
      UnquoteAppend(d[1..], more);
      var q, rest := QuoteByte(d[0]), QuoteAll(d[1..]);
      assert QuoteAll(d) + more == q + (rest + more);
      UnquoteOne(d[0], rest + more);
      assert [d[0]] + (d[1..] + Unquote(more)) == d + Unquote(more);
    }
  }

  lemma {:induction false} QuotedShape(d: seq<byte>)
    ensures ADVANCED_FLAG !in QuoteAll(d)
    ensures |d| <= |QuoteAll(d)| <= 2 * |d|
    decreases |d|
  {
    if |d| > 0 {
      QuotedShape(d[1..]);
    }
  }

  lemma {:induction false} UnquoteQuoted(d: seq<byte>)
    ensures Unquote(QuoteAll(d)) == d && ADVANCED_FLAG !in QuoteAll(d)
  {
    UnquoteAppend(d, []);
    QuotedShape(d);
    assert QuoteAll(d) + [] == QuoteAll(d) && d + [] == d;
  }

  lemma QuotedHead(p: Packet)
    requires Sendable(p)
    ensures |QuoteAll(AdvancedBody(p))| > 0 && QuoteAll(AdvancedBody(p))[0] == Address(p.dlc)
  {
    AddressIs(p);
    assert AdvancedBody(p)[0] == Address(p.dlc);
  }

  lemma AdvancedParts(p: Packet, more: seq<byte>)
    requires Sendable(p)
    ensures var s := AdvancedFrame(p) + more;
      && |s| >= 2 && s[0] == ADVANCED_FLAG && !AdvancedSkips(s) && !AdvancedWaits(s)
      && Segment(s) == AdvancedBody(p)
      && s[AdvancedSize(s)..] == [ADVANCED_FLAG] + more
  {
    var s, q := AdvancedFrame(p) + more, QuoteAll(AdvancedBody(p));
    AddressIs(p);
    QuotedHead(p);
    UnquoteQuoted(AdvancedBody(p));
    hide QuoteAll, Unquote, Fcs, AdvancedBody;
    assert s[1..1 + |q|] == q;
    forall k | 1 <= k < 1 + |q| ensures s[k] != ADVANCED_FLAG {
      assert s[k] == q[k - 1];
      assert q[k - 1] in q;
    }
    FlagFirst(s, 1, 1 + |q|);
  }

  lemma AdvancedContents(p: Packet, more: seq<byte>)
    requires Sendable(p)
    ensures var s := AdvancedFrame(p) + more; !AdvancedWaits(s) && AdvancedGood(s) && AdvancedPacket(s) == Received(p)
  {
    hide Fcs, CheckFcs, AdvancedSkips, AdvancedWaits, Unquote, QuoteAll;
    AdvancedParts(p, more);
    AddressIs(p);
    var body := AdvancedBody(p);
    assert body[..2] == [Address(p.dlc), p.control];
    assert body[2..|body| - 1] == p.data;
    CheckFcsIff(body[..2], Fcs(body[..2]));
  }

  /** A frame at the front of a stream yields exactly its packet; the closing flag stays to
      open the next frame. */
  lemma FrameFound(mode: Mode, p: Packet, more: seq<byte>)
    requires Sendable(p)
    ensures Demux(mode, Frame(mode, p) + more) == Prepend(Received(p), Demux(mode, [Flag(mode)] + more))
  {
    hide BasicFrame, AdvancedFrame, BasicGood, AdvancedGood, BasicPacket, AdvancedPacket;
    if mode.Basic? {
      BasicParts(p, more);
      BasicContents(p, more);
    } else {
      AdvancedParts(p, more);
      AdvancedContents(p, more);
    }
  }

  /** Flags in front of a frame are skipped. */
  lemma LeadingFlag(mode: Mode, s: seq<byte>)
    requires |s| > 0 && s[0] == Flag(mode)
    ensures Demux(mode, [Flag(mode)] + s) == Demux(mode, s)
  {
    assert ([Flag(mode)] + s)[1..] == s;
  }

  lemma FlagAlone(mode: Mode)
    ensures Demux(mode, [Flag(mode)]) == Demuxed([], [Flag(mode)])
  {
  }

  /** Flags only at both ends, and at most twice the data and seven bytes. */
  lemma AdvancedFrameShape(p: Packet)
    requires Sendable(p)
    ensures var f := AdvancedFrame(p);
      && |f| <= 2 * |p.data| + 7
      && f[0] == ADVANCED_FLAG && f[|f| - 1] == ADVANCED_FLAG
      && forall i :: 0 < i < |f| - 1 ==> f[i] != ADVANCED_FLAG
  {
    hide Fcs;
    var body, q := AdvancedBody(p), QuoteAll(AdvancedBody(p));
    AddressIs(p);
    assert body[0] == Address(p.dlc) && body[1..] == [p.control] + p.data + [Fcs([Address(p.dlc), p.control])];
    assert q == [body[0]] + QuoteAll(body[1..]);
    QuotedShape(body[1..]);
    UnquoteQuoted(body);
    forall i | 0 < i < |AdvancedFrame(p)| - 1 ensures AdvancedFrame(p)[i] != ADVANCED_FLAG {
      assert AdvancedFrame(p)[i] == q[i - 1];
      assert q[i - 1] in q;
    }
  }

  // ---- Streams of frames ----

  ghost predicate AllSendable(ps: seq<Packet>) {
    forall i :: 0 <= i < |ps| ==> Sendable(ps[i])
  }

  function Stream(mode: Mode, ps: seq<Packet>): seq<byte>
    requires forall i :: 0 <= i < |ps| ==> Sendable(ps[i])
  {
    if |ps| == 0 then [] else Frame(mode, ps[0]) + Stream(mode, ps[1..])
  }

  function AllReceived(ps: seq<Packet>): (r: seq<Packet>)
    ensures |r| == |ps|
  {
    seq(|ps|, i requires 0 <= i < |ps| => Received(ps[i]))
  }

  lemma {:induction false} StreamFound(mode: Mode, lead: seq<byte>, ps: seq<Packet>)
    requires AllSendable(ps) && (lead == [] || lead == [Flag(mode)])
    ensures Demux(mode, lead + Stream(mode, ps)).packets == AllReceived(ps)
    decreases |ps|
  {
    hide Demux, Frame;
    if |ps| == 0 {
      assert lead + Stream(mode, ps) == lead;
      FlagAlone(mode);
      NothingFound(mode);
    } else {
      var rest := Stream(mode, ps[1..]);
      StreamFound(mode, [Flag(mode)], ps[1..]);
      FrameFound(mode, ps[0], rest);
      FrameStarts(mode, ps[0]);
      LeadingFlag(mode, Frame(mode, ps[0]) + rest);
      assert AllReceived(ps) == [Received(ps[0])] + AllReceived(ps[1..]);
      assert lead == [] ==> lead + Stream(mode, ps) == Stream(mode, ps);
    }
  }

  lemma NothingFound(mode: Mode)
    ensures Demux(mode, []) == Demuxed([], [])
  {
  }

  lemma FrameStarts(mode: Mode, p: Packet)
    requires Sendable(p)
    ensures |Frame(mode, p)| >= 5 && Frame(mode, p)[0] == Flag(mode)
  {
    QuotedShape(AdvancedBody(p));
  }

  // ---- Reads ----

  /** The receiver over a run of reads, each put behind what the one before left. */
  function DemuxReads(mode: Mode, rest: seq<byte>, chunks: seq<seq<byte>>): Demuxed
    decreases |chunks|
  {
    if |chunks| == 0 then Demuxed([], rest)
    else
      var d := Demux(mode, rest + chunks[0]);
      Then(d, DemuxReads(mode, d.rest, chunks[1..]))
  }

  lemma {:induction false} RestStays(mode: Mode, s: seq<byte>)
    ensures Demux(mode, Demux(mode, s).rest) == Demuxed([], Demux(mode, s).rest)
    decreases |s|
  {
    hide BasicGood, BasicPacket, BasicSkips, BasicWaits, AdvancedGood, AdvancedPacket, AdvancedSkips, AdvancedWaits;
    hide BasicSize, AdvancedSize;
    if |s| > 0 {
      if mode.Basic? {
        if BasicSkips(s) {
          RestStays(mode, s[1..]);
        } else if !BasicWaits(s) {
          SizeWithin(s);
          RestStays(mode, s[BasicSize(s)..]);
        }
      } else {
        if AdvancedSkips(s) {
          RestStays(mode, s[1..]);
        } else if !AdvancedWaits(s) {
          RestStays(mode, s[AdvancedSize(s)..]);
        }
      }
    }
  }

  /** Any sequence of reads finds what one big read would. */
  lemma {:induction false} ReadsJoin(mode: Mode, rest: seq<byte>, chunks: seq<seq<byte>>)
    requires Demux(mode, rest) == Demuxed([], rest)
    ensures DemuxReads(mode, rest, chunks) == Demux(mode, rest + HdlcCodec.Flatten(chunks))
    decreases |chunks|
  {
    hide Demux, Then;
    if |chunks| == 0 {
      assert rest + HdlcCodec.Flatten(chunks) == rest;
    } else {
      var d, later := Demux(mode, rest + chunks[0]), HdlcCodec.Flatten(chunks[1..]);
      assert rest + HdlcCodec.Flatten(chunks) == (rest + chunks[0]) + later;
      ReadBoundaryIrrelevant(mode, rest + chunks[0], later);
      RestStays(mode, rest + chunks[0]);
      ReadsJoin(mode, d.rest, chunks[1..]);
    }
  }

  /** As long as only part of the stream has arrived, the packets found are the first ones
      sent; once everything has arrived they are all of them. */
  lemma {:induction false} StreamThroughReads(mode: Mode, ps: seq<Packet>, chunks: seq<seq<byte>>)
    requires AllSendable(ps) && HdlcCodec.Flatten(chunks) <= Stream(mode, ps)
    ensures DemuxReads(mode, [], chunks).packets <= AllReceived(ps)
    ensures HdlcCodec.Flatten(chunks) == Stream(mode, ps) ==> DemuxReads(mode, [], chunks).packets == AllReceived(ps)
  {
    hide Demux, Stream, HdlcCodec.Flatten;
    var got := HdlcCodec.Flatten(chunks);
    var later := Stream(mode, ps)[|got|..];
    NothingFound(mode);
    ReadsJoin(mode, [], chunks);
    assert [] + got == got && [] + Stream(mode, ps) == Stream(mode, ps);
    assert Stream(mode, ps) == got + later;
    StreamFound(mode, [], ps);
    ReadBoundaryIrrelevant(mode, got, later);
  }

  // ---- Channels ----

  /** What a side sends: data written to a channel, in frames of a type it chooses, or a
      control packet of its own. */
  datatype Op = Write(dlc: byte, control: byte, data: seq<byte>) | Control(packet: Packet)

  predicate IsData(control: byte) {
    control == DATA || control == DATA_ALT
  }

  /** Data may go out as 0xef or 0x03, with the poll/final bit or without. */
  predicate Legal(op: Op) {
    match op
    case Write(dlc, control, _) => dlc <= 63 && (control == 0xef || control == 0xff || control == 0x03 || control == 0x13)
    case Control(p) => Sendable(p) && !IsData(StripPf(p.control))
  }

  /** One write cut into frames of at most the negotiated size. */
  function Fragments(size: nat, dlc: byte, control: byte, data: seq<byte>): (ps: seq<Packet>)
    requires 0 < size <= MAX_INFO && dlc <= 63
    ensures forall i :: 0 <= i < |ps| ==> Sendable(ps[i])
    decreases |data|
  {
    if |data| == 0 then []
    else if |data| <= size then [Packet(dlc, control, data)]
    else [Packet(dlc, control, data[..size])] + Fragments(size, dlc, control, data[size..])
  }

  function PacketsOf(size: nat, op: Op): (ps: seq<Packet>)
    requires 0 < size <= MAX_INFO && Legal(op)
    ensures forall i :: 0 <= i < |ps| ==> Sendable(ps[i])
  {
    if op.Write? then Fragments(size, op.dlc, op.control, op.data) else [op.packet]
  }

  function AllPackets(size: nat, ops: seq<Op>): (ps: seq<Packet>)
    requires 0 < size <= MAX_INFO && forall i :: 0 <= i < |ops| ==> Legal(ops[i])
    ensures forall i :: 0 <= i < |ps| ==> Sendable(ps[i])
  {
    if |ops| == 0 then [] else PacketsOf(size, ops[0]) + AllPackets(size, ops[1..])
  }

  /** What a list of packets puts into one channel. */
  function Fed(ps: seq<Packet>, dlc: byte): seq<byte> {
    if |ps| == 0 then []
    else (if ps[0].dlc == dlc && IsData(ps[0].control) then ps[0].data else [])
         + Fed(ps[1..], dlc)
  }

  /** What was written to one channel. */
  function Written(ops: seq<Op>, dlc: byte): seq<byte> {
    if |ops| == 0 then []
    else (if ops[0].Write? && ops[0].dlc == dlc then ops[0].data else []) + Written(ops[1..], dlc)
  }

  lemma {:induction false} FedAppend(a: seq<Packet>, b: seq<Packet>, dlc: byte)
    ensures Fed(a + b, dlc) == Fed(a, dlc) + Fed(b, dlc)
    decreases |a|
  {
    if |a| == 0 {
      assert a + b == b;
    } else {
      assert (a + b)[1..] == a[1..] + b;
      FedAppend(a[1..], b, dlc);
    }
  }

  /** The types a receiver takes for data. */
  lemma DataTypes(control: byte)
    ensures IsData(StripPf(control)) <==> control == 0xef || control == 0xff || control == 0x03 || control == 0x13
  {
  }

  lemma {:induction false} FragmentsFed(size: nat, to: byte, control: byte, data: seq<byte>, dlc: byte)
    requires 0 < size <= MAX_INFO && to <= 63 && IsData(StripPf(control))
    ensures Fed(AllReceived(Fragments(size, to, control, data)), dlc) == if to == dlc then data else []
    decreases |data|
  {
    var ps, sent := AllReceived(Fragments(size, to, control, data)), StripPf(control);
    if |data| > size {
      FragmentsFed(size, to, control, data[size..], dlc);
      assert ps[0] == Packet(to, sent, data[..size]);
      assert ps[1..] == AllReceived(Fragments(size, to, control, data[size..]));
      assert data[..size] + data[size..] == data;
    } else if |data| > 0 {
      assert ps[0] == Packet(to, sent, data) && ps[1..] == [];
    }
  }

  lemma {:induction false} PacketsFed(size: nat, op: Op, dlc: byte)
    requires 0 < size <= MAX_INFO && Legal(op)
    ensures Fed(AllReceived(PacketsOf(size, op)), dlc) == if op.Write? && op.dlc == dlc then op.data else []
  {
    if op.Write? {
      DataTypes(op.control);
      FragmentsFed(size, op.dlc, op.control, op.data, dlc);
    } else {
      assert AllReceived([op.packet])[1..] == [];
    }
  }

  lemma {:induction false} AllPacketsFed(size: nat, ops: seq<Op>, dlc: byte)
    requires 0 < size <= MAX_INFO && forall i :: 0 <= i < |ops| ==> Legal(ops[i])
    ensures Fed(AllReceived(AllPackets(size, ops)), dlc) == Written(ops, dlc)
    decreases |ops|
  {
    hide PacketsOf, Fed, Legal;
    if |ops| == 0 {
      assert AllReceived(AllPackets(size, ops)) == [];
      FedNothing(dlc);
    } else {
      var first, rest := AllReceived(PacketsOf(size, ops[0])), AllReceived(AllPackets(size, ops[1..]));
      PacketsFed(size, ops[0], dlc);
      AllPacketsFed(size, ops[1..], dlc);
      assert AllReceived(AllPackets(size, ops)) == first + rest;
      FedAppend(first, rest, dlc);
    }
  }

  lemma {:induction false} FedNothing(dlc: byte)
    ensures Fed([], dlc) == []
  {
  }

  lemma {:induction false} FedPrefix(a: seq<Packet>, b: seq<Packet>, dlc: byte)
    requires a <= b
    ensures Fed(a, dlc) <= Fed(b, dlc)
  {
    assert b == a + b[|a|..];
    FedAppend(a, b[|a|..], dlc);
  }

  // ---- The receive buffer ----

  /** Frames of at most this many bytes. */
  ghost predicate FramesWithin(mode: Mode, ps: seq<Packet>, bound: nat) {
    AllSendable(ps) && forall i :: 0 <= i < |ps| ==> |Frame(mode, ps[i])| <= bound
  }

  /** Between reads less than one frame is kept, so a receive buffer larger than every
      frame never fills up for good. */
  lemma {:induction false} KeptIsShort(mode: Mode, lead: seq<byte>, ps: seq<Packet>, got: seq<byte>, bound: nat)
    requires FramesWithin(mode, ps, bound) && bound > 1 && got <= Stream(mode, ps)
    requires lead == [] || lead == [Flag(mode)]
    ensures |Demux(mode, lead + got).rest| < bound
    decreases |ps|
  {
    hide Demux, Frame;
    if |got| == 0 {
      assert lead + got == lead;
      FlagAlone(mode);
      NothingFound(mode);
    } else {
      var f, rest := Frame(mode, ps[0]), Stream(mode, ps[1..]);
      FrameStarts(mode, ps[0]);
      assert got[0] == f[0] by { assert got[0] == Stream(mode, ps)[0]; }
      LeadingFlag(mode, got);
      assert lead == [] ==> lead + got == got;
      if |got| < |f| {
        RestIsTail(mode, got);
      } else {
        var more := got[|f|..];
        assert got == f + more by { assert Stream(mode, ps)[..|f|] == f; }
        assert more <= rest by { assert Stream(mode, ps)[|f|..] == rest; }
        FrameFound(mode, ps[0], more);
        KeptIsShort(mode, [Flag(mode)], ps[1..], more, bound);
      }
    }
  }
}
