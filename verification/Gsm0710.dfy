/** The two frame formats of the GSM 07.10 multiplexer (section 5.2 of 3GPP TS 27.010):
    how a frame is written, and what packets are found in a stream of received bytes. */
module Gsm0710 {
  import opened Bytes
  import HdlcCodec
  import opened MuxCrc

  datatype Mode = Basic | Advanced

  datatype Packet = Packet(dlc: byte, control: byte, data: seq<byte>)

  const DATA: byte := 0xef
  const DATA_ALT: byte := 0x03

  const BASIC_FLAG: byte := 0xf9
  const ADVANCED_FLAG: byte := 0x7e
  const QUOTE: byte := 0x7d

  const MAX_INFO: nat := 32767

  function Flag(mode: Mode): byte {
    if mode.Basic? then BASIC_FLAG else ADVANCED_FLAG
  }

  /** A type byte without the poll/final bit. */
  function StripPf(control: byte): byte {
    if (control / 16) % 2 == 1 then control - 16 else control
  }

  /** What fits into one frame. */
  predicate Sendable(p: Packet) {
    p.dlc <= 63 && |p.data| <= MAX_INFO
  }

  /** The packet a receiver makes of it: the poll/final bit is dropped. */
  function Received(p: Packet): Packet {
    p.(control := StripPf(p.control))
  }

  function Address(dlc: byte): byte
    requires dlc <= 63
  {
    dlc * 4 + 3
  }

  // ---- Writing ----

  /** Address, type and a length of one or two bytes. */
  function BasicHeader(p: Packet): seq<byte>
    requires Sendable(p)
  {
    [Address(p.dlc), p.control] +
    (if |p.data| <= 127 then [|p.data| * 2 + 1] else [(|p.data| * 2) % 256, |p.data| / 128])
  }

  function BasicFrame(p: Packet): seq<byte>
    requires Sendable(p)
  {
    [BASIC_FLAG] + BasicHeader(p) + p.data + [Fcs(BasicHeader(p))] + [BASIC_FLAG]
  }

  function QuoteByte(c: byte): seq<byte> {
    if c == ADVANCED_FLAG || c == QUOTE then [QUOTE, HdlcCodec.Toggle(c)] else [c]
  }

  function QuoteAll(data: seq<byte>): seq<byte> {
    if |data| == 0 then [] else QuoteByte(data[0]) + QuoteAll(data[1..])
  }

  /** Everything a frame carries, before quoting. */
  function AdvancedBody(p: Packet): seq<byte>
    requires Sendable(p)
  {
    [Address(p.dlc), p.control] + p.data + [Fcs([Address(p.dlc), p.control])]
  }

  function AdvancedFrame(p: Packet): seq<byte>
    requires Sendable(p)
  {
    [ADVANCED_FLAG] + QuoteAll(AdvancedBody(p)) + [ADVANCED_FLAG]
  }

  function Frame(mode: Mode, p: Packet): seq<byte>
    requires Sendable(p)
  {
    if mode.Basic? then BasicFrame(p) else AdvancedFrame(p)
  }

  // ---- Finding packets ----

  /** The packets found in a stretch of bytes, and the bytes kept for later. */
  datatype Demuxed = Demuxed(packets: seq<Packet>, rest: seq<byte>)

  function HeaderSize(s: seq<byte>): nat
    requires |s| >= 4
  {
    if s[3] % 2 == 1 then 3 else 4
  }

  function InfoLen(s: seq<byte>): nat
    requires |s| >= 4 && (s[3] % 2 == 1 || |s| >= 5)
  {
    if s[3] % 2 == 1 then s[3] / 2 else s[3] / 2 + s[4] as int * 128
  }

  /** Bytes that cannot start a frame: no flag, a flag before a flag, an invalid address. */
  predicate BasicSkips(s: seq<byte>)
    requires |s| > 0
  {
    s[0] != BASIC_FLAG || (|s| >= 2 && s[1] == BASIC_FLAG) || (|s| >= 4 && s[1] % 2 == 0)
  }

  predicate BasicWaits(s: seq<byte>) {
    |s| < 4 || (s[3] % 2 == 0 && |s| < 5) || |s| < HeaderSize(s) + 3 + InfoLen(s)
  }

  function BasicSize(s: seq<byte>): nat
    requires !BasicWaits(s)
  {
    HeaderSize(s) + InfoLen(s) + 2
  }

  predicate BasicGood(s: seq<byte>)
    requires !BasicWaits(s)
  {
    CheckFcs(s[1..1 + HeaderSize(s)], s[BasicSize(s) - 1]) && s[BasicSize(s)] == BASIC_FLAG
  }

  function BasicPacket(s: seq<byte>): Packet
    requires !BasicWaits(s)
  {
    Packet(s[1] / 4, StripPf(s[2]), s[1 + HeaderSize(s)..1 + HeaderSize(s) + InfoLen(s)])
  }

  function Prepend(p: Packet, d: Demuxed): Demuxed {
    Demuxed([p] + d.packets, d.rest)
  }

  function BasicDemux(s: seq<byte>): Demuxed
    decreases |s|
  {
    if |s| == 0 then Demuxed([], [])
    else if BasicSkips(s) then BasicDemux(s[1..])
    else if BasicWaits(s) then Demuxed([], s)
    else if BasicGood(s) then Prepend(BasicPacket(s), BasicDemux(s[BasicSize(s)..]))
    else BasicDemux(s[BasicSize(s)..])
  }

  function Unquote(s: seq<byte>): (r: seq<byte>)
    ensures |r| <= |s|
  {
    if |s| == 0 then []
    else if s[0] != QUOTE then [s[0]] + Unquote(s[1..])
    else if |s| == 1 then []
    else [HdlcCodec.Toggle(s[1])] + Unquote(s[2..])
  }

  /** The first flag at or behind a position, or the end. */
  function FlagFrom(s: seq<byte>, i: nat): (e: nat)
    requires i <= |s|
    ensures i <= e <= |s| && (e < |s| ==> s[e] == ADVANCED_FLAG)
    ensures forall k :: i <= k < e ==> s[k] != ADVANCED_FLAG
    decreases |s| - i
  {
    if i == |s| || s[i] == ADVANCED_FLAG then i else FlagFrom(s, i + 1)
  }

  predicate AdvancedSkips(s: seq<byte>)
    requires |s| > 0
  {
    s[0] != ADVANCED_FLAG || (|s| >= 2 && s[1] == ADVANCED_FLAG)
  }

  predicate AdvancedWaits(s: seq<byte>) {
    |s| < 1 || FlagFrom(s, 1) == |s|
  }

  function AdvancedSize(s: seq<byte>): (n: nat)
    requires !AdvancedWaits(s)
    ensures 1 <= n < |s| && s[n] == ADVANCED_FLAG
  {
    FlagFrom(s, 1)
  }

  /** The unquoted bytes between two flags. */
  function Segment(s: seq<byte>): seq<byte>
    requires !AdvancedWaits(s)
  {
    Unquote(s[1..AdvancedSize(s)])
  }

  predicate AdvancedGood(s: seq<byte>)
    requires !AdvancedWaits(s)
  {
    var body := Segment(s);
    |body| >= 3 && CheckFcs(body[..2], body[|body| - 1])
  }

  function AdvancedPacket(s: seq<byte>): Packet
    requires !AdvancedWaits(s) && |Segment(s)| >= 3
  {
    var body := Segment(s);
    Packet(body[0] / 4, StripPf(body[1]), body[2..|body| - 1])
  }

  function AdvancedDemux(s: seq<byte>): Demuxed
    decreases |s|
  {
    if |s| == 0 then Demuxed([], [])
    else if AdvancedSkips(s) then AdvancedDemux(s[1..])
    else if AdvancedWaits(s) then Demuxed([], s)
    else if AdvancedGood(s) then Prepend(AdvancedPacket(s), AdvancedDemux(s[AdvancedSize(s)..]))
    else AdvancedDemux(s[AdvancedSize(s)..])
  }

  function Demux(mode: Mode, s: seq<byte>): Demuxed {
    if mode.Basic? then BasicDemux(s) else AdvancedDemux(s)
  }

  // ---- Reads may be split anywhere ----

  /** Packets found earlier, then those found in what was kept and what came after. */
  function Then(d: Demuxed, e: Demuxed): Demuxed {
    Demuxed(d.packets + e.packets, e.rest)
  }

  lemma ThenPrepend(p: Packet, d: Demuxed, e: Demuxed)
    ensures Then(Prepend(p, d), e) == Prepend(p, Then(d, e))
    ensures Then(Demuxed([], d.rest), e) == e
  {
  }

  lemma BasicLocal(a: seq<byte>, b: seq<byte>)
    requires |a| > 0
    ensures BasicSkips(a) ==> BasicSkips(a + b)
    ensures !BasicSkips(a) && !BasicWaits(a) ==>
      && !BasicSkips(a + b) && !BasicWaits(a + b) && BasicSize(a + b) == BasicSize(a)
      && BasicGood(a + b) == BasicGood(a) && BasicPacket(a + b) == BasicPacket(a)
  {
    hide CheckFcs;
    if !BasicSkips(a) && !BasicWaits(a) {
      assert (a + b)[1..1 + HeaderSize(a)] == a[1..1 + HeaderSize(a)];
    }
  }

  lemma {:induction false} BasicSplit(a: seq<byte>, b: seq<byte>)
    ensures BasicDemux(a + b) == Then(BasicDemux(a), BasicDemux(BasicDemux(a).rest + b))
    decreases |a|
  {
    hide BasicGood, BasicPacket, BasicSkips, BasicWaits, BasicSize;
    if |a| == 0 {
      assert a + b == b && [] + b == b;
    } else {
      BasicLocal(a, b);
      if BasicSkips(a) {
        assert (a + b)[1..] == a[1..] + b;
        BasicSplit(a[1..], b);
      } else if !BasicWaits(a) {
        SizeWithin(a);
        var n := BasicSize(a);
        assert (a + b)[n..] == a[n..] + b;
        BasicSplit(a[n..], b);
        ThenPrepend(BasicPacket(a), BasicDemux(a[n..]), BasicDemux(BasicDemux(a[n..]).rest + b));
      }
    }
  }

  lemma SizeWithin(s: seq<byte>)
    requires !BasicWaits(s)
    ensures 0 < BasicSize(s) <= |s|
  {
  }

  lemma AdvancedLocal(a: seq<byte>, b: seq<byte>)
    requires |a| > 0
    ensures AdvancedSkips(a) ==> AdvancedSkips(a + b)
    ensures !AdvancedSkips(a) && !AdvancedWaits(a) ==>
      && !AdvancedSkips(a + b) && !AdvancedWaits(a + b) && AdvancedSize(a + b) == AdvancedSize(a)
      && AdvancedGood(a + b) == AdvancedGood(a) && (AdvancedGood(a) ==> AdvancedPacket(a + b) == AdvancedPacket(a))
  {
    hide CheckFcs, Unquote;
    if !AdvancedSkips(a) && !AdvancedWaits(a) {
      var n := AdvancedSize(a);
      FlagFirst(a + b, 1, n);
      assert (a + b)[1..n] == a[1..n];
    }
  }

  lemma {:induction false} FlagFirst(s: seq<byte>, i: nat, n: nat)
    requires i <= n < |s| && s[n] == ADVANCED_FLAG
    requires forall k :: i <= k < n ==> s[k] != ADVANCED_FLAG
    ensures FlagFrom(s, i) == n
    decreases n - i
  {
    if i < n {
      FlagFirst(s, i + 1, n);
    }
  }

  lemma {:induction false} AdvancedSplit(a: seq<byte>, b: seq<byte>)
    ensures AdvancedDemux(a + b) == Then(AdvancedDemux(a), AdvancedDemux(AdvancedDemux(a).rest + b))
    decreases |a|
  {
    hide AdvancedPacket, AdvancedSkips, AdvancedWaits, AdvancedSize, CheckFcs, Unquote;
    if |a| == 0 {
      assert a + b == b && [] + b == b;
    } else {
      AdvancedLocal(a, b);
      if AdvancedSkips(a) {
        assert (a + b)[1..] == a[1..] + b;
        AdvancedSplit(a[1..], b);
      } else if !AdvancedWaits(a) {
        var n := AdvancedSize(a);
        assert (a + b)[n..] == a[n..] + b;
        AdvancedSplit(a[n..], b);
        if AdvancedGood(a) {
          ThenPrepend(AdvancedPacket(a), AdvancedDemux(a[n..]), AdvancedDemux(AdvancedDemux(a[n..]).rest + b));
        }
      }
    }
  }

  /** Whatever bytes arrive, garbage and damaged frames included, the packets found do not
      depend on where one read ends and the next begins. */
  lemma ReadBoundaryIrrelevant(mode: Mode, a: seq<byte>, b: seq<byte>)
    ensures Demux(mode, a + b) == Then(Demux(mode, a), Demux(mode, Demux(mode, a).rest + b))
  {
    hide BasicDemux, AdvancedDemux;
    BasicSplit(a, b);
    AdvancedSplit(a, b);
  }

  lemma {:induction false} RestIsTail(mode: Mode, s: seq<byte>)
    ensures |Demux(mode, s).rest| <= |s|
    ensures Demux(mode, s).rest == s[|s| - |Demux(mode, s).rest|..]
    decreases |s|
  {
    hide BasicGood, BasicPacket, BasicSkips, BasicWaits, AdvancedGood, AdvancedPacket, AdvancedSkips, AdvancedWaits;
    hide BasicSize, AdvancedSize;
    if |s| > 0 {
      if mode.Basic? {
        if BasicSkips(s) {
          RestIsTail(mode, s[1..]);
        } else if !BasicWaits(s) {
          SizeWithin(s);
          RestIsTail(mode, s[BasicSize(s)..]);
        }
      } else {
        if AdvancedSkips(s) {
          RestIsTail(mode, s[1..]);
        } else if !AdvancedWaits(s) {
          RestIsTail(mode, s[AdvancedSize(s)..]);
        }
      }
    }
  }
}
