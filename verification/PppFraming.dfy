/** How a PPP packet becomes a frame for the HDLC layer: address, control and protocol
    fields, compressed or not (sections 6.5 and 6.6 of RFC 1661). */
module PppFraming {
  import opened Bytes
  import opened Wrappers
  import opened PppLink

  function High(protocol: uint16): byte {
    protocol / 256
  }

  function Low(protocol: uint16): byte {
    protocol % 256
  }

  /** A packet as it is built: all four header bytes, then the information. */
  function Packed(protocol: uint16, info: seq<byte>): seq<byte> {
    [0xff, 0x03, High(protocol), Low(protocol)] + info
  }

  /** The frame handed to the HDLC layer. LCP is never compressed; the high byte of the
      protocol number is dropped only if it is zero. */
  function FrameOf(acfc: bool, pfc: bool, protocol: uint16, info: seq<byte>): seq<byte> {
    if protocol == LCP_PROTOCOL then Packed(protocol, info)
    else (if acfc then [] else [0xff, 0x03])
         + (if pfc && High(protocol) == 0 then [Low(protocol)] else [High(protocol), Low(protocol)])
         + info
  }

  /** The header in each form: all of it for LCP; for other protocols without ff 03 where
      address and control are compressed, and without a high byte of zero where the
      protocol field is. */
  lemma FormsAre(protocol: uint16, info: seq<byte>)
    ensures forall acfc, pfc :: FrameOf(acfc, pfc, 0xc021, info) == [0xff, 0x03, 0xc0, 0x21] + info
    ensures protocol != 0xc021 ==>
      var hi, lo := protocol / 256, protocol % 256;
      && FrameOf(false, false, protocol, info) == [0xff, 0x03, hi, lo] + info
      && FrameOf(true, false, protocol, info) == [hi, lo] + info
      && FrameOf(false, true, protocol, info) == [0xff, 0x03] + (if hi == 0 then [lo] else [hi, lo]) + info
      && FrameOf(true, true, protocol, info) == (if hi == 0 then [lo] else [hi, lo]) + info
  {
  }

  /** How a header is read: ff 03 is skipped, an odd byte is a protocol number by itself, an
      even one the high byte of a number of two. */
  lemma HeaderRead(hi: byte, lo: byte, info: seq<byte>)
    ensures hi % 2 == 0 ==> ParseHeader([0xff, 0x03, hi, lo] + info) == Some(Header(hi as int * 256 + lo, 4))
    ensures hi % 2 == 0 ==> ParseHeader([hi, lo] + info) == Some(Header(hi as int * 256 + lo, 2))
    ensures lo % 2 == 1 ==> ParseHeader([0xff, 0x03, lo] + info) == Some(Header(lo, 3))
    ensures lo % 2 == 1 && lo != 0xff ==> ParseHeader([lo] + info) == Some(Header(lo, 1))
    ensures hi % 2 == 0 ==> ParseHeader([0xff, 0x03, hi]) == None && ParseHeader([hi]) == None
    ensures ParseHeader([0xff, 0x03]) == None && ParseHeader([]) == None
  {
  }

  predicate Recovered(acfc: bool, pfc: bool, protocol: uint16, info: seq<byte>) {
    var frame := FrameOf(acfc, pfc, protocol, info);
    var h := ParseHeader(frame);
    h.Some? && h.value.protocol == protocol && frame[h.value.offset..] == info
  }

  /** Numbers the compressed forms can carry: the high byte even, and if it is zero the low
      byte odd and not the address byte. */
  predicate Carried(protocol: uint16) {
    High(protocol) % 2 == 0 && (High(protocol) == 0 ==> Low(protocol) % 2 == 1 && Low(protocol) != 0xff)
  }

  lemma CarriedRecovered(acfc: bool, pfc: bool, protocol: uint16, info: seq<byte>)
    requires Carried(protocol)
    ensures Recovered(acfc, pfc, protocol, info)
  {
    var frame := FrameOf(acfc, pfc, protocol, info);
    var head := |frame| - |info|;
    assert frame[head..] == info;
    assert ParseHeader(frame) == Some(Header(protocol, head));
  }

  lemma LostInOneForm(protocol: uint16)
    requires !Carried(protocol)
    ensures !Recovered(false, false, protocol, [3]) || !Recovered(true, true, protocol, [3])
  {
    if High(protocol) % 2 == 1 {
      assert ParseHeader(FrameOf(false, false, protocol, [3])) == Some(Header(High(protocol), 3));
      assert |FrameOf(false, false, protocol, [3])[3..]| == 2;
    } else if Low(protocol) == 0xff {
      assert FrameOf(true, true, protocol, [3]) == [0xff, 0x03];
    } else {
      assert FrameOf(true, true, protocol, [3]) == [Low(protocol), 3];
      assert ParseHeader(FrameOf(true, true, protocol, [3])) == Some(Header(Low(protocol) as int * 256 + 3, 2));
    }
  }

  /** Every packet of a protocol survives every setting of the two compressions if and only
      if its number can be carried. */
  lemma HeaderRoundTripIff(protocol: uint16)
    ensures Carried(protocol) <==> forall acfc: bool, pfc: bool, info: seq<byte> :: Recovered(acfc, pfc, protocol, info)
  {
    if Carried(protocol) {
      forall acfc: bool, pfc: bool, info: seq<byte> ensures Recovered(acfc, pfc, protocol, info) {
        CarriedRecovered(acfc, pfc, protocol, info);
      }
    } else {
      LostInOneForm(protocol);
    }
  }

  lemma LinkProtocolsCarried()
    ensures Carried(LCP_PROTOCOL) && Carried(CHAP_PROTOCOL) && Carried(IPCP_PROTOCOL) && Carried(IP_PROTOCOL)
  {
  }

  /** A frame given to the HDLC layer, with the escape map in force at that moment. */
  datatype Sent = Sent(accm: uint32, bytes: seq<byte>)

  const ALL_ESCAPED: uint32 := 0xffff_ffff

  /** Link configuration, termination and Code-Reject packets. */
  predicate Basic(code: byte) {
    0 < code < 8
  }

  /** The transmit half of a link. */
  class Transmitter {
    var xmitAccm: uint32
    var xmitAcfc: bool
    var xmitPfc: bool
    var staPending: bool
    var sent: seq<Sent>

    constructor ()
      ensures sent == [] && xmitAccm == ALL_ESCAPED && !xmitAcfc && !xmitPfc && !staPending
    {
      xmitAccm, xmitAcfc, xmitPfc, staPending, sent := ALL_ESCAPED, false, false, false, [];
    }

    method HdlcSend(bytes: seq<byte>, ok: bool)
      modifies this`sent
      ensures sent == old(sent) + if ok then [Sent(xmitAccm, bytes)] else []
    {
      if ok {
        sent := sent + [Sent(xmitAccm, bytes)];
      }
    }

    method SendLcpFrame(packet: array<byte>, infolen: nat, ok: bool)
      requires packet.Length == infolen + 4 && infolen > 0
      modifies this`xmitAccm, this`staPending, this`sent, packet
      ensures xmitAccm == old(xmitAccm)
      ensures var code := old(packet[4]); var bytes := [0xff, 0x03] + old(packet[2..]);
        && sent == old(sent) + (if ok then [Sent(if 1 <= code <= 7 then 0xffff_ffff else old(xmitAccm), bytes)] else [])
        && staPending == (old(staPending) || (ok && code == 6))
    {
      var code := packet[4];
      var accm := xmitAccm;
      var sta := code == 6;
      if Basic(code) {
        xmitAccm := ALL_ESCAPED;
      }
      packet[0] := 0xff;
      packet[1] := 0x03;
      assert packet[..] == [0xff, 0x03] + old(packet[2..]);
      HdlcSend(packet[..], ok);
      if ok && sta {
        staPending := true;
      }
      if Basic(code) {
        xmitAccm := accm;
      }
    }

    method SendAcfcFrame(packet: array<byte>, infolen: nat, ok: bool)
      requires packet.Length == infolen + 4
      modifies this`sent
      ensures sent == old(sent) + if ok then [Sent(xmitAccm, packet[if xmitAcfc then 2 else 0..])] else []
    {
      var offset := if xmitAcfc then 2 else 0;
      HdlcSend(packet[offset..], ok);
    }

    method SendAcfcPfcFrame(packet: array<byte>, infolen: nat, ok: bool)
      requires packet.Length == infolen + 4
      modifies this`sent, packet
      ensures var p := old(packet[..]);
        var bytes := if xmitAcfc && xmitPfc then p[3..] else if xmitAcfc then p[2..]
                     else if xmitPfc then p[..2] + p[3..] else p;
        sent == old(sent) + if ok then [Sent(xmitAccm, bytes)] else []
    {
      var offset := 0;
      ghost var p := packet[..];
      if xmitAcfc && xmitPfc {
        offset := 3;
      } else if xmitAcfc {
        offset := 2;
      } else if xmitPfc {
        packet[2] := packet[1];
        packet[1] := packet[0];
        offset := 1;
        assert packet[1..] == p[..2] + p[3..];
      }
      HdlcSend(packet[offset..], ok);
    }

    /** A freshly built packet leaves in the form its protocol and the settings ask for, and
        the escape map is the same afterwards. */
    method Transmit(packet: array<byte>, infolen: nat, ok: bool)
      requires packet.Length == infolen + 4 && infolen > 0 && packet[0] == 0xff && packet[1] == 0x03
      modifies this`xmitAccm, this`staPending, this`sent, packet
      ensures xmitAccm == old(xmitAccm)
      ensures var protocol := old(packet[2]) as int * 256 + old(packet[3]); var info := old(packet[4..]);
        && sent == old(sent) + (if ok then
             [Sent(if protocol == 0xc021 && 1 <= info[0] <= 7 then 0xffff_ffff else old(xmitAccm),
                   FrameOf(xmitAcfc, xmitPfc, protocol, info))] else [])
        && staPending == (old(staPending) || (ok && protocol == 0xc021 && info[0] == 6))
    {
      var protocol := packet[2] as int * 256 + packet[3];
      ghost var info := packet[4..];
      assert packet[..] == Packed(protocol, info);
      if protocol == LCP_PROTOCOL {
        assert [0xff, 0x03] + packet[2..] == packet[..];
        SendLcpFrame(packet, infolen, ok);
        return;
      }
      FrameSlices(xmitAcfc, xmitPfc, protocol, info, packet[..]);
      assert packet[2..] == packet[..][2..] && packet[0..] == packet[..];
      if High(protocol) == 0 {
        SendAcfcPfcFrame(packet, infolen, ok);
      } else {
        SendAcfcFrame(packet, infolen, ok);
      }
    }
  }

  /** Each form is the packet with some header bytes left out. */
  lemma FrameSlices(acfc: bool, pfc: bool, protocol: uint16, info: seq<byte>, p: seq<byte>)
    requires protocol != LCP_PROTOCOL && p == Packed(protocol, info)
    ensures FrameOf(acfc, pfc, protocol, info) ==
            if High(protocol) != 0 then (if acfc then p[2..] else p)
            else if acfc && pfc then p[3..] else if acfc then p[2..]
            else if pfc then p[..2] + p[3..] else p
  {
    assert p[..2] == [0xff, 0x03] && p[3..] == [Low(protocol)] + info;
    assert p[2..] == [High(protocol), Low(protocol)] + info;
  }
}
