/** Framing and the HDLC layer together: the packets of one side of a link, as they come out
    of the other. */
module PppWire {
  import opened Bytes
  import opened Wrappers
  import HdlcCodec
  import PppFraming
  import PppLink

  /** A packet on its way, with the settings in force when it was sent. */
  datatype Outgoing = Outgoing(protocol: uint16, info: seq<byte>, acfc: bool, pfc: bool, lead: bool, accm: HdlcCodec.XmitAccm)

  /** What the HDLC layer was given. */
  function Given(o: Outgoing): HdlcCodec.Sent {
    HdlcCodec.Sent(o.lead, o.accm, PppFraming.FrameOf(o.acfc, o.pfc, o.protocol, o.info))
  }

  function AllGiven(os: seq<Outgoing>): (frames: seq<HdlcCodec.Sent>)
    ensures |frames| == |os|
  {
    seq(|os|, i requires 0 <= i < |os| => Given(os[i]))
  }

  /** This payload is taken apart into protocol and information again. */
  predicate ReadAs(payload: seq<byte>, o: Outgoing) {
    var h := PppLink.ParseHeader(payload);
    h.Some? && h.value.protocol == o.protocol && payload[h.value.offset..] == o.info
  }

  /** Whatever the settings and however the bytes arrive, the receiver gets the packets of
      every protocol whose number can be carried, first to last: those of which everything
      has arrived, and all of them in the end. */
  lemma {:induction false} PacketsArrive(cfg: HdlcCodec.RxConfig, os: seq<Outgoing>, chunks: seq<seq<byte>>)
    requires HdlcCodec.Acceptable(cfg, AllGiven(os)) && HdlcCodec.Flatten(chunks) <= HdlcCodec.Stream(AllGiven(os))
    requires forall i :: 0 <= i < |os| ==> PppFraming.Carried(os[i].protocol)
    ensures var got := HdlcCodec.FeedChunks(cfg, HdlcCodec.FRESH, chunks).delivered;
      && |got| <= |os| && (forall i :: 0 <= i < |got| ==> ReadAs(got[i], os[i]))
      && (HdlcCodec.Flatten(chunks) == HdlcCodec.Stream(AllGiven(os)) ==> |got| == |os|)
  {
    hide HdlcCodec.Acceptable, HdlcCodec.Stream, HdlcCodec.Flatten, HdlcCodec.FeedChunks, PppFraming.FrameOf, PppFraming.Carried;
    hide ReadAs;
    HdlcCodec.ChunkedTransfer(cfg, AllGiven(os), chunks);
    var got := HdlcCodec.FeedChunks(cfg, HdlcCodec.FRESH, chunks).delivered;
    forall i | 0 <= i < |got| ensures ReadAs(got[i], os[i]) {
      assert got[i] == HdlcCodec.Payloads(AllGiven(os))[i] == Given(os[i]).payload;
      GivenReads(os[i]);
    }
  }

  lemma GivenReads(o: Outgoing)
    requires PppFraming.Carried(o.protocol)
    ensures ReadAs(Given(o).payload, o)
  {
    hide PppFraming.FrameOf, PppFraming.Carried, PppLink.ParseHeader;
    PppFraming.CarriedRecovered(o.acfc, o.pfc, o.protocol, o.info);
  }
}
