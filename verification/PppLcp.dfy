/** The options LCP negotiates and the link parameters they set. */
module PppLcpOptions {
  import opened Bytes
  import opened Wrappers
  import opened PppOptions
  import opened PppIpcpOptions

  datatype LcpOption = AccmOption | MruOption | AcfcOption | PfcOption

  /** What LCP itself asks for. */
  datatype Lcp = Lcp(asked: set<LcpOption>, accm: uint32, mru: uint16)

  /** What negotiation has settled about the link. */
  datatype Params = Params(xmitAccm: uint32, recvAccm: uint32, mtu: uint16, acfc: bool, pfc: bool, chap: bool)

  const MRU: byte := 1
  const ACCM: byte := 2
  const AUTH_PROTO: byte := 3
  const MAGIC_NUMBER: byte := 5
  const PFC: byte := 7
  const ACFC: byte := 8

  const CHAP_PROTOCOL: uint16 := 0xc223
  const MD5: byte := 5

  function Short(x: uint16): seq<byte> {
    [x / 256, x % 256]
  }

  function Long(x: uint32): seq<byte> {
    Short(x / 0x1_0000) + Short(x % 0x1_0000)
  }

  /** The number the first two bytes of a value stand for, high byte first. */
  function HostShort(v: seq<byte>): uint16 {
    if |v| >= 2 then v[0] as int * 256 + v[1] else 0
  }

  function HostLong(v: seq<byte>): uint32 {
    if |v| >= 4 then HostShort(v) * 0x1_0000 + HostShort(v[2..]) else 0
  }

  lemma NumbersRoundTrip(x: uint16, y: uint32)
    ensures HostShort(Short(x)) == x && HostLong(Long(y)) == y
  {
    assert Long(y)[2..] == Short(y % 0x1_0000);
  }

  function Wanted(d: Lcp, o: LcpOption): seq<Opt> {
    if o !in d.asked then [] else
    match o
    case AccmOption => [Opt(ACCM, Long(d.accm))]
    case MruOption => [Opt(MRU, Short(d.mru))]
    case AcfcOption => [Opt(ACFC, [])]
    case PfcOption => [Opt(PFC, [])]
  }

  function Requested(d: Lcp): (r: seq<Opt>)
    ensures forall i :: 0 <= i < |r| ==> Printable(r[i])
  {
    Wanted(d, AccmOption) + Wanted(d, MruOption) + Wanted(d, AcfcOption) + Wanted(d, PfcOption)
  }

  /** The option bytes of the next Configure-Request. */
  function Generate(d: Lcp): seq<byte> {
    (if AccmOption in d.asked then [ACCM, 6] + Long(d.accm) else []) +
    (if MruOption in d.asked then [MRU, 4] + Short(d.mru) else []) +
    (if AcfcOption in d.asked then [ACFC, 2] else []) +
    (if PfcOption in d.asked then [PFC, 2] else [])
  }

  lemma WantedPrints(d: Lcp, o: LcpOption)
    ensures forall i :: 0 <= i < |Wanted(d, o)| ==> Printable(Wanted(d, o)[i])
    ensures o in d.asked ==> Print(Wanted(d, o)) == PrintOne(Wanted(d, o)[0])
    ensures o !in d.asked ==> Print(Wanted(d, o)) == []
  {
    if o in d.asked {
      assert Wanted(d, o)[1..] == [];
      assert PrintOne(Wanted(d, o)[0]) + [] == PrintOne(Wanted(d, o)[0]);
    }
  }

  lemma RequestPrints(d: Lcp)
    ensures Generate(d) == Print(Requested(d))
  {
    WantedPrints(d, AccmOption);
    WantedPrints(d, MruOption);
    WantedPrints(d, AcfcOption);
    WantedPrints(d, PfcOption);
    assert AcfcOption in d.asked ==> PrintOne(Wanted(d, AcfcOption)[0]) == [ACFC, 2];
    assert PfcOption in d.asked ==> PrintOne(Wanted(d, PfcOption)[0]) == [PFC, 2];
    assert AccmOption in d.asked ==> PrintOne(Wanted(d, AccmOption)[0]) == [ACCM, 6] + Long(d.accm);
    assert MruOption in d.asked ==> PrintOne(Wanted(d, MruOption)[0]) == [MRU, 4] + Short(d.mru);
    hide Print, PrintOne, Wanted, Long, Short;
    var a1 := Wanted(d, AccmOption) + Wanted(d, MruOption);
    var a2 := a1 + Wanted(d, AcfcOption);
    PrintAppend(Wanted(d, AccmOption), Wanted(d, MruOption));
    PrintAppend(a1, Wanted(d, AcfcOption));
    PrintAppend(a2, Wanted(d, PfcOption));
  }

  lemma RequestRoundTrip(d: Lcp)
    ensures Parse(Generate(d)) == Requested(d) && WellFormed(Generate(d)) && |Generate(d)| <= 14
  {
    assert |Generate(d)| <= 14;
    hide Parse, Print, WellFormed, Generate, Requested;
    RequestPrints(d);
    ParsePrint(Requested(d));
  }

  // ---- Answers to our requests ----

  /** An Ack sets the receive map to what was asked for. */
  function Acked(p: Params, opts: seq<Opt>): Params
    decreases |opts|
  {
    if |opts| == 0 then p
    else Acked(if opts[0].kind == ACCM then p.(recvAccm := HostLong(opts[0].value)) else p, opts[1..])
  }

  /** Only a smaller receive unit is taken over; Rejects change nothing. */
  function Naked(d: Lcp, opts: seq<Opt>): Lcp
    decreases |opts|
  {
    if |opts| == 0 then d
    else Naked(if opts[0].kind == MRU && HostShort(opts[0].value) < 2048
               then d.(mru := HostShort(opts[0].value), asked := d.asked + {MruOption}) else d, opts[1..])
  }

  lemma {:induction false} AckLeavesMap(p: Params, opts: seq<Opt>)
    requires forall i :: 0 <= i < |opts| ==> opts[i].kind != ACCM
    ensures Acked(p, opts) == p
    decreases |opts|
  {
    if |opts| > 0 {
      AckLeavesMap(p, opts[1..]);
    }
  }

  /** An accepted Ack of our own request puts exactly the requested map into force. */
  lemma {:induction false} AckSetsRequestedMap(p: Params, d: Lcp)
    ensures Acked(p, Parse(Generate(d))) == if AccmOption in d.asked then p.(recvAccm := d.accm) else p
  {
    hide Parse, WellFormed, Generate, Long, HostLong;
    RequestRoundTrip(d);
    var r := Requested(d);
    NumbersRoundTrip(0, d.accm);
    if AccmOption in d.asked {
      assert r[0] == Opt(ACCM, Long(d.accm));
      assert r[1..] == Wanted(d, MruOption) + Wanted(d, AcfcOption) + Wanted(d, PfcOption);
      AckLeavesMap(p.(recvAccm := d.accm), r[1..]);
    } else {
      AckLeavesMap(p, r);
    }
  }

  // ---- Requests of the peer ----

  const SUGGESTED_AUTH: seq<byte> := [AUTH_PROTO, 5, 0xc2, 0x23, MD5]

  predicate SupportedAuth(v: seq<byte>) {
    |v| >= 3 && HostShort(v) == CHAP_PROTOCOL && v[2] == MD5
  }

  predicate Acceptable(o: Opt) {
    || o.kind == ACCM || o.kind == PFC || o.kind == ACFC || o.kind == MRU
    || (o.kind == AUTH_PROTO && SupportedAuth(o.value))
    || (o.kind == MAGIC_NUMBER && HostLong(o.value) != 0)
  }

  /** A verdict, and the list to answer with where the driver provides one. */
  datatype Judged = Judged(verdict: Verdict, options: Option<seq<byte>>)

  /** The first unacceptable option decides. */
  function Judge(opts: seq<Opt>): Judged {
    if |opts| == 0 then Judged(Accept, None)
    else if Acceptable(opts[0]) then Judge(opts[1..])
    else if opts[0].kind == AUTH_PROTO then Judged(Nak, Some(SUGGESTED_AUTH))
    else Judged(Reject, None)
  }

  function ApplyOne(p: Params, d: Lcp, o: Opt): Params {
    if o.kind == ACCM then p.(xmitAccm := HostLong(o.value))
    else if o.kind == AUTH_PROTO then p.(chap := true)
    else if o.kind == MRU then p.(mtu := HostShort(o.value))
    else if o.kind == PFC && PfcOption in d.asked then p.(pfc := true)
    else if o.kind == ACFC && AcfcOption in d.asked then p.(acfc := true)
    else p
  }

  function ApplyAll(p: Params, d: Lcp, opts: seq<Opt>): Params
    decreases |opts|
  {
    if |opts| == 0 then p else ApplyAll(ApplyOne(p, d, opts[0]), d, opts[1..])
  }

  lemma {:induction false} AcceptIffAllAcceptable(opts: seq<Opt>)
    ensures Judge(opts).verdict.Accept? <==> forall i :: 0 <= i < |opts| ==> Acceptable(opts[i])
    decreases |opts|
  {
    hide Acceptable;
    if |opts| > 0 {
      AcceptIffAllAcceptable(opts[1..]);
      assert opts == [opts[0]] + opts[1..];
    }
  }

  /** Compression is used towards the peer only if it was in use, or the peer offers it and
      we ask for it as well. */
  lemma {:induction false} CompressionIsMutual(p: Params, d: Lcp, opts: seq<Opt>)
    ensures var q := ApplyAll(p, d, opts);
      && (q.acfc <==> p.acfc || (AcfcOption in d.asked && Mentions(opts, 8)))
      && (q.pfc <==> p.pfc || (PfcOption in d.asked && Mentions(opts, 7)))
      && (q.chap <==> p.chap || Mentions(opts, 3))
      && q.recvAccm == p.recvAccm
      && q.xmitAccm == (if Mentions(opts, 2) then HostLong(LastValue(opts, 2)) else p.xmitAccm)
      && q.mtu == (if Mentions(opts, 1) then HostShort(LastValue(opts, 1)) else p.mtu)
    decreases |opts|
  {
    hide HostLong, HostShort;
    if |opts| > 0 {
      CompressionIsMutual(ApplyOne(p, d, opts[0]), d, opts[1..]);
      MentionsStep(opts, ACFC);
      MentionsStep(opts, PFC);
      MentionsStep(opts, AUTH_PROTO);
      MentionsStep(opts, ACCM);
      MentionsStep(opts, MRU);
    }
  }
}
