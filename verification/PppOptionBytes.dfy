/** The options of IPCP and LCP in the numbers of RFC 1332, RFC 1877, RFC 1661 and RFC 1662:
    what each one does when it is asked for, acknowledged, corrected or refused. */
module PppOptionBytes {
  import opened Bytes
  import opened Wrappers
  import opened PppOptions
  import Ipcp = PppIpcpOptions
  import Lcp = PppLcpOptions

  lemma {:induction false} ParsedOne(kind: byte, value: seq<byte>, rest: seq<byte>)
    requires |value| <= 253
    ensures Parse([kind, |value| + 2] + value + rest) == [Opt(kind, value)] + Parse(rest)
    ensures WellFormed([kind, |value| + 2] + value + rest) <==> WellFormed(rest)
  {
    ParseOne(Opt(kind, value), rest);
    assert PrintOne(Opt(kind, value)) == [kind, |value| + 2] + value;
  }

  // ---- IPCP: the settings of a client ----

  /** The first request of a client asks for its address and for two servers of each kind. */
  lemma ClientAsksFor()
    ensures Ipcp.Generate(Ipcp.New(false, Ipcp.NO_ADDR)) ==
      [3, 6, 0, 0, 0, 0, 129, 6, 0, 0, 0, 0, 131, 6, 0, 0, 0, 0, 130, 6, 0, 0, 0, 0, 132, 6, 0, 0, 0, 0]
  {
  }

  /** A server asks for its own address if it has one, and for nothing else. */
  lemma ServerAsksFor(ip: Ipcp.Addr)
    ensures Ipcp.Generate(Ipcp.New(true, ip)) == if ip == [0, 0, 0, 0] then [] else [3, 6] + ip
  {
  }

  /** The setting an option of this kind stands for. */
  function Stored(d: Ipcp.Ipcp, kind: byte, a: Ipcp.Addr): Ipcp.Ipcp {
    if kind == 3 then d.(local := a)
    else if kind == 129 then d.(dns1 := a)
    else if kind == 130 then d.(nbns1 := a)
    else if kind == 131 then d.(dns2 := a)
    else if kind == 132 then d.(nbns2 := a)
    else d
  }

  function AskedFor(kind: byte): set<Ipcp.Field> {
    if kind == 3 then {Ipcp.IpAddr}
    else if kind == 129 then {Ipcp.Dns1}
    else if kind == 130 then {Ipcp.Nbns1}
    else if kind == 131 then {Ipcp.Dns2}
    else if kind == 132 then {Ipcp.Nbns2}
    else {}
  }

  /** One option after the other: an Ack stores the value, a Nak stores it and asks for it, a
      Reject stops asking. A server listens to none but the Reject. */
  lemma {:induction false} AnswersTaken(d: Ipcp.Ipcp, kind: byte, a: Ipcp.Addr, rest: seq<byte>)
    ensures var list := Parse([kind, 6] + a + rest); var more := Parse(rest);
      && (!d.isServer ==>
           && Ipcp.Acked(d, list) == Ipcp.Acked(Stored(d, kind, a), more)
           && Ipcp.Naked(d, list) == Ipcp.Naked(Stored(d, kind, a).(asked := d.asked + AskedFor(kind)), more))
      && (d.isServer ==> Ipcp.Acked(d, list) == d && Ipcp.Naked(d, list) == d)
      && Ipcp.Rejected(d, list) == Ipcp.Rejected(d.(asked := d.asked - AskedFor(kind)), more)
      && Ipcp.Acked(d, []) == Ipcp.Naked(d, []) == Ipcp.Rejected(d, []) == d
  {
    ParsedOne(kind, a, rest);
    assert ([Opt(kind, a)] + Parse(rest))[1..] == Parse(rest);
    assert Ipcp.Address(a) == a;
    OneTaken(d, kind, a);
    hide Parse, Ipcp.TakeAck, Ipcp.TakeNak, Ipcp.TakeRej, Stored, AskedFor;
    assert Stored(d, kind, a).isServer == d.isServer;
  }

  lemma OneTaken(d: Ipcp.Ipcp, kind: byte, a: Ipcp.Addr)
    ensures Ipcp.TakeAck(d, Opt(kind, a)) == Stored(d, kind, a)
    ensures Ipcp.TakeNak(d, Opt(kind, a)) == Stored(d, kind, a).(asked := d.asked + AskedFor(kind))
    ensures Ipcp.TakeRej(d, Opt(kind, a)) == d.(asked := d.asked - AskedFor(kind))
    ensures Stored(d, kind, a).isServer == d.isServer
  {
    assert Ipcp.Address(a) == a;
    KindsAre(kind);
    hide Ipcp.FieldOf;
  }

  lemma KindsAre(kind: byte)
    ensures Ipcp.Known(kind) <==> kind == 3 || kind == 129 || kind == 130 || kind == 131 || kind == 132
    ensures Ipcp.Known(kind) ==> AskedFor(kind) == {Ipcp.FieldOf(kind)}
  {
  }

  /** What a client refuses in a request of its peer, option by option and in their order:
      everything but an address that is not zero. */
  lemma {:induction false} ClientRefuses(o: Opt, more: seq<Opt>)
    ensures Ipcp.Refused([o] + more) ==
      (if o.kind == 3 && |o.value| >= 4 && o.value[..4] != [0, 0, 0, 0] then [] else [o]) + Ipcp.Refused(more)
    ensures Ipcp.Refused([]) == []
  {
    assert ([o] + more)[1..] == more;
    assert [] + Ipcp.Refused(more) == Ipcp.Refused(more);
  }

  /** It takes the address the peer gave last. */
  lemma {:induction false} ClientHearsLast(d: Ipcp.Ipcp, opts: seq<Opt>)
    ensures Ipcp.ClientHears(d, opts) ==
      if Ipcp.Mentions(opts, 3) then d.(peer := Ipcp.Address(Ipcp.LastValue(opts, 3))) else d
    decreases |opts|
  {
    hide Ipcp.Address;
    if |opts| > 0 {
      Ipcp.MentionsStep(opts, 3);
      ClientHearsLast(Ipcp.HearAddress(d, opts[0]), opts[1..]);
    }
  }

  /** What a server does not serve, and what it corrects, option by option and in order. */
  lemma {:induction false} ServerSorts(d: Ipcp.Ipcp, o: Opt, more: seq<Opt>)
    ensures var served := o.kind == 3 || o.kind == 129 || o.kind == 131;
      var own := if o.kind == 3 then d.peer else if o.kind == 129 then d.dns1 else d.dns2;
      && Ipcp.Unserved([o] + more) == (if served then [] else [o]) + Ipcp.Unserved(more)
      && Ipcp.Corrections(d, [o] + more) ==
         (if served && !(|o.value| >= 4 && o.value[..4] == own && own != [0, 0, 0, 0]) then [Opt(o.kind, own)] else [])
         + Ipcp.Corrections(d, more)
      && Ipcp.Unserved([]) == [] && Ipcp.Corrections(d, []) == []
  {
    assert ([o] + more)[1..] == more;
    assert [] + Ipcp.Unserved(more) == Ipcp.Unserved(more);
    assert [] + Ipcp.Corrections(d, more) == Ipcp.Corrections(d, more);
  }

  /** A server returns what it does not serve, in a Reject; only if that is nothing it
      returns its corrections, in a Nak; only if there are none it accepts. */
  lemma {:induction false} ServerAnswers(d: Ipcp.Ipcp, data: seq<byte>)
    requires WellFormed(data)
    ensures var r := Ipcp.ServerReply(d, data);
      var unserved, corrections := Ipcp.Unserved(Parse(data)), Ipcp.Corrections(d, Parse(data));
      && (r.verdict.Reject? <==> unserved != []) && (r.verdict.Reject? ==> Parse(r.options) == unserved)
      && (r.verdict.Nak? <==> unserved == [] && corrections != []) && (r.verdict.Nak? ==> Parse(r.options) == corrections)
      && (r.verdict.Accept? <==> unserved == [] && corrections == [])
  {
    hide Parse, WellFormed, Ipcp.Unserved, Ipcp.Corrections, Print, Printable;
    PrintParse(data);
    Ipcp.AnswersPrintable(d, Parse(data));
    ParsePrint(Ipcp.Unserved(Parse(data)));
    ParsePrint(Ipcp.Corrections(d, Parse(data)));
  }

  // ---- LCP ----

  /** Numbers go high byte first. */
  lemma NumbersAre(a: byte, b: byte, c: byte, d: byte, rest: seq<byte>)
    ensures Lcp.HostShort([a, b] + rest) == a as int * 256 + b
    ensures Lcp.HostLong([a, b, c, d] + rest) == a as int * 0x100_0000 + b as int * 0x1_0000 + c as int * 256 + d
    ensures Lcp.Long(a as int * 0x100_0000 + b as int * 0x1_0000 + c as int * 256 + d) == [a, b, c, d]
    ensures Lcp.Short(a as int * 256 + b) == [a, b]
  {
    hide Lcp.Long, Lcp.HostLong;
    LongIs(a, b, c, d);
    HostLongIs(a, b, c, d, rest);
  }

  lemma LongIs(a: byte, b: byte, c: byte, d: byte)
    ensures Lcp.Long(a as int * 0x100_0000 + b as int * 0x1_0000 + c as int * 256 + d) == [a, b, c, d]
  {
    var hi, lo, n := a as int * 256 + b, c as int * 256 + d, a as int * 0x100_0000 + b as int * 0x1_0000 + c as int * 256 + d;
    assert n == hi * 0x1_0000 + lo;
    assert n / 0x1_0000 == hi && n % 0x1_0000 == lo;
    assert hi / 256 == a && hi % 256 == b && lo / 256 == c && lo % 256 == d;
  }

  lemma HostLongIs(a: byte, b: byte, c: byte, d: byte, rest: seq<byte>)
    ensures Lcp.HostLong([a, b, c, d] + rest) == a as int * 0x100_0000 + b as int * 0x1_0000 + c as int * 256 + d
  {
    assert ([a, b, c, d] + rest)[2..] == [c, d] + rest;
  }

  /** What LCP asks for: a receive map, a receive unit, and the two compressions. */
  lemma LcpAsksFor(d: Lcp.Lcp)
    ensures var list := Parse(Lcp.Generate(d));
      && (Opt(2, Lcp.Long(d.accm)) in list <==> Lcp.AccmOption in d.asked)
      && (Opt(1, Lcp.Short(d.mru)) in list <==> Lcp.MruOption in d.asked)
      && (Opt(8, []) in list <==> Lcp.AcfcOption in d.asked)
      && (Opt(7, []) in list <==> Lcp.PfcOption in d.asked)
  {
    Lcp.RequestRoundTrip(d);
    hide Parse, Lcp.Generate, Lcp.Long, Lcp.Short;
  }

  /** The options LCP accepts from its peer: map, unit, both compressions, CHAP with MD5, and
      a magic number that is not zero. */
  lemma LcpAccepts(o: Opt)
    ensures Lcp.Acceptable(o) <==>
      || o.kind == 1 || o.kind == 2 || o.kind == 7 || o.kind == 8
      || (o.kind == 3 && |o.value| >= 3 && o.value[..3] == [0xc2, 0x23, 0x05])
      || (o.kind == 5 && |o.value| >= 4 && o.value[..4] != [0, 0, 0, 0])
  {
    if |o.value| >= 3 {
      assert o.value[..3] == [o.value[0], o.value[1], o.value[2]];
    }
    if |o.value| >= 4 {
      assert o.value[..4] == [o.value[0], o.value[1], o.value[2], o.value[3]];
    }
  }

  /** The first option it does not accept decides: an authentication it does not know is
      answered with the one it does, anything else without a list. */
  lemma {:induction false} LcpJudges(opts: seq<Opt>, i: nat)
    requires i < |opts| && !Lcp.Acceptable(opts[i]) && forall k :: 0 <= k < i ==> Lcp.Acceptable(opts[k])
    ensures Lcp.Judge(opts) == if opts[i].kind == 3 then Lcp.Judged(Ipcp.Nak, Some([3, 5, 0xc2, 0x23, 0x05]))
                               else Lcp.Judged(Ipcp.Reject, None)
    decreases i
  {
    hide Lcp.Acceptable;
    if i > 0 {
      LcpJudges(opts[1..], i - 1);
    }
  }

  /** That suggestion would itself be accepted. */
  lemma {:induction false} SuggestionAccepted()
    ensures WellFormed([3, 5, 0xc2, 0x23, 0x05]) && Lcp.Judge(Parse([3, 5, 0xc2, 0x23, 0x05])).verdict.Accept?
  {
    ParsedOne(3, [0xc2, 0x23, 0x05], []);
    assert [3, 5] + [0xc2, 0x23, 0x05] + [] == [3, 5, 0xc2, 0x23, 0x05];
    assert Parse([]) == [] && [Opt(3, [0xc2, 0x23, 0x05])] + [] == [Opt(3, [0xc2, 0x23, 0x05])];
    LcpAccepts(Opt(3, [0xc2, 0x23, 0x05]));
    Lcp.AcceptIffAllAcceptable([Opt(3, [0xc2, 0x23, 0x05])]);
  }

  /** A Nak counts only where it names a receive unit below 2048: the last such unit is taken
      over and asked for. */
  lemma {:induction false} LcpNakTaken(d: Lcp.Lcp, o: Opt, before: seq<Opt>)
    ensures var was := Lcp.Naked(d, before);
      Lcp.Naked(d, before + [o]) == if o.kind == 1 && Lcp.HostShort(o.value) < 2048
                                    then was.(mru := Lcp.HostShort(o.value), asked := was.asked + {Lcp.MruOption}) else was
    ensures Lcp.Naked(d, []) == d
    decreases |before|
  {
    hide Lcp.HostShort;
    if |before| > 0 {
      assert (before + [o])[1..] == before[1..] + [o];
      var next := if before[0].kind == 1 && Lcp.HostShort(before[0].value) < 2048
                  then d.(mru := Lcp.HostShort(before[0].value), asked := d.asked + {Lcp.MruOption}) else d;
      LcpNakTaken(next, o, before[1..]);
    } else {
      assert (before + [o])[1..] == [];
    }
  }

  /** An Ack puts the last map it names into force. */
  lemma {:induction false} LcpAckTaken(p: Lcp.Params, opts: seq<Opt>)
    ensures Lcp.Acked(p, opts) ==
      if Ipcp.Mentions(opts, 2) then p.(recvAccm := Lcp.HostLong(Ipcp.LastValue(opts, 2))) else p
    decreases |opts|
  {
    hide Lcp.HostLong;
    if |opts| > 0 {
      Ipcp.MentionsStep(opts, 2);
      LcpAckTaken(if opts[0].kind == 2 then p.(recvAccm := Lcp.HostLong(opts[0].value)) else p, opts[1..]);
    }
  }
}
