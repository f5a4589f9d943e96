/** Two ends of one link: a client that opens it and a server that listens, each of them
    hearing what the other has sent, packet by packet and in order. */
module PppPair {
  import opened Bytes
  import opened Wrappers
  import opened PppCp
  import PppOptions
  import Ipcp = PppIpcpOptions
  import Lcp = PppLcpOptions
  import opened PppLink
  import opened PppSafety
  import opened PppReplies

  // ---- What is sent, and how it arrives ----

  datatype Letter = Letter(proto: Proto, packet: Packet)

  function LetterOf(e: Entry): seq<Letter> {
    if e.Tx? then [Letter(e.proto, e.packet)] else []
  }

  /** The packets of a log, in order. */
  function Sent(log: seq<Entry>): seq<Letter>
    decreases |log|
  {
    if |log| == 0 then [] else Sent(log[..|log| - 1]) + LetterOf(log[|log| - 1])
  }

  lemma {:induction false} SentAppend(a: seq<Entry>, b: seq<Entry>)
    ensures Sent(a + b) == Sent(a) + Sent(b)
    decreases |b|
  {
    hide LetterOf;
    if |b| == 0 {
      assert a + b == a;
    } else {
      assert (a + b)[..|a + b| - 1] == a + b[..|b| - 1];
      SentAppend(a, b[..|b| - 1]);
    }
  }

  lemma {:induction false} SentOne(e: Entry)
    ensures Sent([e]) == LetterOf(e) && Sent([]) == []
  {
    assert [e][..0] == [];
  }

  lemma {:induction false} SentTwo(e: Entry, f: Entry)
    ensures Sent([e, f]) == LetterOf(e) + LetterOf(f)
  {
    SentAppend([e], [f]);
    SentOne(e);
    SentOne(f);
    assert [e] + [f] == [e, f];
  }

  /** A letter as the frame it travels in. */
  function FrameBytes(m: Letter): seq<byte> {
    CpFrame(m.proto, PacketBytes(m.packet))
  }

  /** The two ends, and how many packets of the other each has heard. */
  datatype Pair = Pair(client: Link, server: Link, heardByClient: nat, heardByServer: nat)

  const YES: Env := Env(true, true)

  /** The next packet for this end has been sent, and is one the other end can read. */
  predicate OnItsWay(p: Pair, toClient: bool) {
    if toClient then p.heardByClient < |Sent(p.server.log)| && Proper(Input.Frame(FrameBytes(Sent(p.server.log)[p.heardByClient])))
    else p.heardByServer < |Sent(p.client.log)| && Proper(Input.Frame(FrameBytes(Sent(p.client.log)[p.heardByServer])))
  }

  function Arrive(p: Pair, toClient: bool): Pair
    requires OnItsWay(p, toClient)
  {
    if toClient
    then p.(client := Step(p.client, YES, Input.Frame(FrameBytes(Sent(p.server.log)[p.heardByClient]))), heardByClient := p.heardByClient + 1)
    else p.(server := Step(p.server, YES, Input.Frame(FrameBytes(Sent(p.client.log)[p.heardByServer]))), heardByServer := p.heardByServer + 1)
  }

  predicate AllOnTheirWay(p: Pair, order: seq<bool>)
    decreases |order|
  {
    |order| > 0 ==> OnItsWay(p, order[0]) && AllOnTheirWay(Arrive(p, order[0]), order[1..])
  }

  function ArriveAll(p: Pair, order: seq<bool>): Pair
    requires AllOnTheirWay(p, order)
    decreases |order|
  {
    if |order| == 0 then p else ArriveAll(Arrive(p, order[0]), order[1..])
  }

  // ---- What is known of one end ----

  datatype Known = Known(phase: Phase, lcp: State, lcpId: byte, ipcp: State, ipcpId: byte, failures: nat, d: Ipcp.Ipcp,
                         sent: seq<Letter>)

  predicate Facts(l: Link, k: Known) {
    && l.phase == k.phase
    && l.lcp.state == k.lcp && l.lcp.configId == k.lcpId && l.lcp.localOptions == []
    && l.lcp.failures == 0 && l.lcp.maxFailure == 5 && l.lcpData == Lcp.Lcp({}, 0, 0) && !l.params.chap
    && l.ipcp.state == k.ipcp && l.ipcp.configId == k.ipcpId && l.ipcp.localOptions == Ipcp.Generate(k.d)
    && l.ipcp.failures == k.failures < 100 && l.ipcp.maxFailure == 100 && l.ipcpData == k.d
    && Sent(l.log) == k.sent
  }

  ghost predicate Is(l: Link, k: Known) {
    LinkOk(l) && Facts(l, k)
  }

  lemma IsMeans(l: Link, k: Known)
    ensures Is(l, k) <==> LinkOk(l) && Facts(l, k)
    ensures Facts(l, k) ==> l.phase == k.phase && l.lcp.state == k.lcp && l.ipcp.state == k.ipcp && l.ipcpData == k.d
    ensures Facts(l, k) ==> l.lcp.failures < l.lcp.maxFailure && l.ipcp.failures < l.ipcp.maxFailure
    ensures Facts(l, k) && !k.phase.Dead? ==> Listens(l, LCP) && (k.phase.Network? || k.phase.LinkUp? ==> Listens(l, IPCP))
    ensures Facts(l, k) ==> l.lcp.configId == k.lcpId && l.lcp.localOptions == []
    ensures Facts(l, k) ==> l.ipcp.configId == k.ipcpId && l.ipcp.localOptions == Ipcp.Generate(k.d)
    ensures Facts(l, k) ==> Sent(l.log) == k.sent
  {
    hide LinkOk, Sent, Ipcp.Generate;
  }

  lemma EventIs(l: Link, e: Event, packet: Packet)
    ensures CpEvent(l, YES, LCP, e, packet) == LcpEvent(l, YES, e, packet)
    ensures CpEvent(l, YES, IPCP, e, packet) == IpcpEvent(l, YES, e, packet)
  {
  }

  /** Short packets with sound options travel. */
  predicate Travels(p: Packet) {
    |p.data| < 1000 && (1 <= p.code <= 4 ==> PppOptions.WellFormed(p.data))
  }

  lemma PacketBears(p: Packet)
    requires |p.data| < 1000
    ensures Bears(PacketBytes(p), p.code, p.id, p.data)
  {
    var n := |p.data| + 4;
    assert n / 256 * 256 + n % 256 == n;
    assert PacketBytes(p)[4..n] == p.data;
  }

  /** One packet heard by one end. */
  lemma Hears(l: Link, p: Proto, packet: Packet)
    requires LinkOk(l) && Listens(l, p) && Travels(packet)
    ensures var i := Input.Frame(FrameBytes(Letter(p, packet)));
      && Proper(i) && LinkOk(Step(l, YES, i))
      && Step(l, YES, i) == match Digest(l, p, packet).1
                            case None => Digest(l, p, packet).0
                            case Some(e) => CpEvent(Digest(l, p, packet).0, YES, p, e, packet)
  {
    hide LinkOk, Digest, CpEvent, Step, Proper, Bears, CpFrame, PacketBytes, PppOptions.WellFormed;
    PacketBears(packet);
    Heard(l, YES, p, PacketBytes(packet), packet.code, packet.id, packet.data);
    StepKeeps(l, YES, Input.Frame(FrameBytes(Letter(p, packet))));
  }

  // ---- LCP ----

  const LCP_REQUEST: Packet := Packet(1, 1, [])
  const LCP_ACK: Packet := Packet(2, 1, [])

  lemma EmptyTravels()
    ensures Travels(LCP_REQUEST) && Travels(LCP_ACK) && PppOptions.Parse([]) == [] && PppOptions.WellFormed([])
    ensures Lcp.Judge([]) == Lcp.Judged(Ipcp.Accept, None)
    ensures forall p: Lcp.Params, d: Lcp.Lcp :: Lcp.ApplyAll(p, d, []) == p && Lcp.Acked(p, []) == p
  {
  }

  lemma AskingDigested(l: Link)
    requires l.lcp.failures < l.lcp.maxFailure
    ensures Digest(l, LCP, LCP_REQUEST) == (l, Some(RcrPlus))
  {
    EmptyTravels();
    assert Settle(l.lcp, Ipcp.Accept, None) == l.lcp;
    hide PppOptions.Parse, Lcp.ApplyAll, Lcp.Judge, Settle;
  }

  lemma QuietEvent(l: Link, e: Event, packet: Packet)
    requires SignalFor(l, LCP, e, packet).Quiet? && !SendsTerminateAck(l.lcp, e)
    ensures LcpEvent(l, YES, e, packet) == Apply(l, LCP, e, packet)
  {
    hide Generate, Entries, SendsTerminateAck;
  }

  lemma TableAsked()
    ensures Transition(RcrPlus, Stopped) == Go({IRC, SCR, SCA}, AckSent) && Transition(RcrPlus, ReqSent) == Go({SCA}, AckSent)
  {
  }

  /** A server that listens answers the first request with its own and an Ack. */
  lemma StoppedAsked(cp: Cp, p: Packet)
    requires cp.state.Stopped?
    ensures var r := Generate(cp, RcrPlus, p);
      && r.sent == [Packet(1, (cp.configId + 1) % 256, cp.localOptions), Packet(2, p.id, p.data)] && r.signal.Quiet?
      && r.cp.state.AckSent? && r.cp.configId == (cp.configId + 1) % 256 && r.cp.failures == 0
      && r.cp.localOptions == cp.localOptions && r.cp.maxFailure == cp.maxFailure
  {
    TableAsked();
    hide Transition;
  }

  lemma ReqSentAsked(cp: Cp, p: Packet)
    requires cp.state.ReqSent?
    ensures var r := Generate(cp, RcrPlus, p);
      && r.sent == [Packet(2, p.id, p.data)] && r.signal.Quiet?
      && r.cp.state.AckSent? && r.cp.configId == cp.configId && r.cp.failures == 0
      && r.cp.localOptions == cp.localOptions && r.cp.maxFailure == cp.maxFailure
  {
    TableAsked();
    hide Transition;
  }

  lemma {:induction false} AppliedSent(l: Link, p: Proto, e: Event, packet: Packet)
    ensures var r := Generate(CpOf(l, p), e, packet);
      Sent(Apply(l, p, e, packet).log) == Sent(l.log) + seq(|r.sent|, i requires 0 <= i < |r.sent| => Letter(p, r.sent[i]))
  {
    hide Generate;
    var r := Generate(CpOf(l, p), e, packet);
    SentAppend(l.log, Entries(p, r));
    SentAppend(TxAll(p, r.sent), [Sig(p, r.signal)]);
    SentOne(Sig(p, r.signal));
    AllSent(p, r.sent);
  }

  lemma {:induction false} AllSent(p: Proto, sent: seq<Packet>)
    ensures Sent(TxAll(p, sent)) == seq(|sent|, i requires 0 <= i < |sent| => Letter(p, sent[i]))
    decreases |sent|
  {
    if |sent| > 0 {
      var front := sent[..|sent| - 1];
      AllSent(p, front);
      assert TxAll(p, sent)[..|sent| - 1] == TxAll(p, front);
    }
  }

  lemma LcpAsked(l: Link, k: Known)
    requires Is(l, k) && k.phase.Establishment? && (k.lcp.ReqSent? || (k.lcp.Stopped? && k.lcpId == 0))
    ensures var i := Input.Frame(FrameBytes(Letter(LCP, LCP_REQUEST)));
      && Proper(i)
      && Is(Step(l, YES, i), k.(lcp := AckSent, lcpId := if k.lcp.Stopped? then 1 else k.lcpId,
            sent := k.sent + (if k.lcp.Stopped? then [Letter(LCP, LCP_REQUEST)] else []) + [Letter(LCP, LCP_ACK)]))
  {
    hide *;
    IsMeans(l, k);
    EmptyTravels();
    AskingDigested(l);
    Hears(l, LCP, LCP_REQUEST);
    EventIs(l, RcrPlus, LCP_REQUEST);
    QuietAsked(l);
    LcpAskedFacts(l, k);
    IsMeans(Apply(l, LCP, RcrPlus, LCP_REQUEST), k.(lcp := AckSent, lcpId := if k.lcp.Stopped? then 1 else k.lcpId,
            sent := k.sent + (if k.lcp.Stopped? then [Letter(LCP, LCP_REQUEST)] else []) + [Letter(LCP, LCP_ACK)]));
  }

  lemma QuietAsked(l: Link)
    requires l.lcp.state.ReqSent? || l.lcp.state.Stopped?
    ensures LcpEvent(l, YES, RcrPlus, LCP_REQUEST) == Apply(l, LCP, RcrPlus, LCP_REQUEST)
  {
    TableAsked();
    SignalIsTable(l.lcp, RcrPlus, LCP_REQUEST);
    assert !SendsTerminateAck(l.lcp, RcrPlus);
    hide Generate, Transition, SendsTerminateAck, Apply;
    QuietEvent(l, RcrPlus, LCP_REQUEST);
  }

  lemma LcpAskedFacts(l: Link, k: Known)
    requires Facts(l, k) && (k.lcp.ReqSent? || (k.lcp.Stopped? && k.lcpId == 0))
    ensures Facts(Apply(l, LCP, RcrPlus, LCP_REQUEST), k.(lcp := AckSent, lcpId := if k.lcp.Stopped? then 1 else k.lcpId,
            sent := k.sent + (if k.lcp.Stopped? then [Letter(LCP, LCP_REQUEST)] else []) + [Letter(LCP, LCP_ACK)]))
  {
    hide Generate, Entries, Ipcp.Generate, Sent, Transition;
    AppliedSent(l, LCP, RcrPlus, LCP_REQUEST);
    var sent := Generate(l.lcp, RcrPlus, LCP_REQUEST).sent;
    if k.lcp.Stopped? {
      StoppedAsked(l.lcp, LCP_REQUEST);
      assert seq(|sent|, i requires 0 <= i < |sent| => Letter(LCP, sent[i])) == [Letter(LCP, LCP_REQUEST)] + [Letter(LCP, LCP_ACK)];
      assert k.sent + ([Letter(LCP, LCP_REQUEST)] + [Letter(LCP, LCP_ACK)]) == k.sent + [Letter(LCP, LCP_REQUEST)] + [Letter(LCP, LCP_ACK)];
    } else {
      ReqSentAsked(l.lcp, LCP_REQUEST);
      assert seq(|sent|, i requires 0 <= i < |sent| => Letter(LCP, sent[i])) == [Letter(LCP, LCP_ACK)];
      assert k.sent + [] == k.sent;
    }
  }

  lemma TableUps()
    ensures Transition(Rca, AckSent) == Go({IRC, TLU}, Opened) && Transition(Rca, ReqSent) == Go({IRC}, AckRcvd)
    ensures Transition(Open, Initial) == Go({TLS}, Starting) && Transition(Up, Starting) == Go({IRC, SCR}, ReqSent)
    ensures Transition(RcrPlus, AckRcvd) == Go({SCA, TLU}, Opened)
  {
  }

  /** What an automaton keeps over an event that does not refuse anything. */
  predicate Keeps(cp: Cp, r: Cp) {
    r.localOptions == cp.localOptions && r.maxFailure == cp.maxFailure
  }

  lemma AckSentAcked(cp: Cp, p: Packet)
    requires cp.state.AckSent?
    ensures var r := Generate(cp, Rca, p);
      && r.sent == [] && r.signal.LayerUp? && r.cp.state.Opened? && r.cp.configId == cp.configId && r.cp.failures == cp.failures
      && Keeps(cp, r.cp)
  {
    TableUps();
    hide Transition;
  }

  lemma ReqSentAcked(cp: Cp, p: Packet)
    requires cp.state.ReqSent?
    ensures var r := Generate(cp, Rca, p);
      && r.sent == [] && r.signal.Quiet? && r.cp.state.AckRcvd? && r.cp.configId == cp.configId && r.cp.failures == cp.failures
      && Keeps(cp, r.cp)
  {
    TableUps();
    hide Transition;
  }

  lemma AckRcvdAsked(cp: Cp, p: Packet)
    requires cp.state.AckRcvd?
    ensures var r := Generate(cp, RcrPlus, p);
      && r.sent == [Packet(2, p.id, p.data)] && r.signal.LayerUp? && r.cp.state.Opened? && r.cp.configId == cp.configId
      && r.cp.failures == 0 && Keeps(cp, r.cp)
  {
    TableUps();
    hide Transition;
  }

  lemma InitialOpened(cp: Cp, p: Packet)
    requires cp.state.Initial?
    ensures var r := Generate(cp, Open, p);
      && r.sent == [] && r.signal.LayerStarted? && r.cp.state.Starting? && r.cp.configId == cp.configId
      && r.cp.failures == cp.failures && Keeps(cp, r.cp)
  {
    TableUps();
    hide Transition;
  }

  lemma StartingRaised(cp: Cp, p: Packet)
    requires cp.state.Starting?
    ensures var r := Generate(cp, Up, p);
      && r.sent == [Packet(1, (cp.configId + 1) % 256, cp.localOptions)] && r.signal.Quiet? && r.cp.state.ReqSent?
      && r.cp.configId == (cp.configId + 1) % 256 && r.cp.failures == cp.failures && Keeps(cp, r.cp)
  {
    TableUps();
    hide Transition;
  }

  lemma NoneOrOne(p: Proto, sent: seq<Packet>)
    ensures |sent| == 0 ==> seq(|sent|, i requires 0 <= i < |sent| => Letter(p, sent[i])) == []
    ensures |sent| == 1 ==> seq(|sent|, i requires 0 <= i < |sent| => Letter(p, sent[i])) == [Letter(p, sent[0])]
  {
  }

  lemma AckDigested(l: Link, k: Known)
    requires Facts(l, k) && k.lcpId == 1
    ensures Digest(l, LCP, LCP_ACK) == (Ack(l, LCP, LCP_ACK), Some(Rca)) && Facts(Ack(l, LCP, LCP_ACK), k)
  {
    EmptyTravels();
    SentAppend(l.log, [AckIn(LCP, LCP_ACK)]);
    SentOne(AckIn(LCP, LCP_ACK));
    assert k.sent + [] == k.sent;
    hide Sent, PppOptions.Parse, Lcp.Acked, Ipcp.Generate;
  }

  lemma RaisesNetwork(l: Link)
    requires l.lcp.state.AckSent? && !l.params.chap
    ensures exists sta: bool :: LcpEvent(l, YES, Rca, LCP_ACK) == StartNetwork(Apply(l, LCP, Rca, LCP_ACK).(staPending := sta))
  {
    AckSentAcked(l.lcp, LCP_ACK);
    hide Generate, Entries, StartNetwork, SendsTerminateAck;
    var sta := l.staPending || (YES.sendOk && SendsTerminateAck(l.lcp, Rca));
    assert LcpEvent(l, YES, Rca, LCP_ACK) == StartNetwork(Apply(l, LCP, Rca, LCP_ACK).(staPending := sta));
  }

  lemma LcpOpenedFacts(l: Link, k: Known, sta: bool)
    requires Facts(l, k) && k.lcp.AckSent?
    ensures Facts(Apply(l, LCP, Rca, LCP_ACK).(staPending := sta), k.(lcp := Opened))
  {
    hide Generate, Entries, Ipcp.Generate, Sent;
    AckSentAcked(l.lcp, LCP_ACK);
    AppliedSent(l, LCP, Rca, LCP_ACK);
    NoneOrOne(LCP, Generate(l.lcp, Rca, LCP_ACK).sent);
    assert k.sent + [] == k.sent;
  }

  lemma AdminFacts(l: Link, k: Known, e: Event, next: Known)
    requires Facts(l, k) && Facts(Apply(l, IPCP, e, NO_PACKET), next) && !Generate(l.ipcp, e, NO_PACKET).signal.LayerDown?
    ensures Facts(IpcpAdmin(l, e), next)
  {
    hide Generate, Entries, Facts;
  }

  lemma StartFacts(l: Link, k: Known)
    requires Facts(l, k) && k.ipcp.Initial?
    ensures Facts(StartNetwork(l), k.(phase := Network, ipcp := ReqSent, ipcpId := (k.ipcpId + 1) % 256,
                  sent := k.sent + [Letter(IPCP, Packet(1, (k.ipcpId + 1) % 256, Ipcp.Generate(k.d)))]))
  {
    hide *;
    var l1, k1 := EnterPhase(l, Network), k.(phase := Network);
    EnteredFacts(l, k);
    OpenFacts(l1, k1);
    UpFacts(IpcpAdmin(l1, Open), k1.(ipcp := Starting));
  }

  lemma EnteredFacts(l: Link, k: Known)
    requires Facts(l, k)
    ensures Facts(EnterPhase(l, Network), k.(phase := Network))
    ensures StartNetwork(l) == IpcpAdmin(IpcpAdmin(EnterPhase(l, Network), Open), Up)
  {
    hide Sent, Ipcp.Generate, IpcpAdmin;
  }

  lemma OpenFacts(l: Link, k: Known)
    requires Facts(l, k) && k.ipcp.Initial?
    ensures Facts(IpcpAdmin(l, Open), k.(ipcp := Starting))
  {
    hide Generate, Entries, Ipcp.Generate, Sent, IpcpAdmin;
    InitialOpened(l.ipcp, NO_PACKET);
    AppliedSent(l, IPCP, Open, NO_PACKET);
    NoneOrOne(IPCP, Generate(l.ipcp, Open, NO_PACKET).sent);
    assert k.sent + [] == k.sent;
    AdminFacts(l, k, Open, k.(ipcp := Starting));
  }

  lemma UpFacts(l: Link, k: Known)
    requires Facts(l, k) && k.ipcp.Starting?
    ensures var id := (k.ipcpId + 1) % 256;
      Facts(IpcpAdmin(l, Up), k.(ipcp := ReqSent, ipcpId := id, sent := k.sent + [Letter(IPCP, Packet(1, id, Ipcp.Generate(k.d)))]))
  {
    hide Generate, Entries, Ipcp.Generate, Sent, IpcpAdmin;
    StartingRaised(l.ipcp, NO_PACKET);
    AppliedSent(l, IPCP, Up, NO_PACKET);
    NoneOrOne(IPCP, Generate(l.ipcp, Up, NO_PACKET).sent);
    var id := (k.ipcpId + 1) % 256;
    AdminFacts(l, k, Up, k.(ipcp := ReqSent, ipcpId := id, sent := k.sent + [Letter(IPCP, Packet(1, id, Ipcp.Generate(k.d)))]));
  }

  /** The Ack that opens LCP: IPCP asks. */
  lemma LcpAcked(l: Link, k: Known)
    requires Is(l, k) && k.phase.Establishment? && k.lcp.AckSent? && k.lcpId == 1 && k.ipcp.Initial?
    ensures var i := Input.Frame(FrameBytes(Letter(LCP, LCP_ACK)));
      && Proper(i)
      && Is(Step(l, YES, i), k.(phase := Network, lcp := Opened, ipcp := ReqSent, ipcpId := (k.ipcpId + 1) % 256,
            sent := k.sent + [Letter(IPCP, Packet(1, (k.ipcpId + 1) % 256, Ipcp.Generate(k.d)))]))
  {
    hide *;
    IsMeans(l, k);
    EmptyTravels();
    AckDigested(l, k);
    Hears(l, LCP, LCP_ACK);
    var l1 := Ack(l, LCP, LCP_ACK);
    EventIs(l1, Rca, LCP_ACK);
    IsMeans(l1, k);
    NotAuthenticating(l1, k);
    RaisesNetwork(l1);
    var sta: bool :| LcpEvent(l1, YES, Rca, LCP_ACK) == StartNetwork(Apply(l1, LCP, Rca, LCP_ACK).(staPending := sta));
    LcpOpenedFacts(l1, k, sta);
    StartFacts(Apply(l1, LCP, Rca, LCP_ACK).(staPending := sta), k.(lcp := Opened));
    IsMeans(LcpEvent(l1, YES, Rca, LCP_ACK), k.(phase := Network, lcp := Opened, ipcp := ReqSent, ipcpId := (k.ipcpId + 1) % 256,
            sent := k.sent + [Letter(IPCP, Packet(1, (k.ipcpId + 1) % 256, Ipcp.Generate(k.d)))]));
  }

  lemma NotAuthenticating(l: Link, k: Known)
    requires Facts(l, k)
    ensures !l.params.chap
  {
  }

  // ---- IPCP ----

  /** A request answered while the negotiation goes on. */
  lemma IpcpRefused(l: Link, k: Known, id: byte, data: seq<byte>, answer: Packet)
    requires Is(l, k) && k.phase.Network? && Negotiating(k.ipcp) && Travels(Packet(1, id, data))
    requires k.d.isServer && answer == IpcpAnswer(l, id, data) && (answer.code == 4 || (answer.code == 3 && k.failures < 99))
    ensures var i := Input.Frame(FrameBytes(Letter(IPCP, Packet(1, id, data))));
      && Proper(i)
      && Is(Step(l, YES, i), k.(ipcp := if k.ipcp.AckRcvd? then AckRcvd else ReqSent,
            failures := if answer.code == 3 then k.failures + 1 else k.failures, sent := k.sent + [Letter(IPCP, answer)]))
  {
    hide *;
    IsMeans(l, k);
    TravelsMeans(Packet(1, id, data));
    PacketBears(Packet(1, id, data));
    FrameIs(PacketBytes(Packet(1, id, data)));
    LetterBytes(Packet(1, id, data));
    Hears(l, IPCP, Packet(1, id, data));
    IpcpRequestAnswered(l, YES, PacketBytes(Packet(1, id, data)), id, data);
    var i := Input.Frame(FrameBytes(Letter(IPCP, Packet(1, id, data))));
    RefusedFacts(l, k, Step(l, YES, i), answer);
    IsMeans(Step(l, YES, i), k.(ipcp := if k.ipcp.AckRcvd? then AckRcvd else ReqSent,
            failures := if answer.code == 3 then k.failures + 1 else k.failures, sent := k.sent + [Letter(IPCP, answer)]));
  }

  lemma TravelsMeans(p: Packet)
    requires Travels(p)
    ensures |p.data| < 1000 && (1 <= p.code <= 4 ==> PppOptions.WellFormed(p.data))
  {
    hide PppOptions.WellFormed;
  }

  lemma {:induction false} TravelsIf(code: byte, id: byte, data: seq<byte>)
    requires |data| < 1000 && PppOptions.WellFormed(data)
    ensures Travels(Packet(code, id, data))
  {
    hide PppOptions.WellFormed;
  }

  lemma LetterBytes(p: Packet)
    ensures FrameBytes(Letter(IPCP, p)) == CpFrame(IPCP, PacketBytes(p))
  {
  }

  lemma Saying(l: Link, r: Link, k: Known, p: Packet)
    requires Facts(l, k) && r.log == l.log + [Tx(IPCP, p), Sig(IPCP, Quiet)]
    ensures Sent(r.log) == k.sent + [Letter(IPCP, p)]
  {
    hide Sent, Ipcp.Generate;
    SentAppend(l.log, [Tx(IPCP, p), Sig(IPCP, Quiet)]);
    SentTwo(Tx(IPCP, p), Sig(IPCP, Quiet));
  }

  lemma RefusedFacts(l: Link, k: Known, r: Link, answer: Packet)
    requires Facts(l, k) && k.d.isServer && (answer.code == 4 || (answer.code == 3 && k.failures < 99))
    requires r == l.(ipcp := r.ipcp, ipcpData := r.ipcpData, log := l.log + [Tx(IPCP, answer), Sig(IPCP, Quiet)])
    requires Answered(l.ipcp, r.ipcp, answer) && r.ipcpData == l.ipcpData
    ensures Facts(r, k.(ipcp := if k.ipcp.AckRcvd? then AckRcvd else ReqSent,
            failures := if answer.code == 3 then k.failures + 1 else k.failures, sent := k.sent + [Letter(IPCP, answer)]))
  {
    hide Sent, Ipcp.Generate;
    Saying(l, r, k, answer);
  }

  /** A client that is asked something acceptable, and hears the address of its peer. */
  lemma {:induction false} IpcpAgreed(l: Link, k: Known, id: byte, data: seq<byte>, d: Ipcp.Ipcp)
    requires Is(l, k) && k.phase.Network? && k.ipcp.ReqSent? && Travels(Packet(1, id, data))
    requires !k.d.isServer && Ipcp.ClientReply(data).verdict.Accept? && d == Ipcp.ClientHears(k.d, PppOptions.Parse(data))
    requires Ipcp.Generate(d) == Ipcp.Generate(k.d)
    ensures var i := Input.Frame(FrameBytes(Letter(IPCP, Packet(1, id, data))));
      && Proper(i)
      && Is(Step(l, YES, i), k.(ipcp := AckSent, failures := 0, d := d, sent := k.sent + [Letter(IPCP, Packet(2, id, data))]))
  {
    hide *;
    IsMeans(l, k);
    TravelsMeans(Packet(1, id, data));
    PacketBears(Packet(1, id, data));
    FrameIs(PacketBytes(Packet(1, id, data)));
    LetterBytes(Packet(1, id, data));
    Hears(l, IPCP, Packet(1, id, data));
    NegotiatingIs(k.ipcp);
    AcceptsWith(l, id, data);
    IpcpRequestAnswered(l, YES, PacketBytes(Packet(1, id, data)), id, data);
    var i := Input.Frame(FrameBytes(Letter(IPCP, Packet(1, id, data))));
    AgreedFacts(l, k, Step(l, YES, i), Packet(2, id, data), d);
    IsMeans(Step(l, YES, i), k.(ipcp := AckSent, failures := 0, d := d, sent := k.sent + [Letter(IPCP, Packet(2, id, data))]));
  }

  lemma {:induction false} AcceptsWith(l: Link, id: byte, data: seq<byte>)
    requires PppOptions.WellFormed(data) && l.ipcp.failures < l.ipcp.maxFailure
    requires if l.ipcpData.isServer then Ipcp.ServerReply(l.ipcpData, data).verdict.Accept? else Ipcp.ClientReply(data).verdict.Accept?
    ensures IpcpAnswer(l, id, data) == Packet(2, id, data)
  {
    hide PppOptions.WellFormed, Ipcp.ServerReply, Ipcp.ClientReply;
  }

  lemma AgreedFacts(l: Link, k: Known, r: Link, answer: Packet, d: Ipcp.Ipcp)
    requires Facts(l, k) && answer.code == 2 && k.ipcp.ReqSent? && Ipcp.Generate(d) == Ipcp.Generate(k.d)
    requires r == l.(ipcp := r.ipcp, ipcpData := d, log := l.log + [Tx(IPCP, answer), Sig(IPCP, Quiet)])
    requires Answered(l.ipcp, r.ipcp, answer)
    ensures Facts(r, k.(ipcp := AckSent, failures := 0, d := d, sent := k.sent + [Letter(IPCP, answer)]))
  {
    hide Sent, Ipcp.Generate;
    Saying(l, r, k, answer);
  }

  /** A client that is corrected asks again. */
  lemma {:induction false} IpcpAsksAgain(l: Link, k: Known, code: byte, data: seq<byte>, d: Ipcp.Ipcp)
    requires Is(l, k) && k.phase.Network? && k.ipcp.AckSent? && (code == 3 || code == 4) && Travels(Packet(code, k.ipcpId, data))
    requires !k.d.isServer
    requires d == if code == 3 then Ipcp.Naked(k.d, PppOptions.Parse(data)) else Ipcp.Rejected(k.d, PppOptions.Parse(data))
    ensures var i := Input.Frame(FrameBytes(Letter(IPCP, Packet(code, k.ipcpId, data)))); var id := (k.ipcpId + 1) % 256;
      && Proper(i)
      && Is(Step(l, YES, i), k.(ipcpId := id, d := d, sent := k.sent + [Letter(IPCP, Packet(1, id, Ipcp.Generate(d)))]))
  {
    hide *;
    var packet, id := Packet(code, k.ipcpId, data), (k.ipcpId + 1) % 256;
    IsMeans(l, k);
    TravelsMeans(packet);
    PacketBears(packet);
    FrameIs(PacketBytes(packet));
    LetterBytes(packet);
    Hears(l, IPCP, packet);
    IpcpCorrected(l, YES, PacketBytes(packet), code, k.ipcpId, data);
    var i := Input.Frame(FrameBytes(Letter(IPCP, packet)));
    AgainFacts(l, k, Step(l, YES, i), id, d);
    IsMeans(Step(l, YES, i), k.(ipcpId := id, d := d, sent := k.sent + [Letter(IPCP, Packet(1, id, Ipcp.Generate(d)))]));
  }

  lemma AgainFacts(l: Link, k: Known, r: Link, id: byte, d: Ipcp.Ipcp)
    requires Facts(l, k)
    requires r == l.(ipcpData := d, log := l.log + [Tx(IPCP, Packet(1, id, Ipcp.Generate(d))), Sig(IPCP, Quiet)],
                     ipcp := l.ipcp.(localOptions := Ipcp.Generate(d), configId := id, config := Timer(9, true)))
    ensures Facts(r, k.(ipcpId := id, d := d, sent := k.sent + [Letter(IPCP, Packet(1, id, Ipcp.Generate(d)))]))
  {
    hide Sent, Ipcp.Generate;
    Saying(l, r, k, Packet(1, id, Ipcp.Generate(d)));
  }

  // ---- IPCP agrees ----

  /** The Ack of the latest request, which changes no setting. */
  lemma IpcpAckDigested(l: Link, k: Known)
    requires Facts(l, k)
    ensures var ack := Packet(2, k.ipcpId, Ipcp.Generate(k.d));
      && Travels(ack) && Digest(l, IPCP, ack) == (Ack(l, IPCP, ack), Some(Rca)) && Facts(Ack(l, IPCP, ack), k)
  {
    var ack := Packet(2, k.ipcpId, Ipcp.Generate(k.d));
    Ipcp.RequestRoundTrip(k.d);
    AckIsNeutral(k.d);
    SentAppend(l.log, [AckIn(IPCP, ack)]);
    SentOne(AckIn(IPCP, ack));
    assert k.sent + [] == k.sent;
    hide Sent, PppOptions.Parse, PppOptions.WellFormed, Ipcp.Acked, Ipcp.Generate;
  }

  lemma AckIsNeutral(d: Ipcp.Ipcp)
    ensures Ipcp.Acked(d, PppOptions.Parse(Ipcp.Generate(d))) == d
  {
    hide PppOptions.Parse, Ipcp.Generate, Ipcp.TakeAcks;
    if !d.isServer {
      Ipcp.AckChangesNothingIff(d, d);
    }
  }

  lemma FirstAckFacts(l: Link, k: Known, ack: Packet)
    requires Facts(l, k) && k.ipcp.ReqSent?
    ensures Facts(IpcpEvent(l, YES, Rca, ack), k.(ipcp := AckRcvd))
  {
    hide Generate, Entries, Ipcp.Generate, Sent;
    ReqSentAcked(l.ipcp, ack);
    AppliedSentBy(l, Rca, ack);
    NoneOrOne(IPCP, Generate(l.ipcp, Rca, ack).sent);
    assert k.sent + [] == k.sent;
  }

  lemma AppliedSentBy(l: Link, e: Event, packet: Packet)
    ensures var r := Generate(l.ipcp, e, packet);
      && Sent(Apply(l, IPCP, e, packet).log) == Sent(l.log) + seq(|r.sent|, i requires 0 <= i < |r.sent| => Letter(IPCP, r.sent[i]))
      && Apply(l, IPCP, e, packet) == l.(ipcp := r.cp, log := Apply(l, IPCP, e, packet).log)
  {
    hide Generate, Entries, Sent;
    AppliedSent(l, IPCP, e, packet);
  }

  /** The event that opens IPCP: the link is up. */
  lemma OpeningFacts(l: Link, k: Known, e: Event, packet: Packet)
    requires Facts(l, k) && ((e.Rca? && k.ipcp.AckSent?) || (e.RcrPlus? && k.ipcp.AckRcvd?))
    ensures var r := IpcpEvent(l, YES, e, packet);
      && r.net
      && Facts(r, k.(phase := LinkUp, ipcp := Opened, failures := if e.RcrPlus? then 0 else k.failures,
                     sent := k.sent + if e.RcrPlus? then [Letter(IPCP, Packet(2, packet.id, packet.data))] else []))
  {
    hide Generate, Entries, Ipcp.Generate, Sent, Apply;
    AppliedSentBy(l, e, packet);
    NoneOrOne(IPCP, Generate(l.ipcp, e, packet).sent);
    if e.Rca? {
      AckSentAcked(l.ipcp, packet);
    } else {
      AckRcvdAsked(l.ipcp, packet);
    }
  }

  lemma IpcpAckedFirst(l: Link, k: Known)
    requires Is(l, k) && k.phase.Network? && k.ipcp.ReqSent?
    ensures var i := Input.Frame(FrameBytes(Letter(IPCP, Packet(2, k.ipcpId, Ipcp.Generate(k.d)))));
      Proper(i) && Is(Step(l, YES, i), k.(ipcp := AckRcvd))
  {
    hide *;
    var ack := Packet(2, k.ipcpId, Ipcp.Generate(k.d));
    IsMeans(l, k);
    IpcpAckDigested(l, k);
    Hears(l, IPCP, ack);
    EventIs(Ack(l, IPCP, ack), Rca, ack);
    FirstAckFacts(Ack(l, IPCP, ack), k, ack);
    IsMeans(IpcpEvent(Ack(l, IPCP, ack), YES, Rca, ack), k.(ipcp := AckRcvd));
  }

  lemma IpcpAckedLast(l: Link, k: Known)
    requires Is(l, k) && k.phase.Network? && k.ipcp.AckSent?
    ensures var i := Input.Frame(FrameBytes(Letter(IPCP, Packet(2, k.ipcpId, Ipcp.Generate(k.d)))));
      Proper(i) && Step(l, YES, i).net && Is(Step(l, YES, i), k.(phase := LinkUp, ipcp := Opened))
  {
    hide *;
    var ack := Packet(2, k.ipcpId, Ipcp.Generate(k.d));
    IsMeans(l, k);
    IpcpAckDigested(l, k);
    Hears(l, IPCP, ack);
    EventIs(Ack(l, IPCP, ack), Rca, ack);
    OpeningFacts(Ack(l, IPCP, ack), k, Rca, ack);
    assert k.sent + [] == k.sent;
    IsMeans(IpcpEvent(Ack(l, IPCP, ack), YES, Rca, ack), k.(phase := LinkUp, ipcp := Opened));
  }

  /** A server that waits only for an acceptable request. */
  lemma {:induction false} IpcpAskedLast(l: Link, k: Known, id: byte, data: seq<byte>)
    requires Is(l, k) && k.phase.Network? && k.ipcp.AckRcvd? && Travels(Packet(1, id, data))
    requires k.d.isServer && PppOptions.WellFormed(data) && Ipcp.ServerReply(k.d, data).verdict.Accept?
    ensures var i := Input.Frame(FrameBytes(Letter(IPCP, Packet(1, id, data))));
      && Proper(i) && Step(l, YES, i).net
      && Is(Step(l, YES, i), k.(phase := LinkUp, ipcp := Opened, failures := 0, sent := k.sent + [Letter(IPCP, Packet(2, id, data))]))
  {
    hide *;
    var packet := Packet(1, id, data);
    IsMeans(l, k);
    AcceptDigested(l, id, data);
    Hears(l, IPCP, packet);
    EventIs(l, RcrPlus, packet);
    OpeningFacts(l, k, RcrPlus, packet);
    IsMeans(IpcpEvent(l, YES, RcrPlus, packet),
            k.(phase := LinkUp, ipcp := Opened, failures := 0, sent := k.sent + [Letter(IPCP, Packet(2, id, data))]));
  }

  lemma {:induction false} AcceptDigested(l: Link, id: byte, data: seq<byte>)
    requires PppOptions.WellFormed(data) && l.ipcp.failures < l.ipcp.maxFailure
    requires l.ipcpData.isServer && Ipcp.ServerReply(l.ipcpData, data).verdict.Accept?
    ensures Digest(l, IPCP, Packet(1, id, data)) == (l, Some(RcrPlus))
  {
    hide PppOptions.WellFormed, Ipcp.ServerReply;
    assert Settle(l.ipcp, Ipcp.Accept, None) == l.ipcp;
  }

  // ---- What the two say to each other ----

  /** The settings of a server: its own address, and what it hands out. */
  datatype Settings = Settings(own: Ipcp.Addr, peer: Ipcp.Addr, dns1: Ipcp.Addr, dns2: Ipcp.Addr)

  function ServerData(t: Settings): Ipcp.Ipcp {
    Ipcp.New(true, t.own).(peer := t.peer, dns1 := t.dns1, dns2 := t.dns2)
  }

  /** What the client asks for in its three requests, its peer's address apart. */
  function Wish(t: Settings, n: nat): Ipcp.Ipcp {
    if n == 1 then Ipcp.New(false, Ipcp.NO_ADDR)
    else if n == 2 then Ipcp.Asking(Ipcp.NO_ADDR, Ipcp.NO_ADDR, Ipcp.NO_ADDR)
    else Ipcp.Asking(t.peer, t.dns1, t.dns2)
  }

  /** The same once the client has heard the server's address. */
  function Learned(t: Settings, n: nat): Ipcp.Ipcp {
    Wish(t, n).(peer := t.own)
  }

  function Asks(t: Settings, n: nat): seq<byte> {
    Ipcp.Generate(Wish(t, n))
  }

  function ServerAsks(t: Settings): seq<byte> {
    Ipcp.Generate(ServerData(t))
  }

  function Replies(t: Settings, n: nat): seq<byte> {
    Ipcp.Round(Wish(t, n), ServerData(t)).options
  }

  function IpcpLetter(code: byte, id: byte, data: seq<byte>): Letter {
    Letter(IPCP, Packet(code, id, data))
  }

  function FromClient(t: Settings): seq<Letter> {
    [Letter(LCP, LCP_REQUEST), Letter(LCP, LCP_ACK), IpcpLetter(1, 1, Asks(t, 1)), IpcpLetter(2, 1, ServerAsks(t)),
     IpcpLetter(1, 2, Asks(t, 2)), IpcpLetter(1, 3, Asks(t, 3))]
  }

  function FromServer(t: Settings): seq<Letter> {
    [Letter(LCP, LCP_REQUEST), Letter(LCP, LCP_ACK), IpcpLetter(1, 1, ServerAsks(t)), IpcpLetter(4, 1, Replies(t, 1)),
     IpcpLetter(3, 2, Replies(t, 2)), IpcpLetter(2, 3, Asks(t, 3))]
  }

  /** Nobody asks for the address of the peer. */
  lemma PeerNotAsked(d: Ipcp.Ipcp, a: Ipcp.Addr)
    ensures Ipcp.Generate(d.(peer := a)) == Ipcp.Generate(d)
  {
  }

  lemma {:induction false} PeerKept(d: Ipcp.Ipcp, opts: seq<PppOptions.Opt>, a: Ipcp.Addr)
    ensures Ipcp.TakeRejs(d.(peer := a), opts) == Ipcp.TakeRejs(d, opts).(peer := a)
    ensures Ipcp.TakeNaks(d.(peer := a), opts) == Ipcp.TakeNaks(d, opts).(peer := a)
    decreases |opts|
  {
    if |opts| > 0 {
      PeerKept(Ipcp.TakeRej(d, opts[0]), opts[1..], a);
      PeerKept(Ipcp.TakeNak(d, opts[0]), opts[1..], a);
    }
  }

  lemma {:induction false} UnservedShorter(opts: seq<PppOptions.Opt>)
    requires forall i :: 0 <= i < |opts| ==> PppOptions.Printable(opts[i])
    ensures forall i :: 0 <= i < |Ipcp.Unserved(opts)| ==> PppOptions.Printable(Ipcp.Unserved(opts)[i])
    ensures |PppOptions.Print(Ipcp.Unserved(opts))| <= |PppOptions.Print(opts)| && 2 * |opts| <= |PppOptions.Print(opts)|
    decreases |opts|
  {
    if |opts| > 0 {
      UnservedShorter(opts[1..]);
      assert ([opts[0]] + Ipcp.Unserved(opts[1..]))[1..] == Ipcp.Unserved(opts[1..]);
    }
  }

  lemma {:induction false} CorrectionsShort(d: Ipcp.Ipcp, opts: seq<PppOptions.Opt>)
    ensures forall i :: 0 <= i < |Ipcp.Corrections(d, opts)| ==> PppOptions.Printable(Ipcp.Corrections(d, opts)[i])
    ensures |PppOptions.Print(Ipcp.Corrections(d, opts))| <= 6 * |opts|
    decreases |opts|
  {
    hide Ipcp.Served, Ipcp.Agrees;
    if |opts| > 0 {
      CorrectionsShort(d, opts[1..]);
      if Ipcp.Served(opts[0].kind) && !Ipcp.Agrees(d, opts[0]) {
        assert Ipcp.Corrections(d, opts)[1..] == Ipcp.Corrections(d, opts[1..]);
      }
    }
  }

  lemma ReplyTravels(c: Ipcp.Ipcp, d: Ipcp.Ipcp)
    ensures var r := Ipcp.Round(c, d); |r.options| < 1000 && PppOptions.WellFormed(r.options)
  {
    hide PppOptions.Parse, PppOptions.WellFormed, PppOptions.Print, Ipcp.Generate, Ipcp.Unserved, Ipcp.Corrections, Ipcp.Requested;
    Ipcp.RequestRoundTrip(c);
    var opts := PppOptions.Parse(Ipcp.Generate(c));
    PppOptions.PrintParse(Ipcp.Generate(c));
    UnservedShorter(opts);
    CorrectionsShort(d, opts);
    PppOptions.ParsePrint(Ipcp.Unserved(opts));
    PppOptions.ParsePrint(Ipcp.Corrections(d, opts));
    NothingTravels();
  }

  lemma NothingTravels()
    ensures PppOptions.WellFormed([])
  {
  }

  /** The server's own request: its address, if it has one. */
  lemma {:induction false} ServerHeard(t: Settings)
    ensures var data := ServerAsks(t);
      && PppOptions.WellFormed(data) && |data| < 1000 && Ipcp.ClientReply(data).verdict.Accept?
      && Ipcp.ClientHears(Wish(t, 1), PppOptions.Parse(data)) == Learned(t, 1)
  {
    var s := ServerData(t);
    Ipcp.RequestRoundTrip(s);
    OneAsked(t);
    Ipcp.RefusedSize(ServerAsks(t));
    hide PppOptions.Parse, PppOptions.WellFormed, Ipcp.Generate, Ipcp.ClientReply, Ipcp.Requested;
    if t.own == Ipcp.NO_ADDR {
      assert Ipcp.Refused([]) == [];
      assert Ipcp.ClientHears(Wish(t, 1), []) == Wish(t, 1) == Learned(t, 1);
    } else {
      var o := PppOptions.Opt(3, t.own);
      assert t.own[..4] == t.own;
      assert [o][1..] == [] && Ipcp.Refused([o]) == Ipcp.Refused([]) == [];
      assert Ipcp.ClientHears(Wish(t, 1), [o]) == Ipcp.ClientHears(Ipcp.HearAddress(Wish(t, 1), o), []);
    }
  }

  lemma OneAsked(t: Settings)
    ensures Ipcp.Requested(ServerData(t)) == if t.own == Ipcp.NO_ADDR then [] else [PppOptions.Opt(3, t.own)]
  {
  }

  /** The three rounds, as the server answers them and as the client takes the answers. */
  lemma Conversation(t: Settings)
    requires t.peer != Ipcp.NO_ADDR && t.dns1 != Ipcp.NO_ADDR && t.dns2 != Ipcp.NO_ADDR
    ensures Ipcp.Round(Wish(t, 1), ServerData(t)).verdict.Reject?
    ensures Ipcp.Rejected(Learned(t, 1), PppOptions.Parse(Replies(t, 1))) == Learned(t, 2)
    ensures Ipcp.Round(Wish(t, 2), ServerData(t)).verdict.Nak?
    ensures Ipcp.Naked(Learned(t, 2), PppOptions.Parse(Replies(t, 2))) == Learned(t, 3)
    ensures Ipcp.Round(Wish(t, 3), ServerData(t)).verdict.Accept?
  {
    hide Ipcp.Round, PppOptions.Parse, Ipcp.TakeRejs, Ipcp.TakeNaks;
    var s := ServerData(t);
    Ipcp.FirstRound(s);
    Ipcp.SecondRound(s);
    Ipcp.ClientLearnsSettings(s);
    PeerKept(Wish(t, 1), PppOptions.Parse(Replies(t, 1)), t.own);
    PeerKept(Wish(t, 2), PppOptions.Parse(Replies(t, 2)), t.own);
  }

  lemma WishTravels(t: Settings, n: nat)
    ensures PppOptions.WellFormed(Asks(t, n)) && |Asks(t, n)| < 1000 && !Wish(t, n).isServer
    ensures Ipcp.Round(Wish(t, n), ServerData(t)) == Ipcp.ServerReply(ServerData(t), Asks(t, n))
    ensures Ipcp.Generate(Learned(t, n)) == Asks(t, n)
  {
    Ipcp.RequestRoundTrip(Wish(t, n));
    PeerNotAsked(Wish(t, n), t.own);
    hide PppOptions.WellFormed, PppOptions.Parse, Ipcp.Generate, Ipcp.ServerReply;
  }

  // ---- The two come up ----

  /** The first n packets of each. */
  function C(t: Settings, n: nat): seq<Letter>
    requires n <= 6
  {
    FromClient(t)[..n]
  }

  function S(t: Settings, n: nat): seq<Letter>
    requires n <= 6
  {
    FromServer(t)[..n]
  }

  lemma Lists(t: Settings, n: nat)
    requires n < 6
    ensures C(t, n) + [FromClient(t)[n]] == C(t, n + 1) && S(t, n) + [FromServer(t)[n]] == S(t, n + 1)
    ensures |C(t, 6)| == |S(t, 6)| == 6
    ensures C(t, 0) == S(t, 0) == []
  {
    hide FromClient, FromServer;
    Letters(t);
    Prefix(FromClient(t), n);
    Prefix(FromServer(t), n);
  }

  lemma Prefix(s: seq<Letter>, n: nat)
    requires n < |s|
    ensures s[..n] + [s[n]] == s[..n + 1]
  {
  }

  /** A client or server whose IPCP has not begun, or is at work. */
  function Early(lcp: State, id: byte, d: Ipcp.Ipcp, sent: seq<Letter>): Known {
    Known(Establishment, lcp, id, Initial, 0, 0, d, sent)
  }

  function Late(ipcp: State, id: byte, failures: nat, d: Ipcp.Ipcp, sent: seq<Letter>): Known {
    Known(if ipcp.Opened? then LinkUp else Network, Opened, 1, ipcp, id, failures, d, sent)
  }

  function Opens(): Link {
    Step(NewLink(false, Ipcp.NO_ADDR), YES, OpenLink)
  }

  function Waits(t: Settings): Link {
    Step(Step(NewLink(true, t.own), YES, ServerInfo(t.peer, t.dns1, t.dns2)), YES, Listen)
  }

  lemma TableOpens()
    ensures Transition(Up, Initial) == Go({}, Closed) && Transition(Open, Closed) == Go({IRC, SCR}, ReqSent)
  {
  }

  lemma ClosedOpened(cp: Cp)
    requires cp.state.Closed?
    ensures var r := Generate(cp, Open, NO_PACKET);
      && r.sent == [Packet(1, (cp.configId + 1) % 256, cp.localOptions)] && r.signal.Quiet? && r.cp.state.ReqSent?
      && r.cp.configId == (cp.configId + 1) % 256 && r.cp.failures == cp.failures && Keeps(cp, r.cp)
  {
    TableOpens();
    hide Transition;
  }

  lemma InitialRaised(cp: Cp)
    requires cp.state.Initial?
    ensures var r := Generate(cp, Up, NO_PACKET);
      && r.sent == [] && r.signal.Quiet? && r.cp.state.Closed? && r.cp.configId == cp.configId && r.cp.failures == cp.failures
      && Keeps(cp, r.cp)
  {
    TableOpens();
    hide Transition;
  }

  lemma FreshFacts(t: Settings)
    ensures Facts(NewLink(false, Ipcp.NO_ADDR), Known(Dead, Initial, 0, Initial, 0, 0, Wish(t, 1), []))
    ensures Facts(NewLink(true, t.own), Known(Dead, Stopped, 0, Initial, 0, 0, Ipcp.New(true, t.own), []))
  {
    hide Ipcp.Generate;
    NoneSent();
    assert Lcp.Generate(Lcp.Lcp({}, 0, 0)) == [];
  }

  lemma RaisedFacts(l: Link, k: Known)
    requires Facts(l, k) && k.lcp.Initial?
    ensures Facts(LcpEvent(l, YES, Up, NO_PACKET), k.(lcp := Closed))
  {
    hide Generate, Entries, Ipcp.Generate, Sent, LcpEvent;
    InitialRaised(l.lcp);
    NoSta(l.lcp, Up);
    QuietEvent(l, Up, NO_PACKET);
    AppliedSent(l, LCP, Up, NO_PACKET);
    NoneOrOne(LCP, Generate(l.lcp, Up, NO_PACKET).sent);
    assert k.sent + [] == k.sent;
  }

  lemma OpenedFacts(l: Link, k: Known)
    requires Facts(l, k) && k.lcp.Closed? && k.lcpId == 0
    ensures Facts(LcpEvent(l, YES, Open, NO_PACKET), k.(lcp := ReqSent, lcpId := 1, sent := k.sent + [Letter(LCP, LCP_REQUEST)]))
  {
    hide Generate, Entries, Ipcp.Generate, Sent, LcpEvent;
    ClosedOpened(l.lcp);
    NoSta(l.lcp, Open);
    QuietEvent(l, Open, NO_PACKET);
    AppliedSent(l, LCP, Open, NO_PACKET);
    NoneOrOne(LCP, Generate(l.lcp, Open, NO_PACKET).sent);
  }

  lemma BegunFacts(l: Link, k: Known, open: bool)
    requires !l.started
    requires Facts(if open then LcpEvent(LcpEvent(l, YES, Up, NO_PACKET), YES, Open, NO_PACKET) else l, k)
    ensures Facts(Begin(l, YES, open), k.(phase := Establishment))
  {
    hide Sent, Ipcp.Generate, LcpEvent;
  }

  lemma OpensIs(l: Link)
    ensures Step(l, YES, OpenLink) == Begin(l, YES, true) && Step(l, YES, Listen) == Begin(l, YES, false)
    ensures !NewLink(false, Ipcp.NO_ADDR).started
  {
    hide Begin;
  }

  lemma ClientStarts(t: Settings)
    ensures Is(Opens(), Early(ReqSent, 1, Wish(t, 1), C(t, 1)))
  {
    hide *;
    var l, k := NewLink(false, Ipcp.NO_ADDR), Known(Dead, Initial, 0, Initial, 0, 0, Wish(t, 1), []);
    NewLinkOk(false, Ipcp.NO_ADDR);
    OpensMeans(t);
    StepKeeps(l, YES, OpenLink);
    OpensIs(l);
    FreshFacts(t);
    RaisedFacts(l, k);
    var l1 := LcpEvent(l, YES, Up, NO_PACKET);
    OpenedFacts(l1, k.(lcp := Closed));
    var k1 := Known(Dead, ReqSent, 1, Initial, 0, 0, Wish(t, 1), [] + [Letter(LCP, LCP_REQUEST)]);
    BegunFacts(l, k1, true);
    Lists(t, 0);
    Letters(t);
    EarlyIs(ReqSent, 1, Wish(t, 1), C(t, 1));
    assert [] + [Letter(LCP, LCP_REQUEST)] == C(t, 1);
    IsMeans(Opens(), Early(ReqSent, 1, Wish(t, 1), C(t, 1)));
  }

  lemma OpensMeans(t: Settings)
    ensures Proper(OpenLink) && Proper(Listen) && Opens() == Step(NewLink(false, Ipcp.NO_ADDR), YES, OpenLink)
  {
    hide Step;
  }

  lemma EarlyIs(lcp: State, id: byte, d: Ipcp.Ipcp, sent: seq<Letter>)
    ensures Early(lcp, id, d, sent) == Known(Establishment, lcp, id, Initial, 0, 0, d, sent)
  {
  }

  lemma NoneSent()
    ensures Sent([]) == []
  {
  }

  lemma NoSta(cp: Cp, e: Event)
    requires e.Up? || e.Open?
    ensures !SendsTerminateAck(cp, e)
  {
  }

  lemma ServerStarts(t: Settings)
    ensures Is(Waits(t), Early(Stopped, 0, ServerData(t), S(t, 0)))
  {
    hide *;
    var l, k := NewLink(true, t.own), Known(Dead, Stopped, 0, Initial, 0, 0, Ipcp.New(true, t.own), []);
    var i := ServerInfo(t.peer, t.dns1, t.dns2);
    NewLinkOk(true, t.own);
    WaitsMeans(t);
    StepKeeps(l, YES, i);
    var l1 := Step(l, YES, i);
    StepKeeps(l1, YES, Listen);
    OpensIs(l1);
    FreshFacts(t);
    SameRequest(t);
    BegunFacts(l1, Known(Dead, Stopped, 0, Initial, 0, 0, ServerData(t), []), false);
    Lists(t, 0);
    EarlyIs(Stopped, 0, ServerData(t), S(t, 0));
    IsMeans(Waits(t), Early(Stopped, 0, ServerData(t), S(t, 0)));
  }

  lemma WaitsMeans(t: Settings)
    ensures var l := NewLink(true, t.own); var i := ServerInfo(t.peer, t.dns1, t.dns2);
      && Proper(i) && Proper(Listen) && Waits(t) == Step(Step(l, YES, i), YES, Listen) && !Step(l, YES, i).started
      && (Facts(l, Known(Dead, Stopped, 0, Initial, 0, 0, Ipcp.New(true, t.own), [])) ==>
          Facts(Step(l, YES, i), Known(Dead, Stopped, 0, Initial, 0, 0, ServerData(t), [])))
  {
    SameRequest(t);
    hide Ipcp.Generate, Sent, Begin;
  }

  lemma SameRequest(t: Settings)
    ensures Ipcp.Generate(Ipcp.New(true, t.own)) == Ipcp.Generate(ServerData(t))
  {
  }

  lemma Letters(t: Settings)
    ensures FromClient(t)[0] == Letter(LCP, LCP_REQUEST) && FromClient(t)[1] == Letter(LCP, LCP_ACK)
    ensures FromClient(t)[2] == IpcpLetter(1, 1, Asks(t, 1)) && FromClient(t)[3] == IpcpLetter(2, 1, ServerAsks(t))
    ensures FromClient(t)[4] == IpcpLetter(1, 2, Asks(t, 2)) && FromClient(t)[5] == IpcpLetter(1, 3, Asks(t, 3))
    ensures FromServer(t)[0] == Letter(LCP, LCP_REQUEST) && FromServer(t)[1] == Letter(LCP, LCP_ACK)
    ensures FromServer(t)[2] == IpcpLetter(1, 1, ServerAsks(t)) && FromServer(t)[3] == IpcpLetter(4, 1, Replies(t, 1))
    ensures FromServer(t)[4] == IpcpLetter(3, 2, Replies(t, 2)) && FromServer(t)[5] == IpcpLetter(2, 3, Asks(t, 3))
    ensures |FromClient(t)| == |FromServer(t)| == 6
  {
    hide Asks, ServerAsks, Replies;
  }

  /** The records of the two along their way. */
  function Client(t: Settings, n: nat): Known {
    match n
    case 0 => Early(ReqSent, 1, Wish(t, 1), C(t, 1))
    case 1 => Early(AckSent, 1, Wish(t, 1), C(t, 2))
    case 2 => Late(ReqSent, 1, 0, Wish(t, 1), C(t, 3))
    case 3 => Late(AckSent, 1, 0, Learned(t, 1), C(t, 4))
    case 4 => Late(AckSent, 2, 0, Learned(t, 2), C(t, 5))
    case 5 => Late(AckSent, 3, 0, Learned(t, 3), C(t, 6))
    case _ => Late(Opened, 3, 0, Learned(t, 3), C(t, 6))
  }

  function Server(t: Settings, n: nat): Known {
    match n
    case 0 => Early(Stopped, 0, ServerData(t), S(t, 0))
    case 1 => Early(AckSent, 1, ServerData(t), S(t, 2))
    case 2 => Late(ReqSent, 1, 0, ServerData(t), S(t, 3))
    case 3 => Late(ReqSent, 1, 0, ServerData(t), S(t, 4))
    case 4 => Late(AckRcvd, 1, 0, ServerData(t), S(t, 4))
    case 5 => Late(AckRcvd, 1, 1, ServerData(t), S(t, 5))
    case _ => Late(Opened, 1, 0, ServerData(t), S(t, 6))
  }

  /** The next packet of the server takes the client from one record to the next. */
  lemma ClientHears(t: Settings, l: Link, n: nat)
    requires n < 6 && Good(t) && Is(l, Client(t, n))
    ensures var i := Input.Frame(FrameBytes(FromServer(t)[n])); Proper(i) && Is(Step(l, YES, i), Client(t, n + 1))
  {
    match n
    case 0 => ClientAsked(t, l);
    case 1 => ClientOpened(t, l);
    case 2 => ClientAgrees(t, l);
    case 3 => ClientRefused(t, l);
    case 4 => ClientCorrected(t, l);
    case 5 => ClientUp(t, l);
  }

  predicate Good(t: Settings) {
    t.peer != [0, 0, 0, 0] && t.dns1 != [0, 0, 0, 0] && t.dns2 != [0, 0, 0, 0]
  }

  lemma ClientRecords(t: Settings)
    ensures Client(t, 0) == Known(Establishment, ReqSent, 1, Initial, 0, 0, Wish(t, 1), C(t, 1))
    ensures Client(t, 1) == Known(Establishment, AckSent, 1, Initial, 0, 0, Wish(t, 1), C(t, 2))
    ensures Client(t, 2) == Known(Network, Opened, 1, ReqSent, 1, 0, Wish(t, 1), C(t, 3))
    ensures Client(t, 3) == Known(Network, Opened, 1, AckSent, 1, 0, Learned(t, 1), C(t, 4))
    ensures Client(t, 4) == Known(Network, Opened, 1, AckSent, 2, 0, Learned(t, 2), C(t, 5))
    ensures Client(t, 5) == Known(Network, Opened, 1, AckSent, 3, 0, Learned(t, 3), C(t, 6))
    ensures Client(t, 6) == Known(LinkUp, Opened, 1, Opened, 3, 0, Learned(t, 3), C(t, 6))
  {
    hide C, Wish, Learned;
  }

  lemma ServerRecords(t: Settings)
    ensures Server(t, 0) == Known(Establishment, Stopped, 0, Initial, 0, 0, ServerData(t), S(t, 0))
    ensures Server(t, 1) == Known(Establishment, AckSent, 1, Initial, 0, 0, ServerData(t), S(t, 2))
    ensures Server(t, 2) == Known(Network, Opened, 1, ReqSent, 1, 0, ServerData(t), S(t, 3))
    ensures Server(t, 3) == Known(Network, Opened, 1, ReqSent, 1, 0, ServerData(t), S(t, 4))
    ensures Server(t, 4) == Known(Network, Opened, 1, AckRcvd, 1, 0, ServerData(t), S(t, 4))
    ensures Server(t, 5) == Known(Network, Opened, 1, AckRcvd, 1, 1, ServerData(t), S(t, 5))
    ensures Server(t, 6) == Known(LinkUp, Opened, 1, Opened, 1, 0, ServerData(t), S(t, 6))
  {
    hide S, ServerData;
  }

  lemma GoodIs(t: Settings)
    ensures Good(t) <==> t.peer != Ipcp.NO_ADDR && t.dns1 != Ipcp.NO_ADDR && t.dns2 != Ipcp.NO_ADDR
  {
  }

  /** The bytes asked for and returned are those of the records. */
  lemma SameBytes(t: Settings)
    ensures Asks(t, 1) == Ipcp.Generate(Wish(t, 1)) && ServerAsks(t) == Ipcp.Generate(ServerData(t))
    ensures Replies(t, 1) == Ipcp.Round(Wish(t, 1), ServerData(t)).options
    ensures Replies(t, 2) == Ipcp.Round(Wish(t, 2), ServerData(t)).options
    ensures Packet(1, 1, []) == LCP_REQUEST && Packet(2, 1, []) == LCP_ACK
    ensures forall code: byte, id: byte, data: seq<byte> :: IpcpLetter(code, id, data) == Letter(IPCP, Packet(code, id, data))
  {
    hide Wish, ServerData, Ipcp.Generate, Ipcp.Round;
  }

  lemma ClientAsked(t: Settings, l: Link)
    requires Is(l, Client(t, 0))
    ensures var i := Input.Frame(FrameBytes(FromServer(t)[0])); Proper(i) && Is(Step(l, YES, i), Client(t, 1))
  {
    hide *;
    ClientRecords(t);
    SameBytes(t);
    GoodIs(t);
    Letters(t);
    Lists(t, 1);
    LcpAsked(l, Client(t, 0));
    assert C(t, 1) + [] + [Letter(LCP, LCP_ACK)] == C(t, 2);
  }

  lemma ClientOpened(t: Settings, l: Link)
    requires Is(l, Client(t, 1))
    ensures var i := Input.Frame(FrameBytes(FromServer(t)[1])); Proper(i) && Is(Step(l, YES, i), Client(t, 2))
  {
    hide *;
    ClientRecords(t);
    SameBytes(t);
    GoodIs(t);
    Letters(t);
    Lists(t, 2);
    assert Asks(t, 1) == Ipcp.Generate(Wish(t, 1));
    LcpAcked(l, Client(t, 1));
  }

  lemma ClientAgrees(t: Settings, l: Link)
    requires Is(l, Client(t, 2))
    ensures var i := Input.Frame(FrameBytes(FromServer(t)[2])); Proper(i) && Is(Step(l, YES, i), Client(t, 3))
  {
    hide *;
    ClientRecords(t);
    SameBytes(t);
    GoodIs(t);
    Letters(t);
    Lists(t, 3);
    ServerHeard(t);
    WishTravels(t, 1);
    SameWish(t);
    TravelsIf(1, 1, ServerAsks(t));
    IpcpAgreed(l, Client(t, 2), 1, ServerAsks(t), Learned(t, 1));
  }

  lemma SameWish(t: Settings)
    ensures Ipcp.Generate(Wish(t, 1)) == Asks(t, 1)
  {
    hide Ipcp.Generate;
  }

  lemma ClientRefused(t: Settings, l: Link)
    requires Good(t) && Is(l, Client(t, 3))
    ensures var i := Input.Frame(FrameBytes(FromServer(t)[3])); Proper(i) && Is(Step(l, YES, i), Client(t, 4))
  {
    hide *;
    ClientRecords(t);
    SameBytes(t);
    GoodIs(t);
    Letters(t);
    Lists(t, 4);
    Conversation(t);
    WishTravels(t, 2);
    RepliesTravel(t, 1);
    NotServer(t, 1);
    IpcpAsksAgain(l, Client(t, 3), 4, Replies(t, 1), Learned(t, 2));
  }

  lemma ClientCorrected(t: Settings, l: Link)
    requires Good(t) && Is(l, Client(t, 4))
    ensures var i := Input.Frame(FrameBytes(FromServer(t)[4])); Proper(i) && Is(Step(l, YES, i), Client(t, 5))
  {
    hide *;
    ClientRecords(t);
    SameBytes(t);
    GoodIs(t);
    Letters(t);
    Lists(t, 5);
    Conversation(t);
    WishTravels(t, 3);
    RepliesTravel(t, 2);
    NotServer(t, 2);
    IpcpAsksAgain(l, Client(t, 4), 3, Replies(t, 2), Learned(t, 3));
  }

  lemma RepliesTravel(t: Settings, n: nat)
    ensures Travels(Packet(4, n % 256, Replies(t, n))) && Travels(Packet(3, n % 256, Replies(t, n)))
  {
    ReplyTravels(Wish(t, n), ServerData(t));
    hide Ipcp.Round, PppOptions.WellFormed;
  }

  lemma NotServer(t: Settings, n: nat)
    ensures !Learned(t, n).isServer && ServerData(t).isServer
  {
  }

  lemma ClientUp(t: Settings, l: Link)
    requires Is(l, Client(t, 5))
    ensures var i := Input.Frame(FrameBytes(FromServer(t)[5])); Proper(i) && Is(Step(l, YES, i), Client(t, 6))
  {
    hide *;
    ClientRecords(t);
    SameBytes(t);
    GoodIs(t);
    Letters(t);
    WishTravels(t, 3);
    IpcpAckedLast(l, Client(t, 5));
  }

  /** The next packet of the client takes the server from one record to the next. */
  lemma ServerHears(t: Settings, l: Link, n: nat)
    requires n < 6 && Good(t) && Is(l, Server(t, n))
    ensures var i := Input.Frame(FrameBytes(FromClient(t)[n])); Proper(i) && Is(Step(l, YES, i), Server(t, n + 1))
  {
    match n
    case 0 => ServerAsked(t, l);
    case 1 => ServerOpened(t, l);
    case 2 => ServerRefuses(t, l);
    case 3 => ServerAcked(t, l);
    case 4 => ServerCorrects(t, l);
    case 5 => ServerUp(t, l);
  }

  lemma ServerAsked(t: Settings, l: Link)
    requires Is(l, Server(t, 0))
    ensures var i := Input.Frame(FrameBytes(FromClient(t)[0])); Proper(i) && Is(Step(l, YES, i), Server(t, 1))
  {
    hide *;
    ServerRecords(t);
    SameBytes(t);
    GoodIs(t);
    Letters(t);
    Lists(t, 0);
    Lists(t, 1);
    LcpAsked(l, Server(t, 0));
    assert S(t, 0) + [Letter(LCP, LCP_REQUEST)] + [Letter(LCP, LCP_ACK)] == S(t, 2);
  }

  lemma ServerOpened(t: Settings, l: Link)
    requires Is(l, Server(t, 1))
    ensures var i := Input.Frame(FrameBytes(FromClient(t)[1])); Proper(i) && Is(Step(l, YES, i), Server(t, 2))
  {
    hide *;
    ServerRecords(t);
    SameBytes(t);
    GoodIs(t);
    Letters(t);
    Lists(t, 2);
    assert ServerAsks(t) == Ipcp.Generate(ServerData(t));
    LcpAcked(l, Server(t, 1));
  }

  lemma AnswerIs(t: Settings, l: Link, n: nat, k: Known)
    requires Facts(l, k) && k.d == ServerData(t) && 1 <= n <= 3 && Good(t)
    ensures PppOptions.WellFormed(Asks(t, n))
    ensures n == 1 ==> IpcpAnswer(l, 1, Asks(t, n)) == Packet(4, 1, Replies(t, n))
    ensures n == 2 ==> IpcpAnswer(l, 2, Asks(t, n)) == Packet(3, 2, Replies(t, n))
  {
    hide *;
    IsMeans(l, k);
    GoodIs(t);
    WishTravels(t, n);
    Conversation(t);
    NotServer(t, n);
    SameBytes(t);
    AnsweredAs(l, n, Asks(t, n), Ipcp.Round(Wish(t, n), ServerData(t)));
  }

  lemma {:induction false} AnsweredAs(l: Link, n: nat, data: seq<byte>, j: Ipcp.Reply)
    requires 1 <= n <= 3 && l.ipcpData.isServer && l.ipcp.failures < l.ipcp.maxFailure
    requires PppOptions.WellFormed(data) && j == Ipcp.ServerReply(l.ipcpData, data)
    ensures j.verdict.Reject? ==> IpcpAnswer(l, n, data) == Packet(4, n, j.options)
    ensures j.verdict.Nak? ==> IpcpAnswer(l, n, data) == Packet(3, n, j.options)
  {
    hide PppOptions.WellFormed, Ipcp.ServerReply, Ipcp.ClientReply;
  }

  lemma ServerRefuses(t: Settings, l: Link)
    requires Good(t) && Is(l, Server(t, 2))
    ensures var i := Input.Frame(FrameBytes(FromClient(t)[2])); Proper(i) && Is(Step(l, YES, i), Server(t, 3))
  {
    hide *;
    ServerRecords(t);
    SameBytes(t);
    GoodIs(t);
    IsMeans(l, Server(t, 2));
    Letters(t);
    Lists(t, 3);
    WishTravels(t, 1);
    NotServer(t, 1);
    NegotiatingIs(ReqSent);
    TravelsIf(1, 1, Asks(t, 1));
    AnswerIs(t, l, 1, Server(t, 2));
    IpcpRefused(l, Server(t, 2), 1, Asks(t, 1), Packet(4, 1, Replies(t, 1)));
  }

  lemma ServerCorrects(t: Settings, l: Link)
    requires Good(t) && Is(l, Server(t, 4))
    ensures var i := Input.Frame(FrameBytes(FromClient(t)[4])); Proper(i) && Is(Step(l, YES, i), Server(t, 5))
  {
    hide *;
    ServerRecords(t);
    SameBytes(t);
    GoodIs(t);
    IsMeans(l, Server(t, 4));
    Letters(t);
    Lists(t, 4);
    WishTravels(t, 2);
    NotServer(t, 2);
    NegotiatingIs(AckRcvd);
    TravelsIf(1, 2, Asks(t, 2));
    AnswerIs(t, l, 2, Server(t, 4));
    IpcpRefused(l, Server(t, 4), 2, Asks(t, 2), Packet(3, 2, Replies(t, 2)));
  }

  lemma ServerAcked(t: Settings, l: Link)
    requires Is(l, Server(t, 3))
    ensures var i := Input.Frame(FrameBytes(FromClient(t)[3])); Proper(i) && Is(Step(l, YES, i), Server(t, 4))
  {
    hide *;
    ServerRecords(t);
    SameBytes(t);
    GoodIs(t);
    Letters(t);
    assert ServerAsks(t) == Ipcp.Generate(ServerData(t));
    IpcpAckedFirst(l, Server(t, 3));
  }

  lemma ServerUp(t: Settings, l: Link)
    requires Good(t) && Is(l, Server(t, 5))
    ensures var i := Input.Frame(FrameBytes(FromClient(t)[5])); Proper(i) && Is(Step(l, YES, i), Server(t, 6))
  {
    hide *;
    ServerRecords(t);
    SameBytes(t);
    GoodIs(t);
    Letters(t);
    Lists(t, 5);
    WishTravels(t, 3);
    Conversation(t);
    NotServer(t, 3);
    TravelsIf(1, 3, Asks(t, 3));
    IpcpAskedLast(l, Server(t, 5), 3, Asks(t, 3));
  }

  // ---- Whatever the order of the arrivals ----

  /** How far the two are follows from how many packets each has heard. */
  ghost predicate Joint(t: Settings, p: Pair) {
    && p.heardByClient <= 6 && p.heardByServer <= 6
    && Is(p.client, Client(t, p.heardByClient)) && Is(p.server, Server(t, p.heardByServer))
  }

  lemma SoFar(t: Settings, n: nat)
    requires n <= 6
    ensures Client(t, n).sent == C(t, if n == 6 then 6 else n + 1)
    ensures Server(t, n).sent == S(t, if n == 0 then 0 else if n < 4 then n + 1 else n)
  {
    hide C, S;
  }

  lemma JointMeans(t: Settings, p: Pair)
    ensures Joint(t, p) <==> p.heardByClient <= 6 && p.heardByServer <= 6
                             && Is(p.client, Client(t, p.heardByClient)) && Is(p.server, Server(t, p.heardByServer))
  {
    hide Is, Client, Server;
  }

  lemma OnItsWayMeans(p: Pair)
    ensures OnItsWay(p, true) <==> p.heardByClient < |Sent(p.server.log)|
                                   && Proper(Input.Frame(FrameBytes(Sent(p.server.log)[p.heardByClient])))
    ensures OnItsWay(p, false) <==> p.heardByServer < |Sent(p.client.log)|
                                    && Proper(Input.Frame(FrameBytes(Sent(p.client.log)[p.heardByServer])))
    ensures OnItsWay(p, true) ==>
      Arrive(p, true) == p.(client := Step(p.client, YES, Input.Frame(FrameBytes(Sent(p.server.log)[p.heardByClient]))),
                            heardByClient := p.heardByClient + 1)
    ensures OnItsWay(p, false) ==>
      Arrive(p, false) == p.(server := Step(p.server, YES, Input.Frame(FrameBytes(Sent(p.client.log)[p.heardByServer]))),
                             heardByServer := p.heardByServer + 1)
  {
    hide Sent, Step, Proper, FrameBytes;
  }

  /** What each of the two will hear next. */
  lemma NextHeard(t: Settings, p: Pair)
    requires Joint(t, p)
    ensures p.heardByClient < |Sent(p.server.log)| ==>
      p.heardByClient < 6 && Sent(p.server.log)[p.heardByClient] == FromServer(t)[p.heardByClient]
    ensures p.heardByServer < |Sent(p.client.log)| ==>
      p.heardByServer < 6 && Sent(p.client.log)[p.heardByServer] == FromClient(t)[p.heardByServer]
    ensures |FromClient(t)| == |FromServer(t)| == 6
    ensures p.heardByClient == p.heardByServer == 6
            || p.heardByClient < |Sent(p.server.log)| || p.heardByServer < |Sent(p.client.log)|
  {
    hide *;
    JointMeans(t, p);
    var a, b := p.heardByClient, p.heardByServer;
    SoFar(t, a);
    SoFar(t, b);
    IsMeans(p.client, Client(t, a));
    IsMeans(p.server, Server(t, b));
    HeardIs(t, a);
    HeardIs(t, b);
    Letters(t);
  }

  lemma ArrivalKeeps(t: Settings, p: Pair, toClient: bool)
    requires Good(t) && Joint(t, p) && OnItsWay(p, toClient)
    ensures Joint(t, Arrive(p, toClient))
    ensures var q := Arrive(p, toClient); q.heardByClient + q.heardByServer == p.heardByClient + p.heardByServer + 1
  {
    hide *;
    JointMeans(t, p);
    OnItsWayMeans(p);
    NextHeard(t, p);
    if toClient {
      ClientHears(t, p.client, p.heardByClient);
    } else {
      ServerHears(t, p.server, p.heardByServer);
    }
    JointMeans(t, Arrive(p, toClient));
  }

  lemma HeardIs(t: Settings, n: nat)
    requires n <= 6
    ensures forall k: nat :: k <= 6 ==> |C(t, k)| == |S(t, k)| == k && (n < k ==> C(t, k)[n] == FromClient(t)[n] && S(t, k)[n] == FromServer(t)[n])
  {
    hide FromClient, FromServer;
    Letters(t);
  }

  /** Until everything has been heard something is on its way. */
  lemma NeverStuck(t: Settings, p: Pair)
    requires Good(t) && Joint(t, p) && !(p.heardByClient == 6 && p.heardByServer == 6)
    ensures OnItsWay(p, true) || OnItsWay(p, false)
  {
    hide *;
    JointMeans(t, p);
    OnItsWayMeans(p);
    NextHeard(t, p);
    if p.heardByClient < |Sent(p.server.log)| {
      ClientHears(t, p.client, p.heardByClient);
    } else {
      ServerHears(t, p.server, p.heardByServer);
    }
  }

  lemma {:induction false} ArrivalsKeep(t: Settings, p: Pair, order: seq<bool>)
    requires Good(t) && Joint(t, p) && AllOnTheirWay(p, order)
    ensures var r := ArriveAll(p, order);
      Joint(t, r) && r.heardByClient + r.heardByServer == p.heardByClient + p.heardByServer + |order|
    decreases |order|
  {
    if |order| > 0 {
      hide Joint, OnItsWay, Arrive;
      ArrivalKeeps(t, p, order[0]);
      ArrivalsKeep(t, Arrive(p, order[0]), order[1..]);
    }
  }

  /** A client that opens and a server that listens, with any settings of which none is zero,
      and the packets of each arriving at the other whenever they do: something is always on
      its way until each has heard the six packets of the other, and then both links are up,
      each with its tunnel, and the client has the settings of the server. */
  lemma {:induction false} ClientMeetsServer(t: Settings, order: seq<bool>)
    requires t.peer != [0, 0, 0, 0] && t.dns1 != [0, 0, 0, 0] && t.dns2 != [0, 0, 0, 0]
    requires AllOnTheirWay(Pair(Opens(), Waits(t), 0, 0), order)
    ensures var r := ArriveAll(Pair(Opens(), Waits(t), 0, 0), order);
      && |order| <= 12
      && (|order| < 12 ==> OnItsWay(r, true) || OnItsWay(r, false))
      && (|order| == 12 ==>
           && r.client.phase.LinkUp? && r.client.net && r.server.phase.LinkUp? && r.server.net
           && |Sent(r.client.log)| == |Sent(r.server.log)| == 6
           && r.client.ipcpData.local == t.peer && r.client.ipcpData.peer == t.own
           && r.client.ipcpData.dns1 == t.dns1 && r.client.ipcpData.dns2 == t.dns2)
  {
    hide *;
    var p := Pair(Opens(), Waits(t), 0, 0);
    ClientStarts(t);
    ServerStarts(t);
    StartsJoint(t, p);
    ArrivalsKeep(t, p, order);
    var r := ArriveAll(p, order);
    JointMeans(t, r);
    if r.heardByClient == 6 && r.heardByServer == 6 {
      BothUp(t, r);
    } else {
      NeverStuck(t, r);
    }
  }

  lemma StartsJoint(t: Settings, p: Pair)
    requires t.peer != [0, 0, 0, 0] && t.dns1 != [0, 0, 0, 0] && t.dns2 != [0, 0, 0, 0]
    requires Is(p.client, Early(ReqSent, 1, Wish(t, 1), C(t, 1))) && Is(p.server, Early(Stopped, 0, ServerData(t), S(t, 0)))
    requires p.heardByClient == p.heardByServer == 0
    ensures Good(t) && Joint(t, p)
  {
    hide Is, C, S, Wish, ServerData;
  }

  lemma BothUp(t: Settings, p: Pair)
    requires Joint(t, p) && p.heardByClient == p.heardByServer == 6
    ensures p.client.phase.LinkUp? && p.client.net && p.server.phase.LinkUp? && p.server.net
    ensures |Sent(p.client.log)| == |Sent(p.server.log)| == 6
    ensures var d := p.client.ipcpData; d.local == t.peer && d.peer == t.own && d.dns1 == t.dns1 && d.dns2 == t.dns2
  {
    IsMeans(p.client, Client(t, 6));
    IsMeans(p.server, Server(t, 6));
    Lists(t, 5);
    hide Histories, Timers, Resources, Facts, Sent, C, S;
  }
}
