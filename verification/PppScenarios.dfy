/** Runs that reach the surprising states: what is proved about such states happens. */
module PppScenarios {
  import opened Bytes
  import opened Wrappers
  import opened PppCp
  import PppOptions
  import Ipcp = PppIpcpOptions
  import Lcp = PppLcpOptions
  import opened PppLink
  import opened PppSafety

  // ---- Frames a peer may send ----

  function FrameOf(p: Proto, packet: Packet): seq<byte> {
    [0xff, 0x03] + (if p.LCP? then [0xc0, 0x21] else [0x80, 0x21]) + PacketBytes(packet)
  }

  lemma PacketRead(packet: Packet)
    requires |packet.data| < 1000
    ensures SoundPacket(PacketBytes(packet)) && PacketOf(PacketBytes(packet)) == packet
    ensures PacketBytes(packet)[0] == packet.code
  {
    var b, n := PacketBytes(packet), |packet.data| + 4;
    assert b[2] as int * 256 + b[3] == n;
    assert b[4..n] == packet.data;
  }

  /** A well-formed packet in a frame is read back and acted upon. */
  lemma FrameRead(p: Proto, packet: Packet)
    requires |packet.data| < 1000 && (1 <= packet.code <= 4 ==> PppOptions.WellFormed(packet.data))
    ensures var f := FrameOf(p, packet);
      && ParseHeader(f) == Some(Header(if p.LCP? then LCP_PROTOCOL else IPCP_PROTOCOL, 4))
      && f[4..] == PacketBytes(packet) && Sound(f) && Proper(Input.Frame(f))
  {
    PacketRead(packet);
    hide PppOptions.WellFormed, PacketOf, PacketBytes;
    assert FrameOf(p, packet)[4..] == PacketBytes(packet);
  }

  lemma Received(l: Link, env: Env, p: Proto, packet: Packet)
    requires |packet.data| < 1000 && (1 <= packet.code <= 4 ==> PppOptions.WellFormed(packet.data))
    requires !Dropped(l.phase, if p.LCP? then LCP_PROTOCOL else IPCP_PROTOCOL)
    ensures Proper(Input.Frame(FrameOf(p, packet)))
    ensures Step(l, env, Input.Frame(FrameOf(p, packet))) ==
            match Digest(l, p, packet).1
            case None => Digest(l, p, packet).0
            case Some(e) => CpEvent(Digest(l, p, packet).0, env, p, e, packet)
  {
    FrameRead(p, packet);
    PacketRead(packet);
    hide Digest, CpEvent, PppOptions.WellFormed, PacketOf, PacketBytes, ParseHeader, Sound, FrameOf;
  }

  // ---- One event ----

  /** The fields of an automaton that matter here. */
  datatype Face = Face(state: State, id: byte, options: seq<byte>, patient: bool)

  function FaceOf(cp: Cp): Face {
    Face(cp.state, cp.configId, cp.localOptions, cp.failures < cp.maxFailure)
  }

  lemma FaceAfter(cp: Cp, e: Event, packet: Packet)
    requires Transition(e, cp.state).Go? && SCN !in Transition(e, cp.state).actions && cp.failures < cp.maxFailure
    requires SCR in Transition(e, cp.state).actions ==> IRC in Transition(e, cp.state).actions
    requires !Terminating(Transition(e, cp.state).next)
    ensures var Go(a, next) := Transition(e, cp.state);
      && FaceOf(Generate(cp, e, packet).cp) ==
         Face(next, if SCR in a then NewIdentity(cp.configId) else cp.configId, cp.localOptions, true)
      && Generate(cp, e, packet).signal == SignalOf(a)
  {
    EventEffects(cp, e, packet);
    hide Transition, Generate, NewIdentity;
  }

  /** An LCP event nobody above has to hear of. */
  lemma QuietLcp(l: Link, env: Env, e: Event, packet: Packet)
    requires var s := SignalFor(l, LCP, e, packet); s.Quiet? || s.LayerStarted?
    ensures var r := LcpEvent(l, env, e, packet);
      r == l.(lcp := Generate(l.lcp, e, packet).cp, log := r.log, staPending := r.staPending)
  {
    hide Generate, Entries, SendsTerminateAck;
  }

  lemma QuietIpcp(l: Link, env: Env, e: Event, packet: Packet)
    requires var s := SignalFor(l, IPCP, e, packet); s.Quiet? || s.LayerStarted?
    ensures var r := IpcpEvent(l, env, e, packet); r == l.(ipcp := Generate(l.ipcp, e, packet).cp, log := r.log)
    ensures var r := IpcpAdmin(l, e); packet == NO_PACKET ==> r == l.(ipcp := Generate(l.ipcp, e, packet).cp, log := r.log)
  {
    hide Generate, Entries;
  }

  // ---- A client comes up ----

  const CLIENT: bool := false
  const YES: Env := Env(true, true)
  const ASK_LCP: Packet := Packet(CONFIGURE_REQUEST, 1, [])
  const ACK_LCP: Packet := Packet(CONFIGURE_ACK, 1, [])
  const OUR_ADDRESS: Ipcp.Addr := [10, 0, 0, 1]
  const PEER_ADDRESS: Ipcp.Addr := [10, 0, 0, 2]
  const NAK_ADDRESS: Packet := Packet(CONFIGURE_NAK, 1, [3, 6, 10, 0, 0, 1])
  const ASK_IPCP: Packet := Packet(CONFIGURE_REQUEST, 1, [3, 6, 10, 0, 0, 2])
  const CODE_REJECTED: Packet := Packet(CODE_REJECT, 3, [])

  /** What is known of the link on its way: the phase and both automata. */
  ghost predicate On(l: Link, phase: Phase, lcp: Face, ipcp: Face, d: Ipcp.Ipcp) {
    && l.phase == phase && FaceOf(l.lcp) == lcp && FaceOf(l.ipcp) == ipcp && l.ipcpData == d
    && l.lcpData == Lcp.Lcp({}, 0, 0) && !l.params.chap && l.started
  }

  const DEFAULTS: Ipcp.Ipcp := Ipcp.New(CLIENT, Ipcp.NO_ADDR)

  lemma OpenedBegins(env: Env)
    ensures var l := Step(NewLink(CLIENT, Ipcp.NO_ADDR), env, OpenLink);
      On(l, Establishment, Face(ReqSent, 1, [], true), Face(Initial, 0, Ipcp.Generate(DEFAULTS), true), DEFAULTS)
  {
    hide Ipcp.Generate, Generate;
    var l := NewLink(CLIENT, Ipcp.NO_ADDR);
    assert Lcp.Generate(l.lcpData) == [];
    assert Transition(Up, Initial) == Go({}, Closed) && Transition(Open, Closed) == Go({IRC, SCR}, ReqSent);
    FaceAfter(l.lcp, Up, NO_PACKET);
    QuietLcp(l, env, Up, NO_PACKET);
    var l1 := LcpEvent(l, env, Up, NO_PACKET);
    FaceAfter(l1.lcp, Open, NO_PACKET);
    QuietLcp(l1, env, Open, NO_PACKET);
    hide LcpEvent, Transition;
  }

  lemma PacketsAre()
    ensures ASK_LCP == Packet(1, 1, []) && ACK_LCP == Packet(2, 1, [])
    ensures NAK_ADDRESS == Packet(3, 1, [3, 6, 10, 0, 0, 1]) && ASK_IPCP == Packet(1, 1, [3, 6, 10, 0, 0, 2])
    ensures CODE_REJECTED == Packet(7, 3, []) && CONFIGURE_REQUEST == 1 && CONFIGURE_ACK == 2
    ensures !DEFAULTS.isServer && !MOVED.isServer && SERVED == MOVED.(peer := PEER_ADDRESS)
  {
  }

  /** A packet of the peer that leads to an event of its automaton. */
  lemma Acts(l: Link, env: Env, p: Proto, packet: Packet, l1: Link, e: Event)
    requires |packet.data| < 1000 && (1 <= packet.code <= 4 ==> PppOptions.WellFormed(packet.data))
    requires !Dropped(l.phase, if p.LCP? then LCP_PROTOCOL else IPCP_PROTOCOL)
    requires Digest(l, p, packet) == (l1, Some(e))
    ensures Proper(Input.Frame(FrameOf(p, packet)))
    ensures Step(l, env, Input.Frame(FrameOf(p, packet))) == CpEvent(l1, env, p, e, packet)
  {
    hide Digest, CpEvent, PppOptions.WellFormed, FrameOf, Step, Proper;
    Received(l, env, p, packet);
  }

  function Answered(f: Face, a: set<Action>, next: State): Face {
    Face(next, if SCR in a then NewIdentity(f.id) else f.id, f.options, true)
  }

  /** An event that only moves its automaton. */
  lemma QuietOn(l: Link, env: Env, p: Proto, e: Event, packet: Packet, phase: Phase, lcp: Face, ipcp: Face, d: Ipcp.Ipcp)
    requires On(l, phase, lcp, ipcp, d) && (if p.LCP? then lcp else ipcp).patient
    requires Transition(e, (if p.LCP? then lcp else ipcp).state).Go?
    requires var Go(a, next) := Transition(e, (if p.LCP? then lcp else ipcp).state);
      SignalOf(a).Quiet? && SCN !in a && (SCR in a ==> IRC in a) && !Terminating(next)
    ensures var Go(a, next) := Transition(e, (if p.LCP? then lcp else ipcp).state);
      On(CpEvent(l, env, p, e, packet), phase, if p.LCP? then Answered(lcp, a, next) else lcp,
         if p.LCP? then ipcp else Answered(ipcp, a, next), d)
  {
    hide Generate, Transition, LcpEvent, IpcpEvent, SignalOf, NewIdentity;
    FaceAfter(CpOf(l, p), e, packet);
    if p.LCP? {
      QuietLcp(l, env, e, packet);
    } else {
      QuietIpcp(l, env, e, packet);
    }
  }

  lemma CellsUsed(f: Face)
    requires f.patient
    ensures Transition(RcrPlus, ReqSent) == Go({SCA}, AckSent) && SignalOf({SCA}).Quiet?
    ensures Transition(Rcn, ReqSent) == Go({IRC, SCR}, ReqSent) && SignalOf({IRC, SCR}).Quiet?
    ensures Answered(f, {SCA}, AckSent) == Face(AckSent, f.id, f.options, true)
    ensures f.id == 1 ==> Answered(f, {IRC, SCR}, ReqSent) == Face(ReqSent, 2, f.options, true)
    ensures !Terminating(AckSent) && !Terminating(ReqSent)
    ensures !Dropped(Establishment, LCP_PROTOCOL) && !Dropped(Network, IPCP_PROTOCOL) && !Dropped(LinkUp, IPCP_PROTOCOL)
  {
  }

  /** The phase is part of what is known. */
  lemma OnPhase(l: Link, phase: Phase, lcp: Face, ipcp: Face, d: Ipcp.Ipcp)
    requires On(l, phase, lcp, ipcp, d)
    ensures l.phase == phase && FaceOf(l.lcp) == lcp && FaceOf(l.ipcp) == ipcp && l.ipcpData == d
    ensures l.lcp.state == lcp.state && l.ipcp.state == ipcp.state && l.started
    ensures lcp.patient ==> l.lcp.failures < l.lcp.maxFailure
    ensures ipcp.patient ==> l.ipcp.failures < l.ipcp.maxFailure
  {
  }

  /** An empty request of the peer is acceptable to LCP. */
  lemma AskDigested(l: Link)
    requires l.lcp.failures < l.lcp.maxFailure
    ensures Digest(l, LCP, ASK_LCP) == (l, Some(RcrPlus)) && PppOptions.WellFormed([])
  {
    assert PppOptions.Parse([]) == [] && Lcp.Judge([]) == Lcp.Judged(Ipcp.Accept, None);
    assert Lcp.ApplyAll(l.params, l.lcpData, []) == l.params;
    assert Settle(l.lcp, Ipcp.Accept, None) == l.lcp;
    hide Settle, PppOptions.Parse, Lcp.ApplyAll, Lcp.Judge;
  }

  lemma LcpAsked(l: Link, env: Env, theirs: Face, d: Ipcp.Ipcp)
    requires On(l, Establishment, Face(ReqSent, 1, [], true), theirs, d)
    ensures Proper(Input.Frame(FrameOf(LCP, ASK_LCP)))
    ensures On(Step(l, env, Input.Frame(FrameOf(LCP, ASK_LCP))), Establishment, Face(AckSent, 1, [], true), theirs, d)
  {
    hide *;
    CellsUsed(Face(ReqSent, 1, [], true));
    PacketsAre();
    OnPhase(l, Establishment, Face(ReqSent, 1, [], true), theirs, d);
    AskDigested(l);
    Acts(l, env, LCP, ASK_LCP, l, RcrPlus);
    QuietOn(l, env, LCP, RcrPlus, ASK_LCP, Establishment, Face(ReqSent, 1, [], true), theirs, d);
  }

  lemma AckDigested(l: Link, d: Ipcp.Ipcp, lcp: Face, ipcp: Face)
    requires On(l, Establishment, lcp, ipcp, d) && lcp == Face(AckSent, 1, [], true)
    ensures Digest(l, LCP, ACK_LCP) == (Ack(l, LCP, ACK_LCP), Some(Rca)) && PppOptions.WellFormed([])
    ensures On(Ack(l, LCP, ACK_LCP), Establishment, lcp, ipcp, d)
  {
    assert PppOptions.Parse([]) == [] && Lcp.Acked(l.params, []) == l.params;
    hide PppOptions.Parse, Lcp.Acked;
  }

  lemma LcpAcked(l: Link, env: Env, d: Ipcp.Ipcp)
    requires On(l, Establishment, Face(AckSent, 1, [], true), Face(Initial, 0, Ipcp.Generate(d), true), d)
    ensures Proper(Input.Frame(FrameOf(LCP, ACK_LCP)))
    ensures On(Step(l, env, Input.Frame(FrameOf(LCP, ACK_LCP))), Network, Face(Opened, 1, [], true),
               Face(ReqSent, 1, Ipcp.Generate(d), true), d)
  {
    hide Transition, CpEvent, Digest, FrameOf, Step, Proper, PppOptions.WellFormed, Ack, Ipcp.Generate;
    var theirs := Face(Initial, 0, Ipcp.Generate(d), true);
    AckDigested(l, d, Face(AckSent, 1, [], true), theirs);
    var l1 := Ack(l, LCP, ACK_LCP);
    Acts(l, env, LCP, ACK_LCP, l1, Rca);
    LcpOn(l1, env, theirs, d);
  }

  lemma LcpOn(l: Link, env: Env, theirs: Face, d: Ipcp.Ipcp)
    requires On(l, Establishment, Face(AckSent, 1, [], true), theirs, d) && theirs == Face(Initial, 0, Ipcp.Generate(d), true)
    ensures On(CpEvent(l, env, LCP, Rca, ACK_LCP), Network, Face(Opened, 1, [], true), Face(ReqSent, 1, Ipcp.Generate(d), true), d)
  {
    hide Transition, Generate, StartNetwork, Ipcp.Generate, LcpEvent, NewIdentity, Entries;
    Agreed(l.lcp, ACK_LCP);
    LcpComesUp(l, env);
    var sta: bool :| LcpEvent(l, env, Rca, ACK_LCP) == StartNetwork(Apply(l, LCP, Rca, ACK_LCP).(staPending := sta));
    NetworkStarts(Apply(l, LCP, Rca, ACK_LCP).(staPending := sta), d);
  }

  lemma LcpComesUp(l: Link, env: Env)
    requires l.lcp.state.AckSent? && !l.params.chap
    ensures exists sta: bool :: LcpEvent(l, env, Rca, ACK_LCP) == StartNetwork(Apply(l, LCP, Rca, ACK_LCP).(staPending := sta))
  {
    assert Transition(Rca, AckSent) == Go({IRC, TLU}, Opened);
    SignalIsTable(l.lcp, Rca, ACK_LCP);
    hide Generate, Transition, Entries, StartNetwork, SendsTerminateAck;
    var sta := l.staPending || (env.sendOk && SendsTerminateAck(l.lcp, Rca));
    assert LcpEvent(l, env, Rca, ACK_LCP) == StartNetwork(Apply(l, LCP, Rca, ACK_LCP).(staPending := sta));
  }

  lemma NetworkStarts(l: Link, d: Ipcp.Ipcp)
    requires On(l, l.phase, Face(Opened, 1, [], true), Face(Initial, 0, Ipcp.Generate(d), true), d)
    ensures On(StartNetwork(l), Network, Face(Opened, 1, [], true), Face(ReqSent, 1, Ipcp.Generate(d), true), d)
  {
    hide Ipcp.Generate, Generate;
    assert Transition(Open, Initial) == Go({TLS}, Starting) && Transition(Up, Starting) == Go({IRC, SCR}, ReqSent);
    var l1 := EnterPhase(l, Network);
    FaceAfter(l1.ipcp, Open, NO_PACKET);
    QuietIpcp(l1, YES, Open, NO_PACKET);
    var l2 := IpcpAdmin(l1, Open);
    FaceAfter(l2.ipcp, Up, NO_PACKET);
    QuietIpcp(l2, YES, Up, NO_PACKET);
    hide IpcpAdmin, Transition;
  }

  const MOVED: Ipcp.Ipcp := DEFAULTS.(local := OUR_ADDRESS)

  lemma NakRead()
    ensures PppOptions.Parse([3, 6, 10, 0, 0, 1]) == [PppOptions.Opt(3, OUR_ADDRESS)] && PppOptions.WellFormed([3, 6, 10, 0, 0, 1])
    ensures PppOptions.Parse([3, 6, 10, 0, 0, 2]) == [PppOptions.Opt(3, PEER_ADDRESS)] && PppOptions.WellFormed([3, 6, 10, 0, 0, 2])
    ensures Ipcp.Naked(DEFAULTS, [PppOptions.Opt(3, OUR_ADDRESS)]) == MOVED
  {
    var a, b := PppOptions.Opt(3, OUR_ADDRESS), PppOptions.Opt(3, PEER_ADDRESS);
    PppOptions.ParsePrint([a]);
    PppOptions.ParsePrint([b]);
    assert [a][1..] == [] && [b][1..] == [];
    assert PppOptions.Print([a]) == [3, 6, 10, 0, 0, 1] && PppOptions.Print([b]) == [3, 6, 10, 0, 0, 2];
    assert OUR_ADDRESS[..4] == OUR_ADDRESS;
    assert Ipcp.TakeNaks(DEFAULTS, [a]) == Ipcp.TakeNaks(Ipcp.TakeNak(DEFAULTS, a), []);
    assert DEFAULTS.asked + {Ipcp.IpAddr} == DEFAULTS.asked;
  }

  lemma NakDigested(l: Link, lcp: Face, ipcp: Face)
    requires On(l, Network, lcp, ipcp, DEFAULTS) && ipcp == Face(ReqSent, 1, Ipcp.Generate(DEFAULTS), true)
    ensures var l1 := NakReceived(l, IPCP, NAK_ADDRESS.data);
      && Digest(l, IPCP, NAK_ADDRESS) == (l1, Some(Rcn)) && PppOptions.WellFormed(NAK_ADDRESS.data)
      && On(l1, Network, lcp, Face(ReqSent, 1, Ipcp.Generate(MOVED), true), MOVED)
  {
    NakRead();
    hide Ipcp.Generate, PppOptions.Parse, PppOptions.WellFormed, Ipcp.TakeNaks;
  }

  lemma IpcpNaked(l: Link, env: Env)
    requires On(l, Network, Face(Opened, 1, [], true), Face(ReqSent, 1, Ipcp.Generate(DEFAULTS), true), DEFAULTS)
    ensures Proper(Input.Frame(FrameOf(IPCP, NAK_ADDRESS)))
    ensures On(Step(l, env, Input.Frame(FrameOf(IPCP, NAK_ADDRESS))), Network, Face(Opened, 1, [], true),
               Face(ReqSent, 2, Ipcp.Generate(MOVED), true), MOVED)
  {
    hide *;
    var ours := Face(Opened, 1, [], true);
    CellsUsed(Face(ReqSent, 1, Ipcp.Generate(MOVED), true));
    OnPhase(l, Network, ours, Face(ReqSent, 1, Ipcp.Generate(DEFAULTS), true), DEFAULTS);
    PacketsAre();
    NakDigested(l, ours, Face(ReqSent, 1, Ipcp.Generate(DEFAULTS), true));
    var l1 := NakReceived(l, IPCP, NAK_ADDRESS.data);
    Acts(l, env, IPCP, NAK_ADDRESS, l1, Rcn);
    QuietOn(l1, env, IPCP, Rcn, NAK_ADDRESS, Network, ours, Face(ReqSent, 1, Ipcp.Generate(MOVED), true), MOVED);
  }

  const SERVED: Ipcp.Ipcp := MOVED.(peer := PEER_ADDRESS)

  lemma {:induction false} AskingRead(d: Ipcp.Ipcp)
    ensures PppOptions.WellFormed(ASK_IPCP.data)
    ensures Ipcp.ClientReply(ASK_IPCP.data).verdict.Accept?
    ensures Ipcp.ClientHears(d, PppOptions.Parse(ASK_IPCP.data)) == d.(peer := PEER_ADDRESS)
  {
    NakRead();
    var o := PppOptions.Opt(3, PEER_ADDRESS);
    assert PEER_ADDRESS[..4] == PEER_ADDRESS;
    assert Ipcp.Refused([o]) == Ipcp.Refused([o][1..]) == [];
    Ipcp.RefusedSize(ASK_IPCP.data);
    assert [o][1..] == [];
    assert Ipcp.ClientHears(d, [o]) == Ipcp.ClientHears(Ipcp.HearAddress(d, o), []);
  }

  lemma AskingDigested(l: Link, phase: Phase, lcp: Face, ipcp: Face, d: Ipcp.Ipcp, packet: Packet)
    requires On(l, phase, lcp, ipcp, d) && ipcp.patient && !d.isServer
    requires packet == Packet(CONFIGURE_REQUEST, packet.id, ASK_IPCP.data)
    ensures var l1 := IpcpRequest(l, ASK_IPCP.data).0;
      && Digest(l, IPCP, packet) == (l1, Some(RcrPlus)) && l1 == l.(ipcpData := d.(peer := PEER_ADDRESS))
      && On(l1, phase, lcp, ipcp, d.(peer := PEER_ADDRESS))
  {
    AskingRead(d);
    assert Settle(l.ipcp, Ipcp.Accept, None) == l.ipcp;
    hide Settle, PppOptions.Parse, PppOptions.WellFormed, Ipcp.ClientReply, Ipcp.ClientHears;
  }

  lemma IpcpAsked(l: Link, env: Env)
    requires On(l, Network, Face(Opened, 1, [], true), Face(ReqSent, 2, Ipcp.Generate(MOVED), true), MOVED)
    ensures Proper(Input.Frame(FrameOf(IPCP, ASK_IPCP)))
    ensures On(Step(l, env, Input.Frame(FrameOf(IPCP, ASK_IPCP))), Network, Face(Opened, 1, [], true),
               Face(AckSent, 2, Ipcp.Generate(MOVED), true), SERVED)
  {
    hide *;
    AskingRead(MOVED);
    PacketsAre();
    var ours, theirs := Face(Opened, 1, [], true), Face(ReqSent, 2, Ipcp.Generate(MOVED), true);
    CellsUsed(theirs);
    OnPhase(l, Network, ours, theirs, MOVED);
    AskingDigested(l, Network, ours, theirs, MOVED, ASK_IPCP);
    var l1 := IpcpRequest(l, ASK_IPCP.data).0;
    Acts(l, env, IPCP, ASK_IPCP, l1, RcrPlus);
    QuietOn(l1, env, IPCP, RcrPlus, ASK_IPCP, Network, ours, theirs, SERVED);
  }

  /** The Ack of the request just sent. */
  function AckOf(d: Ipcp.Ipcp): Packet {
    Packet(CONFIGURE_ACK, 2, Ipcp.Generate(d))
  }

  lemma AckReadBack(l: Link, lcp: Face, ipcp: Face)
    requires On(l, Network, lcp, ipcp, SERVED) && ipcp == Face(AckSent, 2, Ipcp.Generate(MOVED), true)
    ensures |AckOf(MOVED).data| < 1000 && PppOptions.WellFormed(AckOf(MOVED).data)
    ensures Digest(l, IPCP, AckOf(MOVED)) == (Ack(l, IPCP, AckOf(MOVED)), Some(Rca))
    ensures On(Ack(l, IPCP, AckOf(MOVED)), Network, lcp, ipcp, SERVED)
  {
    Ipcp.RequestRoundTrip(MOVED);
    assert forall f :: Ipcp.Get(SERVED, f) == Ipcp.Get(MOVED, f);
    Ipcp.AckChangesNothingIff(SERVED, MOVED);
    hide Ipcp.Generate, PppOptions.Parse, Ipcp.TakeAcks, PppOptions.WellFormed;
  }

  lemma IpcpAcked(l: Link)
    requires On(l, Network, Face(Opened, 1, [], true), Face(AckSent, 2, Ipcp.Generate(MOVED), true), SERVED)
    ensures Proper(Input.Frame(FrameOf(IPCP, AckOf(MOVED))))
    ensures On(Step(l, YES, Input.Frame(FrameOf(IPCP, AckOf(MOVED)))), LinkUp, Face(Opened, 1, [], true),
               Face(Opened, 2, Ipcp.Generate(MOVED), true), SERVED)
  {
    hide *;
    var ours, theirs := Face(Opened, 1, [], true), Face(AckSent, 2, Ipcp.Generate(MOVED), true);
    CellsUsed(theirs);
    OnPhase(l, Network, ours, theirs, SERVED);
    AckReadBack(l, ours, theirs);
    var l1 := Ack(l, IPCP, AckOf(MOVED));
    Acts(l, YES, IPCP, AckOf(MOVED), l1, Rca);
    IpcpOn(l1, ours, Ipcp.Generate(MOVED), SERVED);
  }

  lemma Agreed(cp: Cp, ack: Packet)
    requires cp.state.AckSent? && cp.failures < cp.maxFailure
    ensures FaceOf(Generate(cp, Rca, ack).cp) == Face(Opened, cp.configId, cp.localOptions, true)
    ensures Generate(cp, Rca, ack).signal == SignalOf({IRC, TLU})
  {
    assert Transition(Rca, AckSent) == Go({IRC, TLU}, Opened);
    FaceAfter(cp, Rca, ack);
  }

  lemma IpcpOn(l: Link, lcp: Face, options: seq<byte>, d: Ipcp.Ipcp)
    requires On(l, Network, lcp, Face(AckSent, 2, options, true), d)
    ensures On(CpEvent(l, YES, IPCP, Rca, AckOf(MOVED)), LinkUp, lcp, Face(Opened, 2, options, true), d)
  {
    hide Transition, Generate, Ipcp.Generate, NewIdentity, Entries;
    Agreed(l.ipcp, AckOf(MOVED));
  }

  /** The peer asks for a new negotiation. */
  const ASK_AGAIN: Packet := Packet(CONFIGURE_REQUEST, 2, [3, 6, 10, 0, 0, 2])

  lemma IpcpReopened(l: Link, env: Env)
    requires On(l, LinkUp, Face(Opened, 1, [], true), Face(Opened, 2, Ipcp.Generate(MOVED), true), SERVED)
    ensures Proper(Input.Frame(FrameOf(IPCP, ASK_AGAIN)))
    ensures var r := Step(l, env, Input.Frame(FrameOf(IPCP, ASK_AGAIN)));
      && r == IpcpEvent(l, env, RcrPlus, ASK_AGAIN)
      && r.phase.LinkUp? && r.lcp.state.Opened? && r.ipcp.state.AckSent? && !r.net
  {
    hide *;
    var ours, theirs := Face(Opened, 1, [], true), Face(Opened, 2, Ipcp.Generate(MOVED), true);
    CellsUsed(theirs);
    OnPhase(l, LinkUp, ours, theirs, SERVED);
    AskingRead(SERVED);
    PacketsAre();
    ServedTwice();
    AskingDigested(l, LinkUp, ours, theirs, SERVED, ASK_AGAIN);
    var l1 := IpcpRequest(l, ASK_IPCP.data).0;
    Acts(l, env, IPCP, ASK_AGAIN, l1, RcrPlus);
    SameAgain(l, l1);
    ReopenedIs(l, env);
  }

  lemma ServedTwice()
    ensures SERVED.(peer := PEER_ADDRESS) == SERVED && !SERVED.isServer
    ensures ASK_AGAIN == Packet(CONFIGURE_REQUEST, 2, ASK_IPCP.data) && |ASK_AGAIN.data| == 6
  {
  }

  lemma SameAgain(l: Link, l1: Link)
    requires l1 == l.(ipcpData := l.ipcpData)
    ensures l1 == l
  {
  }

  lemma ReopenedIs(l: Link, env: Env)
    requires l.phase.LinkUp? && l.lcp.state.Opened? && l.ipcp.state.Opened?
    ensures var r := IpcpEvent(l, env, RcrPlus, ASK_AGAIN);
      r.phase.LinkUp? && r.lcp.state.Opened? && r.ipcp.state.AckSent? && !r.net
    ensures CpEvent(l, env, IPCP, RcrPlus, ASK_AGAIN) == IpcpEvent(l, env, RcrPlus, ASK_AGAIN)
  {
    assert Transition(RcrPlus, Opened) == Go({TLD, SCR, SCA}, AckSent) && SignalOf({TLD, SCR, SCA}).LayerDown?;
    hide Generate, Transition, SignalOf, Entries, NewIdentity, IpcpDown;
    EventEffects(l.ipcp, RcrPlus, ASK_AGAIN);
    DownIs(Apply(l, IPCP, RcrPlus, ASK_AGAIN));
  }

  lemma DownIs(l: Link)
    ensures var r := IpcpDown(l); r.phase == l.phase && r.lcp == l.lcp && r.ipcp.state == l.ipcp.state && !r.net
  {
    hide Ipcp.Generate, Ipcp.Reset;
  }

  lemma CodeRejected(l: Link, env: Env)
    requires l.phase.LinkUp? && l.lcp.state.Opened? && l.ipcp.state.AckSent?
    ensures Proper(Input.Frame(FrameOf(IPCP, CODE_REJECTED)))
    ensures var r := Step(l, env, Input.Frame(FrameOf(IPCP, CODE_REJECTED)));
      r.phase.LinkUp? && r.lcp.state.Opened? && r.ipcp.state.Stopped? && r.net == l.net
  {
    assert Digest(l, IPCP, CODE_REJECTED) == (l, Some(RxjMinus));
    hide CpEvent, FrameOf, Step, Proper, Digest;
    Acts(l, env, IPCP, CODE_REJECTED, l, RxjMinus);
    FinishedIs(l, env);
  }

  lemma FinishedIs(l: Link, env: Env)
    requires l.phase.LinkUp? && l.lcp.state.Opened? && l.ipcp.state.AckSent?
    ensures var r := CpEvent(l, env, IPCP, RxjMinus, CODE_REJECTED);
      r.phase.LinkUp? && r.lcp.state.Opened? && r.ipcp.state.Stopped? && r.net == l.net
  {
    assert Transition(RxjMinus, AckSent) == Go({TLF}, Stopped) && SignalOf({TLF}).LayerFinished?;
    hide Generate, Transition, SignalOf, Entries, NewIdentity;
    EventEffects(l.ipcp, RxjMinus, CODE_REJECTED);
  }

  // ---- Whole runs ----

  lemma {:induction false} OneMore(l: Link, steps: seq<(Env, Input)>, env: Env, i: Input)
    requires (forall k :: 0 <= k < |steps| ==> Proper(steps[k].1)) && Proper(i)
    ensures forall k :: 0 <= k < |steps + [(env, i)]| ==> Proper((steps + [(env, i)])[k].1)
    ensures Run(l, steps + [(env, i)]) == Step(Run(l, steps), env, i)
  {
    hide Proper, Step;
    assert (steps + [(env, i)])[..|steps|] == steps;
  }

  lemma {:induction false} NoSteps(l: Link)
    ensures Run(l, []) == l
  {
  }

  function Hears(p: Proto, packet: Packet): (Env, Input) {
    (YES, Input.Frame(FrameOf(p, packet)))
  }

  /** The link comes up after its client was given an address. */
  function ComesUp(): seq<(Env, Input)> {
    [] + [(YES, OpenLink)] + [Hears(LCP, ASK_LCP)] + [Hears(LCP, ACK_LCP)] + [Hears(IPCP, NAK_ADDRESS)] + [Hears(IPCP, ASK_IPCP)]
    + [Hears(IPCP, AckOf(MOVED))]
  }

  ghost predicate AllProper(steps: seq<(Env, Input)>) {
    forall k :: 0 <= k < |steps| ==> Proper(steps[k].1)
  }

  lemma {:induction false} LinkIsUp()
    ensures AllProper(ComesUp())
    ensures On(Run(NewLink(CLIENT, Ipcp.NO_ADDR), ComesUp()), LinkUp, Face(Opened, 1, [], true),
               Face(Opened, 2, Ipcp.Generate(MOVED), true), SERVED)
  {
    hide On, Step, NewLink, Proper, FrameOf, Run, Ipcp.Generate, AckOf;
    var l0 := NewLink(CLIENT, Ipcp.NO_ADDR);
    NoSteps(l0);
    OpenedBegins(YES);
    ProperOpen();
    OneMore(l0, [], YES, OpenLink);
    var s1 := [] + [(YES, OpenLink)];
    LcpAsked(Run(l0, s1), YES, Face(Initial, 0, Ipcp.Generate(DEFAULTS), true), DEFAULTS);
    OneMore(l0, s1, YES, Hears(LCP, ASK_LCP).1);
    var s2 := s1 + [Hears(LCP, ASK_LCP)];
    LcpAcked(Run(l0, s2), YES, DEFAULTS);
    OneMore(l0, s2, YES, Hears(LCP, ACK_LCP).1);
    var s3 := s2 + [Hears(LCP, ACK_LCP)];
    IpcpNaked(Run(l0, s3), YES);
    OneMore(l0, s3, YES, Hears(IPCP, NAK_ADDRESS).1);
    var s4 := s3 + [Hears(IPCP, NAK_ADDRESS)];
    IpcpAsked(Run(l0, s4), YES);
    OneMore(l0, s4, YES, Hears(IPCP, ASK_IPCP).1);
    var s5 := s4 + [Hears(IPCP, ASK_IPCP)];
    IpcpAcked(Run(l0, s5));
    OneMore(l0, s5, YES, Hears(IPCP, AckOf(MOVED)).1);
  }

  lemma ProperOpen()
    ensures Proper(OpenLink) && Proper(Shutdown) && Proper(IoLost)
  {
  }

  function Reopened(): seq<(Env, Input)> {
    ComesUp() + [Hears(IPCP, ASK_AGAIN)]
  }

  /** After the peer has reopened the negotiation, a datagram is still handed to the tunnel
      and there is none; and the Ack repeating our latest request is not accepted. */
  lemma {:induction false} ReopeningReached(frame: seq<byte>)
    requires ParseHeader(frame).Some? && ParseHeader(frame).value.protocol == IP_PROTOCOL
    ensures AllProper(Reopened())
    ensures var l := Run(NewLink(CLIENT, Ipcp.NO_ADDR), Reopened()); var request := HistOf(l.log, IPCP).request;
      && HandsDatagram(l, frame) && !l.net
      && request.Some? && !AckMatches(l.ipcp, Packet(CONFIGURE_ACK, request.value.id, request.value.data))
  {
    hide *;
    LinkIsUp();
    AllAre(ComesUp());
    AllAre(Reopened());
    var l := Run(NewLink(CLIENT, Ipcp.NO_ADDR), ComesUp());
    OnPhase(l, LinkUp, Face(Opened, 1, [], true), Face(Opened, 2, Ipcp.Generate(MOVED), true), SERVED);
    RunKeeps(CLIENT, Ipcp.NO_ADDR, ComesUp());
    IpcpReopened(l, YES);
    ReopenedAppends(l);
    AckAfterReopeningIff(l, YES, RcrPlus, ASK_AGAIN);
    OldOptionsDiffer(l);
    UpHands(Run(NewLink(CLIENT, Ipcp.NO_ADDR), Reopened()), frame);
  }

  lemma AllAre(steps: seq<(Env, Input)>)
    ensures AllProper(steps) <==> forall k :: 0 <= k < |steps| ==> Proper(steps[k].1)
    ensures Reopens(RcrPlus)
  {
    hide Proper;
  }

  lemma {:induction false} ReopenedAppends(l: Link)
    requires AllProper(ComesUp()) && l == Run(NewLink(CLIENT, Ipcp.NO_ADDR), ComesUp())
    requires Proper(Input.Frame(FrameOf(IPCP, ASK_AGAIN)))
    ensures AllProper(Reopened())
    ensures Run(NewLink(CLIENT, Ipcp.NO_ADDR), Reopened()) == Step(l, YES, Input.Frame(FrameOf(IPCP, ASK_AGAIN)))
  {
    hide Proper, Run, Step, NewLink, FrameOf, ComesUp;
    OneMore(NewLink(CLIENT, Ipcp.NO_ADDR), ComesUp(), YES, Hears(IPCP, ASK_AGAIN).1);
  }

  lemma OldOptionsDiffer(l: Link)
    requires l.ipcpData == SERVED && FaceOf(l.ipcp) == Face(Opened, 2, Ipcp.Generate(MOVED), true)
    ensures l.ipcp.localOptions != Ipcp.Generate(Ipcp.Reset(l.ipcpData))
  {
    assert Ipcp.Reset(SERVED) == DEFAULTS;
    var a, b := Ipcp.Generate(MOVED), Ipcp.Generate(DEFAULTS);
    assert a[2] == 10 && b[2] == 0;
  }

  lemma UpHands(l: Link, frame: seq<byte>)
    requires l.phase.LinkUp? && ParseHeader(frame).Some? && ParseHeader(frame).value.protocol == IP_PROTOCOL
    ensures HandsDatagram(l, frame)
  {
    hide ParseHeader;
  }

  /** A negotiation that fails after the link was up leaves it in the link-up phase, without
      IPCP. */
  lemma {:induction false} FailureReached()
    ensures var steps := Reopened() + [Hears(IPCP, CODE_REJECTED)];
      && AllProper(steps)
      && var l := Run(NewLink(CLIENT, Ipcp.NO_ADDR), steps); l.phase.LinkUp? && l.lcp.state.Opened? && l.ipcp.state.Stopped? && !l.net
  {
    hide *;
    LinkIsUp();
    AllAre(ComesUp());
    AllAre(Reopened());
    var l := Run(NewLink(CLIENT, Ipcp.NO_ADDR), ComesUp());
    IpcpReopened(l, YES);
    ReopenedAppends(l);
    var m := Run(NewLink(CLIENT, Ipcp.NO_ADDR), Reopened());
    CodeRejected(m, YES);
    HearsIs(IPCP, CODE_REJECTED);
    OneMore(NewLink(CLIENT, Ipcp.NO_ADDR), Reopened(), YES, Hears(IPCP, CODE_REJECTED).1);
    AllAre(Reopened() + [Hears(IPCP, CODE_REJECTED)]);
  }

  lemma HearsIs(p: Proto, packet: Packet)
    ensures Hears(p, packet) == (YES, Input.Frame(FrameOf(p, packet)))
  {
  }

  /** A link that is closed before the peer has answered, and then loses its line. */
  function ClosedAndLost(): seq<(Env, Input)> {
    [(YES, OpenLink)] + [(YES, Shutdown)] + [(YES, IoLost)]
  }

  lemma {:induction false} RunOn(l: Link, a: seq<(Env, Input)>, b: seq<(Env, Input)>)
    requires AllProper(a) && AllProper(b)
    ensures AllProper(a + b) && Run(l, a + b) == Run(Run(l, a), b)
    decreases |b|
  {
    hide Proper, Step;
    if |b| == 0 {
      assert a + b == a;
    } else {
      RunOn(l, a, b[..|b| - 1]);
      assert (a + b)[..|a + b| - 1] == a + b[..|b| - 1];
    }
  }

  lemma ClosingReached(l: Link)
    requires LinkOk(l) && l.phase.Establishment? && l.lcp.state.ReqSent? && l.started
    ensures var r := Step(l, YES, Shutdown); LinkOk(r) && r.lcp.state.Closing? && r.started && !r.phase.Dead?
  {
    var l1 := l.(reason := LocalClose);
    OnlyDriverKeepsReason(l, LocalClose);
    AckNotedOther(l1, LCP, Close);
    TimersKept(l1.lcp, Close, NO_PACKET);
    assert Transition(Close, ReqSent) == Go({IRC, STR}, Closing) && SignalOf({IRC, STR}).Quiet?;
    SignalIsTable(l1.lcp, Close, NO_PACKET);
    assert NearlyCoupled(l1);
    hide Generate, Histories, TimersMatch, LcpEvent, Coupled, NearlyCoupled, SendsTerminateAck, AckNoted, Transition, SignalOf;
    hide LinkOk, Step, Proper, SignalFor;
    ProperOpen();
    StepKeeps(l, YES, Shutdown);
    ClosingIs(l);
    LcpEventKeeps(l1, YES, Close, NO_PACKET);
  }

  lemma ClosingIs(l: Link)
    requires l.phase.Establishment?
    ensures Step(l, YES, Shutdown) == LcpEvent(l.(reason := LocalClose), YES, Close, NO_PACKET)
    ensures SignalFor(l.(reason := LocalClose), LCP, Close, NO_PACKET) == Generate(l.lcp, Close, NO_PACKET).signal
  {
    hide LcpEvent, Generate;
  }

  /** Its owner is never told, whatever happens afterwards. */
  lemma {:induction false} LossReached(more: seq<(Env, Input)>)
    requires AllProper(more)
    ensures AllProper(ClosedAndLost() + more)
    ensures Run(NewLink(CLIENT, Ipcp.NO_ADDR), ClosedAndLost() + more).disconnects == 0
  {
    hide Run, NewLink, Step, Proper, On, LinkOk, Ipcp.Generate, IoDisconnect;
    var l0 := NewLink(CLIENT, Ipcp.NO_ADDR);
    NoSteps(l0);
    ProperOpen();
    OneMore(l0, [], YES, OpenLink);
    OpenedBegins(YES);
    var s1: seq<(Env, Input)> := [(YES, OpenLink)];
    assert [] + s1 == s1;
    var l1 := Run(l0, s1);
    OnPhase(l1, Establishment, Face(ReqSent, 1, [], true), Face(Initial, 0, Ipcp.Generate(DEFAULTS), true), DEFAULTS);
    RunKeeps(CLIENT, Ipcp.NO_ADDR, s1);
    ClosingReached(l1);
    OneMore(l0, s1, YES, Shutdown);
    var s2 := s1 + [(YES, Shutdown)];
    OneMore(l0, s2, YES, IoLost);
    RunOn(l0, ClosedAndLost(), more);
    LossIs(Run(l0, s2));
    LineLossWhileClosing(Run(l0, s2), YES, more);
  }

  lemma LossIs(l: Link)
    ensures Proper(IoLost) && Step(l, YES, IoLost) == IoDisconnect(l, YES)
  {
    hide IoDisconnect;
  }
}
