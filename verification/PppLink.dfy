/** The PPP link: two control protocols coupled by a phase (section 3 of RFC 1661).
    One function from state to state for each thing that can happen to it. */
module PppLink {
  import opened Bytes
  import opened Wrappers
  import opened PppCp
  import PppOptions
  import Ipcp = PppIpcpOptions
  import Lcp = PppLcpOptions

  datatype Phase = Dead | Establishment | Authentication | Network | LinkUp | Termination

  datatype Reason = Unknown | AuthFail | IpcpFail | NetFail | PeerClosed | LinkDead | LocalClose

  datatype Proto = LCP | IPCP

  /** The visible history: packets sent, Acks of the peer accepted, signals raised. */
  datatype Entry = Tx(proto: Proto, packet: Packet)
                 | AckIn(proto: Proto, packet: Packet)
                 | Sig(proto: Proto, signal: Signal)

  datatype Link = Link(phase: Phase, lcp: Cp, ipcp: Cp, lcpData: Lcp.Lcp, ipcpData: Ipcp.Ipcp, params: Lcp.Params,
                       net: bool, reason: Reason, staPending: bool, idleDead: bool, disconnects: nat,
                       started: bool, log: seq<Entry>)

  /** What the surroundings decide: whether a tunnel can be made, and whether the framer
      has room for a packet. */
  datatype Env = Env(netOk: bool, sendOk: bool)

  const LCP_PROTOCOL: uint16 := 0xc021
  const CHAP_PROTOCOL: uint16 := 0xc223
  const IPCP_PROTOCOL: uint16 := 0x8021
  const IP_PROTOCOL: uint16 := 0x0021

  const LCP_MAX_FAILURE: uint32 := 5
  const IPCP_MAX_FAILURE: uint32 := 100

  const DEFAULT_PARAMS: Lcp.Params := Lcp.Params(0xffff_ffff, 0xffff_ffff, 1500, false, false, false)

  function NewLink(isServer: bool, ip: Ipcp.Addr): Link {
    var lcpData, ipcpData := Lcp.Lcp({}, 0, 0), Ipcp.New(isServer, ip);
    Link(Dead, New(isServer, LCP_MAX_FAILURE, Lcp.Generate(lcpData)),
         New(false, IPCP_MAX_FAILURE, Ipcp.Generate(ipcpData)),
         lcpData, ipcpData, DEFAULT_PARAMS, false, Unknown, false, false, 0, false, [])
  }

  // ---- Events and the notifications they set off ----

  function TxAll(p: Proto, sent: seq<Packet>): seq<Entry> {
    seq(|sent|, i requires 0 <= i < |sent| => Tx(p, sent[i]))
  }

  function Entries(p: Proto, r: Outcome): seq<Entry> {
    TxAll(p, r.sent) + [Sig(p, r.signal)]
  }

  function CpOf(l: Link, p: Proto): Cp {
    if p.LCP? then l.lcp else l.ipcp
  }

  function WithCp(l: Link, p: Proto, cp: Cp): Link {
    if p.LCP? then l.(lcp := cp) else l.(ipcp := cp)
  }

  /** One event of one protocol, without the notification. */
  function Apply(l: Link, p: Proto, e: Event, packet: Packet): Link {
    var r := Generate(CpOf(l, p), e, packet);
    WithCp(l, p, r.cp).(log := l.log + Entries(p, r))
  }

  function SignalFor(l: Link, p: Proto, e: Event, packet: Packet): Signal {
    Generate(CpOf(l, p), e, packet).signal
  }

  /** The idle source that reports the end is set up unless a Terminate-Ack is on its way. */
  function EnterPhase(l: Link, phase: Phase): Link {
    l.(phase := phase, idleDead := l.idleDead || (phase.Dead? && !l.staPending))
  }

  function IpcpDown(l: Link): Link {
    var d := Ipcp.Reset(l.ipcpData);
    l.(ipcpData := d, ipcp := l.ipcp.(localOptions := Ipcp.Generate(d)), net := false)
  }

  /** An event of IPCP that can raise no more than a layer-down. */
  function IpcpAdmin(l: Link, e: Event): Link {
    var next := Apply(l, IPCP, e, NO_PACKET);
    if SignalFor(l, IPCP, e, NO_PACKET).LayerDown? then IpcpDown(next) else next
  }

  function StartNetwork(l: Link): Link {
    IpcpAdmin(IpcpAdmin(EnterPhase(l, Network), Open), Up)
  }

  predicate NetPhase(phase: Phase) {
    phase.Network? || phase.LinkUp?
  }

  function LcpUp(l: Link): Link {
    if l.params.chap then EnterPhase(l, Authentication) else StartNetwork(l)
  }

  function LcpDown(l: Link): Link {
    var l1 := l.(lcp := l.lcp.(localOptions := Lcp.Generate(l.lcpData)));
    var l2 := if NetPhase(l.phase) then IpcpAdmin(l1, Down) else l1;
    EnterPhase(l2.(reason := if l2.reason.Unknown? then PeerClosed else l2.reason), Termination)
  }

  function LcpSignalled(l: Link, s: Signal): Link {
    match s
    case LayerUp => LcpUp(l)
    case LayerDown => LcpDown(l)
    case LayerFinished => EnterPhase(l, Dead)
    case _ => l
  }

  predicate SendsTerminateAck(cp: Cp, e: Event) {
    Transition(e, cp.state).Go? && STR !in Transition(e, cp.state).actions && STA in Transition(e, cp.state).actions
  }

  /** One event of LCP with everything it sets off. */
  function LcpEvent(l: Link, env: Env, e: Event, packet: Packet): Link {
    var next := Apply(l, LCP, e, packet);
    LcpSignalled(next.(staPending := l.staPending || (env.sendOk && SendsTerminateAck(l.lcp, e))),
                 SignalFor(l, LCP, e, packet))
  }

  function IpcpUp(l: Link, env: Env): Link {
    if env.netOk then EnterPhase(l.(net := true), LinkUp)
    else LcpEvent(l.(net := false, reason := NetFail), env, Close, NO_PACKET)
  }

  function IpcpFinished(l: Link, env: Env): Link {
    if l.phase.Network? then LcpEvent(IpcpAdmin(l.(reason := IpcpFail), Close), env, Close, NO_PACKET) else l
  }

  function IpcpSignalled(l: Link, env: Env, s: Signal): Link {
    match s
    case LayerUp => IpcpUp(l, env)
    case LayerDown => IpcpDown(l)
    case LayerFinished => IpcpFinished(l, env)
    case _ => l
  }

  /** One event of IPCP with everything it sets off. */
  function IpcpEvent(l: Link, env: Env, e: Event, packet: Packet): Link {
    IpcpSignalled(Apply(l, IPCP, e, packet), env, SignalFor(l, IPCP, e, packet))
  }

  function CpEvent(l: Link, env: Env, p: Proto, e: Event, packet: Packet): Link {
    if p.LCP? then LcpEvent(l, env, e, packet) else IpcpEvent(l, env, e, packet)
  }

  // ---- Received frames ----

  datatype Header = Header(protocol: uint16, offset: nat)

  /** The protocol number and where the information starts, with or without the address and
      control bytes and the high byte of the number. */
  function ParseHeader(frame: seq<byte>): (r: Option<Header>)
    ensures r.Some? ==> r.value.offset <= |frame|
  {
    var at := if |frame| >= 2 && frame[0] == 0xff && frame[1] == 0x03 then 2 else 0;
    if |frame| < at + 1 then None
    else if frame[at] % 2 == 1 then Some(Header(frame[at], at + 1))
    else if |frame| < at + 2 then None
    else Some(Header(frame[at] as int * 256 + frame[at + 1], at + 2))
  }

  predicate Dropped(phase: Phase, protocol: uint16) {
    match phase
    case Dead => true
    case Establishment => protocol != LCP_PROTOCOL
    case Termination => protocol != LCP_PROTOCOL
    case Authentication => protocol != LCP_PROTOCOL && protocol != CHAP_PROTOCOL
    case Network => protocol != LCP_PROTOCOL && protocol != CHAP_PROTOCOL && protocol != IPCP_PROTOCOL
    case LinkUp => false
  }

  /** The packet in an information field; its length byte pair says where the data ends. */
  predicate SoundPacket(info: seq<byte>) {
    |info| >= 4 && 4 <= info[2] as int * 256 + info[3] <= |info|
  }

  function PacketOf(info: seq<byte>): Packet
    requires SoundPacket(info)
  {
    Packet(info[0], info[1], info[4..info[2] as int * 256 + info[3]])
  }

  /** Control packets are taken to carry a sound length and well-formed option lists, and a
      frame that may have to be rejected at least two bytes. */
  predicate SoundInfo(info: seq<byte>) {
    |info| < 4 || (SoundPacket(info) &&
                   (1 <= info[0] <= 4 ==> PppOptions.WellFormed(PacketOf(info).data)))
  }

  predicate Sound(frame: seq<byte>) {
    match ParseHeader(frame)
    case None => true
    case Some(h) =>
      && (h.protocol == LCP_PROTOCOL || h.protocol == IPCP_PROTOCOL ==> SoundInfo(frame[h.offset..]))
      && (|frame| >= 2 || h.protocol == IP_PROTOCOL)
  }

  function MaxCode(p: Proto): byte {
    if p.LCP? then DISCARD_REQUEST else CODE_REJECT
  }

  function Settle(cp: Cp, verdict: Ipcp.Verdict, options: Option<seq<byte>>): Cp {
    match verdict
    case Accept => cp
    case Reject => cp.(sendReject := true, peerOptions := if options.Some? then options.value else cp.peerOptions)
    case Nak => cp.(sendReject := false, peerOptions := if options.Some? then options.value else cp.peerOptions)
  }

  function VerdictEvent(verdict: Ipcp.Verdict): Event {
    if verdict.Accept? then RcrPlus else RcrMinus
  }

  /** What the LCP driver makes of a Configure-Request. */
  function LcpRequest(l: Link, data: seq<byte>): (Link, Event) {
    if l.lcp.failures >= l.lcp.maxFailure then (l, RcrMinus)
    else
      var j := Lcp.Judge(PppOptions.Parse(data));
      var params := if j.verdict.Accept? then Lcp.ApplyAll(l.params, l.lcpData, PppOptions.Parse(data)) else l.params;
      (l.(params := params, lcp := Settle(l.lcp, j.verdict, j.options)), VerdictEvent(j.verdict))
  }

  function IpcpRequest(l: Link, data: seq<byte>): (Link, Event)
    requires PppOptions.WellFormed(data)
  {
    if l.ipcp.failures >= l.ipcp.maxFailure then (l, RcrMinus)
    else
      var r := if l.ipcpData.isServer then Ipcp.ServerReply(l.ipcpData, data) else Ipcp.ClientReply(data);
      var d := if l.ipcpData.isServer then l.ipcpData else Ipcp.ClientHears(l.ipcpData, PppOptions.Parse(data));
      (l.(ipcpData := d, ipcp := Settle(l.ipcp, r.verdict, if r.verdict.Accept? then None else Some(r.options))),
       VerdictEvent(r.verdict))
  }

  /** An Ack counts if it repeats the identifier and the options of the request. */
  predicate AckMatches(cp: Cp, ack: Packet) {
    ack.id == cp.configId && ack.data == cp.localOptions
  }

  function Ack(l: Link, p: Proto, ack: Packet): Link {
    var opts := PppOptions.Parse(ack.data);
    var l1 := if p.LCP? then l.(params := Lcp.Acked(l.params, opts)) else l.(ipcpData := Ipcp.Acked(l.ipcpData, opts));
    l1.(log := l.log + [AckIn(p, ack)])
  }

  function NakReceived(l: Link, p: Proto, data: seq<byte>): Link {
    var opts := PppOptions.Parse(data);
    if p.LCP? then
      var d := Lcp.Naked(l.lcpData, opts);
      l.(lcpData := d, lcp := l.lcp.(localOptions := Lcp.Generate(d)))
    else if l.ipcpData.isServer then l
    else
      var d := Ipcp.Naked(l.ipcpData, opts);
      l.(ipcpData := d, ipcp := l.ipcp.(localOptions := Ipcp.Generate(d)))
  }

  function RejReceived(l: Link, p: Proto, data: seq<byte>): Link {
    if p.LCP? then l
    else
      var d := Ipcp.Rejected(l.ipcpData, PppOptions.Parse(data));
      l.(ipcpData := d, ipcp := l.ipcp.(localOptions := Ipcp.Generate(d)))
  }

  /** What a driver does with a packet before the automaton sees it, and the event it is. */
  function Digest(l: Link, p: Proto, packet: Packet): (Link, Option<Event>)
    requires 1 <= packet.code <= 4 ==> PppOptions.WellFormed(packet.data)
  {
    var code, cp := packet.code, CpOf(l, p);
    if code == 0 || code > MaxCode(p) then (l, Some(Ruc))
    else if code == CONFIGURE_REQUEST then
      var (l1, e) := if p.LCP? then LcpRequest(l, packet.data) else IpcpRequest(l, packet.data);
      (l1, Some(e))
    else if code == CONFIGURE_ACK then
      if AckMatches(cp, packet) then (Ack(l, p, packet), Some(Rca)) else (l, None)
    else if code == CONFIGURE_NAK then
      if packet.id == cp.configId then (NakReceived(l, p, packet.data), Some(Rcn)) else (l, None)
    else if code == CONFIGURE_REJECT then
      if packet.id == cp.configId then (RejReceived(l, p, packet.data), Some(Rcn)) else (l, None)
    else if code == TERMINATE_REQUEST then (l, Some(Rtr))
    else if code == TERMINATE_ACK then (l, Some(Rta))
    else if code == CODE_REJECT || code == PROTOCOL_REJECT then (l, Some(RxjMinus))
    else if code == ECHO_REQUEST then (l, Some(Rxr))
    else (l, None)
  }

  function ControlPacket(l: Link, env: Env, p: Proto, info: seq<byte>): Link
    requires SoundInfo(info)
  {
    if |info| < 4 then l
    else
      var (l1, e) := Digest(l, p, PacketOf(info));
      match e
      case None => l1
      case Some(event) => CpEvent(l1, env, p, event, PacketOf(info))
  }

  /** Success or failure of the authentication. */
  function AuthNotify(l: Link, env: Env, success: bool): Link {
    if success then StartNetwork(l) else LcpEvent(l.(reason := AuthFail), env, Close, NO_PACKET)
  }

  function ChapPacket(l: Link, env: Env, info: seq<byte>): Link {
    if |info| < 4 then l
    else if info[0] == 3 then AuthNotify(l, env, true)
    else if info[0] == 4 then AuthNotify(l, env, false)
    else l
  }

  /** A protocol nobody handles is rejected, but only while LCP is open. */
  function ProtocolReject(l: Link, frame: seq<byte>): Link
    requires |frame| >= 2
  {
    if l.lcp.state.Opened?
    then l.(log := l.log + [Tx(LCP, Packet(PROTOCOL_REJECT, NewIdentity(l.lcp.rejectId), frame[2..]))])
    else l
  }

  function Receive(l: Link, env: Env, frame: seq<byte>): Link
    requires Sound(frame)
  {
    match ParseHeader(frame)
    case None => l
    case Some(h) =>
      var info := frame[h.offset..];
      if Dropped(l.phase, h.protocol) || h.protocol == IP_PROTOCOL then l
      else if h.protocol == LCP_PROTOCOL then ControlPacket(l, env, LCP, info)
      else if h.protocol == IPCP_PROTOCOL then ControlPacket(l, env, IPCP, info)
      else if h.protocol == CHAP_PROTOCOL && l.params.chap then ChapPacket(l, env, info)
      else ProtocolReject(l, frame)
  }

  /** A datagram the link hands to the tunnel. */
  predicate HandsDatagram(l: Link, frame: seq<byte>) {
    && ParseHeader(frame).Some? && ParseHeader(frame).value.protocol == IP_PROTOCOL
    && !Dropped(l.phase, IP_PROTOCOL)
  }

  // ---- Everything that can happen ----

  datatype Input = OpenLink | Listen | Frame(bytes: seq<byte>) | Expire(proto: Proto, which: Which)
                 | Shutdown | IoLost | WriteDone | IdleRuns
                 | EnableAcfc(on: bool) | EnablePfc(on: bool)
                 | ServerInfo(peer: Ipcp.Addr, dns1: Ipcp.Addr, dns2: Ipcp.Addr)

  function SetOption(l: Link, o: Lcp.LcpOption, on: bool): Link {
    var asked := if on then l.lcpData.asked + {o} else l.lcpData.asked - {o};
    if asked == l.lcpData.asked then l
    else l.(lcpData := l.lcpData.(asked := asked),
            lcp := l.lcp.(localOptions := Lcp.Generate(l.lcpData.(asked := asked))))
  }

  function Begin(l: Link, env: Env, open: bool): Link {
    if l.started then l
    else
      var l1 := if open then LcpEvent(LcpEvent(l, env, Up, NO_PACKET), env, Open, NO_PACKET) else l;
      EnterPhase(l1, Establishment).(started := true)
  }

  function Expired(l: Link, env: Env, p: Proto, w: Which): Link {
    if Running(CpOf(l, p), w)
    then CpEvent(WithCp(l, p, Fired(CpOf(l, p), w)), env, p, TimeoutEvent(CpOf(l, p), w), NO_PACKET)
    else l
  }

  function ShutDown(l: Link, env: Env): Link {
    if l.phase.Dead? || l.phase.Termination? then l
    else LcpEvent(l.(reason := LocalClose), env, Close, NO_PACKET)
  }

  function IoDisconnect(l: Link, env: Env): Link {
    if l.phase.Dead? then l
    else LcpEvent(LcpEvent(l.(reason := LinkDead), env, Down, NO_PACKET), env, Close, NO_PACKET)
  }

  /** The end is reported to the owner of the link. */
  function PppDead(l: Link): Link {
    l.(idleDead := false, disconnects := l.disconnects + 1)
  }

  function StaSent(l: Link): Link {
    if !l.staPending then l
    else if l.phase.Dead? then PppDead(l.(staPending := false))
    else l.(staPending := false)
  }

  predicate Proper(i: Input) {
    i.Frame? ==> Sound(i.bytes)
  }

  function Step(l: Link, env: Env, i: Input): Link
    requires Proper(i)
  {
    match i
    case OpenLink => Begin(l, env, true)
    case Listen => Begin(l, env, false)
    case Frame(bytes) => Receive(l, env, bytes)
    case Expire(p, w) => Expired(l, env, p, w)
    case Shutdown => ShutDown(l, env)
    case IoLost => IoDisconnect(l, env)
    case WriteDone => StaSent(l)
    case IdleRuns => if l.idleDead then PppDead(l) else l
    case EnableAcfc(on) => SetOption(l, Lcp.AcfcOption, on)
    case EnablePfc(on) => SetOption(l, Lcp.PfcOption, on)
    case ServerInfo(peer, dns1, dns2) => l.(ipcpData := l.ipcpData.(peer := peer, dns1 := dns1, dns2 := dns2))
  }

  function Run(l: Link, steps: seq<(Env, Input)>): Link
    requires forall i :: 0 <= i < |steps| ==> Proper(steps[i].1)
    decreases |steps|
  {
    if |steps| == 0 then l
    else Step(Run(l, steps[..|steps| - 1]), steps[|steps| - 1].0, steps[|steps| - 1].1)
  }
}
