/** What a peer sees of a link: frames in, as their bytes, and the packets they are answered
    with. The numbers are those of RFC 1661, RFC 1332 and RFC 1994. */
module PppReplies {
  import opened Bytes
  import opened Wrappers
  import opened PppCp
  import PppOptions
  import Ipcp = PppIpcpOptions
  import Lcp = PppLcpOptions
  import opened PppLink
  import opened PppSafety

  /** A control packet as its bytes: code, identifier, length, data; more may follow. */
  predicate Bears(info: seq<byte>, code: byte, id: byte, data: seq<byte>) {
    && |info| >= 4 + |data| && info[0] == code && info[1] == id
    && info[2] as int * 256 + info[3] == 4 + |data| && info[4..4 + |data|] == data
  }

  function LcpFrame(info: seq<byte>): seq<byte> {
    [0xff, 0x03, 0xc0, 0x21] + info
  }

  function IpcpFrame(info: seq<byte>): seq<byte> {
    [0xff, 0x03, 0x80, 0x21] + info
  }

  function CpFrame(p: Proto, info: seq<byte>): seq<byte> {
    if p.LCP? then LcpFrame(info) else IpcpFrame(info)
  }

  lemma FrameOpens(hi: byte, lo: byte, info: seq<byte>)
    requires hi % 2 == 0
    ensures var f := [0xff, 0x03, hi, lo] + info; ParseHeader(f) == Some(Header(hi as int * 256 + lo, 4)) && f[4..] == info
  {
  }

  lemma {:induction false} PacketIs(info: seq<byte>, code: byte, id: byte, data: seq<byte>)
    requires Bears(info, code, id, data)
    ensures SoundPacket(info) && PacketOf(info) == Packet(code, id, data)
    ensures SoundInfo(info) <==> (1 <= code <= 4 ==> PppOptions.WellFormed(data))
  {
  }

  /** LCP is heard in every phase but Dead, IPCP in the network phases. */
  predicate Listens(l: Link, p: Proto) {
    !l.phase.Dead? && (p.IPCP? ==> l.phase.Network? || l.phase.LinkUp?)
  }

  lemma {:induction false} Heard(l: Link, env: Env, p: Proto, info: seq<byte>, code: byte, id: byte, data: seq<byte>)
    requires Listens(l, p) && Bears(info, code, id, data) && (1 <= code <= 4 ==> PppOptions.WellFormed(data))
    ensures var i := Input.Frame(CpFrame(p, info));
      Proper(i) && Step(l, env, i) == match Digest(l, p, Packet(code, id, data)).1
                                      case None => Digest(l, p, Packet(code, id, data)).0
                                      case Some(e) => CpEvent(Digest(l, p, Packet(code, id, data)).0, env, p, e, Packet(code, id, data))
  {
    hide Digest, CpEvent, PppOptions.WellFormed, PacketOf, SoundPacket, SoundInfo, ParseHeader;
    PacketIs(info, code, id, data);
    if p.LCP? {
      FrameOpens(0xc0, 0x21, info);
    } else {
      FrameOpens(0x80, 0x21, info);
    }
  }

  // ---- Packets that leave the automaton where it is ----

  /** Entries of an event that sends at most one packet and tells nobody. */
  function Said(p: Proto, sent: Option<Packet>): seq<Entry> {
    (if sent.Some? then [Tx(p, sent.value)] else []) + [Sig(p, Quiet)]
  }

  function Listed(sent: Option<Packet>): seq<Packet> {
    if sent.Some? then [sent.value] else []
  }

  lemma SaidIs(p: Proto, cp: Cp, sent: Option<Packet>)
    ensures Entries(p, Outcome(cp, Listed(sent), Quiet)) == Said(p, sent)
  {
    assert TxAll(p, Listed(sent)) == if sent.Some? then [Tx(p, sent.value)] else [];
  }

  lemma NoTerminateAck(cp: Cp, e: Event)
    requires e.Rxr? || e.Ruc?
    ensures !SendsTerminateAck(cp, e)
  {
  }

  lemma OnlySays(l: Link, env: Env, p: Proto, e: Event, packet: Packet, sent: Option<Packet>)
    requires Generate(CpOf(l, p), e, packet) == Outcome(CpOf(l, p), Listed(sent), Quiet) && (e.Rxr? || e.Ruc?)
    ensures CpEvent(l, env, p, e, packet) == l.(log := l.log + Said(p, sent))
  {
    hide Generate, SendsTerminateAck, Entries, Said, Listed;
    SaidIs(p, CpOf(l, p), sent);
    NoTerminateAck(l.lcp, e);
  }

  /** A packet that leads to such an event. */
  lemma Answers(l: Link, env: Env, p: Proto, info: seq<byte>, packet: Packet, e: Event, sent: Option<Packet>)
    requires Listens(l, p) && Bears(info, packet.code, packet.id, packet.data)
    requires 1 <= packet.code <= 4 ==> PppOptions.WellFormed(packet.data)
    requires Digest(l, p, packet) == (l, Some(e)) && (e.Rxr? || e.Ruc?)
    requires Generate(CpOf(l, p), e, packet) == Outcome(CpOf(l, p), Listed(sent), Quiet)
    ensures var i := Input.Frame(CpFrame(p, info)); Proper(i) && Step(l, env, i) == l.(log := l.log + Said(p, sent))
  {
    hide Step, Proper, Generate, CpEvent, Digest, PppOptions.WellFormed, Said, Listed, CpFrame, Bears;
    Heard(l, env, p, info, packet.code, packet.id, packet.data);
    OnlySays(l, env, p, e, packet, sent);
  }

  /** An event that neither moves the automaton nor takes part in the negotiation. */
  lemma OnlyOthers(cp: Cp, e: Event, p: Packet, a: set<Action>)
    requires Transition(e, cp.state) == Go(a, cp.state) && a <= {SCJ, SER} && TimersMatch(cp)
    ensures Generate(cp, e, p) == Outcome(cp, Others(cp, a, p), Quiet)
  {
    hide Transition, Others;
    assert Transited(cp, cp.state) == cp;
    assert [] + [] + [] + Others(cp, a, p) == Others(cp, a, p);
  }

  lemma TableOthers(s: State)
    ensures Transition(Rxr, s) == if s.Initial? || s.Starting? then INV else Go(if s.Opened? then {SER} else {}, s)
    ensures Transition(Ruc, s) == if s.Initial? || s.Starting? then INV else Go({SCJ}, s)
  {
  }

  lemma EchoEffects(cp: Cp, p: Packet)
    requires TimersMatch(cp)
    ensures Generate(cp, Rxr, p) == Outcome(cp, Listed(if cp.state.Opened? then Some(Packet(10, p.id, [0, 0, 0, 0])) else None), Quiet)
  {
    hide Transition, Transited;
    TableOthers(cp.state);
    if Active(cp.state) {
      OnlyOthers(cp, Rxr, p, if cp.state.Opened? then {SER} else {});
    }
  }

  /** An open LCP answers an Echo-Request under its own identifier, with a magic number of
      zero; in no other state, and nothing else changes. */
  lemma EchoAnswered(l: Link, env: Env, info: seq<byte>, id: byte, data: seq<byte>)
    requires LinkOk(l) && !l.phase.Dead? && Bears(info, 9, id, data)
    ensures var i := Input.Frame([0xff, 0x03, 0xc0, 0x21] + info);
      Proper(i) && Step(l, env, i) ==
        l.(log := l.log + ((if l.lcp.state.Opened? then [Tx(LCP, Packet(10, id, [0, 0, 0, 0]))] else []) + [Sig(LCP, Quiet)]))
  {
    hide Step, Proper, Generate, CpEvent, PppOptions.WellFormed, Histories, Resources, Coupled;
    var packet := Packet(9, id, data);
    assert Digest(l, LCP, packet) == (l, Some(Rxr));
    EchoEffects(l.lcp, packet);
    var sent := if l.lcp.state.Opened? then Some(Packet(10, id, [0, 0, 0, 0])) else None;
    Answers(l, env, LCP, info, packet, Rxr, sent);
    assert Said(LCP, sent) == (if l.lcp.state.Opened? then [Tx(LCP, Packet(10, id, [0, 0, 0, 0]))] else []) + [Sig(LCP, Quiet)];
  }

  lemma UnknownEffects(cp: Cp, p: Packet)
    requires TimersMatch(cp) && |p.data| < 0xfffc
    ensures Generate(cp, Ruc, p) == Outcome(cp, Listed(if cp.state.Initial? || cp.state.Starting? then None
      else Some(Packet(7, (cp.rejectId + 1) % 256, [p.code, p.id, (|p.data| + 4) / 256, (|p.data| + 4) % 256] + p.data))), Quiet)
  {
    hide Transition, Transited;
    TableOthers(cp.state);
    if Active(cp.state) {
      OnlyOthers(cp, Ruc, p, {SCJ});
    }
  }

  /** A code the protocol does not know comes back in a Code-Reject, exactly as it was. */
  lemma UnknownCodeReturned(l: Link, env: Env, p: Proto, info: seq<byte>, code: byte, id: byte, data: seq<byte>)
    requires LinkOk(l) && Listens(l, p) && Bears(info, code, id, data) && (code == 0 || code > if p.LCP? then 11 else 7)
    ensures var i := Input.Frame(CpFrame(p, info)); var cp := CpOf(l, p);
      Proper(i) && Step(l, env, i) ==
        l.(log := l.log + ((if cp.state.Initial? || cp.state.Starting? then []
                            else [Tx(p, Packet(7, (cp.rejectId + 1) % 256, info[..4 + |data|]))]) + [Sig(p, Quiet)]))
  {
    hide Step, Proper, Generate, CpEvent, PppOptions.WellFormed, Histories, Resources, Coupled;
    var packet, cp := Packet(code, id, data), CpOf(l, p);
    assert Digest(l, p, packet) == (l, Some(Ruc));
    assert info[..4 + |data|] == [code, id, (|data| + 4) / 256, (|data| + 4) % 256] + data;
    UnknownEffects(cp, packet);
    var back := Packet(7, (cp.rejectId + 1) % 256, info[..4 + |data|]);
    var sent := if cp.state.Initial? || cp.state.Starting? then None else Some(back);
    Answers(l, env, p, info, packet, Ruc, sent);
    assert Said(p, sent) == (if cp.state.Initial? || cp.state.Starting? then [] else [Tx(p, back)]) + [Sig(p, Quiet)];
  }

  /** Echo-Replies and Discard-Requests are heard in silence. */
  lemma RepliesIgnored(l: Link, env: Env, info: seq<byte>, code: byte, id: byte, data: seq<byte>)
    requires !l.phase.Dead? && Bears(info, code, id, data) && (code == 10 || code == 11)
    ensures var i := Input.Frame([0xff, 0x03, 0xc0, 0x21] + info); Proper(i) && Step(l, env, i) == l
  {
    hide Step, Proper, PppOptions.WellFormed;
    Heard(l, env, LCP, info, code, id, data);
  }

  /** An answer that does not carry the identifier of the latest request is dropped, and so
      is an Ack that does not repeat its options. */
  lemma {:induction false} StaleAnswersIgnored(l: Link, env: Env, p: Proto, info: seq<byte>, code: byte, id: byte, data: seq<byte>)
    requires Listens(l, p) && Bears(info, code, id, data) && 2 <= code <= 4 && PppOptions.WellFormed(data)
    requires id != CpOf(l, p).configId || (code == 2 && data != CpOf(l, p).localOptions)
    ensures var i := Input.Frame(CpFrame(p, info)); Proper(i) && Step(l, env, i) == l
  {
    hide Step, Proper, PppOptions.WellFormed;
    Heard(l, env, p, info, code, id, data);
  }

  // ---- LCP goes down ----

  /** Sends exactly these packets, in this order, before anything else is logged. */
  predicate Begins(log: seq<Entry>, more: seq<Entry>, later: seq<Entry>) {
    log + more <= later
  }

  lemma AppliedIpcpIs(l: Link, e: Event)
    ensures var r := Apply(l, IPCP, e, NO_PACKET);
      r == l.(ipcp := Generate(l.ipcp, e, NO_PACKET).cp, log := l.log + Entries(IPCP, Generate(l.ipcp, e, NO_PACKET)))
  {
    hide Generate, Entries;
  }

  lemma AdminOnlyAdds(l: Link, e: Event)
    ensures var r := IpcpAdmin(l, e); r.reason == l.reason && r.lcp == l.lcp && r.phase == l.phase && Begins(l.log, [], r.log)
    ensures IpcpAdmin(l, e).staPending == l.staPending
  {
    hide Apply, SignalFor, Generate, Entries, Ipcp.Generate, Ipcp.Reset, Begins;
    AppliedIpcpIs(l, e);
    NothingBefore(l.log, Entries(IPCP, Generate(l.ipcp, e, NO_PACKET)));
  }

  lemma NothingBefore(log: seq<Entry>, more: seq<Entry>)
    ensures Begins(log, [], log + more)
  {
    assert log + [] == log;
  }

  /** Whatever takes LCP down: the reason is the one already known, or that the peer closed
      the link, and the phase is Termination. */
  lemma GoesDown(l: Link, env: Env, e: Event, packet: Packet)
    requires Generate(l.lcp, e, packet).signal.LayerDown?
    ensures var r := LcpEvent(l, env, e, packet);
      && r.phase.Termination? && r.reason == (if l.reason.Unknown? then PeerClosed else l.reason)
      && r.lcp.state == Generate(l.lcp, e, packet).cp.state
      && Begins(l.log, Entries(LCP, Generate(l.lcp, e, packet)), r.log)
  {
    hide *;
    var sta := l.staPending || (env.sendOk && SendsTerminateAck(l.lcp, e));
    var next := Apply(l, LCP, e, packet).(staPending := sta);
    LcpEventIs(l, env, e, packet, sta);
    DownSignalled(l, next, e, packet);
    AppliedLcpIs(l, e, packet);
    LcpDownAdds(next);
    BeginsItself(l.log, Entries(LCP, Generate(l.lcp, e, packet)), LcpDown(next).log);
  }

  lemma DownSignalled(l: Link, next: Link, e: Event, packet: Packet)
    requires Generate(l.lcp, e, packet).signal.LayerDown?
    ensures LcpSignalled(next, SignalFor(l, LCP, e, packet)) == LcpDown(next)
  {
    hide LcpDown, Generate;
  }

  lemma AppliedLcpIs(l: Link, e: Event, packet: Packet)
    ensures var r := Apply(l, LCP, e, packet);
      r == l.(lcp := Generate(l.lcp, e, packet).cp, log := l.log + Entries(LCP, Generate(l.lcp, e, packet)))
  {
    hide Generate, Entries;
  }

  lemma LcpDownAdds(l: Link)
    ensures var r := LcpDown(l);
      && r.phase.Termination? && r.reason == (if l.reason.Unknown? then PeerClosed else l.reason)
      && r.lcp.state == l.lcp.state && Begins(l.log, [], r.log)
  {
    hide IpcpAdmin, Lcp.Generate, Begins;
    var l1 := l.(lcp := l.lcp.(localOptions := Lcp.Generate(l.lcpData)));
    AdminOnlyAdds(l1, Down);
    NothingBefore(l.log, []);
    assert l.log + [] == l.log;
  }

  lemma BeginsItself(log: seq<Entry>, more: seq<Entry>, later: seq<Entry>)
    ensures Begins(log, more, log + more)
    ensures Begins(log + more, [], later) ==> Begins(log, more, later)
  {
    assert log + more + [] == log + more;
  }

  lemma TableDowns()
    ensures Transition(Close, Opened) == Go({TLD, IRC, STR}, Closing)
    ensures Transition(RxjMinus, Opened) == Go({TLD, IRC, STR}, Stopping)
    ensures Transition(Rtr, Opened) == Go({TLD, ZRC, STA}, Stopping)
  {
  }

  /** An automaton that ends the connection sends a Terminate-Request under a new identifier. */
  lemma EndingEffects(cp: Cp, e: Event, p: Packet, next: State)
    requires Transition(e, cp.state) == Go({TLD, IRC, STR}, next) && Terminating(next)
    ensures var r := Generate(cp, e, p);
      r.signal.LayerDown? && r.cp.state == next && r.sent == [Packet(5, (cp.termId + 1) % 256, [])]
  {
    hide Transition, Transited;
    TransitStage(AfterTerminate(AfterReply(AfterRequest(Restarted(cp, {TLD, IRC, STR}, next), {TLD, IRC, STR}), {TLD, IRC, STR}), {TLD, IRC, STR}), next);
  }

  lemma EndedEffects(cp: Cp, p: Packet)
    requires cp.state.Opened?
    ensures var r := Generate(cp, Rtr, p);
      r.signal.LayerDown? && r.cp.state.Stopping? && r.sent == [Packet(6, p.id, [])]
  {
    TableDowns();
    hide Transition;
  }

  /** After the peer's Terminate-Request nothing is repeated: one timeout ends it. */
  lemma PeerEndsAtOnce(cp: Cp, p: Packet)
    requires TimersMatch(cp) && cp.state.Opened?
    ensures var r := Generate(cp, Rtr, p).cp; var end := Timeout(r, TermTimer);
      && Running(r, TermTimer) && !Running(r, ConfigTimer)
      && end.cp.state.Stopped? && end.sent == [] && end.signal.LayerFinished?
  {
    TableDowns();
    EventEffects(cp, Rtr, p);
    StoppingEnds(Fired(Generate(cp, Rtr, p).cp, TermTimer));
    hide Transition, Generate;
  }

  lemma StoppingEnds(cp: Cp)
    requires cp.state.Stopping?
    ensures var r := Generate(cp, ToMinus, NO_PACKET); r.cp.state.Stopped? && r.sent == [] && r.signal.LayerFinished?
  {
  }

  lemma DownEffects(cp: Cp, e: Event, p: Packet)
    requires cp.state.Opened? && (e.Close? || e.Rtr? || e.RxjMinus?)
    ensures var r := Generate(cp, e, p);
      && r.signal.LayerDown? && r.cp.state == (if e.Close? then Closing else Stopping)
      && r.sent == [if e.Rtr? then Packet(6, p.id, []) else Packet(5, (cp.termId + 1) % 256, [])]
  {
    TableDowns();
    hide Generate, Transition;
    if e.Rtr? {
      EndedEffects(cp, p);
    } else {
      EndingEffects(cp, e, p, if e.Close? then Closing else Stopping);
    }
  }

  lemma OneSent(p: Proto, r: Outcome, packet: Packet)
    requires r.sent == [packet]
    ensures Entries(p, r) == [Tx(p, packet), Sig(p, r.signal)]
  {
    assert TxAll(p, r.sent) == [Tx(p, packet)];
  }

  /** LCP closed for a reason of our own: the peer is told, and the reason stays. */
  lemma ClosedFor(l: Link, env: Env, reason: Reason)
    requires l.lcp.state.Opened? && !reason.Unknown?
    ensures var r := LcpEvent(l.(reason := reason), env, Close, NO_PACKET);
      && r.phase.Termination? && r.reason == reason && r.lcp.state.Closing?
      && Begins(l.log, [Tx(LCP, Packet(5, (l.lcp.termId + 1) % 256, [])), Sig(LCP, LayerDown)], r.log)
  {
    hide Generate, LcpEvent, Entries, Begins;
    DownEffects(l.lcp, Close, NO_PACKET);
    GoesDown(l.(reason := reason), env, Close, NO_PACKET);
    OneSent(LCP, Generate(l.lcp, Close, NO_PACKET), Packet(5, (l.lcp.termId + 1) % 256, []));
  }

  /** A Terminate-Request to an open LCP is answered under its own identifier and takes the
      link down; a Code-Reject or a Protocol-Reject is taken for the end as well, and the
      peer is told. */
  lemma EndedByPeer(l: Link, env: Env, info: seq<byte>, code: byte, id: byte, data: seq<byte>)
    requires LinkOk(l) && l.lcp.state.Opened? && Bears(info, code, id, data) && (code == 5 || code == 7 || code == 8)
    ensures var i := Input.Frame([0xff, 0x03, 0xc0, 0x21] + info);
      && Proper(i) && var r := Step(l, env, i);
      && r.phase.Termination? && r.lcp.state.Stopping? && !r.net && !Active(r.ipcp.state)
      && r.reason == (if l.reason.Unknown? then PeerClosed else l.reason)
      && Begins(l.log, [Tx(LCP, if code == 5 then Packet(6, id, []) else Packet(5, (l.lcp.termId + 1) % 256, [])),
                        Sig(LCP, LayerDown)], r.log)
  {
    hide *;
    OpenPhase(l);
    var i := Input.Frame([0xff, 0x03, 0xc0, 0x21] + info);
    var e := if code == 5 then Rtr else RxjMinus;
    EndRead(l, env, info, Packet(code, id, data));
    DownEffects(l.lcp, e, Packet(code, id, data));
    GoesDown(l, env, e, Packet(code, id, data));
    OneSent(LCP, Generate(l.lcp, e, Packet(code, id, data)),
            if code == 5 then Packet(6, id, []) else Packet(5, (l.lcp.termId + 1) % 256, []));
    StepKeeps(l, env, i);
    DownPhase(Step(l, env, i));
  }

  lemma EndRead(l: Link, env: Env, info: seq<byte>, packet: Packet)
    requires Listens(l, LCP) && Bears(info, packet.code, packet.id, packet.data)
    requires packet.code == 5 || packet.code == 7 || packet.code == 8
    ensures var i := Input.Frame([0xff, 0x03, 0xc0, 0x21] + info);
      Proper(i) && Step(l, env, i) == LcpEvent(l, env, if packet.code == 5 then Rtr else RxjMinus, packet)
  {
    hide Step, Proper, LcpEvent, PppOptions.WellFormed, Bears;
    Heard(l, env, LCP, info, packet.code, packet.id, packet.data);
  }

  lemma OpenPhase(l: Link)
    requires LinkOk(l)
    ensures l.lcp.state.Opened? <==> UpPhase(l.phase)
    ensures Listens(l, IPCP) <==> NetPhase(l.phase)
    ensures l.lcp.state.Opened? ==> Listens(l, LCP)
  {
    hide Histories, Timers, Resources;
  }

  lemma DownPhase(l: Link)
    requires LinkOk(l) && l.phase.Termination?
    ensures !l.lcp.state.Opened? && !l.net && !Active(l.ipcp.state)
  {
    hide Histories, Timers, Resources;
  }

  // ---- Authentication ----

  lemma ChapRead(l: Link, env: Env, info: seq<byte>)
    requires UpPhase(l.phase) && l.params.chap && |info| >= 4
    ensures var i := Input.Frame([0xff, 0x03, 0xc2, 0x23] + info);
      && Proper(i)
      && Step(l, env, i) == if info[0] == 3 then StartNetwork(l)
                            else if info[0] == 4 then LcpEvent(l.(reason := AuthFail), env, Close, NO_PACKET) else l
  {
    hide StartNetwork, LcpEvent;
    FrameOpens(0xc2, 0x23, info);
    hide ParseHeader;
  }

  /** The outcome of the authentication: Success (code 3) starts the network phase and puts
      IPCP to work, with LCP as it was; Failure (code 4) takes the link down for that
      reason; every other code leaves the link alone. */
  lemma AuthenticationDecides(l: Link, env: Env, info: seq<byte>)
    requires LinkOk(l) && UpPhase(l.phase) && l.params.chap && |info| >= 4
    ensures var i := Input.Frame([0xff, 0x03, 0xc2, 0x23] + info);
      && Proper(i) && var r := Step(l, env, i);
      && (info[0] == 3 ==> r.phase.Network? && r.lcp == l.lcp && r.lcp.state.Opened? && r.reason == l.reason
                           && Active(r.ipcp.state) && (l.phase.Authentication? ==> r.ipcp.state.ReqSent?))
      && (info[0] == 4 ==> r.phase.Termination? && r.reason.AuthFail? && r.lcp.state.Closing? && !r.net
                           && Begins(l.log, [Tx(LCP, Packet(5, (l.lcp.termId + 1) % 256, [])), Sig(LCP, LayerDown)], r.log))
      && (info[0] != 3 && info[0] != 4 ==> r == l)
  {
    OpenPhase(l);
    Ready(l);
    hide LinkOk, Step, Proper, Begins, LcpEvent, StartNetwork;
    ChapRead(l, env, info);
    ClosedFor(l, env, AuthFail);
    var i := Input.Frame([0xff, 0x03, 0xc2, 0x23] + info);
    StepKeeps(l, env, i);
    if info[0] == 3 {
      StartKeeps(l);
      Started(l);
    } else if info[0] == 4 {
      DownPhase(Step(l, env, i));
    }
  }

  lemma Ready(l: Link)
    requires LinkOk(l)
    ensures Histories(l) && Timers(l) && (l.net <==> l.ipcp.state.Opened?)
    ensures l.phase.Authentication? ==> l.ipcp.state.Initial? || l.ipcp.state.Starting?
  {
    hide Histories, Timers, Resources;
  }

  lemma AdminState(l: Link, e: Event)
    ensures IpcpAdmin(l, e).ipcp.state == NextState(e, l.ipcp.state)
  {
    GenerateStates(l.ipcp, e, NO_PACKET);
    hide Generate, Entries, Ipcp.Generate, Ipcp.Reset, NextState;
  }

  lemma Started(l: Link)
    ensures var r := StartNetwork(l);
      && r.reason == l.reason
      && (l.ipcp.state.Initial? || l.ipcp.state.Starting? ==> r.ipcp.state.ReqSent?)
      && (Coupled(r) && r.phase.Network? ==> Active(r.ipcp.state))
  {
    hide IpcpAdmin, Begins, Transition, Active;
    var l1 := EnterPhase(l, Network);
    AdminOnlyAdds(l1, Open);
    AdminOnlyAdds(IpcpAdmin(l1, Open), Up);
    AdminState(l1, Open);
    AdminState(IpcpAdmin(l1, Open), Up);
    TableStarting();
  }

  lemma TableStarting()
    ensures Transition(Open, Initial) == Go({TLS}, Starting) && Transition(Open, Starting) == Go({}, Starting)
    ensures Transition(Up, Starting) == Go({IRC, SCR}, ReqSent)
  {
  }

  // ---- Which protocols are heard when ----

  /** Outside its phases a protocol is not heard, and a datagram never changes the link. */
  lemma DroppedByPhase(l: Link, env: Env, hi: byte, lo: byte, info: seq<byte>)
    requires hi % 2 == 0 && Proper(Input.Frame([0xff, 0x03, hi, lo] + info))
    ensures var unheard :=
        match l.phase
        case Dead => true
        case Establishment => [hi, lo] != [0xc0, 0x21]
        case Termination => [hi, lo] != [0xc0, 0x21]
        case Authentication => [hi, lo] != [0xc0, 0x21] && [hi, lo] != [0xc2, 0x23]
        case Network => [hi, lo] != [0xc0, 0x21] && [hi, lo] != [0xc2, 0x23] && [hi, lo] != [0x80, 0x21]
        case LinkUp => false;
      unheard || [hi, lo] == [0x00, 0x21] ==> Step(l, env, Input.Frame([0xff, 0x03, hi, lo] + info)) == l
  {
    hide ControlPacket, ChapPacket, ProtocolReject, ParseHeader, SoundInfo;
    FrameOpens(hi, lo, info);
    NumberOf(hi, lo);
  }

  lemma NumberOf(hi: byte, lo: byte)
    ensures var n := hi as int * 256 + lo;
      && (n == LCP_PROTOCOL <==> [hi, lo] == [0xc0, 0x21]) && (n == IPCP_PROTOCOL <==> [hi, lo] == [0x80, 0x21])
      && (n == CHAP_PROTOCOL <==> [hi, lo] == [0xc2, 0x23]) && (n == IP_PROTOCOL <==> [hi, lo] == [0x00, 0x21])
  {
    var n := hi as int * 256 + lo;
    assert n / 256 == hi && n % 256 == lo;
    assert [hi, lo][0] == hi && [hi, lo][1] == lo;
  }

  /** Once the link is up, a protocol nobody handles comes back in a Protocol-Reject, with its
      number and its information; so does CHAP where no authentication was asked for. */
  lemma ForeignReturned(l: Link, env: Env, hi: byte, lo: byte, info: seq<byte>)
    requires LinkOk(l) && hi % 2 == 0
    requires (l.phase.LinkUp? && [hi, lo] != [0xc0, 0x21] && [hi, lo] != [0x80, 0x21] && [hi, lo] != [0x00, 0x21] && [hi, lo] != [0xc2, 0x23])
             || (UpPhase(l.phase) && [hi, lo] == [0xc2, 0x23] && !l.params.chap)
    ensures var i := Input.Frame([0xff, 0x03, hi, lo] + info);
      Proper(i) && Step(l, env, i) == l.(log := l.log + [Tx(LCP, Packet(8, (l.lcp.rejectId + 1) % 256, [hi, lo] + info))])
  {
    hide *;
    OpenPhase(l);
    ForeignRead(l, env, hi, lo, info);
    RejectIs(l, [0xff, 0x03, hi, lo] + info, [hi, lo] + info);
  }

  lemma RejectIs(l: Link, frame: seq<byte>, rest: seq<byte>)
    requires l.lcp.state.Opened? && |frame| >= 2 && frame[2..] == rest
    ensures ProtocolReject(l, frame) == l.(log := l.log + [Tx(LCP, Packet(8, (l.lcp.rejectId + 1) % 256, rest))])
  {
  }

  lemma ForeignRead(l: Link, env: Env, hi: byte, lo: byte, info: seq<byte>)
    requires hi % 2 == 0
    requires (l.phase.LinkUp? && [hi, lo] != [0xc0, 0x21] && [hi, lo] != [0x80, 0x21] && [hi, lo] != [0x00, 0x21] && [hi, lo] != [0xc2, 0x23])
             || (UpPhase(l.phase) && [hi, lo] == [0xc2, 0x23] && !l.params.chap)
    ensures UpPhase(l.phase)
    ensures var f := [0xff, 0x03, hi, lo] + info; Proper(Input.Frame(f)) && Step(l, env, Input.Frame(f)) == ProtocolReject(l, f)
  {
    hide ControlPacket, ChapPacket, ProtocolReject, ParseHeader, SoundInfo;
    FrameOpens(hi, lo, info);
    NumberOf(hi, lo);
  }

  // ---- Corrections ----

  lemma TableCorrected()
    ensures Transition(Rcn, ReqSent) == Go({IRC, SCR}, ReqSent) && Transition(Rcn, AckSent) == Go({IRC, SCR}, AckSent)
  {
  }

  lemma AsksAgain(cp: Cp, p: Packet)
    requires cp.state.ReqSent? || cp.state.AckSent?
    ensures var r := Generate(cp, Rcn, p);
      && r.sent == [Packet(1, (cp.configId + 1) % 256, cp.localOptions)] && r.signal.Quiet?
      && r.cp == cp.(configId := (cp.configId + 1) % 256, config := Timer(9, true))
  {
    TableCorrected();
    hide Transition;
  }

  lemma Asked(l: Link, env: Env, p: Proto, packet: Packet)
    requires CpOf(l, p).state.ReqSent? || CpOf(l, p).state.AckSent?
    ensures var id := (CpOf(l, p).configId + 1) % 256; var cp := CpOf(l, p).(configId := id, config := Timer(9, true));
      CpEvent(l, env, p, Rcn, packet) ==
        WithCp(l, p, cp).(log := l.log + [Tx(p, Packet(1, id, cp.localOptions)), Sig(p, Quiet)])
  {
    AsksAgain(CpOf(l, p), packet);
    OneSent(p, Generate(CpOf(l, p), Rcn, packet), Packet(1, (CpOf(l, p).configId + 1) % 256, CpOf(l, p).localOptions));
    TableCorrected();
    hide Generate, Entries, Transition;
  }

  /** A Nak or a Reject of the latest IPCP request is answered by a new request under the
      next identifier, with the settings the answer leads to. */
  lemma {:induction false} IpcpCorrected(l: Link, env: Env, info: seq<byte>, code: byte, id: byte, data: seq<byte>)
    requires LinkOk(l) && (l.ipcp.state.ReqSent? || l.ipcp.state.AckSent?) && Bears(info, code, id, data)
    requires PppOptions.WellFormed(data) && id == l.ipcp.configId
    requires code == 4 || (code == 3 && !l.ipcpData.isServer)
    ensures var i := Input.Frame([0xff, 0x03, 0x80, 0x21] + info);
      var d := if code == 3 then Ipcp.Naked(l.ipcpData, PppOptions.Parse(data)) else Ipcp.Rejected(l.ipcpData, PppOptions.Parse(data));
      var options, next := Ipcp.Generate(d), (id + 1) % 256;
      && Proper(i)
      && Step(l, env, i) == l.(ipcpData := d, log := l.log + [Tx(IPCP, Packet(1, next, options)), Sig(IPCP, Quiet)],
           ipcp := l.ipcp.(localOptions := options, configId := next, config := Timer(9, true)))
  {
    hide *;
    Negotiates(l);
    Heard(l, env, IPCP, info, code, id, data);
    IpcpCorrection(l, Packet(code, id, data));
    var opts := PppOptions.Parse(data);
    IpcpAsked(l, env, if code == 3 then Ipcp.Naked(l.ipcpData, opts) else Ipcp.Rejected(l.ipcpData, opts), Packet(code, id, data));
    FrameIs(info);
  }

  lemma FrameIs(info: seq<byte>)
    ensures CpFrame(LCP, info) == [0xff, 0x03, 0xc0, 0x21] + info && CpFrame(IPCP, info) == [0xff, 0x03, 0x80, 0x21] + info
  {
  }

  lemma IpcpAsked(l: Link, env: Env, d: Ipcp.Ipcp, packet: Packet)
    requires l.ipcp.state.ReqSent? || l.ipcp.state.AckSent?
    ensures var options, next := Ipcp.Generate(d), (l.ipcp.configId + 1) % 256;
      CpEvent(l.(ipcpData := d, ipcp := l.ipcp.(localOptions := options)), env, IPCP, Rcn, packet) ==
      l.(ipcpData := d, log := l.log + [Tx(IPCP, Packet(1, next, options)), Sig(IPCP, Quiet)],
         ipcp := l.ipcp.(localOptions := options, configId := next, config := Timer(9, true)))
  {
    hide CpEvent, Ipcp.Generate;
    Asked(l.(ipcpData := d, ipcp := l.ipcp.(localOptions := Ipcp.Generate(d))), env, IPCP, packet);
  }

  lemma IpcpCorrection(l: Link, p: Packet)
    requires PppOptions.WellFormed(p.data) && p.id == l.ipcp.configId && (p.code == 4 || (p.code == 3 && !l.ipcpData.isServer))
    ensures var opts := PppOptions.Parse(p.data);
      var d := if p.code == 3 then Ipcp.Naked(l.ipcpData, opts) else Ipcp.Rejected(l.ipcpData, opts);
      Digest(l, IPCP, p) == (l.(ipcpData := d, ipcp := l.ipcp.(localOptions := Ipcp.Generate(d))), Some(Rcn))
  {
    hide PppOptions.WellFormed, PppOptions.Parse, Ipcp.Naked, Ipcp.Rejected, Ipcp.Generate;
  }

  /** A Nak to LCP changes at most the receive unit asked for, a Reject nothing at all. */
  lemma {:induction false} LcpCorrected(l: Link, env: Env, info: seq<byte>, code: byte, id: byte, data: seq<byte>)
    requires LinkOk(l) && (l.lcp.state.ReqSent? || l.lcp.state.AckSent?) && !l.phase.Dead? && Bears(info, code, id, data)
    requires PppOptions.WellFormed(data) && id == l.lcp.configId && (code == 3 || code == 4)
    ensures var i := Input.Frame([0xff, 0x03, 0xc0, 0x21] + info);
      var d := if code == 3 then Lcp.Naked(l.lcpData, PppOptions.Parse(data)) else l.lcpData;
      var options, next := if code == 3 then Lcp.Generate(d) else l.lcp.localOptions, (id + 1) % 256;
      && Proper(i)
      && Step(l, env, i) == l.(lcpData := d, log := l.log + [Tx(LCP, Packet(1, next, options)), Sig(LCP, Quiet)],
           lcp := l.lcp.(localOptions := options, configId := next, config := Timer(9, true)))
  {
    var packet := Packet(code, id, data);
    hide LinkOk, Step, Proper, CpEvent, PppOptions.WellFormed, PppOptions.Parse, Lcp.Naked, Lcp.Generate, Bears;
    Heard(l, env, LCP, info, code, id, data);
    var l1 := Digest(l, LCP, packet).0;
    Asked(l1, env, LCP, packet);
  }

  // ---- Requests ----

  lemma TableRequested()
    ensures Transition(RcrPlus, ReqSent) == Go({SCA}, AckSent) && Transition(RcrPlus, AckSent) == Go({SCA}, AckSent)
    ensures Transition(RcrMinus, ReqSent) == Go({SCN}, ReqSent) && Transition(RcrMinus, AckSent) == Go({SCN}, ReqSent)
    ensures Transition(RcrPlus, AckRcvd) == Go({SCA, TLU}, Opened) && Transition(RcrMinus, AckRcvd) == Go({SCN}, AckRcvd)
  {
  }

  lemma Agrees(cp: Cp, p: Packet)
    requires cp.state.ReqSent? || cp.state.AckSent?
    ensures Generate(cp, RcrPlus, p) ==
            Outcome(cp.(state := AckSent, failures := 0), [Packet(2, p.id, p.data)], Quiet)
  {
    TableRequested();
    hide Transition;
  }

  /** A refusal carries the list of the driver, in a Nak or a Reject; after too many Naks it
      rejects the request as it is. */
  lemma Refuses(cp: Cp, p: Packet)
    requires Negotiating(cp.state)
    ensures var tired := cp.failures >= cp.maxFailure;
      Generate(cp, RcrMinus, p) ==
        Outcome(cp.(state := Refusing(cp.state), peerOptions := [],
                    failures := if tired || cp.sendReject then cp.failures else (cp.failures + 1) % 0x1_0000_0000),
                [if tired then Packet(4, p.id, p.data) else Packet(if cp.sendReject then 4 else 3, p.id, cp.peerOptions)], Quiet)
  {
    TableRequested();
    hide Transition;
  }

  /** A refusal takes back our own Ack, but not that of the peer. */
  function Refusing(s: State): State {
    if s.AckRcvd? then AckRcvd else ReqSent
  }

  lemma RequestSays(l: Link, env: Env, p: Proto, e: Event, packet: Packet, cp: Cp, sent: Packet)
    requires Generate(CpOf(l, p), e, packet) == Outcome(cp, [sent], Quiet) && (e.RcrPlus? || e.RcrMinus?)
    requires Negotiating(CpOf(l, p).state) && (CpOf(l, p).state.AckRcvd? ==> e.RcrMinus?)
    ensures CpEvent(l, env, p, e, packet) == WithCp(l, p, cp).(log := l.log + [Tx(p, sent), Sig(p, Quiet)])
  {
    TableRequested();
    OneSent(p, Generate(CpOf(l, p), e, packet), sent);
    hide Generate, Entries, Transition;
  }

  /** The answer to a request, by the verdict of the driver and its list. */
  function Answer(cp: Cp, id: byte, data: seq<byte>, verdict: Ipcp.Verdict, options: Option<seq<byte>>): Packet {
    if cp.failures >= cp.maxFailure then Packet(4, id, data)
    else match verdict
         case Accept => Packet(2, id, data)
         case Nak => Packet(3, id, if options.Some? then options.value else cp.peerOptions)
         case Reject => Packet(4, id, if options.Some? then options.value else cp.peerOptions)
  }

  /** What it leaves behind: an Ack clears the count of failures, a Nak adds to it. */
  predicate Answered(cp: Cp, r: Cp, answer: Packet) {
    && r.state == (if answer.code == 2 then AckSent else if cp.state.AckRcvd? then AckRcvd else ReqSent)
    && r.failures == (if answer.code == 2 then 0 else if answer.code == 3 then (cp.failures + 1) % 0x1_0000_0000 else cp.failures)
    && r.configId == cp.configId && r.localOptions == cp.localOptions && r.maxFailure == cp.maxFailure
  }

  /** The automaton the driver leaves for the event. */
  function Judged(cp: Cp, verdict: Ipcp.Verdict, options: Option<seq<byte>>): (Cp, Event) {
    if cp.failures >= cp.maxFailure then (cp, RcrMinus) else (Settle(cp, verdict, options), VerdictEvent(verdict))
  }

  lemma JudgedAnswers(l: Link, env: Env, p: Proto, id: byte, data: seq<byte>, verdict: Ipcp.Verdict, options: Option<seq<byte>>, cp: Cp)
    requires CpOf(l, p) == Judged(cp, verdict, options).0
    requires Negotiating(cp.state) && (cp.state.AckRcvd? ==> Answer(cp, id, data, verdict, options).code != 2)
    ensures var answer := Answer(cp, id, data, verdict, options);
      var r := CpEvent(l, env, p, Judged(cp, verdict, options).1, Packet(1, id, data));
      && Answered(cp, CpOf(r, p), answer)
      && r == WithCp(l, p, CpOf(r, p)).(log := l.log + [Tx(p, answer), Sig(p, Quiet)])
  {
    hide *;
    JudgedOutcome(cp, id, data, verdict, options);
    var (c1, e) := Judged(cp, verdict, options);
    var answer := Answer(cp, id, data, verdict, options);
    RequestSays(l, env, p, e, Packet(1, id, data), Generate(c1, e, Packet(1, id, data)).cp, answer);
    CpOfWith(l, p, Generate(c1, e, Packet(1, id, data)).cp, l.log + [Tx(p, answer), Sig(p, Quiet)]);
  }

  lemma CpOfWith(l: Link, p: Proto, cp: Cp, log: seq<Entry>)
    ensures CpOf(WithCp(l, p, cp).(log := log), p) == cp
  {
  }

  lemma JudgedOutcome(cp: Cp, id: byte, data: seq<byte>, verdict: Ipcp.Verdict, options: Option<seq<byte>>)
    requires Negotiating(cp.state) && (cp.state.AckRcvd? ==> Answer(cp, id, data, verdict, options).code != 2)
    ensures var (c1, e) := Judged(cp, verdict, options); var answer := Answer(cp, id, data, verdict, options);
      var r := Generate(c1, e, Packet(1, id, data));
      && r == Outcome(r.cp, [answer], Quiet) && Answered(cp, r.cp, answer)
      && (e.RcrPlus? || e.RcrMinus?) && Negotiating(c1.state) && (c1.state.AckRcvd? ==> e.RcrMinus?)
  {
    hide Generate;
    var (c1, e) := Judged(cp, verdict, options);
    if e.RcrPlus? {
      Agrees(c1, Packet(1, id, data));
    } else {
      Refuses(c1, Packet(1, id, data));
    }
  }

  function LcpAnswer(l: Link, id: byte, data: seq<byte>): Packet {
    var j := Lcp.Judge(PppOptions.Parse(data));
    Answer(l.lcp, id, data, j.verdict, j.options)
  }

  function IpcpAnswer(l: Link, id: byte, data: seq<byte>): Packet
    requires PppOptions.WellFormed(data)
  {
    var j := if l.ipcpData.isServer then Ipcp.ServerReply(l.ipcpData, data) else Ipcp.ClientReply(data);
    Answer(l.ipcp, id, data, j.verdict, Some(j.options))
  }

  /** A Configure-Request to an LCP that negotiates: acceptable, it is acknowledged as it is
      and its options take effect; otherwise it is answered with the list of the driver;
      after too many failures it is rejected as it is; and only an Ack takes effect. */
  lemma {:induction false} LcpRequestAnswered(l: Link, env: Env, info: seq<byte>, id: byte, data: seq<byte>)
    requires LinkOk(l) && !l.phase.Dead? && Bears(info, 1, id, data) && PppOptions.WellFormed(data)
    requires Negotiating(l.lcp.state) && (l.lcp.state.AckRcvd? ==> LcpAnswer(l, id, data).code != 2)
    ensures var i := Input.Frame([0xff, 0x03, 0xc0, 0x21] + info);
      var opts := PppOptions.Parse(data);
      var answer := LcpAnswer(l, id, data);
      && Proper(i) && var r := Step(l, env, i);
      && r == l.(lcp := r.lcp, params := r.params, log := l.log + [Tx(LCP, answer), Sig(LCP, Quiet)])
      && Answered(l.lcp, r.lcp, answer)
      && r.params == if answer.code == 2 then Lcp.ApplyAll(l.params, l.lcpData, opts) else l.params
  {
    hide *;
    var opts := PppOptions.Parse(data);
    var j := Lcp.Judge(opts);
    HeardAs(l, LCP);
    Heard(l, env, LCP, info, 1, id, data);
    FrameIs(info);
    LcpDigest(l, id, data);
    LcpAnswerIs(l, id, data);
    var l1 := LcpRequest(l, data).0;
    JudgedAnswers(l1, env, LCP, id, data, j.verdict, j.options, l.lcp);
    CpOfLcp(l1, CpEvent(l1, env, LCP, LcpRequest(l, data).1, Packet(1, id, data)));
  }

  lemma {:induction false} LcpAnswerIs(l: Link, id: byte, data: seq<byte>)
    ensures var j := Lcp.Judge(PppOptions.Parse(data)); LcpAnswer(l, id, data) == Answer(l.lcp, id, data, j.verdict, j.options)
  {
  }

  lemma HeardAs(l: Link, p: Proto)
    requires p.LCP? && !l.phase.Dead?
    ensures Listens(l, p)
  {
  }

  lemma CpOfLcp(l: Link, r: Link)
    ensures CpOf(l, LCP) == l.lcp && WithCp(l, LCP, CpOf(r, LCP)) == l.(lcp := r.lcp) && CpOf(r, LCP) == r.lcp
    ensures CpOf(l, IPCP) == l.ipcp && WithCp(l, IPCP, CpOf(r, IPCP)) == l.(ipcp := r.ipcp) && CpOf(r, IPCP) == r.ipcp
  {
  }

  lemma {:induction false} LcpDigest(l: Link, id: byte, data: seq<byte>)
    requires PppOptions.WellFormed(data)
    ensures var opts := PppOptions.Parse(data); var j := Lcp.Judge(opts); var (l1, e) := LcpRequest(l, data);
      && Digest(l, LCP, Packet(1, id, data)) == (l1, Some(e)) && e == Judged(l.lcp, j.verdict, j.options).1
      && CpOf(l1, LCP) == Judged(l.lcp, j.verdict, j.options).0
      && l1 == l.(lcp := l1.lcp, params := if Answer(l.lcp, id, data, j.verdict, j.options).code == 2
                                           then Lcp.ApplyAll(l.params, l.lcpData, opts) else l.params)
  {
    hide PppOptions.WellFormed, PppOptions.Parse, Lcp.Judge, Lcp.ApplyAll;
  }

  /** The same for IPCP, with the list of its driver. A client takes the address its peer
      claims whatever it answers. */
  lemma {:induction false} IpcpRequestAnswered(l: Link, env: Env, info: seq<byte>, id: byte, data: seq<byte>)
    requires LinkOk(l) && Bears(info, 1, id, data) && PppOptions.WellFormed(data)
    requires Negotiating(l.ipcp.state) && (l.ipcp.state.AckRcvd? ==> IpcpAnswer(l, id, data).code != 2)
    ensures var i := Input.Frame([0xff, 0x03, 0x80, 0x21] + info);
      var opts := PppOptions.Parse(data);
      var answer := IpcpAnswer(l, id, data);
      && Proper(i) && var r := Step(l, env, i);
      && r == l.(ipcp := r.ipcp, ipcpData := r.ipcpData, log := l.log + [Tx(IPCP, answer), Sig(IPCP, Quiet)])
      && Answered(l.ipcp, r.ipcp, answer)
      && r.ipcpData == if l.ipcp.failures >= l.ipcp.maxFailure || l.ipcpData.isServer then l.ipcpData
                       else Ipcp.ClientHears(l.ipcpData, opts)
  {
    hide *;
    var j := if l.ipcpData.isServer then Ipcp.ServerReply(l.ipcpData, data) else Ipcp.ClientReply(data);
    NegotiatingIs(l.ipcp.state);
    Negotiates(l);
    Heard(l, env, IPCP, info, 1, id, data);
    FrameIs(info);
    IpcpDigest(l, id, data, j);
    var l1 := IpcpRequest(l, data).0;
    var options := if j.verdict.Accept? then None else Some(j.options);
    SameAnswer(l, id, data, j);
    JudgedAnswers(l1, env, IPCP, id, data, j.verdict, options, l.ipcp);
    CpOfLcp(l1, CpEvent(l1, env, IPCP, IpcpRequest(l, data).1, Packet(1, id, data)));
  }

  lemma {:induction false} SameAnswer(l: Link, id: byte, data: seq<byte>, j: Ipcp.Reply)
    requires PppOptions.WellFormed(data)
    requires j == if l.ipcpData.isServer then Ipcp.ServerReply(l.ipcpData, data) else Ipcp.ClientReply(data)
    ensures IpcpAnswer(l, id, data) == Answer(l.ipcp, id, data, j.verdict, if j.verdict.Accept? then None else Some(j.options))
  {
    hide Ipcp.ServerReply, Ipcp.ClientReply, PppOptions.WellFormed;
  }

  lemma {:induction false} IpcpDigest(l: Link, id: byte, data: seq<byte>, j: Ipcp.Reply)
    requires PppOptions.WellFormed(data)
    requires j == if l.ipcpData.isServer then Ipcp.ServerReply(l.ipcpData, data) else Ipcp.ClientReply(data)
    ensures var options := if j.verdict.Accept? then None else Some(j.options); var (l1, e) := IpcpRequest(l, data);
      && Digest(l, IPCP, Packet(1, id, data)) == (l1, Some(e)) && e == Judged(l.ipcp, j.verdict, options).1
      && CpOf(l1, IPCP) == Judged(l.ipcp, j.verdict, options).0
      && l1 == l.(ipcp := l1.ipcp, ipcpData :=
           if l.ipcp.failures >= l.ipcp.maxFailure || l.ipcpData.isServer then l.ipcpData
           else Ipcp.ClientHears(l.ipcpData, PppOptions.Parse(data)))
  {
    hide PppOptions.WellFormed, PppOptions.Parse, Ipcp.ServerReply, Ipcp.ClientReply, Ipcp.ClientHears;
  }

  lemma NegotiatingIs(s: State)
    ensures Negotiating(s) <==> s.ReqSent? || s.AckRcvd? || s.AckSent?
  {
  }

  lemma Negotiates(l: Link)
    requires LinkOk(l) && (l.ipcp.state.ReqSent? || l.ipcp.state.AckRcvd? || l.ipcp.state.AckSent?)
    ensures Listens(l, IPCP) && l.lcp.state.Opened?
  {
    hide Histories, Timers, Resources;
  }

  // ---- Coming up, and why a link ends ----

  /** The Ack that completes IPCP: the link is up if a tunnel can be made; otherwise LCP is
      closed for that reason. */
  lemma {:induction false} IpcpCompleted(l: Link, env: Env, info: seq<byte>, id: byte, data: seq<byte>)
    requires LinkOk(l) && l.ipcp.state.AckSent? && Bears(info, 2, id, data) && PppOptions.WellFormed(data)
    requires id == l.ipcp.configId && data == l.ipcp.localOptions
    ensures var i := Input.Frame([0xff, 0x03, 0x80, 0x21] + info);
      && Proper(i) && var r := Step(l, env, i);
      && (env.netOk ==> r.phase.LinkUp? && r.net && r.ipcp.state.Opened? && r.lcp == l.lcp && r.reason == l.reason)
      && (!env.netOk ==> r.phase.Termination? && !r.net && r.lcp.state.Closing? && r.reason.NetFail?)
  {
    Negotiates(l);
    var i := Input.Frame([0xff, 0x03, 0x80, 0x21] + info);
    var packet := Packet(2, id, data);
    hide LinkOk, Step, Proper, IpcpEvent, PppOptions.WellFormed, Bears, Ack;
    Heard(l, env, IPCP, info, 2, id, data);
    AckLeaves(l, packet);
    var l1 := Ack(l, IPCP, packet);
    assert Step(l, env, i) == IpcpEvent(l1, env, Rca, packet);
    Completed(l1, env, packet);
    StepKeeps(l, env, i);
    if !env.netOk {
      DownPhase(Step(l, env, i));
    }
  }

  lemma LcpAckLeaves(l: Link, ack: Packet)
    ensures var r := Ack(l, LCP, ack); r.ipcp == l.ipcp && r.lcp == l.lcp && r.phase == l.phase && r.params.chap == l.params.chap
  {
    ChapStays(l.params, PppOptions.Parse(ack.data));
    hide PppOptions.Parse, Lcp.Acked;
  }

  lemma {:induction false} ChapStays(p: Lcp.Params, opts: seq<PppOptions.Opt>)
    ensures Lcp.Acked(p, opts).chap == p.chap
    decreases |opts|
  {
    if |opts| > 0 {
      ChapStays(if opts[0].kind == Lcp.ACCM then p.(recvAccm := Lcp.HostLong(opts[0].value)) else p, opts[1..]);
    }
  }

  /** The Ack that completes LCP: if authentication was agreed the link waits for it, and
      IPCP is not touched; if not, IPCP asks at once. */
  lemma {:induction false} LcpCompleted(l: Link, env: Env, info: seq<byte>, id: byte, data: seq<byte>)
    requires LinkOk(l) && !l.phase.Dead? && l.lcp.state.AckSent? && Bears(info, 2, id, data) && PppOptions.WellFormed(data)
    requires id == l.lcp.configId && data == l.lcp.localOptions
    ensures var i := Input.Frame([0xff, 0x03, 0xc0, 0x21] + info);
      && Proper(i) && var r := Step(l, env, i);
      && r.lcp.state.Opened?
      && (l.params.chap ==> r.phase.Authentication? && r.ipcp == l.ipcp)
      && (!l.params.chap ==> r.phase.Network? && (r.ipcp.state.ReqSent? || !(l.ipcp.state.Initial? || l.ipcp.state.Starting?)))
  {
    hide *;
    var packet := Packet(2, id, data);
    HeardAs(l, LCP);
    Heard(l, env, LCP, info, 2, id, data);
    FrameIs(info);
    LcpAckRead(l, packet);
    LcpAckLeaves(l, packet);
    LcpOpens(Ack(l, LCP, packet), env, packet);
  }

  lemma LcpAckRead(l: Link, ack: Packet)
    requires ack.code == 2 && ack.id == l.lcp.configId && ack.data == l.lcp.localOptions && PppOptions.WellFormed(ack.data)
    ensures Digest(l, LCP, ack) == (Ack(l, LCP, ack), Some(Rca))
    ensures forall r: Link, env: Env :: CpEvent(r, env, LCP, Rca, ack) == LcpEvent(r, env, Rca, ack)
  {
    hide Ack, LcpEvent, PppOptions.WellFormed;
  }

  lemma LcpOpens(l: Link, env: Env, ack: Packet)
    requires l.lcp.state.AckSent?
    ensures var r := LcpEvent(l, env, Rca, ack);
      && r.lcp.state.Opened?
      && (l.params.chap ==> r.phase.Authentication? && r.ipcp == l.ipcp)
      && (!l.params.chap ==> r.phase.Network? && (r.ipcp.state.ReqSent? || !(l.ipcp.state.Initial? || l.ipcp.state.Starting?)))
  {
    hide *;
    var sta := l.staPending || (env.sendOk && SendsTerminateAck(l.lcp, Rca));
    var next := Apply(l, LCP, Rca, ack).(staPending := sta);
    LcpEventIs(l, env, Rca, ack, sta);
    AppliedLcpIs(l, Rca, ack);
    AckOpens(l.lcp, ack);
    UpSignalled(l, next, ack);
    LcpUpIs(next);
    Started(next);
  }

  lemma UpSignalled(l: Link, next: Link, packet: Packet)
    requires Generate(l.lcp, Rca, packet).signal.LayerUp?
    ensures LcpSignalled(next, SignalFor(l, LCP, Rca, packet)) == LcpUp(next)
  {
    hide LcpUp, Generate;
  }

  lemma LcpUpIs(l: Link)
    ensures l.params.chap ==> LcpUp(l).phase.Authentication? && LcpUp(l).ipcp == l.ipcp && LcpUp(l).lcp == l.lcp
    ensures !l.params.chap ==> LcpUp(l) == StartNetwork(l) && LcpUp(l).lcp == l.lcp && LcpUp(l).phase.Network?
  {
    hide IpcpAdmin, Begins;
    AdminOnlyAdds(EnterPhase(l, Network), Open);
    AdminOnlyAdds(IpcpAdmin(EnterPhase(l, Network), Open), Up);
  }

  lemma AckLeaves(l: Link, ack: Packet)
    ensures var r := Ack(l, IPCP, ack); r.ipcp == l.ipcp && r.lcp == l.lcp && r.phase == l.phase && r.reason == l.reason
  {
  }

  lemma Completed(l: Link, env: Env, ack: Packet)
    requires l.ipcp.state.AckSent? && l.lcp.state.Opened?
    ensures var r := IpcpEvent(l, env, Rca, ack);
      && (env.netOk ==> r.phase.LinkUp? && r.net && r.ipcp.state.Opened? && r.lcp == l.lcp && r.reason == l.reason)
      && (!env.netOk ==> r.phase.Termination? && r.lcp.state.Closing? && r.reason.NetFail?)
  {
    hide Generate, LcpEvent, Entries;
    AckOpens(l.ipcp, ack);
    var next := Apply(l, IPCP, Rca, ack);
    ClosedFor(next.(net := false), env, NetFail);
  }

  lemma AckOpens(cp: Cp, ack: Packet)
    requires cp.state.AckSent?
    ensures Generate(cp, Rca, ack).signal.LayerUp? && Generate(cp, Rca, ack).cp.state.Opened?
  {
  }

  /** A reason once given stays. */
  lemma ReasonStays(l: Link, env: Env, e: Event, packet: Packet)
    requires !l.reason.Unknown?
    ensures LcpEvent(l, env, e, packet).reason == l.reason
  {
    hide *;
    var sta := l.staPending || (env.sendOk && SendsTerminateAck(l.lcp, e));
    var next := Apply(l, LCP, e, packet).(staPending := sta);
    LcpEventIs(l, env, e, packet, sta);
    AppliedLcpIs(l, e, packet);
    SignalGivesNoReason(next, SignalFor(l, LCP, e, packet));
  }

  lemma SignalGivesNoReason(l: Link, s: Signal)
    requires !l.reason.Unknown?
    ensures LcpSignalled(l, s).reason == l.reason
  {
    hide LcpDown, StartNetwork;
    LcpDownAdds(l);
    Started(l);
  }

  /** What the owner of the link is told about its end. */
  lemma ReasonsGiven(l: Link, env: Env)
    ensures var r := Step(l, env, Shutdown); if l.phase.Dead? || l.phase.Termination? then r == l else r.reason.LocalClose?
    ensures var r := Step(l, env, IoLost); if l.phase.Dead? then r == l else r.reason.LinkDead?
    ensures l.phase.Network? ==> IpcpFinished(l, env).reason.IpcpFail?
    ensures !l.phase.Network? ==> IpcpFinished(l, env) == l
  {
    hide LcpEvent, IpcpAdmin, Begins;
    ReasonStays(l.(reason := LocalClose), env, Close, NO_PACKET);
    var l1 := l.(reason := LinkDead);
    ReasonStays(l1, env, Down, NO_PACKET);
    ReasonStays(LcpEvent(l1, env, Down, NO_PACKET), env, Close, NO_PACKET);
    var l2 := l.(reason := IpcpFail);
    AdminOnlyAdds(l2, Close);
    ReasonStays(IpcpAdmin(l2, Close), env, Close, NO_PACKET);
  }
}
