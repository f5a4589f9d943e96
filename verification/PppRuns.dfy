/** Two more things every run of a link keeps: the request each automaton would send carries
    the current settings of its driver, and the restart counters stay within their budget. */
module PppRuns {
  import opened Bytes
  import opened Wrappers
  import opened PppCp
  import PppOptions
  import Ipcp = PppIpcpOptions
  import Lcp = PppLcpOptions
  import opened PppLink
  import Retransmit = PppRetransmit
  import opened PppOptionBytes

  /** The requests each automaton would send carry the current settings. */
  predicate Current(l: Link) {
    && l.lcp.localOptions == Lcp.Generate(l.lcpData)
    && l.ipcp.localOptions == Ipcp.Generate(l.ipcpData)
    && (l.ipcpData.isServer ==> l.ipcpData.asked <= {Ipcp.IpAddr})
  }

  predicate Budgeted(cp: Cp) {
    Retransmit.Counted(cp) && (Resting(cp.state) ==> !cp.term.running)
  }

  predicate WithinBudget(l: Link) {
    Budgeted(l.lcp) && Budgeted(l.ipcp)
  }

  /** An event that costs no more than the budget: not a Terminate-Request in the middle of a
      negotiation, and not a timeout that asks again with no request left. */
  predicate Calm(cp: Cp, e: Event) {
    Negotiating(cp.state) ==> !e.Rtr? && (e.ToPlus? ==> cp.config.counter > 0)
  }

  /** What a notification leaves alone of all that: IPCP may fall back to its defaults. */
  predicate Carries(l: Link, r: Link, calm: bool) {
    && r.ipcpData.isServer == l.ipcpData.isServer && r.lcpData == l.lcpData
    && (Current(l) ==> Current(r)) && (calm && WithinBudget(l) ==> WithinBudget(r))
  }

  lemma GenerateKeepsBudget(cp: Cp, e: Event, packet: Packet)
    requires Budgeted(cp) && Calm(cp, e)
    ensures Budgeted(Generate(cp, e, packet).cp)
  {
    Retransmit.CountersKept(cp, e, packet);
    if Transition(e, cp.state).Go? {
      TimerEffects(cp, e, packet);
    }
    hide Generate, Transition, Retransmit.Counted;
  }

  lemma GenerateKeepsOptions(cp: Cp, e: Event, packet: Packet)
    ensures Generate(cp, e, packet).cp.localOptions == cp.localOptions
  {
    if Transition(e, cp.state).Go? {
      EventEffects(cp, e, packet);
    } else {
      assert Generate(cp, e, packet).cp == cp;
    }
    hide Generate, Transition;
  }

  lemma ApplyCarries(l: Link, p: Proto, e: Event, packet: Packet)
    ensures Carries(l, Apply(l, p, e, packet), Calm(CpOf(l, p), e))
  {
    hide Generate, Entries, Lcp.Generate, Ipcp.Generate, Budgeted, Calm;
    GenerateKeepsOptions(CpOf(l, p), e, packet);
    if Budgeted(CpOf(l, p)) && Calm(CpOf(l, p), e) {
      GenerateKeepsBudget(CpOf(l, p), e, packet);
    }
  }

  lemma DownCarries(l: Link)
    ensures Carries(l, IpcpDown(l), true)
  {
    hide Lcp.Generate, Ipcp.Generate;
  }

  lemma CarriesThrough(l: Link, m: Link, r: Link, calm: bool)
    requires Carries(l, m, calm) && (Carries(m, r, calm) || Carries(m, r, true))
    ensures Carries(l, r, calm)
  {
    hide Current, WithinBudget;
  }

  lemma AdminCarries(l: Link, e: Event)
    requires !e.Rtr? && !e.ToPlus?
    ensures Carries(l, IpcpAdmin(l, e), true)
  {
    assert Calm(l.ipcp, e);
    hide Carries, Apply, SignalFor, IpcpDown, Calm;
    ApplyCarries(l, IPCP, e, NO_PACKET);
    var next := Apply(l, IPCP, e, NO_PACKET);
    DownCarries(next);
    if SignalFor(l, IPCP, e, NO_PACKET).LayerDown? {
      CarriesThrough(l, next, IpcpDown(next), true);
    }
  }

  lemma PhaseCarries(l: Link, phase: Phase, reason: Reason, net: bool)
    ensures Carries(l, EnterPhase(l, phase), true) && Carries(l, l.(reason := reason), true)
    ensures Carries(l, EnterPhase(l.(net := net), phase), true) && Carries(l, l.(net := net, reason := reason), true)
  {
    hide Lcp.Generate, Ipcp.Generate, Budgeted;
  }

  lemma StartCarries(l: Link)
    ensures Carries(l, StartNetwork(l), true)
  {
    hide Carries, IpcpAdmin, EnterPhase;
    PhaseCarries(l, Network, Unknown, false);
    var l1 := EnterPhase(l, Network);
    AdminCarries(l1, Open);
    var l2 := IpcpAdmin(l1, Open);
    AdminCarries(l2, Up);
    CarriesThrough(l, l1, l2, true);
    CarriesThrough(l, l2, IpcpAdmin(l2, Up), true);
  }

  lemma LcpDownCarries(l: Link)
    ensures Carries(l, LcpDown(l), true)
  {
    var l1 := l.(lcp := l.lcp.(localOptions := Lcp.Generate(l.lcpData)));
    assert Carries(l, l1, true);
    AdminCarries(l1, Down);
    var l2 := if NetPhase(l.phase) then IpcpAdmin(l1, Down) else l1;
    var reason := if l2.reason.Unknown? then PeerClosed else l2.reason;
    PhaseCarries(l2, Termination, reason, false);
    PhaseCarries(l2.(reason := reason), Termination, reason, false);
    assert Carries(l1, l1, true);
    hide Carries, IpcpAdmin, EnterPhase, Lcp.Generate;
    CarriesThrough(l, l1, l2, true);
    CarriesThrough(l, l2, l2.(reason := reason), true);
    CarriesThrough(l, l2.(reason := reason), EnterPhase(l2.(reason := reason), Termination), true);
  }

  lemma LcpSignalCarries(l: Link, s: Signal)
    ensures Carries(l, LcpSignalled(l, s), true)
  {
    hide StartNetwork, LcpDown, Current, WithinBudget, EnterPhase;
    StartCarries(l);
    LcpDownCarries(l);
    PhaseCarries(l, Authentication, Unknown, false);
    PhaseCarries(l, Dead, Unknown, false);
  }

  lemma LcpEventCarries(l: Link, env: Env, e: Event, packet: Packet)
    ensures Carries(l, LcpEvent(l, env, e, packet), Calm(l.lcp, e))
  {
    ApplyCarries(l, LCP, e, packet);
    var next := Apply(l, LCP, e, packet);
    var sta := next.(staPending := l.staPending || (env.sendOk && SendsTerminateAck(l.lcp, e)));
    StaCarries(next, sta.staPending);
    hide Carries, Apply, SignalFor, LcpSignalled, SendsTerminateAck, Calm;
    LcpSignalCarries(sta, SignalFor(l, LCP, e, packet));
    CarriesThrough(l, next, sta, Calm(l.lcp, e));
    CarriesThrough(l, sta, LcpSignalled(sta, SignalFor(l, LCP, e, packet)), Calm(l.lcp, e));
  }

  lemma StaCarries(l: Link, sta: bool)
    ensures Carries(l, l.(staPending := sta), true)
  {
    hide Lcp.Generate, Ipcp.Generate, Budgeted;
  }

  lemma IpcpEventCarries(l: Link, env: Env, e: Event, packet: Packet)
    ensures Carries(l, IpcpEvent(l, env, e, packet), Calm(l.ipcp, e))
  {
    hide Carries, Apply, SignalFor, IpcpSignalled, Calm;
    ApplyCarries(l, IPCP, e, packet);
    var next := Apply(l, IPCP, e, packet);
    IpcpSignalCarries(next, env, SignalFor(l, IPCP, e, packet));
    CarriesThrough(l, next, IpcpSignalled(next, env, SignalFor(l, IPCP, e, packet)), Calm(l.ipcp, e));
  }

  lemma IpcpSignalCarries(l: Link, env: Env, s: Signal)
    ensures Carries(l, IpcpSignalled(l, env, s), true)
  {
    NothingCarries(l);
    hide Carries, LcpEvent, IpcpAdmin, IpcpDown, EnterPhase, Calm;
    match s
    case LayerUp =>
      PhaseCarries(l, LinkUp, NetFail, true);
      PhaseCarries(l, LinkUp, NetFail, false);
      var l1 := l.(net := false, reason := NetFail);
      LcpEventCarries(l1, env, Close, NO_PACKET);
      CloseIsCalm(l1.lcp);
      CarriesThrough(l, l1, LcpEvent(l1, env, Close, NO_PACKET), true);
    case LayerDown => DownCarries(l);
    case LayerFinished =>
      PhaseCarries(l, LinkUp, IpcpFail, false);
      var l1 := l.(reason := IpcpFail);
      AdminCarries(l1, Close);
      LcpEventCarries(IpcpAdmin(l1, Close), env, Close, NO_PACKET);
      CloseIsCalm(IpcpAdmin(l1, Close).lcp);
      CarriesThrough(l, l1, IpcpAdmin(l1, Close), true);
      CarriesThrough(l, IpcpAdmin(l1, Close), LcpEvent(IpcpAdmin(l1, Close), env, Close, NO_PACKET), true);
    case _ =>
  }

  lemma CloseIsCalm(cp: Cp)
    ensures Calm(cp, Close) && Calm(cp, Up) && Calm(cp, Open) && Calm(cp, Down)
  {
  }

  lemma NothingCarries(l: Link)
    ensures Carries(l, l, true)
  {
  }

  lemma CpEventCarries(l: Link, env: Env, p: Proto, e: Event, packet: Packet)
    ensures Carries(l, CpEvent(l, env, p, e, packet), Calm(CpOf(l, p), e))
  {
    hide Carries, LcpEvent, IpcpEvent, Calm;
    LcpEventCarries(l, env, e, packet);
    IpcpEventCarries(l, env, e, packet);
  }

  // ---- Drivers ----

  /** The same for steps in which a driver changes its settings and says so. */
  predicate Keeps(l: Link, r: Link, calm: bool) {
    && r.ipcpData.isServer == l.ipcpData.isServer
    && (Current(l) ==> Current(r)) && (calm && WithinBudget(l) ==> WithinBudget(r))
  }

  predicate SameStates(l: Link, r: Link) {
    r.lcp.state == l.lcp.state && r.ipcp.state == l.ipcp.state
  }

  lemma {:induction false} HearingKeeps(d: Ipcp.Ipcp, opts: seq<PppOptions.Opt>)
    ensures Ipcp.ClientHears(d, opts) == d.(peer := Ipcp.ClientHears(d, opts).peer)
    decreases |opts|
  {
    if |opts| > 0 {
      HearingKeeps(Ipcp.HearAddress(d, opts[0]), opts[1..]);
    }
  }

  lemma PeerNotAsked(d: Ipcp.Ipcp, peer: Ipcp.Addr)
    ensures Ipcp.Generate(d.(peer := peer)) == Ipcp.Generate(d)
  {
  }

  /** Only what the answer to the peer is made of differs. */
  predicate SameButAnswer(c: Cp, d: Cp) {
    d == c.(peerOptions := d.peerOptions, sendReject := d.sendReject)
  }

  lemma SettleIsAnswer(cp: Cp, verdict: Ipcp.Verdict, options: Option<seq<byte>>)
    ensures SameButAnswer(cp, Settle(cp, verdict, options))
  {
  }

  lemma AnswerKeeps(l: Link, r: Link)
    requires SameButAnswer(l.lcp, r.lcp) && SameButAnswer(l.ipcp, r.ipcp) && r.lcpData == l.lcpData
    requires r.ipcpData == l.ipcpData.(peer := r.ipcpData.peer)
    ensures Keeps(l, r, true) && SameStates(l, r)
  {
    PeerNotAsked(l.ipcpData, r.ipcpData.peer);
    hide Lcp.Generate, Ipcp.Generate;
  }

  lemma {:induction false} RequestKeeps(l: Link, data: seq<byte>)
    requires PppOptions.WellFormed(data)
    ensures var (r, e) := LcpRequest(l, data); Keeps(l, r, true) && SameStates(l, r) && (e.RcrPlus? || e.RcrMinus?)
    ensures var (r, e) := IpcpRequest(l, data); Keeps(l, r, true) && SameStates(l, r) && (e.RcrPlus? || e.RcrMinus?)
  {
    hide Keeps, SameStates, PppOptions.Parse, PppOptions.WellFormed, Lcp.Judge, Lcp.ApplyAll, Settle;
    hide Ipcp.ClientHears, Ipcp.ClientReply, Ipcp.ServerReply, SameButAnswer;
    HearingKeeps(l.ipcpData, PppOptions.Parse(data));
    SettleIsAnswer(l.lcp, Ipcp.Accept, None);
    SettleIsAnswer(l.ipcp, Ipcp.Accept, None);
    SettleAccepted(l);
    if l.lcp.failures < l.lcp.maxFailure {
      SettleIsAnswer(l.lcp, Lcp.Judge(PppOptions.Parse(data)).verdict, Lcp.Judge(PppOptions.Parse(data)).options);
    }
    AnswerKeeps(l, LcpRequest(l, data).0);
    IpcpRequestKeeps(l, data);
  }

  lemma SettleAccepted(l: Link)
    ensures Settle(l.lcp, Ipcp.Accept, None) == l.lcp && Settle(l.ipcp, Ipcp.Accept, None) == l.ipcp
  {
  }

  lemma {:induction false} IpcpRequestKeeps(l: Link, data: seq<byte>)
    requires PppOptions.WellFormed(data)
    ensures var (r, e) := IpcpRequest(l, data); Keeps(l, r, true) && SameStates(l, r) && (e.RcrPlus? || e.RcrMinus?)
  {
    hide Keeps, SameStates, PppOptions.Parse, PppOptions.WellFormed, Settle, SameButAnswer;
    hide Ipcp.ClientHears, Ipcp.ClientReply, Ipcp.ServerReply;
    HearingKeeps(l.ipcpData, PppOptions.Parse(data));
    SettleIsAnswer(l.lcp, Ipcp.Accept, None);
    SettleIsAnswer(l.ipcp, Ipcp.Accept, None);
    SettleAccepted(l);
    if l.ipcp.failures < l.ipcp.maxFailure {
      var r := if l.ipcpData.isServer then Ipcp.ServerReply(l.ipcpData, data) else Ipcp.ClientReply(data);
      SettleIsAnswer(l.ipcp, r.verdict, if r.verdict.Accept? then None else Some(r.options));
    }
    AnswerKeeps(l, IpcpRequest(l, data).0);
  }

  /** An accepted Ack leaves the settings of IPCP alone: a client's because they are those the
      Ack repeats, a server's in any case. */
  lemma AckIsNoNews(l: Link, ack: Packet)
    requires Current(l) && AckMatches(l.ipcp, ack)
    ensures Ack(l, IPCP, ack).ipcpData == l.ipcpData
  {
    if !l.ipcpData.isServer {
      Ipcp.AckChangesNothingIff(l.ipcpData, l.ipcpData);
    }
    hide PppOptions.Parse, Ipcp.Generate, Lcp.Generate, Ipcp.TakeAcks;
  }

  /** An accepted Ack of LCP puts the requested receive map into force, and nothing else. */
  lemma AckSetsMap(l: Link, ack: Packet)
    requires Current(l) && AckMatches(l.lcp, ack)
    ensures Ack(l, LCP, ack).params ==
            if Lcp.AccmOption in l.lcpData.asked then l.params.(recvAccm := l.lcpData.accm) else l.params
    ensures Ack(l, LCP, ack).lcpData == l.lcpData
  {
    Lcp.AckSetsRequestedMap(l.params, l.lcpData);
    hide PppOptions.Parse, Lcp.Generate, Ipcp.Generate, Lcp.Acked;
  }

  lemma AckKeeps(l: Link, p: Proto, ack: Packet)
    requires AckMatches(CpOf(l, p), ack)
    ensures Keeps(l, Ack(l, p, ack), true) && SameStates(l, Ack(l, p, ack))
  {
    if Current(l) && p.IPCP? {
      AckIsNoNews(l, ack);
    }
    AckKeepsServer(l.ipcpData, PppOptions.Parse(ack.data));
    hide PppOptions.Parse, Ipcp.Generate, Lcp.Generate, Lcp.Acked, Ipcp.Acked;
  }

  lemma {:induction false} AckKeepsServer(d: Ipcp.Ipcp, opts: seq<PppOptions.Opt>)
    ensures Ipcp.Acked(d, opts).isServer == d.isServer
  {
    Ipcp.AcksTaken(d, opts, Ipcp.IpAddr);
    hide Ipcp.TakeAcks;
  }

  lemma {:induction false} NaksKeepServer(d: Ipcp.Ipcp, opts: seq<PppOptions.Opt>)
    ensures Ipcp.TakeNaks(d, opts).isServer == d.isServer
    decreases |opts|
  {
    if |opts| > 0 {
      NaksKeepServer(Ipcp.TakeNak(d, opts[0]), opts[1..]);
    }
  }

  lemma {:induction false} RejsKeepServer(d: Ipcp.Ipcp, opts: seq<PppOptions.Opt>)
    ensures Ipcp.TakeRejs(d, opts).isServer == d.isServer && Ipcp.TakeRejs(d, opts).asked <= d.asked
    decreases |opts|
  {
    if |opts| > 0 {
      RejsKeepServer(Ipcp.TakeRej(d, opts[0]), opts[1..]);
    }
  }

  lemma AnswersKeep(l: Link, p: Proto, data: seq<byte>)
    ensures Keeps(l, NakReceived(l, p, data), true) && SameStates(l, NakReceived(l, p, data))
    ensures Keeps(l, RejReceived(l, p, data), true) && SameStates(l, RejReceived(l, p, data))
  {
    NaksKeepServer(l.ipcpData, PppOptions.Parse(data));
    RejsKeepServer(l.ipcpData, PppOptions.Parse(data));
    hide PppOptions.Parse, Ipcp.Generate, Lcp.Generate, Ipcp.TakeNaks, Ipcp.TakeRejs, Lcp.Naked;
  }

  lemma DigestKeeps(l: Link, p: Proto, packet: Packet)
    requires 1 <= packet.code <= 4 ==> PppOptions.WellFormed(packet.data)
    ensures Keeps(l, Digest(l, p, packet).0, true)
    ensures CpOf(Digest(l, p, packet).0, p).state == CpOf(l, p).state
    ensures var e := Digest(l, p, packet).1; e.Some? ==> !e.value.ToPlus? && (e.value.Rtr? ==> packet.code == TERMINATE_REQUEST)
  {
    hide Current, WithinBudget, LcpRequest, IpcpRequest, Ack, NakReceived, RejReceived, PppOptions.WellFormed, AckMatches;
    if packet.code == CONFIGURE_REQUEST {
      RequestKeeps(l, packet.data);
    }
    if AckMatches(CpOf(l, p), packet) {
      AckKeeps(l, p, packet);
    }
    AnswersKeep(l, p, packet.data);
    NothingCarries(l);
  }

  /** A Terminate-Request for an automaton that is negotiating. */
  predicate Interrupts(l: Link, p: Proto, info: seq<byte>) {
    |info| >= 4 && info[0] == TERMINATE_REQUEST && Negotiating(CpOf(l, p).state)
  }

  lemma ControlPacketKeeps(l: Link, env: Env, p: Proto, info: seq<byte>)
    requires SoundInfo(info)
    ensures Keeps(l, ControlPacket(l, env, p, info), !Interrupts(l, p, info))
  {
    if |info| >= 4 {
      assert PacketOf(info).code == info[0];
      DigestKeeps(l, p, PacketOf(info));
      var (r, e) := Digest(l, p, PacketOf(info));
      if e.Some? {
        CpEventCarries(r, env, p, e.value, PacketOf(info));
      }
      hide Current, WithinBudget, Digest, CpEvent, PacketOf, PppOptions.WellFormed;
    }
  }

  /** A Terminate-Request that arrives in the middle of a negotiation. */
  predicate Interrupted(l: Link, i: Input) {
    i.Frame? &&
    match ParseHeader(i.bytes)
    case None => false
    case Some(h) =>
      || (h.protocol == LCP_PROTOCOL && Interrupts(l, LCP, i.bytes[h.offset..]))
      || (h.protocol == IPCP_PROTOCOL && Interrupts(l, IPCP, i.bytes[h.offset..]))
  }

  lemma ReceiveKeeps(l: Link, env: Env, frame: seq<byte>)
    requires Sound(frame)
    ensures Keeps(l, Receive(l, env, frame), !Interrupted(l, Input.Frame(frame)))
  {
    hide Current, WithinBudget, ControlPacket, ProtocolReject, ChapPacket, SoundInfo, Interrupts;
    if ParseHeader(frame).Some? {
      var info := frame[ParseHeader(frame).value.offset..];
      if ParseHeader(frame).value.protocol == LCP_PROTOCOL {
        ControlPacketKeeps(l, env, LCP, info);
      } else if ParseHeader(frame).value.protocol == IPCP_PROTOCOL {
        ControlPacketKeeps(l, env, IPCP, info);
      } else {
        ChapKeeps(l, env, info);
        if ParseHeader(frame).value.protocol != IP_PROTOCOL {
          RejectKeeps(l, frame);
        }
      }
    }
  }

  lemma ChapKeeps(l: Link, env: Env, info: seq<byte>)
    ensures Keeps(l, ChapPacket(l, env, info), true)
  {
    StartCarries(l);
    PhaseCarries(l, Dead, AuthFail, false);
    LcpEventCarries(l.(reason := AuthFail), env, Close, NO_PACKET);
    CloseIsCalm(l.lcp);
    hide Current, WithinBudget, StartNetwork, LcpEvent, Calm;
  }

  lemma RejectKeeps(l: Link, frame: seq<byte>)
    requires |frame| >= 2
    ensures Keeps(l, ProtocolReject(l, frame), true)
  {
    hide Lcp.Generate, Ipcp.Generate;
  }

  // ---- Every run ----

  /** Only a server's owner sets what it hands out. */
  predicate ServerInfoOnServer(isServer: bool, i: Input) {
    i.ServerInfo? ==> isServer
  }

  lemma StepKeeps(l: Link, env: Env, i: Input)
    requires Proper(i)
    ensures ServerInfoOnServer(l.ipcpData.isServer, i) ==> Keeps(l, Step(l, env, i), !Interrupted(l, i))
    ensures !Interrupted(l, i) && WithinBudget(l) ==> WithinBudget(Step(l, env, i))
  {
    hide Current, WithinBudget, Begin, Receive, Expired, ShutDown, IoDisconnect, StaSent, SetOption, Sound;
    match i
    case OpenLink => BeginKeeps(l, env, true);
    case Listen => BeginKeeps(l, env, false);
    case Frame(bytes) => ReceiveKeeps(l, env, bytes);
    case Expire(p, w) => ExpiredKeeps(l, env, p, w);
    case Shutdown => EndingKeeps(l, env);
    case IoLost => EndingKeeps(l, env);
    case _ => BooksKeep(l, env, i);
  }

  lemma BeginKeeps(l: Link, env: Env, open: bool)
    ensures Keeps(l, Begin(l, env, open), true)
  {
    LcpEventCarries(l, env, Up, NO_PACKET);
    var l1 := LcpEvent(l, env, Up, NO_PACKET);
    LcpEventCarries(l1, env, Open, NO_PACKET);
    var l2 := if open then LcpEvent(l1, env, Open, NO_PACKET) else l;
    PhaseCarries(l2, Establishment, Unknown, false);
    StartedKeeps(EnterPhase(l2, Establishment));
    CloseIsCalm(l.lcp);
    CloseIsCalm(l1.lcp);
    hide Current, WithinBudget, LcpEvent, EnterPhase, Calm;
  }

  lemma StartedKeeps(l: Link)
    ensures Keeps(l, l.(started := true), true)
  {
    hide Lcp.Generate, Ipcp.Generate;
  }

  lemma ExpiredKeeps(l: Link, env: Env, p: Proto, w: Which)
    ensures Keeps(l, Expired(l, env, p, w), true)
  {
    var f := WithCp(l, p, Fired(CpOf(l, p), w));
    FiredKeeps(l, p, w);
    CpEventCarries(f, env, p, TimeoutEvent(CpOf(l, p), w), NO_PACKET);
    if WithinBudget(l) && Running(CpOf(l, p), w) {
      TimeoutIsCalm(CpOf(l, p), w);
    }
    assert CpOf(f, p) == Fired(CpOf(l, p), w);
    hide Current, WithinBudget, CpEvent, Fired, TimeoutEvent, Calm;
  }

  lemma TimeoutIsCalm(cp: Cp, w: Which)
    requires Budgeted(cp) && Running(cp, w)
    ensures Calm(Fired(cp, w), TimeoutEvent(cp, w))
  {
  }

  lemma FiredKeeps(l: Link, p: Proto, w: Which)
    ensures Keeps(l, WithCp(l, p, Fired(CpOf(l, p), w)), true)
  {
    hide Lcp.Generate, Ipcp.Generate;
  }

  lemma EndingKeeps(l: Link, env: Env)
    ensures Keeps(l, ShutDown(l, env), true) && Keeps(l, IoDisconnect(l, env), true)
  {
    PhaseCarries(l, Dead, LocalClose, false);
    LcpEventCarries(l.(reason := LocalClose), env, Close, NO_PACKET);
    PhaseCarries(l, Dead, LinkDead, false);
    var l1 := l.(reason := LinkDead);
    LcpEventCarries(l1, env, Down, NO_PACKET);
    LcpEventCarries(LcpEvent(l1, env, Down, NO_PACKET), env, Close, NO_PACKET);
    CloseIsCalm(l.lcp);
    CloseIsCalm(LcpEvent(l1, env, Down, NO_PACKET).lcp);
    hide Current, WithinBudget, LcpEvent, Calm;
  }

  lemma BooksKeep(l: Link, env: Env, i: Input)
    requires Proper(i)
    requires i.WriteDone? || i.IdleRuns? || i.EnableAcfc? || i.EnablePfc? || i.ServerInfo?
    ensures ServerInfoOnServer(l.ipcpData.isServer, i) ==> Keeps(l, Step(l, env, i), true)
    ensures WithinBudget(l) ==> WithinBudget(Step(l, env, i))
  {
    hide Current, WithinBudget, SetOption, StaSent, PppDead;
    match i
    case WriteDone => ReportKeeps(l);
    case IdleRuns => ReportKeeps(l);
    case EnableAcfc(on) => OptionKeeps(l, Lcp.AcfcOption, on);
    case EnablePfc(on) => OptionKeeps(l, Lcp.PfcOption, on);
    case ServerInfo(peer, dns1, dns2) => InfoKeeps(l, peer, dns1, dns2);
    case _ =>
  }

  lemma ReportKeeps(l: Link)
    ensures Keeps(l, StaSent(l), true) && Keeps(l, PppDead(l), true) && Keeps(l, l, true)
  {
    hide Lcp.Generate, Ipcp.Generate, Budgeted;
  }

  lemma OptionKeeps(l: Link, o: Lcp.LcpOption, on: bool)
    ensures Keeps(l, SetOption(l, o, on), true)
  {
    hide Lcp.Generate, Ipcp.Generate, Retransmit.Counted;
    LocalOptionsUncounted(l.lcp, SetOption(l, o, on).lcp);
  }

  lemma LocalOptionsUncounted(c: Cp, d: Cp)
    requires d == c.(localOptions := d.localOptions)
    ensures Budgeted(c) <==> Budgeted(d)
  {
  }

  lemma InfoKeeps(l: Link, peer: Ipcp.Addr, dns1: Ipcp.Addr, dns2: Ipcp.Addr)
    ensures var r := l.(ipcpData := l.ipcpData.(peer := peer, dns1 := dns1, dns2 := dns2));
      && (l.ipcpData.isServer ==> Keeps(l, r, true)) && (WithinBudget(l) ==> WithinBudget(r))
  {
    hide Lcp.Generate, Ipcp.Generate, Budgeted;
    if Current(l) && l.ipcpData.isServer {
      OnlyAddressAsked(l.ipcpData, peer, dns1, dns2);
    }
  }

  lemma OnlyAddressAsked(d: Ipcp.Ipcp, peer: Ipcp.Addr, dns1: Ipcp.Addr, dns2: Ipcp.Addr)
    requires d.asked <= {Ipcp.IpAddr}
    ensures Ipcp.Generate(d.(peer := peer, dns1 := dns1, dns2 := dns2)) == Ipcp.Generate(d)
  {
  }

  lemma NewIsCurrent(isServer: bool, ip: Ipcp.Addr)
    ensures Current(NewLink(isServer, ip)) && NewLink(isServer, ip).ipcpData.isServer == isServer
  {
  }

  lemma {:induction false} RunIsCurrent(isServer: bool, ip: Ipcp.Addr, steps: seq<(Env, Input)>)
    requires forall i :: 0 <= i < |steps| ==> Proper(steps[i].1) && ServerInfoOnServer(isServer, steps[i].1)
    ensures var l := Run(NewLink(isServer, ip), steps); Current(l) && l.ipcpData.isServer == isServer
    decreases |steps|
  {
    hide Current, Step, NewLink, Proper, ServerInfoOnServer;
    NewIsCurrent(isServer, ip);
    if |steps| > 0 {
      var front, last := steps[..|steps| - 1], steps[|steps| - 1];
      assert Proper(last.1) && ServerInfoOnServer(isServer, last.1);
      RunIsCurrent(isServer, ip, front);
      StepKeeps(Run(NewLink(isServer, ip), front), last.0, last.1);
    }
  }

  lemma NewIsBudgeted(isServer: bool, ip: Ipcp.Addr)
    ensures WithinBudget(NewLink(isServer, ip))
  {
    hide Ipcp.Generate, Lcp.Generate;
  }

  /** In every run of a link in which no Terminate-Request arrives in the middle of a
      negotiation, the request counters of LCP and IPCP never pass ten, and stand at ten
      whenever the peer has acknowledged. */
  lemma {:induction false} EveryLinkRunCounted(isServer: bool, ip: Ipcp.Addr, steps: seq<(Env, Input)>)
    requires forall i :: 0 <= i < |steps| ==> Proper(steps[i].1)
    requires forall i :: 0 <= i < |steps| ==> !Interrupted(Run(NewLink(isServer, ip), steps[..i]), steps[i].1)
    ensures var l := Run(NewLink(isServer, ip), steps);
      && WithinBudget(l) && Retransmit.Counted(l.lcp) && Retransmit.Counted(l.ipcp)
    decreases |steps|
  {
    hide Current, Step, NewLink, Proper, ServerInfoOnServer, Interrupted, Retransmit.Counted;
    NewIsBudgeted(isServer, ip);
    if |steps| > 0 {
      var front, last := steps[..|steps| - 1], steps[|steps| - 1];
      assert Proper(last.1) && !Interrupted(Run(NewLink(isServer, ip), front), last.1);
      forall i | 0 <= i < |front| ensures !Interrupted(Run(NewLink(isServer, ip), front[..i]), front[i].1) {
        assert front[..i] == steps[..i];
      }
      EveryLinkRunCounted(isServer, ip, front);
      StepKeeps(Run(NewLink(isServer, ip), front), last.0, last.1);
    }
  }

  /** In every run of a client or a server every Ack that is accepted repeats the current
      settings: IPCP keeps all of its own, and LCP puts exactly the map it asks for into
      force. */
  lemma {:induction false} EveryAckAgrees(isServer: bool, ip: Ipcp.Addr, steps: seq<(Env, Input)>, ack: Packet)
    requires forall i :: 0 <= i < |steps| ==> Proper(steps[i].1) && ServerInfoOnServer(isServer, steps[i].1)
    ensures var l := Run(NewLink(isServer, ip), steps);
      && (AckMatches(l.ipcp, ack) ==> Ack(l, IPCP, ack).ipcpData == l.ipcpData)
      && (AckMatches(l.lcp, ack) ==>
            && Ack(l, LCP, ack).lcpData == l.lcpData
            && Ack(l, LCP, ack).params ==
               if Lcp.AccmOption in l.lcpData.asked then l.params.(recvAccm := l.lcpData.accm) else l.params)
  {
    hide Current, Run, NewLink, Proper, ServerInfoOnServer, Ack, AckMatches;
    RunIsCurrent(isServer, ip, steps);
    var l := Run(NewLink(isServer, ip), steps);
    if AckMatches(l.ipcp, ack) {
      AckIsNoNews(l, ack);
    }
    if AckMatches(l.lcp, ack) {
      AckSetsMap(l, ack);
    }
  }

  /** Giving a client the name servers of a server breaks this: its next request still has
      the old ones, and the Ack of that request takes the new ones away again. */
  lemma {:induction false} ServerInfoOnClient(ip: Ipcp.Addr, env: Env, peer: Ipcp.Addr, dns1: Ipcp.Addr, dns2: Ipcp.Addr)
    ensures var l := Step(NewLink(false, ip), env, ServerInfo(peer, dns1, dns2));
      var ack := Packet(CONFIGURE_ACK, l.ipcp.configId, l.ipcp.localOptions);
      && AckMatches(l.ipcp, ack)
      && (Ack(l, IPCP, ack).ipcpData == l.ipcpData <==> dns1 == Ipcp.NO_ADDR && dns2 == Ipcp.NO_ADDR)
  {
    hide Ipcp.Generate, Lcp.Generate, PppOptions.Parse, Ipcp.TakeAcks;
    var d := Ipcp.New(false, ip);
    var now := d.(peer := peer, dns1 := dns1, dns2 := dns2);
    Ipcp.AckChangesNothingIff(now, d);
    assert Ipcp.Get(now, Ipcp.Dns1) == dns1 && Ipcp.Get(now, Ipcp.Dns2) == dns2;
    assert (forall f :: f in d.asked ==> Ipcp.Get(now, f) == Ipcp.Get(d, f)) <==> dns1 == Ipcp.NO_ADDR && dns2 == Ipcp.NO_ADDR by {
      assert Ipcp.Get(d, Ipcp.Dns1) == Ipcp.NO_ADDR && Ipcp.Get(d, Ipcp.Dns2) == Ipcp.NO_ADDR;
      assert Ipcp.Dns1 in d.asked && Ipcp.Dns2 in d.asked;
    }
  }

  // ---- Both sides of an exchange ----

  /** The Ack one automaton sends for the request of another is accepted there. */
  lemma AckAnswersRequest(asker: Cp, answerer: Cp, a: set<Action>)
    requires SCA in a
    ensures var request := Request(asker); var acks := Replies(answerer, a, request);
      |acks| == 1 && AckMatches(RequestSent(asker), acks[0])
  {
    hide NewIdentity, Decrement;
  }

  /** A driver's verdict reaches the peer: while the failures are few, its list is returned
      under the code of the verdict; after that the whole request is rejected. */
  lemma VerdictReachesPeer(cp: Cp, verdict: Ipcp.Verdict, options: seq<byte>, request: Packet)
    requires !verdict.Accept?
    ensures Nak(Settle(cp, verdict, Some(options)), request) ==
      if cp.failures < cp.maxFailure
      then Packet(if verdict.Reject? then CONFIGURE_REJECT else CONFIGURE_NAK, request.id, options)
      else Packet(CONFIGURE_REJECT, request.id, request.data)
  {
  }

  /** A new link knows nothing of its peer: everything is escaped, nothing compressed, the
      unit is 1500 bytes and no authentication expected. A server waits, a client does not. */
  lemma FreshLink(isServer: bool, ip: Ipcp.Addr)
    ensures var l := NewLink(isServer, ip);
      && l.params == Lcp.Params(0xffff_ffff, 0xffff_ffff, 1500, false, false, false)
      && l.phase.Dead? && !l.started && !l.net && l.log == [] && l.reason.Unknown? && Current(l)
      && l.lcp.state == (if isServer then Stopped else Initial) && l.ipcp.state.Initial?
  {
    hide Ipcp.Generate;
  }

  lemma OptionSet(l: Link, o: Lcp.LcpOption, on: bool)
    requires Current(l)
    ensures var r := SetOption(l, o, on);
      && Current(r) && (o in r.lcpData.asked <==> on) && (forall p :: p != o ==> (p in r.lcpData.asked <==> p in l.lcpData.asked))
      && r == l.(lcp := l.lcp.(localOptions := r.lcp.localOptions), lcpData := r.lcpData)
  {
    hide Lcp.Generate, Ipcp.Generate;
  }

  /** Switching a compression on or off puts its option, 8 for address and control and 7 for
      the protocol field, into the next request of LCP or takes it out, and does nothing else. */
  lemma CompressionOffered(l: Link, env: Env, on: bool, acfc: bool)
    requires Current(l)
    ensures var r := Step(l, env, if acfc then EnableAcfc(on) else EnablePfc(on)); var opts := PppOptions.Parse(r.lcp.localOptions);
      && Current(r) && r == l.(lcp := l.lcp.(localOptions := r.lcp.localOptions), lcpData := r.lcpData)
      && (PppOptions.Opt(8, []) in opts <==> if acfc then on else PppOptions.Opt(8, []) in PppOptions.Parse(l.lcp.localOptions))
      && (PppOptions.Opt(7, []) in opts <==> if acfc then PppOptions.Opt(7, []) in PppOptions.Parse(l.lcp.localOptions) else on)
  {
    hide *;
    var r := SetOption(l, if acfc then Lcp.AcfcOption else Lcp.PfcOption, on);
    OptionSet(l, if acfc then Lcp.AcfcOption else Lcp.PfcOption, on);
    SetIs(l, env, on, acfc);
    LcpAsksFor(r.lcpData);
    LcpAsksFor(l.lcpData);
    CurrentIs(l);
    CurrentIs(r);
  }

  lemma SetIs(l: Link, env: Env, on: bool, acfc: bool)
    ensures Step(l, env, if acfc then EnableAcfc(on) else EnablePfc(on)) ==
            SetOption(l, if acfc then Lcp.AcfcOption else Lcp.PfcOption, on)
  {
    hide SetOption;
  }

  lemma CurrentIs(l: Link)
    requires Current(l)
    ensures l.lcp.localOptions == Lcp.Generate(l.lcpData)
  {
    hide Lcp.Generate, Ipcp.Generate;
  }
}
