/** The control-protocol automaton as an object that is updated action by action. */
module PppControlProtocol {
  import opened Bytes
  import opened Wrappers
  import opened PppCp
  import PppIpcpOptions
  import PppLink

  class ControlProtocol {
    var state: State
    var configCounter: uint32
    var configRunning: bool
    var termCounter: uint32
    var termRunning: bool
    const maxFailure: uint32
    var failures: uint32
    var configId: byte
    var termId: byte
    const rejectId: byte
    var localOptions: seq<byte>
    var peerOptions: seq<byte>
    var sendReject: bool

    function View(): Cp
      reads this
    {
      Cp(state, Timer(configCounter, configRunning), Timer(termCounter, termRunning), maxFailure, failures,
         configId, termId, rejectId, localOptions, peerOptions, sendReject)
    }

    constructor (dormant: bool, maxFailure: uint32, options: seq<byte>)
      ensures View() == New(dormant, maxFailure, options)
    {
      state := if dormant then Stopped else Initial;
      configCounter, configRunning, termCounter, termRunning := 0, false, 0, false;
      this.maxFailure := maxFailure;
      failures, configId, termId, rejectId := 0, 0, 0, 0;
      localOptions, peerOptions, sendReject := options, [], false;
    }

    method InitializeRestartCount(next: State)
      modifies this
      ensures View() == InitRestart(old(View()), next)
    {
      if next.Closing? || next.Stopping? {
        termCounter := MAX_TERMINATE;
      } else {
        configCounter := MAX_CONFIGURE;
      }
    }

    /** A first request takes a new identifier, a retransmission keeps it; the counter goes
        down and the timer is started again. */
    method SendConfigureRequest() returns (p: Packet)
      modifies this
      ensures p == Request(old(View())) && View() == RequestSent(old(View()))
    {
      if configCounter == MAX_CONFIGURE {
        configId := NewIdentity(configId);
      }
      p := Packet(CONFIGURE_REQUEST, configId, localOptions);
      configCounter := Decrement(configCounter);
      configRunning := true;
    }

    method SendConfigureAck(request: Packet) returns (p: Packet)
      modifies this
      ensures p == Packet(CONFIGURE_ACK, request.id, request.data) && View() == old(View()).(failures := 0)
    {
      failures := 0;
      p := Packet(CONFIGURE_ACK, request.id, request.data);
    }

    /** After too many failures everything is rejected; the list to answer with is used up. */
    method SendConfigureNak(request: Packet) returns (p: Packet)
      modifies this
      ensures p == Nak(old(View()), request) && View() == NakSent(old(View()))
    {
      if failures >= maxFailure {
        p := Packet(CONFIGURE_REJECT, request.id, request.data);
      } else {
        var code := CONFIGURE_NAK;
        if sendReject {
          code := CONFIGURE_REJECT;
        } else {
          failures := (failures + 1) % TWO32;
        }
        p := Packet(code, request.id, peerOptions);
      }
      peerOptions := [];
    }

    method SendTerminateRequest() returns (p: Packet)
      modifies this
      ensures p == Packet(TERMINATE_REQUEST, TerminateSent(old(View())).termId, [])
      ensures View() == TerminateSent(old(View()))
    {
      if termCounter == MAX_TERMINATE {
        termId := NewIdentity(termId);
      }
      p := Packet(TERMINATE_REQUEST, termId, []);
      termCounter := Decrement(termCounter);
      termRunning := true;
    }

    method SendTerminateAck(request: Packet) returns (p: Packet)
      modifies this
      ensures p == Packet(TERMINATE_ACK, request.id, [])
      ensures View() == old(View()).(term := old(View()).term.(running := true))
    {
      p := Packet(TERMINATE_ACK, request.id, []);
      termRunning := true;
    }

    method TransitionState(next: State)
      modifies this
      ensures View() == Transited(old(View()), next)
    {
      match next
      case Initial | Starting | Closed | Stopped | Opened =>
        configRunning, termRunning := false, false;
        state := next;
      case _ =>
        state := next;
    }

    /** The sending actions of one event, in order. */
    method Act(a: set<Action>, next: State, packet: Packet) returns (sent: seq<Packet>)
      modifies this
      ensures var c0 := Restarted(old(View()), a, next); var c1 := AfterRequest(c0, a); var c2 := AfterReply(c1, a);
        && View() == AfterTerminate(c2, a)
        && sent == Requests(c0, a) + Replies(c1, a, packet) + Terminates(c2, a, packet) + Others(View(), a, packet)
    {
      hide InitRestart, RequestSent, Request, NakSent, Nak, TerminateSent, ControlProtocol.View;
      if IRC in a {
        InitializeRestartCount(next);
      } else if ZRC in a {
        ZeroRestartCount();
      }
      ghost var c0 := View();
      var s1 := ActRequest(a);
      ghost var c1 := View();
      var s2 := ActReply(a, packet);
      ghost var c2 := View();
      var s3 := ActTerminate(a, packet);
      var s4 := ActOther(a, packet);
      sent := s1 + s2 + s3 + s4;
    }

    method ZeroRestartCount()
      modifies this
      ensures View() == old(View()).(term := old(View()).term.(counter := 0))
    {
      termCounter := 0;
    }

    method ActRequest(a: set<Action>) returns (sent: seq<Packet>)
      modifies this
      ensures View() == AfterRequest(old(View()), a) && sent == Requests(old(View()), a)
    {
      sent := [];
      if SCR in a {
        var p := SendConfigureRequest();
        sent := [p];
      }
    }

    method ActReply(a: set<Action>, packet: Packet) returns (sent: seq<Packet>)
      modifies this
      ensures View() == AfterReply(old(View()), a) && sent == Replies(old(View()), a, packet)
    {
      hide NakSent, Nak;
      sent := [];
      if SCA in a {
        var p := SendConfigureAck(packet);
        sent := [p];
      } else if SCN in a {
        var p := SendConfigureNak(packet);
        sent := [p];
      }
    }

    method ActTerminate(a: set<Action>, packet: Packet) returns (sent: seq<Packet>)
      modifies this
      ensures View() == AfterTerminate(old(View()), a) && sent == Terminates(old(View()), a, packet)
    {
      sent := [];
      if STR in a {
        var p := SendTerminateRequest();
        sent := [p];
      } else if STA in a {
        var p := SendTerminateAck(packet);
        sent := [p];
      }
    }

    method ActOther(a: set<Action>, packet: Packet) returns (sent: seq<Packet>)
      ensures sent == Others(View(), a, packet)
    {
      sent := [];
      if SCJ in a {
        sent := sent + [Packet(CODE_REJECT, NewIdentity(rejectId), PacketBytes(packet))];
      }
      if SER in a {
        sent := sent + [Packet(ECHO_REPLY, packet.id, [0, 0, 0, 0])];
      }
    }

    /** One event: the actions of its table cell, then the new state; the signal is for the
        owner to pass on. An illegal event does nothing. */
    method GenerateEvent(e: Event, packet: Packet) returns (sent: seq<Packet>, signal: Signal)
      modifies this
      ensures Outcome(View(), sent, signal) == Generate(old(View()), e, packet)
    {
      hide Transition, Restarted, AfterRequest, AfterReply, AfterTerminate, Requests, Replies, Terminates, Others;
      hide Transited, SignalOf;
      sent, signal := [], Quiet;
      match Transition(e, state)
      case INV =>
      case Go(a, next) =>
        sent := Act(a, next, packet);
        TransitionState(next);
        signal := SignalOf(a);
    }

    /** A timer goes off. */
    method TimerFires(w: Which) returns (e: Event)
      requires Running(View(), w)
      modifies this
      ensures View() == Fired(old(View()), w) && e == TimeoutEvent(old(View()), w)
    {
      if w.ConfigTimer? {
        configRunning := false;
        e := if configCounter > 0 then ToPlus else ToMinus;
      } else {
        termRunning := false;
        e := if termCounter > 0 then ToPlus else ToMinus;
      }
    }

    /** The driver's verdict on a Configure-Request, remembered for the answer. */
    method Settle(verdict: PppIpcpOptions.Verdict, options: Option<seq<byte>>)
      modifies this`sendReject, this`peerOptions
      ensures View() == PppLink.Settle(old(View()), verdict, options)
    {
      if verdict.Accept? {
        return;
      }
      if options.Some? {
        peerOptions := options.value;
      }
      sendReject := verdict.Reject?;
    }

    method SetLocalOptions(options: seq<byte>)
      modifies this`localOptions
      ensures View() == old(View()).(localOptions := options)
    {
      localOptions := options;
    }
  }
}

/** The link object: its notifications, its packets and its administration, each method
    proved against the function of the same meaning on values. */
module Ppp {
  import opened Bytes
  import opened Wrappers
  import opened PppCp
  import opened PppOptions
  import opened PppLink
  import opened PppControlProtocol
  import IpcpSpec = PppIpcpOptions
  import LcpSpec = PppLcpOptions
  import Driver = PppIpcp
  import PppSafety

  lemma StaUntouched(l: Link, e: Event, packet: Packet)
    ensures Apply(l, LCP, e, packet).staPending == l.staPending
  {
    hide Generate, Entries;
  }

  /** A run from a new link leads here. */
  ghost predicate Reached(server: bool, address: IpcpSpec.Addr, steps: seq<(Env, Input)>, l: Link) {
    (forall k :: 0 <= k < |steps| ==> Proper(steps[k].1)) && l == Run(NewLink(server, address), steps)
  }

  lemma {:induction false} StartsReached(server: bool, address: IpcpSpec.Addr)
    ensures Reached(server, address, [], NewLink(server, address))
  {
  }

  lemma {:induction false} ReachedOn(server: bool, address: IpcpSpec.Addr, steps: seq<(Env, Input)>, l: Link, env: Env, i: Input)
    requires Reached(server, address, steps, l) && Proper(i)
    ensures Reached(server, address, steps + [(env, i)], Step(l, env, i))
  {
    hide Proper, Step, NewLink;
    assert (steps + [(env, i)])[..|steps|] == steps;
  }

  class GAtPpp {
    const lcp: ControlProtocol
    const ipcp: ControlProtocol
    const ipcpDriver: Driver.Ipcp
    var phase: Phase
    var lcpAsked: set<LcpSpec.LcpOption>
    const lcpAccm: uint32
    var lcpMru: uint16
    var xmitAccm: uint32
    var recvAccm: uint32
    var mtu: uint16
    var xmitAcfc: bool
    var xmitPfc: bool
    var chap: bool
    var net: bool
    var disconnectReason: Reason
    var staPending: bool
    var pppDeadSource: bool
    var disconnects: nat
    var started: bool
    ghost var log: seq<Entry>
    /** What the link was made as, and everything that has happened to it. */
    ghost const server: bool
    ghost const address: IpcpSpec.Addr
    ghost var steps: seq<(Env, Input)>

    /** The parts fit together; also in the middle of an event. */
    ghost predicate Whole()
      reads this, ipcpDriver
    {
      lcp != ipcp && ipcpDriver.Valid()
    }

    /** Between events: the link is where a run of the link function leads, so all that is
        proved about every run holds of it. */
    ghost predicate Valid()
      reads this, lcp, ipcp, ipcpDriver
    {
      Whole() && Reached(server, address, steps, View())
    }

    function LcpData(): LcpSpec.Lcp
      reads this
    {
      LcpSpec.Lcp(lcpAsked, lcpAccm, lcpMru)
    }

    function Params(): LcpSpec.Params
      reads this
    {
      LcpSpec.Params(xmitAccm, recvAccm, mtu, xmitAcfc, xmitPfc, chap)
    }

    ghost function View(): Link
      reads this, lcp, ipcp, ipcpDriver
    {
      Link(phase, lcp.View(), ipcp.View(), LcpData(), ipcpDriver.View(), Params(), net, disconnectReason,
           staPending, pppDeadSource, disconnects, started, log)
    }

    ghost function Repr(): set<object>
      reads this
    {
      {this, lcp, ipcp, ipcpDriver, ipcpDriver.options}
    }

    constructor (isServer: bool, ip: IpcpSpec.Addr)
      ensures Valid() && View() == NewLink(isServer, ip) && fresh(Repr())
      ensures server == isServer && address == ip && steps == []
    {
      hide LcpSpec.Generate, IpcpSpec.Generate, PppCp.New, Reached;
      var driver := new Driver.Ipcp(isServer, ip);
      var lcpOptions := LcpSpec.Generate(LcpSpec.Lcp({}, 0, 0));
      lcp := new ControlProtocol(isServer, LCP_MAX_FAILURE, lcpOptions);
      ipcp := new ControlProtocol(false, IPCP_MAX_FAILURE, driver.LocalOptions());
      ipcpDriver := driver;
      phase, lcpAsked, lcpAccm, lcpMru := Dead, {}, 0, 0;
      xmitAccm, recvAccm, mtu, xmitAcfc, xmitPfc, chap := 0xffff_ffff, 0xffff_ffff, 1500, false, false, false;
      net, disconnectReason, staPending, pppDeadSource, disconnects, started := false, Unknown, false, false, 0, false;
      log, steps := [], [];
      server, address := isServer, ip;
      new;
      StartsReached(isServer, ip);
    }

    /** An event is over: what happened is put down. */
    ghost method Note(env: Env, i: Input, before: Link)
      requires Whole() && Reached(server, address, steps, before) && Proper(i) && View() == Step(before, env, i)
      modifies this`steps
      ensures Valid() && View() == old(View()) && steps == old(steps) + [(env, i)]
    {
      hide Step, Reached, Proper;
      ReachedOn(server, address, steps, before, env, i);
      steps := steps + [(env, i)];
    }

    /** What the owner of a link can rely on between any two events. */
    lemma Guarantees()
      requires Valid()
      ensures phase.Authentication? || phase.Network? || phase.LinkUp? <==> lcp.state.Opened?
      ensures phase.Network? || phase.LinkUp? <==> !ipcp.state.Initial? && !ipcp.state.Starting?
      ensures net <==> ipcp.state.Opened?
      ensures disconnects <= 1 && (disconnects == 1 ==> phase.Dead?)
      ensures started && phase.Dead? && disconnects == 0 ==> (pppDeadSource <==> !staPending)
      ensures PppSafety.LinkOk(View())
    {
      hide Run, NewLink, Proper, PppSafety.LinkOk;
      PppSafety.EveryRunCoupled(server, address, steps);
      PppSafety.EveryRunReportsOnce(server, address, steps);
      PppSafety.RunKeeps(server, address, steps);
    }

    method EnterPhase(next: Phase)
      modifies this`phase, this`pppDeadSource
      ensures View() == PppLink.EnterPhase(old(View()), next)
    {
      phase := next;
      if next.Dead? && !staPending {
        pppDeadSource := true;
      }
    }

    /** One event of one automaton; what it sends and signals goes into the history. */
    method Raise(p: Proto, e: Event, packet: Packet) returns (signal: Signal, sentAck: bool)
      requires Whole()
      modifies this`log, lcp, ipcp
      ensures Whole() && View() == Apply(old(View()), p, e, packet)
      ensures signal == SignalFor(old(View()), p, e, packet)
      ensures sentAck == SendsTerminateAck(CpOf(old(View()), p), e)
    {
      hide Generate, Entries, SendsTerminateAck, ControlProtocol.View;
      var cp := if p.LCP? then lcp else ipcp;
      sentAck := SendsTerminateAck(cp.View(), e);
      var sent;
      sent, signal := cp.GenerateEvent(e, packet);
      log := log + Entries(p, Outcome(cp.View(), sent, signal));
    }

    /** IPCP is down: back to the default options, and the tunnel goes. */
    method IpcpDown()
      requires Whole()
      modifies this`net, ipcp, ipcpDriver, ipcpDriver.options
      ensures Whole() && View() == PppLink.IpcpDown(old(View()))
    {
      hide IpcpSpec.Generate, IpcpSpec.Reset;
      ipcpDriver.ResetConfigOptions();
      ipcp.SetLocalOptions(ipcpDriver.LocalOptions());
      if net {
        net := false;
      }
    }

    method IpcpAdmin(e: Event)
      requires Whole()
      modifies Repr()
      ensures Whole() && steps == old(steps) && View() == PppLink.IpcpAdmin(old(View()), e)
    {
      hide Apply, SignalFor, PppLink.IpcpDown, SendsTerminateAck;
      var signal, ack := Raise(IPCP, e, NO_PACKET);
      if signal.LayerDown? {
        IpcpDown();
      }
    }

    method StartNetwork()
      requires Whole()
      modifies Repr()
      ensures Whole() && steps == old(steps) && View() == PppLink.StartNetwork(old(View()))
    {
      hide PppLink.EnterPhase, PppLink.IpcpAdmin;
      EnterPhase(Network);
      IpcpAdmin(Event.Open);
      IpcpAdmin(Up);
    }

    /** How the value of the link shows in the fields its methods look at. */
    lemma Shown()
      ensures View().phase == phase && View().params.chap == chap && View().reason == disconnectReason
      ensures View().lcp.failures == lcp.failures && View().lcp.maxFailure == lcp.maxFailure
    {
    }

    method LcpUpNotify()
      requires Whole()
      modifies Repr()
      ensures Whole() && steps == old(steps) && View() == LcpUp(old(View()))
    {
      hide PppLink.EnterPhase, PppLink.StartNetwork, GAtPpp.View;
      Shown();
      if chap {
        EnterPhase(Authentication);
      } else {
        StartNetwork();
      }
    }

    method LcpDownNotify()
      requires Whole()
      modifies Repr()
      ensures Whole() && steps == old(steps) && View() == LcpDown(old(View()))
    {
      hide PppLink.IpcpAdmin, LcpSpec.Generate, PppLink.EnterPhase, GAtPpp.View;
      Shown();
      RefreshLcpOptions();
      if phase.Network? || phase.LinkUp? {
        IpcpAdmin(Down);
      }
      GiveReason();
      EnterPhase(Termination);
    }

    method RefreshLcpOptions()
      requires Whole()
      modifies lcp
      ensures Whole() && View() == old(View()).(lcp := old(View()).lcp.(localOptions := LcpSpec.Generate(old(View()).lcpData)))
    {
      hide LcpSpec.Generate;
      lcp.SetLocalOptions(LcpSpec.Generate(LcpData()));
    }

    /** Unless the end already has a reason, it is the peer's. */
    method GiveReason()
      requires Whole()
      modifies this`disconnectReason
      ensures Whole() && View() == old(View()).(reason := if old(View()).reason.Unknown? then PeerClosed else old(View()).reason)
    {
      if disconnectReason.Unknown? {
        disconnectReason := PeerClosed;
      }
    }

    /** One event of LCP, and whoever has to hear of it. */
    method LcpEvent(env: Env, e: Event, packet: Packet)
      requires Whole()
      modifies Repr()
      ensures Whole() && steps == old(steps) && View() == PppLink.LcpEvent(old(View()), env, e, packet)
    {
      hide Apply, SignalFor, SendsTerminateAck, LcpSignalled, GAtPpp.View;
      var signal, ack := Raise(LCP, e, packet);
      AwaitAck(ack && env.sendOk);
      StaUntouched(old(View()), e, packet);
      LcpNotify(signal);
    }

    /** A Terminate-Ack has been handed to the framer. */
    method AwaitAck(handed: bool)
      requires Whole()
      modifies this`staPending
      ensures Whole() && View() == old(View()).(staPending := old(View()).staPending || handed)
    {
      if handed {
        staPending := true;
      }
    }

    method LcpNotify(signal: Signal)
      requires Whole()
      modifies Repr()
      ensures Whole() && steps == old(steps) && View() == LcpSignalled(old(View()), signal)
    {
      hide LcpUp, LcpDown, PppLink.EnterPhase, GAtPpp.View;
      match signal
      case LayerUp => LcpUpNotify();
      case LayerDown => LcpDownNotify();
      case LayerFinished => EnterPhase(Dead);
      case _ =>
    }

    method IpcpUpNotify(env: Env)
      requires Whole()
      modifies Repr()
      ensures Whole() && steps == old(steps) && View() == IpcpUp(old(View()), env)
    {
      hide PppLink.LcpEvent, PppLink.EnterPhase, GAtPpp.View;
      MakeTunnel(env);
      if !net {
        LcpEvent(env, Close, NO_PACKET);
        return;
      }
      EnterPhase(LinkUp);
    }

    method MakeTunnel(env: Env)
      requires Whole()
      modifies this`net, this`disconnectReason
      ensures Whole() && net == env.netOk
      ensures View() == if env.netOk then old(View()).(net := true) else old(View()).(net := false, reason := NetFail)
    {
      net := env.netOk;
      if !net {
        disconnectReason := NetFail;
      }
    }

    method IpcpFinishedNotify(env: Env)
      requires Whole()
      modifies Repr()
      ensures Whole() && steps == old(steps) && View() == IpcpFinished(old(View()), env)
    {
      hide PppLink.LcpEvent, PppLink.IpcpAdmin;
      if !phase.Network? {
        return;
      }
      disconnectReason := IpcpFail;
      IpcpAdmin(Close);
      LcpEvent(env, Close, NO_PACKET);
    }

    method IpcpEvent(env: Env, e: Event, packet: Packet)
      requires Whole()
      modifies Repr()
      ensures Whole() && steps == old(steps) && View() == PppLink.IpcpEvent(old(View()), env, e, packet)
    {
      hide Apply, SignalFor, SendsTerminateAck, IpcpUp, IpcpFinished, PppLink.IpcpDown, GAtPpp.View;
      var signal, ack := Raise(IPCP, e, packet);
      match signal
      case LayerUp => IpcpUpNotify(env);
      case LayerDown => IpcpDown();
      case LayerFinished => IpcpFinishedNotify(env);
      case _ =>
    }

    method CpEvent(env: Env, p: Proto, e: Event, packet: Packet)
      requires Whole()
      modifies Repr()
      ensures Whole() && steps == old(steps) && View() == PppLink.CpEvent(old(View()), env, p, e, packet)
    {
      hide PppLink.LcpEvent, PppLink.IpcpEvent;
      if p.LCP? {
        LcpEvent(env, e, packet);
      } else {
        IpcpEvent(env, e, packet);
      }
    }

    // ---- The LCP driver ----

    /** Every option is looked at before any is applied. */
    method LcpRcr(data: seq<byte>) returns (verdict: IpcpSpec.Verdict, options: Option<seq<byte>>)
      requires WellFormed(data)
      modifies this`xmitAccm, this`mtu, this`xmitAcfc, this`xmitPfc, this`chap
      ensures LcpSpec.Judged(verdict, options) == LcpSpec.Judge(Parse(data))
      ensures Params() == if verdict.Accept? then LcpSpec.ApplyAll(old(Params()), LcpData(), Parse(data)) else old(Params())
    {
      verdict, options := LcpCheck(data);
      if verdict.Accept? {
        LcpApply(data);
      }
    }

    method LcpCheck(data: seq<byte>) returns (verdict: IpcpSpec.Verdict, options: Option<seq<byte>>)
      requires WellFormed(data)
      ensures LcpSpec.Judged(verdict, options) == LcpSpec.Judge(Parse(data))
    {
      hide Parse, WellFormed, LcpSpec.Acceptable;
      var iter := new OptionIter(data);
      ghost var todo := Parse(data);
      var more := iter.Next();
      while more
        invariant iter.Valid() && (more <==> |todo| > 0)
        invariant more ==> Opt(iter.kind, iter.value) == todo[0] && iter.Rest() == todo[1..]
        invariant LcpSpec.Judge(todo) == LcpSpec.Judge(Parse(data))
        decreases |todo|
      {
        if !LcpSpec.Acceptable(Opt(iter.kind, iter.value)) {
          if iter.kind == LcpSpec.AUTH_PROTO {
            return IpcpSpec.Nak, Some(LcpSpec.SUGGESTED_AUTH);
          }
          return IpcpSpec.Reject, None;
        }
        todo := todo[1..];
        more := iter.Next();
      }
      return IpcpSpec.Accept, None;
    }

    method LcpApply(data: seq<byte>)
      requires WellFormed(data)
      modifies this`xmitAccm, this`mtu, this`xmitAcfc, this`xmitPfc, this`chap
      ensures Params() == LcpSpec.ApplyAll(old(Params()), LcpData(), Parse(data))
    {
      hide Parse, WellFormed, LcpSpec.HostLong, LcpSpec.HostShort;
      var iter := new OptionIter(data);
      ghost var todo, d := Parse(data), LcpData();
      var more := iter.Next();
      while more
        invariant iter.Valid() && (more <==> |todo| > 0) && LcpData() == d
        invariant more ==> Opt(iter.kind, iter.value) == todo[0] && iter.Rest() == todo[1..]
        invariant LcpSpec.ApplyAll(Params(), d, todo) == LcpSpec.ApplyAll(old(Params()), d, Parse(data))
        decreases |todo|
      {
        ApplyOption(iter.kind, iter.value);
        todo := todo[1..];
        more := iter.Next();
      }
    }

    method ApplyOption(kind: byte, value: seq<byte>)
      modifies this`xmitAccm, this`mtu, this`xmitAcfc, this`xmitPfc, this`chap
      ensures Params() == LcpSpec.ApplyOne(old(Params()), LcpData(), Opt(kind, value))
    {
      if kind == LcpSpec.ACCM {
        xmitAccm := LcpSpec.HostLong(value);
      } else if kind == LcpSpec.AUTH_PROTO {
        chap := true;
      } else if kind == LcpSpec.MRU {
        mtu := LcpSpec.HostShort(value);
      } else if kind == LcpSpec.PFC {
        if LcpSpec.PfcOption in lcpAsked {
          xmitPfc := true;
        }
      } else if kind == LcpSpec.ACFC {
        if LcpSpec.AcfcOption in lcpAsked {
          xmitAcfc := true;
        }
      }
    }

    method LcpRca(data: seq<byte>)
      requires WellFormed(data)
      modifies this`recvAccm
      ensures Params() == LcpSpec.Acked(old(Params()), Parse(data))
    {
      hide Parse, WellFormed, LcpSpec.HostLong;
      var iter := new OptionIter(data);
      ghost var todo := Parse(data);
      var more := iter.Next();
      while more
        invariant iter.Valid() && (more <==> |todo| > 0)
        invariant more ==> Opt(iter.kind, iter.value) == todo[0] && iter.Rest() == todo[1..]
        invariant LcpSpec.Acked(Params(), todo) == LcpSpec.Acked(old(Params()), Parse(data))
        decreases |todo|
      {
        if iter.kind == LcpSpec.ACCM {
          recvAccm := LcpSpec.HostLong(iter.value);
        }
        todo := todo[1..];
        more := iter.Next();
      }
    }

    method LcpRcnNak(data: seq<byte>)
      requires WellFormed(data)
      modifies this`lcpMru, this`lcpAsked
      ensures LcpData() == LcpSpec.Naked(old(LcpData()), Parse(data))
    {
      hide Parse, WellFormed, LcpSpec.HostShort;
      var iter := new OptionIter(data);
      ghost var todo := Parse(data);
      var more := iter.Next();
      while more
        invariant iter.Valid() && (more <==> |todo| > 0)
        invariant more ==> Opt(iter.kind, iter.value) == todo[0] && iter.Rest() == todo[1..]
        invariant LcpSpec.Naked(LcpData(), todo) == LcpSpec.Naked(old(LcpData()), Parse(data))
        decreases |todo|
      {
        if iter.kind == LcpSpec.MRU {
          var mru := LcpSpec.HostShort(iter.value);
          if mru < 2048 {
            lcpMru := mru;
            lcpAsked := lcpAsked + {LcpSpec.MruOption};
          }
        }
        todo := todo[1..];
        more := iter.Next();
      }
    }

    // ---- Packets ----

    method ProcessConfigureRequest(p: Proto, packet: Packet) returns (e: Event, fits: bool)
      requires Whole() && WellFormed(packet.data) && packet.code == CONFIGURE_REQUEST
      modifies this`xmitAccm, this`mtu, this`xmitAcfc, this`xmitPfc, this`chap, lcp, ipcp, ipcpDriver
      ensures Whole() && fits == RoomToAnswer(old(View()), p, packet)
      ensures fits ==>
        (View(), e) == if p.LCP? then LcpRequest(old(View()), packet.data) else IpcpRequest(old(View()), packet.data)
    {
      hide Parse, WellFormed, LcpSpec.Judge, LcpSpec.ApplyAll, IpcpSpec.Corrections;
      hide IpcpSpec.ClientHears, IpcpSpec.ClientReply, IpcpSpec.ServerReply;
      if p.LCP? {
        e := ProcessLcpRequest(packet.data);
        fits := true;
      } else {
        e, fits := ProcessIpcpRequest(packet);
      }
    }

    method ProcessLcpRequest(data: seq<byte>) returns (e: Event)
      requires Whole() && WellFormed(data)
      modifies this`xmitAccm, this`mtu, this`xmitAcfc, this`xmitPfc, this`chap, lcp
      ensures Whole() && (View(), e) == LcpRequest(old(View()), data)
    {
      hide Parse, WellFormed, LcpSpec.Judge, LcpSpec.ApplyAll, PppLink.Settle, GAtPpp.View;
      Shown();
      if lcp.failures >= lcp.maxFailure {
        return RcrMinus;
      }
      var verdict, options := AskLcpDriver(data);
      SettleLcp(verdict, options);
      e := VerdictEvent(verdict);
    }

    method AskLcpDriver(data: seq<byte>) returns (verdict: IpcpSpec.Verdict, options: Option<seq<byte>>)
      requires Whole() && WellFormed(data)
      modifies this`xmitAccm, this`mtu, this`xmitAcfc, this`xmitPfc, this`chap
      ensures Whole() && LcpSpec.Judged(verdict, options) == LcpSpec.Judge(Parse(data))
      ensures View() == if verdict.Accept?
        then old(View()).(params := LcpSpec.ApplyAll(old(View()).params, old(View()).lcpData, Parse(data))) else old(View())
    {
      hide Parse, WellFormed, LcpSpec.Judge, LcpSpec.ApplyAll;
      verdict, options := LcpRcr(data);
    }

    method SettleLcp(verdict: IpcpSpec.Verdict, options: Option<seq<byte>>)
      requires Whole()
      modifies lcp
      ensures Whole() && View() == old(View()).(lcp := PppLink.Settle(old(View()).lcp, verdict, options))
    {
      hide PppLink.Settle;
      lcp.Settle(verdict, options);
    }

    method ProcessIpcpRequest(packet: Packet) returns (e: Event, fits: bool)
      requires Whole() && WellFormed(packet.data) && packet.code == CONFIGURE_REQUEST
      modifies ipcp, ipcpDriver
      ensures Whole() && fits == RoomToAnswer(old(View()), IPCP, packet)
      ensures fits ==> (View(), e) == IpcpRequest(old(View()), packet.data)
    {
      hide Parse, WellFormed, PppLink.Settle, IpcpSpec.Corrections;
      hide IpcpSpec.ClientHears, IpcpSpec.ClientReply, IpcpSpec.ServerReply;
      fits := true;
      if ipcp.failures >= ipcp.maxFailure {
        return RcrMinus, true;
      }
      var r;
      if ipcpDriver.isServer {
        r, fits := ipcpDriver.ServerRcr(packet.data);
        if !fits {
          return RcrMinus, false;
        }
      } else {
        r := ipcpDriver.ClientRcr(packet.data);
      }
      ipcp.Settle(r.verdict, if r.verdict.Accept? then None else Some(r.options));
      e := VerdictEvent(r.verdict);
    }

    method ProcessConfigureAck(p: Proto, packet: Packet) returns (e: Option<Event>)
      requires Whole() && WellFormed(packet.data)
      modifies this`recvAccm, this`log, ipcpDriver
      ensures Whole()
      ensures (View(), e) == if AckMatches(CpOf(old(View()), p), packet) then (Ack(old(View()), p, packet), Some(Rca))
                             else (old(View()), None)
    {
      hide Parse, WellFormed, LcpSpec.Acked, IpcpSpec.Acked;
      var cp := if p.LCP? then lcp else ipcp;
      if packet.id != cp.configId {
        return None;
      }
      if |cp.localOptions| != |packet.data| || cp.localOptions != packet.data {
        return None;
      }
      if p.LCP? {
        LcpRca(packet.data);
      } else {
        ipcpDriver.Rca(packet.data);
      }
      log := log + [AckIn(p, packet)];
      e := Some(Rca);
    }

    method ProcessConfigureNak(p: Proto, packet: Packet) returns (e: Option<Event>)
      requires Whole() && WellFormed(packet.data)
      modifies this`lcpMru, this`lcpAsked, lcp, ipcp, ipcpDriver, ipcpDriver.options
      ensures Whole()
      ensures (View(), e) == if packet.id == CpOf(old(View()), p).configId
                             then (NakReceived(old(View()), p, packet.data), Some(Rcn)) else (old(View()), None)
    {
      hide Parse, WellFormed, LcpSpec.Naked, IpcpSpec.TakeNaks, LcpSpec.Generate, IpcpSpec.Generate;
      if packet.id != (if p.LCP? then lcp else ipcp).configId {
        return None;
      }
      e := Some(Rcn);
      if p.LCP? {
        LcpRcnNak(packet.data);
        lcp.SetLocalOptions(LcpSpec.Generate(LcpData()));
      } else {
        ipcpDriver.RcnNak(packet.data);
        if !ipcpDriver.isServer {
          ipcp.SetLocalOptions(ipcpDriver.LocalOptions());
        }
      }
    }

    method ProcessConfigureReject(p: Proto, packet: Packet) returns (e: Option<Event>)
      requires Whole() && WellFormed(packet.data)
      modifies ipcp, ipcpDriver, ipcpDriver.options
      ensures Whole()
      ensures (View(), e) == if packet.id == CpOf(old(View()), p).configId
                             then (RejReceived(old(View()), p, packet.data), Some(Rcn)) else (old(View()), None)
    {
      hide Parse, WellFormed, IpcpSpec.Rejected, IpcpSpec.Generate;
      if packet.id != (if p.LCP? then lcp else ipcp).configId {
        return None;
      }
      e := Some(Rcn);
      if p.IPCP? {
        ipcpDriver.RcnRej(packet.data);
        ipcp.SetLocalOptions(ipcpDriver.LocalOptions());
      }
    }

    /** By the code of a packet: what its driver does, and which event it is. */
    method ProcessCode(p: Proto, packet: Packet) returns (e: Option<Event>, fits: bool)
      requires Whole() && (1 <= packet.code <= 4 ==> WellFormed(packet.data))
      modifies Repr()
      ensures Whole() && steps == old(steps) && fits == RoomToAnswer(old(View()), p, packet)
      ensures fits ==> (View(), e) == Digest(old(View()), p, packet)
    {
      hide WellFormed, LcpRequest, IpcpRequest, Ack, NakReceived, RejReceived, AckMatches, IpcpSpec.Corrections;
      var code := packet.code;
      fits := true;
      if code == 0 || code > MaxCode(p) {
        e := Some(Ruc);
      } else if code == CONFIGURE_REQUEST {
        var event;
        event, fits := ProcessConfigureRequest(p, packet);
        e := Some(event);
      } else if code == CONFIGURE_ACK {
        e := ProcessConfigureAck(p, packet);
      } else if code == CONFIGURE_NAK {
        e := ProcessConfigureNak(p, packet);
      } else if code == CONFIGURE_REJECT {
        e := ProcessConfigureReject(p, packet);
      } else {
        e := PlainEvent(code);
      }
    }

    static method PlainEvent(code: byte) returns (e: Option<Event>)
      requires code > 4
      ensures e == if code == TERMINATE_REQUEST then Some(Rtr) else if code == TERMINATE_ACK then Some(Rta)
                   else if code == CODE_REJECT || code == PROTOCOL_REJECT then Some(RxjMinus)
                   else if code == ECHO_REQUEST then Some(Rxr) else None
    {
      match code
      case 5 => e := Some(Rtr);
      case 6 => e := Some(Rta);
      case 7 => e := Some(RxjMinus);
      case 8 => e := Some(RxjMinus);
      case 9 => e := Some(Rxr);
      case _ => e := None;
    }

    method ProcessPacket(env: Env, p: Proto, info: seq<byte>) returns (fits: bool)
      requires Whole() && SoundInfo(info)
      modifies Repr()
      ensures Whole() && steps == old(steps) && (fits <==> |info| >= 4 ==> RoomToAnswer(old(View()), p, PacketOf(info)))
      ensures fits ==> View() == ControlPacket(old(View()), env, p, info)
    {
      fits := true;
      if |info| < 4 {
        return;
      }
      assert PacketOf(info).code == info[0];
      hide Digest, PppLink.CpEvent, PacketOf, WellFormed, RoomToAnswer;
      var packet := PacketOf(info);
      var e;
      e, fits := ProcessCode(p, packet);
      if fits && e.Some? {
        CpEvent(env, p, e.value, packet);
      }
    }

    method AuthNotify(env: Env, success: bool)
      requires Whole()
      modifies Repr()
      ensures Whole() && steps == old(steps) && View() == PppLink.AuthNotify(old(View()), env, success)
    {
      hide PppLink.LcpEvent, PppLink.StartNetwork;
      if !success {
        disconnectReason := AuthFail;
        LcpEvent(env, Close, NO_PACKET);
        return;
      }
      StartNetwork();
    }

    method ProcessChap(env: Env, info: seq<byte>)
      requires Whole()
      modifies Repr()
      ensures Whole() && steps == old(steps) && View() == ChapPacket(old(View()), env, info)
    {
      hide PppLink.AuthNotify;
      if |info| < 4 {
        return;
      }
      match info[0]
      case 3 => AuthNotify(env, true);
      case 4 => AuthNotify(env, false);
      case _ =>
    }

    method SendProtocolReject(frame: seq<byte>)
      requires Whole() && |frame| >= 2
      modifies this`log
      ensures Whole() && View() == ProtocolReject(old(View()), frame)
    {
      if !lcp.state.Opened? {
        return;
      }
      log := log + [Tx(LCP, Packet(PROTOCOL_REJECT, NewIdentity(lcp.rejectId), frame[2..]))];
    }

    /** A frame from the HDLC layer: header, phase check, and on to its protocol. The driver
        of a server may run out of room for its answer; the model says exactly when, and has
        nothing to say from there. */
    method Receive(env: Env, frame: seq<byte>) returns (fits: bool)
      requires Valid() && Sound(frame)
      modifies Repr()
      ensures fits <==> RoomFor(old(View()), frame)
      ensures fits ==> Valid() && View() == PppLink.Receive(old(View()), env, frame) && steps == old(steps) + [(env, Input.Frame(frame))]
      ensures old(started && phase.Dead?) ==> fits && View() == old(View())
    {
      hide *;
      ghost var before := View();
      Standing();
      fits := ReadHeader(env, frame);
      FrameStep(before, env, frame);
      DeadHearsNothing(before, env, frame);
      if fits {
        Note(env, Input.Frame(frame), before);
      }
    }

    /** What is known of a link between two events, and how its value shows in its fields. */
    lemma Standing()
      requires Valid()
      ensures Whole() && Reached(server, address, steps, View()) && PppSafety.LinkOk(View()) && this in Repr()
      ensures View().phase == phase && View().net == net && View().started == started && View().disconnects == disconnects
      ensures View().lcp.state == lcp.state && View().ipcp.state == ipcp.state
      ensures View().idleDead == pppDeadSource && View().staPending == staPending
    {
      hide Run, NewLink, Proper, PppSafety.LinkOk;
      PppSafety.RunKeeps(server, address, steps);
    }

    method ReadHeader(env: Env, frame: seq<byte>) returns (fits: bool)
      requires Whole() && Sound(frame)
      modifies Repr()
      ensures Whole() && (fits <==> RoomFor(old(View()), frame))
      ensures steps == old(steps) && (fits ==> View() == PppLink.Receive(old(View()), env, frame))
    {
      hide ControlPacket, ChapPacket, ProtocolReject, SoundInfo, PacketOf, RoomToAnswer;
      var at := 0;
      fits := true;
      if |frame| == 0 {
        return;
      }
      if frame[0] == 0xff && |frame| >= 2 && frame[1] == 0x03 {
        at := 2;
      }
      if |frame| < at + 1 {
        return;
      }
      var protocol: uint16;
      if frame[at] % 2 == 1 {
        protocol, at := frame[at], at + 1;
      } else {
        if |frame| < at + 2 {
          return;
        }
        protocol, at := frame[at] as int * 256 + frame[at + 1], at + 2;
      }
      assert ParseHeader(frame) == Some(Header(protocol, at));
      if Dropped(phase, protocol) {
        return;
      }
      fits := Deliver(env, protocol, frame, frame[at..]);
    }

    method Deliver(env: Env, protocol: uint16, frame: seq<byte>, info: seq<byte>) returns (fits: bool)
      requires Whole() && (|frame| >= 2 || protocol == IP_PROTOCOL)
      requires protocol == LCP_PROTOCOL || protocol == IPCP_PROTOCOL ==> SoundInfo(info)
      modifies Repr()
      ensures Whole() && (fits <==> protocol == IPCP_PROTOCOL && |info| >= 4 ==> RoomToAnswer(old(View()), IPCP, PacketOf(info)))
      ensures fits ==>
        View() == if protocol == IP_PROTOCOL then old(View())
                  else if protocol == LCP_PROTOCOL then ControlPacket(old(View()), env, LCP, info)
                  else if protocol == IPCP_PROTOCOL then ControlPacket(old(View()), env, IPCP, info)
                  else if protocol == CHAP_PROTOCOL && old(View()).params.chap then ChapPacket(old(View()), env, info)
                  else ProtocolReject(old(View()), frame)
      ensures steps == old(steps)
    {
      hide ControlPacket, ChapPacket, ProtocolReject, PacketOf;
      fits := true;
      if protocol == IP_PROTOCOL {
        return;
      }
      if protocol == LCP_PROTOCOL {
        fits := ProcessPacket(env, LCP, info);
      } else if protocol == IPCP_PROTOCOL {
        fits := ProcessPacket(env, IPCP, info);
      } else if protocol == CHAP_PROTOCOL && chap {
        ProcessChap(env, info);
      } else {
        SendProtocolReject(frame);
      }
    }

    // ---- Timers and administration ----

    method TimerFires(env: Env, p: Proto, w: Which)
      requires Valid() && Running(CpOf(View(), p), w)
      modifies Repr()
      ensures Valid() && View() == Expired(old(View()), env, p, w) && steps == old(steps) + [(env, Expire(p, w))]
    {
      hide *;
      ghost var before := View();
      Standing();
      FireTimer(env, p, w);
      StepIs(before, env, Expire(p, w));
      Note(env, Expire(p, w), before);
    }

    method FireTimer(env: Env, p: Proto, w: Which)
      requires Whole() && Running(CpOf(View(), p), w)
      modifies Repr()
      ensures Whole() && steps == old(steps) && View() == Expired(old(View()), env, p, w)
    {
      hide PppLink.CpEvent, Fired, TimeoutEvent;
      var cp := if p.LCP? then lcp else ipcp;
      var e := cp.TimerFires(w);
      CpEvent(env, p, e, NO_PACKET);
    }

    /** The link starts to negotiate. */
    method Open(env: Env)
      requires Valid() && !started
      modifies Repr()
      ensures Valid() && View() == Begin(old(View()), env, true) && steps == old(steps) + [(env, OpenLink)]
      ensures started && phase.Establishment? && !net && disconnects == 0 && !lcp.state.Opened?
    {
      hide *;
      ghost var before := View();
      Standing();
      Start(env, true);
      StepIs(before, env, OpenLink);
      Note(env, OpenLink, before);
      Standing();
      BegunIs(before, env, true);
    }

    /** The link waits for the peer to begin. */
    method Listen(env: Env)
      requires Valid() && !started
      modifies Repr()
      ensures Valid() && View() == Begin(old(View()), env, false) && steps == old(steps) + [(env, Input.Listen)]
      ensures started && phase.Establishment? && !net && disconnects == 0 && !lcp.state.Opened?
    {
      hide *;
      ghost var before := View();
      Standing();
      Start(env, false);
      StepIs(before, env, Input.Listen);
      Note(env, Input.Listen, before);
      Standing();
      BegunIs(before, env, false);
    }

    method Start(env: Env, open: bool)
      requires Whole() && !started
      modifies Repr()
      ensures Whole() && steps == old(steps) && View() == Begin(old(View()), env, open)
    {
      hide PppLink.LcpEvent, PppLink.EnterPhase;
      if open {
        LcpEvent(env, Up, NO_PACKET);
        LcpEvent(env, Event.Open, NO_PACKET);
      }
      EnterPhase(Establishment);
      started := true;
    }

    /** An open link is taken down, not yet dead; its tunnel is gone. */
    method Shutdown(env: Env)
      requires Valid()
      modifies Repr()
      ensures Valid() && View() == ShutDown(old(View()), env) && steps == old(steps) + [(env, Input.Shutdown)]
      ensures !lcp.state.Opened? && !net && (old(lcp.state.Opened?) ==> phase.Termination?)
    {
      hide *;
      ghost var before := View();
      Standing();
      CloseLink(env);
      StepIs(before, env, Input.Shutdown);
      Note(env, Input.Shutdown, before);
      Standing();
      ClosingTakesDown(before, env);
    }

    method CloseLink(env: Env)
      requires Whole()
      modifies Repr()
      ensures Whole() && steps == old(steps) && View() == ShutDown(old(View()), env)
    {
      hide PppLink.LcpEvent;
      if phase.Dead? || phase.Termination? {
        return;
      }
      disconnectReason := LocalClose;
      LcpEvent(env, Close, NO_PACKET);
    }

    /** The line is lost: the link is dead unless LCP was in one of three states. */
    method IoDisconnect(env: Env)
      requires Valid()
      modifies Repr()
      ensures Valid() && View() == PppLink.IoDisconnect(old(View()), env) && steps == old(steps) + [(env, IoLost)]
      ensures phase.Dead? <==> old(phase.Dead? || !(lcp.state.Initial? || lcp.state.Closed? || lcp.state.Closing?))
      ensures !lcp.state.Opened? && !net
    {
      hide *;
      ghost var before := View();
      Standing();
      LoseLine(env);
      StepIs(before, env, IoLost);
      Note(env, IoLost, before);
      Standing();
      LossTakesDown(before, env);
    }

    method LoseLine(env: Env)
      requires Whole()
      modifies Repr()
      ensures Whole() && steps == old(steps) && View() == PppLink.IoDisconnect(old(View()), env)
    {
      hide PppLink.LcpEvent;
      if phase.Dead? {
        return;
      }
      disconnectReason := LinkDead;
      LcpEvent(env, Down, NO_PACKET);
      LcpEvent(env, Close, NO_PACKET);
    }

    /** The end is reported to the owner. */
    method PppDead()
      requires Whole()
      modifies this`pppDeadSource, this`disconnects
      ensures Whole() && View() == PppLink.PppDead(old(View()))
    {
      pppDeadSource := false;
      disconnects := disconnects + 1;
    }

    /** The idle source reports the end: for the first and last time. */
    method IdleRuns(env: Env)
      requires Valid() && pppDeadSource
      modifies this`pppDeadSource, this`disconnects, this`steps
      ensures Valid() && View() == PppLink.PppDead(old(View())) && steps == old(steps) + [(env, Input.IdleRuns)]
      ensures old(disconnects) == 0 && disconnects == 1 && phase.Dead?
    {
      hide *;
      ghost var before := View();
      Standing();
      PppDead();
      StepIs(before, env, Input.IdleRuns);
      Note(env, Input.IdleRuns, before);
      Standing();
      ReportedOnce(before);
    }

    /** The Terminate-Ack has been written out; if the link is dead by now, its end is
        reported, for the first and last time. */
    method StaSent(env: Env)
      requires Valid() && staPending
      modifies this`staPending, this`pppDeadSource, this`disconnects, this`steps
      ensures Valid() && View() == PppLink.StaSent(old(View())) && steps == old(steps) + [(env, WriteDone)]
      ensures old(phase.Dead?) ==> old(disconnects) == 0 && disconnects == 1
    {
      hide *;
      ghost var before := View();
      Standing();
      AckWritten();
      StepIs(before, env, WriteDone);
      Note(env, WriteDone, before);
      Standing();
      ReportedOnce(before);
    }

    method AckWritten()
      requires Whole() && staPending
      modifies this`staPending, this`pppDeadSource, this`disconnects
      ensures Whole() && View() == PppLink.StaSent(old(View()))
    {
      staPending := false;
      if phase.Dead? {
        PppDead();
      }
    }

    method SetAcfcEnabled(env: Env, enabled: bool)
      requires Valid()
      modifies this`lcpAsked, this`steps, lcp
      ensures Valid() && View() == SetOption(old(View()), LcpSpec.AcfcOption, enabled)
      ensures steps == old(steps) + [(env, EnableAcfc(enabled))]
    {
      hide *;
      ghost var before := View();
      Standing();
      SetOptionEnabled(LcpSpec.AcfcOption, enabled);
      StepIs(before, env, EnableAcfc(enabled));
      Note(env, EnableAcfc(enabled), before);
    }

    method SetPfcEnabled(env: Env, enabled: bool)
      requires Valid()
      modifies this`lcpAsked, this`steps, lcp
      ensures Valid() && View() == SetOption(old(View()), LcpSpec.PfcOption, enabled)
      ensures steps == old(steps) + [(env, EnablePfc(enabled))]
    {
      hide *;
      ghost var before := View();
      Standing();
      SetOptionEnabled(LcpSpec.PfcOption, enabled);
      StepIs(before, env, EnablePfc(enabled));
      Note(env, EnablePfc(enabled), before);
    }

    method SetOptionEnabled(o: LcpSpec.LcpOption, enabled: bool)
      requires Whole()
      modifies this`lcpAsked, lcp
      ensures Whole() && View() == SetOption(old(View()), o, enabled)
    {
      hide LcpSpec.Generate;
      var before := lcpAsked;
      if enabled {
        lcpAsked := lcpAsked + {o};
      } else {
        lcpAsked := lcpAsked - {o};
      }
      if lcpAsked == before {
        return;
      }
      lcp.SetLocalOptions(LcpSpec.Generate(LcpData()));
    }

    method SetServerInfo(env: Env, peer: IpcpSpec.Addr, dns1: IpcpSpec.Addr, dns2: IpcpSpec.Addr)
      requires Valid()
      modifies this`steps, ipcpDriver
      ensures Valid() && View() == Step(old(View()), env, ServerInfo(peer, dns1, dns2))
      ensures steps == old(steps) + [(env, ServerInfo(peer, dns1, dns2))]
    {
      hide *;
      ghost var before := View();
      Standing();
      TakeServerInfo(env, peer, dns1, dns2);
      StepIs(before, env, ServerInfo(peer, dns1, dns2));
      Note(env, ServerInfo(peer, dns1, dns2), before);
    }

    method TakeServerInfo(ghost env: Env, peer: IpcpSpec.Addr, dns1: IpcpSpec.Addr, dns2: IpcpSpec.Addr)
      requires Whole()
      modifies ipcpDriver
      ensures Whole() && View() == Step(old(View()), env, ServerInfo(peer, dns1, dns2))
    {
      ipcpDriver.SetServerInfo(peer, dns1, dns2);
    }
  }

  // ---- Room for a server's answer ----

  /** At most five options that a server serves disagree, if its driver is asked at all. */
  predicate RoomToAnswer(l: Link, p: Proto, packet: Packet) {
    p.IPCP? && packet.code == CONFIGURE_REQUEST && l.ipcpData.isServer && l.ipcp.failures < l.ipcp.maxFailure ==>
    |IpcpSpec.Corrections(l.ipcpData, Parse(packet.data))| <= 5
  }

  /** No request in this frame makes the driver of a server run out of room. */
  predicate RoomFor(l: Link, frame: seq<byte>)
    requires Sound(frame)
  {
    match ParseHeader(frame)
    case None => true
    case Some(h) =>
      !Dropped(l.phase, h.protocol) && h.protocol == IPCP_PROTOCOL && |frame[h.offset..]| >= 4 ==>
      RoomToAnswer(l, IPCP, PacketOf(frame[h.offset..]))
  }

  /** What a step is, for each input but a frame. */
  lemma StepIs(l: Link, env: Env, i: Input)
    requires !i.Frame? && (i.IdleRuns? ==> l.idleDead)
    ensures Proper(i)
    ensures Step(l, env, i) ==
      match i
      case OpenLink => Begin(l, env, true)
      case Listen => Begin(l, env, false)
      case Expire(p, w) => Expired(l, env, p, w)
      case Shutdown => ShutDown(l, env)
      case IoLost => PppLink.IoDisconnect(l, env)
      case WriteDone => PppLink.StaSent(l)
      case IdleRuns => PppLink.PppDead(l)
      case EnableAcfc(on) => SetOption(l, LcpSpec.AcfcOption, on)
      case EnablePfc(on) => SetOption(l, LcpSpec.PfcOption, on)
      case _ => Step(l, env, i)
  {
    hide Begin, Expired, ShutDown, PppLink.IoDisconnect, PppLink.StaSent, PppLink.PppDead, SetOption, PppLink.Receive;
  }

  lemma FrameStep(l: Link, env: Env, frame: seq<byte>)
    requires Sound(frame)
    ensures Proper(Input.Frame(frame)) && Step(l, env, Input.Frame(frame)) == PppLink.Receive(l, env, frame)
  {
    hide Sound, PppLink.Receive;
  }

  lemma DeadHearsNothing(l: Link, env: Env, frame: seq<byte>)
    requires Sound(frame)
    ensures l.phase.Dead? ==> RoomFor(l, frame) && PppLink.Receive(l, env, frame) == l
  {
    hide ControlPacket, ChapPacket, ProtocolReject, SoundInfo, PacketOf, RoomToAnswer;
  }

  /** Right after its start nothing of a link is up. */
  lemma BegunIs(l: Link, env: Env, open: bool)
    requires PppSafety.LinkOk(l) && !l.started
    ensures var r := Begin(l, env, open);
      r.started && r.phase.Establishment? && r.disconnects == 0 && !r.net && !r.lcp.state.Opened?
  {
    PppSafety.BeginKeeps(l, env, open);
    hide PppLink.LcpEvent, PppSafety.Histories, PppSafety.Timers;
  }

  lemma ReportedOnce(l: Link)
    requires PppSafety.LinkOk(l)
    ensures l.idleDead ==> l.disconnects == 0 && l.phase.Dead?
    ensures l.idleDead ==> PppLink.PppDead(l).disconnects == 1 && PppLink.PppDead(l).phase.Dead?
    ensures l.staPending && l.phase.Dead? ==> l.disconnects == 0 && PppLink.StaSent(l).disconnects == 1
  {
    hide PppSafety.Histories, PppSafety.Timers, PppSafety.Coupled;
  }

  lemma ClosingTakesDown(l: Link, env: Env)
    requires PppSafety.LinkOk(l)
    ensures var r := ShutDown(l, env);
      !r.lcp.state.Opened? && !r.net && (l.lcp.state.Opened? ==> r.phase.Termination?)
  {
    hide PppSafety.LinkOk, ShutDown;
    PppSafety.ShutDownKeeps(l, env);
    PppSafety.ClosingState(l, env);
    PppSafety.NotUpNoTunnel(ShutDown(l, env));
  }

  lemma LossTakesDown(l: Link, env: Env)
    requires PppSafety.LinkOk(l)
    ensures var r := PppLink.IoDisconnect(l, env);
      && !r.lcp.state.Opened? && !r.net
      && (r.phase.Dead? <==> l.phase.Dead? || !(l.lcp.state.Initial? || l.lcp.state.Closed? || l.lcp.state.Closing?))
  {
    hide PppSafety.LinkOk, PppLink.LcpEvent;
    PppSafety.IoDisconnectKeeps(l, env);
    if !l.phase.Dead? {
      PppSafety.LineLossEndsLinkIff(l, env);
    }
    PppSafety.LossState(l, env);
    PppSafety.NotUpNoTunnel(PppLink.IoDisconnect(l, env));
  }
}
