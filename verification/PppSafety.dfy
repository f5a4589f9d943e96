/** What holds after everything that happened to a PPP link, in every run. */
module PppSafety {
  import opened Bytes
  import opened Wrappers
  import opened PppCp
  import PppOptions
  import Ipcp = PppIpcpOptions
  import Lcp = PppLcpOptions
  import opened PppLink

  // ---- History ----

  function NoteEntry(h: Hist, p: Proto, e: Entry): Hist {
    if e.proto != p then h else
    match e
    case Tx(_, packet) => NoteSent(h, packet)
    case AckIn(_, packet) => NoteAck(h, packet)
    case Sig(_, signal) => NoteSignal(h, signal)
  }

  /** The negotiation of one protocol, read off the history. */
  function HistOf(log: seq<Entry>, p: Proto): Hist
    decreases |log|
  {
    if |log| == 0 then NO_HISTORY
    else NoteEntry(HistOf(log[..|log| - 1], p), p, log[|log| - 1])
  }

  /** IPCP packets are sent only between LCP's layer-up and its layer-down; the layer-up and
      layer-down signals of each protocol alternate, starting with layer-up. */
  predicate EntryOk(before: seq<Entry>, e: Entry) {
    match e
    case Tx(p, _) => p.IPCP? ==> HistOf(before, LCP).up
    case AckIn(_, _) => true
    case Sig(p, s) => (s.LayerUp? ==> !HistOf(before, p).up) && (s.LayerDown? ==> HistOf(before, p).up)
  }

  ghost predicate Orderly(log: seq<Entry>) {
    forall i :: 0 <= i < |log| ==> EntryOk(log[..i], log[i])
  }

  lemma OrderlySnoc(log: seq<Entry>, e: Entry)
    requires Orderly(log) && EntryOk(log, e)
    ensures Orderly(log + [e])
  {
    hide EntryOk;
    forall i | 0 <= i < |log + [e]| ensures EntryOk((log + [e])[..i], (log + [e])[i]) {
      assert (log + [e])[..i] == log[..i];
      assert log[..|log|] == log;
    }
  }

  lemma {:induction false} HistSnoc(log: seq<Entry>, e: Entry, p: Proto)
    ensures HistOf(log + [e], p) == NoteEntry(HistOf(log, p), p, e)
  {
    assert (log + [e])[..|log|] == log;
  }

  lemma {:induction false} SendingNoted(log: seq<Entry>, p: Proto, sent: seq<Packet>)
    requires Orderly(log) && (p.IPCP? && sent != [] ==> HistOf(log, LCP).up)
    ensures Orderly(log + TxAll(p, sent))
    ensures HistOf(log + TxAll(p, sent), p) == NoteAllSent(HistOf(log, p), sent)
    ensures forall q :: q != p ==> HistOf(log + TxAll(p, sent), q) == HistOf(log, q)
    decreases |sent|
  {
    hide NoteSent;
    if |sent| == 0 {
      assert log + TxAll(p, sent) == log;
    } else {
      var front, last := sent[..|sent| - 1], sent[|sent| - 1];
      SendingNoted(log, p, front);
      var mid := log + TxAll(p, front);
      assert log + TxAll(p, sent) == mid + [Tx(p, last)];
      assert p.IPCP? ==> HistOf(mid, LCP) == HistOf(log, LCP);
      OrderlySnoc(mid, Tx(p, last));
      HistSnoc(mid, Tx(p, last), LCP);
      HistSnoc(mid, Tx(p, last), IPCP);
      hide HistOf, Orderly, TxAll;
    }
  }

  lemma {:induction false} NoteAllSentKeepsUp(h: Hist, sent: seq<Packet>)
    ensures NoteAllSent(h, sent).up == h.up
    decreases |sent|
  {
    if |sent| > 0 {
      NoteAllSentKeepsUp(h, sent[..|sent| - 1]);
    }
  }

  /** One event in the history. */
  lemma {:induction false} EventNoted(log: seq<Entry>, p: Proto, r: Outcome)
    requires Orderly(log) && (p.IPCP? && r.sent != [] ==> HistOf(log, LCP).up)
    requires r.signal.LayerUp? ==> !HistOf(log, p).up
    requires r.signal.LayerDown? ==> HistOf(log, p).up
    ensures Orderly(log + Entries(p, r))
    ensures HistOf(log + Entries(p, r), p) == Noted(HistOf(log, p), r)
    ensures forall q :: q != p ==> HistOf(log + Entries(p, r), q) == HistOf(log, q)
  {
    SendingNoted(log, p, r.sent);
    NoteAllSentKeepsUp(HistOf(log, p), r.sent);
    var mid, s := log + TxAll(p, r.sent), Sig(p, r.signal);
    assert log + Entries(p, r) == mid + [s];
    OrderlySnoc(mid, s);
    HistSnoc(mid, s, LCP);
    HistSnoc(mid, s, IPCP);
    hide HistOf, Orderly, TxAll, NoteAllSent;
  }

  ghost predicate Histories(l: Link) {
    && HistoryMatches(l.lcp, HistOf(l.log, LCP))
    && HistoryMatches(l.ipcp, HistOf(l.log, IPCP))
    && Orderly(l.log)
  }

  predicate AckNoted(l: Link, p: Proto, e: Event) {
    e.Rca? && Asking(CpOf(l, p).state) ==> HistOf(l.log, p).acked
  }

  function NextState(e: Event, s: State): State {
    match Transition(e, s)
    case INV => s
    case Go(_, next) => next
  }

  lemma GenerateStates(cp: Cp, e: Event, packet: Packet)
    ensures var r := Generate(cp, e, packet);
      && r.cp.state == NextState(e, cp.state)
      && (r.signal.LayerUp? <==> r.cp.state.Opened? && !cp.state.Opened?)
      && (r.signal.LayerDown? <==> cp.state.Opened? && !r.cp.state.Opened?)
      && (r.signal.LayerFinished? ==> r.cp.state.Initial? || r.cp.state.Closed? || r.cp.state.Stopped?)
  {
    if Transition(e, cp.state).Go? {
      TableSignals(e, cp.state);
      NotedEffects(cp, NO_HISTORY, e, packet);
      hide Transition, Generate;
    }
  }

  lemma ApplyKeeps(l: Link, p: Proto, e: Event, packet: Packet)
    requires Histories(l) && AckNoted(l, p, e)
    requires p.IPCP? && Generate(l.ipcp, e, packet).sent != [] ==> HistOf(l.log, LCP).up
    ensures Histories(Apply(l, p, e, packet))
    ensures forall q :: q != p ==> HistOf(Apply(l, p, e, packet).log, q) == HistOf(l.log, q)
  {
    var cp, h := CpOf(l, p), HistOf(l.log, p);
    HistoryKept(cp, h, e, packet);
    GenerateStates(cp, e, packet);
    hide Generate, Noted, HistOf, Orderly, Entries;
    EventNoted(l.log, p, Generate(cp, e, packet));
  }

  // ---- The phase and the two automata ----

  predicate UpPhase(phase: Phase) {
    phase.Authentication? || NetPhase(phase)
  }

  predicate Active(s: State) {
    !s.Initial? && !s.Starting?
  }

  /** The phase says whether LCP is up and whether IPCP is at work, and there is a tunnel
      exactly while IPCP is up. */
  predicate Coupled(l: Link) {
    && (UpPhase(l.phase) <==> l.lcp.state.Opened?)
    && (NetPhase(l.phase) <==> Active(l.ipcp.state))
    && (l.net <==> l.ipcp.state.Opened?)
  }

  predicate Timers(l: Link) {
    TimersMatch(l.lcp) && TimersMatch(l.ipcp)
  }

  /** The end is reported once: it has been, or it is scheduled, or it waits for the last
      Terminate-Ack to leave. */
  predicate Reported(l: Link) {
    if l.started && l.phase.Dead?
    then l.disconnects + (if l.idleDead then 1 else 0) + (if l.staPending then 1 else 0) == 1
    else l.disconnects == 0 && !l.idleDead
  }

  predicate Ended(s: State) {
    s.Initial? || s.Closed? || s.Stopped?
  }

  predicate Resources(l: Link) {
    && Reported(l)
    && (l.started && l.phase.Dead? ==> Ended(l.lcp.state))
    && (!l.started ==> l.phase.Dead? && (l.lcp.state.Initial? || l.lcp.state.Stopped?) && !l.staPending)
  }

  ghost predicate LinkOk(l: Link) {
    Histories(l) && Timers(l) && Coupled(l) && Resources(l)
  }

  // ---- IPCP events that never reach back to LCP ----

  predicate Administrative(e: Event) {
    e.Up? || e.Down? || e.Open? || e.Close?
  }

  lemma TableAdministrative(e: Event, s: State)
    requires Administrative(e) && Transition(e, s).Go?
    ensures var Go(a, next) := Transition(e, s);
      && TLU !in a && SCA !in a && SCN !in a && STA !in a && SCJ !in a && SER !in a
      && (e.Down? ==> SCR !in a && STR !in a && !Active(next))
      && (e.Open? ==> (s.Opened? <==> next.Opened?) && (Active(s) ==> Active(next)) && !next.Initial? && TLD !in a)
      && (e.Up? ==> Active(next) && !next.Opened? && TLD !in a)
      && (e.Close? && Ended(s) ==> a == {} && (s.Initial? ==> next.Initial?) && (Active(s) ==> next.Closed?))
  {
  }

  lemma DownIsSilent(cp: Cp, packet: Packet)
    ensures Generate(cp, Down, packet).sent == []
  {
    if Transition(Down, cp.state).Go? {
      TableAdministrative(Down, cp.state);
      hide Transition;
    }
  }

  /** What an administrative event of IPCP leaves alone, and where it leads. */
  ghost predicate IpcpOnly(l: Link, r: Link) {
    r == l.(ipcp := r.ipcp, ipcpData := r.ipcpData, net := r.net, log := r.log)
    && HistOf(r.log, LCP) == HistOf(l.log, LCP)
  }

  lemma IpcpDownKeeps(l: Link)
    requires Histories(l) && Timers(l)
    ensures var r := IpcpDown(l); Histories(r) && Timers(r) && IpcpOnly(l, r) && !r.net && r.ipcp.state == l.ipcp.state
  {
    hide HistOf, Orderly, Ipcp.Generate, Ipcp.Reset;
  }

  lemma AdminApplied(l: Link, e: Event)
    requires Administrative(e) && Histories(l) && Timers(l) && (e.Down? || HistOf(l.log, LCP).up)
    ensures var next := Apply(l, IPCP, e, NO_PACKET);
      && Histories(next) && Timers(next) && next == l.(ipcp := next.ipcp, log := next.log)
      && HistOf(next.log, LCP) == HistOf(l.log, LCP) && next.ipcp.state == NextState(e, l.ipcp.state)
      && (SignalFor(l, IPCP, e, NO_PACKET).LayerDown? <==> l.ipcp.state.Opened? && !next.ipcp.state.Opened?)
  {
    GenerateStates(l.ipcp, e, NO_PACKET);
    if e.Down? {
      DownIsSilent(l.ipcp, NO_PACKET);
    }
    TimersKept(l.ipcp, e, NO_PACKET);
    hide Generate, HistOf, Orderly, HistoryMatches, TimersMatch, NextState;
    ApplyKeeps(l, IPCP, e, NO_PACKET);
  }

  lemma AdminKeeps(l: Link, e: Event)
    requires Administrative(e) && Histories(l) && Timers(l) && (e.Down? || HistOf(l.log, LCP).up)
    ensures var r := IpcpAdmin(l, e);
      && Histories(r) && Timers(r) && IpcpOnly(l, r)
      && r.ipcp.state == NextState(e, l.ipcp.state)
      && r.net == (l.net && (l.ipcp.state.Opened? ==> r.ipcp.state.Opened?))
  {
    hide Generate, HistOf, Histories, Timers, IpcpDown, NextState, Apply, SignalFor;
    AdminApplied(l, e);
    IpcpDownKeeps(Apply(l, IPCP, e, NO_PACKET));
  }

  // ---- Events of LCP ----

  /** The fields no notification touches. */
  predicate SameBooks(l: Link, r: Link) {
    r.staPending == l.staPending && r.disconnects == l.disconnects && r.started == l.started && r.params == l.params
  }

  lemma TableStart(s: State)
    ensures Active(NextState(Up, NextState(Open, s)))
    ensures NextState(Up, NextState(Open, s)).Opened? <==> s.Opened?
  {
  }

  /** From any state, opening and raising IPCP gets it to work. */
  lemma StartKeeps(l: Link)
    requires Histories(l) && Timers(l) && l.lcp.state.Opened? && (l.net <==> l.ipcp.state.Opened?)
    ensures var r := StartNetwork(l);
      && Histories(r) && Timers(r) && Coupled(r)
      && SameBooks(l, r) && r.idleDead == l.idleDead && r.phase.Network? && r.lcp == l.lcp
  {
    TableStart(l.ipcp.state);
    assert NextState(Open, l.ipcp.state).Opened? <==> l.ipcp.state.Opened?;
    var l1 := EnterPhase(l, Network);
    hide HistOf, Orderly, HistoryMatches, TimersMatch, IpcpAdmin, NextState;
    assert HistOf(l.log, LCP).up by { UpMeansOpened(l); }
    AdminKeeps(l1, Open);
    AdminKeeps(IpcpAdmin(l1, Open), Up);
  }

  lemma UpMeansOpened(l: Link)
    requires Histories(l)
    ensures HistOf(l.log, LCP).up <==> l.lcp.state.Opened?
    ensures HistOf(l.log, IPCP).up <==> l.ipcp.state.Opened?
  {
  }

  lemma LcpUpKeeps(l: Link)
    requires Histories(l) && Timers(l) && l.lcp.state.Opened? && !Active(l.ipcp.state) && !l.net
    ensures var r := LcpUp(l);
      && Histories(r) && Timers(r) && Coupled(r)
      && SameBooks(l, r) && r.idleDead == l.idleDead && !r.phase.Dead? && r.lcp == l.lcp
  {
    hide HistOf, Orderly, HistoryMatches, TimersMatch, StartNetwork;
    if !l.params.chap {
      StartKeeps(l);
    }
  }

  lemma TableDown(s: State)
    ensures Active(s) ==> !Active(NextState(Down, s))
  {
  }

  /** When LCP goes down IPCP goes with it, and the tunnel. */
  lemma LcpDownKeeps(l: Link)
    requires Histories(l) && Timers(l) && !l.lcp.state.Opened?
    requires (NetPhase(l.phase) <==> Active(l.ipcp.state)) && (l.net ==> l.ipcp.state.Opened?)
    ensures var r := LcpDown(l);
      && Histories(r) && Timers(r) && Coupled(r)
      && SameBooks(l, r) && r.idleDead == l.idleDead && r.phase.Termination? && r.lcp.state == l.lcp.state
  {
    TableDown(l.ipcp.state);
    var l1 := l.(lcp := l.lcp.(localOptions := Lcp.Generate(l.lcpData)));
    assert Histories(l1) && Timers(l1);
    hide HistOf, Orderly, HistoryMatches, TimersMatch, IpcpAdmin, NextState, Lcp.Generate;
    if NetPhase(l.phase) {
      AdminKeeps(l1, Down);
    }
  }

  /** Coupled, except that IPCP may just have come up without a tunnel. */
  predicate NearlyCoupled(l: Link) {
    && (UpPhase(l.phase) <==> l.lcp.state.Opened?)
    && (NetPhase(l.phase) <==> Active(l.ipcp.state))
    && (l.net ==> l.ipcp.state.Opened?)
    && (l.lcp.state.Opened? || (l.net <==> l.ipcp.state.Opened?))
  }

  /** LCP has moved from one state to another and is about to say so. */
  ghost predicate Moved(l: Link, s: Signal, before: State) {
    && Histories(l) && Timers(l)
    && (s.LayerUp? <==> l.lcp.state.Opened? && !before.Opened?)
    && (s.LayerDown? <==> before.Opened? && !l.lcp.state.Opened?)
    && (s.LayerFinished? ==> Ended(l.lcp.state))
    && (UpPhase(l.phase) <==> before.Opened?)
    && (NetPhase(l.phase) <==> Active(l.ipcp.state))
    && (l.net ==> l.ipcp.state.Opened?)
    && (s.LayerDown? || (l.net <==> l.ipcp.state.Opened?))
  }

  /** The notifications after LCP has moved from one state to another. */
  lemma LcpSignalledKeeps(l: Link, s: Signal, before: State)
    requires Moved(l, s, before)
    ensures var r := LcpSignalled(l, s);
      && Histories(r) && Timers(r) && Coupled(r)
      && r.staPending == l.staPending && r.disconnects == l.disconnects && r.started == l.started
      && r.lcp.state == l.lcp.state
      && (if s.LayerFinished? then r.phase.Dead? && r.idleDead == (l.idleDead || !r.staPending)
          else r.idleDead == l.idleDead && (r.phase.Dead? ==> l.phase.Dead?))
  {
    hide HistOf, Orderly, HistoryMatches, TimersMatch, LcpUp, LcpDown;
    if s.LayerUp? {
      LcpUpKeeps(l);
    } else if s.LayerDown? {
      LcpDownKeeps(l);
    }
  }

  /** One event of LCP with everything it sets off. If the link was coupled before, or LCP
      leaves the opened state, it is coupled afterwards. */
  lemma LcpEventKeeps(l: Link, env: Env, e: Event, packet: Packet)
    requires Histories(l) && TimersMatch(l.ipcp) && TimersMatch(Generate(l.lcp, e, packet).cp)
    requires AckNoted(l, LCP, e) && NearlyCoupled(l)
    requires Coupled(l) || !NextState(e, l.lcp.state).Opened?
    ensures var r := LcpEvent(l, env, e, packet);
      && Histories(r) && Timers(r) && Coupled(r)
      && r.disconnects == l.disconnects && r.started == l.started
      && r.lcp.state == NextState(e, l.lcp.state)
      && (if SignalFor(l, LCP, e, packet).LayerFinished?
          then r.phase.Dead? && Ended(r.lcp.state) && r.idleDead == (l.idleDead || !r.staPending)
          else r.idleDead == l.idleDead && (r.phase.Dead? ==> l.phase.Dead?))
      && r.staPending == (l.staPending || (env.sendOk && SendsTerminateAck(l.lcp, e)))
  {
    hide *;
    var sta := l.staPending || (env.sendOk && SendsTerminateAck(l.lcp, e));
    var next, s := Apply(l, LCP, e, packet).(staPending := sta), SignalFor(l, LCP, e, packet);
    LcpEventIs(l, env, e, packet, sta);
    AppliedLcp(l, e, packet, sta);
    LcpMoves(l, e, packet, next);
    LcpSignalledKeeps(next, s, l.lcp.state);
  }

  lemma LcpEventIs(l: Link, env: Env, e: Event, packet: Packet, sta: bool)
    requires sta == (l.staPending || (env.sendOk && SendsTerminateAck(l.lcp, e)))
    ensures LcpEvent(l, env, e, packet) ==
            LcpSignalled(Apply(l, LCP, e, packet).(staPending := sta), SignalFor(l, LCP, e, packet))
    ensures Apply(l, LCP, e, packet).disconnects == l.disconnects && Apply(l, LCP, e, packet).started == l.started
  {
    hide LcpSignalled, Generate, Transition, SendsTerminateAck;
  }

  lemma LcpMoves(l: Link, e: Event, packet: Packet, next: Link)
    requires NearlyCoupled(l) && (Coupled(l) || !NextState(e, l.lcp.state).Opened?)
    requires Histories(next) && Timers(next)
    requires next == l.(lcp := Generate(l.lcp, e, packet).cp, log := next.log, staPending := next.staPending)
    ensures Moved(next, SignalFor(l, LCP, e, packet), l.lcp.state)
    ensures next.lcp.state == NextState(e, l.lcp.state)
    ensures SignalFor(l, LCP, e, packet).LayerFinished? ==> Ended(next.lcp.state)
  {
    GenerateStates(l.lcp, e, packet);
    hide Generate, Transition, Histories, Timers, NextState;
  }

  lemma AppliedLcp(l: Link, e: Event, packet: Packet, sta: bool)
    requires Histories(l) && TimersMatch(l.ipcp) && TimersMatch(Generate(l.lcp, e, packet).cp) && AckNoted(l, LCP, e)
    ensures var next := Apply(l, LCP, e, packet).(staPending := sta);
      && Histories(next) && Timers(next)
      && next == l.(lcp := Generate(l.lcp, e, packet).cp, log := next.log, staPending := sta)
  {
    ApplyKeeps(l, LCP, e, packet);
    hide Generate, HistOf, Orderly, HistoryMatches, TimersMatch;
  }

  // ---- Events of IPCP ----

  lemma TableClose(s: State)
    requires s.Opened?
    ensures NextState(Close, s).Closing? && !SignalOf(Transition(Close, s).actions).LayerFinished?
  {
  }

  /** Closing LCP while it is open takes the whole link down, but does not end it yet. */
  lemma LcpCloseKeeps(l: Link, env: Env)
    requires Histories(l) && Timers(l) && l.lcp.state.Opened? && NearlyCoupled(l)
    ensures var r := LcpEvent(l, env, Close, NO_PACKET);
      && Histories(r) && Timers(r) && Coupled(r) && !r.phase.Dead?
      && r.disconnects == l.disconnects && r.started == l.started && r.idleDead == l.idleDead
  {
    TableClose(l.lcp.state);
    TimersKept(l.lcp, Close, NO_PACKET);
    SignalIsTable(l.lcp, Close, NO_PACKET);
    assert UpPhase(l.phase);
    hide Generate, Histories, HistOf, LcpEvent, Coupled, Transition, NextState;
    LcpEventKeeps(l, env, Close, NO_PACKET);
  }

  lemma SignalIsTable(cp: Cp, e: Event, packet: Packet)
    requires Transition(e, cp.state).Go?
    ensures Generate(cp, e, packet).signal == SignalOf(Transition(e, cp.state).actions)
  {
    hide Transition;
  }

  lemma TableFinished(e: Event, s: State)
    requires Transition(e, s).Go? && SignalOf(Transition(e, s).actions).LayerFinished?
    ensures Ended(Transition(e, s).next) && (e.Close? || Transition(e, s).next.Closed? || Transition(e, s).next.Stopped?)
  {
  }

  /** After IPCP has finished, closing it raises no signal of its own. */
  lemma CloseAfterFinish(l: Link)
    requires Histories(l) && Timers(l) && l.lcp.state.Opened? && !l.net
    requires l.ipcp.state.Closed? || l.ipcp.state.Stopped?
    ensures SignalFor(l, IPCP, Close, NO_PACKET) == Quiet
    ensures var r := IpcpAdmin(l, Close);
      && Histories(r) && Timers(r) && IpcpOnly(l, r) && r.ipcp.state.Closed? && !r.net
  {
    assert Transition(Close, l.ipcp.state) == Go({}, Closed);
    SignalIsTable(l.ipcp, Close, NO_PACKET);
    UpMeansOpened(l);
    hide Generate, Transition, Histories, Timers, HistOf, IpcpAdmin;
    AdminKeeps(l, Close);
  }

  /** IPCP has moved while the network phase lasts. */
  ghost predicate IpcpMoved(l: Link, s: Signal, before: State) {
    && Histories(l) && Timers(l)
    && l.lcp.state.Opened? && NetPhase(l.phase) && Active(l.ipcp.state)
    && (s.LayerUp? <==> l.ipcp.state.Opened? && !before.Opened?)
    && (s.LayerDown? <==> before.Opened? && !l.ipcp.state.Opened?)
    && (s.LayerFinished? ==> l.ipcp.state.Closed? || l.ipcp.state.Stopped?)
    && (l.net <==> before.Opened?)
  }

  /** The link is whole again and has not ended. */
  ghost predicate Settled(l: Link, r: Link) {
    && Histories(r) && Timers(r) && Coupled(r) && !r.phase.Dead?
    && r.disconnects == l.disconnects && r.started == l.started && r.idleDead == l.idleDead
  }

  lemma IpcpUpKeeps(l: Link, env: Env, s: Signal, before: State)
    requires IpcpMoved(l, s, before) && s.LayerUp?
    ensures Settled(l, IpcpUp(l, env))
  {
    var l1 := l.(net := false, reason := NetFail);
    assert Histories(l1) && Timers(l1) && NearlyCoupled(l1);
    assert Histories(l.(net := true)) && Timers(l.(net := true));
    hide HistOf, Orderly, HistoryMatches, TimersMatch, LcpEvent;
    LcpCloseKeeps(l1, env);
  }

  lemma IpcpFinishedKeeps(l: Link, env: Env, s: Signal, before: State)
    requires IpcpMoved(l, s, before) && s.LayerFinished?
    ensures Settled(l, IpcpFinished(l, env))
  {
    var l1 := l.(reason := IpcpFail);
    assert Histories(l1) && Timers(l1);
    hide HistOf, Orderly, HistoryMatches, TimersMatch, LcpEvent, IpcpAdmin;
    if l.phase.Network? {
      CloseAfterFinish(l1);
      LcpCloseKeeps(IpcpAdmin(l1, Close), env);
    }
  }

  lemma IpcpSignalledKeeps(l: Link, env: Env, s: Signal, before: State)
    requires IpcpMoved(l, s, before)
    ensures Settled(l, IpcpSignalled(l, env, s))
  {
    hide HistOf, Orderly, HistoryMatches, TimersMatch, IpcpUp, IpcpFinished, IpcpDown;
    match s
    case LayerUp => IpcpUpKeeps(l, env, s, before);
    case LayerDown => IpcpDownKeeps(l);
    case LayerFinished => IpcpFinishedKeeps(l, env, s, before);
    case _ =>
  }

  lemma IpcpMoves(l: Link, e: Event, packet: Packet)
    requires Histories(l) && TimersMatch(l.lcp) && TimersMatch(Generate(l.ipcp, e, packet).cp)
    requires AckNoted(l, IPCP, e) && Coupled(l) && NetPhase(l.phase) && !Administrative(e)
    ensures IpcpMoved(Apply(l, IPCP, e, packet), SignalFor(l, IPCP, e, packet), l.ipcp.state)
  {
    OutsideEvent(l.ipcp, e, packet);
    AppliedIpcp(l, e, packet);
    hide HistOf, Orderly, HistoryMatches, TimersMatch, Generate, Apply, Transition;
  }

  lemma OutsideEvent(cp: Cp, e: Event, packet: Packet)
    requires Active(cp.state) && !Administrative(e)
    ensures var r := Generate(cp, e, packet);
      && Active(r.cp.state)
      && (r.signal.LayerUp? <==> r.cp.state.Opened? && !cp.state.Opened?)
      && (r.signal.LayerDown? <==> cp.state.Opened? && !r.cp.state.Opened?)
      && (r.signal.LayerFinished? ==> r.cp.state.Closed? || r.cp.state.Stopped?)
  {
    GenerateStates(cp, e, packet);
    if Transition(e, cp.state).Go? {
      SignalIsTable(cp, e, packet);
      StaysActive(e, cp.state);
      if SignalOf(Transition(e, cp.state).actions).LayerFinished? {
        TableFinished(e, cp.state);
      }
    }
    hide Generate, SignalOf, Transition;
  }

  lemma AppliedIpcp(l: Link, e: Event, packet: Packet)
    requires Histories(l) && TimersMatch(l.lcp) && TimersMatch(Generate(l.ipcp, e, packet).cp)
    requires AckNoted(l, IPCP, e) && l.lcp.state.Opened?
    ensures var next := Apply(l, IPCP, e, packet);
      && Histories(next) && Timers(next)
      && next == l.(ipcp := Generate(l.ipcp, e, packet).cp, log := next.log)
  {
    UpMeansOpened(l);
    hide Generate, HistOf, Orderly, HistoryMatches, TimersMatch;
    ApplyKeeps(l, IPCP, e, packet);
  }

  lemma StaysActive(e: Event, s: State)
    requires !Administrative(e) && Transition(e, s).Go?
    ensures Active(Transition(e, s).next)
  {
  }

  /** One event of IPCP, other than an administrative one, with everything it sets off. */
  lemma IpcpEventKeeps(l: Link, env: Env, e: Event, packet: Packet)
    requires Histories(l) && TimersMatch(l.lcp) && TimersMatch(Generate(l.ipcp, e, packet).cp)
    requires AckNoted(l, IPCP, e) && Coupled(l) && NetPhase(l.phase) && !Administrative(e)
    ensures Settled(l, IpcpEvent(l, env, e, packet))
  {
    hide *;
    IpcpMoves(l, e, packet);
    IpcpSignalledKeeps(Apply(l, IPCP, e, packet), env, SignalFor(l, IPCP, e, packet), l.ipcp.state);
    IpcpEventIs(l, env, e, packet);
  }

  lemma IpcpEventIs(l: Link, env: Env, e: Event, packet: Packet)
    ensures var next := Apply(l, IPCP, e, packet);
      && IpcpEvent(l, env, e, packet) == IpcpSignalled(next, env, SignalFor(l, IPCP, e, packet))
      && (forall r :: Settled(next, r) <==> Settled(l, r))
  {
    hide IpcpSignalled, Generate;
  }

  // ---- Packets ----

  /** Drivers change options, addresses and parameters; the automata and the books stay. */
  ghost predicate OnlyDriver(l: Link, r: Link) {
    && r.phase == l.phase && r.net == l.net && r.started == l.started && r.staPending == l.staPending
    && r.idleDead == l.idleDead && r.disconnects == l.disconnects && r.reason == l.reason
    && SameAutomaton(l.lcp, r.lcp) && SameAutomaton(l.ipcp, r.ipcp)
  }

  predicate SameAutomaton(c: Cp, d: Cp) {
    && c.state == d.state && c.config == d.config && c.term == d.term && c.configId == d.configId
  }

  lemma OnlyDriverKeeps(l: Link, r: Link)
    requires LinkOk(l) && OnlyDriver(l, r) && r.log == l.log
    ensures LinkOk(r)
  {
    hide HistOf, Orderly;
  }

  lemma {:induction false} AckInHistory(log: seq<Entry>, p: Proto, ack: Packet, cp: Cp, q: Proto, h: Hist)
    requires h == HistOf(log, q) && HistoryMatches(cp, h) && (p == q ==> ack.id == cp.configId)
    ensures HistoryMatches(cp, HistOf(log + [AckIn(p, ack)], q))
    ensures p == q && Asking(cp.state) ==> HistOf(log + [AckIn(p, ack)], q).acked
  {
    HistSnoc(log, AckIn(p, ack), q);
    hide HistOf;
  }

  lemma AckIs(l: Link, p: Proto, ack: Packet)
    ensures var r := Ack(l, p, ack); OnlyDriver(l, r) && r.lcp == l.lcp && r.ipcp == l.ipcp && r.log == l.log + [AckIn(p, ack)]
  {
    hide PppOptions.Parse, Lcp.Acked, Ipcp.Acked;
  }

  lemma AckKeeps(l: Link, p: Proto, ack: Packet)
    requires LinkOk(l) && AckMatches(CpOf(l, p), ack)
    ensures LinkOk(Ack(l, p, ack)) && OnlyDriver(l, Ack(l, p, ack)) && AckNoted(Ack(l, p, ack), p, Rca)
  {
    hide HistOf, Orderly, Ack, TimersMatch, HistoryMatches;
    OrderlySnoc(l.log, AckIn(p, ack));
    AckInHistory(l.log, p, ack, l.lcp, LCP, HistOf(l.log, LCP));
    AckInHistory(l.log, p, ack, l.ipcp, IPCP, HistOf(l.log, IPCP));
    AckIs(l, p, ack);
  }

  lemma {:induction false} RequestsAreDriver(l: Link, data: seq<byte>)
    requires PppOptions.WellFormed(data)
    ensures var (r, e) := LcpRequest(l, data); OnlyDriver(l, r) && r.log == l.log && (e.RcrPlus? || e.RcrMinus?)
    ensures var (r, e) := IpcpRequest(l, data); OnlyDriver(l, r) && r.log == l.log && (e.RcrPlus? || e.RcrMinus?)
  {
    hide PppOptions.Parse, PppOptions.WellFormed, Lcp.Judge, Lcp.ApplyAll;
    hide Ipcp.ClientHears, Ipcp.ClientReply, Ipcp.ServerReply, Settle, SameAutomaton;
    SettlingIsDriver(l.lcp);
    SettlingIsDriver(l.ipcp);
  }

  lemma SettlingIsDriver(cp: Cp)
    ensures SameAutomaton(cp, cp)
    ensures forall verdict: Ipcp.Verdict, options: Option<seq<byte>> :: SameAutomaton(cp, Settle(cp, verdict, options))
  {
  }

  lemma AnswersAreDriver(l: Link, p: Proto, data: seq<byte>)
    ensures OnlyDriver(l, NakReceived(l, p, data)) && NakReceived(l, p, data).log == l.log
    ensures OnlyDriver(l, RejReceived(l, p, data)) && RejReceived(l, p, data).log == l.log
    ensures OnlyDriver(l, l)
  {
    hide PppOptions.Parse, Lcp.Generate, Ipcp.Generate, Lcp.Naked, Ipcp.Naked, Ipcp.Rejected;
  }

  lemma DigestKeeps(l: Link, p: Proto, packet: Packet)
    requires LinkOk(l) && (1 <= packet.code <= 4 ==> PppOptions.WellFormed(packet.data))
    ensures var (r, e) := Digest(l, p, packet);
      && LinkOk(r) && OnlyDriver(l, r)
      && (e.Some? ==> AckNoted(r, p, e.value) && !Administrative(e.value) && !e.value.ToPlus? && !e.value.ToMinus?)
  {
    hide LinkOk, OnlyDriver, Ack, LcpRequest, IpcpRequest, NakReceived, RejReceived, PppOptions.WellFormed;
    var (r, e) := Digest(l, p, packet);
    AnswersAreDriver(l, p, packet.data);
    if packet.code == CONFIGURE_REQUEST {
      RequestsAreDriver(l, packet.data);
    }
    if packet.code == CONFIGURE_ACK && AckMatches(CpOf(l, p), packet) {
      AckKeeps(l, p, packet);
    } else {
      OnlyDriverKeeps(l, r);
    }
  }

  /** An LCP event of a living link. */
  lemma LcpEventOk(l: Link, env: Env, e: Event, packet: Packet)
    requires LinkOk(l) && !l.phase.Dead? && AckNoted(l, LCP, e) && !e.ToPlus? && !e.ToMinus?
    ensures LinkOk(LcpEvent(l, env, e, packet))
  {
    TimersKept(l.lcp, e, packet);
    LcpBooks(l, env, e, packet);
  }

  lemma LcpBooks(l: Link, env: Env, e: Event, packet: Packet)
    requires Histories(l) && TimersMatch(l.ipcp) && Coupled(l) && Resources(l) && !l.phase.Dead?
    requires AckNoted(l, LCP, e) && TimersMatch(Generate(l.lcp, e, packet).cp)
    ensures LinkOk(LcpEvent(l, env, e, packet))
  {
    assert NearlyCoupled(l);
    hide Generate, Histories, HistOf, TimersMatch, LcpEvent, Coupled, NearlyCoupled, Transition, NextState, SendsTerminateAck;
    LcpEventKeeps(l, env, e, packet);
  }

  lemma SettledOk(l: Link, r: Link)
    requires Resources(l) && !l.phase.Dead? && Settled(l, r)
    ensures LinkOk(r)
  {
    hide Histories, Timers, Coupled;
  }

  lemma IpcpEventOk(l: Link, env: Env, e: Event, packet: Packet)
    requires LinkOk(l) && NetPhase(l.phase) && AckNoted(l, IPCP, e) && !Administrative(e) && !e.ToPlus? && !e.ToMinus?
    ensures LinkOk(IpcpEvent(l, env, e, packet))
  {
    TimersKept(l.ipcp, e, packet);
    hide Generate, Histories, HistOf, IpcpEvent, Coupled, Transition;
    IpcpEventKeeps(l, env, e, packet);
    SettledOk(l, IpcpEvent(l, env, e, packet));
  }

  lemma ControlPacketKeeps(l: Link, env: Env, p: Proto, info: seq<byte>)
    requires LinkOk(l) && SoundInfo(info) && !l.phase.Dead? && (p.IPCP? ==> NetPhase(l.phase))
    ensures LinkOk(ControlPacket(l, env, p, info))
  {
    if |info| >= 4 {
      DigestKeeps(l, p, PacketOf(info));
      hide LinkOk, Digest, LcpEvent, IpcpEvent, AckNoted, Administrative, PacketOf, PppOptions.WellFormed;
      var (r, e) := Digest(l, p, PacketOf(info));
      if e.Some? {
        if p.LCP? {
          LcpEventOk(r, env, e.value, PacketOf(info));
        } else {
          IpcpEventOk(r, env, e.value, PacketOf(info));
        }
      }
    }
  }

  lemma StartOk(l: Link)
    requires LinkOk(l) && UpPhase(l.phase)
    ensures LinkOk(StartNetwork(l))
  {
    hide Histories, HistOf, TimersMatch, StartNetwork;
    StartKeeps(l);
  }

  lemma AckNotedOther(l: Link, p: Proto, e: Event)
    requires !e.Rca?
    ensures AckNoted(l, p, e)
  {
  }

  lemma ChapKeeps(l: Link, env: Env, info: seq<byte>)
    requires LinkOk(l) && UpPhase(l.phase)
    ensures LinkOk(ChapPacket(l, env, info))
  {
    OnlyDriverKeepsReason(l, AuthFail);
    AckNotedOther(l.(reason := AuthFail), LCP, Close);
    hide LinkOk, LcpEvent, StartNetwork, AckNoted;
    if |info| >= 4 && info[0] == 3 {
      StartOk(l);
    } else if |info| >= 4 && info[0] == 4 {
      LcpEventOk(l.(reason := AuthFail), env, Close, NO_PACKET);
    }
  }

  lemma OnlyDriverKeepsReason(l: Link, reason: Reason)
    requires LinkOk(l)
    ensures LinkOk(l.(reason := reason))
  {
    hide HistOf, Orderly, TimersMatch, HistoryMatches;
  }

  lemma ProtocolRejectKeeps(l: Link, frame: seq<byte>)
    requires LinkOk(l) && |frame| >= 2
    ensures LinkOk(ProtocolReject(l, frame))
  {
    if l.lcp.state.Opened? {
      var e := Tx(LCP, Packet(PROTOCOL_REJECT, NewIdentity(l.lcp.rejectId), frame[2..]));
      OrderlySnoc(l.log, e);
      HistSnoc(l.log, e, LCP);
      HistSnoc(l.log, e, IPCP);
      hide HistOf, Orderly, TimersMatch, HistoryMatches;
    }
  }

  lemma ReceiveKeeps(l: Link, env: Env, frame: seq<byte>)
    requires LinkOk(l) && Sound(frame)
    ensures LinkOk(Receive(l, env, frame))
  {
    hide LinkOk, ControlPacket, ChapPacket, ProtocolReject, SoundInfo;
    if ParseHeader(frame).Some? {
      var h := ParseHeader(frame).value;
      var info := frame[h.offset..];
      if !Dropped(l.phase, h.protocol) {
        if h.protocol == LCP_PROTOCOL {
          ControlPacketKeeps(l, env, LCP, info);
        } else if h.protocol == IPCP_PROTOCOL {
          ControlPacketKeeps(l, env, IPCP, info);
        } else if h.protocol == CHAP_PROTOCOL && l.params.chap {
          ChapKeeps(l, env, info);
        } else if h.protocol != IP_PROTOCOL {
          ProtocolRejectKeeps(l, frame);
        }
      }
    }
  }

  // ---- Timeouts and administration ----

  lemma RestingSaysNo(l: Link, p: Proto, w: Which)
    requires LinkOk(l) && Running(CpOf(l, p), w)
    ensures p.LCP? ==> !l.phase.Dead?
    ensures p.IPCP? ==> NetPhase(l.phase) && !l.phase.Dead?
  {
    hide Histories;
  }

  lemma FiredNearly(l: Link, p: Proto, w: Which)
    requires LinkOk(l)
    ensures var f := WithCp(l, p, Fired(CpOf(l, p), w)); Histories(f) && Coupled(f) && Resources(f)
  {
    hide HistOf, Orderly;
  }

  lemma TimeoutEvents(cp: Cp, w: Which)
    ensures TimeoutEvent(cp, w).ToPlus? || TimeoutEvent(cp, w).ToMinus?
  {
  }

  lemma ExpiredKeeps(l: Link, env: Env, p: Proto, w: Which)
    requires LinkOk(l)
    ensures LinkOk(Expired(l, env, p, w))
  {
    var cp := CpOf(l, p);
    if Running(cp, w) {
      RestingSaysNo(l, p, w);
      FiredNearly(l, p, w);
      TimeoutKeepsTimers(cp, w);
      TimeoutEvents(cp, w);
      var f, e := WithCp(l, p, Fired(cp, w)), TimeoutEvent(cp, w);
      AckNotedOther(f, p, e);
      assert CpEvent(f, env, p, e, NO_PACKET) == if p.LCP? then LcpEvent(f, env, e, NO_PACKET) else IpcpEvent(f, env, e, NO_PACKET);
      hide Generate, Histories, Coupled, TimersMatch, LcpEvent, IpcpEvent, TimeoutEvent, Fired, AckNoted, Resources, CpEvent;
      if p.LCP? {
        LcpBooks(f, env, e, NO_PACKET);
      } else {
        IpcpEventKeeps(f, env, e, NO_PACKET);
        SettledOk(f, IpcpEvent(f, env, e, NO_PACKET));
      }
    }
  }

  lemma ShutDownKeeps(l: Link, env: Env)
    requires LinkOk(l)
    ensures LinkOk(ShutDown(l, env))
  {
    OnlyDriverKeepsReason(l, LocalClose);
    AckNotedOther(l.(reason := LocalClose), LCP, Close);
    hide LinkOk, LcpEvent, AckNoted;
    if !l.phase.Dead? && !l.phase.Termination? {
      LcpEventOk(l.(reason := LocalClose), env, Close, NO_PACKET);
    }
  }

  lemma TableNotFinished(e: Event, s: State)
    requires (e.Up? || e.Down? || e.Open?) && Transition(e, s).Go?
    ensures !SignalOf(Transition(e, s).actions).LayerFinished?
    ensures STA !in Transition(e, s).actions
  {
  }

  /** Raising, lowering or opening LCP never ends the link. */
  lemma NotFinished(l: Link, env: Env, e: Event)
    requires e.Up? || e.Down? || e.Open?
    ensures !SignalFor(l, LCP, e, NO_PACKET).LayerFinished? && !SendsTerminateAck(l.lcp, e)
  {
    if Transition(e, l.lcp.state).Go? {
      SignalIsTable(l.lcp, e, NO_PACKET);
      TableNotFinished(e, l.lcp.state);
      hide Generate, Transition, SignalOf;
    }
  }

  lemma LcpStays(l: Link, env: Env, e: Event)
    requires Histories(l) && Timers(l) && Coupled(l) && (e.Up? || e.Down? || e.Open?)
    ensures var r := LcpEvent(l, env, e, NO_PACKET);
      && Histories(r) && Timers(r) && Coupled(r)
      && r.disconnects == l.disconnects && r.started == l.started && r.idleDead == l.idleDead
      && r.staPending == l.staPending && (r.phase.Dead? ==> l.phase.Dead?)
      && r.lcp.state == NextState(e, l.lcp.state)
  {
    AckNotedOther(l, LCP, e);
    TimersKept(l.lcp, e, NO_PACKET);
    assert NearlyCoupled(l);
    hide Generate, Histories, TimersMatch, LcpEvent, Coupled, NearlyCoupled, NextState, SendsTerminateAck, AckNoted;
    LcpEventKeeps(l, env, e, NO_PACKET);
    NotFinished(l, env, e);
  }

  lemma IoDisconnectKeeps(l: Link, env: Env)
    requires LinkOk(l)
    ensures LinkOk(IoDisconnect(l, env))
  {
    if !l.phase.Dead? {
      var l1 := l.(reason := LinkDead);
      OnlyDriverKeepsReason(l, LinkDead);
      LcpStays(l1, env, Down);
      var l2 := LcpEvent(l1, env, Down, NO_PACKET);
      AckNotedOther(l2, LCP, Close);
      assert IoDisconnect(l, env) == LcpEvent(l2, env, Close, NO_PACKET);
      hide Histories, Timers, Coupled, LcpEvent, AckNoted, NextState;
      LcpEventOk(l2, env, Close, NO_PACKET);
    }
  }

  lemma BeginKeeps(l: Link, env: Env, open: bool)
    requires LinkOk(l)
    ensures LinkOk(Begin(l, env, open))
  {
    if !l.started {
      if open {
        OpenBoth(l, env);
      } else {
        hide HistOf, Orderly, HistoryMatches, TimersMatch, LcpEvent;
      }
    }
  }

  lemma OpenBoth(l: Link, env: Env)
    requires LinkOk(l) && !l.started
    ensures LinkOk(Begin(l, env, true))
  {
    FreshLink(l);
    hide *;
    TableOpening(l.lcp.state);
    LcpStays(l, env, Up);
    var l1 := LcpEvent(l, env, Up, NO_PACKET);
    LcpStays(l1, env, Open);
    var l2 := LcpEvent(l1, env, Open, NO_PACKET);
    BeginOpens(l, env);
    EstablishmentKeeps(l2);
  }

  lemma FreshLink(l: Link)
    requires LinkOk(l) && !l.started
    ensures Histories(l) && Timers(l) && Coupled(l) && l.disconnects == 0 && !l.idleDead
    ensures l.lcp.state.Initial? || l.lcp.state.Stopped?
  {
    hide Histories, Timers, Coupled;
  }

  lemma BeginOpens(l: Link, env: Env)
    requires !l.started
    ensures Begin(l, env, true) == EnterPhase(LcpEvent(LcpEvent(l, env, Up, NO_PACKET), env, Open, NO_PACKET),
                                              Establishment).(started := true)
  {
    hide LcpEvent;
  }

  lemma EstablishmentKeeps(l: Link)
    requires Histories(l) && Timers(l) && Coupled(l) && !l.lcp.state.Opened? && l.disconnects == 0 && !l.idleDead
    ensures LinkOk(EnterPhase(l, Establishment).(started := true))
  {
    hide HistOf, Orderly, HistoryMatches, TimersMatch;
  }

  lemma TableOpening(s: State)
    requires s.Initial? || s.Stopped?
    ensures !NextState(Open, NextState(Up, s)).Opened?
  {
  }

  lemma BooksKeep(l: Link, i: Input, env: Env)
    requires LinkOk(l) && Proper(i)
    requires i.WriteDone? || i.IdleRuns? || i.EnableAcfc? || i.EnablePfc? || i.ServerInfo?
    ensures LinkOk(Step(l, env, i))
  {
    hide HistOf, Orderly, Lcp.Generate;
  }

  // ---- After closing ----

  /** Without LCP there is no IPCP and no tunnel. */
  lemma NotUpNoTunnel(l: Link)
    requires LinkOk(l) && !l.lcp.state.Opened?
    ensures !l.net && !l.ipcp.state.Opened?
  {
    hide Histories, Timers, Resources;
  }

  lemma TableAfterClose(s: State)
    ensures !NextState(Close, s).Opened? && !NextState(Close, NextState(Down, s)).Opened?
    ensures s.Opened? ==> Transition(Close, s).Go? && SignalOf(Transition(Close, s).actions).LayerDown?
  {
  }

  /** An open link that is shut down is in its termination phase. */
  lemma ClosingState(l: Link, env: Env)
    requires LinkOk(l)
    ensures var r := ShutDown(l, env); !r.lcp.state.Opened? && (l.lcp.state.Opened? ==> r.phase.Termination?)
  {
    TableAfterClose(l.lcp.state);
    if !l.phase.Dead? && !l.phase.Termination? {
      var l1 := l.(reason := LocalClose);
      OnlyDriverKeepsReason(l, LocalClose);
      AckNotedOther(l1, LCP, Close);
      TimersKept(l1.lcp, Close, NO_PACKET);
      assert NearlyCoupled(l1);
      if l.lcp.state.Opened? {
        SignalIsTable(l1.lcp, Close, NO_PACKET);
        DownTerminates(l1, env);
      }
      hide Generate, Histories, TimersMatch, LcpEvent, Coupled, NearlyCoupled, NextState, SendsTerminateAck, AckNoted, Transition, SignalFor;
      LcpEventKeeps(l1, env, Close, NO_PACKET);
    }
  }

  lemma DownTerminates(l: Link, env: Env)
    requires SignalFor(l, LCP, Close, NO_PACKET).LayerDown?
    ensures LcpEvent(l, env, Close, NO_PACKET).phase.Termination?
  {
    hide Apply, SignalFor, IpcpAdmin, SendsTerminateAck, Lcp.Generate;
  }

  lemma LossState(l: Link, env: Env)
    requires LinkOk(l)
    ensures !IoDisconnect(l, env).lcp.state.Opened?
  {
    if !l.phase.Dead? {
      var l1 := l.(reason := LinkDead);
      OnlyDriverKeepsReason(l, LinkDead);
      LcpStays(l1, env, Down);
      var l2 := LcpEvent(l1, env, Down, NO_PACKET);
      TableAfterClose(l.lcp.state);
      AckNotedOther(l2, LCP, Close);
      TimersKept(l2.lcp, Close, NO_PACKET);
      assert NearlyCoupled(l2);
      assert IoDisconnect(l, env) == LcpEvent(l2, env, Close, NO_PACKET);
      hide Generate, Histories, TimersMatch, LcpEvent, Coupled, NearlyCoupled, NextState, SendsTerminateAck, AckNoted, Transition;
      LcpEventKeeps(l2, env, Close, NO_PACKET);
    }
  }

  // ---- Every run ----

  /** Everything that can happen to a link keeps all of it. */
  lemma StepKeeps(l: Link, env: Env, i: Input)
    requires LinkOk(l) && Proper(i)
    ensures LinkOk(Step(l, env, i))
  {
    hide LinkOk, Begin, Receive, Expired, ShutDown, IoDisconnect, StaSent, SetOption, Sound;
    match i
    case OpenLink => BeginKeeps(l, env, true);
    case Listen => BeginKeeps(l, env, false);
    case Frame(bytes) => ReceiveKeeps(l, env, bytes);
    case Expire(p, w) => ExpiredKeeps(l, env, p, w);
    case Shutdown => ShutDownKeeps(l, env);
    case IoLost => IoDisconnectKeeps(l, env);
    case _ => BooksKeep(l, i, env);
  }

  lemma NewLinkOk(isServer: bool, ip: Ipcp.Addr)
    ensures LinkOk(NewLink(isServer, ip))
  {
  }

  lemma {:induction false} RunKeeps(isServer: bool, ip: Ipcp.Addr, steps: seq<(Env, Input)>)
    requires forall i :: 0 <= i < |steps| ==> Proper(steps[i].1)
    ensures LinkOk(Run(NewLink(isServer, ip), steps))
    decreases |steps|
  {
    hide LinkOk, Step, NewLink, Proper;
    NewLinkOk(isServer, ip);
    if |steps| > 0 {
      var front, last := steps[..|steps| - 1], steps[|steps| - 1];
      assert Proper(last.1);
      RunKeeps(isServer, ip, front);
      StepKeeps(Run(NewLink(isServer, ip), front), last.0, last.1);
    }
  }

  /** After every event of every run of a client or a server: LCP is up exactly in the
      authentication, network and link-up phases; IPCP is at work exactly in the last two;
      the tunnel exists exactly while IPCP is up; no timer runs in a resting state, and the
      right one runs in every other. */
  lemma {:induction false} EveryRunCoupled(isServer: bool, ip: Ipcp.Addr, steps: seq<(Env, Input)>)
    requires forall i :: 0 <= i < |steps| ==> Proper(steps[i].1)
    ensures var l := Run(NewLink(isServer, ip), steps);
      && (l.phase.Authentication? || l.phase.Network? || l.phase.LinkUp? <==> l.lcp.state.Opened?)
      && (l.phase.Network? || l.phase.LinkUp? <==> !l.ipcp.state.Initial? && !l.ipcp.state.Starting?)
      && (l.net <==> l.ipcp.state.Opened?)
      && TimersMatch(l.lcp) && TimersMatch(l.ipcp)
  {
    hide Run, NewLink, Proper, Histories;
    RunKeeps(isServer, ip, steps);
  }

  /** In every run IPCP packets are sent only between LCP's layer-up and the following
      layer-down, and the up and down signals of each protocol alternate, up first. */
  lemma {:induction false} EveryRunOrderly(isServer: bool, ip: Ipcp.Addr, steps: seq<(Env, Input)>, i: nat)
    requires forall k :: 0 <= k < |steps| ==> Proper(steps[k].1)
    requires i < |Run(NewLink(isServer, ip), steps).log|
    ensures var log := Run(NewLink(isServer, ip), steps).log;
      && (log[i].Tx? && log[i].proto.IPCP? ==> HistOf(log[..i], LCP).up)
      && (log[i] == Sig(log[i].proto, LayerUp) ==> !HistOf(log[..i], log[i].proto).up)
      && (log[i] == Sig(log[i].proto, LayerDown) ==> HistOf(log[..i], log[i].proto).up)
  {
    hide Run, NewLink, Proper, HistOf;
    RunKeeps(isServer, ip, steps);
    var log := Run(NewLink(isServer, ip), steps).log;
    assert EntryOk(log[..i], log[i]);
  }

  /** In every run, a protocol that is opened has had its latest Configure-Request
      acknowledged under its identifier, with no newer one sent since, and has answered the
      peer's latest with an Ack; half of that holds in the half-way states. */
  lemma {:induction false} EveryRunNegotiated(isServer: bool, ip: Ipcp.Addr, steps: seq<(Env, Input)>, p: Proto)
    requires forall i :: 0 <= i < |steps| ==> Proper(steps[i].1)
    ensures var l := Run(NewLink(isServer, ip), steps); var h := HistOf(l.log, p); var s := CpOf(l, p).state;
      && (s.AckRcvd? || s.Opened? ==> h.request.Some? && h.request.value.id == CpOf(l, p).configId && h.acked)
      && (s.AckSent? || s.Opened? ==> h.agreed)
      && (h.up <==> s.Opened?)
  {
    hide Run, NewLink, Proper, HistOf, Orderly;
    RunKeeps(isServer, ip, steps);
  }

  /** In every run a datagram is handed to the tunnel only in the link-up phase, and it finds
      one there if and only if IPCP is opened: while IPCP renegotiates there is none. */
  lemma {:induction false} DatagramFindsTunnelIff(isServer: bool, ip: Ipcp.Addr, steps: seq<(Env, Input)>, frame: seq<byte>)
    requires forall i :: 0 <= i < |steps| ==> Proper(steps[i].1)
    ensures var l := Run(NewLink(isServer, ip), steps);
      HandsDatagram(l, frame) ==> l.phase.LinkUp? && (l.net <==> l.ipcp.state.Opened?)
  {
    hide Run, NewLink, Proper, Histories;
    RunKeeps(isServer, ip, steps);
  }

  // ---- The end of a link ----

  /** Once a link that was opened is dead, nothing is sent and no event occurs any more. */
  lemma DeadIsFinal(l: Link, env: Env, i: Input)
    requires LinkOk(l) && l.started && l.phase.Dead? && Proper(i)
    ensures var r := Step(l, env, i);
      r.phase.Dead? && r.log == l.log && r.lcp.state == l.lcp.state && r.ipcp.state == l.ipcp.state && r.net == l.net
  {
    hide HistOf, Orderly, Histories, Lcp.Generate, ControlPacket, LcpEvent, IpcpEvent;
    if i.Expire? && Running(CpOf(l, i.proto), i.which) {
      RestingSaysNo(l, i.proto, i.which);
    }
  }

  lemma {:induction false} DeadStaysDead(l: Link, steps: seq<(Env, Input)>)
    requires LinkOk(l) && l.started && l.phase.Dead?
    requires forall i :: 0 <= i < |steps| ==> Proper(steps[i].1)
    ensures var r := Run(l, steps);
      && LinkOk(r) && r.started && r.phase.Dead?
      && r.log == l.log && r.lcp.state == l.lcp.state && r.ipcp.state == l.ipcp.state && r.net == l.net
    decreases |steps|
  {
    hide LinkOk, Step, Proper;
    if |steps| > 0 {
      var front, last := steps[..|steps| - 1], steps[|steps| - 1];
      assert Proper(last.1);
      DeadStaysDead(l, front);
      DeadIsFinal(Run(l, front), last.0, last.1);
      StepKeeps(Run(l, front), last.0, last.1);
      StartedStays(Run(l, front), last.0, last.1);
    }
  }

  lemma StartedStays(l: Link, env: Env, i: Input)
    requires LinkOk(l) && l.started && l.phase.Dead? && Proper(i)
    ensures Step(l, env, i).started
  {
    hide HistOf, Orderly, Histories, Lcp.Generate, ControlPacket, LcpEvent, IpcpEvent;
    if i.Expire? && Running(CpOf(l, i.proto), i.which) {
      RestingSaysNo(l, i.proto, i.which);
    }
  }

  /** In every run the end is reported at most once, and only when the link is dead; a dead
      link has reported it, or is about to, from the idle loop or after its last
      Terminate-Ack. */
  lemma {:induction false} EveryRunReportsOnce(isServer: bool, ip: Ipcp.Addr, steps: seq<(Env, Input)>)
    requires forall i :: 0 <= i < |steps| ==> Proper(steps[i].1)
    ensures var l := Run(NewLink(isServer, ip), steps);
      && l.disconnects <= 1
      && (l.disconnects == 1 ==> l.started && l.phase.Dead? && !l.idleDead && !l.staPending)
      && (l.started && l.phase.Dead? && l.disconnects == 0 ==> (l.idleDead <==> !l.staPending))
  {
    hide Run, NewLink, Proper, Histories;
    RunKeeps(isServer, ip, steps);
  }

  lemma TableLost(s: State)
    ensures var t := NextState(Down, s);
      (Transition(Close, t).Go? && SignalOf(Transition(Close, t).actions).LayerFinished?)
      <==> !s.Initial? && !s.Closed? && !s.Closing?
  {
  }

  /** Losing the line ends a link that was open or negotiating; but one that is already
      being closed from our side, or was closed before it opened, is left waiting for ever:
      it becomes dead if and only if LCP was in none of those three states. */
  lemma LineLossEndsLinkIff(l: Link, env: Env)
    requires LinkOk(l) && !l.phase.Dead?
    ensures IoDisconnect(l, env).phase.Dead? <==>
            !l.lcp.state.Initial? && !l.lcp.state.Closed? && !l.lcp.state.Closing?
  {
    var l1 := l.(reason := LinkDead);
    OnlyDriverKeepsReason(l, LinkDead);
    LcpStays(l1, env, Down);
    var l2 := LcpEvent(l1, env, Down, NO_PACKET);
    TableLost(l.lcp.state);
    AckNotedOther(l2, LCP, Close);
    TimersKept(l2.lcp, Close, NO_PACKET);
    if Transition(Close, l2.lcp.state).Go? {
      SignalIsTable(l2.lcp, Close, NO_PACKET);
    }
    assert NearlyCoupled(l2);
    assert IoDisconnect(l, env) == LcpEvent(l2, env, Close, NO_PACKET);
    hide Generate, Histories, TimersMatch, LcpEvent, Coupled, NearlyCoupled, NextState, SendsTerminateAck, AckNoted, Transition;
    LcpEventKeeps(l2, env, Close, NO_PACKET);
  }

  /** In the initial state LCP takes no event but being raised and opened again. */
  lemma LcpEventInitial(l: Link, env: Env, e: Event, packet: Packet)
    requires LinkOk(l) && l.lcp.state.Initial? && !l.phase.Dead? && AckNoted(l, LCP, e)
    requires !e.Up? && !e.Open? && !e.ToPlus? && !e.ToMinus?
    ensures var r := LcpEvent(l, env, e, packet); r.lcp.state.Initial? && !r.phase.Dead? && r.started == l.started
  {
    assert Transition(e, Initial).INV? || Transition(e, Initial) == Go({}, Initial);
    assert NextState(e, Initial).Initial?;
    if Transition(e, Initial).Go? {
      SignalIsTable(l.lcp, e, packet);
    }
    assert !SignalFor(l, LCP, e, packet).LayerFinished?;
    TimersKept(l.lcp, e, packet);
    assert NearlyCoupled(l);
    hide Generate, Histories, TimersMatch, LcpEvent, Coupled, NearlyCoupled, NextState, SendsTerminateAck, AckNoted, Transition, SignalFor;
    LcpEventKeeps(l, env, e, packet);
  }

  ghost predicate Forgotten(l: Link) {
    LinkOk(l) && l.started && l.lcp.state.Initial? && !l.phase.Dead?
  }

  lemma ForgottenReceives(l: Link, env: Env, frame: seq<byte>)
    requires Forgotten(l) && Sound(frame)
    ensures var r := Receive(l, env, frame); r.lcp.state.Initial? && !r.phase.Dead? && r.started
  {
    assert !UpPhase(l.phase);
    hide LinkOk, Digest, LcpEvent, SoundInfo, PacketOf, PppOptions.WellFormed, OnlyDriver, AckNoted;
    if ParseHeader(frame).Some? && ParseHeader(frame).value.protocol == LCP_PROTOCOL {
      ForgottenPacket(l, env, frame[ParseHeader(frame).value.offset..]);
    }
  }

  lemma ForgottenPacket(l: Link, env: Env, info: seq<byte>)
    requires Forgotten(l) && SoundInfo(info)
    ensures var r := ControlPacket(l, env, LCP, info); r.lcp.state.Initial? && !r.phase.Dead? && r.started
  {
    if |info| >= 4 {
      DigestKeeps(l, LCP, PacketOf(info));
      var (r, e) := Digest(l, LCP, PacketOf(info));
      hide LinkOk, Digest, LcpEvent, PacketOf, PppOptions.WellFormed, AckNoted;
      if e.Some? {
        LcpEventInitial(r, env, e.value, PacketOf(info));
      }
    }
  }

  lemma ForgottenStep(l: Link, env: Env, i: Input)
    requires Forgotten(l) && Proper(i)
    ensures Forgotten(Step(l, env, i))
  {
    StepKeeps(l, env, i);
    AckNotedOther(l.(reason := LocalClose), LCP, Close);
    OnlyDriverKeepsReason(l, LocalClose);
    OnlyDriverKeepsReason(l, LinkDead);
    if i.Expire? && Running(CpOf(l, i.proto), i.which) {
      RestingSaysNo(l, i.proto, i.which);
    }
    hide Histories, Timers, Coupled, Resources, Receive, LcpEvent, IpcpEvent, Lcp.Generate, AckNoted;
    match i {
      case Frame(bytes) => ForgottenReceives(l, env, bytes);
      case Shutdown => LcpEventInitial(l.(reason := LocalClose), env, Close, NO_PACKET);
      case IoLost => ForgottenLoses(l, env);
      case _ =>
    }
  }

  lemma ForgottenLoses(l: Link, env: Env)
    requires Forgotten(l)
    ensures var r := IoDisconnect(l, env); r.lcp.state.Initial? && !r.phase.Dead? && r.started
  {
    var l1 := l.(reason := LinkDead);
    OnlyDriverKeepsReason(l, LinkDead);
    AckNotedOther(l1, LCP, Down);
    LcpEventOk(l1, env, Down, NO_PACKET);
    var l2 := LcpEvent(l1, env, Down, NO_PACKET);
    AckNotedOther(l2, LCP, Close);
    hide LinkOk, LcpEvent, AckNoted;
    LcpEventInitial(l1, env, Down, NO_PACKET);
    LcpEventInitial(l2, env, Close, NO_PACKET);
  }

  lemma {:induction false} ForgottenForEver(l: Link, steps: seq<(Env, Input)>)
    requires Forgotten(l) && forall i :: 0 <= i < |steps| ==> Proper(steps[i].1)
    ensures Forgotten(Run(l, steps))
    decreases |steps|
  {
    hide Forgotten, Step, Proper;
    if |steps| > 0 {
      var front, last := steps[..|steps| - 1], steps[|steps| - 1];
      assert Proper(last.1);
      ForgottenForEver(l, front);
      ForgottenStep(Run(l, front), last.0, last.1);
    }
  }

  /** When the line is lost while our own close is still unanswered, or after LCP was closed
      before it opened, the end is reported in no continuation whatever. */
  lemma {:induction false} LineLossWhileClosing(l: Link, env: Env, steps: seq<(Env, Input)>)
    requires LinkOk(l) && l.started && !l.phase.Dead?
    requires l.lcp.state.Initial? || l.lcp.state.Closed? || l.lcp.state.Closing?
    requires forall i :: 0 <= i < |steps| ==> Proper(steps[i].1)
    ensures Run(IoDisconnect(l, env), steps).disconnects == 0
  {
    IoDisconnectKeeps(l, env);
    LineLossEndsLinkIff(l, env);
    LineLossLeavesInitial(l, env);
    hide LinkOk, IoDisconnect, Run, Proper;
    ForgottenForEver(IoDisconnect(l, env), steps);
    NotReported(Run(IoDisconnect(l, env), steps));
  }

  lemma NotReported(l: Link)
    requires Forgotten(l)
    ensures l.disconnects == 0
  {
    hide Histories, Timers, Coupled;
  }

  lemma LineLossLeavesInitial(l: Link, env: Env)
    requires LinkOk(l) && l.started && !l.phase.Dead?
    requires l.lcp.state.Initial? || l.lcp.state.Closed? || l.lcp.state.Closing?
    ensures IoDisconnect(l, env).lcp.state.Initial? && IoDisconnect(l, env).started
  {
    var l1 := l.(reason := LinkDead);
    OnlyDriverKeepsReason(l, LinkDead);
    assert NextState(Down, l.lcp.state).Initial?;
    LcpStays(l1, env, Down);
    var l2 := LcpEvent(l1, env, Down, NO_PACKET);
    AckNotedOther(l2, LCP, Close);
    TimersKept(l2.lcp, Close, NO_PACKET);
    assert NextState(Close, Initial).Initial?;
    assert NearlyCoupled(l2);
    assert IoDisconnect(l, env) == LcpEvent(l2, env, Close, NO_PACKET);
    hide Generate, Histories, TimersMatch, LcpEvent, Coupled, NearlyCoupled, NextState, SendsTerminateAck, AckNoted, Transition;
    LcpEventKeeps(l2, env, Close, NO_PACKET);
  }

  // ---- Two surprises of the network phase ----

  /** A failed IPCP negotiation: the link is taken down if and only if it had not come up
      yet; a link that was up once stays in its phase, without IPCP and without a tunnel. */
  predicate FailureOutcome(l: Link, r: Link) {
    && (!UpPhase(r.phase) <==> l.phase.Network?)
    && (l.phase.LinkUp? ==> r.phase.LinkUp? && r.lcp.state.Opened? && !Asking(r.ipcp.state) && !r.net)
  }

  /** The negotiation ended by a packet of the peer. */
  lemma FailedNegotiationEndsLinkIff(l: Link, env: Env, e: Event, packet: Packet)
    requires LinkOk(l) && NetPhase(l.phase) && AckNoted(l, IPCP, e) && !Administrative(e) && !e.ToPlus? && !e.ToMinus?
    requires SignalFor(l, IPCP, e, packet).LayerFinished?
    ensures FailureOutcome(l, IpcpEvent(l, env, e, packet))
  {
    TimersKept(l.ipcp, e, packet);
    hide Generate, Histories, TimersMatch, IpcpEvent, FailureOutcome, AckNoted, SignalFor;
    FailureHandled(l, env, e, packet);
  }

  /** The negotiation ended by a timer whose counter is used up. */
  lemma TimedOutNegotiationEndsLinkIff(l: Link, env: Env, w: Which)
    requires LinkOk(l) && Running(l.ipcp, w) && TimeoutEvent(l.ipcp, w).ToMinus?
    ensures NetPhase(l.phase) && FailureOutcome(l, Expired(l, env, IPCP, w))
  {
    var f := WithCp(l, IPCP, Fired(l.ipcp, w));
    RestingSaysNo(l, IPCP, w);
    FiredNearly(l, IPCP, w);
    TimeoutKeepsTimers(l.ipcp, w);
    AckNotedOther(f, IPCP, ToMinus);
    ToMinusFinishes(Fired(l.ipcp, w), NO_PACKET);
    assert Expired(l, env, IPCP, w) == IpcpEvent(f, env, ToMinus, NO_PACKET);
    hide Generate, Histories, TimersMatch, IpcpEvent, AckNoted, Fired, TimeoutEvent;
    FailureHandled(f, env, ToMinus, NO_PACKET);
  }

  lemma ToMinusFinishes(cp: Cp, packet: Packet)
    requires !Resting(cp.state)
    ensures Generate(cp, ToMinus, packet).signal.LayerFinished?
  {
    SignalIsTable(cp, ToMinus, packet);
    hide Generate;
  }

  lemma FailureHandled(l: Link, env: Env, e: Event, packet: Packet)
    requires Histories(l) && TimersMatch(l.lcp) && TimersMatch(Generate(l.ipcp, e, packet).cp)
    requires AckNoted(l, IPCP, e) && Coupled(l) && NetPhase(l.phase) && !Administrative(e)
    requires SignalFor(l, IPCP, e, packet).LayerFinished?
    ensures FailureOutcome(l, IpcpEvent(l, env, e, packet))
  {
    hide *;
    FinishedMoves(l, env, e, packet);
    var next := Apply(l, IPCP, e, packet);
    if next.phase.Network? {
      FinishedInNetwork(next, env);
    }
    FinishedElsewhere(l, next, env);
    FailureIs(l, IpcpEvent(l, env, e, packet));
  }

  lemma FailureIs(l: Link, r: Link)
    requires NetPhase(l.phase)
    ensures FailureOutcome(l, r) <==>
      if l.phase.Network? then !UpPhase(r.phase)
      else UpPhase(r.phase) && r.phase.LinkUp? && r.lcp.state.Opened? && !Asking(r.ipcp.state) && !r.net
  {
  }

  /** IPCP has finished: what the notification starts from. */
  ghost predicate HasFinished(l: Link) {
    && Histories(l) && Timers(l) && l.lcp.state.Opened? && NetPhase(l.phase) && !l.net
    && (l.ipcp.state.Closed? || l.ipcp.state.Stopped?)
  }

  lemma FinishedMoves(l: Link, env: Env, e: Event, packet: Packet)
    requires Histories(l) && TimersMatch(l.lcp) && TimersMatch(Generate(l.ipcp, e, packet).cp)
    requires AckNoted(l, IPCP, e) && Coupled(l) && NetPhase(l.phase) && !Administrative(e)
    requires SignalFor(l, IPCP, e, packet).LayerFinished?
    ensures HasFinished(Apply(l, IPCP, e, packet)) && Apply(l, IPCP, e, packet).phase == l.phase
    ensures IpcpEvent(l, env, e, packet) == IpcpFinished(Apply(l, IPCP, e, packet), env)
  {
    IpcpMoves(l, e, packet);
    GenerateStates(l.ipcp, e, packet);
    hide Generate, Histories, HistOf, TimersMatch, IpcpFinished, Transition, AckNoted;
  }

  lemma FinishedInNetwork(l: Link, env: Env)
    requires HasFinished(l) && l.phase.Network?
    ensures !UpPhase(IpcpFinished(l, env).phase)
  {
    var l1 := l.(reason := IpcpFail);
    assert Histories(l1) && Timers(l1);
    hide Histories, Timers, HistOf, LcpEvent, IpcpAdmin;
    CloseAfterFinish(l1);
    ClosedGoesDown(IpcpAdmin(l1, Close), env);
  }

  lemma FinishedElsewhere(l: Link, next: Link, env: Env)
    requires HasFinished(next) && next.phase == l.phase
    ensures NetPhase(l.phase)
    ensures !l.phase.Network? ==>
      && IpcpFinished(next, env) == next && UpPhase(next.phase) && next.phase.LinkUp?
      && next.lcp.state.Opened? && !Asking(next.ipcp.state) && !next.net
  {
    hide Histories, Timers;
  }

  lemma ClosedGoesDown(l: Link, env: Env)
    requires Histories(l) && Timers(l) && l.lcp.state.Opened? && NearlyCoupled(l)
    ensures !UpPhase(LcpEvent(l, env, Close, NO_PACKET).phase)
  {
    LcpCloseKeeps(l, env);
    TableClose(l.lcp.state);
    TimersKept(l.lcp, Close, NO_PACKET);
    assert UpPhase(l.phase);
    hide Generate, Histories, HistOf, LcpEvent, Transition, NextState;
    LcpEventKeeps(l, env, Close, NO_PACKET);
  }

  predicate Reopens(e: Event) {
    e.RcrPlus? || e.RcrMinus? || e.Rca? || e.Rcn? || e.Rta?
  }

  lemma TableReopens(e: Event)
    requires Reopens(e)
    ensures Transition(e, Opened).Go? && SCR in Transition(e, Opened).actions && IRC !in Transition(e, Opened).actions
    ensures ZRC !in Transition(e, Opened).actions && SignalOf(Transition(e, Opened).actions).LayerDown?
  {
  }

  /** When the peer starts a new negotiation on an open IPCP, our new request still carries
      the old settings, but the driver has already fallen back to its defaults. The peer's
      Ack of exactly that request is then accepted if and only if the two are the same. */
  lemma AckAfterReopeningIff(l: Link, env: Env, e: Event, packet: Packet)
    requires LinkOk(l) && l.ipcp.state.Opened? && Reopens(e)
    ensures var r := IpcpEvent(l, env, e, packet); var h := HistOf(r.log, IPCP);
      && h.request.Some?
      && (AckMatches(r.ipcp, Packet(CONFIGURE_ACK, h.request.value.id, h.request.value.data))
          <==> l.ipcp.localOptions == Ipcp.Generate(Ipcp.Reset(l.ipcpData)))
  {
    TableReopens(e);
    SignalIsTable(l.ipcp, e, packet);
    NotedEffects(l.ipcp, HistOf(l.log, IPCP), e, packet);
    UpMeansOpened(l);
    GenerateStates(l.ipcp, e, packet);
    EventNoted(l.log, IPCP, Generate(l.ipcp, e, packet));
    assert Restarted(l.ipcp, Transition(e, Opened).actions, Transition(e, Opened).next) == l.ipcp;
    hide Generate, HistOf, Orderly, Entries, Noted, Transition, Ipcp.Generate, Ipcp.Reset, NewIdentity, Decrement, Restarted;
    assert IpcpEvent(l, env, e, packet) == IpcpDown(Apply(l, IPCP, e, packet));
  }
}
