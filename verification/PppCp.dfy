/** The option-negotiation automaton of a PPP control protocol (section 4.1 of RFC 1661)
    as one step on values: state, timers, counters, identifiers, packets sent and the
    signal raised to the layer above. */
module PppCp {
  import opened Bytes
  import opened Wrappers

  datatype State = Initial | Starting | Closed | Stopped | Closing | Stopping
                 | ReqSent | AckRcvd | AckSent | Opened

  datatype Event = Up | Down | Open | Close | ToPlus | ToMinus | RcrPlus | RcrMinus
                 | Rca | Rcn | Rtr | Rta | Ruc | RxjPlus | RxjMinus | Rxr

  datatype Action = IRC | ZRC | TLU | TLD | TLS | TLF | SCR | SCA | SCN | STR | STA | SCJ | SER

  datatype Cell = INV | Go(actions: set<Action>, next: State)

  function Pick(s: State, c0: Cell, c1: Cell, c2: Cell, c3: Cell, c4: Cell,
                c5: Cell, c6: Cell, c7: Cell, c8: Cell, c9: Cell): Cell
  {
    match s
    case Initial => c0
    case Starting => c1
    case Closed => c2
    case Stopped => c3
    case Closing => c4
    case Stopping => c5
    case ReqSent => c6
    case AckRcvd => c7
    case AckSent => c8
    case Opened => c9
  }

  /** The transition table: one row for each event, one column for each state. */
  function Transition(e: Event, s: State): Cell {
    match e
    case Up => Pick(s, Go({}, Closed), Go({IRC, SCR}, ReqSent), INV, INV, INV, INV, INV, INV, INV, INV)
    case Down => Pick(s, INV, INV, Go({}, Initial), Go({TLS}, Starting), Go({}, Initial), Go({}, Starting),
                      Go({}, Starting), Go({}, Starting), Go({}, Starting), Go({TLD}, Starting))
    case Open => Pick(s, Go({TLS}, Starting), Go({}, Starting), Go({IRC, SCR}, ReqSent), Go({}, Stopped),
                      Go({}, Stopping), Go({}, Stopping), Go({}, ReqSent), Go({}, AckRcvd), Go({}, AckSent), Go({}, Opened))
    case Close => Pick(s, Go({}, Initial), Go({TLF}, Initial), Go({}, Closed), Go({}, Closed), Go({}, Closing),
                       Go({}, Closing), Go({IRC, STR}, Closing), Go({IRC, STR}, Closing), Go({IRC, STR}, Closing),
                       Go({TLD, IRC, STR}, Closing))
    case ToPlus => Pick(s, INV, INV, INV, INV, Go({STR}, Closing), Go({STR}, Stopping), Go({SCR}, ReqSent),
                        Go({SCR}, ReqSent), Go({SCR}, AckSent), INV)
    case ToMinus => Pick(s, INV, INV, INV, INV, Go({TLF}, Closed), Go({TLF}, Stopped), Go({TLF}, Stopped),
                         Go({TLF}, Stopped), Go({TLF}, Stopped), INV)
    case RcrPlus => Pick(s, INV, INV, Go({STA}, Closed), Go({IRC, SCR, SCA}, AckSent), Go({}, Closing), Go({}, Stopping),
                         Go({SCA}, AckSent), Go({SCA, TLU}, Opened), Go({SCA}, AckSent), Go({TLD, SCR, SCA}, AckSent))
    case RcrMinus => Pick(s, INV, INV, Go({STA}, Closed), Go({IRC, SCR, SCN}, ReqSent), Go({}, Closing), Go({}, Stopping),
                          Go({SCN}, ReqSent), Go({SCN}, AckRcvd), Go({SCN}, ReqSent), Go({TLD, SCR, SCN}, ReqSent))
    case Rca => Pick(s, INV, INV, Go({STA}, Closed), Go({STA}, Stopped), Go({}, Closing), Go({}, Stopping),
                     Go({IRC}, AckRcvd), Go({SCR}, ReqSent), Go({IRC, TLU}, Opened), Go({TLD, SCR}, ReqSent))
    case Rcn => Pick(s, INV, INV, Go({STA}, Closed), Go({STA}, Stopped), Go({}, Closing), Go({}, Stopping),
                     Go({IRC, SCR}, ReqSent), Go({SCR}, ReqSent), Go({IRC, SCR}, AckSent), Go({TLD, SCR}, ReqSent))
    case Rtr => Pick(s, INV, INV, Go({STA}, Closed), Go({STA}, Stopped), Go({STA}, Closing), Go({STA}, Stopping),
                     Go({STA}, ReqSent), Go({STA}, ReqSent), Go({STA}, ReqSent), Go({TLD, ZRC, STA}, Stopping))
    case Rta => Pick(s, INV, INV, Go({}, Closed), Go({}, Stopped), Go({TLF}, Closed), Go({TLF}, Stopped),
                     Go({}, ReqSent), Go({}, ReqSent), Go({}, AckSent), Go({TLD, SCR}, ReqSent))
    case Ruc => Pick(s, INV, INV, Go({SCJ}, Closed), Go({SCJ}, Stopped), Go({SCJ}, Closing), Go({SCJ}, Stopping),
                     Go({SCJ}, ReqSent), Go({SCJ}, AckRcvd), Go({SCJ}, AckSent), Go({SCJ}, Opened))
    case RxjPlus => Pick(s, INV, INV, Go({}, Closed), Go({}, Stopped), Go({}, Closing), Go({}, Stopping),
                         Go({}, ReqSent), Go({}, ReqSent), Go({}, AckSent), Go({}, Opened))
    case RxjMinus => Pick(s, INV, INV, Go({TLF}, Closed), Go({TLF}, Stopped), Go({TLF}, Closed), Go({TLF}, Stopped),
                          Go({TLF}, Stopped), Go({TLF}, Stopped), Go({TLF}, Stopped), Go({TLD, IRC, STR}, Stopping))
    case Rxr => Pick(s, INV, INV, Go({}, Closed), Go({}, Stopped), Go({}, Closing), Go({}, Stopping),
                     Go({}, ReqSent), Go({}, AckRcvd), Go({}, AckSent), Go({SER}, Opened))
  }

  const MAX_TERMINATE: uint32 := 2
  const MAX_CONFIGURE: uint32 := 10

  const CONFIGURE_REQUEST: byte := 1
  const CONFIGURE_ACK: byte := 2
  const CONFIGURE_NAK: byte := 3
  const CONFIGURE_REJECT: byte := 4
  const TERMINATE_REQUEST: byte := 5
  const TERMINATE_ACK: byte := 6
  const CODE_REJECT: byte := 7
  const PROTOCOL_REJECT: byte := 8
  const ECHO_REQUEST: byte := 9
  const ECHO_REPLY: byte := 10
  const DISCARD_REQUEST: byte := 11

  datatype Packet = Packet(code: byte, id: byte, data: seq<byte>)

  const NO_PACKET: Packet := Packet(0, 0, [])

  /** The bytes of a packet: code, identifier, 16-bit length, data. */
  function PacketBytes(p: Packet): seq<byte> {
    var n := (|p.data| + 4) % 0x1_0000;
    [p.code, p.id, n / 256, n % 256] + p.data
  }

  datatype Timer = Timer(counter: uint32, running: bool)

  datatype Cp = Cp(state: State, config: Timer, term: Timer, maxFailure: uint32, failures: uint32,
                   configId: byte, termId: byte, rejectId: byte,
                   localOptions: seq<byte>, peerOptions: seq<byte>, sendReject: bool)

  datatype Signal = Quiet | LayerStarted | LayerUp | LayerDown | LayerFinished

  /** What one event does: the new automaton, the packets sent, and the signal raised. */
  datatype Outcome = Outcome(cp: Cp, sent: seq<Packet>, signal: Signal)

  function NewIdentity(prev: byte): byte {
    (prev + 1) % 256
  }

  function Decrement(n: uint32): uint32 {
    if n == 0 then TWO32 - 1 else n - 1
  }

  function New(dormant: bool, maxFailure: uint32, options: seq<byte>): Cp {
    Cp(if dormant then Stopped else Initial, Timer(0, false), Timer(0, false),
       maxFailure, 0, 0, 0, 0, options, [], false)
  }

  function InitRestart(cp: Cp, next: State): Cp {
    if next.Closing? || next.Stopping? then cp.(term := cp.term.(counter := MAX_TERMINATE))
    else cp.(config := cp.config.(counter := MAX_CONFIGURE))
  }

  /** A first request takes a new identifier, a retransmission keeps it. */
  function RequestSent(cp: Cp): Cp {
    cp.(configId := if cp.config.counter == MAX_CONFIGURE then NewIdentity(cp.configId) else cp.configId,
        config := Timer(Decrement(cp.config.counter), true))
  }

  function Request(cp: Cp): Packet {
    Packet(CONFIGURE_REQUEST, RequestSent(cp).configId, cp.localOptions)
  }

  function Nak(cp: Cp, request: Packet): Packet {
    if cp.failures >= cp.maxFailure then Packet(CONFIGURE_REJECT, request.id, request.data)
    else Packet(if cp.sendReject then CONFIGURE_REJECT else CONFIGURE_NAK, request.id, cp.peerOptions)
  }

  function NakSent(cp: Cp): Cp {
    cp.(failures := if cp.failures >= cp.maxFailure || cp.sendReject then cp.failures
                    else (cp.failures + 1) % TWO32,
        peerOptions := [])
  }

  function TerminateSent(cp: Cp): Cp {
    cp.(termId := if cp.term.counter == MAX_TERMINATE then NewIdentity(cp.termId) else cp.termId,
        term := Timer(Decrement(cp.term.counter), true))
  }

  /** The states in which no timeout can occur. */
  predicate Resting(s: State) {
    s.Initial? || s.Starting? || s.Closed? || s.Stopped? || s.Opened?
  }

  predicate Negotiating(s: State) {
    s.ReqSent? || s.AckRcvd? || s.AckSent?
  }

  predicate Terminating(s: State) {
    s.Closing? || s.Stopping?
  }

  function Transited(cp: Cp, next: State): Cp {
    var c := if Resting(next)
             then cp.(config := cp.config.(running := false), term := cp.term.(running := false))
             else cp;
    c.(state := next)
  }

  function SignalOf(a: set<Action>): Signal {
    if TLS in a then LayerStarted
    else if TLU in a then LayerUp
    else if TLD in a then LayerDown
    else if TLF in a then LayerFinished
    else Quiet
  }

  function Restarted(cp: Cp, a: set<Action>, next: State): Cp {
    if IRC in a then InitRestart(cp, next)
    else if ZRC in a then cp.(term := cp.term.(counter := 0))
    else cp
  }

  function AfterRequest(cp: Cp, a: set<Action>): Cp {
    if SCR in a then RequestSent(cp) else cp
  }

  function Requests(cp: Cp, a: set<Action>): seq<Packet> {
    if SCR in a then [Request(cp)] else []
  }

  function AfterReply(cp: Cp, a: set<Action>): Cp {
    if SCA in a then cp.(failures := 0) else if SCN in a then NakSent(cp) else cp
  }

  function Replies(cp: Cp, a: set<Action>, packet: Packet): seq<Packet> {
    if SCA in a then [Packet(CONFIGURE_ACK, packet.id, packet.data)]
    else if SCN in a then [Nak(cp, packet)]
    else []
  }

  function AfterTerminate(cp: Cp, a: set<Action>): Cp {
    if STR in a then TerminateSent(cp)
    else if STA in a then cp.(term := cp.term.(running := true))
    else cp
  }

  function Terminates(cp: Cp, a: set<Action>, packet: Packet): seq<Packet> {
    if STR in a then [Packet(TERMINATE_REQUEST, TerminateSent(cp).termId, [])]
    else if STA in a then [Packet(TERMINATE_ACK, packet.id, [])]
    else []
  }

  function Others(cp: Cp, a: set<Action>, packet: Packet): seq<Packet> {
    (if SCJ in a then [Packet(CODE_REJECT, NewIdentity(cp.rejectId), PacketBytes(packet))] else []) +
    (if SER in a then [Packet(ECHO_REPLY, packet.id, [0, 0, 0, 0])] else [])
  }

  /** One event of the automaton. An event the table marks illegal changes nothing. */
  function Generate(cp: Cp, e: Event, packet: Packet): Outcome {
    match Transition(e, cp.state)
    case INV => Outcome(cp, [], Quiet)
    case Go(a, next) =>
      var c0 := Restarted(cp, a, next);
      var c1 := AfterRequest(c0, a);
      var c2 := AfterReply(c1, a);
      var c3 := AfterTerminate(c2, a);
      Outcome(Transited(c3, next),
              Requests(c0, a) + Replies(c1, a, packet) + Terminates(c2, a, packet) + Others(c3, a, packet),
              SignalOf(a))
  }

  // ---- What each stage of an event changes ----

  lemma RestartedIs(cp: Cp, a: set<Action>, next: State)
    ensures var r := Restarted(cp, a, next);
      && r == cp.(config := r.config, term := r.term)
      && r.config == Timer(if IRC in a && !Terminating(next) then MAX_CONFIGURE else cp.config.counter, cp.config.running)
      && r.term == Timer(if IRC in a then (if Terminating(next) then MAX_TERMINATE else cp.term.counter)
                         else if ZRC in a then 0 else cp.term.counter, cp.term.running)
  {
  }

  lemma RequestStage(cp: Cp, a: set<Action>)
    ensures var r := AfterRequest(cp, a);
      && r == cp.(configId := r.configId, config := r.config)
      && r.configId == (if SCR in a && cp.config.counter == MAX_CONFIGURE then NewIdentity(cp.configId) else cp.configId)
      && r.config == if SCR in a then Timer(Decrement(cp.config.counter), true) else cp.config
  {
  }

  lemma ReplyStage(cp: Cp, a: set<Action>)
    ensures var r := AfterReply(cp, a);
      && r == cp.(failures := r.failures, peerOptions := r.peerOptions)
      && (SCN !in a ==> r.failures == if SCA in a then 0 else cp.failures)
  {
  }

  lemma TerminateStage(cp: Cp, a: set<Action>)
    ensures var r := AfterTerminate(cp, a);
      && r == cp.(termId := r.termId, term := r.term)
      && r.term == Timer(if STR in a then Decrement(cp.term.counter) else cp.term.counter,
                         STR in a || STA in a || cp.term.running)
  {
  }

  lemma TransitStage(cp: Cp, next: State)
    ensures Transited(cp, next) ==
      cp.(state := next, config := cp.config.(running := !Resting(next) && cp.config.running),
          term := cp.term.(running := !Resting(next) && cp.term.running))
  {
  }

  /** What one event does to an automaton, by the actions of its cell. */
  lemma EventEffects(cp: Cp, e: Event, packet: Packet)
    requires Transition(e, cp.state).Go?
    ensures var Go(a, next) := Transition(e, cp.state); var r := Generate(cp, e, packet);
      var asks := if IRC in a && !Terminating(next) then MAX_CONFIGURE else cp.config.counter;
      var ends := if IRC in a then (if Terminating(next) then MAX_TERMINATE else cp.term.counter)
                  else if ZRC in a then 0 else cp.term.counter;
      && r.cp.state == next && r.signal == SignalOf(a)
      && r.cp.localOptions == cp.localOptions && r.cp.maxFailure == cp.maxFailure && r.cp.rejectId == cp.rejectId
      && (SCN !in a ==> r.cp.failures == if SCA in a then 0 else cp.failures)
      && r.cp.configId == (if SCR in a && asks == MAX_CONFIGURE then NewIdentity(cp.configId) else cp.configId)
      && r.cp.config == Timer(if SCR in a then Decrement(asks) else asks, !Resting(next) && (SCR in a || cp.config.running))
      && r.cp.term == Timer(if STR in a then Decrement(ends) else ends,
                            !Resting(next) && (STR in a || STA in a || cp.term.running))
  {
    hide Transition, SignalOf, Decrement, NewIdentity, Resting, Terminating, Requests, Replies, Terminates, Others;
    hide Restarted, AfterRequest, AfterReply, AfterTerminate, Transited;
    var Go(a, next) := Transition(e, cp.state);
    var c0 := Restarted(cp, a, next);
    var c1 := AfterRequest(c0, a);
    var c2 := AfterReply(c1, a);
    RestartedIs(cp, a, next);
    RequestStage(c0, a);
    ReplyStage(c1, a);
    TerminateStage(c2, a);
    TransitStage(AfterTerminate(c2, a), next);
  }

  // ---- Timers match states ----

  /** Timers run exactly where timeouts are legal events. */
  predicate TimersMatch(cp: Cp) {
    && (Resting(cp.state) ==> !cp.config.running && !cp.term.running)
    && (Negotiating(cp.state) ==> cp.config.running)
    && (Terminating(cp.state) ==> cp.term.running)
  }

  lemma TableTimers(e: Event, s: State)
    requires Transition(e, s).Go?
    ensures var Go(a, next) := Transition(e, s);
      && (Negotiating(next) ==> SCR in a || (Negotiating(s) && !e.ToPlus? && !e.ToMinus?))
      && (Terminating(next) ==> STR in a || STA in a || (Terminating(s) && !e.ToPlus? && !e.ToMinus?))
  {
  }

  lemma TimerEffects(cp: Cp, e: Event, packet: Packet)
    requires Transition(e, cp.state).Go?
    ensures var Go(a, next) := Transition(e, cp.state); var r := Generate(cp, e, packet);
      && r.cp.state == next && r.signal == SignalOf(a)
      && r.cp.config.running == (!Resting(next) && (SCR in a || cp.config.running))
      && r.cp.term.running == (!Resting(next) && (STR in a || STA in a || cp.term.running))
  {
    hide Generate, Transition, SignalOf, Decrement, NewIdentity, Resting;
    EventEffects(cp, e, packet);
  }

  lemma TimersKept(cp: Cp, e: Event, packet: Packet)
    requires TimersMatch(cp) && !e.ToPlus? && !e.ToMinus?
    ensures TimersMatch(Generate(cp, e, packet).cp)
  {
    if Transition(e, cp.state).Go? {
      TableTimers(e, cp.state);
      TimerEffects(cp, e, packet);
    }
  }

  datatype Which = ConfigTimer | TermTimer

  predicate Running(cp: Cp, w: Which) {
    if w.ConfigTimer? then cp.config.running else cp.term.running
  }

  /** The timer that fires has stopped; what it raises depends on its counter. */
  function Fired(cp: Cp, w: Which): Cp {
    if w.ConfigTimer? then cp.(config := cp.config.(running := false))
    else cp.(term := cp.term.(running := false))
  }

  function TimeoutEvent(cp: Cp, w: Which): Event {
    if (if w.ConfigTimer? then cp.config.counter else cp.term.counter) > 0 then ToPlus else ToMinus
  }

  function Timeout(cp: Cp, w: Which): Outcome {
    Generate(Fired(cp, w), TimeoutEvent(cp, w), NO_PACKET)
  }

  /** A timer that is running never raises an illegal event. */
  lemma TimeoutKeepsTimers(cp: Cp, w: Which)
    requires TimersMatch(cp) && Running(cp, w)
    ensures Transition(TimeoutEvent(cp, w), cp.state).Go?
    ensures TimersMatch(Timeout(cp, w).cp)
  {
    TableTimeouts(TimeoutEvent(cp, w), cp.state);
    TableTimers(TimeoutEvent(cp, w), cp.state);
    TimerEffects(Fired(cp, w), TimeoutEvent(cp, w), NO_PACKET);
  }

  lemma TableTimeouts(e: Event, s: State)
    requires e.ToPlus? || e.ToMinus?
    ensures Transition(e, s).Go? <==> !Resting(s)
  {
  }

  // ---- What has been agreed ----

  /** The negotiation as an onlooker sees it: whether the layer above was told it is up,
      the latest Configure-Request sent, whether an Ack for it has been accepted since,
      and whether the latest reply sent to the peer was an Ack. */
  datatype Hist = Hist(up: bool, request: Option<Packet>, acked: bool, agreed: bool)

  const NO_HISTORY: Hist := Hist(false, None, false, false)

  function NoteSent(h: Hist, p: Packet): Hist {
    if p.code == CONFIGURE_REQUEST then h.(request := Some(p), acked := false)
    else if p.code == CONFIGURE_ACK then h.(agreed := true)
    else if p.code == CONFIGURE_NAK || p.code == CONFIGURE_REJECT then h.(agreed := false)
    else h
  }

  function NoteAck(h: Hist, ack: Packet): Hist {
    h.(acked := h.request.Some? && ack.id == h.request.value.id)
  }

  function NoteSignal(h: Hist, s: Signal): Hist {
    match s
    case LayerUp => h.(up := true)
    case LayerDown => h.(up := false)
    case _ => h
  }

  function NoteAllSent(h: Hist, sent: seq<Packet>): Hist
    decreases |sent|
  {
    if |sent| == 0 then h
    else NoteSent(NoteAllSent(h, sent[..|sent| - 1]), sent[|sent| - 1])
  }

  function Noted(h: Hist, r: Outcome): Hist {
    NoteSignal(NoteAllSent(h, r.sent), r.signal)
  }

  predicate Asking(s: State) {
    Negotiating(s) || s.Opened?
  }

  /** What each state says about the negotiation so far (section 4.2 of RFC 1661). */
  predicate HistoryMatches(cp: Cp, h: Hist) {
    && (h.up <==> cp.state.Opened?)
    && (Asking(cp.state) ==> h.request.Some? && h.request.value.id == cp.configId)
    && (cp.state.AckRcvd? || cp.state.Opened? ==> h.acked)
    && (cp.state.AckSent? || cp.state.Opened? ==> h.agreed)
  }

  lemma TableHistory(e: Event, s: State)
    requires Transition(e, s).Go?
    ensures var Go(a, next) := Transition(e, s);
      && (Asking(next) ==> SCR in a || Asking(s))
      && (next.AckRcvd? || next.Opened? ==> SCR !in a && (s.AckRcvd? || s.Opened? || (e.Rca? && Asking(s))))
      && (next.AckSent? || next.Opened? ==> SCA in a || (SCN !in a && (s.AckSent? || s.Opened?)))
  {
  }

  /** The layer above hears of every arrival in and every departure from Opened, and of the
      end of a negotiation only when none is going on any more. */
  lemma TableSignals(e: Event, s: State)
    requires Transition(e, s).Go?
    ensures var Go(a, next) := Transition(e, s);
      && (SignalOf(a).LayerUp? <==> next.Opened? && !s.Opened?)
      && (SignalOf(a).LayerDown? <==> s.Opened? && !next.Opened?)
      && (SignalOf(a).LayerFinished? ==> next.Initial? || next.Closed? || next.Stopped?)
      && (SignalOf(a).LayerStarted? ==> next.Starting?)
  {
    TableEnds(e, s);
    var Go(a, next) := Transition(e, s);
    if e.Up? || e.Down? || e.Open? || e.Close? || e.ToPlus? || e.ToMinus? || e.RcrPlus? || e.RcrMinus? {
      TableUpsDowns(e, s);
    } else {
      TableUpsDownsReceived(e, s);
    }
    hide Transition;
  }

  lemma TableEnds(e: Event, s: State)
    requires Transition(e, s).Go?
    ensures var Go(a, next) := Transition(e, s);
      && (SignalOf(a).LayerFinished? ==> next.Initial? || next.Closed? || next.Stopped?)
      && (SignalOf(a).LayerStarted? ==> next.Starting?)
  {
  }

  lemma TableUpsDowns(e: Event, s: State)
    requires Transition(e, s).Go?
    requires e.Up? || e.Down? || e.Open? || e.Close? || e.ToPlus? || e.ToMinus? || e.RcrPlus? || e.RcrMinus?
    ensures var Go(a, next) := Transition(e, s);
      && (SignalOf(a).LayerUp? <==> next.Opened? && !s.Opened?)
      && (SignalOf(a).LayerDown? <==> s.Opened? && !next.Opened?)
  {
  }

  lemma TableUpsDownsReceived(e: Event, s: State)
    requires Transition(e, s).Go?
    requires !(e.Up? || e.Down? || e.Open? || e.Close? || e.ToPlus? || e.ToMinus? || e.RcrPlus? || e.RcrMinus?)
    ensures var Go(a, next) := Transition(e, s);
      && (SignalOf(a).LayerUp? <==> next.Opened? && !s.Opened?)
      && (SignalOf(a).LayerDown? <==> s.Opened? && !next.Opened?)
  {
  }

  lemma {:induction false} NoteOne(h: Hist, p: Packet)
    ensures NoteAllSent(h, [p]) == NoteSent(h, p) && NoteAllSent(h, []) == h
  {
    assert [p][..0] == [];
  }

  lemma {:induction false} NoteAppend(h: Hist, a: seq<Packet>, b: seq<Packet>)
    ensures NoteAllSent(h, a + b) == NoteAllSent(NoteAllSent(h, a), b)
    decreases |b|
  {
    hide NoteSent;
    if |b| == 0 {
      assert a + b == a;
    } else {
      assert (a + b)[..|a + b| - 1] == a + b[..|b| - 1];
      NoteAppend(h, a, b[..|b| - 1]);
    }
  }

  lemma {:induction false} NoteOthers(h: Hist, sent: seq<Packet>)
    requires forall i :: 0 <= i < |sent| ==> sent[i].code == 0 || sent[i].code > 4
    ensures NoteAllSent(h, sent) == h
    decreases |sent|
  {
    if |sent| > 0 {
      NoteOthers(h, sent[..|sent| - 1]);
    }
  }

  lemma {:induction false} NoteRequests(h: Hist, cp: Cp, a: set<Action>)
    ensures NoteAllSent(h, Requests(cp, a)) ==
            if SCR in a then h.(request := Some(Request(cp)), acked := false) else h
  {
    NoteOne(h, Request(cp));
  }

  lemma {:induction false} NoteReplies(h: Hist, cp: Cp, a: set<Action>, packet: Packet)
    ensures NoteAllSent(h, Replies(cp, a, packet)) ==
            if SCA in a then h.(agreed := true) else if SCN in a then h.(agreed := false) else h
  {
    NoteOne(h, Packet(CONFIGURE_ACK, packet.id, packet.data));
    NoteOne(h, Nak(cp, packet));
  }

  lemma {:induction false} NoteTail(h: Hist, c2: Cp, c3: Cp, a: set<Action>, packet: Packet)
    ensures NoteAllSent(h, Terminates(c2, a, packet)) == h
    ensures NoteAllSent(h, Others(c3, a, packet)) == h
  {
    NoteOthers(h, Terminates(c2, a, packet));
    NoteOthers(h, Others(c3, a, packet));
  }

  lemma {:induction false} NotedSent(h: Hist, c0: Cp, c1: Cp, c2: Cp, c3: Cp, a: set<Action>, packet: Packet)
    ensures var n := NoteAllSent(h, Requests(c0, a) + Replies(c1, a, packet) + Terminates(c2, a, packet) + Others(c3, a, packet));
      && n.request == (if SCR in a then Some(Request(c0)) else h.request)
      && n.acked == (SCR !in a && h.acked)
      && n.agreed == (if SCA in a then true else if SCN in a then false else h.agreed)
      && n.up == h.up
  {
    hide Requests, Replies, Terminates, Others, NoteAllSent, Request, Nak;
    var s1, s2 := Requests(c0, a), Replies(c1, a, packet);
    var s3, s4 := Terminates(c2, a, packet), Others(c3, a, packet);
    NoteAppend(h, s1 + s2 + s3, s4);
    NoteAppend(h, s1 + s2, s3);
    NoteAppend(h, s1, s2);
    NoteRequests(h, c0, a);
    NoteReplies(NoteAllSent(h, s1), c1, a, packet);
    NoteTail(NoteAllSent(h, s1 + s2), c2, c3, a, packet);
  }

  /** What one event adds to the history, by the actions it takes. */
  lemma NotedEffects(cp: Cp, h: Hist, e: Event, packet: Packet)
    requires Transition(e, cp.state).Go?
    ensures var Go(a, next) := Transition(e, cp.state); var r := Generate(cp, e, packet); var n := Noted(h, r);
      && r.cp.state == next && r.signal == SignalOf(a)
      && n.request == (if SCR in a then Some(Request(Restarted(cp, a, next))) else h.request)
      && n.acked == (SCR !in a && h.acked)
      && n.agreed == (if SCA in a then true else if SCN in a then false else h.agreed)
      && n.up == (if r.signal.LayerUp? then true else if r.signal.LayerDown? then false else h.up)
      && r.cp.configId == (if SCR in a then Request(Restarted(cp, a, next)).id else cp.configId)
  {
    var Go(a, next) := Transition(e, cp.state);
    var c0 := Restarted(cp, a, next);
    var c1 := AfterRequest(c0, a);
    var c2 := AfterReply(c1, a);
    IdsKept(c1, a, next);
    RestartKeepsIds(cp, a, next);
    hide Transition, SignalOf, Requests, Replies, Terminates, Others, Restarted, AfterReply, AfterTerminate;
    hide NoteAllSent, Decrement, NewIdentity, Resting, NoteSent, Nak;
    NotedSent(h, c0, c1, c2, AfterTerminate(c2, a), a, packet);
  }

  lemma RestartKeepsIds(cp: Cp, a: set<Action>, next: State)
    ensures Restarted(cp, a, next).configId == cp.configId
  {
  }

  lemma IdsKept(c1: Cp, a: set<Action>, next: State)
    ensures Transited(AfterTerminate(AfterReply(c1, a), a), next).configId == c1.configId
  {
  }

  /** Every event keeps the history in line with the state. An Ack event may only be raised
      for an Ack that was noted. */
  lemma HistoryKept(cp: Cp, h: Hist, e: Event, packet: Packet)
    requires HistoryMatches(cp, h)
    requires e.Rca? && Asking(cp.state) ==> h.acked
    ensures HistoryMatches(Generate(cp, e, packet).cp, Noted(h, Generate(cp, e, packet)))
  {
    if Transition(e, cp.state).Go? {
      TableHistory(e, cp.state);
      TableSignals(e, cp.state);
      NotedEffects(cp, h, e, packet);
      hide Transition, Noted, Generate;
    } else {
      assert NoteAllSent(h, []) == h;
    }
  }
}
