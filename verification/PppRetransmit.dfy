/** Restart counters of a control protocol: how long it keeps asking. */
module PppRetransmit {
  import opened Bytes
  import opened PppCp

  // ---- A silent peer ----

  /** A stretch of timeouts of one timer: what was sent and what was signalled. */
  datatype Elapsed = Elapsed(cp: Cp, sent: seq<Packet>, signals: seq<Signal>)

  function Elapse(cp: Cp, w: Which, n: nat): Elapsed {
    if n == 0 then Elapsed(cp, [], [])
    else
      var before := Elapse(cp, w, n - 1);
      var r := Timeout(before.cp, w);
      Elapsed(r.cp, before.sent + r.sent, before.signals + [r.signal])
  }

  function Repeat<T>(x: T, n: nat): (s: seq<T>)
    ensures |s| == n
  {
    seq(n, _ => x)
  }

  lemma RepeatSnoc<T>(x: T, n: nat)
    ensures Repeat(x, n) + [x] == Repeat(x, n + 1)
  {
  }

  predicate Waiting(cp: Cp, w: Which) {
    if w.ConfigTimer? then Negotiating(cp.state) && cp.config.running && !cp.term.running
    else Terminating(cp.state) && cp.term.running && !cp.config.running
  }

  function Left(cp: Cp, w: Which): uint32 {
    if w.ConfigTimer? then cp.config.counter else cp.term.counter
  }

  /** The packet the next timeout with a positive counter sends. */
  function Again(cp: Cp, w: Which): Packet {
    if w.ConfigTimer? then Request(cp) else Packet(TERMINATE_REQUEST, TerminateSent(cp).termId, [])
  }

  /** Where the automaton ends when it gives up. */
  function Abandoned(s: State): State {
    if s.Closing? then Closed else Stopped
  }

  lemma RetransmitCell(cp: Cp, w: Which)
    requires Waiting(cp, w)
    ensures Transition(ToPlus, cp.state) ==
      if w.ConfigTimer? then Go({SCR}, if cp.state.AckSent? then AckSent else ReqSent) else Go({STR}, cp.state)
  {
  }

  lemma RequestAgain(cp: Cp)
    requires Waiting(cp, ConfigTimer) && 0 < cp.config.counter <= MAX_CONFIGURE
    ensures var r := Timeout(cp, ConfigTimer);
      && Waiting(r.cp, ConfigTimer) && Left(r.cp, ConfigTimer) == Left(cp, ConfigTimer) - 1
      && r.sent == [Request(cp)] && r.signal == Quiet && Request(r.cp) == Request(cp)
  {
    RetransmitCell(cp, ConfigTimer);
    hide Transition, NewIdentity;
  }

  lemma TerminateAgain(cp: Cp)
    requires Waiting(cp, TermTimer) && 0 < cp.term.counter <= MAX_TERMINATE
    ensures var r := Timeout(cp, TermTimer);
      && Waiting(r.cp, TermTimer) && Left(r.cp, TermTimer) == Left(cp, TermTimer) - 1
      && r.sent == [Again(cp, TermTimer)] && r.signal == Quiet && Again(r.cp, TermTimer) == Again(cp, TermTimer)
      && r.cp.state == cp.state
  {
    RetransmitCell(cp, TermTimer);
    hide Transition, NewIdentity;
  }

  lemma RetransmitOnce(cp: Cp, w: Which)
    requires Waiting(cp, w) && Left(cp, w) > 0
    requires Left(cp, w) <= if w.ConfigTimer? then MAX_CONFIGURE else MAX_TERMINATE
    ensures var r := Timeout(cp, w);
      && Waiting(r.cp, w) && Left(r.cp, w) == Left(cp, w) - 1
      && r.sent == [Again(cp, w)] && r.signal == Quiet
      && Again(r.cp, w) == Again(cp, w)
      && Abandoned(r.cp.state) == Abandoned(cp.state)
  {
    hide Timeout, Request, TerminateSent;
    if w.ConfigTimer? {
      RequestAgain(cp);
    } else {
      TerminateAgain(cp);
    }
  }

  lemma GiveUp(cp: Cp, w: Which)
    requires Waiting(cp, w) && Left(cp, w) == 0
    ensures var r := Timeout(cp, w);
      && r.cp.state == Abandoned(cp.state) && !r.cp.config.running && !r.cp.term.running
      && r.sent == [] && r.signal == LayerFinished
  {
  }

  lemma {:induction false} Retransmissions(cp: Cp, w: Which, n: nat)
    requires Waiting(cp, w) && n <= Left(cp, w)
    requires Left(cp, w) <= if w.ConfigTimer? then MAX_CONFIGURE else MAX_TERMINATE
    ensures var e := Elapse(cp, w, n);
      && Waiting(e.cp, w) && Left(e.cp, w) == Left(cp, w) - n
      && e.sent == Repeat(Again(cp, w), n) && e.signals == Repeat(Quiet, n)
      && Again(e.cp, w) == Again(cp, w)
      && Abandoned(e.cp.state) == Abandoned(cp.state)
    decreases n
  {
    hide Timeout, Again, Waiting;
    if n > 0 {
      Retransmissions(cp, w, n - 1);
      RetransmitOnce(Elapse(cp, w, n - 1).cp, w);
      RepeatSnoc(Again(cp, w), n - 1);
      RepeatSnoc(Quiet, n - 1);
    }
  }

  /** Once the peer falls silent, exactly counter + 1 timeouts end the exchange: the counter
      says how often the same packet is sent again, and the last timeout stops every timer
      and reports the layer finished, once. */
  lemma SilenceEnds(cp: Cp, w: Which)
    requires Waiting(cp, w)
    requires Left(cp, w) <= if w.ConfigTimer? then MAX_CONFIGURE else MAX_TERMINATE
    ensures var n := Left(cp, w); var e := Elapse(cp, w, n + 1);
      && e.cp.state == Abandoned(cp.state) && !e.cp.config.running && !e.cp.term.running
      && e.sent == Repeat(Again(cp, w), n)
      && e.signals == Repeat(Quiet, n) + [LayerFinished]
  {
    hide Timeout, Again, Waiting;
    var n := Left(cp, w);
    Retransmissions(cp, w, n);
    GiveUp(Elapse(cp, w, n).cp, w);
    assert Elapse(cp, w, n + 1).sent == Elapse(cp, w, n).sent + [];
  }

  /** Where a negotiation is started from our side. */
  predicate Starts(e: Event, s: State) {
    (e.Open? && s.Closed?) || (e.Up? && s.Starting?)
  }

  lemma FirstRequest(cp: Cp, e: Event, packet: Packet)
    requires Starts(e, cp.state) && !cp.config.running && !cp.term.running
    ensures var r := Generate(cp, e, packet); var request := Packet(CONFIGURE_REQUEST, NewIdentity(cp.configId), cp.localOptions);
      && r.sent == [request] && Waiting(r.cp, ConfigTimer) && r.cp.state.ReqSent?
      && Left(r.cp, ConfigTimer) == MAX_CONFIGURE - 1 && Again(r.cp, ConfigTimer) == request
  {
    assert Transition(e, cp.state) == Go({IRC, SCR}, ReqSent);
    hide Transition, NewIdentity;
  }

  /** A counter set to its maximum means: a negotiation nobody answers sends the same request
      ten times in all, under a new identifier, and is then given up. */
  lemma {:induction false} AskedTenTimes(cp: Cp, e: Event, packet: Packet)
    requires Starts(e, cp.state) && !cp.config.running && !cp.term.running
    ensures var r := Generate(cp, e, packet); var silence := Elapse(r.cp, ConfigTimer, 10);
      && r.sent + silence.sent == Repeat(Packet(CONFIGURE_REQUEST, NewIdentity(cp.configId), cp.localOptions), 10)
      && silence.cp.state.Stopped? && !silence.cp.config.running && !silence.cp.term.running
      && silence.signals == Repeat(Quiet, 9) + [LayerFinished]
  {
    FirstRequest(cp, e, packet);
    hide Transition, Generate, Waiting, Again, NewIdentity, Elapse, Starts;
    SilenceEnds(Generate(cp, e, packet).cp, ConfigTimer);
  }

  lemma FirstTerminate(cp: Cp, packet: Packet)
    requires cp.state.Opened? && !cp.config.running && !cp.term.running
    ensures var r := Generate(cp, Close, packet); var request := Packet(TERMINATE_REQUEST, NewIdentity(cp.termId), []);
      && r.sent == [request] && Waiting(r.cp, TermTimer) && r.cp.state.Closing?
      && Left(r.cp, TermTimer) == MAX_TERMINATE - 1 && Again(r.cp, TermTimer) == request
  {
    assert Transition(Close, cp.state) == Go({TLD, IRC, STR}, Closing);
    hide Transition, NewIdentity;
  }

  /** Likewise closing an open protocol tells a silent peer twice. */
  lemma {:induction false} ToldTwice(cp: Cp, packet: Packet)
    requires cp.state.Opened? && !cp.config.running && !cp.term.running
    ensures var r := Generate(cp, Close, packet); var silence := Elapse(r.cp, TermTimer, 2);
      && r.sent + silence.sent == Repeat(Packet(TERMINATE_REQUEST, NewIdentity(cp.termId), []), 2)
      && silence.cp.state.Closed? && silence.signals == [Quiet, LayerFinished]
  {
    FirstTerminate(cp, packet);
    hide Transition, Generate, Waiting, Again, NewIdentity, Elapse;
    SilenceEnds(Generate(cp, Close, packet).cp, TermTimer);
  }

  // ---- Whole runs ----

  /** What can happen to one automaton: an event from outside, a timer going off, or its
      driver exchanging the option lists. */
  datatype Occurrence =
    | Happens(e: Event, packet: Packet)
    | Expires(w: Which)
    | Options(local: seq<byte>, peer: seq<byte>, reject: bool)

  function Occur(cp: Cp, o: Occurrence): Cp {
    match o
    case Happens(e, packet) => if e.ToPlus? || e.ToMinus? then cp else Generate(cp, e, packet).cp
    case Expires(w) => if Running(cp, w) then Timeout(cp, w).cp else cp
    case Options(local, peer, reject) => cp.(localOptions := local, peerOptions := peer, sendReject := reject)
  }

  function Run(cp: Cp, os: seq<Occurrence>): Cp
    decreases |os|
  {
    if |os| == 0 then cp else Occur(Run(cp, os[..|os| - 1]), os[|os| - 1])
  }

  /** A Terminate-Request in the middle of a negotiation. */
  predicate Interrupts(cp: Cp, o: Occurrence) {
    o.Happens? && o.e.Rtr? && Negotiating(cp.state)
  }

  ghost predicate Uninterrupted(cp: Cp, os: seq<Occurrence>) {
    forall i :: 0 <= i < |os| ==> !Interrupts(Run(cp, os[..i]), os[i])
  }

  /** The Configure-Request budget. */
  predicate Counted(cp: Cp) {
    && cp.config.counter <= MAX_CONFIGURE
    && (cp.state.AckRcvd? || cp.state.Opened? ==> cp.config.counter == MAX_CONFIGURE)
    && (Negotiating(cp.state) ==> !cp.term.running)
  }

  lemma TableCounters(e: Event, s: State)
    requires Transition(e, s).Go? && !(e.Rtr? && Negotiating(s))
    ensures var Go(a, next) := Transition(e, s);
      && (next.AckRcvd? || next.Opened? ==> SCR !in a && (IRC in a || s.AckRcvd? || s.Opened?))
      && (SCR in a ==> !Terminating(next) && (IRC in a || s.AckRcvd? || s.Opened? || (e.ToPlus? && Negotiating(s))))
      && (Negotiating(next) ==> STA !in a && STR !in a && (Negotiating(s) || Resting(s)))
  {
  }

  function TermCounterAfter(cp: Cp, a: set<Action>, next: State): uint32 {
    var start := if IRC in a then (if Terminating(next) then MAX_TERMINATE else cp.term.counter)
                 else if ZRC in a then 0 else cp.term.counter;
    if STR in a then Decrement(start) else start
  }

  lemma CounterEffects(cp: Cp, e: Event, packet: Packet)
    requires Transition(e, cp.state).Go?
    ensures var Go(a, next) := Transition(e, cp.state); var r := Generate(cp, e, packet).cp;
      var start := if IRC in a && !Terminating(next) then MAX_CONFIGURE else cp.config.counter;
      && r.state == next
      && r.config.counter == (if SCR in a then Decrement(start) else start)
      && (r.term.running ==> STR in a || STA in a || cp.term.running)
      && r.term.counter == TermCounterAfter(cp, a, next)
  {
    hide Generate, Transition, Resting, Terminating, NewIdentity, Decrement;
    EventEffects(cp, e, packet);
  }

  lemma CountersKept(cp: Cp, e: Event, packet: Packet)
    requires Counted(cp) && !(e.Rtr? && Negotiating(cp.state))
    requires Resting(cp.state) ==> !cp.term.running
    requires e.ToPlus? && Negotiating(cp.state) ==> cp.config.counter > 0
    ensures Counted(Generate(cp, e, packet).cp)
  {
    if Transition(e, cp.state).Go? {
      TableCounters(e, cp.state);
      CounterEffects(cp, e, packet);
      hide Transition, Generate;
    }
  }

  lemma OccurrenceKeeps(cp: Cp, o: Occurrence)
    requires TimersMatch(cp)
    ensures TimersMatch(Occur(cp, o))
    ensures Counted(cp) && !Interrupts(cp, o) ==> Counted(Occur(cp, o))
  {
    assert o.Options? ==> TimersMatch(Occur(cp, o)) && (Counted(cp) ==> Counted(Occur(cp, o)));
    hide Generate;
    match o
    case Happens(e, packet) =>
      if !e.ToPlus? && !e.ToMinus? {
        TimersKept(cp, e, packet);
        if Counted(cp) && !Interrupts(cp, o) {
          CountersKept(cp, e, packet);
        }
      }
    case Expires(w) =>
      if Running(cp, w) {
        TimeoutKeepsTimers(cp, w);
        if Counted(cp) {
          CountersKept(Fired(cp, w), TimeoutEvent(cp, w), NO_PACKET);
        }
      }
    case Options(_, _, _) =>
  }

  /** In every run from a new automaton the timers match the state, and if no
      Terminate-Request arrives in the middle of a negotiation the counter stays within the
      budget: never above ten, exactly ten whenever the peer has acknowledged. */
  lemma {:induction false} EveryRunCounted(dormant: bool, maxFailure: uint32, options: seq<byte>, os: seq<Occurrence>)
    ensures TimersMatch(Run(New(dormant, maxFailure, options), os))
    ensures Uninterrupted(New(dormant, maxFailure, options), os) ==> Counted(Run(New(dormant, maxFailure, options), os))
    decreases |os|
  {
    var cp := New(dormant, maxFailure, options);
    if |os| > 0 {
      var front := os[..|os| - 1];
      EveryRunCounted(dormant, maxFailure, options, front);
      OccurrenceKeeps(Run(cp, front), os[|os| - 1]);
      if Uninterrupted(cp, os) {
        forall i | 0 <= i < |front| ensures !Interrupts(Run(cp, front[..i]), front[i]) {
          assert front[..i] == os[..i];
        }
        assert !Interrupts(Run(cp, os[..|os| - 1]), os[|os| - 1]);
      }
    }
  }

  lemma RejectIdKept(cp: Cp, o: Occurrence)
    ensures Occur(cp, o).rejectId == cp.rejectId
  {
    hide Generate;
    match o
    case Happens(e, packet) => GenerateKeepsRejectId(cp, e, packet);
    case Expires(w) => GenerateKeepsRejectId(Fired(cp, w), TimeoutEvent(cp, w), NO_PACKET);
    case Options(_, _, _) =>
  }

  lemma GenerateKeepsRejectId(cp: Cp, e: Event, packet: Packet)
    ensures Generate(cp, e, packet).cp.rejectId == cp.rejectId
  {
    if Transition(e, cp.state).Go? {
      EventEffects(cp, e, packet);
    } else {
      assert Generate(cp, e, packet).cp == cp;
    }
    hide Generate, Transition;
  }

  lemma {:induction false} RejectIdZero(dormant: bool, maxFailure: uint32, options: seq<byte>, os: seq<Occurrence>)
    ensures Run(New(dormant, maxFailure, options), os).rejectId == 0
    decreases |os|
  {
    hide Occur;
    if |os| > 0 {
      RejectIdZero(dormant, maxFailure, options, os[..|os| - 1]);
      RejectIdKept(Run(New(dormant, maxFailure, options), os[..|os| - 1]), os[|os| - 1]);
    }
  }

  lemma TableUnknownCode(s: State)
    requires !s.Initial? && !s.Starting?
    ensures Transition(Ruc, s) == Go({SCJ}, s)
  {
  }

  /** In every run every Code-Reject carries the same identifier, although RFC 1661 wants it
      changed for each one (section 5.6). */
  lemma {:induction false} CodeRejectsShareIdentifier(dormant: bool, maxFailure: uint32, options: seq<byte>, os: seq<Occurrence>,
                                   packet: Packet)
    requires var s := Run(New(dormant, maxFailure, options), os).state; !s.Initial? && !s.Starting?
    ensures Generate(Run(New(dormant, maxFailure, options), os), Ruc, packet).sent
            == [Packet(CODE_REJECT, 1, PacketBytes(packet))]
  {
    RejectIdZero(dormant, maxFailure, options, os);
    TableUnknownCode(Run(New(dormant, maxFailure, options), os).state);
    hide Transition, Run, PacketBytes;
  }

  // ---- Why the condition is needed ----

  /** A Terminate-Request in the middle of a negotiation starts the other timer. When that
      fires with a counter of zero the negotiation is over at once, however many requests
      were left; otherwise one more request is sent, and the budget survives if and only if
      there was one left. */
  lemma InterruptionCosts(cp: Cp, packet: Packet)
    requires Negotiating(cp.state) && cp.config.counter <= MAX_CONFIGURE
    ensures var after := Occur(Occur(cp, Happens(Rtr, packet)), Expires(TermTimer));
      && (after.state.Stopped? <==> cp.term.counter == 0)
      && (after.config.counter <= MAX_CONFIGURE <==> cp.term.counter == 0 || cp.config.counter > 0)
  {
    assert Transition(Rtr, cp.state) == Go({STA}, ReqSent);
    assert Transition(ToPlus, ReqSent) == Go({SCR}, ReqSent) && Transition(ToMinus, ReqSent) == Go({TLF}, Stopped);
    CounterEffects(cp, Rtr, packet);
    TimerEffects(cp, Rtr, packet);
    hide Transition, Generate;
    var c := Fired(Occur(cp, Happens(Rtr, packet)), TermTimer);
    CounterEffects(c, TimeoutEvent(Occur(cp, Happens(Rtr, packet)), TermTimer), NO_PACKET);
  }

  lemma {:induction false} RunElapses(cp: Cp, os: seq<Occurrence>, n: nat)
    requires Waiting(Run(cp, os), ConfigTimer) && n <= Run(cp, os).config.counter <= MAX_CONFIGURE
    ensures Run(cp, os + Repeat(Expires(ConfigTimer), n)) == Elapse(Run(cp, os), ConfigTimer, n).cp
    ensures Elapse(Run(cp, os), ConfigTimer, n).cp.term == Run(cp, os).term
    decreases n
  {
    hide Waiting, Generate, Transition, Again, Fired, TimeoutEvent;
    var more := os + Repeat(Expires(ConfigTimer), n);
    if n == 0 {
      assert more == os;
    } else {
      RunElapses(cp, os, n - 1);
      Retransmissions(Run(cp, os), ConfigTimer, n - 1);
      assert more[..|more| - 1] == os + Repeat(Expires(ConfigTimer), n - 1);
      TermUntouched(Elapse(Run(cp, os), ConfigTimer, n - 1).cp);
    }
  }

  lemma TermUntouched(cp: Cp)
    requires Waiting(cp, ConfigTimer) && cp.config.counter > 0
    ensures cp.config.running && Timeout(cp, ConfigTimer).cp.term == cp.term
  {
    RetransmitCell(cp, ConfigTimer);
    hide Transition, NewIdentity, Requests, Replies, Terminates, Others;
  }

  /** A link that comes up, is torn down by a Code-Reject and is asked for again. */
  function FirstAttempt(packet: Packet): seq<Occurrence> {
    [Happens(Open, packet)] + [Happens(Up, packet)] + [Happens(RcrPlus, packet)] + [Happens(Rca, packet)]
  }

  function SecondAttempt(packet: Packet): seq<Occurrence> {
    FirstAttempt(packet) + [Happens(RxjMinus, packet)] + [Happens(Rta, packet)] + [Happens(RcrPlus, packet)]
  }

  lemma SecondAttemptCells()
    ensures Transition(Open, Initial) == Go({TLS}, Starting)
    ensures Transition(Up, Starting) == Go({IRC, SCR}, ReqSent)
    ensures Transition(RcrPlus, ReqSent) == Go({SCA}, AckSent)
    ensures Transition(Rca, AckSent) == Go({IRC, TLU}, Opened)
    ensures Transition(RxjMinus, Opened) == Go({TLD, IRC, STR}, Stopping)
    ensures Transition(Rta, Stopping) == Go({TLF}, Stopped)
    ensures Transition(RcrPlus, Stopped) == Go({IRC, SCR, SCA}, AckSent)
  {
  }

  /** The run one occurrence longer, with its timers worked out. */
  lemma {:induction false} RunStep(cp: Cp, os: seq<Occurrence>, e: Event, packet: Packet)
    requires !e.ToPlus? && !e.ToMinus? && Transition(e, Run(cp, os).state).Go?
    ensures var c := Run(cp, os); var Go(a, next) := Transition(e, c.state);
      var r := Run(cp, os + [Happens(e, packet)]);
      && r.state == next
      && r.config.counter == (var start := if IRC in a && !Terminating(next) then MAX_CONFIGURE else c.config.counter;
                              if SCR in a then Decrement(start) else start)
      && r.config.running == (!Resting(next) && (SCR in a || c.config.running))
      && r.term.counter == TermCounterAfter(c, a, next)
      && r.term.running == (!Resting(next) && (STR in a || STA in a || c.term.running))
  {
    hide Transition, Generate, Resting, Terminating, Decrement, TermCounterAfter;
    assert (os + [Happens(e, packet)])[..|os|] == os;
    CounterEffects(Run(cp, os), e, packet);
    TimerEffects(Run(cp, os), e, packet);
  }

  lemma FirstAttemptState(packet: Packet)
    ensures Run(New(false, 5, []), FirstAttempt(packet)).state.Opened?
    ensures !Run(New(false, 5, []), FirstAttempt(packet)).term.running
  {
    var cp := New(false, 5, []);
    assert Run(cp, []) == cp;
    SecondAttemptCells();
    hide Transition, Run, Generate;
    var s1 := [Happens(Open, packet)];
    var s2 := s1 + [Happens(Up, packet)];
    var s3 := s2 + [Happens(RcrPlus, packet)];
    assert [] + s1 == s1;
    RunStep(cp, [], Open, packet);
    RunStep(cp, s1, Up, packet);
    RunStep(cp, s2, RcrPlus, packet);
    RunStep(cp, s3, Rca, packet);
  }

  lemma {:induction false} TornDown(cp: Cp, os: seq<Occurrence>, packet: Packet)
    requires Run(cp, os).state.Opened?
    ensures var c := Run(cp, os + [Happens(RxjMinus, packet)]);
      c.state.Stopping? && c.term.counter == MAX_TERMINATE - 1
  {
    SecondAttemptCells();
    hide Transition, Run, Generate;
    RunStep(cp, os, RxjMinus, packet);
  }

  lemma {:induction false} TerminateAcked(cp: Cp, os: seq<Occurrence>, packet: Packet)
    requires Run(cp, os).state.Stopping?
    ensures var c := Run(cp, os + [Happens(Rta, packet)]);
      c.state.Stopped? && c.term == Timer(Run(cp, os).term.counter, false)
  {
    SecondAttemptCells();
    hide Transition, Run, Generate;
    RunStep(cp, os, Rta, packet);
  }

  lemma {:induction false} AskedAgain(cp: Cp, os: seq<Occurrence>, packet: Packet)
    requires Run(cp, os).state.Stopped? && !Run(cp, os).term.running
    ensures var c := Run(cp, os + [Happens(RcrPlus, packet)]);
      Waiting(c, ConfigTimer) && c.config.counter == 9 && c.term.counter == Run(cp, os).term.counter
  {
    SecondAttemptCells();
    hide Transition, Run, Generate;
    RunStep(cp, os, RcrPlus, packet);
  }

  lemma SecondAttemptState(packet: Packet)
    ensures var c := Run(New(false, 5, []), SecondAttempt(packet));
      Waiting(c, ConfigTimer) && c.config.counter == 9 && c.term.counter == 1
  {
    var cp := New(false, 5, []);
    SecondAttemptCells();
    FirstAttemptState(packet);
    hide Transition, Run, Generate, FirstAttempt, New;
    var s4 := FirstAttempt(packet);
    var s5 := s4 + [Happens(RxjMinus, packet)];
    var s6 := s5 + [Happens(Rta, packet)];
    TornDown(cp, s4, packet);
    TerminateAcked(cp, s5, packet);
    AskedAgain(cp, s6, packet);
  }

  /** A run in which it does not survive: the counter passes below zero. */
  lemma CounterWraps(packet: Packet)
    ensures Run(New(false, 5, []), SecondAttempt(packet) + Repeat(Expires(ConfigTimer), 9)
                                   + [Happens(Rtr, packet)] + [Expires(TermTimer)]).config.counter > MAX_CONFIGURE
  {
    hide Timeout, Elapse, Occur, SecondAttempt;
    var cp, os := New(false, 5, []), SecondAttempt(packet);
    SecondAttemptState(packet);
    RunElapses(cp, os, 9);
    Retransmissions(Run(cp, os), ConfigTimer, 9);
    os := os + Repeat(Expires(ConfigTimer), 9);
    InterruptionCosts(Run(cp, os), packet);
    assert (os + [Happens(Rtr, packet)])[..|os|] == os;
    var last := os + [Happens(Rtr, packet)] + [Expires(TermTimer)];
    assert last[..|last| - 1] == os + [Happens(Rtr, packet)];
  }

  // ---- Closing while still negotiating ----

  /** Closing a negotiation leaves its timer running beside the one of the Terminate-Request. */
  predicate BothRun(cp: Cp) {
    cp.state.Closing? && cp.config.running && cp.term.running && cp.term.counter <= MAX_TERMINATE
  }

  lemma CloseLeavesBoth(cp: Cp, packet: Packet)
    requires Negotiating(cp.state) && TimersMatch(cp)
    ensures var r := Generate(cp, Close, packet).cp;
      BothRun(r) && r.term.counter == MAX_TERMINATE - 1 && r.config.counter == cp.config.counter
  {
    assert Transition(Close, cp.state) == Go({IRC, STR}, Closing);
    CounterEffects(cp, Close, packet);
    TimerEffects(cp, Close, packet);
    hide Transition, Generate;
  }

  lemma ClosingCells()
    ensures Transition(ToPlus, Closing) == Go({STR}, Closing) && Transition(ToMinus, Closing) == Go({TLF}, Closed)
  {
  }

  /** Either timer, while closing: one more request at the cost of the terminate counter, or
      the end, as its own counter says. */
  lemma ClosingTimeout(cp: Cp, w: Which)
    requires cp.state.Closing? && Running(cp, w)
    ensures var r := Occur(cp, Expires(w));
      if Left(cp, w) > 0 then
        && r.state.Closing? && r.term == Timer(Decrement(cp.term.counter), true)
        && r.config == if w.ConfigTimer? then Timer(cp.config.counter, false) else cp.config
      else r.state.Closed? && !r.config.running && !r.term.running
  {
    ClosingCells();
    hide Transition, NewIdentity, Decrement, Requests, Replies, Terminates, Others;
  }

  /** The timeouts of a silent peer, the configure timer going off after k of the others. */
  function Schedule(k: nat, t: nat): (os: seq<Occurrence>)
    requires k <= t
    ensures |os| == t + 1
  {
    Repeat(Expires(TermTimer), k) + [Expires(ConfigTimer)] + Repeat(Expires(TermTimer), t - k)
  }

  /** The exchange ends with the last of these timeouts and not before. */
  ghost predicate EndsWith(cp: Cp, os: seq<Occurrence>) {
    Run(cp, os).state.Closed? && forall n :: 0 <= n < |os| ==> Run(cp, os[..n]).state.Closing?
  }

  /** Timeouts of the terminate timer alone. */
  lemma {:induction false} TermTimeouts(cp: Cp, n: nat)
    requires cp.state.Closing? && cp.term.running && n <= cp.term.counter <= MAX_TERMINATE
    ensures var r := Run(cp, Repeat(Expires(TermTimer), n));
      r.state.Closing? && r.term == Timer(cp.term.counter - n, true) && r.config == cp.config
    decreases n
  {
    hide Occur;
    if n > 0 {
      TermTimeouts(cp, n - 1);
      RepeatSnoc(Expires(TermTimer), n - 1);
      var os := Repeat(Expires(TermTimer), n);
      assert os[..n - 1] == Repeat(Expires(TermTimer), n - 1);
      ClosingTimeout(Run(cp, os[..n - 1]), TermTimer);
    }
  }

  lemma {:induction false} RunThen(cp: Cp, a: seq<Occurrence>, b: seq<Occurrence>)
    ensures Run(cp, a + b) == Run(Run(cp, a), b)
    decreases |b|
  {
    hide Occur;
    if |b| == 0 {
      assert a + b == a;
    } else {
      RunThen(cp, a, b[..|b| - 1]);
      assert (a + b)[..|a + b| - 1] == a + b[..|b| - 1];
    }
  }

  lemma {:induction false} RunOne(cp: Cp, o: Occurrence)
    ensures Run(cp, [o]) == Occur(cp, o) && Run(cp, []) == cp
  {
    assert [o][..0] == [];
  }

  /** Where the schedule stands after n timeouts. */
  lemma {:induction false} ScheduleAt(cp: Cp, k: nat, n: nat)
    requires BothRun(cp) && k <= cp.term.counter && n <= cp.term.counter + 1
    ensures var t := cp.term.counter; var r := Run(cp, Schedule(k, t)[..n]);
      && (n <= k ==> r.state.Closing? && r.term == Timer(t - n, true) && r.config == cp.config)
      && (n == k + 1 && cp.config.counter == 0 ==> r.state.Closed?)
      && (n > k && cp.config.counter > 0 && k == t ==> r.state.Closing? && r.term.counter == TWO32 - 1)
      && (k < n <= t && cp.config.counter > 0 ==> r.state.Closing? && r.term == Timer(t - n, true))
      && (n == t + 1 && k < t && cp.config.counter > 0 ==> r.state.Closed?)
    decreases n
  {
    hide Occur, Run;
    var t := cp.term.counter;
    var os := Schedule(k, t);
    if n <= k {
      assert os[..n] == Repeat(Expires(TermTimer), n);
      TermTimeouts(cp, n);
    } else {
      ScheduleAt(cp, k, n - 1);
      var c := Run(cp, os[..n - 1]);
      assert os[..n] == os[..n - 1] + [os[n - 1]];
      RunThen(cp, os[..n - 1], [os[n - 1]]);
      RunOne(c, os[n - 1]);
      if n == k + 1 {
        ClosingTimeout(c, ConfigTimer);
      } else if cp.config.counter > 0 {
        ClosingTimeout(c, TermTimer);
      }
    }
  }

  /** If the terminate timer is always first, the exchange ends as without the other. */
  lemma {:induction false} TermTimerFirst(cp: Cp)
    requires BothRun(cp)
    ensures EndsWith(cp, Repeat(Expires(TermTimer), cp.term.counter + 1))
  {
    hide Run, Occur;
    var t := cp.term.counter;
    var os := Repeat(Expires(TermTimer), t + 1);
    forall n | 0 <= n <= t ensures Run(cp, os[..n]).state.Closing? && Run(cp, os[..n]).term == Timer(t - n, true) {
      assert os[..n] == Repeat(Expires(TermTimer), n);
      TermTimeouts(cp, n);
    }
    var c := Run(cp, os[..t]);
    assert os == os[..t] + [Expires(TermTimer)];
    RunThen(cp, os[..t], [Expires(TermTimer)]);
    RunOne(c, Expires(TermTimer));
    ClosingTimeout(c, TermTimer);
  }

  /** With both timers running a silent peer ends the exchange with exactly counter + 1
      timeouts if and only if the configure timer goes off before the last of them when
      requests were left, and as the last when none was. Otherwise it ends early, or the
      terminate counter passes below zero and the exchange goes on. */
  lemma {:induction false} SilenceWhileClosingIff(cp: Cp, k: nat)
    requires BothRun(cp) && k <= cp.term.counter
    ensures var t := cp.term.counter; var os := Schedule(k, t);
      && (EndsWith(cp, os) <==> (cp.config.counter > 0 <==> k < t))
      && (cp.config.counter == 0 && k < t ==> Run(cp, os[..k + 1]).state.Closed?)
      && (cp.config.counter > 0 && k == t ==> Run(cp, os).state.Closing? && Run(cp, os).term.counter == TWO32 - 1)
  {
    hide Run, Schedule;
    var t := cp.term.counter;
    var os := Schedule(k, t);
    assert os[..t + 1] == os;
    ScheduleAt(cp, k, t + 1);
    ScheduleAt(cp, k, k + 1);
    if cp.config.counter > 0 <==> k < t {
      forall n | 0 <= n < |os| ensures Run(cp, os[..n]).state.Closing? {
        ScheduleAt(cp, k, n);
      }
    } else if cp.config.counter == 0 {
      assert !Run(cp, os[..k + 1]).state.Closing?;
    }
  }
}
