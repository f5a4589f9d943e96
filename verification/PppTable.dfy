/** The transition table read as rules (sections 4.2 to 4.4 of RFC 1661): a state is whether
    the layer below is up, whether the layer above wants the protocol open, and how far an
    exchange with the peer has come; each event changes these one by one. */
module PppTable {
  import opened Bytes
  import opened PppCp

  /** No exchange; one that ends the connection; or a negotiation: whether the peer has
      acknowledged our request, and whether we have acknowledged its own. */
  datatype Talk = Silent | Ending | Talking(acked: bool, answered: bool)

  datatype Standing = Standing(up: bool, wanted: bool, talk: Talk)

  function StandingOf(s: State): Standing {
    match s
    case Initial => Standing(false, false, Silent)
    case Starting => Standing(false, true, Silent)
    case Closed => Standing(true, false, Silent)
    case Stopped => Standing(true, true, Silent)
    case Closing => Standing(true, false, Ending)
    case Stopping => Standing(true, true, Ending)
    case ReqSent => Standing(true, true, Talking(false, false))
    case AckRcvd => Standing(true, true, Talking(true, false))
    case AckSent => Standing(true, true, Talking(false, true))
    case Opened => Standing(true, true, Talking(true, true))
  }

  /** Both sides have agreed. */
  predicate Agreed(t: Talk) {
    t.Talking? && t.acked && t.answered
  }

  /** What is done, and where that leaves the automaton. */
  datatype Rule = Illegal | Do(actions: set<Action>, next: Standing)

  function When(b: bool, a: set<Action>): set<Action> {
    if b then a else {}
  }

  /** Agreement is given up before anything else is said. */
  function Leaving(t: Talk): set<Action> {
    When(Agreed(t), {TLD})
  }

  /** The layers above and below come and go. */
  function Administered(e: Event, s: Standing): Rule {
    match e
    case Up => if s.up then Illegal else if s.wanted then Do({IRC, SCR}, Standing(true, true, Talking(false, false)))
               else Do({}, s.(up := true))
    case Down => if !s.up then Illegal
                 else Do(Leaving(s.talk) + When(s.wanted && s.talk.Silent?, {TLS}), Standing(false, s.wanted, Silent))
    case Open => if s.wanted then Do({}, s)
                 else if !s.up then Do({TLS}, s.(wanted := true))
                 else if s.talk.Silent? then Do({IRC, SCR}, Standing(true, true, Talking(false, false)))
                 else Do({}, s.(wanted := true))
    case Close => if s.talk.Talking? then Do(Leaving(s.talk) + {IRC, STR}, Standing(true, false, Ending))
                  else Do(When(s.wanted && !s.up, {TLF}), s.(wanted := false))
    case _ => Illegal
  }

  /** A timer goes off, with attempts left or without. */
  function TimedOut(e: Event, s: Standing): Rule {
    if !s.up || s.talk.Silent? || Agreed(s.talk) then Illegal
    else if e.ToMinus? then Do({TLF}, s.(talk := Silent))
    else if s.talk.Ending? then Do({STR}, s)
    else Do({SCR}, s.(talk := Talking(false, s.talk.answered)))
  }

  /** The peer is heard while there is no exchange: a passive automaton answers a request,
      everything else that expects an exchange is told there is none. */
  function HeardSilent(e: Event, s: Standing): Rule {
    match e
    case RcrPlus => if s.wanted then Do({IRC, SCR, SCA}, s.(talk := Talking(false, true))) else Do({STA}, s)
    case RcrMinus => if s.wanted then Do({IRC, SCR, SCN}, s.(talk := Talking(false, false))) else Do({STA}, s)
    case Rca => Do({STA}, s)
    case Rcn => Do({STA}, s)
    case Rtr => Do({STA}, s)
    case Ruc => Do({SCJ}, s)
    case RxjMinus => Do({TLF}, s)
    case _ => Do({}, s)
  }

  /** The peer is heard while the connection is being ended. */
  function HeardEnding(e: Event, s: Standing): Rule {
    match e
    case Rtr => Do({STA}, s)
    case Rta => Do({TLF}, s.(talk := Silent))
    case RxjMinus => Do({TLF}, s.(talk := Silent))
    case Ruc => Do({SCJ}, s)
    case _ => Do({}, s)
  }

  /** The peer is heard during a negotiation or after it. Whatever reopens an agreement asks
      again; an answer to a request already acknowledged starts over. */
  function HeardTalking(e: Event, s: Standing, acked: bool, answered: bool): Rule {
    var both := acked && answered;
    var again := When(both, {TLD, SCR});
    match e
    case RcrPlus => Do(again + {SCA} + When(acked && !answered, {TLU}), s.(talk := Talking(acked && !answered, true)))
    case RcrMinus => Do(again + {SCN}, s.(talk := Talking(acked && !answered, false)))
    case Rca => if acked then Do(When(both, {TLD}) + {SCR}, s.(talk := Talking(false, false)))
                else Do({IRC} + When(answered, {TLU}), s.(talk := Talking(true, answered)))
    case Rcn => if acked then Do(When(both, {TLD}) + {SCR}, s.(talk := Talking(false, false)))
                else Do({IRC, SCR}, s)
    case Rtr => if both then Do({TLD, ZRC, STA}, s.(talk := Ending)) else Do({STA}, s.(talk := Talking(false, false)))
    case Rta => Do(again, s.(talk := Talking(false, answered && !acked)))
    case Ruc => Do({SCJ}, s)
    case RxjPlus => Do({}, s.(talk := Talking(both, answered)))
    case RxjMinus => if both then Do({TLD, IRC, STR}, s.(talk := Ending)) else Do({TLF}, s.(talk := Silent))
    case Rxr => Do(When(both, {SER}), s)
    case _ => Illegal
  }

  function RuleFor(e: Event, s: Standing): Rule {
    match e
    case Up => Administered(e, s)
    case Down => Administered(e, s)
    case Open => Administered(e, s)
    case Close => Administered(e, s)
    case ToPlus => TimedOut(e, s)
    case ToMinus => TimedOut(e, s)
    case _ =>
      if !s.up then Illegal
      else match s.talk
           case Silent => HeardSilent(e, s)
           case Ending => HeardEnding(e, s)
           case Talking(acked, answered) => HeardTalking(e, s, acked, answered)
  }

  predicate FromPeer(e: Event) {
    !(e.Up? || e.Down? || e.Open? || e.Close? || e.ToPlus? || e.ToMinus?)
  }

  /** The cell is the rule. */
  predicate Follows(e: Event, s: State) {
    match Transition(e, s)
    case INV => RuleFor(e, StandingOf(s)).Illegal?
    case Go(a, next) => RuleFor(e, StandingOf(s)) == Do(a, StandingOf(next))
  }

  lemma LocalEventsFollow(e: Event, s: State)
    requires !FromPeer(e)
    ensures Follows(e, s)
  {
  }

  lemma RequestsFollow(e: Event, s: State)
    requires e.RcrPlus? || e.RcrMinus? || e.Rca? || e.Rcn?
    ensures Follows(e, s)
  {
  }

  lemma OthersFollow(e: Event, s: State)
    requires FromPeer(e) && !(e.RcrPlus? || e.RcrMinus? || e.Rca? || e.Rcn?)
    ensures Follows(e, s)
  {
  }

  /** Every cell of the table is what the rules say. */
  lemma TableFollowsRules(e: Event, s: State)
    ensures match Transition(e, s)
            case INV => RuleFor(e, StandingOf(s)).Illegal?
            case Go(a, next) => RuleFor(e, StandingOf(s)) == Do(a, StandingOf(next))
  {
    hide Transition, RuleFor, StandingOf;
    if !FromPeer(e) {
      LocalEventsFollow(e, s);
    } else if e.RcrPlus? || e.RcrMinus? || e.Rca? || e.Rcn? {
      RequestsFollow(e, s);
    } else {
      OthersFollow(e, s);
    }
  }

  /** States and standings correspond, so the rules leave no choice. */
  lemma StandingsDiffer(s: State, t: State)
    ensures StandingOf(s) == StandingOf(t) <==> s == t
  {
  }
}
