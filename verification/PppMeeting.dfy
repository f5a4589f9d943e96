/** Two automata meet: each has sent its request, and the requests and their Acks cross in
    any order of delivery. */
module PppMeeting {
  import opened Bytes
  import opened Wrappers
  import opened PppCp
  import opened PppLink

  // ---- What answers what ----

  /** An acceptable request is answered by an Ack under its own identifier and with its own
      options, in either order with the Ack of our own request; the second of the two opens
      the automaton and is the one that tells the layer above. */
  lemma RequestHeard(cp: Cp, p: Packet)
    requires cp.state.ReqSent? || cp.state.AckRcvd?
    ensures var r := Generate(cp, RcrPlus, p);
      && r.sent == [Packet(2, p.id, p.data)]
      && (cp.state.ReqSent? ==> r.cp.state.AckSent? && r.signal.Quiet?)
      && (cp.state.AckRcvd? ==> r.cp.state.Opened? && r.signal.LayerUp?)
      && r.cp.configId == cp.configId && r.cp.localOptions == cp.localOptions
  {
    EventEffects(cp, RcrPlus, p);
  }

  lemma AckHeard(cp: Cp, p: Packet)
    requires cp.state.ReqSent? || cp.state.AckSent?
    ensures var r := Generate(cp, Rca, p);
      && r.sent == []
      && (cp.state.ReqSent? ==> r.cp.state.AckRcvd? && r.signal.Quiet?)
      && (cp.state.AckSent? ==> r.cp.state.Opened? && r.signal.LayerUp?)
      && r.cp.configId == cp.configId && r.cp.localOptions == cp.localOptions
  {
    EventEffects(cp, Rca, p);
  }

  // ---- The two and what is on its way between them ----

  /** An automaton, the packets on their way to it, and how often it told the layer above
      that it is up. */
  datatype Side = Side(cp: Cp, inbox: seq<Packet>, ups: nat)

  datatype Meeting = Meeting(a: Side, b: Side)

  /** The peer of an automaton whose driver accepts every request. */
  function Heard(cp: Cp, p: Packet): Outcome {
    if p.code == 1 then Generate(cp, RcrPlus, p)
    else if p.code == 2 && AckMatches(cp, p) then Generate(cp, Rca, p)
    else Outcome(cp, [], Quiet)
  }

  /** One of the packets on its way to x arrives; what x sends goes to y. */
  function Arrives(x: Side, y: Side, i: nat): (Side, Side)
    requires i < |x.inbox|
  {
    var r := Heard(x.cp, x.inbox[i]);
    (Side(r.cp, x.inbox[..i] + x.inbox[i + 1..], x.ups + if r.signal.LayerUp? then 1 else 0),
     y.(inbox := y.inbox + r.sent))
  }

  datatype Delivery = ToA(i: nat) | ToB(i: nat)

  predicate Possible(m: Meeting, d: Delivery) {
    match d
    case ToA(i) => i < |m.a.inbox|
    case ToB(i) => i < |m.b.inbox|
  }

  function Deliver(m: Meeting, d: Delivery): Meeting
    requires Possible(m, d)
  {
    match d
    case ToA(i) => var (a, b) := Arrives(m.a, m.b, i); Meeting(a, b)
    case ToB(i) => var (b, a) := Arrives(m.b, m.a, i); Meeting(a, b)
  }

  predicate AllPossible(m: Meeting, ds: seq<Delivery>)
    decreases |ds|
  {
    |ds| > 0 ==> Possible(m, ds[0]) && AllPossible(Deliver(m, ds[0]), ds[1..])
  }

  function DeliverAll(m: Meeting, ds: seq<Delivery>): Meeting
    requires AllPossible(m, ds)
    decreases |ds|
  {
    if |ds| == 0 then m else DeliverAll(Deliver(m, ds[0]), ds[1..])
  }

  function RequestOf(cp: Cp): Packet {
    Packet(1, cp.configId, cp.localOptions)
  }

  function AckFor(cp: Cp): Packet {
    Packet(2, cp.configId, cp.localOptions)
  }

  /** Both have asked and heard nothing yet. */
  predicate Begins(m: Meeting) {
    && m.a.cp.state.ReqSent? && m.b.cp.state.ReqSent? && m.a.ups == m.b.ups == 0
    && m.a.inbox == [RequestOf(m.b.cp)] && m.b.inbox == [RequestOf(m.a.cp)]
  }

  // ---- How far they have come ----

  /** Which packets have arrived: on each side the request of the other and the Ack. */
  datatype Progress = Progress(asked: bool, acked: bool)

  function Arrived(p: Progress): nat {
    (if p.asked then 1 else 0) + (if p.acked then 1 else 0)
  }

  function StateAt(p: Progress): State {
    if p.asked && p.acked then Opened else if p.asked then AckSent else if p.acked then AckRcvd else ReqSent
  }

  function On(b: bool, p: Packet): seq<Packet> {
    if b then [p] else []
  }

  /** The state of x follows from what has arrived; on its way are the request of y, unless
      it has arrived, and the Ack once the request of x has. */
  predicate SideIs(x: Side, y: Cp, p: Progress, q: Progress) {
    && x.cp.state == StateAt(p) && (p.acked ==> q.asked)
    && x.inbox == On(!p.asked, RequestOf(y)) + On(q.asked && !p.acked, AckFor(x.cp))
    && x.ups == if p.asked && p.acked then 1 else 0
  }

  predicate Met(m: Meeting, p: Progress, q: Progress) {
    SideIs(m.a, m.b.cp, p, q) && SideIs(m.b, m.a.cp, q, p)
  }

  /** The first packet on its way to a side that has not been asked is the request. */
  lemma InboxIs(x: Side, y: Cp, p: Progress, q: Progress, i: nat)
    requires SideIs(x, y, p, q) && i < |x.inbox|
    ensures var rest := x.inbox[..i] + x.inbox[i + 1..];
      if !p.asked && i == 0 then x.inbox[i] == RequestOf(y) && rest == On(q.asked && !p.acked, AckFor(x.cp))
      else q.asked && !p.acked && x.inbox[i] == AckFor(x.cp) && rest == On(!p.asked, RequestOf(y))
  {
  }

  /** One arrival brings that side one packet further and leaves the other where it is. */
  lemma ArrivalKeeps(x: Side, y: Side, p: Progress, q: Progress, i: nat) returns (p1: Progress)
    requires SideIs(x, y.cp, p, q) && SideIs(y, x.cp, q, p) && i < |x.inbox|
    ensures var (x1, y1) := Arrives(x, y, i);
      SideIs(x1, y1.cp, p1, q) && SideIs(y1, x1.cp, q, p1) && Arrived(p1) == Arrived(p) + 1
  {
    hide Generate, AckMatches;
    InboxIs(x, y.cp, p, q, i);
    if !p.asked && i == 0 {
      p1 := p.(asked := true);
      RequestHeard(x.cp, RequestOf(y.cp));
    } else {
      p1 := p.(acked := true);
      AckIsOurs(x.cp);
      AckHeard(x.cp, AckFor(x.cp));
    }
  }

  lemma AckIsOurs(cp: Cp)
    ensures AckMatches(cp, AckFor(cp))
  {
  }

  lemma {:induction false} MeetingGoesOn(m: Meeting, p: Progress, q: Progress, ds: seq<Delivery>)
    requires Met(m, p, q) && AllPossible(m, ds)
    ensures exists p', q' :: Met(DeliverAll(m, ds), p', q') && Arrived(p') + Arrived(q') == Arrived(p) + Arrived(q) + |ds|
    decreases |ds|
  {
    hide SideIs, Arrives, Arrived;
    if |ds| == 0 {
      assert Met(DeliverAll(m, ds), p, q);
    } else {
      var m1, p1, q1 := Deliver(m, ds[0]), p, q;
      match ds[0] {
        case ToA(i) => p1 := ArrivalKeeps(m.a, m.b, p, q, i);
        case ToB(i) => q1 := ArrivalKeeps(m.b, m.a, q, p, i);
      }
      MeetingGoesOn(m1, p1, q1, ds[1..]);
    }
  }

  /** Whatever order the packets arrive in, four of them are delivered; then both automata
      are open, nothing is on its way any more, and each has told the layer above once. Until
      then there is always a packet to deliver. */
  lemma {:induction false} MeetingOpens(m: Meeting, ds: seq<Delivery>)
    requires Begins(m) && AllPossible(m, ds)
    ensures var r := DeliverAll(m, ds);
      && |ds| <= 4
      && (|ds| == 4 ==> r.a.cp.state.Opened? && r.b.cp.state.Opened? && r.a.ups == r.b.ups == 1 && r.a.inbox == r.b.inbox == [])
      && (|ds| < 4 ==> Possible(r, ToA(0)) || Possible(r, ToB(0)))
  {
    hide Generate, DeliverAll, AllPossible, Deliver;
    var none := Progress(false, false);
    assert Met(m, none, none);
    MeetingGoesOn(m, none, none, ds);
    var p, q :| Met(DeliverAll(m, ds), p, q) && Arrived(p) + Arrived(q) == |ds|;
  }
}
