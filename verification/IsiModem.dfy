/** Matching of ISI responses to requests: transaction ids that wrap at eight bits, one list
    of everything that waits, timeouts, and counts of subscriptions and registrations. */
module IsiModem {
  import opened Bytes

  datatype Kind = REQ | IND | NTF | RESP

  datatype Message = Message(id: byte, utid: byte)

  /** What the owner of an entry is told. */
  datatype Notice = Arrived(msg: Message) | TimedOut | ShutDown

  class Pending {
    const kind: Kind
    const utid: byte
    const msgid: byte
    const hasNotify: bool
    var owner: nat
    /** A running timer, which will call RespTimeout. */
    var timeout: bool

    constructor (kind: Kind, utid: byte, msgid: byte, hasNotify: bool)
      ensures this.kind == kind && this.utid == utid && this.msgid == msgid && this.hasNotify == hasNotify
      ensures owner == 0 && !timeout
    {
      this.kind, this.utid, this.msgid, this.hasNotify := kind, utid, msgid, hasNotify;
      owner, timeout := 0, false;
    }
  }

  datatype Note = Note(op: Pending, notice: Notice)

  /** How often an entry was told something. */
  ghost function Times(log: seq<Note>, op: Pending): nat {
    if |log| == 0 then 0
    else Times(log[..|log| - 1], op) + if log[|log| - 1].op == op then 1 else 0
  }

  lemma {:induction false} TimesSnoc(log: seq<Note>, note: Note, op: Pending)
    ensures Times(log + [note], op) == Times(log, op) + if note.op == op then 1 else 0
  {
    assert (log + [note])[..|log|] == log;
  }

  lemma {:induction false} NeverTold(log: seq<Note>, op: Pending)
    requires forall i :: 0 <= i < |log| ==> log[i].op != op
    ensures Times(log, op) == 0
    decreases |log|
  {
    if |log| > 0 {
      NeverTold(log[..|log| - 1], op);
    }
  }

  function Count(ps: seq<Pending>, kind: Kind): nat {
    if |ps| == 0 then 0 else (if ps[0].kind == kind then 1 else 0) + Count(ps[1..], kind)
  }

  lemma {:induction false} CountAppend(a: seq<Pending>, b: seq<Pending>, kind: Kind)
    ensures Count(a + b, kind) == Count(a, kind) + Count(b, kind)
    decreases |a|
  {
    if |a| == 0 {
      assert a + b == b;
    } else {
      assert (a + b)[1..] == a[1..] + b;
      CountAppend(a[1..], b, kind);
    }
  }

  lemma {:induction false} CountOne(op: Pending, kind: Kind)
    ensures Count([op], kind) == if op.kind == kind then 1 else 0
  {
    assert [op][1..] == [];
  }

  /** The list without one of its entries. */
  function Without(ps: seq<Pending>, i: nat): seq<Pending>
    requires i < |ps|
  {
    ps[..i] + ps[i + 1..]
  }

  lemma {:induction false} CountWithout(ps: seq<Pending>, i: nat, kind: Kind)
    requires i < |ps|
    ensures Count(ps, kind) == Count(Without(ps, i), kind) + if ps[i].kind == kind then 1 else 0
  {
    assert ps == ps[..i] + ([ps[i]] + ps[i + 1..]);
    CountAppend(ps[..i], [ps[i]] + ps[i + 1..], kind);
    CountAppend([ps[i]], ps[i + 1..], kind);
    CountAppend(ps[..i], ps[i + 1..], kind);
    CountOne(ps[i], kind);
  }

  // ---- Transaction ids ----

  /** One after the last, skipping zero. */
  function NextUtid(last: byte): (u: byte)
    ensures u >= 1
  {
    if last == 0 || last == 255 then 1 else last + 1
  }

  /** The id of the n-th accepted request, counting from zero. */
  function NthUtid(n: nat): byte {
    n % 255 + 1
  }

  lemma NextIsNth(n: nat)
    ensures NextUtid(if n == 0 then 0 else NthUtid(n - 1)) == NthUtid(n)
  {
    if n > 0 {
      var q, r := (n - 1) / 255, (n - 1) % 255;
      assert n - 1 == 255 * q + r;
      if r < 254 {
        assert n == 255 * q + (r + 1);
      } else {
        assert n == 255 * (q + 1);
      }
    }
  }

  /** Two requests share an id exactly when a multiple of 255 lies between them. */
  lemma SameUtid(j: nat, k: nat)
    requires j < k
    ensures NthUtid(j) == NthUtid(k) ==> j + 255 <= k
    ensures k == j + 255 ==> NthUtid(j) == NthUtid(k)
  {
  }

  // ---- What a message sets off ----

  /** The entries of the list that hear of a message, in order; a response that completes a
      transaction ends the search. */
  function Hearers(ps: seq<Pending>, msg: Message, indication: bool): seq<Pending> {
    if |ps| == 0 then []
    else if ps[0].kind != RESP && ps[0].msgid == msg.id then [ps[0]] + Hearers(ps[1..], msg, indication)
    else if ps[0].kind == RESP && !indication && ps[0].utid == msg.utid then [ps[0]]
    else Hearers(ps[1..], msg, indication)
  }

  /** The list afterwards: a completed transaction is gone. */
  function Left(ps: seq<Pending>, msg: Message, indication: bool): seq<Pending> {
    if |ps| == 0 then []
    else if ps[0].kind == RESP && !indication && ps[0].utid == msg.utid then ps[1..]
    else [ps[0]] + Left(ps[1..], msg, indication)
  }

  function Told(ops: seq<Pending>, notice: Notice): seq<Note> {
    if |ops| == 0 then []
    else (if ops[0].hasNotify then [Note(ops[0], notice)] else []) + Told(ops[1..], notice)
  }

  predicate Completes(op: Pending, msg: Message, indication: bool) {
    op.kind == RESP && !indication && op.utid == msg.utid
  }

  /** Requests stand before everything else in the list. */
  predicate RequestsFirst(ps: seq<Pending>) {
    forall i, j :: 0 <= i < j < |ps| && ps[j].kind == RESP ==> ps[i].kind == RESP
  }

  predicate DistinctUtids(ps: seq<Pending>) {
    forall i, j :: 0 <= i < j < |ps| && ps[i].kind == RESP && ps[j].kind == RESP ==> ps[i].utid != ps[j].utid
  }

  /** A response goes to the request with its transaction id and to nobody else, whatever
      subscriptions there are for the same message. */
  lemma {:induction false} ResponseGoesToRequester(ps: seq<Pending>, msg: Message, i: nat)
    requires RequestsFirst(ps) && DistinctUtids(ps) && i < |ps| && Completes(ps[i], msg, false)
    ensures Hearers(ps, msg, false) == [ps[i]]
    ensures Left(ps, msg, false) == Without(ps, i)
    decreases i
  {
    if i > 0 {
      assert ps[0].kind == RESP && ps[0].utid != ps[i].utid;
      assert ps[1..][i - 1] == ps[i];
      ResponseGoesToRequester(ps[1..], msg, i - 1);
      assert Without(ps, i) == [ps[0]] + Without(ps[1..], i - 1);
    }
  }

  /** Any other message goes to exactly the subscriptions and services for its type, in the
      order they were made, and leaves the list alone. */
  lemma {:induction false} OthersGoByType(ps: seq<Pending>, msg: Message, indication: bool, op: Pending)
    requires forall i :: 0 <= i < |ps| ==> !Completes(ps[i], msg, indication)
    ensures op in Hearers(ps, msg, indication) <==> op in ps && op.kind != RESP && op.msgid == msg.id
    ensures Left(ps, msg, indication) == ps
    decreases |ps|
  {
    if |ps| > 0 {
      OthersGoByType(ps[1..], msg, indication, op);
      assert ps == [ps[0]] + ps[1..];
    }
  }

  /** One entry stands before another. */
  ghost predicate Before(ps: seq<Pending>, p: Pending, q: Pending) {
    exists a, b :: 0 <= a < b < |ps| && ps[a] == p && ps[b] == q
  }

  lemma BeforeTail(ps: seq<Pending>, p: Pending, q: Pending)
    requires |ps| > 0 && Before(ps[1..], p, q)
    ensures Before(ps, p, q)
  {
    var a, b :| 0 <= a < b < |ps[1..]| && ps[1..][a] == p && ps[1..][b] == q;
    assert ps[a + 1] == p && ps[b + 1] == q;
  }

  lemma BeforeHead(ps: seq<Pending>, q: Pending)
    requires |ps| > 0 && q in ps[1..]
    ensures Before(ps, ps[0], q)
  {
    var b :| 0 <= b < |ps[1..]| && ps[1..][b] == q;
    assert ps[b + 1] == q;
  }

  /** The first list holds entries of the second, in the same order. */
  ghost predicate InOrder(sub: seq<Pending>, ps: seq<Pending>) {
    forall i, j :: 0 <= i < j < |sub| ==> Before(ps, sub[i], sub[j])
  }

  lemma InOrderCons(sub: seq<Pending>, ps: seq<Pending>)
    requires |ps| > 0 && InOrder(sub, ps[1..]) && forall op :: op in sub ==> op in ps[1..]
    ensures InOrder(sub, ps) && InOrder([ps[0]] + sub, ps)
  {
    hide Before;
    forall i, j | 0 <= i < j < |sub| ensures Before(ps, sub[i], sub[j]) {
      BeforeTail(ps, sub[i], sub[j]);
    }
    var all := [ps[0]] + sub;
    forall i, j | 0 <= i < j < |all| ensures Before(ps, all[i], all[j]) {
      assert all[j] == sub[j - 1];
      if i == 0 {
        BeforeHead(ps, sub[j - 1]);
      } else {
        BeforeTail(ps, sub[i - 1], sub[j - 1]);
      }
    }
  }

  lemma OnceInOrder(sub: seq<Pending>, ps: seq<Pending>)
    requires InOrder(sub, ps) && forall i, j :: 0 <= i < j < |ps| ==> ps[i] != ps[j]
    ensures forall i, j :: 0 <= i < j < |sub| ==> sub[i] != sub[j]
  {
    forall i, j | 0 <= i < j < |sub| ensures sub[i] != sub[j] {
      assert Before(ps, sub[i], sub[j]);
    }
  }

  /** Those who hear of a message hear of it in the order of the list, each of them once. */
  lemma {:induction false} HeardInOrder(ps: seq<Pending>, msg: Message, indication: bool)
    requires forall i, j :: 0 <= i < j < |ps| ==> ps[i] != ps[j]
    ensures InOrder(Hearers(ps, msg, indication), ps)
    ensures forall op :: op in Hearers(ps, msg, indication) ==> op in ps
    ensures var h := Hearers(ps, msg, indication); forall i, j :: 0 <= i < j < |h| ==> h[i] != h[j]
    decreases |ps|
  {
    if |ps| > 0 {
      var rest := Hearers(ps[1..], msg, indication);
      HeardInOrder(ps[1..], msg, indication);
      hide Before;
      InOrderCons(rest, ps);
      assert InOrder([ps[0]], ps);
    }
    OnceInOrder(Hearers(ps, msg, indication), ps);
  }

  /** What they are told, and that nobody else is told anything. */
  lemma {:induction false} ToldAre(ops: seq<Pending>, notice: Notice)
    ensures var t := Told(ops, notice);
      && (forall i :: 0 <= i < |t| ==> t[i].notice == notice && t[i].op in ops && t[i].op.hasNotify)
      && (forall op :: op in ops && op.hasNotify ==> Note(op, notice) in t)
    decreases |ops|
  {
    if |ops| > 0 {
      ToldAre(ops[1..], notice);
      ToldStep(ops, notice);
      hide Told;
      var first: seq<Note>, rest := if ops[0].hasNotify then [Note(ops[0], notice)] else [], Told(ops[1..], notice);
      forall i | 0 <= i < |first + rest|
        ensures (first + rest)[i].notice == notice && (first + rest)[i].op in ops && (first + rest)[i].op.hasNotify
      {
        if i >= |first| {
          assert (first + rest)[i] == rest[i - |first|] && rest[i - |first|].op in ops[1..];
        }
      }
      forall op | op in ops && op.hasNotify ensures Note(op, notice) in first + rest {
        if op in ops[1..] {
          assert Note(op, notice) in rest;
        } else {
          assert Note(op, notice) in first;
        }
      }
    }
  }

  lemma {:induction false} ToldStep(ops: seq<Pending>, notice: Notice)
    requires |ops| > 0
    ensures Told(ops, notice) == (if ops[0].hasNotify then [Note(ops[0], notice)] else []) + Told(ops[1..], notice)
    ensures forall op :: op in ops <==> op == ops[0] || op in ops[1..]
  {
  }

  // ---- The invariant, and how the list may change ----

  /** No entry twice, requests first, their transaction ids distinct and never zero. */
  ghost predicate ListOk(ps: seq<Pending>) {
    && (forall i, j :: 0 <= i < j < |ps| ==> ps[i] != ps[j])
    && RequestsFirst(ps) && DistinctUtids(ps)
    && (forall i :: 0 <= i < |ps| ==> (ps[i].utid == 0 <==> ps[i].kind != RESP))
  }

  /** Requests got their ids in turn; none of an earlier round is outstanding; each was told
      its outcome exactly once when it left the list, and nothing before. */
  ghost predicate HistoryOk(ps: seq<Pending>, last: byte, accepted: seq<Pending>, log: seq<Note>) {
    && last == (if |accepted| == 0 then 0 else NthUtid(|accepted| - 1))
    && (forall j, k :: 0 <= j < k < |accepted| ==> accepted[j] != accepted[k])
    && (forall k :: 0 <= k < |accepted| ==> accepted[k].kind == RESP && accepted[k].utid == NthUtid(k))
    && (forall k :: 0 <= k < |accepted| && accepted[k] in ps ==> k + 255 >= |accepted|)
    && (forall op :: op in ps && op.kind == RESP ==> op in accepted)
    && (forall op :: op in accepted ==> Times(log, op) == if op in ps || !op.hasNotify then 0 else 1)
  }

  /** What a message sets off: a response is told to the request with its transaction id and
      to nobody else; any other message once to everybody who asked for its type and can be
      told, in the order they asked, and the list stays as it is. */
  lemma {:induction false} MessageTells(ps: seq<Pending>, msg: Message, indication: bool)
    requires ListOk(ps)
    ensures var t := Told(Hearers(ps, msg, indication), Arrived(msg)); var rest := Left(ps, msg, indication);
      && (forall i :: 0 <= i < |ps| && ps[i].kind == RESP && !indication && ps[i].utid == msg.utid ==>
            t == (if ps[i].hasNotify then [Note(ps[i], Arrived(msg))] else []) && rest == Without(ps, i))
      && ((forall op :: op in ps && op.kind == RESP ==> indication || op.utid != msg.utid) ==>
            && rest == ps
            && (forall note :: note in t <==> note.op in ps && note.op.kind != RESP && note.op.msgid == msg.id
                                              && note.op.hasNotify && note.notice == Arrived(msg))
            && (forall i, j :: 0 <= i < j < |t| ==> Before(ps, t[i].op, t[j].op)))
  {
    hide Hearers, Told, Without, Before;
    forall i | 0 <= i < |ps| && ps[i].kind == RESP && !indication && ps[i].utid == msg.utid
      ensures Told(Hearers(ps, msg, indication), Arrived(msg)) == if ps[i].hasNotify then [Note(ps[i], Arrived(msg))] else []
      ensures Left(ps, msg, indication) == Without(ps, i)
    {
      ResponseGoesToRequester(ps, msg, i);
      assert Hearers(ps, msg, indication) == [ps[i]];
      ToldOne(ps[i], Arrived(msg));
    }
    if forall op :: op in ps && op.kind == RESP ==> indication || op.utid != msg.utid {
      if |ps| > 0 {
        OthersGoByType(ps, msg, indication, ps[0]);
      }
      HeardInOrder(ps, msg, indication);
      var h := Hearers(ps, msg, indication);
      forall note | note in Told(h, Arrived(msg)) ensures note.op in h && note.op.hasNotify && note.notice == Arrived(msg) {
        ToldAre(h, Arrived(msg));
        var i :| 0 <= i < |Told(h, Arrived(msg))| && Told(h, Arrived(msg))[i] == note;
      }
      forall op | op in h && op.hasNotify ensures Note(op, Arrived(msg)) in Told(h, Arrived(msg)) {
        ToldAre(h, Arrived(msg));
      }
      ToldInOrder(h, ps, Arrived(msg));
      forall note ensures note in Told(h, Arrived(msg)) <==>
        note.op in ps && note.op.kind != RESP && note.op.msgid == msg.id && note.op.hasNotify && note.notice == Arrived(msg)
      {
        OthersGoByType(ps, msg, indication, note.op);
        assert note.notice == Arrived(msg) ==> note == Note(note.op, Arrived(msg));
      }
    }
  }

  lemma {:induction false} ToldOne(op: Pending, notice: Notice)
    ensures Told([op], notice) == if op.hasNotify then [Note(op, notice)] else []
  {
    assert [op][1..] == [];
  }

  lemma {:induction false} ToldInOrder(h: seq<Pending>, ps: seq<Pending>, notice: Notice)
    requires InOrder(h, ps)
    ensures var t := Told(h, notice); forall i, j :: 0 <= i < j < |t| ==> Before(ps, t[i].op, t[j].op)
    decreases |h|
  {
    hide Before;
    if |h| > 0 {
      assert InOrder(h[1..], ps) by {
        assert forall i :: 0 <= i < |h[1..]| ==> h[1..][i] == h[i + 1];
      }
      ToldInOrder(h[1..], ps, notice);
      ToldAre(h[1..], notice);
      forall op | op in h[1..] ensures Before(ps, h[0], op) {
        var i :| 0 <= i < |h[1..]| && h[1..][i] == op;
        assert h[i + 1] == op;
      }
    }
  }

  lemma ListOkWithout(ps: seq<Pending>, i: nat)
    requires ListOk(ps) && i < |ps|
    ensures ListOk(Without(ps, i))
  {
    WithoutIs(ps, i);
    hide Without;
  }

  lemma ListOkFront(ps: seq<Pending>, op: Pending)
    requires ListOk(ps) && op !in ps && op.kind == RESP && op.utid != 0
    requires forall p :: p in ps ==> p.utid != op.utid
    ensures ListOk([op] + ps)
  {
  }

  lemma ListOkBack(ps: seq<Pending>, op: Pending)
    requires ListOk(ps) && op !in ps && op.kind != RESP && op.utid == 0
    ensures ListOk(ps + [op])
  {
  }

  lemma HistoryOkWithout(ps: seq<Pending>, i: nat, last: byte, accepted: seq<Pending>, log: seq<Note>, notice: Notice)
    requires ListOk(ps) && HistoryOk(ps, last, accepted, log) && i < |ps|
    ensures var op := ps[i];
      HistoryOk(Without(ps, i), last, accepted, log + if op.kind == RESP && op.hasNotify then [Note(op, notice)] else [])
  {
    WithoutIs(ps, i);
    TimesAfter(log, Note(ps[i], notice), accepted);
    hide Without, Times, NthUtid, RequestsFirst, DistinctUtids;
  }

  lemma {:induction false} HistoryOkFront(ps: seq<Pending>, op: Pending, last: byte, accepted: seq<Pending>, log: seq<Note>)
    requires HistoryOk(ps, last, accepted, log) && op !in accepted && op !in ps && op.kind == RESP
    requires op.utid == NthUtid(|accepted|) && Times(log, op) == 0
    requires forall p :: p in ps ==> p.utid != op.utid
    ensures HistoryOk([op] + ps, op.utid, accepted + [op], log)
  {
    forall k | 0 <= k < |accepted| && accepted[k] in ps ensures k + 255 > |accepted| {
      SameUtid(k, |accepted|);
    }
    hide Times, NthUtid;
    var later := accepted + [op];
    forall q | q in [op] + ps && q.kind == RESP ensures q in later {
      if q in accepted {
        var k :| 0 <= k < |accepted| && accepted[k] == q;
        assert later[k] == q;
      } else {
        assert later[|accepted|] == op;
      }
    }
  }

  lemma HistoryOkBack(ps: seq<Pending>, op: Pending, last: byte, accepted: seq<Pending>, log: seq<Note>)
    requires HistoryOk(ps, last, accepted, log) && op !in accepted && op.kind != RESP
    ensures HistoryOk(ps + [op], last, accepted, log)
  {
    hide Times, NthUtid;
  }

  /** A request is refused as busy exactly while the one accepted 255 requests earlier is
      still outstanding; so at most 255 are outstanding at any time. */
  lemma BusyIffLastRoundOutstanding(ps: seq<Pending>, last: byte, accepted: seq<Pending>, log: seq<Note>)
    requires ListOk(ps) && HistoryOk(ps, last, accepted, log)
    ensures (exists op :: op in ps && op.utid == NextUtid(last))
            <==> |accepted| >= 255 && accepted[|accepted| - 255] in ps
  {
    hide Times;
    var n := |accepted|;
    NextIsNth(n);
    if n >= 255 {
      SameUtid(n - 255, n);
    }
    if exists op :: op in ps && op.utid == NextUtid(last) {
      var op :| op in ps && op.utid == NextUtid(last);
      assert op.kind == RESP;
      var k :| 0 <= k < n && accepted[k] == op;
      SameUtid(k, n);
    }
  }

  class ServiceMux {
    var pending: seq<Pending>
    var lastUtid: byte
    var subscriptions: nat
    var registrations: nat
    /** The history: requests accepted, in order, and everything owners were told. */
    ghost var accepted: seq<Pending>
    ghost var log: seq<Note>

    /** Timers run only for requests that are still outstanding. */
    ghost predicate TimersOk()
      reads this, accepted
    {
      forall op :: op in accepted && op.timeout ==> op in pending
    }

    ghost predicate Valid()
      reads this, accepted
    {
      && ListOk(pending) && HistoryOk(pending, lastUtid, accepted, log) && TimersOk()
      && subscriptions == Count(pending, IND) && registrations == Count(pending, REQ)
    }

    constructor ()
      ensures Valid() && pending == [] && accepted == [] && log == []
    {
      pending, lastUtid, subscriptions, registrations := [], 0, 0, 0;
      accepted, log := [], [];
    }

    /** Accepted only if the next transaction id is free and the message could be sent. */
    method RequestSend(timeout: nat, hasNotify: bool, sendOk: bool) returns (resp: Pending?)
      requires Valid()
      modifies this`pending, this`lastUtid, this`accepted
      ensures Valid() && log == old(log)
      ensures resp != null <==> sendOk && forall op :: op in old(pending) ==> op.utid != NextUtid(old(lastUtid))
      ensures resp == null ==> pending == old(pending) && accepted == old(accepted) && lastUtid == old(lastUtid)
      ensures resp != null ==>
        && fresh(resp) && resp.kind == RESP && resp.utid == lastUtid == NextUtid(old(lastUtid))
        && resp.utid == |old(accepted)| % 255 + 1
        && resp.hasNotify == hasNotify && resp.timeout == (timeout > 0)
        && pending == [resp] + old(pending) && accepted == old(accepted) + [resp]
    {
      hide Times, Count, ListOk;
      var utid := NextUtid(lastUtid);
      var busy := UtidInUse(utid);
      if busy || !sendOk {
        return null;
      }
      var op := new Pending(RESP, utid, 0, hasNotify);
      if timeout > 0 {
        op.timeout := true;
      }
      NextIsNth(|accepted|);
      NeverTold(log, op);
      Accept(op);
      resp := op;
    }

    method UtidInUse(utid: byte) returns (busy: bool)
      ensures busy <==> exists op :: op in pending && op.utid == utid
    {
      var i := 0;
      while i < |pending|
        invariant i <= |pending| && forall k :: 0 <= k < i ==> pending[k].utid != utid
      {
        if pending[i].utid == utid {
          return true;
        }
        i := i + 1;
      }
      return false;
    }

    /** The request takes the front of the list. */
    method Accept(op: Pending)
      requires Valid() && op !in pending && op !in accepted && op.kind == RESP
      requires op.utid == NthUtid(|accepted|) && Times(log, op) == 0
      requires forall p :: p in pending ==> p.utid != op.utid
      modifies this`pending, this`lastUtid, this`accepted
      ensures Valid() && pending == [op] + old(pending) && accepted == old(accepted) + [op] && lastUtid == op.utid
    {
      hide Times, Count, ListOk, HistoryOk;
      CountAppend([op], pending, IND);
      CountAppend([op], pending, REQ);
      CountOne(op, IND);
      CountOne(op, REQ);
      ListOkFront(pending, op);
      HistoryOkFront(pending, op, lastUtid, accepted, log);
      pending := [op] + pending;
      lastUtid := op.utid;
      accepted := accepted + [op];
    }

    /** Subscriptions to notifications and indications, and services, go to the end. */
    method Enlist(kind: Kind, msgid: byte, hasNotify: bool) returns (op: Pending)
      requires Valid() && kind != RESP
      modifies this`pending, this`subscriptions, this`registrations
      ensures Valid() && fresh(op) && op.kind == kind && op.msgid == msgid && op.hasNotify == hasNotify
      ensures pending == old(pending) + [op]
      ensures subscriptions == old(subscriptions) + (if kind == IND then 1 else 0)
      ensures registrations == old(registrations) + (if kind == REQ then 1 else 0)
    {
      hide Times, Count, ListOk, HistoryOk;
      op := new Pending(kind, 0, msgid, hasNotify);
      CountAppend(pending, [op], IND);
      CountAppend(pending, [op], REQ);
      CountOne(op, IND);
      CountOne(op, REQ);
      ListOkBack(pending, op);
      HistoryOkBack(pending, op, lastUtid, accepted, log);
      pending := pending + [op];
      if kind == IND {
        subscriptions := subscriptions + 1;
      }
      if kind == REQ {
        registrations := registrations + 1;
      }
    }

    /** Where an entry stands. */
    method Find(op: Pending) returns (i: nat)
      requires op in pending
      ensures i < |pending| && pending[i] == op
    {
      i := 0;
      while pending[i] != op
        invariant i < |pending| && op in pending[i..]
        decreases |pending| - i
      {
        assert op in pending[i + 1..] by { assert pending[i..] == [pending[i]] + pending[i + 1..]; }
        i := i + 1;
      }
    }

    /** The entry leaves the list; what counts it goes down. */
    method UnlistAt(i: nat, notice: Notice)
      requires Valid() && i < |pending|
      modifies this`pending, this`log, this`subscriptions, this`registrations, At(i)`timeout
      ensures Valid() && pending == Without(old(pending), i) && !old(pending)[i].timeout
      ensures var op := old(pending)[i];
        op !in pending && log == old(log) + if op.kind == RESP && op.hasNotify then [Note(op, notice)] else []
    {
      hide Times, Count, ListOk, HistoryOk, Without;
      var op := pending[i];
      CountWithout(pending, i, IND);
      CountWithout(pending, i, REQ);
      ListOkWithout(pending, i);
      HistoryOkWithout(pending, i, lastUtid, accepted, log, notice);
      Removed(pending, i);
      if op.kind == IND && subscriptions > 0 {
        subscriptions := subscriptions - 1;
      }
      if op.kind == REQ && registrations > 0 {
        registrations := registrations - 1;
      }
      log := log + if op.kind == RESP && op.hasNotify then [Note(op, notice)] else [];
      pending := Without(pending, i);
      op.timeout := false;
    }

    function At(i: nat): Pending
      requires i < |pending|
      reads this
    {
      pending[i]
    }

    method Unlist(op: Pending, notice: Notice)
      requires Valid() && op in pending
      modifies this`pending, this`log, this`subscriptions, this`registrations, op`timeout
      ensures Valid() && op !in pending && !op.timeout
      ensures exists i :: 0 <= i < |old(pending)| && old(pending)[i] == op && pending == Without(old(pending), i)
      ensures log == old(log) + if op.kind == RESP && op.hasNotify then [Note(op, notice)] else []
    {
      hide Times, Count, ListOk, HistoryOk, Without;
      var i := Find(op);
      UnlistAt(i, notice);
    }

    /** A message of the modem: everybody concerned hears of it, in list order, and a
        transaction it completes is over. */
    method Dispatch(msg: Message, indication: bool)
      requires Valid()
      modifies this`pending, this`log, this`subscriptions, this`registrations, pending
      ensures Valid() && pending == Left(old(pending), msg, indication)
      ensures log == old(log) + Told(Hearers(old(pending), msg, indication), Arrived(msg))
    {
      hide Times, Count, ListOk, HistoryOk, Hearers, Left, Told, Without;
      ghost var l0, notice := pending, Arrived(msg);
      var i := 0;
      DispatchStarts(l0, msg, indication);
      while i < |pending|
        invariant Valid() && pending == l0 && i <= |l0|
        invariant Left(l0, msg, indication) == l0[..i] + Left(l0[i..], msg, indication)
        invariant log + Told(Hearers(l0[i..], msg, indication), notice) == old(log) + Told(Hearers(l0, msg, indication), notice)
      {
        var op := pending[i];
        DispatchStep(l0, i, msg, indication, notice);
        if op.kind != RESP && op.msgid == msg.id {
          if op.hasNotify {
            HistoryOkTold(pending, lastUtid, accepted, log, Note(op, notice));
            log := log + [Note(op, notice)];
          }
        } else if op.kind == RESP && !indication && op.utid == msg.utid {
          UnlistAt(i, Arrived(msg));
          return;
        }
        i := i + 1;
      }
      DispatchEnds(l0, msg, indication, notice);
    }

    method SetOwner(op: Pending, owner: nat)
      requires Valid()
      modifies op`owner
      ensures Valid() && op.owner == owner
    {
      op.owner := owner;
    }

    /** Everything of one owner goes, waiting requests being told so; the rest stays in
        order. The entries are taken off first and told afterwards, last one first. */
    method RemovePendingByOwner(owner: nat)
      requires Valid()
      modifies this`pending, this`log, this`subscriptions, this`registrations, (set op | op in pending)`timeout
      ensures Valid() && pending == old(Kept(pending, owner))
      ensures log == old(log) + ToldRequests(old(Owned(pending, owner)), ShutDown)
      ensures forall i :: |old(log)| <= i < |log| ==>
        log[i].notice == ShutDown && log[i].op in old(pending) && log[i].op.owner == owner && log[i].op.kind == RESP && log[i].op.hasNotify
      ensures forall op :: op in old(pending) && op.owner == owner && op.kind == RESP && op.hasNotify ==>
        Note(op, ShutDown) in log[|old(log)|..]
      ensures forall i, j :: |old(log)| <= i < j < |log| ==> log[i].op != log[j].op
      ensures forall op :: op in old(Owned(pending, owner)) ==> !op.timeout
    {
      hide Times, Count, ListOk, HistoryOk, Kept, Owned, ToldRequests;
      ghost var l0 := pending;
      ghost var kept, gone := Kept(l0, owner), Owned(l0, owner);
      KeptOk(l0, owner);
      assert Count(l0, IND) == Count(kept, IND) + Count(gone, IND);
      assert Count(l0, REQ) == Count(kept, REQ) + Count(gone, REQ);
      var owned := TakeOwned(owner);
      StillAll(l0, kept, gone, lastUtid, accepted, log, owner);
      ghost var before := log;
      Destroy(owned);
      OwnersTold(before, gone);
    }

    /** Splits the list. */
    method TakeOwned(owner: nat) returns (owned: seq<Pending>)
      modifies this`pending
      ensures pending == old(Kept(pending, owner)) && owned == Owned(old(pending), owner)
    {
      hide Kept, Owned;
      var kept: seq<Pending>, i := [], 0;
      owned := [];
      ghost var l0 := pending;
      assert l0[0..] == l0;
      while i < |pending|
        invariant i <= |l0| && pending == l0
        invariant kept + Kept(l0[i..], owner) == Kept(l0, owner)
        invariant Owned(l0[i..], owner) + owned == Owned(l0, owner)
      {
        SplitStep(l0, i, owner);
        var op := pending[i];
        if op.owner != owner {
          assert kept + ([op] + Kept(l0[i + 1..], owner)) == kept + [op] + Kept(l0[i + 1..], owner);
          kept := kept + [op];
        } else {
          assert Owned(l0[i + 1..], owner) + [op] + owned == Owned(l0[i + 1..], owner) + ([op] + owned);
          owned := [op] + owned;
        }
        i := i + 1;
      }
      SplitEnds(l0, owner);
      assert kept + [] == kept && [] + owned == owned;
      pending := kept;
    }

    /** Tells the entries taken off the list, one after the other. */
    method Destroy(owned: seq<Pending>)
      requires ListOk(pending) && HistoryOk(pending + owned, lastUtid, accepted, log)
      requires forall op :: op in accepted && op.timeout ==> op in pending || op in owned
      requires forall i, j :: 0 <= i < j < |owned| ==> owned[i] != owned[j]
      requires forall op :: op in owned ==> op !in pending
      requires subscriptions == Count(pending, IND) + Count(owned, IND)
      requires registrations == Count(pending, REQ) + Count(owned, REQ)
      modifies this`log, this`subscriptions, this`registrations, (set op | op in owned)`timeout
      ensures Valid() && log == old(log) + ToldRequests(owned, ShutDown)
      ensures forall op :: op in owned ==> !op.timeout
    {
      hide Times, ListOk, HistoryOk, Count;
      var i := 0;
      assert owned[0..] == owned;
      while i < |owned|
        invariant i <= |owned| && HistoryOk(pending + owned[i..], lastUtid, accepted, log)
        invariant forall op :: op in accepted && op.timeout ==> op in pending || op in owned[i..]
        invariant forall k :: 0 <= k < i ==> !owned[k].timeout
        invariant subscriptions == Count(pending, IND) + Count(owned[i..], IND)
        invariant registrations == Count(pending, REQ) + Count(owned[i..], REQ)
        invariant log + ToldRequests(owned[i..], ShutDown) == old(log) + ToldRequests(owned, ShutDown)
      {
        DestroyOne(owned[i], owned[i + 1..], owned[i..]);
        i := i + 1;
      }
      DestroyEnds(pending, owned, log);
    }

    method DestroyOne(op: Pending, ghost rest: seq<Pending>, ghost all: seq<Pending>)
      requires all == [op] + rest && HistoryOk(pending + all, lastUtid, accepted, log)
      requires op !in pending && op !in rest
      requires subscriptions == Count(pending, IND) + Count(all, IND)
      requires registrations == Count(pending, REQ) + Count(all, REQ)
      modifies this`log, this`subscriptions, this`registrations, op`timeout
      ensures HistoryOk(pending + rest, lastUtid, accepted, log) && !op.timeout
      ensures subscriptions == Count(pending, IND) + Count(rest, IND)
      ensures registrations == Count(pending, REQ) + Count(rest, REQ)
      ensures log + ToldRequests(rest, ShutDown) == old(log) + ToldRequests(all, ShutDown)
    {
      hide Times, HistoryOk;
      HistoryOkDrop(pending, op, rest, lastUtid, accepted, log, ShutDown);
      CountAppend([op], rest, IND);
      CountAppend([op], rest, REQ);
      CountOne(op, IND);
      CountOne(op, REQ);
      if op.kind == IND && subscriptions > 0 {
        subscriptions := subscriptions - 1;
      }
      if op.kind == REQ && registrations > 0 {
        registrations := registrations - 1;
      }
      ghost var note := if op.kind == RESP && op.hasNotify then [Note(op, ShutDown)] else [];
      assert all[1..] == rest && ToldRequests(all, ShutDown) == note + ToldRequests(rest, ShutDown);
      assert log + note + ToldRequests(rest, ShutDown) == log + (note + ToldRequests(rest, ShutDown));
      log := log + note;
      op.timeout := false;
    }

    /** A timer goes off: the request is told and forgotten. */
    method RespTimeout(op: Pending)
      requires Valid() && op in accepted && op.timeout
      modifies this`pending, this`log, this`subscriptions, this`registrations, op`timeout
      ensures Valid() && op !in pending && !op.timeout && op in old(pending)
      ensures log == old(log) + if op.hasNotify then [Note(op, TimedOut)] else []
    {
      hide Times, Count;
      Unlist(op, TimedOut);
    }

    /** The owner withdraws an entry. A request that is still waiting is told so. */
    method PendingRemove(op: Pending)
      requires Valid() && op in pending
      modifies this`pending, this`log, this`subscriptions, this`registrations, op`timeout
      ensures Valid() && op !in pending
      ensures log == old(log) + if op.kind == RESP && op.hasNotify then [Note(op, ShutDown)] else []
    {
      Unlist(op, ShutDown);
    }
  }

  /** The entries of other owners, and those of one owner, last one first. */
  function Kept(ps: seq<Pending>, owner: nat): seq<Pending>
    reads ps
  {
    if |ps| == 0 then [] else (if ps[0].owner != owner then [ps[0]] else []) + Kept(ps[1..], owner)
  }

  function Owned(ps: seq<Pending>, owner: nat): seq<Pending>
    reads ps
  {
    if |ps| == 0 then [] else Owned(ps[1..], owner) + if ps[0].owner == owner then [ps[0]] else []
  }

  function ToldRequests(ops: seq<Pending>, notice: Notice): seq<Note> {
    if |ops| == 0 then []
    else (if ops[0].kind == RESP && ops[0].hasNotify then [Note(ops[0], notice)] else []) + ToldRequests(ops[1..], notice)
  }

  /** What the owner of removed entries is told: of each request it can be told of, that it was
      shut down, once, and of nothing else. */
  lemma {:induction false} RequestsTold(ops: seq<Pending>, notice: Notice)
    requires forall i, j :: 0 <= i < j < |ops| ==> ops[i] != ops[j]
    ensures var t := ToldRequests(ops, notice);
      && (forall i :: 0 <= i < |t| ==> t[i].notice == notice && t[i].op in ops && t[i].op.kind == RESP && t[i].op.hasNotify)
      && (forall op :: op in ops && op.kind == RESP && op.hasNotify ==> Note(op, notice) in t)
      && (forall i, j :: 0 <= i < j < |t| ==> t[i].op != t[j].op)
    decreases |ops|
  {
    if |ops| > 0 {
      RequestsTold(ops[1..], notice);
      assert forall op :: op in ops <==> op == ops[0] || op in ops[1..];
      assert ops[0] !in ops[1..];
    }
  }

  lemma {:induction false} OwnersTold(before: seq<Note>, gone: seq<Pending>)
    requires forall i, j :: 0 <= i < j < |gone| ==> gone[i] != gone[j]
    ensures var log := before + ToldRequests(gone, ShutDown);
      && (forall i :: |before| <= i < |log| ==>
            log[i].notice == ShutDown && log[i].op in gone && log[i].op.kind == RESP && log[i].op.hasNotify)
      && (forall op :: op in gone && op.kind == RESP && op.hasNotify ==> Note(op, ShutDown) in log[|before|..])
      && (forall i, j :: |before| <= i < j < |log| ==> log[i].op != log[j].op)
  {
    RequestsTold(gone, ShutDown);
    var t := ToldRequests(gone, ShutDown);
    assert (before + t)[|before|..] == t;
  }

  lemma DestroyEnds(ps: seq<Pending>, owned: seq<Pending>, log: seq<Note>)
    ensures ps + owned[|owned|..] == ps && log + ToldRequests(owned[|owned|..], ShutDown) == log
    ensures forall kind :: Count(owned[|owned|..], kind) == 0
  {
  }

  lemma ListOkTail(ps: seq<Pending>)
    requires ListOk(ps) && |ps| > 0
    ensures ListOk(ps[1..]) && ps[0] !in ps[1..]
  {
  }

  lemma ListOkCons(all: seq<Pending>, ps: seq<Pending>)
    requires |all| > 0 && ListOk(all) && ListOk(ps) && forall i :: 0 <= i < |ps| ==> ps[i] in all[1..]
    ensures ListOk([all[0]] + ps)
  {
    var op := all[0];
    forall i | 0 <= i < |ps| ensures ps[i] != op && (ps[i].kind == RESP ==> op.kind == RESP && op.utid != ps[i].utid) {
      var k :| 0 <= k < |all[1..]| && all[1..][k] == ps[i];
      assert all[k + 1] == ps[i];
    }
  }

  lemma {:induction false} SplitMembers(ps: seq<Pending>, owner: nat, op: Pending)
    ensures op in Kept(ps, owner) <==> op in ps && op.owner != owner
    ensures op in Owned(ps, owner) <==> op in ps && op.owner == owner
    decreases |ps|
  {
    if |ps| > 0 {
      SplitMembers(ps[1..], owner, op);
      assert op in ps <==> op == ps[0] || op in ps[1..];
    }
  }

  lemma {:induction false} SplitStep(ps: seq<Pending>, i: nat, owner: nat)
    requires i < |ps|
    ensures if ps[i].owner != owner
            then Kept(ps[i..], owner) == [ps[i]] + Kept(ps[i + 1..], owner) && Owned(ps[i..], owner) == Owned(ps[i + 1..], owner)
            else Kept(ps[i..], owner) == Kept(ps[i + 1..], owner) && Owned(ps[i..], owner) == Owned(ps[i + 1..], owner) + [ps[i]]
  {
    assert ps[i..][1..] == ps[i + 1..];
  }

  lemma {:induction false} SplitEnds(ps: seq<Pending>, owner: nat)
    ensures Kept(ps[|ps|..], owner) == Owned(ps[|ps|..], owner) == []
  {
  }

  /** The entries kept are in the order they were in; those taken off, in the opposite one. */
  lemma {:induction false} SplitInOrder(ps: seq<Pending>, owner: nat)
    ensures InOrder(Kept(ps, owner), ps)
    ensures var owned := Owned(ps, owner); forall i, j :: 0 <= i < j < |owned| ==> Before(ps, owned[j], owned[i])
    decreases |ps|
  {
    hide Before;
    if |ps| > 0 {
      SplitInOrder(ps[1..], owner);
      forall op | op in Kept(ps[1..], owner) ensures op in ps[1..] {
        SplitMembers(ps[1..], owner, op);
      }
      forall op | op in Owned(ps[1..], owner) ensures op in ps[1..] {
        SplitMembers(ps[1..], owner, op);
      }
      InOrderCons(Kept(ps[1..], owner), ps);
      assert [] + Kept(ps[1..], owner) == Kept(ps[1..], owner);
      var owned := Owned(ps, owner);
      forall i, j | 0 <= i < j < |owned| ensures Before(ps, owned[j], owned[i]) {
        assert owned[i] == Owned(ps[1..], owner)[i] && owned[i] in ps[1..];
        if j < |Owned(ps[1..], owner)| {
          BeforeTail(ps, owned[j], owned[i]);
        } else {
          BeforeHead(ps, owned[i]);
        }
      }
    }
  }

  lemma {:induction false} SplitCounts(ps: seq<Pending>, owner: nat, kind: Kind)
    ensures Count(ps, kind) == Count(Kept(ps, owner), kind) + Count(Owned(ps, owner), kind)
    decreases |ps|
  {
    if |ps| > 0 {
      SplitCounts(ps[1..], owner, kind);
      CountAppend([ps[0]], Kept(ps[1..], owner), kind);
      CountAppend(Owned(ps[1..], owner), [ps[0]], kind);
      CountOne(ps[0], kind);
      assert [] + Kept(ps[1..], owner) == Kept(ps[1..], owner);
      assert Owned(ps[1..], owner) + [] == Owned(ps[1..], owner);
    }
  }

  lemma {:induction false} KeptListOk(ps: seq<Pending>, owner: nat)
    requires ListOk(ps)
    ensures ListOk(Kept(ps, owner))
    ensures forall i, j :: 0 <= i < j < |Owned(ps, owner)| ==> Owned(ps, owner)[i] != Owned(ps, owner)[j]
    decreases |ps|
  {
    hide ListOk;
    if |ps| == 0 {
      assert ps == [];
    } else {
      ListOkTail(ps);
      KeptListOk(ps[1..], owner);
      var kept := Kept(ps[1..], owner);
      forall i | 0 <= i < |kept| ensures kept[i] in ps[1..] {
        SplitMembers(ps[1..], owner, kept[i]);
      }
      SplitMembers(ps[1..], owner, ps[0]);
      ListOkCons(ps, Kept(ps[1..], owner));
      assert [] + Kept(ps[1..], owner) == Kept(ps[1..], owner);
    }
  }

  lemma {:induction false} KeptOk(ps: seq<Pending>, owner: nat)
    requires ListOk(ps)
    ensures ListOk(Kept(ps, owner))
    ensures forall op :: op in Kept(ps, owner) <==> op in ps && op.owner != owner
    ensures forall op :: op in Owned(ps, owner) <==> op in ps && op.owner == owner
    ensures forall i, j :: 0 <= i < j < |Owned(ps, owner)| ==> Owned(ps, owner)[i] != Owned(ps, owner)[j]
    ensures forall kind :: Count(ps, kind) == Count(Kept(ps, owner), kind) + Count(Owned(ps, owner), kind)
  {
    KeptListOk(ps, owner);
    forall op
      ensures op in Kept(ps, owner) <==> op in ps && op.owner != owner
      ensures op in Owned(ps, owner) <==> op in ps && op.owner == owner
    {
      SplitMembers(ps, owner, op);
    }
    forall kind ensures Count(ps, kind) == Count(Kept(ps, owner), kind) + Count(Owned(ps, owner), kind) {
      SplitCounts(ps, owner, kind);
    }
  }

  lemma HistoryOkSame(ps: seq<Pending>, qs: seq<Pending>, last: byte, accepted: seq<Pending>, log: seq<Note>)
    requires HistoryOk(ps, last, accepted, log) && forall op :: op in ps <==> op in qs
    ensures HistoryOk(qs, last, accepted, log)
  {
    hide Times, NthUtid;
  }

  /** Kept and owned entries together are the whole list. */
  lemma StillAll(ps: seq<Pending>, kept: seq<Pending>, owned: seq<Pending>, last: byte, accepted: seq<Pending>,
                 log: seq<Note>, owner: nat)
    requires HistoryOk(ps, last, accepted, log)
    requires forall op :: op in kept <==> op in ps && op.owner != owner
    requires forall op :: op in owned <==> op in ps && op.owner == owner
    ensures HistoryOk(kept + owned, last, accepted, log)
  {
    hide HistoryOk;
    HistoryOkSame(ps, kept + owned, last, accepted, log);
  }

  lemma HistoryOkDrop(ps: seq<Pending>, op: Pending, rest: seq<Pending>, last: byte, accepted: seq<Pending>,
                      log: seq<Note>, notice: Notice)
    requires HistoryOk(ps + ([op] + rest), last, accepted, log) && op !in ps && op !in rest
    ensures HistoryOk(ps + rest, last, accepted,
                      log + if op.kind == RESP && op.hasNotify then [Note(op, notice)] else [])
  {
    TimesAfter(log, Note(op, notice), accepted);
    hide Times, NthUtid;
    assert forall q :: q in ps + ([op] + rest) <==> q in ps + rest || q == op;
  }

  lemma HistoryOkTold(ps: seq<Pending>, last: byte, accepted: seq<Pending>, log: seq<Note>, note: Note)
    requires HistoryOk(ps, last, accepted, log) && note.op.kind != RESP
    ensures HistoryOk(ps, last, accepted, log + [note])
  {
    TimesAfter(log, note, accepted);
    hide Times, NthUtid;
    forall op | op in accepted ensures op != note.op {
      var k :| 0 <= k < |accepted| && accepted[k] == op;
    }
  }

  lemma {:induction false} DispatchStarts(ps: seq<Pending>, msg: Message, indication: bool)
    ensures Left(ps, msg, indication) == ps[..0] + Left(ps[0..], msg, indication)
    ensures ps[0..] == ps
  {
    assert ps[0..] == ps;
  }

  lemma {:induction false} DispatchStep(ps: seq<Pending>, i: nat, msg: Message, indication: bool, notice: Notice)
    requires i < |ps|
    ensures var op := ps[i]; var rest := ps[i + 1..];
      if Completes(op, msg, indication) then
        Hearers(ps[i..], msg, indication) == [op] && ps[..i] + Left(ps[i..], msg, indication) == Without(ps, i)
        && Told([op], notice) == if op.hasNotify then [Note(op, notice)] else []
      else
        && ps[..i] + Left(ps[i..], msg, indication) == ps[..i + 1] + Left(rest, msg, indication)
        && Told(Hearers(ps[i..], msg, indication), notice) ==
           (if op.kind != RESP && op.msgid == msg.id && op.hasNotify then [Note(op, notice)] else [])
           + Told(Hearers(rest, msg, indication), notice)
  {
    var op, rest := ps[i], ps[i + 1..];
    assert ps[i..][1..] == rest;
    if Completes(op, msg, indication) {
      assert [op][1..] == [];
    } else {
      assert ps[..i] + ([op] + Left(rest, msg, indication)) == ps[..i + 1] + Left(rest, msg, indication);
      assert ([op] + Hearers(rest, msg, indication))[1..] == Hearers(rest, msg, indication);
    }
  }

  lemma {:induction false} DispatchEnds(ps: seq<Pending>, msg: Message, indication: bool, notice: Notice)
    ensures ps[..|ps|] + Left(ps[|ps|..], msg, indication) == ps
    ensures Told(Hearers(ps[|ps|..], msg, indication), notice) == []
  {
  }

  lemma Removed(ps: seq<Pending>, i: nat)
    requires ListOk(ps) && i < |ps|
    ensures forall op :: op in Without(ps, i) <==> op in ps && op != ps[i]
  {
    WithoutIs(ps, i);
    hide Without;
  }

  lemma {:induction false} TimesAfter(log: seq<Note>, note: Note, ops: seq<Pending>)
    ensures forall op :: op in ops ==> Times(log + [note], op) == Times(log, op) + if note.op == op then 1 else 0
    ensures log + [] == log
  {
    forall op | op in ops ensures Times(log + [note], op) == Times(log, op) + if note.op == op then 1 else 0 {
      TimesSnoc(log, note, op);
    }
  }

  /** The rest of the list is as it was, in the same order. */
  lemma WithoutIs(ps: seq<Pending>, i: nat)
    requires i < |ps|
    ensures |Without(ps, i)| == |ps| - 1
    ensures forall k :: 0 <= k < |ps| - 1 ==> Without(ps, i)[k] == ps[if k < i then k else k + 1]
    ensures (forall j, k :: 0 <= j < k < |ps| ==> ps[j] != ps[k]) ==>
            forall op :: op in Without(ps, i) <==> op in ps && op != ps[i]
  {
    if forall j, k :: 0 <= j < k < |ps| ==> ps[j] != ps[k] {
      forall op ensures op in Without(ps, i) <==> op in ps && op != ps[i] {
        if op in ps && op != ps[i] {
          var k :| 0 <= k < |ps| && ps[k] == op;
          assert Without(ps, i)[if k < i then k else k - 1] == op;
        }
      }
    }
  }
}
