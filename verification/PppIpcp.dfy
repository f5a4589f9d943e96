/** The options IPCP negotiates: what is asked for, and how answers and requests of the
    peer change it. */
module PppIpcpOptions {
  import opened Bytes
  import opened PppOptions

  /** The settings a client asks for, in the order it asks. */
  datatype Field = IpAddr | Dns1 | Dns2 | Nbns1 | Nbns2

  type Addr = s: seq<byte> | |s| == 4 witness [0, 0, 0, 0]

  const NO_ADDR: Addr := [0, 0, 0, 0]

  datatype Ipcp = Ipcp(asked: set<Field>, local: Addr, peer: Addr, dns1: Addr, dns2: Addr,
                       nbns1: Addr, nbns2: Addr, isServer: bool)

  function KindOf(f: Field): byte {
    match f
    case IpAddr => 3
    case Dns1 => 129
    case Dns2 => 131
    case Nbns1 => 130
    case Nbns2 => 132
  }

  predicate Known(kind: byte) {
    kind == 3 || 129 <= kind <= 132
  }

  function FieldOf(kind: byte): (f: Field)
    requires Known(kind)
    ensures KindOf(f) == kind
  {
    if kind == 3 then IpAddr else if kind == 129 then Dns1 else if kind == 131 then Dns2
    else if kind == 130 then Nbns1 else Nbns2
  }

  function Get(d: Ipcp, f: Field): Addr {
    match f
    case IpAddr => d.local
    case Dns1 => d.dns1
    case Dns2 => d.dns2
    case Nbns1 => d.nbns1
    case Nbns2 => d.nbns2
  }

  function Set(d: Ipcp, f: Field, a: Addr): Ipcp {
    match f
    case IpAddr => d.(local := a)
    case Dns1 => d.(dns1 := a)
    case Dns2 => d.(dns2 := a)
    case Nbns1 => d.(nbns1 := a)
    case Nbns2 => d.(nbns2 := a)
  }

  /** The four bytes an address option carries. */
  function Address(value: seq<byte>): Addr {
    if |value| >= 4 then value[..4] else NO_ADDR
  }

  function Wanted(d: Ipcp, f: Field): seq<Opt> {
    if f in d.asked then [Opt(KindOf(f), Get(d, f))] else []
  }

  /** The options of the next Configure-Request. */
  function Requested(d: Ipcp): seq<Opt> {
    Wanted(d, IpAddr) + Wanted(d, Dns1) + Wanted(d, Dns2) + Wanted(d, Nbns1) + Wanted(d, Nbns2)
  }

  function FillIp(d: Ipcp, f: Field): seq<byte> {
    if f in d.asked then [KindOf(f), 6] + Get(d, f) else []
  }

  /** Their bytes. */
  function Generate(d: Ipcp): seq<byte> {
    FillIp(d, IpAddr) + FillIp(d, Dns1) + FillIp(d, Dns2) + FillIp(d, Nbns1) + FillIp(d, Nbns2)
  }

  lemma FillIpPrints(d: Ipcp, f: Field)
    ensures forall i :: 0 <= i < |Wanted(d, f)| ==> Printable(Wanted(d, f)[i])
    ensures FillIp(d, f) == Print(Wanted(d, f)) && |FillIp(d, f)| <= 6
  {
    if f in d.asked {
      var o := Opt(KindOf(f), Get(d, f));
      assert [o][1..] == [];
      assert Print([o]) == PrintOne(o) + [];
    }
  }

  /** Printing the options and parsing them back gives exactly what is asked for, with the
      current values, in at most thirty bytes. */
  lemma RequestRoundTrip(d: Ipcp)
    ensures Parse(Generate(d)) == Requested(d) && WellFormed(Generate(d)) && |Generate(d)| <= 30
  {
    hide Wanted, FillIp, Print, Parse;
    FillIpPrints(d, IpAddr);
    FillIpPrints(d, Dns1);
    FillIpPrints(d, Dns2);
    FillIpPrints(d, Nbns1);
    FillIpPrints(d, Nbns2);
    var a1 := Wanted(d, IpAddr) + Wanted(d, Dns1);
    var a2 := a1 + Wanted(d, Dns2);
    var a3 := a2 + Wanted(d, Nbns1);
    PrintAppend(Wanted(d, IpAddr), Wanted(d, Dns1));
    PrintAppend(a1, Wanted(d, Dns2));
    PrintAppend(a2, Wanted(d, Nbns1));
    PrintAppend(a3, Wanted(d, Nbns2));
    ParsePrint(Requested(d));
  }

  // ---- Answers to our requests ----

  function TakeAck(d: Ipcp, o: Opt): Ipcp {
    if Known(o.kind) then Set(d, FieldOf(o.kind), Address(o.value)) else d
  }

  function TakeNak(d: Ipcp, o: Opt): Ipcp {
    if Known(o.kind) then Set(d, FieldOf(o.kind), Address(o.value)).(asked := d.asked + {FieldOf(o.kind)}) else d
  }

  function TakeRej(d: Ipcp, o: Opt): Ipcp {
    if Known(o.kind) then d.(asked := d.asked - {FieldOf(o.kind)}) else d
  }

  function TakeAcks(d: Ipcp, opts: seq<Opt>): Ipcp
    decreases |opts|
  {
    if |opts| == 0 then d else TakeAcks(TakeAck(d, opts[0]), opts[1..])
  }

  function TakeNaks(d: Ipcp, opts: seq<Opt>): Ipcp
    decreases |opts|
  {
    if |opts| == 0 then d else TakeNaks(TakeNak(d, opts[0]), opts[1..])
  }

  function TakeRejs(d: Ipcp, opts: seq<Opt>): Ipcp
    decreases |opts|
  {
    if |opts| == 0 then d else TakeRejs(TakeRej(d, opts[0]), opts[1..])
  }

  /** Driver reactions: a server ignores Acks and Naks but not Rejects. */
  function Acked(d: Ipcp, opts: seq<Opt>): Ipcp {
    if d.isServer then d else TakeAcks(d, opts)
  }

  function Naked(d: Ipcp, opts: seq<Opt>): Ipcp {
    if d.isServer then d else TakeNaks(d, opts)
  }

  function Rejected(d: Ipcp, opts: seq<Opt>): Ipcp {
    TakeRejs(d, opts)
  }

  function Reset(d: Ipcp): Ipcp {
    if d.isServer then d.(asked := if d.local != NO_ADDR then {IpAddr} else {})
    else Ipcp({IpAddr, Dns1, Dns2, Nbns1, Nbns2}, NO_ADDR, NO_ADDR, NO_ADDR, NO_ADDR, NO_ADDR, NO_ADDR, false)
  }

  function New(isServer: bool, ip: Addr): Ipcp {
    Reset(Ipcp({}, ip, NO_ADDR, NO_ADDR, NO_ADDR, NO_ADDR, NO_ADDR, isServer))
  }

  /** The last value given for a kind, if any. */
  predicate Mentions(opts: seq<Opt>, kind: byte) {
    exists i :: 0 <= i < |opts| && opts[i].kind == kind
  }

  function LastValue(opts: seq<Opt>, kind: byte): seq<byte>
    requires Mentions(opts, kind)
    decreases |opts|
  {
    if Mentions(opts[1..], kind) then LastValue(opts[1..], kind) else opts[0].value
  }

  lemma MentionsStep(opts: seq<Opt>, kind: byte)
    requires |opts| > 0
    ensures Mentions(opts, kind) <==> opts[0].kind == kind || Mentions(opts[1..], kind)
  {
    if Mentions(opts, kind) && opts[0].kind != kind {
      var i :| 0 <= i < |opts| && opts[i].kind == kind;
      assert 0 <= i - 1 < |opts[1..]| && opts[1..][i - 1].kind == kind;
      assert Mentions(opts[1..], kind);
    }
    if opts[0].kind == kind {
      assert Mentions(opts, kind);
    }
    if Mentions(opts[1..], kind) {
      var i :| 0 <= i < |opts[1..]| && opts[1..][i].kind == kind;
      assert 0 <= i + 1 < |opts| && opts[i + 1].kind == kind;
      assert Mentions(opts, kind);
    }
  }

  lemma KindsDiffer(f: Field, g: Field)
    ensures KindOf(f) == KindOf(g) <==> f == g
  {
  }

  lemma SetGet(d: Ipcp, f: Field, g: Field, a: Addr, asked: set<Field>)
    ensures Get(Set(d, f, a).(asked := asked), g) == if f == g then a else Get(d, g)
    ensures Set(d, f, a).asked == d.asked
  {
  }

  /** After a list of Naks a setting is asked for if it was or the list mentions it, with
      the value given last, if one was given. */
  lemma {:induction false} NaksTaken(d: Ipcp, opts: seq<Opt>, f: Field)
    ensures f in TakeNaks(d, opts).asked <==> f in d.asked || Mentions(opts, KindOf(f))
    ensures Get(TakeNaks(d, opts), f) ==
            if Mentions(opts, KindOf(f)) then Address(LastValue(opts, KindOf(f))) else Get(d, f)
    decreases |opts|
  {
    hide KindOf, Get, Set, Address;
    if |opts| > 0 {
      var next := TakeNak(d, opts[0]);
      NaksTaken(next, opts[1..], f);
      MentionsStep(opts, KindOf(f));
      KnownKind(f);
      if Known(opts[0].kind) {
        KindsDiffer(f, FieldOf(opts[0].kind));
        SetGet(d, FieldOf(opts[0].kind), f, Address(opts[0].value), next.asked);
      }
    }
  }

  lemma KnownKind(f: Field)
    ensures Known(KindOf(f)) && FieldOf(KindOf(f)) == f
  {
  }

  /** After a list of Acks each setting has the value given last. */
  lemma {:induction false} AcksTaken(d: Ipcp, opts: seq<Opt>, f: Field)
    ensures Get(TakeAcks(d, opts), f) ==
            if Mentions(opts, KindOf(f)) then Address(LastValue(opts, KindOf(f))) else Get(d, f)
    ensures TakeAcks(d, opts).asked == d.asked && TakeAcks(d, opts).peer == d.peer && TakeAcks(d, opts).isServer == d.isServer
    decreases |opts|
  {
    hide KindOf, Get, Address;
    if |opts| > 0 {
      var next := TakeAck(d, opts[0]);
      AcksTaken(next, opts[1..], f);
      MentionsStep(opts, KindOf(f));
      KnownKind(f);
      if Known(opts[0].kind) {
        KindsDiffer(f, FieldOf(opts[0].kind));
        SetGet(d, FieldOf(opts[0].kind), f, Address(opts[0].value), d.asked);
      }
    }
  }

  /** What a list of requested options mentions, and with which value. */
  lemma RequestedMentions(d: Ipcp, f: Field)
    ensures Mentions(Requested(d), KindOf(f)) <==> f in d.asked
    ensures f in d.asked ==> Address(LastValue(Requested(d), KindOf(f))) == Get(d, f)
  {
    hide Get, Address;
    var opts := Requested(d);
    forall i | 0 <= i < |opts| ensures Known(opts[i].kind) && FieldOf(opts[i].kind) in d.asked
                                       && opts[i].value == Get(d, FieldOf(opts[i].kind)) {
      RequestedIsOwn(d);
    }
    if f in d.asked {
      RequestedHas(d, f, Get(d, f));
      assert Mentions(opts, KindOf(f));
      LastIsSome(opts, KindOf(f));
      KnownKind(f);
      AddressOfFour(Get(d, f));
    } else if Mentions(opts, KindOf(f)) {
      var i :| 0 <= i < |opts| && opts[i].kind == KindOf(f);
      KnownKind(f);
    }
  }

  lemma AddressOfFour(a: Addr)
    ensures Address(a) == a
  {
    assert a[..4] == a;
  }

  lemma {:induction false} LastIsSome(opts: seq<Opt>, kind: byte)
    requires Mentions(opts, kind)
    ensures exists i :: 0 <= i < |opts| && opts[i] == Opt(kind, LastValue(opts, kind))
    decreases |opts|
  {
    MentionsStep(opts, kind);
    if Mentions(opts[1..], kind) {
      LastIsSome(opts[1..], kind);
      var i :| 0 <= i < |opts[1..]| && opts[1..][i] == Opt(kind, LastValue(opts[1..], kind));
      assert opts[i + 1] == Opt(kind, LastValue(opts, kind));
    } else {
      assert opts[0] == Opt(kind, LastValue(opts, kind));
    }
  }

  lemma RequestedIsOwn(d: Ipcp)
    ensures forall i :: 0 <= i < |Requested(d)| ==>
      && Known(Requested(d)[i].kind) && FieldOf(Requested(d)[i].kind) in d.asked
      && Requested(d)[i].value == Get(d, FieldOf(Requested(d)[i].kind))
  {
    hide Get;
    forall f: Field ensures forall i :: 0 <= i < |Wanted(d, f)| ==>
      && Known(Wanted(d, f)[i].kind) && FieldOf(Wanted(d, f)[i].kind) in d.asked
      && Wanted(d, f)[i].value == Get(d, FieldOf(Wanted(d, f)[i].kind))
    {
      KnownKind(f);
    }
  }

  /** An Ack repeating a list generated from earlier settings changes none of a client's
      settings if and only if those asked for then have not changed since. */
  lemma {:induction false} AckChangesNothingIff(d: Ipcp, earlier: Ipcp)
    requires !d.isServer
    ensures Acked(d, Parse(Generate(earlier))) == d <==> forall f :: f in earlier.asked ==> Get(d, f) == Get(earlier, f)
  {
    hide Requested, Generate, Get, KindOf, Parse;
    RequestRoundTrip(earlier);
    var r := TakeAcks(d, Requested(earlier));
    forall f: Field ensures Get(r, f) == if f in earlier.asked then Get(earlier, f) else Get(d, f) {
      AcksTaken(d, Requested(earlier), f);
      RequestedMentions(earlier, f);
    }
    AcksTaken(d, Requested(earlier), IpAddr);
    SameSettings(r, d);
  }

  lemma SameSettings(a: Ipcp, b: Ipcp)
    requires a.asked == b.asked && a.peer == b.peer && a.isServer == b.isServer
    ensures a == b <==> forall f :: Get(a, f) == Get(b, f)
  {
    if forall f :: Get(a, f) == Get(b, f) {
      assert Get(a, IpAddr) == Get(b, IpAddr) && Get(a, Dns1) == Get(b, Dns1) && Get(a, Dns2) == Get(b, Dns2);
      assert Get(a, Nbns1) == Get(b, Nbns1) && Get(a, Nbns2) == Get(b, Nbns2);
    }
  }

  lemma {:induction false} RejsTaken(d: Ipcp, opts: seq<Opt>, f: Field)
    ensures f in TakeRejs(d, opts).asked <==> f in d.asked && !Mentions(opts, KindOf(f))
    ensures TakeRejs(d, opts).(asked := {}) == d.(asked := {})
    decreases |opts|
  {
    hide KindOf;
    if |opts| > 0 {
      RejsTaken(TakeRej(d, opts[0]), opts[1..], f);
      MentionsStep(opts, KindOf(f));
      KnownKind(f);
      if Known(opts[0].kind) {
        KindsDiffer(f, FieldOf(opts[0].kind));
      }
    }
  }

  lemma RequestedHas(d: Ipcp, f: Field, a: Addr)
    ensures Opt(KindOf(f), a) in Requested(d) <==> f in d.asked && Get(d, f) == a
  {
    hide Get;
    var o := Opt(KindOf(f), a);
    forall g: Field ensures o in Wanted(d, g) <==> g == f && f in d.asked && Get(d, f) == a {
      KindsDiffer(f, g);
    }
    hide Wanted, KindOf;
    assert o in Requested(d) <==> (o in Wanted(d, IpAddr) || o in Wanted(d, Dns1) || o in Wanted(d, Dns2)
                                   || o in Wanted(d, Nbns1) || o in Wanted(d, Nbns2));
  }

  /** Each value a client is given in a Nak appears in its next request. */
  lemma {:induction false} NakAppearsInNextRequest(d: Ipcp, opts: seq<Opt>, f: Field)
    requires !d.isServer && Mentions(opts, KindOf(f))
    ensures Opt(KindOf(f), Address(LastValue(opts, KindOf(f)))) in Parse(Generate(Naked(d, opts)))
  {
    hide KindOf, Address, Generate, Parse, Requested;
    NaksTaken(d, opts, f);
    RequestRoundTrip(Naked(d, opts));
    RequestedHas(Naked(d, opts), f, Address(LastValue(opts, KindOf(f))));
  }

  // ---- Rejected options stay out ----

  datatype Answer = AckFor(opts: seq<Opt>) | NakFor(opts: seq<Opt>) | RejFor(opts: seq<Opt>) | LayerIsDown

  function Hear(d: Ipcp, a: Answer): Ipcp {
    match a
    case AckFor(opts) => Acked(d, opts)
    case NakFor(opts) => Naked(d, opts)
    case RejFor(opts) => Rejected(d, opts)
    case LayerIsDown => Reset(d)
  }

  function HearAll(d: Ipcp, answers: seq<Answer>): Ipcp
    decreases |answers|
  {
    if |answers| == 0 then d else HearAll(Hear(d, answers[0]), answers[1..])
  }

  predicate Readmits(a: Answer, f: Field) {
    a.LayerIsDown? || (a.NakFor? && Mentions(a.opts, KindOf(f)))
  }

  lemma {:induction false} AcksKeepAsked(d: Ipcp, opts: seq<Opt>)
    ensures TakeAcks(d, opts).asked == d.asked
    decreases |opts|
  {
    if |opts| > 0 {
      AcksKeepAsked(TakeAck(d, opts[0]), opts[1..]);
    }
  }

  /** A rejected option is in no further request, until a Nak names it or the layer goes down. */
  lemma {:induction false} RejectedStaysOut(d: Ipcp, opts: seq<Opt>, answers: seq<Answer>, f: Field, a: Addr)
    requires Mentions(opts, KindOf(f))
    requires forall i :: 0 <= i < |answers| ==> !Readmits(answers[i], f)
    ensures Opt(KindOf(f), a) !in Parse(Generate(HearAll(Rejected(d, opts), answers)))
  {
    hide Generate, Parse, HearAll, Requested;
    RejsTaken(d, opts, f);
    StaysOut(Rejected(d, opts), answers, f);
    var last := HearAll(Rejected(d, opts), answers);
    RequestRoundTrip(last);
    RequestedHas(last, f, a);
  }

  lemma {:induction false} StaysOut(d: Ipcp, answers: seq<Answer>, f: Field)
    requires f !in d.asked && forall i :: 0 <= i < |answers| ==> !Readmits(answers[i], f)
    ensures f !in HearAll(d, answers).asked
    decreases |answers|
  {
    hide KindOf;
    if |answers| > 0 {
      assert !Readmits(answers[0], f);
      match answers[0] {
        case AckFor(o) => AcksKeepAsked(d, o);
        case NakFor(o) => NaksTaken(d, o, f);
        case RejFor(o) => RejsTaken(d, o, f);
        case LayerIsDown =>
      }
      StaysOut(Hear(d, answers[0]), answers[1..], f);
    }
  }

  // ---- Requests of the peer ----

  datatype Verdict = Accept | Reject | Nak

  datatype Reply = Reply(verdict: Verdict, options: seq<byte>)

  function Zeros(n: nat): (s: seq<byte>)
    ensures |s| == n
  {
    seq(n, _ => 0)
  }

  function Overwrite(buf: seq<byte>, at: nat, bytes: seq<byte>): (r: seq<byte>)
    requires at + |bytes| <= |buf|
    ensures |r| == |buf|
  {
    buf[..at] + bytes + buf[at + |bytes|..]
  }

  /** A client accepts nothing but a non-zero address. */
  predicate Refuses(o: Opt) {
    o.kind != KindOf(IpAddr) || Address(o.value) == NO_ADDR
  }

  function Refused(opts: seq<Opt>): (r: seq<Opt>)
    ensures (forall i :: 0 <= i < |opts| ==> Printable(opts[i])) ==> forall i :: 0 <= i < |r| ==> Printable(r[i])
  {
    if |opts| == 0 then []
    else if Refuses(opts[0]) then [opts[0]] + Refused(opts[1..])
    else Refused(opts[1..])
  }

  lemma {:induction false} RefusedShorter(opts: seq<Opt>)
    requires forall i :: 0 <= i < |opts| ==> Printable(opts[i])
    ensures |Print(Refused(opts))| <= |Print(opts)|
    decreases |opts|
  {
    if |opts| > 0 {
      RefusedShorter(opts[1..]);
      if Refuses(opts[0]) {
        assert ([opts[0]] + Refused(opts[1..]))[1..] == Refused(opts[1..]);
      }
    }
  }

  /** The refused options copied into a buffer; the position is a single byte. */
  function Collect(buf: seq<byte>, len: byte, opts: seq<Opt>): (r: seq<byte>)
    requires forall i :: 0 <= i < |opts| ==> Printable(opts[i])
    requires len + |Print(opts)| <= |buf|
    ensures |r| == |buf|
    decreases |opts|
  {
    if |opts| == 0 then buf
    else Collect(Overwrite(buf, len, PrintOne(opts[0])), (len + |opts[0].value| + 2) % 256, opts[1..])
  }

  lemma CollectStep(buf: seq<byte>, len: byte, one: seq<byte>, rest: seq<byte>, out: seq<byte>)
    requires len + |one| + |rest| <= |buf| && len + |one| + |rest| < 256
    requires |out| >= len + |one| + |rest|
    requires out[..len + |one| + |rest|] == Overwrite(buf, len, one)[..len + |one|] + rest
    ensures out[..len + |one| + |rest|] == buf[..len] + (one + rest)
  {
    assert Overwrite(buf, len, one)[..len + |one|] == buf[..len] + one;
  }

  lemma {:induction false} CollectIs(buf: seq<byte>, len: byte, opts: seq<Opt>)
    requires forall i :: 0 <= i < |opts| ==> Printable(opts[i])
    requires len + |Print(opts)| <= |buf| && len + |Print(opts)| < 256
    ensures Collect(buf, len, opts)[..len + |Print(opts)|] == buf[..len] + Print(opts)
    decreases |opts|
  {
    hide PrintOne, Print, Overwrite;
    PrintUnfolds(opts);
    if |opts| == 0 {
      assert buf[..len] + [] == buf[..len];
    } else {
      var one, rest := PrintOne(opts[0]), Print(opts[1..]);
      CollectIs(Overwrite(buf, len, one), len + |one|, opts[1..]);
      CollectStep(buf, len, one, rest, Collect(buf, len, opts));
    }
  }

  lemma {:induction false} PrintUnfolds(opts: seq<Opt>)
    requires forall i :: 0 <= i < |opts| ==> Printable(opts[i])
    ensures if |opts| == 0 then Print(opts) == []
            else Print(opts) == PrintOne(opts[0]) + Print(opts[1..]) && |PrintOne(opts[0])| == |opts[0].value| + 2
  {
  }

  function ClientReply(data: seq<byte>): (r: Reply)
    requires WellFormed(data)
  {
    PrintParse(data);
    RefusedShorter(Parse(data));
    var buf := Collect(Zeros(|data|), 0, Refused(Parse(data)));
    var n := |Print(Refused(Parse(data)))| % 256;
    if n > 0 then Reply(Reject, buf[..n]) else Reply(Accept, [])
  }

  /** The address the peer claims: the last one in the list. */
  function ClientHears(d: Ipcp, opts: seq<Opt>): Ipcp
    decreases |opts|
  {
    if |opts| == 0 then d else ClientHears(HearAddress(d, opts[0]), opts[1..])
  }

  function HearAddress(d: Ipcp, o: Opt): Ipcp {
    if o.kind == KindOf(IpAddr) then d.(peer := Address(o.value)) else d
  }

  function RefusedPrinted(data: seq<byte>): seq<byte>
    requires WellFormed(data)
  {
    PrintParse(data);
    Print(Refused(Parse(data)))
  }

  function RefusedBytes(data: seq<byte>): nat
    requires WellFormed(data)
  {
    |RefusedPrinted(data)|
  }

  /** What a client answers. It returns exactly the options it refuses as long as they take
      fewer than 256 bytes; in general it accepts whenever their size is a multiple of 256,
      so it accepts exactly the requests it has nothing against if and only if that size is
      zero or no such multiple. */
  lemma {:induction false} ClientReplyIs(data: seq<byte>)
    requires WellFormed(data)
    ensures var refused := Refused(Parse(data)); var n := RefusedBytes(data); var r := ClientReply(data);
      && (r.verdict.Accept? <==> n % 256 == 0) && !r.verdict.Nak?
      && (0 < n < 256 ==> Parse(r.options) == refused && r.verdict.Reject?)
      && ((r.verdict.Accept? <==> refused == []) <==> (n == 0 || n % 256 != 0))
  {
    RefusedSize(data);
    if 0 < RefusedBytes(data) < 256 {
      RefusedReturned(data);
    }
    hide Parse, Refused, Collect, WellFormed, RefusedBytes;
  }

  lemma {:induction false} RefusedSize(data: seq<byte>)
    requires WellFormed(data)
    ensures RefusedBytes(data) == 0 <==> Refused(Parse(data)) == []
    ensures ClientReply(data).verdict == if RefusedBytes(data) % 256 == 0 then Accept else Reject
  {
    var refused := Refused(Parse(data));
    PrintParse(data);
    assert refused != [] ==> |Print(refused)| >= |PrintOne(refused[0])| > 0;
    assert refused == [] ==> Print(refused) == [];
    hide Parse, Refused, Collect, WellFormed, Print, PrintOne;
  }

  lemma {:induction false} RefusedFits(data: seq<byte>)
    requires WellFormed(data)
    ensures forall i :: 0 <= i < |Refused(Parse(data))| ==> Printable(Refused(Parse(data))[i])
    ensures RefusedBytes(data) == |Print(Refused(Parse(data)))| <= |data|
  {
    PrintParse(data);
    RefusedShorter(Parse(data));
  }

  lemma {:induction false} ReplyBytes(data: seq<byte>)
    requires WellFormed(data) && 0 < RefusedBytes(data) < 256
    ensures ClientReply(data).options == RefusedPrinted(data)
  {
    hide Parse, Print, Refused, Collect, WellFormed, Zeros, Printable;
    RefusedFits(data);
    CollectAll(|data|, Refused(Parse(data)));
  }

  lemma {:induction false} RefusedReturned(data: seq<byte>)
    requires WellFormed(data) && 0 < RefusedBytes(data) < 256
    ensures Parse(ClientReply(data).options) == Refused(Parse(data))
  {
    assert RefusedPrinted(data) == Print(Refused(Parse(data))) by { PrintParse(data); }
    hide *;
    RefusedFits(data);
    ReplyBytes(data);
    ParsePrint(Refused(Parse(data)));
  }

  lemma {:induction false} CollectAll(n: nat, opts: seq<Opt>)
    requires forall i :: 0 <= i < |opts| ==> Printable(opts[i])
    requires |Print(opts)| <= n && |Print(opts)| < 256
    ensures Collect(Zeros(n), 0, opts)[..|Print(opts)|] == Print(opts)
  {
    hide Print, Collect;
    CollectIs(Zeros(n), 0, opts);
    assert Zeros(n)[..0] + Print(opts) == Print(opts);
  }

  /** Two options of 128 bytes that a client does not know: together they are accepted. */
  lemma OversizedRefusalAccepted()
    ensures var o := Opt(200, Zeros(126)); var data := PrintOne(o) + PrintOne(o);
      WellFormed(data) && Refused(Parse(data)) == [o, o] && ClientReply(data).verdict.Accept?
  {
    var o := Opt(200, Zeros(126));
    var data := PrintOne(o) + PrintOne(o);
    assert [o, o][1..] == [o] && [o][1..] == [];
    assert PrintOne(o) + [] == PrintOne(o);
    assert Print([o, o]) == PrintOne(o) + Print([o]) && Print([o]) == PrintOne(o);
    ParsePrint([o, o]);
    assert Refused([o]) == [o] + Refused([]);
    assert Refused([o, o]) == [o] + Refused([o]);
    ClientReplyIs(data);
  }

  // ---- A server's answers ----

  /** The settings a server hands out. */
  predicate Served(kind: byte) {
    kind == 3 || kind == 129 || kind == 131
  }

  function Configured(d: Ipcp, kind: byte): Addr {
    if kind == 3 then d.peer else if kind == 129 then d.dns1 else d.dns2
  }

  predicate Agrees(d: Ipcp, o: Opt) {
    Address(o.value) == Configured(d, o.kind) && Address(o.value) != NO_ADDR
  }

  function Corrections(d: Ipcp, opts: seq<Opt>): seq<Opt>
    decreases |opts|
  {
    if |opts| == 0 then []
    else if Served(opts[0].kind) && !Agrees(d, opts[0])
    then [Opt(opts[0].kind, Configured(d, opts[0].kind))] + Corrections(d, opts[1..])
    else Corrections(d, opts[1..])
  }

  function Unserved(opts: seq<Opt>): seq<Opt> {
    if |opts| == 0 then []
    else if Served(opts[0].kind) then Unserved(opts[1..])
    else [opts[0]] + Unserved(opts[1..])
  }

  lemma {:induction false} AnswersPrintable(d: Ipcp, opts: seq<Opt>)
    ensures forall i :: 0 <= i < |Corrections(d, opts)| ==> Printable(Corrections(d, opts)[i])
    ensures (forall i :: 0 <= i < |opts| ==> Printable(opts[i])) ==>
      forall i :: 0 <= i < |Unserved(opts)| ==> Printable(Unserved(opts)[i])
    decreases |opts|
  {
    if |opts| > 0 {
      AnswersPrintable(d, opts[1..]);
    }
  }

  function ServerReply(d: Ipcp, data: seq<byte>): (r: Reply)
    requires WellFormed(data)
  {
    PrintParse(data);
    AnswersPrintable(d, Parse(data));
    var unserved, corrections := Unserved(Parse(data)), Corrections(d, Parse(data));
    if |unserved| > 0 then Reply(Reject, Print(unserved))
    else if |corrections| > 0 then Reply(Nak, Print(corrections))
    else Reply(Accept, [])
  }

  /** Only what the server hands out, with the values it is configured with, none of them zero. */
  ghost predicate Agreeable(d: Ipcp, opts: seq<Opt>) {
    forall i :: 0 <= i < |opts| ==> Served(opts[i].kind) && Agrees(d, opts[i])
  }

  lemma {:induction false} NothingToCorrect(d: Ipcp, opts: seq<Opt>)
    ensures Unserved(opts) == [] && Corrections(d, opts) == [] <==> Agreeable(d, opts)
    decreases |opts|
  {
    hide Agrees, Served, Configured;
    if |opts| > 0 {
      NothingToCorrect(d, opts[1..]);
      assert Agreeable(d, opts) <==> Served(opts[0].kind) && Agrees(d, opts[0]) && Agreeable(d, opts[1..]) by {
        assert Agreeable(d, opts[1..]) <==>
          forall i :: 1 <= i < |opts| ==> Served(opts[i].kind) && Agrees(d, opts[i]) by {
          forall i | 1 <= i < |opts| ensures opts[1..][i - 1] == opts[i] {}
        }
      }
    }
  }

  /** A server accepts exactly the agreeable requests. */
  lemma {:induction false} ServerAcceptsIff(d: Ipcp, data: seq<byte>)
    requires WellFormed(data)
    ensures ServerReply(d, data).verdict.Accept? <==> Agreeable(d, Parse(data))
  {
    NothingToCorrect(d, Parse(data));
  }

  // ---- A client meets a server ----

  function Hears(d: Ipcp, r: Reply): Ipcp {
    match r.verdict
    case Accept => d
    case Reject => Rejected(d, Parse(r.options))
    case Nak => Naked(d, Parse(r.options))
  }

  /** One request of the client and the server's answer to it. */
  function Round(c: Ipcp, s: Ipcp): Reply {
    RequestRoundTrip(c);
    ServerReply(s, Generate(c))
  }

  function Asking(local: Addr, dns1: Addr, dns2: Addr): Ipcp {
    New(false, NO_ADDR).(asked := {IpAddr, Dns1, Dns2}, local := local, dns1 := dns1, dns2 := dns2)
  }

  lemma FirstRound(s: Ipcp)
    ensures var r := Round(New(false, NO_ADDR), s);
      r.verdict.Reject? && Hears(New(false, NO_ADDR), r) == Asking(NO_ADDR, NO_ADDR, NO_ADDR)
  {
    var c := New(false, NO_ADDR);
    RequestRoundTrip(c);
    var o := [Opt(3, NO_ADDR), Opt(129, NO_ADDR), Opt(131, NO_ADDR), Opt(130, NO_ADDR), Opt(132, NO_ADDR)];
    assert Requested(c) == o;
    assert Unserved(o) == [Opt(130, NO_ADDR), Opt(132, NO_ADDR)] by {
      assert o[1..][1..] == o[2..] && o[2..][1..] == o[3..] && o[3..][1..] == o[4..] && o[4..][1..] == [];
      assert Unserved(o[4..]) == [o[4]];
      assert Unserved(o[3..]) == [o[3], o[4]];
      assert Unserved(o[2..]) == Unserved(o[3..]);
      assert Unserved(o[1..]) == Unserved(o[2..]);
    }
    var u := Unserved(o);
    ParsePrint(u);
    assert u[1..][1..] == [];
    assert TakeRejs(c, u) == TakeRejs(TakeRej(c, u[0]), u[1..]);
    assert TakeRejs(TakeRej(c, u[0]), u[1..]) == TakeRej(TakeRej(c, u[0]), u[1]);
    assert c.asked - {Nbns1} - {Nbns2} == {IpAddr, Dns1, Dns2};
  }

  lemma ThreeAsked(local: Addr, dns1: Addr, dns2: Addr)
    ensures Requested(Asking(local, dns1, dns2)) == [Opt(3, local), Opt(129, dns1), Opt(131, dns2)]
  {
  }

  lemma {:induction false} ThreeCorrections(s: Ipcp, a: Opt, b: Opt, c: Opt)
    requires a.kind == 3 && b.kind == 129 && c.kind == 131
    ensures Unserved([a, b, c]) == []
    ensures Corrections(s, [a, b, c]) ==
            (if Agrees(s, a) then [] else [Opt(3, s.peer)]) +
            (if Agrees(s, b) then [] else [Opt(129, s.dns1)]) +
            (if Agrees(s, c) then [] else [Opt(131, s.dns2)])
  {
    hide Agrees;
    var o := [a, b, c];
    var x := if Agrees(s, a) then [] else [Opt(3, s.peer)];
    var y := if Agrees(s, b) then [] else [Opt(129, s.dns1)];
    var z := if Agrees(s, c) then [] else [Opt(131, s.dns2)];
    assert x + y + z == x + (y + z);
    assert Unserved([c]) == [] && Unserved([b, c]) == Unserved([c]);
    assert o[1..] == [b, c] && [b, c][1..] == [c] && [c][1..] == [];
    assert Corrections(s, [c]) == z;
    assert Corrections(s, [b, c]) == y + z;
  }

  lemma SecondRound(s: Ipcp)
    ensures var c := Asking(NO_ADDR, NO_ADDR, NO_ADDR); var r := Round(c, s);
      r.verdict.Nak? && Hears(c, r) == Asking(s.peer, s.dns1, s.dns2)
  {
    var c := Asking(NO_ADDR, NO_ADDR, NO_ADDR);
    RequestRoundTrip(c);
    ThreeAsked(NO_ADDR, NO_ADDR, NO_ADDR);
    ThreeCorrections(s, Opt(3, NO_ADDR), Opt(129, NO_ADDR), Opt(131, NO_ADDR));
    hide Parse, Generate, Requested, TakeNaks, WellFormed;
    var n := [Opt(3, s.peer), Opt(129, s.dns1), Opt(131, s.dns2)];
    AnswersPrintable(s, Requested(c));
    assert Corrections(s, Requested(c)) == n;
    ParsePrint(n);
    ThreeTaken(s);
  }

  lemma ThreeTaken(s: Ipcp)
    ensures TakeNaks(Asking(NO_ADDR, NO_ADDR, NO_ADDR), [Opt(3, s.peer), Opt(129, s.dns1), Opt(131, s.dns2)])
            == Asking(s.peer, s.dns1, s.dns2)
  {
    var c, n := Asking(NO_ADDR, NO_ADDR, NO_ADDR), [Opt(3, s.peer), Opt(129, s.dns1), Opt(131, s.dns2)];
    assert n[1..][1..] == n[2..] && n[2..][1..] == [];
    assert s.peer[..4] == s.peer && s.dns1[..4] == s.dns1 && s.dns2[..4] == s.dns2;
    var c1 := TakeNak(c, n[0]);
    var c2 := TakeNak(c1, n[1]);
    assert TakeNaks(c, n) == TakeNaks(c1, n[1..]);
    assert TakeNaks(c1, n[1..]) == TakeNaks(c2, n[2..]);
    assert TakeNaks(c2, n[2..]) == TakeNak(c2, n[2]);
    assert c.asked + {IpAddr} + {Dns1} + {Dns2} == c.asked;
  }

  /** A fresh client talking to any server: after one Reject and one Nak it asks for exactly
      the address and name servers configured at the server, and this third request is
      accepted if and only if none of the three is left unset. */
  lemma ClientLearnsSettings(s: Ipcp)
    ensures var c0 := New(false, NO_ADDR);
      var c1 := Hears(c0, Round(c0, s));
      var c2 := Hears(c1, Round(c1, s));
      && c2.asked == {IpAddr, Dns1, Dns2} && c2.local == s.peer && c2.dns1 == s.dns1 && c2.dns2 == s.dns2
      && (Round(c2, s).verdict.Accept? <==> s.peer != NO_ADDR && s.dns1 != NO_ADDR && s.dns2 != NO_ADDR)
  {
    hide Parse, Print, Generate, Requested, Rejected, Naked, New, Unserved, Corrections, WellFormed;
    FirstRound(s);
    SecondRound(s);
    var c2 := Asking(s.peer, s.dns1, s.dns2);
    RequestRoundTrip(c2);
    ThreeAsked(s.peer, s.dns1, s.dns2);
    NothingToCorrect(s, Requested(c2));
    var o := Requested(c2);
    assert Agreeable(s, o) <==> Agrees(s, o[0]) && Agrees(s, o[1]) && Agrees(s, o[2]);
    assert s.peer[..4] == s.peer && s.dns1[..4] == s.dns1 && s.dns2[..4] == s.dns2;
    AskingFields(s);
  }

  lemma AskingFields(s: Ipcp)
    ensures var c := Asking(s.peer, s.dns1, s.dns2);
      c.asked == {IpAddr, Dns1, Dns2} && c.local == s.peer && c.dns1 == s.dns1 && c.dns2 == s.dns2
  {
  }
}

/** The IPCP driver: the same, updating its record and its option buffer in place. */
module PppIpcp {
  import opened Bytes
  import opened PppOptions
  import Spec = PppIpcpOptions
  import opened PppIpcpOptions

  /** Copies bytes into an array. */
  method Put(a: array<byte>, at: nat, bytes: seq<byte>)
    requires at + |bytes| <= a.Length
    modifies a
    ensures a[..] == Overwrite(old(a[..]), at, bytes)
  {
    forall i | 0 <= i < |bytes| {
      a[at + i] := bytes[i];
    }
  }

  /** Appends one address option to the front part of a buffer. */
  method FillOption(a: array<byte>, len: nat, wanted: bool, kind: byte, addr: Addr) returns (n: nat)
    requires wanted ==> len + 6 <= a.Length
    requires len <= a.Length
    modifies a
    ensures n == (if wanted then len + 6 else len) <= a.Length
    ensures a[..n] == old(a[..len]) + if wanted then [kind, 6] + addr else []
  {
    n := len;
    if wanted {
      Put(a, len, [kind, 6] + addr);
      n := len + 6;
      assert a[..n] == a[..][..n];
      assert old(a[..len]) == old(a[..])[..len];
    }
  }

  lemma AskThenSet(d: Spec.Ipcp, f: Field, a: Addr, asked: set<Field>)
    ensures Set(d.(asked := asked), f, a) == Set(d, f, a).(asked := asked)
  {
  }

  class Ipcp {
    const options: array<byte>
    var optionsLen: nat
    var reqOptions: set<Field>
    var localAddr: Addr
    var peerAddr: Addr
    var dns1: Addr
    var dns2: Addr
    var nbns1: Addr
    var nbns2: Addr
    const isServer: bool

    ghost predicate Valid()
      reads this
    {
      options.Length == 30 && optionsLen <= 30
    }

    function View(): Spec.Ipcp
      reads this
    {
      Spec.Ipcp(reqOptions, localAddr, peerAddr, dns1, dns2, nbns1, nbns2, isServer)
    }

    /** The option list the driver hands to the automaton. */
    function LocalOptions(): seq<byte>
      requires Valid()
      reads this, options
    {
      options[..optionsLen]
    }

    constructor (isServer: bool, ip: Addr)
      ensures Valid() && View() == Spec.New(isServer, ip)
      ensures LocalOptions() == Generate(View()) && fresh(options)
    {
      this.isServer := isServer;
      options := new byte[30](_ => 0);
      optionsLen, reqOptions := 0, {};
      localAddr, peerAddr, dns1, dns2, nbns1, nbns2 := ip, NO_ADDR, NO_ADDR, NO_ADDR, NO_ADDR, NO_ADDR;
      new;
      ResetConfigOptions();
    }

    method GenerateConfigOptions()
      requires Valid()
      modifies this`optionsLen, options
      ensures Valid() && LocalOptions() == Generate(View())
    {
      hide KindOf;
      var len := FillOption(options, 0, IpAddr in reqOptions, KindOf(IpAddr), localAddr);
      assert options[..len] == FillIp(View(), IpAddr);
      len := FillOption(options, len, Dns1 in reqOptions, KindOf(Dns1), dns1);
      len := FillOption(options, len, Dns2 in reqOptions, KindOf(Dns2), dns2);
      len := FillOption(options, len, Nbns1 in reqOptions, KindOf(Nbns1), nbns1);
      len := FillOption(options, len, Nbns2 in reqOptions, KindOf(Nbns2), nbns2);
      optionsLen := len;
    }

    /** What a new connection asks for. */
    method ResetConfigOptions()
      requires Valid()
      modifies this, options
      ensures Valid() && View() == Reset(old(View())) && LocalOptions() == Generate(View())
    {
      if isServer {
        reqOptions := if localAddr != NO_ADDR then {IpAddr} else {};
      } else {
        reqOptions := {IpAddr, Dns1, Dns2, Nbns1, Nbns2};
        localAddr, peerAddr, dns1, dns2, nbns1, nbns2 := NO_ADDR, NO_ADDR, NO_ADDR, NO_ADDR, NO_ADDR, NO_ADDR;
      }
      GenerateConfigOptions();
    }

    method SetServerInfo(peer: Addr, d1: Addr, d2: Addr)
      requires Valid()
      modifies this`peerAddr, this`dns1, this`dns2
      ensures Valid() && View() == old(View()).(peer := peer, dns1 := d1, dns2 := d2)
    {
      peerAddr, dns1, dns2 := peer, d1, d2;
    }

    method Assign(kind: byte, addr: Addr)
      modifies this
      ensures View() == (if Known(kind) then Set(old(View()), FieldOf(kind), addr) else old(View()))
      ensures optionsLen == old(optionsLen)
    {
      if kind == 3 {
        localAddr := addr;
      } else if kind == 129 {
        dns1 := addr;
      } else if kind == 130 {
        nbns1 := addr;
      } else if kind == 131 {
        dns2 := addr;
      } else if kind == 132 {
        nbns2 := addr;
      }
    }

    /** The peer accepted our options. */
    method Rca(data: seq<byte>)
      requires Valid() && WellFormed(data)
      modifies this
      ensures Valid() && View() == Acked(old(View()), Parse(data))
      ensures optionsLen == old(optionsLen)
    {
      hide Parse, WellFormed, Set, FieldOf;
      if isServer {
        return;
      }
      var iter := new OptionIter(data);
      var more := iter.Next();
      while more
        invariant Valid() && iter.Valid() && optionsLen == old(optionsLen)
        invariant more ==> TakeAcks(TakeAck(View(), Opt(iter.kind, iter.value)), iter.Rest())
                           == TakeAcks(old(View()), Parse(data))
        invariant !more ==> View() == TakeAcks(old(View()), Parse(data))
        decreases if more then 1 + |iter.Rest()| else 0
      {
        Assign(iter.kind, Address(iter.value));
        more := iter.Next();
      }
    }

    /** The peer wants other values. */
    method RcnNak(data: seq<byte>)
      requires Valid() && WellFormed(data)
      modifies this, options
      ensures Valid() && View() == Naked(old(View()), Parse(data))
      ensures LocalOptions() == if isServer then old(LocalOptions()) else Generate(View())
    {
      hide Parse, WellFormed, Set, FieldOf, Generate;
      if isServer {
        return;
      }
      var iter := new OptionIter(data);
      var more := iter.Next();
      while more
        invariant Valid() && iter.Valid()
        invariant more ==> TakeNaks(TakeNak(View(), Opt(iter.kind, iter.value)), iter.Rest())
                           == TakeNaks(old(View()), Parse(data))
        invariant !more ==> View() == TakeNaks(old(View()), Parse(data))
        decreases if more then 1 + |iter.Rest()| else 0
      {
        if Known(iter.kind) {
          AskThenSet(View(), FieldOf(iter.kind), Address(iter.value), reqOptions + {FieldOf(iter.kind)});
          reqOptions := reqOptions + {FieldOf(iter.kind)};
        }
        Assign(iter.kind, Address(iter.value));
        more := iter.Next();
      }
      GenerateConfigOptions();
    }

    /** The peer does not know these options. */
    method RcnRej(data: seq<byte>)
      requires Valid() && WellFormed(data)
      modifies this, options
      ensures Valid() && View() == Rejected(old(View()), Parse(data))
      ensures LocalOptions() == Generate(View())
    {
      hide Parse, WellFormed, FieldOf, Generate;
      var iter := new OptionIter(data);
      var more := iter.Next();
      while more
        invariant Valid() && iter.Valid()
        invariant more ==> TakeRejs(TakeRej(View(), Opt(iter.kind, iter.value)), iter.Rest())
                           == TakeRejs(old(View()), Parse(data))
        invariant !more ==> View() == TakeRejs(old(View()), Parse(data))
        decreases if more then 1 + |iter.Rest()| else 0
      {
        if Known(iter.kind) {
          reqOptions := reqOptions - {FieldOf(iter.kind)};
        }
        more := iter.Next();
      }
      GenerateConfigOptions();
    }

    method HearOption(kind: byte, value: seq<byte>) returns (refused: bool)
      modifies this`peerAddr
      ensures View() == HearAddress(old(View()), Opt(kind, value))
      ensures refused == Refuses(Opt(kind, value))
    {
      if kind == KindOf(IpAddr) {
        peerAddr := Address(value);
      }
      refused := kind != KindOf(IpAddr) || peerAddr == NO_ADDR;
    }

    /** All options of a request. */
    method ClientOptions(buffer: array<byte>, data: seq<byte>) returns (len: byte)
      requires WellFormed(data) && buffer.Length == |data| && Collecting(buffer[..], 0, Parse(data), data)
      modifies this`peerAddr, buffer
      ensures View() == ClientHears(old(View()), Parse(data))
      ensures Collecting(buffer[..], len, [], data)
    {
      hide Parse, WellFormed, HearAddress, Collecting, Ipcp.View, Refuses;
      ghost var todo := Parse(data);
      len := 0;
      var iter := new OptionIter(data);
      var more := iter.Next();
      while more
        invariant iter.Valid()
        invariant more <==> |todo| > 0
        invariant more ==> Opt(iter.kind, iter.value) == todo[0] && iter.len == |iter.value| && iter.Rest() == todo[1..]
        invariant ClientHears(View(), todo) == ClientHears(old(View()), Parse(data))
        invariant Collecting(buffer[..], len, todo, data)
        decreases |todo|
      {
        var refused := HearOption(iter.kind, iter.value);
        if refused {
          len := CopyOption(buffer, len, iter.kind, iter.len, iter.value, todo, data);
        } else {
          CollectingSkips(buffer[..], len, todo, data);
        }
        todo := todo[1..];
        more := iter.Next();
      }
    }

    /** A request of the peer, seen by a client: it learns the peer's address and copies
        out what it does not want. */
    method ClientRcr(data: seq<byte>) returns (r: Reply)
      requires Valid() && WellFormed(data)
      modifies this`peerAddr
      ensures View() == ClientHears(old(View()), Parse(data)) && r == ClientReply(data)
    {
      var buffer := new byte[|data|](_ => 0);
      StartCollecting(buffer, data);
      hide Parse, WellFormed, Collecting, ClientReply;
      var len := ClientOptions(buffer, data);
      CollectingEnds(buffer[..], len, [], data);
      if len > 0 {
        r := Reply(Reject, buffer[..len]);
      } else {
        r := Reply(Accept, []);
      }
    }

    /** One option of a request. */
    method ServerOption(nak: array<byte>, rej: array<byte>, len0: nat, rejLen0: nat, kind: byte, optLen: byte,
                        value: seq<byte>, ghost todo: seq<Opt>, ghost data: seq<byte>)
      returns (len: nat, rejLen: nat, fits: bool)
      requires nak != rej && nak.Length == 30 && rej.Length == |data| && len0 <= 30 && rejLen0 <= |data|
      requires Answering(View(), nak[..len0], rej[..rejLen0], todo, data)
      requires |todo| > 0 && todo[0] == Opt(kind, value) && optLen == |value|
      modifies nak, rej
      ensures len <= 30 && rejLen <= |data|
      ensures fits ==> Answering(View(), nak[..len], rej[..rejLen], todo[1..], data)
      ensures !fits ==> |Print(CorrectionsOf(View(), data))| > 30
    {
      hide Parse, WellFormed, Address, Agrees, Served, Configured, CorrectionsLeft, UnservedLeft, Print;
      len, rejLen, fits := len0, rejLen0, true;
      if Served(kind) {
        var wrong := !Agrees(View(), Opt(kind, value));
        if wrong && len + 6 > 30 {
          CorrectionOverflows(View(), nak[..len], rej[..rejLen], todo, data);
          return len, rejLen, false;
        }
        CorrectionStep(View(), nak[..len], rej[..rejLen], todo, data);
        len := FillOption(nak, len, wrong, kind, Configured(View(), kind));
      } else {
        UnservedStep(View(), nak[..len], rej[..rejLen], todo, data);
        rejLen := CopyUnserved(rej, rejLen, kind, optLen, value);
      }
    }

    /** All options of a request, until one more correction would not fit. */
    method ServerOptions(nak: array<byte>, rej: array<byte>, data: seq<byte>) returns (len: nat, rejLen: nat, fits: bool)
      requires nak != rej && nak.Length == 30 && rej.Length == |data| && WellFormed(data)
      requires Answering(View(), [], [], Parse(data), data)
      modifies nak, rej
      ensures len <= 30 && rejLen <= |data|
      ensures fits ==> Answering(View(), nak[..len], rej[..rejLen], [], data)
      ensures !fits ==> |Print(CorrectionsOf(View(), data))| > 30
    {
      hide Parse, WellFormed, Answering, Ipcp.View, Print;
      ghost var todo, d := Parse(data), View();
      len, rejLen, fits := 0, 0, true;
      assert nak[..len] == [] && rej[..rejLen] == [];
      var iter := new OptionIter(data);
      var more := iter.Next();
      while more
        invariant iter.Valid() && View() == d
        invariant more <==> |todo| > 0
        invariant more ==> Opt(iter.kind, iter.value) == todo[0] && iter.len == |iter.value| && iter.Rest() == todo[1..]
        invariant len <= 30 && rejLen <= |data| && fits
        invariant Answering(d, nak[..len], rej[..rejLen], todo, data)
        decreases |todo|
      {
        len, rejLen, fits := ServerOption(nak, rej, len, rejLen, iter.kind, iter.len, iter.value, todo, data);
        if !fits {
          return;
        }
        todo := todo[1..];
        more := iter.Next();
      }
    }

    /** A request of the peer, seen by a server: what it does not serve is rejected, wrong
        or missing values are corrected. The corrections stay within the driver's buffer if
        and only if at most five options that it serves disagree. */
    method ServerRcr(data: seq<byte>) returns (r: Reply, fits: bool)
      requires Valid() && WellFormed(data)
      ensures fits <==> |Corrections(View(), Parse(data))| <= 5
      ensures fits ==> r == ServerReply(View(), data)
    {
      AnswersStart(View(), data);
      CorrectionsSize(View(), Parse(data));
      hide Parse, WellFormed, ServerReply, Answering, Print;
      var nak, rej := new byte[30](_ => 0), new byte[|data|](_ => 0);
      var len, rejLen;
      len, rejLen, fits := ServerOptions(nak, rej, data);
      if !fits {
        return Reply(Accept, []), false;
      }
      AnswersDone(View(), nak[..len], rej[..rejLen], [], data);
      if rejLen > 0 {
        r := Reply(Reject, rej[..rejLen]);
      } else if len > 0 {
        r := Reply(Nak, nak[..len]);
      } else {
        r := Reply(Accept, []);
      }
    }
  }

  function CorrectionsOf(d: Spec.Ipcp, data: seq<byte>): (r: seq<Opt>)
    ensures forall i :: 0 <= i < |r| ==> Printable(r[i])
  {
    AnswersPrintable(d, Parse(data));
    Corrections(d, Parse(data))
  }

  lemma {:induction false} UnservedShorter(opts: seq<Opt>)
    requires forall i :: 0 <= i < |opts| ==> Printable(opts[i])
    ensures forall i :: 0 <= i < |Unserved(opts)| ==> Printable(Unserved(opts)[i])
    ensures |Print(Unserved(opts))| <= |Print(opts)|
    decreases |opts|
  {
    if |opts| > 0 {
      UnservedShorter(opts[1..]);
      if !Served(opts[0].kind) {
        assert ([opts[0]] + Unserved(opts[1..]))[1..] == Unserved(opts[1..]);
      }
    }
  }

  /** The corrections written and those to come are all the corrections. */
  ghost predicate CorrectionsLeft(d: Spec.Ipcp, written: seq<byte>, todo: seq<Opt>, data: seq<byte>) {
    AnswersPrintable(d, todo);
    written + Print(Corrections(d, todo)) == Print(CorrectionsOf(d, data))
  }

  ghost predicate UnservedLeft(written: seq<byte>, todo: seq<Opt>, data: seq<byte>) {
    && WellFormed(data)
    && (forall i :: 0 <= i < |Unserved(todo)| ==> Printable(Unserved(todo)[i]))
    && (forall i :: 0 <= i < |Unserved(Parse(data))| ==> Printable(Unserved(Parse(data))[i]))
    && |Print(Unserved(Parse(data)))| <= |data|
    && written + Print(Unserved(todo)) == Print(Unserved(Parse(data)))
  }

  ghost predicate Answering(d: Spec.Ipcp, nak: seq<byte>, rej: seq<byte>, todo: seq<Opt>, data: seq<byte>) {
    && (forall i :: 0 <= i < |todo| ==> Printable(todo[i]))
    && CorrectionsLeft(d, nak, todo, data) && UnservedLeft(rej, todo, data)
  }

  method CopyUnserved(rej: array<byte>, len: nat, kind: byte, optLen: byte, value: seq<byte>) returns (n: nat)
    requires len + optLen + 2 <= rej.Length && optLen == |value| <= 253
    modifies rej
    ensures n == len + optLen + 2 && rej[..n] == old(rej[..len]) + PrintOne(Opt(kind, value))
  {
    Put(rej, len, [kind, optLen + 2] + value);
    n := len + optLen + 2;
    assert rej[..n] == rej[..][..n];
    assert old(rej[..len]) == old(rej[..])[..len];
  }

  lemma {:induction false} AnswersStart(d: Spec.Ipcp, data: seq<byte>)
    requires WellFormed(data)
    ensures Answering(d, [], [], Parse(data), data)
  {
    hide Parse, WellFormed, Print, Corrections, Unserved;
    PrintParse(data);
    AnswersPrintable(d, Parse(data));
    UnservedShorter(Parse(data));
    assert [] + Print(CorrectionsOf(d, data)) == Print(CorrectionsOf(d, data));
    assert [] + Print(Unserved(Parse(data))) == Print(Unserved(Parse(data)));
  }

  lemma CorrectionStep(d: Spec.Ipcp, nak: seq<byte>, rej: seq<byte>, todo: seq<Opt>, data: seq<byte>)
    requires CorrectionsLeft(d, nak, todo, data) && UnservedLeft(rej, todo, data)
    requires |todo| > 0 && Served(todo[0].kind)
    ensures var more := if Agrees(d, todo[0]) then [] else [todo[0].kind, 6] + Configured(d, todo[0].kind);
      CorrectionsLeft(d, nak + more, todo[1..], data)
    ensures UnservedLeft(rej, todo[1..], data)
  {
    AnswersPrintable(d, todo);
    AnswersPrintable(d, todo[1..]);
    if Agrees(d, todo[0]) {
      assert nak + [] == nak;
    } else {
      var o, rest := Opt(todo[0].kind, Configured(d, todo[0].kind)), Corrections(d, todo[1..]);
      assert ([o] + rest)[1..] == rest;
      assert nak + (PrintOne(o) + Print(rest)) == nak + PrintOne(o) + Print(rest);
    }
  }

  /** The correction that does not fit is among all of them. */
  lemma CorrectionOverflows(d: Spec.Ipcp, nak: seq<byte>, rej: seq<byte>, todo: seq<Opt>, data: seq<byte>)
    requires CorrectionsLeft(d, nak, todo, data) && |todo| > 0 && Served(todo[0].kind) && !Agrees(d, todo[0])
    ensures |Print(CorrectionsOf(d, data))| >= |nak| + 6
  {
    AnswersPrintable(d, todo);
    var o := Opt(todo[0].kind, Configured(d, todo[0].kind));
    assert Corrections(d, todo)[0] == o && |PrintOne(o)| == 6;
  }

  lemma {:induction false} CorrectionsSize(d: Spec.Ipcp, opts: seq<Opt>)
    ensures forall i :: 0 <= i < |Corrections(d, opts)| ==> Printable(Corrections(d, opts)[i])
    ensures |Print(Corrections(d, opts))| == 6 * |Corrections(d, opts)|
    decreases |opts|
  {
    AnswersPrintable(d, opts);
    hide Served, Agrees;
    if |opts| > 0 {
      CorrectionsSize(d, opts[1..]);
      if Served(opts[0].kind) && !Agrees(d, opts[0]) {
        assert Corrections(d, opts)[1..] == Corrections(d, opts[1..]);
      }
    }
  }

  /** Six times the zero address is one correction too many, whatever the server. */
  lemma {:induction false} SixCorrections(d: Spec.Ipcp)
    ensures var o := Opt(3, Spec.NO_ADDR); var data := Print([o, o, o, o, o, o]);
      WellFormed(data) && |Corrections(d, Parse(data))| == 6
  {
    var o := Opt(3, Spec.NO_ADDR);
    ParsePrint([o, o, o, o, o, o]);
    hide Parse, WellFormed;
    assert !Agrees(d, o) && Served(3);
    SameCorrections(d, 6);
    assert [o, o, o, o, o, o] == seq(6, _ => o);
  }

  lemma {:induction false} SameCorrections(d: Spec.Ipcp, n: nat)
    ensures |Corrections(d, seq(n, _ => Opt(3, Spec.NO_ADDR)))| == n
    decreases n
  {
    if n > 0 {
      SameCorrections(d, n - 1);
      assert seq(n, _ => Opt(3, Spec.NO_ADDR))[1..] == seq(n - 1, _ => Opt(3, Spec.NO_ADDR));
    }
  }

  lemma UnservedStep(d: Spec.Ipcp, nak: seq<byte>, rej: seq<byte>, todo: seq<Opt>, data: seq<byte>)
    requires CorrectionsLeft(d, nak, todo, data) && UnservedLeft(rej, todo, data)
    requires |todo| > 0 && !Served(todo[0].kind) && Printable(todo[0])
    ensures |rej| + |todo[0].value| + 2 <= |data|
    ensures CorrectionsLeft(d, nak, todo[1..], data) && UnservedLeft(rej + PrintOne(todo[0]), todo[1..], data)
  {
    AnswersPrintable(d, todo[1..]);
    var rest := Unserved(todo[1..]);
    assert Unserved(todo) == [todo[0]] + rest;
    assert ([todo[0]] + rest)[1..] == rest;
    assert rej + (PrintOne(todo[0]) + Print(rest)) == rej + PrintOne(todo[0]) + Print(rest);
  }

  lemma {:induction false} AnswersDone(d: Spec.Ipcp, nak: seq<byte>, rej: seq<byte>, todo: seq<Opt>, data: seq<byte>)
    requires Answering(d, nak, rej, todo, data) && todo == []
    ensures WellFormed(data) && |Print(CorrectionsOf(d, data))| == |nak|
    ensures ServerReply(d, data) ==
            if |rej| > 0 then Reply(Reject, rej) else if |nak| > 0 then Reply(Nak, nak) else Reply(Accept, [])
  {
    assert nak + [] == nak && rej + [] == rej;
    PrintNone(Unserved(Parse(data)));
    PrintNone(CorrectionsOf(d, data));
    hide Parse, WellFormed;
  }

  lemma {:induction false} PrintNone(opts: seq<Opt>)
    requires forall i :: 0 <= i < |opts| ==> Printable(opts[i])
    ensures |Print(opts)| == 0 <==> |opts| == 0
  {
  }

  lemma {:induction false} StartCollecting(buffer: array<byte>, data: seq<byte>)
    requires WellFormed(data) && buffer.Length == |data| && forall i :: 0 <= i < |data| ==> buffer[i] == 0
    ensures Collecting(buffer[..], 0, Parse(data), data)
  {
    hide Collecting, Parse, WellFormed;
    assert buffer[..] == Zeros(|data|);
    CollectingStarts(data);
  }

  /** Copies one refused option behind the others. */
  method CopyOption(buffer: array<byte>, len: byte, kind: byte, optLen: byte, value: seq<byte>,
                    ghost todo: seq<Opt>, ghost data: seq<byte>) returns (n: byte)
    requires Collecting(buffer[..], len, todo, data) && |todo| > 0 && Refuses(todo[0])
    requires todo[0] == Opt(kind, value) && optLen == |value|
    modifies buffer
    ensures Collecting(buffer[..], n, todo[1..], data)
  {
    CollectingCopies(buffer[..], len, todo, data);
    hide Collecting, Overwrite;
    Put(buffer, len, [kind, optLen + 2] + value);
    n := (len + optLen + 2) % 256;
  }

  /** What is left to copy, into a buffer holding what was copied. */
  ghost predicate Collecting(buf: seq<byte>, len: byte, todo: seq<Opt>, data: seq<byte>) {
    && WellFormed(data) && |buf| == |data|
    && (forall i :: 0 <= i < |todo| ==> Printable(todo[i]))
    && (forall i :: 0 <= i < |Parse(data)| ==> Printable(Parse(data)[i]))
    && len + |Print(Refused(todo))| <= |data| && |Print(Refused(Parse(data)))| <= |data|
    && (len + |Print(Refused(todo))|) % 256 == RefusedBytes(data) % 256
    && Collect(buf, len, Refused(todo)) == Collect(Zeros(|data|), 0, Refused(Parse(data)))
  }

  lemma {:induction false} CollectingStarts(data: seq<byte>)
    requires WellFormed(data)
    ensures Collecting(Zeros(|data|), 0, Parse(data), data)
  {
    PrintParse(data);
    RefusedFits(data);
  }

  lemma CollectingSkips(buf: seq<byte>, len: byte, todo: seq<Opt>, data: seq<byte>)
    requires Collecting(buf, len, todo, data) && |todo| > 0 && !Refuses(todo[0])
    ensures Collecting(buf, len, todo[1..], data)
  {
    hide Parse, WellFormed, Print, Collect;
  }

  lemma CollectingCopies(buf: seq<byte>, len: byte, todo: seq<Opt>, data: seq<byte>)
    requires Collecting(buf, len, todo, data) && |todo| > 0 && Refuses(todo[0])
    ensures len + |todo[0].value| + 2 <= |buf| && |todo[0].value| <= 253
    ensures Collecting(Overwrite(buf, len, [todo[0].kind, |todo[0].value| + 2] + todo[0].value),
                       (len + |todo[0].value| + 2) % 256, todo[1..], data)
  {
    hide Parse, WellFormed, RefusedBytes, Zeros, Refuses, Print, Refused, PrintOne, Collect, Overwrite, Printable;
    CollectingRead(buf, len, todo, data);
    CollectOne(buf, len, todo);
    ModAdd(len + |todo[0].value| + 2, |Print(Refused(todo[1..]))|);
  }

  lemma CollectingRead(buf: seq<byte>, len: byte, todo: seq<Opt>, data: seq<byte>)
    requires Collecting(buf, len, todo, data) && |todo| > 0
    ensures |todo[0].value| <= 253
    ensures forall i :: 0 <= i < |todo[1..]| ==> Printable(todo[1..][i])
  {
    hide Parse, WellFormed, RefusedBytes, Zeros, Refuses, Print, Refused, PrintOne, Collect, Overwrite;
  }

  lemma ModAdd(a: nat, b: nat)
    ensures a % 256 <= a && (a % 256 + b) % 256 == (a + b) % 256
  {
  }

  lemma CollectOne(buf: seq<byte>, len: byte, todo: seq<Opt>)
    requires |todo| > 0 && Refuses(todo[0]) && forall i :: 0 <= i < |todo| ==> Printable(todo[i])
    requires len + |Print(Refused(todo))| <= |buf|
    ensures var one := [todo[0].kind, |todo[0].value| + 2] + todo[0].value; var rest := Refused(todo[1..]);
      && |Print(Refused(todo))| == |one| + |Print(rest)|
      && (forall i :: 0 <= i < |rest| ==> Printable(rest[i]))
      && Collect(buf, len, Refused(todo)) == Collect(Overwrite(buf, len, one), (len + |one|) % 256, rest)
  {
    var rest := Refused(todo[1..]);
    assert Refused(todo) == [todo[0]] + rest;
    assert ([todo[0]] + rest)[1..] == rest;
  }

  lemma {:induction false} CollectingEnds(buf: seq<byte>, len: byte, todo: seq<Opt>, data: seq<byte>)
    requires Collecting(buf, len, todo, data) && todo == []
    ensures len <= |buf| && WellFormed(data)
    ensures ClientReply(data) == if len > 0 then Reply(Reject, buf[..len]) else Reply(Accept, [])
  {
    hide Parse, WellFormed, Zeros, Refuses;
    assert Refused(todo) == [];
    assert Collect(buf, len, Refused(todo)) == buf && Print(Refused(todo)) == [];
    hide Collect, Refused, Print;
  }
}
