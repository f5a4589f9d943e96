/** The receiver as the program runs it. An advanced frame is unquoted to the front of the
    bytes searched, and its header is checked there, also when fewer than three bytes lie
    between two flags; how much is looked at depends on where the search began. */
module MuxReads {
  import opened Bytes
  import HdlcCodec
  import opened MuxCrc
  import opened Gsm0710
  import opened MuxTransfer

  // ---- One search ----

  /** Cells a check may read though the frame did not fill them: the byte in front of the
      bytes searched, and the first two of these as they are at the moment. */
  datatype Front = Front(before: byte, first: byte, second: byte)

  function FrontOf(before: byte, s: seq<byte>): Front {
    Front(before, if |s| > 0 then s[0] else 0, if |s| > 1 then s[1] else 0)
  }

  /** Unquoted bytes have been moved to the front. */
  function Overlaid(f: Front, body: seq<byte>): Front {
    f.(first := if |body| > 0 then body[0] else f.first, second := if |body| > 1 then body[1] else f.second)
  }

  /** The check the program makes: two cells at the front against the last byte unquoted. */
  predicate Taken(f: Front, body: seq<byte>) {
    var g := Overlaid(f, body);
    CheckFcs([g.first, g.second], if |body| > 0 then body[|body| - 1] else f.before)
  }

  /** The end of a search: nothing, a packet, or what the program takes for a packet whose
      length is negative. */
  datatype Found = NoFrame(next: nat) | Whole(next: nat, packet: Packet)
                 | Short(next: nat, dlc: byte, control: byte, length: int)

  function Examined(f: Front, body: seq<byte>, next: nat): Found {
    var g := Overlaid(f, body);
    if |body| >= 3 then Whole(next, Packet(g.first / 4, StripPf(g.second), body[2..|body| - 1]))
    else Short(next, g.first / 4, StripPf(g.second), |body| - 3)
  }

  /** A search of s, from position i on. Frames that end in the first four bytes are not
      looked at. */
  function Extract(s: seq<byte>, i: nat, f: Front): (r: Found)
    requires i <= |s|
    ensures i <= r.next <= |s|
    ensures !r.NoFrame? ==> i < r.next && 4 <= r.next < |s| && s[r.next] == ADVANCED_FLAG
    decreases |s| - i
  {
    if i == |s| then NoFrame(i)
    else if AdvancedSkips(s[i..]) then Extract(s, i + 1, f)
    else if AdvancedWaits(s[i..]) then NoFrame(i)
    else
      var body, end := Segment(s[i..]), i + AdvancedSize(s[i..]);
      if end < 4 then Extract(s, end, f)
      else if Taken(f, body) then Examined(f, body, end)
      else Extract(s, end, Overlaid(f, body))
  }

  /** Packets handed out of one buffer and bytes left over; or the search ended in a frame
      too short to be one, and what the program does next depends on memory around it. */
  datatype Feeding = Feeding(found: Demuxed, sound: bool)

  function FeedAdvanced(s: seq<byte>, before: byte): Feeding
    decreases |s|
  {
    match Extract(s, 0, FrontOf(before, s))
    case NoFrame(n) => Feeding(Demuxed([], s[n..]), true)
    case Whole(n, p) => var r := FeedAdvanced(s[n..], s[n - 1]); Feeding(Prepend(p, r.found), r.sound)
    case Short(n, _, _, _) => Feeding(Demuxed([], s[n..]), false)
  }

  function FeedBuffer(mode: Mode, s: seq<byte>, before: byte): Feeding {
    if mode.Basic? then Feeding(BasicDemux(s), true) else FeedAdvanced(s, before)
  }

  /** A run of reads, each put behind what the one before left. */
  function FeedReads(mode: Mode, rest: seq<byte>, chunks: seq<seq<byte>>, before: byte): Feeding
    decreases |chunks|
  {
    if |chunks| == 0 then Feeding(Demuxed([], rest), true)
    else
      var d := FeedBuffer(mode, rest + chunks[0], before);
      if !d.sound then d
      else var r := FeedReads(mode, d.found.rest, chunks[1..], before); Feeding(Then(d.found, r.found), r.sound)
  }

  // ---- As long as no short frame is taken ----

  lemma TakenIsGood(f: Front, t: seq<byte>)
    requires !AdvancedWaits(t)
    ensures |Segment(t)| >= 3 ==> Taken(f, Segment(t)) == AdvancedGood(t)
    ensures |Segment(t)| >= 3 ==> forall n :: Examined(f, Segment(t), n) == Whole(n, AdvancedPacket(t))
    ensures |Segment(t)| < 3 ==> !AdvancedGood(t)
  {
    hide CheckFcs, Segment, AdvancedWaits;
    var body := Segment(t);
    if |body| >= 3 {
      assert body[..2] == [body[0], body[1]];
    }
  }

  /** One turn of the search, and what the packets have to do with it. */
  lemma AdvancedGoesOn(s: seq<byte>, i: nat)
    requires i < |s|
    ensures AdvancedSkips(s[i..]) ==> AdvancedDemux(s[i..]) == AdvancedDemux(s[i + 1..])
    ensures !AdvancedSkips(s[i..]) && AdvancedWaits(s[i..]) ==> AdvancedDemux(s[i..]) == Demuxed([], s[i..])
    ensures !AdvancedSkips(s[i..]) && !AdvancedWaits(s[i..]) ==>
      var t := s[i..]; var end := i + AdvancedSize(t);
      && end < |s| && s[end] == ADVANCED_FLAG && |Segment(t)| < AdvancedSize(t)
      && AdvancedDemux(t) == if AdvancedGood(t) then Prepend(AdvancedPacket(t), AdvancedDemux(s[end..])) else AdvancedDemux(s[end..])
  {
    hide CheckFcs, Unquote;
    assert s[i..][1..] == s[i + 1..];
    if !AdvancedSkips(s[i..]) && !AdvancedWaits(s[i..]) {
      var n := AdvancedSize(s[i..]);
      assert s[i..][n..] == s[i + n..];
    }
  }

  lemma {:induction false} ExtractIs(s: seq<byte>, i: nat, f: Front)
    requires i <= |s|
    ensures var r := Extract(s, i, f);
      && (r.NoFrame? ==> AdvancedDemux(s[i..]) == Demuxed([], s[r.next..]))
      && (r.Whole? ==> AdvancedDemux(s[i..]) == Prepend(r.packet, AdvancedDemux(s[r.next..])))
    decreases |s| - i
  {
    hide AdvancedDemux, AdvancedSkips, AdvancedWaits, AdvancedSize, AdvancedGood, AdvancedPacket, Segment;
    hide Taken, Overlaid;
    if i == |s| {
      NothingFound(Advanced);
    } else {
      AdvancedGoesOn(s, i);
      if AdvancedSkips(s[i..]) {
        ExtractIs(s, i + 1, f);
      } else if !AdvancedWaits(s[i..]) {
        var end := i + AdvancedSize(s[i..]);
        TakenIsGood(f, s[i..]);
        if end < 4 || !Taken(f, Segment(s[i..])) {
          ExtractIs(s, end, if end < 4 then f else Overlaid(f, Segment(s[i..])));
        }
      }
    }
  }

  /** Until a short frame is taken, the packets are those of the stream. */
  lemma {:induction false} FeedingIs(s: seq<byte>, before: byte)
    ensures FeedAdvanced(s, before).sound ==> FeedAdvanced(s, before).found == AdvancedDemux(s)
    decreases |s|
  {
    hide AdvancedDemux, Extract, FrontOf;
    var r := Extract(s, 0, FrontOf(before, s));
    ExtractIs(s, 0, FrontOf(before, s));
    assert s[0..] == s;
    if r.Whole? {
      FeedingIs(s[r.next..], s[r.next - 1]);
    }
  }

  lemma {:induction false} ReadsAre(mode: Mode, rest: seq<byte>, chunks: seq<seq<byte>>, before: byte)
    ensures var r := FeedReads(mode, rest, chunks, before); r.sound ==> r.found == DemuxReads(mode, rest, chunks)
    decreases |chunks|
  {
    hide AdvancedDemux, BasicDemux, FeedAdvanced, Then;
    if |chunks| > 0 {
      FeedingIs(rest + chunks[0], before);
      ReadsAre(mode, FeedBuffer(mode, rest + chunks[0], before).found.rest, chunks[1..], before);
    }
  }

  // ---- When reads may be cut anywhere ----

  /** Where a search may begin, if reads may end anywhere: at a flag, or before the first. */
  ghost predicate MayBegin(s: seq<byte>, c: nat)
    requires c <= |s|
  {
    (c < |s| && s[c] == ADVANCED_FLAG) || ADVANCED_FLAG !in s[..c]
  }

  /** No search takes a short frame, wherever it begins. */
  ghost predicate Clean(s: seq<byte>) {
    forall c, before: byte :: 0 <= c <= |s| && MayBegin(s, c) ==> !Extract(s[c..], 0, FrontOf(before, s[c..])).Short?
  }

  lemma TailLocal(a: seq<byte>, b: seq<byte>, i: nat)
    requires i < |a|
    ensures (a + b)[i..] == a[i..] + b && |a[i..]| > 0
  {
  }

  /** More bytes do not change what a search has found. */
  lemma {:induction false} ExtractLocal(a: seq<byte>, b: seq<byte>, i: nat, f: Front)
    requires i <= |a| && !Extract(a, i, f).NoFrame?
    ensures Extract(a + b, i, f) == Extract(a, i, f)
    decreases |a| - i
  {
    hide AdvancedSkips, AdvancedWaits, AdvancedSize, Segment, Taken, Overlaid, Examined, AdvancedGood, AdvancedPacket;
    if i < |a| {
      TailLocal(a, b, i);
      AdvancedLocal(a[i..], b);
      SegmentLocal(a[i..], b);
      if AdvancedSkips(a[i..]) {
        ExtractLocal(a, b, i + 1, f);
      } else if !AdvancedWaits(a[i..]) {
        var body, end := Segment(a[i..]), i + AdvancedSize(a[i..]);
        if end < 4 {
          ExtractLocal(a, b, end, f);
        } else if !Taken(f, body) {
          ExtractLocal(a, b, end, Overlaid(f, body));
        }
      }
    }
  }

  lemma SegmentLocal(a: seq<byte>, b: seq<byte>)
    requires |a| > 0
    ensures !AdvancedSkips(a) && !AdvancedWaits(a) ==> !AdvancedWaits(a + b) && Segment(a + b) == Segment(a)
  {
    hide Unquote;
    if !AdvancedSkips(a) && !AdvancedWaits(a) {
      AdvancedLocal(a, b);
      assert (a + b)[1..AdvancedSize(a)] == a[1..AdvancedSize(a)];
    }
  }

  lemma FrontLocal(a: seq<byte>, b: seq<byte>, before: byte)
    requires |a| >= 2
    ensures FrontOf(before, a + b) == FrontOf(before, a)
  {
  }

  /** A clean stream stays sound from wherever a search may begin to wherever a read ends. */
  lemma {:induction false} CleanFeeds(s: seq<byte>, c: nat, k: nat, before: byte)
    requires Clean(s) && c <= k <= |s| && MayBegin(s, c)
    ensures FeedAdvanced(s[c..k], before).sound
    decreases k - c
  {
    hide Extract, FrontOf;
    var t := s[c..k];
    var r := Extract(t, 0, FrontOf(before, t));
    if !r.NoFrame? {
      assert s[c..] == t + s[k..];
      FrontLocal(t, s[k..], before);
      ExtractLocal(t, s[k..], 0, FrontOf(before, t));
      assert !Extract(s[c..], 0, FrontOf(before, s[c..])).Short?;
      assert t[r.next..] == s[c + r.next..k] && s[c + r.next] == t[r.next];
      CleanFeeds(s, c + r.next, k, t[r.next - 1]);
    }
  }

  /** What is kept starts at a flag, or no flag has come yet. */
  lemma {:induction false} RestBegins(s: seq<byte>)
    ensures var rest := AdvancedDemux(s).rest;
      if |rest| > 0 then rest[0] == ADVANCED_FLAG else ADVANCED_FLAG !in s
    decreases |s|
  {
    hide AdvancedGood, AdvancedPacket, Segment;
    if |s| > 0 {
      if AdvancedSkips(s) {
        RestBegins(s[1..]);
        assert s == [s[0]] + s[1..];
      } else if !AdvancedWaits(s) {
        RestBegins(s[AdvancedSize(s)..]);
      }
    }
  }

  lemma SplitTail(s: seq<byte>, k: nat, a: seq<byte>, b: seq<byte>)
    requires k <= |s| && s[k..] == a + b
    ensures k + |a| <= |s| && s[k..k + |a|] == a && s[k + |a|..] == b
  {
    assert s[k..][..|a|] == s[k..k + |a|] && s[k..][|a|..] == s[k + |a|..];
  }

  lemma {:induction false} CleanReads(s: seq<byte>, c: nat, k: nat, chunks: seq<seq<byte>>, before: byte)
    requires Clean(s) && c <= k <= |s| && MayBegin(s, c) && HdlcCodec.Flatten(chunks) == s[k..]
    ensures FeedReads(Advanced, s[c..k], chunks, before).sound
    decreases |chunks|
  {
    hide FeedAdvanced, AdvancedDemux, Clean, Then;
    if |chunks| > 0 {
      var k' := k + |chunks[0]|;
      assert s[k..] == chunks[0] + HdlcCodec.Flatten(chunks[1..]);
      SplitTail(s, k, chunks[0], HdlcCodec.Flatten(chunks[1..]));
      assert s[c..k] + s[k..k'] == s[c..k'];
      CleanFeeds(s, c, k', before);
      FeedingIs(s[c..k'], before);
      var rest := AdvancedDemux(s[c..k']).rest;
      RestIsTail(Advanced, s[c..k']);
      RestBegins(s[c..k']);
      var c' := k' - |rest|;
      assert rest == s[c'..k'];
      BeginsAgain(s, c, k', c');
      CleanReads(s, c', k', chunks[1..], before);
    }
  }

  lemma BeginsAgain(s: seq<byte>, c: nat, k: nat, c': nat)
    requires c <= c' <= k <= |s| && MayBegin(s, c)
    requires if c' < k then s[c'] == ADVANCED_FLAG else ADVANCED_FLAG !in s[c..k]
    ensures MayBegin(s, c')
  {
    if c' == k {
      assert s[..k] == s[..c] + s[c..k];
      if c < k {
        assert s[c] == s[c..k][0];
      }
    }
  }

  /** Two reads that show a stream is not clean: the second search begins at c. */
  function CutAt(s: seq<byte>, c: nat): seq<seq<byte>>
    requires c <= |s|
  {
    if ADVANCED_FLAG !in s[..c] then [s[..c], s[c..]]
    else if c < |s| then [s[..c + 1], s[c + 1..]] else [s]
  }

  lemma {:induction false} CutShows(s: seq<byte>, c: nat, before: byte)
    requires c <= |s| && MayBegin(s, c) && Extract(s[c..], 0, FrontOf(before, s[c..])).Short?
    ensures HdlcCodec.Flatten(CutAt(s, c)) == s
    ensures !FeedReads(Advanced, [], CutAt(s, c), before).sound
  {
    hide Extract, FrontOf, AdvancedDemux, FeedReads;
    var k := if ADVANCED_FLAG !in s[..c] then c else c + 1;
    TwoReads(s, k, before);
    FeedingIs(s[..k], before);
    if k == c {
      RestBegins(s[..k]);
      NoFlagNothingKept(s[..k]);
      assert [] + s[k..] == s[c..];
    } else {
      assert s[..k] == s[..c] + [ADVANCED_FLAG];
      LastFlagKept(s[..c]);
      assert [ADVANCED_FLAG] + s[k..] == s[c..];
    }
  }

  lemma {:induction false} TwoReads(s: seq<byte>, k: nat, before: byte)
    requires k <= |s|
    ensures var chunks := [s[..k], s[k..]];
      && HdlcCodec.Flatten(chunks) == s
      && (FeedReads(Advanced, [], chunks, before).sound ==>
          FeedAdvanced(s[..k], before).sound && FeedAdvanced(FeedAdvanced(s[..k], before).found.rest + s[k..], before).sound)
  {
    hide FeedAdvanced;
    var chunks: seq<seq<byte>> := [s[..k], s[k..]];
    var last := chunks[1..];
    assert last == [s[k..]] && last[1..] == [];
    assert HdlcCodec.Flatten(last) == s[k..] + [] == s[k..];
    assert s[..k] + s[k..] == s && [] + s[..k] == s[..k];
    var d := FeedAdvanced(s[..k], before);
    assert FeedReads(Advanced, [], chunks, before).sound == (d.sound && FeedReads(Advanced, d.found.rest, last, before).sound);
  }

  lemma {:induction false} NoFlagNothingKept(s: seq<byte>)
    requires ADVANCED_FLAG !in s
    ensures AdvancedDemux(s).rest == []
    decreases |s|
  {
    if |s| > 0 {
      NoFlagNothingKept(s[1..]);
    }
  }

  lemma {:induction false} LastFlagKept(s: seq<byte>)
    ensures AdvancedDemux(s + [ADVANCED_FLAG]).rest == [ADVANCED_FLAG]
    decreases |s|
  {
    hide AdvancedGood, AdvancedPacket, Segment;
    var t := s + [ADVANCED_FLAG];
    if |s| == 0 {
      FlagAlone(Advanced);
      assert t == [ADVANCED_FLAG];
    } else {
      assert t[|s|] == ADVANCED_FLAG;
      if AdvancedSkips(t) {
        assert t[1..] == s[1..] + [ADVANCED_FLAG];
        LastFlagKept(s[1..]);
      } else {
        assert !AdvancedWaits(t);
        var n := AdvancedSize(t);
        assert t[n..] == s[n..] + [ADVANCED_FLAG];
        LastFlagKept(s[n..]);
      }
    }
  }

  /** The packets found in advanced mode do not depend on where reads end, and are those of
      the stream, if and only if the stream is clean. */
  lemma {:induction false} ReadBoundariesIrrelevantIff(s: seq<byte>)
    ensures Clean(s) <==>
      forall chunks: seq<seq<byte>>, before: byte :: HdlcCodec.Flatten(chunks) == s ==>
        FeedReads(Advanced, [], chunks, before) == Feeding(AdvancedDemux(s), true)
  {
    hide FeedReads, HdlcCodec.Flatten, AdvancedDemux, Extract;
    if Clean(s) {
      forall chunks: seq<seq<byte>>, before: byte | HdlcCodec.Flatten(chunks) == s
        ensures FeedReads(Advanced, [], chunks, before) == Feeding(AdvancedDemux(s), true)
      {
        assert s[0..] == s && s[0..0] == [] && [] + s == s;
        CleanReads(s, 0, 0, chunks, before);
        ReadsAre(Advanced, [], chunks, before);
        NothingFound(Advanced);
        ReadsJoin(Advanced, [], chunks);
      }
    } else {
      var c: int, before: byte :| 0 <= c <= |s| && MayBegin(s, c) && Extract(s[c..], 0, FrontOf(before, s[c..])).Short?;
      CutShows(s, c, before);
    }
  }

  // ---- A stream that is not clean ----

  const ODD_STREAM: seq<byte> := [0x00, 0x7e, 0x0f, 0xef, 0x7e]

  lemma {:induction false} OddBits()
    ensures ToBits(0x0f) == 0x0f && ToBits(0xef) == 0xef
  {
    assert ToBits(1) == 1 && ToBits(3) == 3 && ToBits(7) == 7 && ToBits(0xf) == 0xf;
    assert ToBits(0xe) == 0xe && ToBits(0x1d) == 0x1d && ToBits(0x3b) == 0x3b && ToBits(0x77) == 0x77;
  }

  /** A header of two bytes that passes as its own check byte. */
  lemma {:induction false} OddHeader()
    ensures CheckFcs([0x0f, 0xef], 0xef)
  {
    OddBits();
    hide ToBits;
    assert [0x0f, 0xef][..1] == [0x0f] && [0x0f][..0] == [];
    assert Crc([]) == 0xff;
  }

  /** Flag, two bytes, flag: what the search makes of them depends on what is in front. */
  lemma {:induction false} OddTail()
    ensures var t := ODD_STREAM[1..];
      && t == [0x7e, 0x0f, 0xef, 0x7e]
      && !AdvancedSkips(t) && !AdvancedWaits(t) && AdvancedSize(t) == 3 && Segment(t) == [0x0f, 0xef]
  {
    var t := ODD_STREAM[1..];
    assert t == [0x7e, 0x0f, 0xef, 0x7e];
    FlagFirst(t, 1, 3);
    var b := t[1..3];
    assert b == [0x0f, 0xef] && b[1..] == [0xef] && [0xef][1..] == [];
    assert Unquote([0xef]) == [0xef] + Unquote([]);
    assert Unquote(b) == [0x0f] + Unquote(b[1..]);
  }

  lemma {:induction false} OddTaken(before: byte)
    ensures Extract(ODD_STREAM, 0, FrontOf(before, ODD_STREAM)) == Short(4, 3, DATA, -1)
  {
    OddTail();
    OddHeader();
    hide CheckFcs, AdvancedWaits, AdvancedSize, Segment;
    var f := FrontOf(before, ODD_STREAM);
    assert ODD_STREAM[0..] == ODD_STREAM && AdvancedSkips(ODD_STREAM);
    assert Extract(ODD_STREAM, 0, f) == Extract(ODD_STREAM, 1, f);
    assert Taken(f, [0x0f, 0xef]);
    assert Extract(ODD_STREAM, 1, f) == Examined(f, [0x0f, 0xef], 4);
  }

  lemma {:induction false} OddPassed(before: byte)
    ensures FeedAdvanced([0x00], before) == Feeding(Demuxed([], []), true)
    ensures FeedAdvanced(ODD_STREAM[1..], before) == Feeding(Demuxed([], [0x7e]), true)
  {
    OddTail();
    hide CheckFcs, Segment;
    var t, f := ODD_STREAM[1..], FrontOf(before, ODD_STREAM[1..]);
    assert [0x00][0..] == [0x00] && AdvancedSkips([0x00]);
    assert Extract([0x00], 0, FrontOf(before, [0x00])) == NoFrame(1);
    assert t[0..] == t && t[3..] == [0x7e];
    assert Extract(t, 0, f) == Extract(t, 3, f);
    assert FlagFrom([0x7e], 1) == 1;
    assert Extract(t, 3, f) == NoFrame(3);
  }

  /** Read at once this stream gives what the program takes for a data packet of length -1
      on channel 3; with a read ending after its first byte it gives nothing. */
  lemma {:induction false} ReadBoundaryMatters(before: byte)
    ensures !Clean(ODD_STREAM)
    ensures !FeedReads(Advanced, [], [ODD_STREAM], before).sound
    ensures FeedReads(Advanced, [], [ODD_STREAM[..1], ODD_STREAM[1..]], before) == Feeding(Demuxed([], [0x7e]), true)
  {
    OddNotClean(before);
    OddUnsound(before);
    OddPassed(before);
    hide Extract, FeedAdvanced, Clean;
    OneRead(ODD_STREAM, before);
    assert ODD_STREAM[..1] == [0x00];
    NothingFirst(ODD_STREAM[..1], ODD_STREAM[1..], before);
  }

  lemma {:induction false} OddNotClean(before: byte)
    ensures !Clean(ODD_STREAM)
  {
    OddTaken(before);
    hide Extract, FrontOf;
    assert MayBegin(ODD_STREAM, 0) && ODD_STREAM[0..] == ODD_STREAM;
  }

  lemma {:induction false} OddUnsound(before: byte)
    ensures !FeedAdvanced(ODD_STREAM, before).sound
  {
    OddTaken(before);
    hide Extract, FrontOf;
  }

  /** A first read that leaves nothing behind does not show. */
  lemma {:induction false} NothingFirst(a: seq<byte>, b: seq<byte>, before: byte)
    requires FeedAdvanced(a, before) == Feeding(Demuxed([], []), true) && FeedAdvanced(b, before).sound
    ensures FeedReads(Advanced, [], [a, b], before) == FeedAdvanced(b, before)
  {
    hide FeedAdvanced;
    var d := FeedAdvanced(b, before);
    assert [] + a == a && [] + b == b && [a, b][1..] == [b] && [b][1..] == [];
    assert FeedReads(Advanced, d.found.rest, [], before) == Feeding(Demuxed([], d.found.rest), true);
    assert FeedReads(Advanced, [], [b], before) == Feeding(Then(d.found, Demuxed([], d.found.rest)), true);
    assert d.found.packets + [] == d.found.packets;
  }

  lemma {:induction false} OneRead(s: seq<byte>, before: byte)
    ensures FeedReads(Advanced, [], [s], before).sound == FeedAdvanced(s, before).sound
  {
    hide FeedAdvanced;
    assert [] + s == s && [s][1..] == [];
  }

  // ---- The other format, and a peer's stream ----

  /** In basic mode reads may end anywhere in arbitrary bytes. */
  lemma {:induction false} BasicReadBoundariesIrrelevant(chunks: seq<seq<byte>>, before: byte)
    ensures FeedReads(Basic, [], chunks, before) == Feeding(BasicDemux(HdlcCodec.Flatten(chunks)), true)
  {
    hide BasicDemux, FeedReads;
    BasicSound([], chunks, before);
    ReadsAre(Basic, [], chunks, before);
    NothingFound(Basic);
    ReadsJoin(Basic, [], chunks);
    assert [] + HdlcCodec.Flatten(chunks) == HdlcCodec.Flatten(chunks);
  }

  lemma {:induction false} BasicSound(rest: seq<byte>, chunks: seq<seq<byte>>, before: byte)
    ensures FeedReads(Basic, rest, chunks, before).sound
    decreases |chunks|
  {
    hide BasicDemux;
    if |chunks| > 0 {
      BasicSound(BasicDemux(rest + chunks[0]).rest, chunks[1..], before);
    }
  }

  /** Where two flags enclose anything, it is at least three bytes once unquoted. */
  ghost predicate LongFrames(s: seq<byte>) {
    forall p :: 0 <= p < |s| && !AdvancedSkips(s[p..]) && !AdvancedWaits(s[p..]) ==> |Segment(s[p..])| >= 3
  }

  lemma {:induction false} ExtractLong(s: seq<byte>, c: nat, i: nat, f: Front)
    requires LongFrames(s) && c + i <= |s|
    ensures !Extract(s[c..], i, f).Short?
    decreases |s| - i
  {
    hide AdvancedSkips, AdvancedWaits, AdvancedSize, Segment, Taken, Overlaid;
    if c + i < |s| {
      assert s[c..][i..] == s[c + i..];
      if AdvancedSkips(s[c + i..]) {
        ExtractLong(s, c, i + 1, f);
      } else if !AdvancedWaits(s[c + i..]) {
        var end := i + AdvancedSize(s[c + i..]);
        ExtractLong(s, c, end, if end < 4 then f else Overlaid(f, Segment(s[c + i..])));
      }
    }
  }

  lemma LongFramesClean(s: seq<byte>)
    requires LongFrames(s)
    ensures Clean(s)
  {
    hide Extract, LongFrames;
    forall c, before: byte | 0 <= c <= |s| && MayBegin(s, c)
      ensures !Extract(s[c..], 0, FrontOf(before, s[c..])).Short?
    {
      ExtractLong(s, c, 0, FrontOf(before, s[c..]));
    }
  }

  lemma LongFramesTail(s: seq<byte>, c: nat)
    requires LongFrames(s) && c <= |s|
    ensures LongFrames(s[c..])
  {
    hide AdvancedSkips, AdvancedWaits, Segment;
    forall p | 0 <= p < |s[c..]| && !AdvancedSkips(s[c..][p..]) && !AdvancedWaits(s[c..][p..])
      ensures |Segment(s[c..][p..])| >= 3
    {
      assert s[c..][p..] == s[c + p..];
    }
  }

  /** A buffer of such bytes is handed out whole. */
  lemma LongFramesFed(mode: Mode, s: seq<byte>, before: byte)
    requires mode.Advanced? ==> LongFrames(s)
    ensures FeedBuffer(mode, s, before) == Feeding(Demux(mode, s), true)
  {
    hide FeedAdvanced, BasicDemux, AdvancedDemux, LongFrames, Clean;
    if mode.Advanced? {
      LongFramesClean(s);
      assert s[0..|s|] == s;
      CleanFeeds(s, 0, |s|, before);
      FeedingIs(s, before);
    }
  }

  /** Whatever part of a peer's stream has arrived has no short frames. */
  lemma {:induction false} StreamLong(lead: seq<byte>, ps: seq<Packet>, got: seq<byte>)
    requires AllSendable(ps) && got <= Stream(Advanced, ps)
    requires lead == [] || lead == [ADVANCED_FLAG]
    ensures LongFrames(lead + got)
    decreases |ps|
  {
    hide AdvancedFrame, LongFrames;
    if |got| == 0 {
      assert lead + got == lead;
      LeadLong(lead);
    } else {
      var f, rest := AdvancedFrame(ps[0]), Stream(Advanced, ps[1..]);
      FrameStarts(Advanced, ps[0]);
      assert got[0] == f[0] by { assert got[0] == Stream(Advanced, ps)[0]; }
      if |got| < |f| {
        assert got == f[..|got|] by { assert Stream(Advanced, ps)[..|f|] == f; }
        PartLong(ps[0], got);
      } else {
        var more := got[|f|..];
        assert got == f + more by { assert Stream(Advanced, ps)[..|f|] == f; }
        assert more <= rest by { assert Stream(Advanced, ps)[|f|..] == rest; }
        StreamLong([ADVANCED_FLAG], ps[1..], more);
        FrameLong(ps[0], more);
      }
      LeadingLong(lead, got);
    }
  }

  lemma LeadLong(lead: seq<byte>)
    requires lead == [] || lead == [ADVANCED_FLAG]
    ensures LongFrames(lead)
  {
    forall p | 0 <= p < |lead| ensures AdvancedWaits(lead[p..]) {
      assert lead[p..] == [ADVANCED_FLAG];
    }
  }

  lemma LeadingLong(lead: seq<byte>, got: seq<byte>)
    requires lead == [] || lead == [ADVANCED_FLAG]
    requires |got| > 0 && got[0] == ADVANCED_FLAG && LongFrames(got)
    ensures LongFrames(lead + got)
  {
    hide AdvancedWaits, Segment;
    if lead == [] {
      assert lead + got == got;
    } else {
      forall p | 0 <= p < |lead + got| && !AdvancedSkips((lead + got)[p..]) && !AdvancedWaits((lead + got)[p..])
        ensures |Segment((lead + got)[p..])| >= 3
      {
        assert p > 0 ==> (lead + got)[p..] == got[p - 1..];
      }
    }
  }

  /** The front of a frame holds no second flag. */
  lemma {:induction false} PartLong(p: Packet, got: seq<byte>)
    requires Sendable(p) && 0 < |got| < |AdvancedFrame(p)| && got == AdvancedFrame(p)[..|got|]
    ensures LongFrames(got)
  {
    AdvancedFrameShape(p);
    hide AdvancedFrame, Segment;
    forall q | 0 <= q < |got| ensures AdvancedWaits(got[q..]) || AdvancedSkips(got[q..]) {
      forall k | 1 <= k < |got| ensures got[k] != ADVANCED_FLAG {
        assert got[k] == AdvancedFrame(p)[k];
      }
      assert got[0..] == got;
      NoFlag(got[q..], 1);
    }
  }

  lemma {:induction false} NoFlag(s: seq<byte>, i: nat)
    requires i <= |s| && forall k :: i <= k < |s| ==> s[k] != ADVANCED_FLAG
    ensures FlagFrom(s, i) == |s|
    decreases |s| - i
  {
    if i < |s| {
      NoFlag(s, i + 1);
    }
  }

  lemma {:induction false} FrameLong(p: Packet, more: seq<byte>)
    requires Sendable(p) && LongFrames([ADVANCED_FLAG] + more)
    ensures LongFrames(AdvancedFrame(p) + more)
  {
    AdvancedFrameShape(p);
    AdvancedParts(p, more);
    BodySize(p);
    var f, s := AdvancedFrame(p), AdvancedFrame(p) + more;
    hide AdvancedFrame, AdvancedWaits, Segment, AdvancedBody;
    forall q | 0 < q < |f| - 1 ensures AdvancedSkips(s[q..]) {
      assert s[q..][0] == s[q] == f[q];
    }
    forall q | 0 <= q < |s| && !AdvancedSkips(s[q..]) && !AdvancedWaits(s[q..]) ensures |Segment(s[q..])| >= 3 {
      if q == 0 {
        assert s[0..] == s;
      } else if q >= |f| - 1 {
        assert s[q..] == ([ADVANCED_FLAG] + more)[q - (|f| - 1)..];
      }
    }
  }

  lemma BodySize(p: Packet)
    requires Sendable(p)
    ensures |AdvancedBody(p)| >= 3
  {
  }

  // ---- The receive buffer ----

  const MUX_BUFFER_SIZE: nat := 4096

  /** Every read fits behind what was kept; a full buffer ends the reading for good. */
  ghost predicate Roomy(mode: Mode, rest: seq<byte>, chunks: seq<seq<byte>>, before: byte)
    decreases |chunks|
  {
    |chunks| > 0 ==>
      && |rest| < MUX_BUFFER_SIZE && |rest| + |chunks[0]| <= MUX_BUFFER_SIZE
      && Roomy(mode, FeedBuffer(mode, rest + chunks[0], before).found.rest, chunks[1..], before)
  }

  lemma {:induction false} StreamAppend(mode: Mode, a: seq<Packet>, b: seq<Packet>)
    requires AllSendable(a) && AllSendable(b)
    ensures Stream(mode, a + b) == Stream(mode, a) + Stream(mode, b)
    decreases |a|
  {
    hide Frame;
    if |a| == 0 {
      assert a + b == b;
    } else {
      assert (a + b)[1..] == a[1..] + b;
      StreamAppend(mode, a[1..], b);
    }
  }

  /** Part of a frame is kept as it is. */
  lemma {:induction false} PartWaits(mode: Mode, p: Packet, part: seq<byte>)
    requires Sendable(p) && 0 < |part| < |Frame(mode, p)| && part <= Frame(mode, p)
    ensures part[0] == Flag(mode) && Demux(mode, part) == Demuxed([], part)
  {
    FrameStarts(mode, p);
    if mode.Basic? {
      BasicPartWaits(p, part);
    } else {
      assert part == AdvancedFrame(p)[..|part|];
      AdvancedFrameShape(p);
      hide AdvancedFrame;
      forall k | 1 <= k < |part| ensures part[k] != ADVANCED_FLAG {
        assert part[k] == AdvancedFrame(p)[k];
      }
      NoFlag(part, 1);
    }
  }

  lemma {:induction false} BasicPartWaits(p: Packet, part: seq<byte>)
    requires Sendable(p) && 0 < |part| < |BasicFrame(p)| && part <= BasicFrame(p)
    ensures BasicDemux(part) == Demuxed([], part)
  {
    var f, h, n := BasicFrame(p), BasicHeader(p), |p.data|;
    BasicParts(p, []);
    AddressIs(p);
    assert f + [] == f;
    hide Fcs;
    assert forall k :: 0 <= k < |part| ==> part[k] == f[k];
    assert !BasicSkips(part) && BasicWaits(part);
    hide *;
    BasicWaiting(part);
  }

  lemma {:induction false} BasicWaiting(s: seq<byte>)
    requires |s| > 0 && !BasicSkips(s) && BasicWaits(s)
    ensures BasicDemux(s) == Demuxed([], s)
  {
    hide BasicSkips, BasicWaits;
  }

  /** After whole frames and part of another, the packets are found and the part is kept. */
  lemma {:induction false} PartKept(mode: Mode, lead: seq<byte>, ps: seq<Packet>, p: Packet, part: seq<byte>)
    requires AllSendable(ps) && Sendable(p) && 0 < |part| < |Frame(mode, p)| && part <= Frame(mode, p)
    requires lead == [] || lead == [Flag(mode)]
    ensures Demux(mode, lead + (Stream(mode, ps) + part)) == Demuxed(AllReceived(ps), part)
    decreases |ps|
  {
    hide Demux, Frame;
    PartWaits(mode, p, part);
    if |ps| == 0 {
      assert Stream(mode, ps) + part == part;
      LeadingFlag(mode, part);
      assert lead == [] ==> lead + part == part;
    } else {
      var f, later := Frame(mode, ps[0]), Stream(mode, ps[1..]) + part;
      PartKept(mode, [Flag(mode)], ps[1..], p, part);
      FrameFound(mode, ps[0], later);
      FrameStarts(mode, ps[0]);
      assert Stream(mode, ps) + part == f + later;
      LeadingFlag(mode, f + later);
      assert AllReceived(ps) == [Received(ps[0])] + AllReceived(ps[1..]);
      assert lead == [] ==> lead + (f + later) == f + later;
    }
  }

  /** Where frame j lies in the stream. */
  lemma {:induction false} StreamAt(mode: Mode, ps: seq<Packet>, j: nat)
    requires AllSendable(ps) && j < |ps|
    ensures Stream(mode, ps) == Stream(mode, ps[..j]) + (Frame(mode, ps[j]) + Stream(mode, ps[j + 1..]))
  {
    hide Frame;
    assert ps == ps[..j] + ps[j..];
    StreamAppend(mode, ps[..j], ps[j..]);
    assert ps[j..][1..] == ps[j + 1..];
  }

  function EndOf(mode: Mode, ps: seq<Packet>, j: nat): nat
    requires j < |ps| && forall i :: 0 <= i < |ps| ==> Sendable(ps[i])
  {
    |Stream(mode, ps[..j])| + |Frame(mode, ps[j])|
  }

  /** With frame j begun and not finished, the packets before it are found and it is kept. */
  lemma {:induction false} InsideFrame(mode: Mode, ps: seq<Packet>, j: nat, got: seq<byte>)
    requires AllSendable(ps) && j < |ps| && got <= Stream(mode, ps)
    requires |Stream(mode, ps[..j])| < |got| < EndOf(mode, ps, j)
    ensures Demux(mode, got) == Demuxed(AllReceived(ps[..j]), got[|Stream(mode, ps[..j])|..])
  {
    hide Demux, Frame, Stream;
    var a := Stream(mode, ps[..j]);
    var part := got[|a|..];
    StreamAt(mode, ps, j);
    assert got == a + part by { assert Stream(mode, ps)[..|a|] == a; }
    assert part <= Frame(mode, ps[j]) by {
      assert Stream(mode, ps)[|a|..][..|Frame(mode, ps[j])|] == Frame(mode, ps[j]);
    }
    PartKept(mode, [], ps[..j], ps[j], part);
    assert [] + (a + part) == got;
  }

  /** One read cannot reach the end of a frame larger than the buffer. */
  lemma {:induction false} ReadStopsShort(mode: Mode, ps: seq<Packet>, j: nat, got: seq<byte>, chunk: seq<byte>)
    requires AllSendable(ps) && j < |ps| && |Frame(mode, ps[j])| > MUX_BUFFER_SIZE
    requires got <= Stream(mode, ps) && |got| < EndOf(mode, ps, j)
    requires |Demux(mode, got).rest| + |chunk| <= MUX_BUFFER_SIZE
    ensures |got| + |chunk| < EndOf(mode, ps, j)
  {
    hide Demux, Frame, Stream;
    if |got| > |Stream(mode, ps[..j])| {
      InsideFrame(mode, ps, j, got);
    }
  }

  /** One read of part of a stream. */
  lemma {:induction false} ReadOn(mode: Mode, ps: seq<Packet>, got: seq<byte>, chunk: seq<byte>, before: byte)
    requires AllSendable(ps) && got + chunk <= Stream(mode, ps)
    ensures got <= Stream(mode, ps)
    ensures FeedBuffer(mode, Demux(mode, got).rest + chunk, before)
            == Feeding(Demux(mode, Demux(mode, got).rest + chunk), true)
    ensures Demux(mode, got + chunk) == Then(Demux(mode, got), Demux(mode, Demux(mode, got).rest + chunk))
  {
    hide Demux, Stream, LongFrames, FeedBuffer;
    var rest := Demux(mode, got).rest;
    ReadBoundaryIrrelevant(mode, got, chunk);
    RestIsTail(mode, got);
    assert rest + chunk == (got + chunk)[|got| - |rest|..];
    if mode.Advanced? {
      StreamLong([], ps, got + chunk);
      assert [] + (got + chunk) == got + chunk;
      LongFramesTail(got + chunk, |got| - |rest|);
    }
    LongFramesFed(mode, rest + chunk, before);
  }

  lemma Regroup(a: seq<byte>, b: seq<byte>, c: seq<byte>)
    ensures a + (b + c) == (a + b) + c && a + b <= a + (b + c)
  {
  }

  lemma {:induction false} ChunkSplit(got: seq<byte>, chunks: seq<seq<byte>>)
    requires |chunks| > 0
    ensures got + HdlcCodec.Flatten(chunks) == (got + chunks[0]) + HdlcCodec.Flatten(chunks[1..])
    ensures got + chunks[0] <= got + HdlcCodec.Flatten(chunks)
  {
    var first, later := chunks[0], HdlcCodec.Flatten(chunks[1..]);
    assert HdlcCodec.Flatten(chunks) == first + later;
    hide HdlcCodec.Flatten;
    Regroup(got, first, later);
  }

  /** A frame larger than the receive buffer never arrives: no run of reads gets to its
      end, and only the packets before it are handed out. */
  lemma {:induction false} BigFrameStops(mode: Mode, ps: seq<Packet>, j: nat, got: seq<byte>, chunks: seq<seq<byte>>, before: byte)
    requires AllSendable(ps) && j < |ps| && |Frame(mode, ps[j])| > MUX_BUFFER_SIZE
    requires got + HdlcCodec.Flatten(chunks) <= Stream(mode, ps) && |got| < EndOf(mode, ps, j)
    requires Roomy(mode, Demux(mode, got).rest, chunks, before)
    ensures |got| + |HdlcCodec.Flatten(chunks)| < EndOf(mode, ps, j)
    decreases |chunks|
  {
    hide Demux, Frame, Stream, FeedBuffer, EndOf, HdlcCodec.Flatten;
    if |chunks| == 0 {
      FlattenNothing(chunks);
    } else {
      ChunkSplit(got, chunks);
      ReadOn(mode, ps, got, chunks[0], before);
      ReadStopsShort(mode, ps, j, got, chunks[0]);
      BigFrameStops(mode, ps, j, got + chunks[0], chunks[1..], before);
    }
  }

  lemma {:induction false} FlattenNothing(chunks: seq<seq<byte>>)
    requires |chunks| == 0
    ensures HdlcCodec.Flatten(chunks) == []
  {
  }

  /** A peer's stream is always handed out whole, as far as it has arrived. */
  lemma {:induction false} PeerFed(mode: Mode, ps: seq<Packet>, chunks: seq<seq<byte>>, before: byte)
    requires AllSendable(ps) && HdlcCodec.Flatten(chunks) <= Stream(mode, ps)
    ensures FeedReads(mode, [], chunks, before) == Feeding(Demux(mode, HdlcCodec.Flatten(chunks)), true)
  {
    hide FeedReads, Stream, HdlcCodec.Flatten, LongFrames, Clean, AdvancedDemux, BasicDemux;
    var got := HdlcCodec.Flatten(chunks);
    assert [] + got == got;
    if mode.Basic? {
      BasicReadBoundariesIrrelevant(chunks, before);
    } else {
      StreamLong([], ps, got);
      LongFramesClean(got);
      ReadBoundariesIrrelevantIff(got);
    }
  }

  /** As long as every frame fits the buffer, reading goes on. */
  lemma {:induction false} ReadingGoesOn(mode: Mode, ps: seq<Packet>, chunks: seq<seq<byte>>, before: byte)
    requires FramesWithin(mode, ps, MUX_BUFFER_SIZE) && HdlcCodec.Flatten(chunks) <= Stream(mode, ps)
    ensures |FeedReads(mode, [], chunks, before).found.rest| < MUX_BUFFER_SIZE
  {
    hide FeedReads, Stream, HdlcCodec.Flatten, Frame, Demux;
    PeerFed(mode, ps, chunks, before);
    KeptIsShort(mode, [], ps, HdlcCodec.Flatten(chunks), MUX_BUFFER_SIZE);
    assert [] + HdlcCodec.Flatten(chunks) == HdlcCodec.Flatten(chunks);
  }

  /** With a frame that does not fit, only the packets before it are ever handed out. */
  lemma {:induction false} BigFrameDelivers(mode: Mode, ps: seq<Packet>, j: nat, chunks: seq<seq<byte>>, before: byte)
    requires AllSendable(ps) && j < |ps| && |Frame(mode, ps[j])| > MUX_BUFFER_SIZE
    requires HdlcCodec.Flatten(chunks) <= Stream(mode, ps) && Roomy(mode, [], chunks, before)
    ensures FeedReads(mode, [], chunks, before).found.packets <= AllReceived(ps[..j])
    ensures HdlcCodec.Flatten(chunks) < Stream(mode, ps)
  {
    hide FeedReads, Stream, HdlcCodec.Flatten, Frame, Demux, Roomy, AllReceived;
    var got := HdlcCodec.Flatten(chunks);
    PeerFed(mode, ps, chunks, before);
    NothingFound(mode);
    assert [] + got == got;
    BigFrameStops(mode, ps, j, [], chunks, before);
    StreamAt(mode, ps, j);
    var a := Stream(mode, ps[..j]);
    if |got| > |a| {
      InsideFrame(mode, ps, j, got);
    } else {
      assert got <= a by { assert Stream(mode, ps)[..|a|] == a; }
      StreamThroughReads(mode, ps[..j], chunks);
      ReadsJoin(mode, [], chunks);
    }
  }

  /** One byte at a time. */
  function Singles(s: seq<byte>): (chunks: seq<seq<byte>>)
    ensures |chunks| == |s| && HdlcCodec.Flatten(chunks) == s
  {
    if |s| == 0 then [] else [s[..1]] + Singles(s[1..])
  }

  lemma {:induction false} SinglesFit(mode: Mode, ps: seq<Packet>, got: seq<byte>, left: seq<byte>, before: byte)
    requires FramesWithin(mode, ps, MUX_BUFFER_SIZE) && got + left <= Stream(mode, ps)
    ensures Roomy(mode, Demux(mode, got).rest, Singles(left), before)
    decreases |left|
  {
    hide Demux, Frame, Stream, FeedBuffer, HdlcCodec.Flatten;
    if |left| > 0 {
      var one := left[..1];
      assert left == one + left[1..];
      Regroup(got, one, left[1..]);
      ReadOn(mode, ps, got, one, before);
      KeptIsShort(mode, [], ps, got, MUX_BUFFER_SIZE);
      assert [] + got == got;
      SinglesFit(mode, ps, got + one, left[1..], before);
      assert Singles(left)[1..] == Singles(left[1..]);
    }
  }

  /** Some run of reads brings the whole stream if and only if no frame is larger than the
      receive buffer. */
  lemma {:induction false} StreamArrivesIff(mode: Mode, ps: seq<Packet>, before: byte)
    requires AllSendable(ps)
    ensures (exists chunks :: Roomy(mode, [], chunks, before) && HdlcCodec.Flatten(chunks) == Stream(mode, ps))
            <==> FramesWithin(mode, ps, MUX_BUFFER_SIZE)
  {
    hide Demux, Frame, Stream, FeedBuffer, HdlcCodec.Flatten, Roomy;
    if FramesWithin(mode, ps, MUX_BUFFER_SIZE) {
      var s := Stream(mode, ps);
      assert [] + s == s;
      NothingFound(mode);
      SinglesFit(mode, ps, [], s, before);
      assert HdlcCodec.Flatten(Singles(s)) == s;
    } else {
      var j :| 0 <= j < |ps| && |Frame(mode, ps[j])| > MUX_BUFFER_SIZE;
      forall chunks: seq<seq<byte>> | HdlcCodec.Flatten(chunks) == Stream(mode, ps)
        ensures !Roomy(mode, [], chunks, before)
      {
        if Roomy(mode, [], chunks, before) {
          BigFrameDelivers(mode, ps, j, chunks, before);
        }
      }
    }
  }

  /** How much data a frame may carry to fit: exactly 4089 bytes in basic mode; in advanced
      mode 2044 in any case. */
  lemma FitsBufferIff(p: Packet)
    requires Sendable(p)
    ensures |Frame(Basic, p)| <= MUX_BUFFER_SIZE <==> |p.data| <= 4089
    ensures |p.data| <= 2044 ==> |Frame(Advanced, p)| <= MUX_BUFFER_SIZE
  {
    hide Fcs;
    AdvancedFrameShape(p);
  }

  // ---- Channels ----

  /** End to end, in both formats: however writes to the channels and control packets are
      interleaved and cut into frames, and however the bytes arrive, every channel of the
      peer gets a prefix of what was written to it, and all of it once everything has
      arrived; nothing goes to any other channel. */
  lemma {:induction false} ChannelsPreserved(mode: Mode, size: nat, ops: seq<Op>, chunks: seq<seq<byte>>, before: byte, dlc: byte)
    requires 0 < size <= MAX_INFO && forall i :: 0 <= i < |ops| ==> Legal(ops[i])
    requires HdlcCodec.Flatten(chunks) <= Stream(mode, AllPackets(size, ops))
    ensures var r := FeedReads(mode, [], chunks, before);
      && r.sound && Fed(r.found.packets, dlc) <= Written(ops, dlc)
      && (HdlcCodec.Flatten(chunks) == Stream(mode, AllPackets(size, ops)) ==> Fed(r.found.packets, dlc) == Written(ops, dlc))
  {
    hide AllPackets, Fed, FeedReads, DemuxReads, Stream, Written, HdlcCodec.Flatten, AllReceived, Legal;
    var ps := AllPackets(size, ops);
    AllPacketsFed(size, ops, dlc);
    PeerFed(mode, ps, chunks, before);
    ReadsAre(mode, [], chunks, before);
    StreamThroughReads(mode, ps, chunks);
    FedPrefix(DemuxReads(mode, [], chunks).packets, AllReceived(ps), dlc);
  }
}
