/** Filling and extracting multiplexer frames in byte arrays. */
module MuxFrames {
  import opened Bytes
  import HdlcCodec
  import opened MuxCrc
  import opened Gsm0710
  import opened MuxReads

  // ---- Filling ----

  /** Appends bytes behind the first `size` of an array. */
  method Append(frame: array<byte>, size: nat, bytes: seq<byte>) returns (n: nat)
    requires size + |bytes| <= frame.Length
    modifies frame
    ensures n == size + |bytes| && frame[..n] == old(frame[..size]) + bytes
  {
    forall i | 0 <= i < |bytes| {
      frame[size + i] := bytes[i];
    }
    n := size + |bytes|;
    assert frame[..size] == old(frame[..size]);
    assert frame[size..n] == bytes;
  }

  method BasicFill(frame: array<byte>, dlc: byte, control: byte, data: seq<byte>) returns (size: nat)
    requires Sendable(Packet(dlc, control, data)) && frame.Length >= |data| + 7
    modifies frame
    ensures size <= frame.Length && frame[..size] == BasicFrame(Packet(dlc, control, data))
  {
    hide Fcs;
    ghost var p := Packet(dlc, control, data);
    frame[0], frame[1], frame[2] := BASIC_FLAG, Address(dlc), control;
    size := 4;
    if |data| <= 127 {
      frame[3] := |data| * 2 + 1;
    } else {
      frame[3] := (|data| * 2) % 256;
      frame[4] := |data| / 128;
      size := 5;
    }
    assert frame[..size] == [BASIC_FLAG] + BasicHeader(p);
    var fcs := Fcs(frame[1..size]);
    assert frame[1..size] == BasicHeader(p);
    size := Append(frame, size, data);
    size := Append(frame, size, [fcs]);
    size := Append(frame, size, [BASIC_FLAG]);
  }

  /** Appends one byte, quoted if need be. */
  method AppendQuoted(frame: array<byte>, size: nat, c: byte) returns (n: nat)
    requires size + 2 <= frame.Length
    modifies frame
    ensures n <= size + 2 && n == size + |QuoteByte(c)| && frame[..n] == old(frame[..size]) + QuoteByte(c)
  {
    if c != ADVANCED_FLAG && c != QUOTE {
      n := Append(frame, size, [c]);
    } else {
      n := Append(frame, size, [QUOTE, HdlcCodec.Toggle(c)]);
    }
  }

  lemma {:induction false} QuoteAppend(a: seq<byte>, b: seq<byte>)
    ensures QuoteAll(a + b) == QuoteAll(a) + QuoteAll(b)
    decreases |a|
  {
    hide QuoteByte;
    if |a| == 0 {
      assert a + b == b;
    } else {
      assert (a + b)[1..] == a[1..] + b;
      QuoteAppend(a[1..], b);
    }
  }

  lemma {:induction false} QuoteSnoc(a: seq<byte>, c: byte)
    ensures QuoteAll(a + [c]) == QuoteAll(a) + QuoteByte(c)
  {
    QuoteAppend(a, [c]);
    assert [c][1..] == [];
  }

  method AdvancedFill(frame: array<byte>, dlc: byte, control: byte, data: seq<byte>) returns (size: nat)
    requires Sendable(Packet(dlc, control, data)) && frame.Length >= 2 * |data| + 7
    modifies frame
    ensures size <= frame.Length && frame[..size] == AdvancedFrame(Packet(dlc, control, data))
  {
    hide Fcs, QuoteByte, QuoteAll;
    var head := [Address(dlc), control];
    var crc := Fcs(head);
    HeadQuoted(dlc, control);
    size := Append(frame, 0, [ADVANCED_FLAG, Address(dlc)]);
    size := AppendQuoted(frame, size, control);
    ghost var body := head;
    var i := 0;
    while i < |data|
      invariant i <= |data| && size <= 4 + 2 * i && body == head + data[..i]
      invariant frame[..size] == [ADVANCED_FLAG] + QuoteAll(body)
    {
      QuoteSnoc(body, data[i]);
      size := AppendQuoted(frame, size, data[i]);
      body := body + [data[i]];
      i := i + 1;
    }
    assert body + [crc] == AdvancedBody(Packet(dlc, control, data));
    QuoteSnoc(body, crc);
    size := AppendQuoted(frame, size, crc);
    size := Append(frame, size, [ADVANCED_FLAG]);
  }

  lemma HeadQuoted(dlc: byte, control: byte)
    requires dlc <= 63
    ensures QuoteAll([Address(dlc), control]) == [Address(dlc)] + QuoteByte(control)
  {
    QuoteSnoc([Address(dlc)], control);
    QuoteSnoc([], Address(dlc));
    assert [] + [Address(dlc)] == [Address(dlc)];
    assert [Address(dlc)] + [control] == [Address(dlc), control];
  }

  // ---- Extracting ----

  /** What an extraction found: a packet and where the next one may start, or nothing and
      where to go on when more bytes are there. */
  ghost predicate Extracted(mode: Mode, s: seq<byte>, nread: nat, found: bool, p: Packet) {
    && nread <= |s|
    && (found ==> nread > 0 && Demux(mode, s) == Prepend(p, Demux(mode, s[nread..])))
    && (!found ==> Demux(mode, s) == Demuxed([], s[nread..]))
  }

  lemma BasicGoesOn(s: seq<byte>, posn: nat)
    requires posn < |s|
    ensures BasicSkips(s[posn..]) ==> BasicDemux(s[posn..]) == BasicDemux(s[posn + 1..])
    ensures !BasicSkips(s[posn..]) && BasicWaits(s[posn..]) ==> BasicDemux(s[posn..]) == Demuxed([], s[posn..])
    ensures !BasicSkips(s[posn..]) && !BasicWaits(s[posn..]) ==>
      var t := s[posn..]; var n := BasicSize(t);
      && n < |t| && t[n..] == s[posn + n..]
      && BasicDemux(t) == if BasicGood(t) then Prepend(BasicPacket(t), BasicDemux(s[posn + n..])) else BasicDemux(s[posn + n..])
  {
    hide CheckFcs;
    assert s[posn..][1..] == s[posn + 1..];
    if !BasicSkips(s[posn..]) && !BasicWaits(s[posn..]) {
      var n := BasicSize(s[posn..]);
      assert s[posn..][n..] == s[posn + n..];
    }
  }

  /** What the bytes at a flag turn out to be. */
  datatype Attempt = Unfinished | Bad(next: nat) | Good(next: nat, dlc: byte, control: byte, start: nat, n: nat)

  ghost predicate AttemptOk(mode: Mode, s: seq<byte>, posn: nat, a: Attempt, data: seq<byte>) {
    && posn < |s|
    && match a {
       case Unfinished => Demux(mode, s[posn..]) == Demuxed([], s[posn..])
       case Bad(next) => posn < next <= |s| && Demux(mode, s[posn..]) == Demux(mode, s[next..])
       case Good(next, dlc, control, start, n) => posn < next <= |s| &&
         Demux(mode, s[posn..]) == Prepend(Packet(dlc, control, data), Demux(mode, s[next..]))
    }
  }

  /** A flag that is not followed by another: the frame it opens, if it is one. */
  method BasicTry(buf: seq<byte>, posn: nat) returns (a: Attempt)
    requires posn < |buf| && buf[posn] == BASIC_FLAG && (posn + 1 < |buf| ==> buf[posn + 1] != BASIC_FLAG)
    ensures a.Good? ==> a.start + a.n <= |buf|
    ensures AttemptOk(Basic, buf, posn, a, if a.Good? then buf[a.start..a.start + a.n] else [])
  {
    hide CheckFcs, BasicDemux;
    var len := |buf|;
    ghost var t := buf[posn..];
    BasicGoesOn(buf, posn);
    if posn + 4 > len {
      return Unfinished;
    }
    if buf[posn + 1] % 2 == 0 {
      return Bad(posn + 1);
    }
    var framelen, headerSize := buf[posn + 3] / 2, 3;
    if buf[posn + 3] % 2 == 0 {
      if posn + 5 > len {
        return Unfinished;
      }
      framelen, headerSize := framelen + buf[posn + 4] as int * 128, 4;
    }
    if posn + headerSize + 3 + framelen > len {
      return Unfinished;
    }
    assert headerSize == HeaderSize(t) && framelen == InfoLen(t);
    a := BasicCheck(buf, posn, headerSize, framelen);
  }

  lemma SliceOfTail(s: seq<byte>, i: nat, k: nat, l: nat)
    requires k <= l && i + l <= |s|
    ensures s[i..][k..l] == s[i + k..i + l]
  {
    assert s[i..] == s[i..|s|];
    SliceOfSlice(s, i, |s|, k, l);
  }

  method BasicCheck(buf: seq<byte>, posn: nat, headerSize: nat, framelen: nat) returns (a: Attempt)
    requires posn < |buf| && !BasicSkips(buf[posn..]) && !BasicWaits(buf[posn..])
    requires headerSize == HeaderSize(buf[posn..]) && framelen == InfoLen(buf[posn..])
    ensures !a.Unfinished?
    ensures a.Good? ==> a.start + a.n <= |buf|
    ensures AttemptOk(Basic, buf, posn, a, if a.Good? then buf[a.start..a.start + a.n] else [])
  {
    hide CheckFcs, BasicDemux, BasicSkips, BasicWaits;
    BasicGoesOn(buf, posn);
    ghost var t := buf[posn..];
    var header, next := buf[posn + 1..posn + 1 + headerSize], posn + headerSize + framelen + 2;
    SliceOfTail(buf, posn, 1, 1 + headerSize);
    var fcs := buf[posn + 1 + headerSize + framelen];
    if !CheckFcs(header, fcs) {
      return Bad(next);
    }
    if buf[next] != BASIC_FLAG {
      return Bad(next);
    }
    var start := posn + 1 + headerSize;
    SliceOfTail(buf, posn, 1 + headerSize, 1 + headerSize + framelen);
    return Good(next, buf[posn + 1] / 4, StripPf(buf[posn + 2]), start, framelen);
  }

  /** Searches a buffer for a frame. */
  method BasicExtract(buf: seq<byte>) returns (nread: nat, found: bool, dlc: byte, control: byte, start: nat, n: nat)
    ensures found ==> start + n <= |buf|
    ensures Extracted(Basic, buf, nread, found, if found then Packet(dlc, control, buf[start..start + n]) else Packet(0, 0, []))
  {
    hide CheckFcs, BasicDemux, BasicWaits, BasicSkips, AttemptOk, Extracted;
    var posn, len := 0, |buf|;
    assert buf[0..] == buf;
    while posn < len
      invariant posn <= len && BasicDemux(buf) == BasicDemux(buf[posn..])
    {
      if buf[posn] != BASIC_FLAG {
        BasicSkipped(buf, posn);
        posn := posn + 1;
        continue;
      }
      while posn + 1 < len && buf[posn + 1] == BASIC_FLAG
        invariant posn < len && buf[posn] == BASIC_FLAG && BasicDemux(buf) == BasicDemux(buf[posn..])
      {
        BasicSkipped(buf, posn);
        posn := posn + 1;
      }
      var a := BasicTry(buf, posn);
      BasicOutcome(buf, posn, a, if a.Good? then buf[a.start..a.start + a.n] else []);
      match a {
        case Unfinished => return posn, false, 0, 0, 0, 0;
        case Bad(next) => posn := next;
        case Good(next, d, c, at, size) => return next, true, d, c, at, size;
      }
    }
    NothingLeft(buf[posn..]);
    BasicNothing(buf, posn);
    return posn, false, 0, 0, 0, 0;
  }

  lemma BasicSkipped(s: seq<byte>, posn: nat)
    requires posn < |s| && (s[posn] != BASIC_FLAG || (posn + 1 < |s| && s[posn + 1] == BASIC_FLAG))
    ensures BasicDemux(s[posn..]) == BasicDemux(s[posn + 1..])
  {
    hide BasicDemux;
    BasicGoesOn(s, posn);
  }

  lemma {:induction false} BasicOutcome(s: seq<byte>, posn: nat, a: Attempt, data: seq<byte>)
    requires AttemptOk(Basic, s, posn, a, data) && BasicDemux(s) == BasicDemux(s[posn..])
    ensures a.Unfinished? ==> posn <= |s| && Extracted(Basic, s, posn, false, Packet(0, 0, []))
    ensures a.Bad? ==> posn < a.next <= |s| && BasicDemux(s) == BasicDemux(s[a.next..])
    ensures a.Good? ==> Extracted(Basic, s, a.next, true, Packet(a.dlc, a.control, data))
  {
    hide BasicDemux;
  }

  lemma {:induction false} BasicNothing(s: seq<byte>, posn: nat)
    requires posn == |s| && BasicDemux(s) == BasicDemux(s[posn..])
    ensures Extracted(Basic, s, posn, false, Packet(0, 0, []))
  {
  }

  lemma {:induction false} NothingLeft(s: seq<byte>)
    requires |s| == 0
    ensures BasicDemux(s) == AdvancedDemux(s) == Demuxed([], [])
  {
  }

  lemma UnquoteStep(s: seq<byte>, posn: nat, end: nat)
    requires posn < end <= |s|
    ensures s[posn] != QUOTE ==> Unquote(s[posn..end]) == [s[posn]] + Unquote(s[posn + 1..end])
    ensures s[posn] == QUOTE && posn + 1 == end ==> Unquote(s[posn..end]) == []
    ensures s[posn] == QUOTE && posn + 1 < end ==>
      Unquote(s[posn..end]) == [HdlcCodec.Toggle(s[posn + 1])] + Unquote(s[posn + 2..end])
  {
    var t := s[posn..end];
    assert t[1..] == s[posn + 1..end];
    if posn + 1 < end {
      assert t[2..] == s[posn + 2..end];
    }
  }

  /** Only the cells from lo up to hi may differ. */
  ghost predicate Untouched(b0: seq<byte>, b: seq<byte>, lo: nat, hi: nat) {
    |b| == |b0| && forall k :: 0 <= k < |b| && (k < lo || hi <= k) ==> b[k] == b0[k]
  }

  lemma UntouchedRead(b0: seq<byte>, b: seq<byte>, off: nat, posn: nat, len: nat)
    requires Untouched(b0, b, off, off + posn) && posn <= len && off + len <= |b0|
    ensures b[off + posn..off + len] == b0[off..off + len][posn..]
    ensures posn < len ==> b[off + posn] == b0[off..off + len][posn]
  {
  }

  lemma UntouchedAtAll(b: seq<byte>, lo: nat, hi: nat)
    ensures Untouched(b, b, lo, hi)
  {
  }

  /** Undoes the quoting of the bytes between two flags, moving them to the front of the
      buffer; what lies behind the second flag stays where it is. */
  method UnquoteInPlace(buf: array<byte>, off: nat, first: nat, end: nat, len: nat) returns (n: nat)
    requires 0 < first <= end <= len && off + len <= buf.Length
    modifies buf
    ensures n <= end - first && buf[off..off + n] == Unquote(old(buf[off..off + len])[first..end])
    ensures Untouched(old(buf[..]), buf[..], off, off + n)
  {
    hide Unquote;
    ghost var s, b0, target := buf[off..off + len], buf[..], Unquote(buf[off..off + len][first..end]);
    var posn, posn2 := first, 0;
    ghost var done: seq<byte> := [];
    while posn < end
      invariant first <= posn <= end && posn2 == |done| <= posn - first
      invariant buf[off..off + posn2] == done
      invariant Untouched(b0, buf[..], off, off + posn2)
      invariant done + Unquote(s[posn..end]) == target
    {
      UnquoteStep(s, posn, end);
      assert buf[off + posn] == s[posn];
      var x := buf[off + posn];
      if x == QUOTE {
        posn := posn + 1;
        if posn >= end {
          break;
        }
        assert buf[off + posn] == s[posn];
        x := HdlcCodec.Toggle(buf[off + posn]);
      }
      MovedOver(done, x, Unquote(s[posn + 1..end]));
      PutAt(buf, off, posn2, x);
      done := done + [x];
      posn, posn2 := posn + 1, posn2 + 1;
    }
    UnquoteNothing(s, end);
    n := posn2;
  }

  lemma MovedOver(done: seq<byte>, x: byte, rest: seq<byte>)
    ensures done + ([x] + rest) == done + [x] + rest
  {
  }

  method PutAt(buf: array<byte>, off: nat, n: nat, x: byte)
    requires off + n < buf.Length
    modifies buf
    ensures buf[off..off + n + 1] == old(buf[off..off + n]) + [x]
    ensures forall k :: 0 <= k < buf.Length && k != off + n ==> buf[k] == old(buf[k])
  {
    buf[off + n] := x;
  }

  lemma UnquoteNothing(s: seq<byte>, end: nat)
    requires end <= |s|
    ensures Unquote(s[end..end]) == []
  {
  }

  /** The first flag at or behind a position of a stretch of the buffer. */
  method FindFlag(buf: array<byte>, off: nat, from: nat, len: nat) returns (e: nat)
    requires from <= len && off + len <= buf.Length
    ensures from <= e <= len && (e < len ==> buf[off + e] == ADVANCED_FLAG)
    ensures forall k :: off + from <= k < off + e ==> buf[k] != ADVANCED_FLAG
  {
    e := from;
    while e < len && buf[off + e] != ADVANCED_FLAG
      invariant from <= e <= len
      invariant forall k :: off + from <= k < off + e ==> buf[k] != ADVANCED_FLAG
    {
      e := e + 1;
    }
  }

  /** Where the frame starting at a flag ends. */
  lemma EndIs(s: seq<byte>, posn: nat, e: nat)
    requires posn < e <= |s| && (e < |s| ==> s[e] == ADVANCED_FLAG)
    requires forall k :: posn < k < e ==> s[k] != ADVANCED_FLAG
    ensures e < |s| ==> !AdvancedWaits(s[posn..]) && AdvancedSize(s[posn..]) == e - posn
                        && Segment(s[posn..]) == Unquote(s[posn + 1..e])
    ensures e == |s| ==> AdvancedWaits(s[posn..])
  {
    hide Unquote;
    var t := s[posn..];
    forall k | 1 <= k < e - posn ensures t[k] != ADVANCED_FLAG {
      assert t[k] == s[posn + k];
    }
    if e < |s| {
      FlagFirst(t, 1, e - posn);
      assert t[1..e - posn] == s[posn + 1..e];
    } else {
      NoFlag(t, 1);
    }
  }

  /** The byte in front of a place in the receive buffer. */
  function ByteBefore(b: seq<byte>, off: nat, outside: byte): byte
    requires off <= |b|
  {
    if off > 0 then b[off - 1] else outside
  }

  /** The cells a check may read are those at the front of the bytes searched. */
  ghost predicate FrontRead(b: seq<byte>, off: nat, len: nat, before: byte, f: Front) {
    off + len <= |b| && f.before == before && (len >= 2 ==> f.first == b[off] && f.second == b[off + 1])
  }

  /** A search as the program reports it: where to go on, whether a frame was found, and its
      length, which may be negative. */
  function AsFound(nread: nat, found: bool, dlc: byte, control: byte, n: int, data: seq<byte>): Found {
    if !found then NoFrame(nread)
    else if n >= 0 then Whole(nread, Packet(dlc, control, data))
    else Short(nread, dlc, control, n)
  }

  /** What the bytes at a flag turn out to be: unfinished, passed over, or taken for a frame
      of n bytes once unquoted. */
  datatype Turn = Waits | Passed(next: nat) | Took(next: nat, n: nat)

  function UpTo(t: Turn): nat {
    if t.Waits? || t.next == 0 then 0 else t.next - 1
  }

  ghost predicate TurnOk(s: seq<byte>, posn: nat, f: Front, t: Turn, g: Front, b: seq<byte>, off: nat, before: byte) {
    && posn < |s| && FrontRead(b, off, |s|, before, g)
    && match t {
       case Waits => Extract(s, posn, f) == NoFrame(posn)
       case Passed(next) => posn < next <= |s| && Extract(s, posn, f) == Extract(s, next, g)
       case Took(next, n) => posn < next <= |s| && n <= next && 2 <= |s| && Extract(s, posn, f) ==
         AsFound(next, true, b[off] / 4, StripPf(b[off + 1]), n - 3, if n >= 3 then b[off + 2..off + n - 1] else [])
    }
  }

  /** A flag that is not followed by another: the frame it opens, unquoted in place. */
  method AdvancedTry(buf: array<byte>, off: nat, posn: nat, len: nat, before: byte, ghost s: seq<byte>, ghost f: Front)
    returns (t: Turn, ghost g: Front)
    requires posn < len == |s| && FrontRead(buf[..], off, len, before, f)
    requires s[posn] == ADVANCED_FLAG && (posn + 1 < len ==> s[posn + 1] != ADVANCED_FLAG)
    requires buf[off + posn..off + len] == s[posn..]
    modifies buf
    ensures TurnOk(s, posn, f, t, g, buf[..], off, before)
    ensures Untouched(old(buf[..]), buf[..], off, off + UpTo(t))
  {
    hide CheckFcs, Extract, Unquote, AdvancedWaits, AdvancedSize;
    var end := FindFlag(buf, off, posn + 1, len);
    SameFrom(buf[..], off, posn, len, s, end);
    EndIs(s, posn, end);
    ExtractTurn(s, posn, f);
    g := f;
    if end >= len {
      return Waits, g;
    }
    if end < 4 {
      return Passed(end), g;
    }
    t, g := AdvancedCheck(buf, off, posn, end, len, before, s, f);
  }

  /** One turn of the search. */
  lemma ExtractTurn(s: seq<byte>, i: nat, f: Front)
    requires i < |s|
    ensures AdvancedSkips(s[i..]) ==> Extract(s, i, f) == Extract(s, i + 1, f)
    ensures !AdvancedSkips(s[i..]) && AdvancedWaits(s[i..]) ==> Extract(s, i, f) == NoFrame(i)
    ensures !AdvancedSkips(s[i..]) && !AdvancedWaits(s[i..]) ==>
      var body, end := Segment(s[i..]), i + AdvancedSize(s[i..]);
      && i < end < |s| && |body| < end
      && Extract(s, i, f) == if end < 4 then Extract(s, end, f)
                             else if Taken(f, body) then Examined(f, body, end) else Extract(s, end, Overlaid(f, body))
  {
    hide Taken, Examined, Overlaid, Unquote;
  }

  method AdvancedCheck(buf: array<byte>, off: nat, posn: nat, end: nat, len: nat, before: byte, ghost s: seq<byte>, ghost f: Front)
    returns (t: Turn, ghost g: Front)
    requires posn < end < len == |s| && 4 <= end && FrontRead(buf[..], off, len, before, f)
    requires buf[off + posn..off + len] == s[posn..]
    requires !AdvancedSkips(s[posn..]) && !AdvancedWaits(s[posn..]) && AdvancedSize(s[posn..]) == end - posn
    requires Segment(s[posn..]) == Unquote(s[posn + 1..end])
    modifies buf
    ensures TurnOk(s, posn, f, t, g, buf[..], off, before)
    ensures Untouched(old(buf[..]), buf[..], off, off + UpTo(t))
  {
    hide CheckFcs, Unquote, AdvancedWaits, AdvancedSkips, AdvancedSize, Segment, Untouched, TurnOk, Taken, Overlaid;
    ghost var b0, body := buf[..], Segment(s[posn..]);
    SliceAgrees(buf[..], off, posn, end, len, s);
    var n := UnquoteInPlace(buf, off, posn + 1, end, len);
    UntouchedWider(b0, buf[..], off, off + n, off + end - 1);
    g := Overlaid(f, body);
    FrontMoved(b0, buf[..], off, len, before, f, body);
    Concluded(s, posn, f, body, end, buf[..], off, before);
    var last := if n > 0 then buf[off + n - 1] else before;
    t := if CheckFcs(buf[off..off + 2], last) then Took(end, n) else Passed(end);
  }

  /** Once the bytes are unquoted, the check decides what the flag turns out to be. */
  lemma Concluded(s: seq<byte>, posn: nat, f: Front, body: seq<byte>, end: nat, b: seq<byte>, off: nat, before: byte)
    requires posn < end < |s| && 4 <= end && |body| < end && FrontRead(b, off, |s|, before, Overlaid(f, body))
    requires !AdvancedSkips(s[posn..]) && !AdvancedWaits(s[posn..]) && AdvancedSize(s[posn..]) == end - posn
    requires Segment(s[posn..]) == body && b[off..off + |body|] == body
    ensures TurnOk(s, posn, f, if Taken(f, body) then Took(end, |body|) else Passed(end), Overlaid(f, body), b, off, before)
  {
    hide Extract, AdvancedWaits, AdvancedSkips, AdvancedSize, Segment, Taken, Examined, Overlaid, StripPf;
    ExtractTurn(s, posn, f);
    BodyRead(b, off, |s|, before, f, body, end);
  }

  lemma UntouchedWider(b0: seq<byte>, b: seq<byte>, lo: nat, hi: nat, hi': nat)
    requires Untouched(b0, b, lo, hi) && hi <= hi'
    ensures Untouched(b0, b, lo, hi')
  {
  }

  /** After the move the front holds the unquoted bytes, and the check is made on them. */
  lemma FrontMoved(b0: seq<byte>, b: seq<byte>, off: nat, len: nat, before: byte, f: Front, body: seq<byte>)
    requires FrontRead(b0, off, len, before, f) && 2 <= len && |body| <= len
    requires Untouched(b0, b, off, off + |body|) && b[off..off + |body|] == body
    ensures FrontRead(b, off, len, before, Overlaid(f, body))
    ensures Taken(f, body) == CheckFcs(b[off..off + 2], if |body| > 0 then b[off + |body| - 1] else before)
  {
    hide CheckFcs;
    forall k | 0 <= k < |body| ensures b[off + k] == body[k] {
      assert b[off..off + |body|][k] == b[off + k];
    }
    assert b[off..off + 2] == [b[off], b[off + 1]];
  }

  lemma BodyRead(b: seq<byte>, off: nat, len: nat, before: byte, f: Front, body: seq<byte>, next: nat)
    requires FrontRead(b, off, len, before, Overlaid(f, body)) && 2 <= len && |body| <= len
    requires b[off..off + |body|] == body
    ensures Examined(f, body, next) ==
      AsFound(next, true, b[off] / 4, StripPf(b[off + 1]), |body| - 3, if |body| >= 3 then b[off + 2..off + |body| - 1] else [])
  {
    hide StripPf;
    if |body| >= 3 {
      SliceOfSlice(b, off, off + |body|, 2, |body| - 1);
    }
  }

  lemma SliceAgrees(b: seq<byte>, off: nat, posn: nat, end: nat, len: nat, s: seq<byte>)
    requires posn < end < len == |s| && off + len <= |b| && b[off + posn..off + len] == s[posn..]
    ensures b[off..off + len][posn + 1..end] == s[posn + 1..end]
  {
    SliceOfSlice(b, off, off + len, posn + 1, end);
    SliceOfSlice(b, off + posn, off + len, 1, end - posn);
    SliceOfSlice(s, posn, len, 1, end - posn);
    assert s[posn..len] == s[posn..];
  }

  lemma SliceOfSlice(s: seq<byte>, i: nat, j: nat, k: nat, l: nat)
    requires k <= l && i + l <= j <= |s|
    ensures s[i..j][k..l] == s[i + k..i + l]
  {
    var t := s[i..j];
    forall m | 0 <= m < l - k ensures t[k..l][m] == s[i + k..i + l][m] {
      assert t[k..l][m] == t[k + m] == s[i + (k + m)];
    }
  }

  lemma SameFrom(b: seq<byte>, off: nat, posn: nat, len: nat, s: seq<byte>, end: nat)
    requires posn < end <= len == |s| && off + len <= |b| && b[off + posn..off + len] == s[posn..]
    ensures end < len ==> b[off + end] == s[end]
    ensures (forall k :: off + posn < k < off + end ==> b[k] != ADVANCED_FLAG) ==>
            forall k :: posn < k < end ==> s[k] != ADVANCED_FLAG
  {
    forall k | posn <= k < len ensures s[k] == b[off + k] {
      assert s[k] == s[posn..][k - posn] == b[off + posn..off + len][k - posn];
    }
  }

  lemma FlagSkipped(s: seq<byte>, i: nat, f: Front)
    requires i + 1 < |s| && s[i] == s[i + 1] == ADVANCED_FLAG
    ensures Extract(s, i, f) == Extract(s, i + 1, f)
  {
    hide Extract, AdvancedWaits, AdvancedSize, Segment, Taken, Examined, Overlaid;
    var r := s[i..];
    assert r[0] == s[i] && r[1] == s[i + 1];
    ExtractTurn(s, i, f);
  }

  /** Skips additional flags between frames. */
  method SkipFlags(buf: array<byte>, off: nat, posn0: nat, len: nat, ghost s: seq<byte>, ghost f: Front) returns (posn: nat)
    requires posn0 < len == |s| && off + len <= buf.Length && buf[off + posn0..off + len] == s[posn0..]
    requires s[posn0] == ADVANCED_FLAG
    ensures posn0 <= posn < len && s[posn] == ADVANCED_FLAG && (posn + 1 < len ==> s[posn + 1] != ADVANCED_FLAG)
    ensures Extract(s, posn0, f) == Extract(s, posn, f)
  {
    hide Extract, AdvancedWaits, AdvancedSize;
    posn := posn0;
    forall k | posn0 <= k < len ensures s[k] == buf[off + k] {
      assert s[k] == s[posn0..][k - posn0] == buf[off + posn0..off + len][k - posn0];
    }
    while posn + 1 < len && buf[off + (posn + 1)] == ADVANCED_FLAG
      invariant posn0 <= posn < len && s[posn] == ADVANCED_FLAG
      invariant Extract(s, posn0, f) == Extract(s, posn, f)
    {
      FlagSkipped(s, posn, f);
      posn := posn + 1;
    }
  }

  /** From a flag on: skips further flags and looks at the frame behind them. */
  method AdvancedAt(buf: array<byte>, off: nat, posn0: nat, len: nat, before: byte, ghost s: seq<byte>, ghost f: Front)
    returns (posn: nat, t: Turn, ghost g: Front)
    requires posn0 < len == |s| && FrontRead(buf[..], off, len, before, f)
    requires s[posn0] == ADVANCED_FLAG && buf[off + posn0..off + len] == s[posn0..]
    modifies buf
    ensures posn0 <= posn < len && Extract(s, posn0, f) == Extract(s, posn, f)
    ensures TurnOk(s, posn, f, t, g, buf[..], off, before)
    ensures Untouched(old(buf[..]), buf[..], off, off + UpTo(t))
  {
    hide Extract, TurnOk, Untouched;
    posn := SkipFlags(buf, off, posn0, len, s, f);
    assert buf[off + posn..off + len] == s[posn..] by {
      SliceOfSlice(buf[..], off + posn0, off + len, posn - posn0, len - posn0);
      SliceOfSlice(s, posn0, len, posn - posn0, len - posn0);
    }
    t, g := AdvancedTry(buf, off, posn, len, before, s, f);
  }

  /** Goes from flag to flag until a frame is taken or the bytes end. */
  method AdvancedSearch(buf: array<byte>, off: nat, len: nat, before: byte, ghost s: seq<byte>)
    returns (posn: nat, t: Turn)
    requires off + len <= buf.Length && s == buf[off..off + len]
    modifies buf
    ensures posn <= len && !t.Passed?
    ensures t.Waits? ==> Extract(s, 0, FrontOf(before, s)) == NoFrame(posn) && Untouched(old(buf[..]), buf[..], off, off + posn)
    ensures t.Took? ==> SearchTook(s, before, t, buf[..], off) && Untouched(old(buf[..]), buf[..], off, off + t.next - 1)
  {
    hide Extract, TurnOk, Untouched, FrontRead, AsFound, UpTo;
    ghost var b0, f := buf[..], FrontOf(before, s);
    UntouchedAtAll(b0, off, off);
    FrontStarts(b0, off, len, before);
    posn, t := 0, Waits;
    while posn < len
      invariant posn <= len && Extract(s, 0, FrontOf(before, s)) == Extract(s, posn, f)
      invariant FrontRead(buf[..], off, len, before, f)
      invariant Untouched(b0, buf[..], off, off + posn)
    {
      UntouchedRead(b0, buf[..], off, posn, len);
      if buf[off + posn] != ADVANCED_FLAG {
        NotAFlag(s, posn, f);
        UntouchedWider(b0, buf[..], off, off + posn, off + posn + 1);
        posn := posn + 1;
        continue;
      }
      ghost var b1, p0, g := buf[..], posn, f;
      posn, t, g := AdvancedAt(buf, off, posn, len, before, s, f);
      UntouchedWider(b0, b1, off, off + p0, off + posn);
      TurnTaken(s, posn, f, t, g, buf[..], off, before);
      UntouchedBoth(b0, b1, buf[..], off, posn, t);
      if !t.Passed? {
        return;
      }
      posn, f := t.next, g;
    }
    SearchEnds(s, f);
    t := Waits;
  }

  ghost predicate SearchTook(s: seq<byte>, before: byte, t: Turn, b: seq<byte>, off: nat) {
    && t.Took? && 0 < t.next <= |s| && t.n <= t.next && 2 <= |s| && off + |s| <= |b|
    && Extract(s, 0, FrontOf(before, s)) ==
       AsFound(t.next, true, b[off] / 4, StripPf(b[off + 1]), t.n - 3, if t.n >= 3 then b[off + 2..off + t.n - 1] else [])
  }

  lemma FrontStarts(b: seq<byte>, off: nat, len: nat, before: byte)
    requires off + len <= |b|
    ensures FrontRead(b, off, len, before, FrontOf(before, b[off..off + len]))
  {
  }

  /** Searches `len` bytes of the buffer for a frame and unquotes it in place: finds what the
      search on values finds, and leaves the bytes alone from the one before the place to go
      on. */
  method AdvancedExtract(buf: array<byte>, off: nat, len: nat, outside: byte)
    returns (nread: nat, found: bool, dlc: byte, control: byte, n: int)
    requires off + len <= buf.Length
    modifies buf
    ensures nread <= len && (found ==> nread > 0 && 2 <= len && n + 2 <= len)
    ensures var s := old(buf[off..off + len]);
      Extract(s, 0, FrontOf(ByteBefore(old(buf[..]), off, outside), s)) ==
      AsFound(nread, found, dlc, control, n, if found && n >= 0 then buf[off + 2..off + 2 + n] else [])
    ensures Untouched(old(buf[..]), buf[..], off, off + if found then nread - 1 else nread)
  {
    hide Extract, Untouched, FrontOf;
    var before := if off > 0 then buf[off - 1] else outside;
    var posn, t := AdvancedSearch(buf, off, len, before, buf[off..off + len]);
    if t.Waits? {
      return posn, false, 0, 0, 0;
    }
    return t.next, true, buf[off] / 4, StripPf(buf[off + 1]), t.n - 3;
  }

  lemma {:induction false} SearchEnds(s: seq<byte>, f: Front)
    ensures Extract(s, |s|, f) == NoFrame(|s|)
  {
  }

  lemma {:induction false} TurnTaken(s: seq<byte>, posn: nat, f: Front, t: Turn, g: Front, b: seq<byte>, off: nat, before: byte)
    requires TurnOk(s, posn, f, t, g, b, off, before)
    requires Extract(s, 0, FrontOf(before, s)) == Extract(s, posn, f)
    ensures posn < |s| && FrontRead(b, off, |s|, before, g) && (!t.Waits? ==> posn < t.next <= |s|)
    ensures t.Waits? ==> Extract(s, 0, FrontOf(before, s)) == NoFrame(posn)
    ensures t.Passed? ==> Extract(s, 0, FrontOf(before, s)) == Extract(s, t.next, g)
    ensures t.Took? ==> SearchTook(s, before, t, b, off)
  {
  }

  lemma UntouchedBoth(b0: seq<byte>, b1: seq<byte>, b2: seq<byte>, off: nat, posn: nat, t: Turn)
    requires Untouched(b0, b1, off, off + posn) && Untouched(b1, b2, off, off + UpTo(t))
    requires !t.Waits? ==> posn < t.next
    ensures Untouched(b0, b2, off, off + if t.Waits? then posn else t.next - 1)
    ensures t.Passed? ==> Untouched(b0, b2, off, off + t.next)
  {
  }

  lemma NotAFlag(s: seq<byte>, posn: nat, f: Front)
    requires posn < |s| && s[posn] != ADVANCED_FLAG
    ensures Extract(s, posn, f) == Extract(s, posn + 1, f)
  {
    hide Extract;
    ExtractTurn(s, posn, f);
  }
}
