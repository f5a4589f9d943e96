/** The HDLC framer: a queue of ring buffers filled in place by the sender, drained in
    partial writes, and an incremental decoder. */
module HdlcWriter {
  import opened Bytes
  import opened RingArithmetic
  import opened RingBuffers
  import opened CrcCcitt
  import opened HdlcCodec

  /** The write pointer stands on the cell for byte number `pos` of the frame being built. */
  ghost predicate At(rb: RingBuffer, buf: nat, pos: nat)
    requires rb.Valid()
    reads rb
  {
    pos <= rb.Avail() && buf == Wrap(rb.inp % rb.size + pos, rb.size)
  }

  lemma PendingSnoc(before: seq<byte>, cells: seq<byte>, start: nat, pos: nat, x: byte)
    requires |cells| == |before| && start < |cells| && pos < |cells|
    requires cells == before[Wrap(start + pos, |cells|) := x]
    ensures Ring(cells, start, pos + 1) == Ring(before, start, pos) + [x]
  {
    var r := Ring(cells, start, pos + 1);
    forall i | 0 <= i < pos ensures r[i] == Ring(before, start, pos)[i] {
      assert r[i] == cells[Wrap(start + i, |cells|)];
    }
    assert r[pos] == cells[Wrap(start + pos, |cells|)];
  }

  lemma QueuedUntouched(before: seq<byte>, cells: seq<byte>, out: nat, n: nat, start: nat, pos: nat, x: byte)
    requires |cells| == |before| && out < |cells| && n + pos < |cells| && start == Wrap(out + n, |cells|)
    requires cells == before[Wrap(start + pos, |cells|) := x]
    ensures Ring(cells, out, n) == Ring(before, out, n)
  {
    var r := Ring(cells, out, n);
    forall i | 0 <= i < n ensures r[i] == Ring(before, out, n)[i] {
      assert r[i] == cells[Wrap(out + i, |cells|)];
    }
  }

  /** Store one byte at the write pointer and move on, without looking for the wrap point. */
  method PutRaw(rb: RingBuffer, buf: nat, pos: nat, x: byte) returns (buf': nat, pos': nat)
    requires rb.Valid() && At(rb, buf, pos) && pos < rb.Avail()
    modifies rb.buffer
    ensures rb.Valid() && pos' == pos + 1 && buf' == buf + 1
    ensures rb.Pending(pos') == old(rb.Pending(pos)) + [x]
    ensures rb.Contents() == old(rb.Contents())
  {
    rb.WriteFollowsRead();
    rb.buffer[buf] := x;
    PendingSnoc(old(rb.buffer[..]), rb.buffer[..], rb.inp % rb.size, pos, x);
    QueuedUntouched(old(rb.buffer[..]), rb.buffer[..], rb.out % rb.size, rb.Len(), rb.inp % rb.size, pos, x);
    return buf + 1, pos + 1;
  }

  /** Store one byte; at the wrap point the write pointer returns to the first cell. */
  method Put(rb: RingBuffer, wrap: nat, buf: nat, pos: nat, x: byte) returns (buf': nat, pos': nat)
    requires rb.Valid() && At(rb, buf, pos) && pos < rb.Avail() && wrap == rb.AvailNoWrap()
    modifies rb.buffer
    ensures rb.Valid() && pos' == pos + 1 <= rb.Avail() && At(rb, buf', pos')
    ensures rb.Pending(pos') == old(rb.Pending(pos)) + [x]
    ensures rb.Contents() == old(rb.Contents())
  {
    rb.NoWrapIs();
    buf', pos' := PutRaw(rb, buf, pos, x);
    if pos' == wrap {
      rb.PointersWrap(pos');
      buf' := rb.WritePtr(pos');
    }
  }

  /** What is left to write once bytes before i are done; an escape may be half written. */
  ghost function Rest(accm: XmitAccm, data: seq<byte>, i: nat, escape: bool): seq<byte>
    requires i <= |data| && (escape ==> i < |data|)
  {
    if escape then [Toggle(data[i])] + Stuff(accm, data[i + 1..]) else Stuff(accm, data[i..])
  }

  lemma RestStep(accm: XmitAccm, data: seq<byte>, i: nat)
    requires i < |data|
    ensures NeedEscape(accm, data[i]) ==> Rest(accm, data, i, false) == [ESCAPE] + Rest(accm, data, i, true)
    ensures !NeedEscape(accm, data[i]) ==> Rest(accm, data, i, false) == [data[i]] + Rest(accm, data, i + 1, false)
    ensures Rest(accm, data, i, true) == [Toggle(data[i])] + Rest(accm, data, i + 1, false)
    ensures |Rest(accm, data, i, false)| > 0
  {
    hide NeedEscape;
    assert data[i..][0] == data[i] && data[i..][1..] == data[i + 1..];
  }

  lemma {:induction false} RestEnds(accm: XmitAccm, data: seq<byte>)
    ensures Rest(accm, data, 0, false) == Stuff(accm, data)
    ensures Rest(accm, data, |data|, false) == []
  {
    assert data[0..] == data;
  }

  /** One turn of the stuffing loop: an escape character, an escaped byte or a plain byte. */
  method StuffStep(rb: RingBuffer, accm: XmitAccm, wrap: nat, buf0: nat, pos0: nat,
                   data: seq<byte>, i0: nat, escape0: bool, fcs0: bv16)
    returns (buf: nat, pos: nat, i: nat, escape: bool, fcs: bv16)
    requires rb.Valid() && At(rb, buf0, pos0) && pos0 < rb.Avail() && wrap == rb.AvailNoWrap()
    requires i0 < |data| && fcs0 == Fcs(data[..i0])
    modifies rb.buffer
    ensures rb.Valid() && pos == pos0 + 1 && At(rb, buf, pos)
    ensures rb.Contents() == old(rb.Contents())
    ensures i <= |data| && (escape ==> i < |data|) && fcs == Fcs(data[..i])
    ensures (i == i0 + 1 && !escape) || (i == i0 && !escape0 && escape)
    ensures rb.Pending(pos) + Rest(accm, data, i, escape) == old(rb.Pending(pos0)) + Rest(accm, data, i0, escape0)
  {
    hide CrcByte, Fcs, NeedEscape, Stuff, Rest, At, Toggle;
    hide RingBuffer.Contents, RingBuffer.Pending, RingBuffer.Valid, RingBuffer.Avail, RingBuffer.AvailNoWrap;
    RestStep(accm, data, i0);
    FcsSnoc(data[..i0], data[i0]);
    assert data[..i0] + [data[i0]] == data[..i0 + 1];
    i, escape, fcs := i0, false, fcs0;
    var c := data[i];
    if escape0 {
      fcs := CrcByte(fcs, c);
      c := Toggle(c);
      i := i + 1;
    } else if NeedEscape(accm, c) {
      c := ESCAPE;
      escape := true;
    } else {
      fcs := CrcByte(fcs, c);
      i := i + 1;
    }
    buf, pos := Put(rb, wrap, buf0, pos0, c);
  }

  /** Write the stuffed form of some bytes behind what the frame already holds, as far as
      there is room, and compute their check value on the way. */
  method StuffInto(rb: RingBuffer, accm: XmitAccm, avail: nat, wrap: nat, buf0: nat, pos0: nat, data: seq<byte>)
    returns (ok: bool, buf: nat, pos: nat, fcs: bv16)
    requires rb.Valid() && At(rb, buf0, pos0) && avail == rb.Avail() && wrap == rb.AvailNoWrap()
    modifies rb.buffer
    ensures rb.Valid() && pos <= avail && At(rb, buf, pos)
    ensures rb.Contents() == old(rb.Contents())
    ensures ok <==> pos0 + |Stuff(accm, data)| <= avail
    ensures ok ==> rb.Pending(pos) == old(rb.Pending(pos0)) + Stuff(accm, data)
    ensures ok ==> fcs == Fcs(data)
  {
    RestEnds(accm, data);
    assert pos0 <= avail && Fcs([]) == INIT_FCS;
    hide Fcs, NeedEscape, Stuff, Rest, At;
    hide RingBuffer.Contents, RingBuffer.Pending, RingBuffer.Valid, RingBuffer.Avail, RingBuffer.AvailNoWrap;
    buf, pos, fcs := buf0, pos0, INIT_FCS;
    var i, escape := 0, false;
    ghost var target := rb.Pending(pos0) + Stuff(accm, data);
    assert data[..0] == [] && data[0..] == data;
    while pos < avail && i < |data|
      invariant rb.Valid() && pos <= avail && At(rb, buf, pos)
      invariant i <= |data| && (escape ==> i < |data|)
      invariant rb.Contents() == old(rb.Contents())
      invariant rb.Pending(pos) + Rest(accm, data, i, escape) == target
      invariant fcs == Fcs(data[..i])
      decreases |data| - i, if escape then 0 else 1
    {
      buf, pos, i, escape, fcs := StuffStep(rb, accm, wrap, buf, pos, data, i, escape, fcs);
    }
    ok := i == |data|;
    if ok {
      assert data[|data|..] == [] && data[..|data|] == data;
    } else {
      RestStep(accm, data, i);
    }
  }

  /** Build one whole frame in the free cells of a buffer and, only if all of it fits,
      make it readable. */
  method EncodeFrame(rb: RingBuffer, accm: XmitAccm, marker: bool, wakeup: bool, data: seq<byte>)
    returns (ok: bool)
    requires rb.Valid()
    requires !marker && wakeup ==> rb.inp == rb.out == 0 && rb.size > 1
    modifies rb.buffer, rb`inp
    ensures rb.Valid() && rb.out == old(rb.out)
    ensures ok <==> |Encoded(Sent(marker || wakeup, accm, data))| <= old(rb.Avail())
    ensures ok ==> rb.Contents() == old(rb.Contents()) + Encoded(Sent(marker || wakeup, accm, data))
    ensures !ok ==> rb.Contents() == old(rb.Contents()) && rb.inp == old(rb.inp)
  {
    var avail, wrap := rb.Avail(), rb.AvailNoWrap();
    var buf, pos := OpenFrame(rb, marker, wakeup);
    if marker && pos == 0 {
      return false;
    }
    ok := CloseFrame(rb, accm, avail, wrap, buf, pos, data);
    if ok {
      ghost var enc := Encoded(Sent(marker || wakeup, accm, data));
      assert enc == (if marker || wakeup then [FLAG] else []) + Frame(accm, data);
      var n := rb.WriteAdvance(|Frame(accm, data)| + pos);
    }
  }

  /** The opening flag, if one is due. */
  method OpenFrame(rb: RingBuffer, marker: bool, wakeup: bool) returns (buf: nat, pos: nat)
    requires rb.Valid()
    requires !marker && wakeup ==> rb.inp == rb.out == 0 && rb.size > 1
    modifies rb.buffer
    ensures rb.Valid() && At(rb, buf, pos)
    ensures pos == (if (marker && rb.Avail() > 0) || (!marker && wakeup) then 1 else 0)
    ensures rb.Pending(pos) == if pos == 1 then [FLAG] else []
    ensures rb.Contents() == old(rb.Contents())
  {
    var avail, wrap := rb.Avail(), rb.AvailNoWrap();
    rb.PointersWrap(0);
    buf, pos := rb.WritePtr(0), 0;
    if marker {
      if pos + 1 > avail {
        return;
      }
      buf, pos := Put(rb, wrap, buf, pos, FLAG);
    } else if wakeup {
      buf, pos := PutRaw(rb, buf, pos, FLAG);
    }
  }

  /** Payload, check sequence and closing flag. */
  method CloseFrame(rb: RingBuffer, accm: XmitAccm, avail: nat, wrap: nat, buf0: nat, pos0: nat, data: seq<byte>)
    returns (ok: bool)
    requires rb.Valid() && At(rb, buf0, pos0) && avail == rb.Avail() && wrap == rb.AvailNoWrap()
    modifies rb.buffer
    ensures rb.Valid() && rb.Contents() == old(rb.Contents())
    ensures ok <==> pos0 + |Frame(accm, data)| <= avail
    ensures ok ==> rb.Pending(pos0 + |Frame(accm, data)|) == old(rb.Pending(pos0)) + Frame(accm, data)
  {
    hide RingBuffer.Contents, RingBuffer.Pending, RingBuffer.Valid, RingBuffer.Avail, RingBuffer.AvailNoWrap;
    hide Stuff, Xor, LowByte, HighByte, Fcs, Wrap;
    var buf, pos, fcs, ignored;
    ok, buf, pos, fcs := StuffInto(rb, accm, avail, wrap, buf0, pos0, data);
    if !ok {
      return;
    }
    var comp := Xor(fcs, INIT_FCS);
    var tail := [LowByte(comp), HighByte(comp)];
    assert tail == FcsTail(data);
    ok, buf, pos, ignored := StuffInto(rb, accm, avail, wrap, buf, pos, tail);
    if !ok || pos + 1 > avail {
      return false;
    }
    buf, pos := PutRaw(rb, buf, pos, FLAG);
  }
}

module Hdlc {
  import opened Bytes
  import opened RingArithmetic
  import opened RingBuffers
  import opened CrcCcitt
  import opened HdlcCodec
  import opened HdlcWriter

  const MAX_BUFFERS: nat := 64
  const HDLC_OVERHEAD: nat := 256

  /** Every buffer of the write queue is a valid ring, and no two share cells. */
  ghost predicate QueueValid(q: seq<RingBuffer>)
    reads q
  {
    && (forall i :: 0 <= i < |q| ==> q[i].Valid() && q[i].size == BUFFER_SIZE)
    && (forall i, j :: 0 <= i < j < |q| ==> q[i] != q[j] && q[i].buffer != q[j].buffer)
  }

  /** The buffers of the queue hold these byte sequences. */
  ghost predicate Holds(q: seq<RingBuffer>, chunks: seq<seq<byte>>)
    requires QueueValid(q)
    reads q, set i | 0 <= i < |q| :: q[i].buffer
  {
    |chunks| == |q| && forall i :: 0 <= i < |q| ==> q[i].Contents() == chunks[i]
  }

  lemma {:induction false} FlattenSnoc(chunks: seq<seq<byte>>, last: seq<byte>)
    ensures Flatten(chunks + [last]) == Flatten(chunks) + last
    decreases |chunks|
  {
    if |chunks| == 0 {
      assert chunks + [last] == [last] && [last][1..] == [];
    } else {
      assert (chunks + [last])[1..] == chunks[1..] + [last];
      FlattenSnoc(chunks[1..], last);
    }
  }

  /** The last sequence extended. */
  ghost function Longer(chunks: seq<seq<byte>>, more: seq<byte>): seq<seq<byte>>
    requires |chunks| > 0
  {
    chunks[|chunks| - 1 := chunks[|chunks| - 1] + more]
  }

  lemma {:induction false} FlattenGrowLast(chunks: seq<seq<byte>>, more: seq<byte>)
    requires |chunks| > 0
    ensures Flatten(Longer(chunks, more)) == Flatten(chunks) + more
  {
    hide Flatten;
    var n := |chunks| - 1;
    var front, last := chunks[..n], chunks[n];
    assert chunks == front + [last];
    assert Longer(chunks, more) == front + [last + more];
    FlattenSnoc(front, last);
    FlattenSnoc(front, last + more);
    assert Flatten(front) + (last + more) == Flatten(front) + last + more;
  }

  lemma {:induction false} FlattenDropFirst(chunks: seq<seq<byte>>, k: nat)
    requires |chunks| > 0 && k <= |chunks[0]|
    ensures k <= |Flatten(chunks)|
    ensures Flatten(chunks[0 := chunks[0][k..]]) == Flatten(chunks)[k..]
    ensures |chunks[0]| == 0 ==> Flatten(chunks[1..]) == Flatten(chunks)
  {
    assert chunks[0 := chunks[0][k..]][1..] == chunks[1..];
  }

  lemma {:induction false} FeedUnfolds(cfg: RxConfig, rx: Rx, input: seq<byte>, pos: nat)
    requires pos < |input|
    ensures LooksLikeNoCarrier(cfg, rx, input[pos]) ==>
      Feed(cfg, rx, input[pos..]) == rx && Consumed(cfg, rx, input[pos..]) == 0
    ensures !LooksLikeNoCarrier(cfg, rx, input[pos]) ==>
      var next := Step(cfg.recvAccm, rx, input[pos]);
      && Feed(cfg, rx, input[pos..]) == Feed(cfg, next, input[pos + 1..])
      && Consumed(cfg, rx, input[pos..]) == 1 + Consumed(cfg, next, input[pos + 1..])
      && (Fits(cfg, rx, input[pos..]) ==> |next.body| <= BUFFER_SIZE && Fits(cfg, next, input[pos + 1..]))
  {
    hide Step;
    assert input[pos..][1..] == input[pos + 1..];
  }

  lemma {:induction false} FeedEnds(cfg: RxConfig, rx: Rx, rest: seq<byte>)
    ensures |rest| == 0 ==> Feed(cfg, rx, rest) == rx && Consumed(cfg, rx, rest) == 0
  {
  }

  /** Step the read pointer; at the wrap point it returns to the first cell. */
  method NextCell(rbuf: RingBuffer, wrap: nat, buf0: nat, pos0: nat) returns (buf: nat, pos: nat)
    requires rbuf.Valid() && pos0 < rbuf.Len() && rbuf.ReadsAt(buf0, pos0) && wrap == rbuf.LenNoWrap()
    ensures pos == pos0 + 1 && rbuf.ReadsAt(buf, pos)
  {
    rbuf.NoWrapIs();
    buf, pos := buf0 + 1, pos0 + 1;
    if pos == wrap {
      rbuf.PointersWrap(pos);
      buf := rbuf.ReadPtr(pos);
    }
  }

  class Hdlc {
    var writeQueue: seq<RingBuffer>
    const decodeBuffer: array<byte>
    var decodeOffset: nat
    var decodeFcs: bv16
    var decodeEscape: bool
    var xmitAccm: XmitAccm
    var recvAccm: uint32
    var wakeupSent: bool
    var startFrameMarker: bool
    var noCarrierDetect: bool
    /** The payloads handed to the receive function so far. */
    var delivered: seq<seq<byte>>
    /** The contents of the buffers, and the history: frames accepted, bytes written out. */
    ghost var chunks: seq<seq<byte>>
    ghost var accepted: seq<Sent>
    ghost var written: seq<byte>

    /** The bytes waiting to be written out, oldest first. */
    ghost function Queued(): seq<byte>
      reads this`chunks
    {
      Flatten(chunks)
    }

    ghost predicate QueueOk()
      reads this`writeQueue, this`wakeupSent, this`startFrameMarker, this`chunks
      reads writeQueue, set i | 0 <= i < |writeQueue| :: writeQueue[i].buffer
    {
      && 0 < |writeQueue| <= MAX_BUFFERS + 1
      && QueueValid(writeQueue) && Holds(writeQueue, chunks)
      && (!wakeupSent && !startFrameMarker ==> Pristine())
    }

    /** Bytes written out and bytes still queued are, together, the accepted frames in order. */
    ghost predicate HistoryOk()
      reads this`chunks, this`written, this`accepted
    {
      && written + Queued() == Stream(accepted)
      && forall i :: 0 <= i < |accepted| ==> |Encoded(accepted[i])| <= BUFFER_SIZE
    }

    ghost predicate TxValid()
      reads this`writeQueue, this`wakeupSent, this`startFrameMarker, this`chunks, this`written, this`accepted
      reads writeQueue, set i | 0 <= i < |writeQueue| :: writeQueue[i].buffer
    {
      QueueOk() && HistoryOk()
    }

    function Newest(): RingBuffer
      requires |writeQueue| > 0
      reads this`writeQueue
    {
      writeQueue[|writeQueue| - 1]
    }

    /** Nothing has been put into the newest buffer yet. */
    ghost predicate Pristine()
      reads this`writeQueue, writeQueue
    {
      |writeQueue| > 0 && Newest().inp == Newest().out == 0
    }

    constructor ()
      ensures TxValid() && RxValid()
      ensures accepted == [] && written == [] && Queued() == []
      ensures RxView() == FRESH
      ensures !wakeupSent && !startFrameMarker && !noCarrierDetect && recvAccm == 0xffff_ffff
      ensures xmitAccm == [0xffff_ffff, 0, 0, 0x6000_0000, 0, 0, 0, 0]
      ensures fresh(writeQueue) && fresh(decodeBuffer)
      ensures forall i :: 0 <= i < |writeQueue| ==> fresh(writeQueue[i].buffer)
    {
      hide IsPow2, Sub32, RingBuffer.Valid, RingBuffer.Contents;
      var rb := RingBuffer.New(BUFFER_SIZE);
      KnownPowers();
      writeQueue, chunks := [rb], [[]];
      decodeBuffer := new byte[BUFFER_SIZE](_ => 0);
      decodeOffset, decodeFcs, decodeEscape := 0, INIT_FCS, false;
      xmitAccm := [0xffff_ffff, 0, 0, 0x6000_0000, 0, 0, 0, 0];
      recvAccm := 0xffff_ffff;
      wakeupSent, startFrameMarker, noCarrierDetect := false, false, false;
      delivered, accepted, written := [], [], [];
    }

    method SetXmitAccm(accm: uint32)
      modifies this`xmitAccm
      ensures xmitAccm == old(xmitAccm)[0 := accm]
    {
      xmitAccm := xmitAccm[0 := accm];
    }

    method SetRecvAccm(accm: uint32)
      modifies this`recvAccm
      ensures recvAccm == accm
    {
      recvAccm := accm;
    }

    method SetNoCarrierDetect(detect: bool)
      modifies this`noCarrierDetect
      ensures noCarrierDetect == detect
    {
      noCarrierDetect := detect;
    }

    /** The opening-flag mode is chosen before the first frame. */
    method SetStartFrameMarker(marker: bool)
      requires QueueOk() && (Pristine() || marker == startFrameMarker)
      modifies this`startFrameMarker
      ensures QueueOk() && startFrameMarker == marker
    {
      startFrameMarker := marker;
    }

    /** The newest buffer, or a new one behind it when the frame might not fit. */
    method PickBuffer(size: nat) returns (ok: bool)
      requires QueueOk()
      modifies this`writeQueue, this`chunks
      ensures QueueOk() && Queued() == old(Queued())
      ensures ok <==> old(Newest().Avail()) >= size + 256 || |old(writeQueue)| <= 64
      ensures !ok || old(Newest().Avail()) >= size + 256 ==> writeQueue == old(writeQueue)
      ensures ok && old(Newest().Avail()) < size + 256 ==>
        && |writeQueue| == |old(writeQueue)| + 1 && writeQueue[..|old(writeQueue)|] == old(writeQueue)
        && fresh(Newest()) && fresh(Newest().buffer) && Newest().Avail() == 4096
    {
      hide IsPow2, RingBuffer.Contents, Flatten;
      ok := true;
      if Newest().Avail() < size + HDLC_OVERHEAD {
        if |writeQueue| > MAX_BUFFERS {
          return false;
        }
        var rb := RingBuffer.New(BUFFER_SIZE);
        KnownPowers();
        FlattenSnoc(chunks, []);
        writeQueue, chunks := writeQueue + [rb], chunks + [[]];
      }
    }

    /** The frame a call would write. */
    ghost function Next(data: seq<byte>): Sent
      reads this
    {
      Sent(startFrameMarker || !wakeupSent, xmitAccm, data)
    }

    /** The room the frame gets: what the newest buffer has left if that is surely
        enough, a whole new buffer otherwise, nothing when too many are pending. */
    ghost function Room(size: nat): (room: nat)
      requires QueueValid(writeQueue) && |writeQueue| > 0
      reads this, writeQueue
      ensures room == if Newest().Avail() >= size + 256 then Newest().Avail() else if |writeQueue| <= 64 then 4096 else 0
    {
      var avail := Newest().Avail();
      if avail >= size + HDLC_OVERHEAD then avail
      else if |writeQueue| > MAX_BUFFERS then 0
      else BUFFER_SIZE
    }

    /** All or nothing: a rejected frame leaves the readable bytes alone, an accepted one
        adds exactly its encoding; it is accepted exactly when the encoding fits. */
    method Send(data: seq<byte>) returns (ok: bool)
      requires TxValid()
      modifies this`writeQueue, this`wakeupSent, this`chunks, this`accepted
      modifies Newest()`inp, Newest().buffer
      ensures TxValid()
      ensures ok <==> |Encoded(old(Next(data)))| <= old(Room(|data|))
      ensures accepted == old(accepted) + (if ok then [old(Next(data))] else [])
      ensures Queued() == old(Queued()) + (if ok then Encoded(old(Next(data))) else [])
    {
      hide Stream, Encoded, Holds, IsPow2, Sub32, Flatten, RingBuffer.Contents, RingBuffer.Valid, RingBuffer.Avail;
      EncodedLength(Next(data));
      ok := PickBuffer(|data|);
      if !ok {
        return;
      }
      ghost var sent := Next(data);
      ok := Append(data);
      if ok {
        Accept(sent);
      }
    }

    /** A frame in the queue has been accepted. */
    ghost method Accept(sent: Sent)
      requires QueueOk() && written + Queued() == Stream(accepted) + Encoded(sent) && |Encoded(sent)| <= BUFFER_SIZE
      requires forall i :: 0 <= i < |accepted| ==> |Encoded(accepted[i])| <= BUFFER_SIZE
      modifies this`accepted
      ensures TxValid() && accepted == old(accepted) + [sent] && Queued() == old(Queued())
    {
      hide Stream, Encoded, QueueValid, Holds, Flatten;
      accepted := accepted + [sent];
      StreamSnoc(old(accepted), sent);
    }

    /** Encode into the newest buffer. */
    method Append(data: seq<byte>) returns (ok: bool)
      requires QueueOk()
      modifies this`wakeupSent, this`chunks, Newest()`inp, Newest().buffer
      ensures QueueOk()
      ensures ok <==> |Encoded(old(Next(data)))| <= old(Newest().Avail())
      ensures Queued() == old(Queued()) + (if ok then Encoded(old(Next(data))) else [])
    {
      hide Encoded, QueueValid, Holds, RingBuffer.Avail, Flatten, Longer;
      SomeChunk();
      ghost var more := Encoded(Next(data));
      FlattenGrowLast(chunks, more);
      ok := EncodeNewest(data);
      if ok {
        chunks := Longer(chunks, more);
      }
    }

    lemma SomeChunk()
      requires QueueOk()
      ensures |chunks| > 0
    {
    }

    method EncodeNewest(data: seq<byte>) returns (ok: bool)
      requires QueueOk()
      modifies this`wakeupSent, Newest()`inp, Newest().buffer
      ensures QueueValid(writeQueue)
      ensures !startFrameMarker ==> wakeupSent
      ensures ok <==> |Encoded(old(Next(data)))| <= old(Newest().Avail())
      ensures Holds(writeQueue, if ok then Longer(chunks, Encoded(old(Next(data)))) else chunks)
    {
      hide Encoded, IsPow2, Sub32, RingBuffer.Contents, RingBuffer.Valid, RingBuffer.Avail;
      var rb := Newest();
      var wakeup := !wakeupSent;
      if !startFrameMarker && !wakeupSent {
        wakeupSent := true;
      }
      ok := EncodeFrame(rb, xmitAccm, startFrameMarker, wakeup, data);
    }

    function Oldest(): RingBuffer
      requires |writeQueue| > 0
      reads this`writeQueue
    {
      writeQueue[0]
    }

    /** The channel takes some of the contiguous front of the queue; a drained buffer is
        dropped unless it is the last. */
    method CanWriteData(taken: nat) returns (more: bool)
      requires TxValid() && taken <= Oldest().LenNoWrap()
      modifies this`writeQueue, this`chunks, this`written, Oldest()`inp, Oldest()`out
      ensures TxValid() && taken <= |old(Queued())|
      ensures written == old(written) + old(Queued())[..taken]
      ensures Queued() == old(Queued())[taken..]
      ensures more <==> Oldest().Len() > 0
    {
      hide Stream, Holds, RingBuffer.Contents, RingBuffer.Valid, RingBuffer.LenNoWrap, Flatten;
      TakeOut(taken);
      if Oldest().Len() > 0 {
        return true;
      }
      if Oldest().Len() == 0 && |writeQueue| > 1 {
        DropOldest();
      }
      more := Oldest().Len() > 0;
    }

    /** The bytes taken leave the queue and become history. */
    method TakeOut(taken: nat)
      requires TxValid() && taken <= Oldest().LenNoWrap()
      modifies this`chunks, this`written, Oldest()`inp, Oldest()`out
      ensures TxValid() && taken <= |old(Queued())|
      ensures written == old(written) + old(Queued())[..taken]
      ensures Queued() == old(Queued())[taken..]
    {
      hide Stream, RingBuffer.Contents, RingBuffer.Valid, RingBuffer.LenNoWrap, Flatten;
      DrainOldest(taken);
      Wrote(old(Queued())[..taken]);
    }

    /** Bytes taken out of the queue have been written. */
    ghost method Wrote(gone: seq<byte>)
      requires QueueOk() && written + (gone + Queued()) == Stream(accepted)
      requires forall i :: 0 <= i < |accepted| ==> |Encoded(accepted[i])| <= BUFFER_SIZE
      modifies this`written
      ensures TxValid() && written == old(written) + gone && Queued() == old(Queued())
    {
      hide Stream, Encoded, QueueValid, Holds, Flatten;
      written := written + gone;
      assert old(written) + (gone + Queued()) == written + Queued();
    }

    method DrainOldest(taken: nat)
      requires QueueOk() && taken <= Oldest().LenNoWrap()
      modifies this`chunks, Oldest()`inp, Oldest()`out
      ensures QueueOk() && taken <= |old(Queued())|
      ensures Queued() == old(Queued())[taken..]
    {
      assert taken <= Oldest().Len();
      hide IsPow2, Sub32, RingBuffer.Contents, RingBuffer.LenNoWrap, Flatten;
      FlattenDropFirst(chunks, taken);
      var n := Oldest().Drain(taken);
      chunks := chunks[0 := chunks[0][taken..]];
    }

    method DropOldest()
      requires QueueOk() && |writeQueue| > 1 && Oldest().Len() == 0
      modifies this`writeQueue, this`chunks
      ensures QueueOk() && Queued() == old(Queued())
      ensures writeQueue == old(writeQueue)[1..]
    {
      hide IsPow2, RingBuffer.Contents, Flatten;
      FlattenDropFirst(chunks, 0);
      writeQueue, chunks := writeQueue[1..], chunks[1..];
    }

    ghost predicate RxValid()
      reads this
    {
      decodeBuffer.Length == BUFFER_SIZE && decodeOffset <= BUFFER_SIZE
    }

    ghost function RxView(): Rx
      requires RxValid()
      reads this, decodeBuffer
    {
      Rx(decodeBuffer[..decodeOffset], decodeFcs, decodeEscape, delivered)
    }

    ghost function Config(): RxConfig
      reads this
    {
      RxConfig(recvAccm, noCarrierDetect)
    }

    method StoreByte(val: byte)
      requires RxValid() && decodeOffset < BUFFER_SIZE
      modifies this`decodeOffset, this`decodeFcs, decodeBuffer
      ensures RxValid() && RxView() == Store(old(RxView()), val)
    {
      hide CrcByte;
      decodeBuffer[decodeOffset] := val;
      decodeOffset := decodeOffset + 1;
      decodeFcs := CrcByte(decodeFcs, val);
    }

    /** The body of the read loop, for one byte. */
    method DecodeByte(c: byte)
      requires RxValid()
      requires |Step(recvAccm, RxView(), c).body| <= BUFFER_SIZE
      modifies this`decodeOffset, this`decodeFcs, this`decodeEscape, this`delivered, decodeBuffer
      ensures RxValid() && RxView() == Step(recvAccm, old(RxView()), c)
    {
      hide CrcByte, TestBit;
      if decodeEscape {
        StoreByte(Toggle(c));
        decodeEscape := false;
      } else if c == ESCAPE {
        decodeEscape := true;
      } else if c == FLAG {
        if decodeOffset > 2 && decodeFcs == GOOD_FCS {
          delivered := delivered + [decodeBuffer[..decodeOffset - 2]];
          assert decodeBuffer[..decodeOffset][..decodeOffset - 2] == decodeBuffer[..decodeOffset - 2];
        }
        decodeFcs := INIT_FCS;
        decodeOffset := 0;
      } else if c >= 0x20 || !TestBit(recvAccm, c) {
        StoreByte(c);
      }
    }

    /** Everything readable is decoded, up to a carriage return taken for NO CARRIER, and
        drained from the read buffer. */
    method NewBytes(rbuf: RingBuffer)
      requires RxValid() && rbuf.Valid() && rbuf.buffer != decodeBuffer
      requires Fits(Config(), RxView(), rbuf.Contents())
      modifies this`decodeOffset, this`decodeFcs, this`decodeEscape, this`delivered, decodeBuffer
      modifies rbuf`inp, rbuf`out
      ensures RxValid() && rbuf.Valid()
      ensures RxView() == Feed(old(Config()), old(RxView()), old(rbuf.Contents()))
      ensures rbuf.Contents() == old(rbuf.Contents())[Consumed(old(Config()), old(RxView()), old(rbuf.Contents()))..]
    {
      hide Feed, Consumed, Fits, Wrap, Step, RingBuffer.Contents, RingBuffer.Valid, RingBuffer.LenNoWrap;
      hide CrcByte, TestBit, Ring, IsPow2, Sub32, BitAnd, RingBuffer.Len, RingBuffer.ReadPtr, RingBuffer.ReadsAt;
      var len, wrap, pos := rbuf.Len(), rbuf.LenNoWrap(), 0;
      var buf := rbuf.ReadPtr(0);
      ghost var cfg, input, start := Config(), rbuf.Contents(), RxView();
      rbuf.ReadStart();
      assert input[0..] == input;
      while pos < len
        invariant pos <= len && RxValid() && rbuf.Valid() && rbuf.Contents() == input
        invariant len == rbuf.Len() && wrap == rbuf.LenNoWrap()
        invariant rbuf.ReadsAt(buf, pos)
        invariant Fits(cfg, RxView(), input[pos..])
        invariant Feed(cfg, RxView(), input[pos..]) == Feed(cfg, start, input)
        invariant pos + Consumed(cfg, RxView(), input[pos..]) == Consumed(cfg, start, input)
      {
        rbuf.ReadCell(buf, pos);
        FeedUnfolds(cfg, RxView(), input, pos);
        if noCarrierDetect && decodeOffset == 0 && rbuf.buffer[buf] == CARRIAGE_RETURN {
          break;
        }
        DecodeByte(rbuf.buffer[buf]);
        buf, pos := NextCell(rbuf, wrap, buf, pos);
      }
      FeedEnds(cfg, RxView(), input[pos..]);
      var n := rbuf.Drain(pos);
    }
  }
}
