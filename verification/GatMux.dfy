/** The multiplexer object: one receive buffer, a ring buffer for every open channel. */
module GatMux {
  import opened Bytes
  import opened RingBuffers
  import RingArithmetic
  import HdlcCodec
  import opened Gsm0710
  import opened MuxTransfer
  import opened MuxReads
  import opened MuxWire
  import opened MuxFrames

  const MAX_CHANNELS: nat := 61
  const CHANNEL_BUFFER_SIZE: nat := 4096

  const OPEN_CHANNEL: byte := 0x3f
  const CLOSE_CHANNEL: byte := 0x53

  /** What a channel buffer holds after more bytes were put in: as many as fit. */
  function Topped(held: seq<byte>, more: seq<byte>): (r: seq<byte>)
    ensures |held| <= CHANNEL_BUFFER_SIZE ==> |r| <= CHANNEL_BUFFER_SIZE
    ensures |held| <= 4096 ==> held <= r <= held + more && (|r| == 4096 || r == held + more)
  {
    if |held| > CHANNEL_BUFFER_SIZE then held else held + more[..Min(|more|, CHANNEL_BUFFER_SIZE - |held|)]
  }

  lemma ToppedTwice(held: seq<byte>, a: seq<byte>, b: seq<byte>)
    requires |held| <= CHANNEL_BUFFER_SIZE
    ensures Topped(Topped(held, a), b) == Topped(held, a + b)
    ensures Topped(held, []) == held
  {
    var room := CHANNEL_BUFFER_SIZE - |held|;
    if |a| <= room {
      assert a[..|a|] == a;
      assert Topped(held, a + b) == held + a + b[..Min(|b|, room - |a|)];
    } else {
      assert (a + b)[..room] == a[..room];
    }
  }

  /** With room for everything nothing is lost. */
  lemma ToppedWhole(held: seq<byte>, more: seq<byte>)
    requires |held| + |more| <= CHANNEL_BUFFER_SIZE
    ensures Topped(held, more) == held + more
  {
  }

  /** Reading one frame: with room for it, the data of a data packet is put behind what its
      channel holds, and nothing else reaches any channel. */
  lemma {:induction false} FrameReachesChannel(mode: Mode, lead: seq<byte>, p: Packet, before: byte, dlc: byte, held: seq<byte>)
    requires Sendable(p) && (lead == [] || lead == [Flag(mode)]) && |held| + |p.data| <= 4096
    ensures Topped(held, Fed(FeedBuffer(mode, lead + Frame(mode, p), before).found.packets, dlc)) == held +
      if dlc == p.dlc && (p.control == 0xef || p.control == 0xff || p.control == 0x03 || p.control == 0x13) then p.data else []
  {
    hide Frame, FeedBuffer, Fed;
    FrameDelivered(mode, lead, p, before, dlc);
  }

  /** Some packet carries data for this channel. */
  predicate Touches(ps: seq<Packet>, dlc: byte) {
    exists i :: 0 <= i < |ps| && ps[i].dlc == dlc && IsData(ps[i].control)
  }

  lemma TypesAre(control: byte)
    ensures IsData(control) <==> control == 0xef || control == 0x03
  {
  }

  lemma TouchesSnoc(ps: seq<Packet>, p: Packet, dlc: byte)
    ensures Touches(ps + [p], dlc) <==> Touches(ps, dlc) || (p.dlc == dlc && IsData(p.control))
  {
    if Touches(ps, dlc) {
      var i :| 0 <= i < |ps| && ps[i].dlc == dlc && IsData(ps[i].control);
      assert (ps + [p])[i] == ps[i];
    }
    if p.dlc == dlc && IsData(p.control) {
      assert (ps + [p])[|ps|] == p;
    }
  }

  lemma {:induction false} FedSnoc(ps: seq<Packet>, p: Packet, dlc: byte)
    ensures Fed(ps + [p], dlc) == Fed(ps, dlc) + (if p.dlc == dlc && IsData(p.control) then p.data else [])
  {
    FedAppend(ps, [p], dlc);
    assert [p][1..] == [];
  }

  /** What has happened so far: everything read from the line and the packets handed out of
      it; whether a short frame was ever taken for a packet; and for each open channel how
      many packets had been handed out when it was opened, what its owner has read, and
      whether its buffer was ever too full. */
  datatype History = History(arrived: seq<byte>, handed: seq<Packet>, astray: bool,
                             since: map<byte, nat>, taken: map<byte, seq<byte>>, lost: set<byte>)

  /** What one more packet does to a channel. */
  lemma {:induction false} ToppedSnoc(held: seq<byte>, ps: seq<Packet>, p: Packet, dlc: byte)
    requires |held| <= CHANNEL_BUFFER_SIZE
    ensures Topped(held, Fed(ps + [p], dlc)) ==
      if p.dlc == dlc && IsData(p.control) then Topped(Topped(held, Fed(ps, dlc)), p.data) else Topped(held, Fed(ps, dlc))
  {
    hide Topped, Fed, IsData;
    FedSnoc(ps, p, dlc);
    ToppedTwice(held, Fed(ps, dlc), p.data);
    assert Fed(ps, dlc) + [] == Fed(ps, dlc);
  }

  class Channel {
    const dlc: nat
    const buffer: RingBuffer
    /** What waits to be read. */
    ghost var held: seq<byte>

    constructor (dlc: nat, buffer: RingBuffer)
      ensures this.dlc == dlc && this.buffer == buffer && held == []
    {
      this.dlc, this.buffer, held := dlc, buffer, [];
    }

    ghost predicate Valid()
      reads this, buffer, buffer.buffer
    {
      buffer.Valid() && buffer.size == CHANNEL_BUFFER_SIZE && held == buffer.Contents()
    }

    /** As many bytes as there is room for. */
    method Take(data: seq<byte>)
      requires Valid()
      modifies this`held, buffer, buffer.buffer
      ensures Valid() && held == Topped(old(held), data)
    {
      hide RingBuffer.Contents, RingArithmetic.IsPow2, RingArithmetic.Sub32;
      var written := buffer.Write(data);
      held := held + data[..written];
    }

    /** The bytes in front, up to the wrap point. */
    method Give(count: nat) returns (data: seq<byte>)
      requires Valid()
      modifies this`held, buffer
      ensures Valid() && data + held == old(held) && |data| <= count
      ensures |data| == 0 <==> count == 0 || |old(held)| == 0
    {
      hide RingBuffer.Contents, RingArithmetic.IsPow2, RingArithmetic.Sub32, RingArithmetic.BitAnd;
      NoWrapPositive(buffer);
      var avail := Min(buffer.LenNoWrap(), count);
      data := buffer.Read(avail);
      held := held[|data|..];
    }
  }

  class Mux {
    const mode: Mode
    const frameSize: nat
    var dlcs: seq<Channel?>
    const buf: array<byte>
    var bufUsed: nat
    /** The channels that got data in the current read. */
    var newdata: set<byte>
    /** Everything handed to the serial line. */
    var output: seq<byte>
    ghost var past: History

    ghost function Channels(): set<Channel>
      reads this`dlcs
    {
      set i | 0 <= i < |dlcs| && dlcs[i] != null :: dlcs[i]
    }

    ghost function Rings(): set<RingBuffer>
      reads this`dlcs
    {
      set i | 0 <= i < |dlcs| && dlcs[i] != null :: dlcs[i].buffer
    }

    ghost function Cells(): set<array<byte>>
      reads this`dlcs
    {
      set i | 0 <= i < |dlcs| && dlcs[i] != null :: dlcs[i].buffer.buffer
    }

    predicate Open(d: byte)
      reads this`dlcs
    {
      1 <= d <= |dlcs| && dlcs[d - 1] != null
    }

    function At(d: byte): Channel
      requires Open(d)
      reads this`dlcs
    {
      dlcs[d - 1]
    }

    ghost predicate Valid()
      reads this`dlcs, this`bufUsed, Channels(), Rings(), Cells()
      ensures Valid() ==> bufUsed <= buf.Length == MUX_BUFFER_SIZE && |dlcs| == MAX_CHANNELS && 0 < frameSize <= MAX_INFO
    {
      && |dlcs| == MAX_CHANNELS && buf.Length == MUX_BUFFER_SIZE && bufUsed <= MUX_BUFFER_SIZE
      && 0 < frameSize <= MAX_INFO
      && (forall i :: 0 <= i < |dlcs| && dlcs[i] != null ==>
            dlcs[i].dlc == i + 1 && dlcs[i].Valid() && dlcs[i].buffer.buffer != buf)
      && (forall i, j :: 0 <= i < j < |dlcs| && dlcs[i] != null && dlcs[j] != null ==>
            dlcs[i] != dlcs[j] && dlcs[i].buffer != dlcs[j].buffer && dlcs[i].buffer.buffer != dlcs[j].buffer.buffer)
    }

    /** What waits to be read from a channel. */
    ghost function Contents(d: byte): (s: seq<byte>)
      requires Open(d)
      reads this`dlcs, Channels()
    {
      dlcs[d - 1].held
    }

    /** The bytes of the line not yet made into packets. */
    ghost function Pending(): seq<byte>
      requires bufUsed <= buf.Length
      reads this`bufUsed, buf
    {
      buf[..bufUsed]
    }

    /** What an owner has read and what still waits is all that was ever sent to its channel
        since it was opened, unless its buffer was too full at some time; and the bytes kept
        are those no packet has come out of yet. */
    ghost predicate Tracked()
      requires bufUsed <= buf.Length
      reads this`dlcs, this`bufUsed, this`past, buf, Channels()
    {
      Accounts(mode, past, Pending(), Snapshot())
    }

    constructor (mode: Mode, frameSize: nat)
      requires 0 < frameSize <= MAX_INFO
      ensures Valid() && Tracked() && Pending() == [] && output == [] && this.mode == mode && this.frameSize == frameSize
      ensures past == NO_HISTORY && forall d :: !Open(d)
    {
      NothingFound(mode);
      this.mode, this.frameSize := mode, frameSize;
      dlcs := seq(MAX_CHANNELS, _ => null);
      buf := new byte[MUX_BUFFER_SIZE](_ => 0);
      bufUsed, newdata, output := 0, {}, [];
      past := NO_HISTORY;
    }

    /** Data for a channel nobody has opened is dropped; a full channel takes what fits. */
    method FeedDlcData(dlc: byte, data: seq<byte>)
      requires Valid()
      modifies this`newdata, Channels(), Rings(), Cells()
      ensures Valid() && newdata == old(newdata) + if Open(dlc) then {dlc} else {}
      ensures forall d :: Open(d) ==> Contents(d) == if d == dlc then Topped(old(Contents(d)), data) else old(Contents(d))
    {
      if dlc < 1 || dlc > MAX_CHANNELS {
        return;
      }
      var channel := dlcs[dlc - 1];
      if channel == null {
        return;
      }
      hide Topped, RingBuffer.Valid, RingBuffer.Contents;
      newdata := newdata + {dlc};
      Pour(dlc, data);
    }

    method Pour(dlc: byte, data: seq<byte>)
      requires Valid() && Open(dlc)
      modifies At(dlc)`held, At(dlc).buffer, At(dlc).buffer.buffer
      ensures Valid()
      ensures forall d :: Open(d) ==> Contents(d) == if d == dlc then Topped(old(Contents(d)), data) else old(Contents(d))
    {
      hide Topped, RingBuffer.Valid, RingBuffer.Contents;
      dlcs[dlc - 1].Take(data);
    }

    /** Data packets go to their channel; packets for channel 0 and other packet types do
        not touch any channel buffer. */
    method Gsm0710Packet(dlc: byte, control: byte, data: seq<byte>)
      requires Valid()
      modifies this`newdata, Channels(), Rings(), Cells()
      ensures Valid() && newdata == old(newdata) + if Open(dlc) && (control == 0xef || control == 0x03) then {dlc} else {}
      ensures forall d :: Open(d) ==>
        Contents(d) == if d == dlc && (control == 0xef || control == 0x03) then Topped(old(Contents(d)), data) else old(Contents(d))
    {
      hide Topped, RingBuffer.Contents;
      if control == DATA || control == DATA_ALT {
        if 1 <= dlc <= 63 {
          FeedDlcData(dlc, data);
        }
      }
    }

    /** No channel shares the receive buffer. */
    lemma BufferApart()
      requires Valid()
      ensures buf !in Cells()
    {
    }

    /** Finds the next packet in the receive buffer, from `off` on; `outside` is whatever
        lies in front of the buffer. */
    method ExtractFrame(off: nat, outside: byte) returns (nread: nat, found: bool, sound: bool, p: Packet)
      requires Valid() && off <= bufUsed
      modifies buf
      ensures Valid() && NextOk(mode, old(buf[off..bufUsed]), ByteBefore(old(buf[..]), off, outside), nread, found, sound, p)
      ensures buf[off + nread..bufUsed] == old(buf[off..bufUsed])[nread..]
      ensures found && sound ==> nread > 0 && buf[off + nread - 1] == old(buf[off..bufUsed])[nread - 1]
    {
      hide Demux, FeedBuffer, Extracted, Untouched, NextOk, Extract, AsFound, ByteBefore, FrontOf, RingBuffer.Valid;
      ghost var s, b0 := buf[off..bufUsed], buf[..];
      var dlc, control;
      p, sound := Packet(0, 0, []), true;
      if mode.Basic? {
        var start, n;
        nread, found, dlc, control, start, n := BasicExtract(buf[off..bufUsed]);
        if found {
          p := Packet(dlc, control, buf[off..bufUsed][start..start + n]);
        }
        BasicNext(s, ByteBefore(b0, off, outside), nread, found, p);
        TailAgain(b0, off, nread, bufUsed);
      } else {
        var n;
        nread, found, dlc, control, n := AdvancedExtract(buf, off, bufUsed - off, outside);
        sound := found ==> n >= 0;
        if found && n >= 0 {
          p := Packet(dlc, control, buf[off + 2..off + 2 + n]);
        }
        AdvancedNext(s, ByteBefore(b0, off, outside), nread, found, dlc, control, n, p);
        UntouchedTail(b0, buf[..], off, nread, found, bufUsed - off);
      }
    }

    /** Every channel holds what it held before and, as far as it fits, what these packets
        brought it; and the channels they brought something are marked. */
    ghost predicate Delivered(before: map<byte, seq<byte>>, woken: set<byte>, done: seq<Packet>)
      reads this`dlcs, this`newdata, Channels()
    {
      && (forall c :: Open(c) ==> c in before && |before[c]| <= CHANNEL_BUFFER_SIZE
                                  && Contents(c) == Topped(before[c], Fed(done, c)))
      && (forall c :: c in newdata <==> c in woken || (Open(c) && Touches(done, c)))
    }

    ghost function Snapshot(): map<byte, seq<byte>>
      reads this`dlcs, Channels()
    {
      map c: byte | 0 <= c < 256 && Open(c) :: Contents(c)
    }

    lemma SnapshotIs()
      ensures forall c :: c in Snapshot() <==> Open(c)
      ensures forall c :: Open(c) ==> Snapshot()[c] == Contents(c)
    {
    }

    lemma SnapshotFits()
      requires Valid()
      ensures forall c :: c in Snapshot() ==> |Snapshot()[c]| <= CHANNEL_BUFFER_SIZE
    {
    }

    lemma NothingDelivered()
      requires Valid()
      ensures Delivered(Snapshot(), newdata, [])
    {
      hide RingBuffer.Contents, Topped;
      forall c: byte | Open(c) ensures Contents(c) == Topped(Snapshot()[c], Fed([], c)) {
        ToppedTwice(Contents(c), [], []);
      }
    }

    method DeliverNext(p: Packet, ghost before: map<byte, seq<byte>>, ghost woken: set<byte>, ghost done: seq<Packet>)
      requires Valid() && Delivered(before, woken, done)
      modifies this`newdata, Channels(), Rings(), Cells()
      ensures Valid() && Delivered(before, woken, done + [p])
    {
      hide Topped, Touches, Fed, RingBuffer.Contents, RingBuffer.Valid, Mux.Valid, IsData;
      TypesAre(p.control);
      Gsm0710Packet(p.dlc, p.control, p.data);
      forall c | Open(c)
        ensures c in before && |before[c]| <= CHANNEL_BUFFER_SIZE
        ensures Contents(c) == Topped(before[c], Fed(done + [p], c))
        ensures Touches(done + [p], c) <==> Touches(done, c) || (p.dlc == c && IsData(p.control))
      {
        TouchesSnoc(done, p, c);
        ToppedSnoc(before[c], done, p, c);
      }
    }

    /** Finds the next packet and hands it out. */
    method NextPacket(off: nat, outside: byte, ghost s: seq<byte>, ghost before: map<byte, seq<byte>>, ghost woken: set<byte>,
                      ghost done: seq<Packet>) returns (nread: nat, found: bool, sound: bool, ghost p: Packet)
      requires Valid() && off <= bufUsed && Delivered(before, woken, done)
      requires FeedBuffer(mode, s, outside) == After(done, FeedBuffer(mode, buf[off..bufUsed], ByteBefore(buf[..], off, outside)))
      modifies this`newdata, buf, Channels(), Rings(), Cells()
      ensures Valid() && off + nread <= bufUsed
      ensures found && sound ==>
        && nread > 0 && Delivered(before, woken, done + [p])
        && FeedBuffer(mode, s, outside) ==
           After(done + [p], FeedBuffer(mode, buf[off + nread..bufUsed], ByteBefore(buf[..], off + nread, outside)))
      ensures !(found && sound) ==>
        && Delivered(before, woken, done)
        && FeedBuffer(mode, s, outside) == Feeding(Demuxed(done, buf[off + nread..bufUsed]), sound)
    {
      hide FeedBuffer, NextOk, After, RingBuffer.Contents, Topped, Fed, Touches;
      ghost var t, b := buf[off..bufUsed], ByteBefore(buf[..], off, outside);
      BufferApart();
      var packet;
      nread, found, sound, packet := ExtractFrame(off, outside);
      FoundNext(mode, s, done, outside, t, b, nread, found, sound, packet);
      p := packet;
      if found && sound {
        DeliverNext(packet, before, woken, done);
      }
    }

    /** Handles every packet in the receive buffer; says how many bytes are done with, and
        whether the program was still within its buffers. */
    method FeedData(outside: byte) returns (total: nat, sound: bool)
      requires Valid()
      modifies this`newdata, buf, Channels(), Rings(), Cells()
      ensures Valid() && total <= bufUsed
      ensures Feeding(Demuxed(FeedBuffer(mode, old(Pending()), outside).found.packets, buf[total..bufUsed]), sound)
              == FeedBuffer(mode, old(Pending()), outside)
      ensures Delivered(old(Snapshot()), old(newdata), FeedBuffer(mode, old(Pending()), outside).found.packets)
    {
      hide FeedBuffer, After, RingBuffer.Contents, Mux.Delivered, Mux.Snapshot, RingBuffer.Valid;
      ghost var done: seq<Packet> := [];
      ghost var s, before, woken := Pending(), Snapshot(), newdata;
      total := 0;
      StartFeeding(mode, s, outside);
      NothingDelivered();
      while true
        invariant Valid() && total <= bufUsed && Delivered(before, woken, done)
        invariant FeedBuffer(mode, s, outside) ==
                  After(done, FeedBuffer(mode, buf[total..bufUsed], ByteBefore(buf[..], total, outside)))
        decreases bufUsed - total
      {
        var nread, found;
        ghost var p;
        nread, found, sound, p := NextPacket(total, outside, s, before, woken, done);
        total := total + nread;
        if !found || !sound {
          break;
        }
        done := done + [p];
      }
    }

    /** One read from the line: the bytes go behind what was kept, packets are handed out,
        and what is left moves to the front. Reading stops for good once the buffer is full.
        If a short frame was taken for a packet the model has nothing to say from there. */
    method ReceivedData(data: seq<byte>, outside: byte) returns (goesOn: bool, sound: bool)
      requires Valid() && Tracked() && !past.astray && |data| <= MUX_BUFFER_SIZE - bufUsed
      modifies this`newdata, this`bufUsed, this`past, buf, Channels(), Rings(), Cells()
      ensures Valid() && Tracked() && past == Arrived(old(past), data, FeedBuffer(mode, old(Pending()) + data, outside), old(Snapshot()))
      ensures sound == FeedBuffer(mode, old(Pending()) + data, outside).sound
      ensures var d := FeedBuffer(mode, old(Pending()) + data, outside).found;
        && Pending() == d.rest
        && (forall c :: Open(c) ==> Contents(c) == Topped(old(Contents(c)), Fed(d.packets, c)))
        && (|data| > 0 ==> forall c :: c in newdata <==> Open(c) && Touches(d.packets, c))
      ensures goesOn <==> |Pending()| < MUX_BUFFER_SIZE
    {
      hide Demux, FeedBuffer, Topped, Fed, Touches, Mux.Snapshot, Mux.Valid, Mux.Tracked, Accounts, Arrived;
      ghost var before, pending, d := Snapshot(), Pending(), FeedBuffer(mode, Pending() + data, outside);
      SnapshotIs();
      SnapshotFits();
      TrackedMeans();
      sound := true;
      if |data| > 0 {
        sound := Absorb(data, outside);
      } else {
        NothingRead(outside);
        assert data == [];
      }
      SnapshotIs();
      AccountsArrived(mode, past, pending, before, data, outside, Snapshot());
      Remember(Arrived(past, data, d, before));
      goesOn := bufUsed != MUX_BUFFER_SIZE;
    }

    /** The history is put down. */
    ghost method Remember(now: History)
      requires Valid() && Accounts(mode, now, Pending(), Snapshot())
      modifies this`past
      ensures Valid() && Tracked() && past == now && Snapshot() == old(Snapshot())
    {
      hide Accounts;
      Replace(now);
    }

    ghost method Replace(now: History)
      requires Valid()
      modifies this`past
      ensures Valid() && past == now && Snapshot() == old(Snapshot())
    {
      hide RingBuffer.Contents, RingBuffer.Valid;
      past := now;
    }

    lemma TrackedMeans()
      requires Valid() && Tracked()
      ensures bufUsed <= buf.Length && Accounts(mode, past, Pending(), Snapshot())
    {
    }

    /** An empty read brings nothing. */
    lemma NothingRead(outside: byte)
      requires Valid() && Tracked() && !past.astray
      ensures FeedBuffer(mode, Pending() + [], outside) == Feeding(Demuxed([], Pending()), true)
      ensures forall c :: Open(c) ==> Contents(c) == Topped(Contents(c), Fed([], c))
    {
      hide RingBuffer.Valid, RingBuffer.Contents, Topped, Fed, Demux, FeedBuffer, Followed;
      RestStays(mode, past.arrived);
      RestFed(mode, Pending(), outside);
      assert Pending() + [] == Pending();
      forall c | Open(c) ensures Contents(c) == Topped(Contents(c), Fed([], c)) {
        NothingFed(Contents(c), c);
      }
    }

    method Absorb(data: seq<byte>, outside: byte) returns (sound: bool)
      requires Valid() && |data| <= MUX_BUFFER_SIZE - bufUsed
      modifies this`newdata, this`bufUsed, buf, Channels(), Rings(), Cells()
      ensures Valid() && sound == FeedBuffer(mode, old(Pending()) + data, outside).sound
      ensures var d := FeedBuffer(mode, old(Pending()) + data, outside).found;
        && Pending() == d.rest
        && (forall c :: Open(c) ==> Contents(c) == Topped(old(Contents(c)), Fed(d.packets, c)))
        && (forall c :: c in newdata <==> Open(c) && Touches(d.packets, c))
    {
      hide FeedBuffer, RingBuffer.Contents, Topped, Fed, Touches;
      CopyIn(data);
      var nread;
      nread, sound := FeedRead(outside);
      Compact(nread);
    }

    method FeedRead(outside: byte) returns (nread: nat, sound: bool)
      requires Valid()
      modifies this`newdata, buf, Channels(), Rings(), Cells()
      ensures Valid() && nread <= bufUsed && sound == FeedBuffer(mode, old(Pending()), outside).sound
      ensures var d := FeedBuffer(mode, old(Pending()), outside).found;
        && buf[nread..bufUsed] == d.rest
        && (forall c :: Open(c) ==> Contents(c) == Topped(old(Contents(c)), Fed(d.packets, c)))
        && (forall c :: c in newdata <==> Open(c) && Touches(d.packets, c))
    {
      hide FeedBuffer, RingBuffer.Contents, Topped, Fed, Touches, Mux.Snapshot, Mux.Delivered;
      newdata := {};
      ghost var s, before := Pending(), Snapshot();
      SnapshotIs();
      nread, sound := FeedData(outside);
      DeliveredMeans(before, {}, FeedBuffer(mode, s, outside).found.packets);
    }

    lemma {:induction false} DeliveredMeans(before: map<byte, seq<byte>>, woken: set<byte>, done: seq<Packet>)
      requires Valid() && Delivered(before, woken, done)
      ensures forall c :: Open(c) ==> c in before && |before[c]| <= CHANNEL_BUFFER_SIZE
                                      && Contents(c) == Topped(before[c], Fed(done, c))
      ensures forall c :: c in newdata <==> c in woken || (Open(c) && Touches(done, c))
    {
    }

    method CopyIn(data: seq<byte>)
      requires Valid() && |data| <= MUX_BUFFER_SIZE - bufUsed
      modifies this`bufUsed, buf
      ensures Valid() && Pending() == old(Pending()) + data
    {
      hide RingBuffer.Valid;
      forall i | 0 <= i < |data| {
        buf[bufUsed + i] := data[i];
      }
      bufUsed := bufUsed + |data|;
    }

    method Compact(nread: nat)
      requires Valid() && nread <= bufUsed
      modifies this`bufUsed, buf
      ensures Valid() && Pending() == old(buf[nread..bufUsed])
    {
      hide RingBuffer.Valid;
      forall i | 0 <= i < bufUsed - nread {
        buf[i] := buf[nread + i];
      }
      bufUsed := bufUsed - nread;
    }

    /** One frame to the line. */
    method WriteFrame(dlc: byte, control: byte, data: seq<byte>)
      requires dlc <= 63 && |data| <= frameSize <= MAX_INFO
      modifies this`output
      ensures output == old(output) + Frame(mode, Packet(dlc, control, data))
    {
      hide BasicFrame, AdvancedFrame;
      var frame := new byte[if mode.Basic? then frameSize + 7 else frameSize * 2 + 7](_ => 0);
      var size;
      if mode.Basic? {
        size := BasicFill(frame, dlc, control, data);
      } else {
        size := AdvancedFill(frame, dlc, control, data);
      }
      output := output + frame[..size];
    }

    /** A write to a channel goes out in frames of at most the negotiated size. */
    method ChannelWrite(dlc: byte, data: seq<byte>)
      requires 0 < frameSize <= MAX_INFO && dlc <= 63
      modifies this`output
      ensures output == old(output) + Stream(mode, PacketsOf(frameSize, Write(dlc, 0xef, data)))
    {
      hide Frame, Stream, Fragments;
      ghost var out := output;
      var left := data;
      assert output + Stream(mode, Fragments(frameSize, dlc, DATA, left)) == out + Stream(mode, Fragments(frameSize, dlc, DATA, data));
      while |left| > 0
        invariant output + Stream(mode, Fragments(frameSize, dlc, DATA, left)) == out + Stream(mode, Fragments(frameSize, dlc, DATA, data))
        decreases |left|
      {
        var max := Min(|left|, frameSize);
        FirstFragment(mode, frameSize, dlc, left);
        WriteFrame(dlc, DATA, left[..max]);
        left := left[max..];
      }
      NoFragments(mode, frameSize, dlc, left);
      assert output + [] == output;
    }

    /** The owner of a channel takes bytes out of its buffer. */
    method ChannelRead(dlc: byte, count: nat) returns (data: seq<byte>)
      requires Valid() && Tracked() && Open(dlc)
      modifies this`past, Channels(), Rings()
      ensures Valid() && Tracked() && data + Contents(dlc) == old(Contents(dlc)) && |data| <= count
      ensures forall d :: Open(d) && d != dlc ==> Contents(d) == old(Contents(d))
      ensures |data| == 0 <==> count == 0 || |old(Contents(dlc))| == 0
      ensures past == ReadOut(old(past), dlc, data)
    {
      hide Demux, Fed, Followed, Mux.Snapshot, Mux.Tracked, Mux.Valid, Accounts, ReadOut;
      ghost var before := Snapshot();
      SnapshotIs();
      TrackedMeans();
      data := TakeFrom(dlc, count);
      SnapshotIs();
      AccountsTaken(mode, past, Pending(), before, Snapshot(), dlc, data);
      Remember(ReadOut(past, dlc, data));
    }

    method TakeFrom(dlc: byte, count: nat) returns (data: seq<byte>)
      requires Valid() && Open(dlc)
      modifies Channels(), Rings()
      ensures Valid() && data + Contents(dlc) == old(Contents(dlc)) && |data| <= count
      ensures forall d :: Open(d) && d != dlc ==> Contents(d) == old(Contents(d))
      ensures |data| == 0 <==> count == 0 || |old(Contents(dlc))| == 0
    {
      hide RingBuffer.Valid, RingBuffer.Contents;
      data := dlcs[dlc - 1].Give(count);
    }

    /** The first channel nobody has opened, if there is one. */
    method FirstFree() returns (i: nat)
      requires Valid() && Tracked()
      ensures Valid() && Tracked() && i <= MAX_CHANNELS && (i < MAX_CHANNELS ==> dlcs[i] == null)
      ensures forall j :: 0 <= j < i ==> dlcs[j] != null
    {
      hide RingBuffer.Valid, RingBuffer.Contents, Accounts;
      i := 0;
      while i < MAX_CHANNELS && dlcs[i] != null
        invariant i <= MAX_CHANNELS && forall j :: 0 <= j < i ==> dlcs[j] != null
      {
        i := i + 1;
      }
    }

    /** The first free channel, announced to the peer; nothing when all are taken. */
    method CreateChannel() returns (channel: Channel?)
      requires Valid() && Tracked()
      modifies this`dlcs, this`output, this`past
      ensures Valid() && Tracked()
      ensures channel == null ==>
        dlcs == old(dlcs) && output == old(output) && past == old(past) && forall i :: 0 <= i < |dlcs| ==> dlcs[i] != null
      ensures channel != null ==>
        && fresh(channel) && 1 <= channel.dlc <= 61 == |dlcs| && old(dlcs)[channel.dlc - 1] == null
        && (forall i :: 0 <= i < channel.dlc - 1 ==> old(dlcs)[i] != null)
        && dlcs == old(dlcs)[channel.dlc - 1 := channel] && channel.held == []
        && output == old(output) + Frame(mode, Packet(channel.dlc, 0x3f, []))
        && past == Opened(old(past), channel.dlc)
    {
      hide Frame, Mux.Tracked, Mux.Valid, Opened;
      var i := FirstFree();
      if i == MAX_CHANNELS {
        return null;
      }
      channel := OpenAt(i);
    }

    method OpenAt(i: nat) returns (channel: Channel)
      requires Valid() && Tracked() && i < MAX_CHANNELS && dlcs[i] == null
      modifies this`dlcs, this`output, this`past
      ensures Valid() && Tracked() && fresh(channel) && channel.dlc == i + 1 && channel.held == [] && dlcs == old(dlcs)[i := channel]
      ensures output == old(output) + Frame(mode, Packet(i + 1, OPEN_CHANNEL, [])) && past == Opened(old(past), i + 1)
    {
      hide Frame, Mux.Snapshot, Mux.Tracked, Mux.Valid, Accounts, Opened;
      ghost var before := Snapshot();
      SnapshotIs();
      TrackedMeans();
      channel := AddChannel(i);
      SnapshotIs();
      AccountsOpened(mode, past, Pending(), before, Snapshot(), i + 1);
      Remember(Opened(past, i + 1));
    }

    method AddChannel(i: nat) returns (channel: Channel)
      requires Valid() && i < MAX_CHANNELS && dlcs[i] == null
      modifies this`dlcs, this`output
      ensures Valid() && fresh(channel) && channel.dlc == i + 1 && channel.held == [] && dlcs == old(dlcs)[i := channel]
      ensures output == old(output) + Frame(mode, Packet(i + 1, OPEN_CHANNEL, []))
      ensures forall d :: Open(d) && d != i + 1 ==> old(Open(d)) && Contents(d) == old(Contents(d))
    {
      hide RingBuffer.Contents, Frame;
      WriteFrame(i + 1, OPEN_CHANNEL, []);
      channel := NewChannel(i + 1);
      dlcs := dlcs[i := channel];
    }

    static method NewChannel(dlc: nat) returns (channel: Channel)
      ensures fresh(channel) && fresh(channel.buffer) && fresh(channel.buffer.buffer)
      ensures channel.dlc == dlc && channel.buffer.Valid() && channel.buffer.size == CHANNEL_BUFFER_SIZE
      ensures channel.held == [] == channel.buffer.Contents()
    {
      hide RingArithmetic.IsPow2, RingArithmetic.Sub32, Ring;
      var rb := RingBuffer.New(CHANNEL_BUFFER_SIZE);
      RingArithmetic.KnownPowers();
      channel := new Channel(dlc, rb);
    }

    method CloseChannel(dlc: byte)
      requires Valid() && Tracked() && Open(dlc)
      modifies this`dlcs, this`output, this`past
      ensures Valid() && Tracked() && dlcs == old(dlcs)[dlc - 1 := null] && past == old(past)
      ensures output == old(output) + Frame(mode, Packet(dlc, 0x53, []))
      ensures forall d :: Open(d) <==> old(Open(d)) && d != dlc
    {
      hide Frame, Mux.Snapshot, Mux.Tracked, Mux.Valid, Accounts;
      ghost var before := Snapshot();
      SnapshotIs();
      TrackedMeans();
      RemoveChannel(dlc);
      SnapshotIs();
      AccountsFewer(mode, past, Pending(), before, Snapshot());
      Remember(past);
    }

    method RemoveChannel(dlc: byte)
      requires Valid() && Open(dlc)
      modifies this`dlcs, this`output
      ensures Valid() && dlcs == old(dlcs)[dlc - 1 := null]
      ensures output == old(output) + Frame(mode, Packet(dlc, CLOSE_CHANNEL, []))
      ensures forall d :: Open(d) <==> old(Open(d)) && d != dlc
      ensures forall d :: Open(d) ==> Contents(d) == old(Contents(d))
    {
      hide Frame, RingBuffer.Contents, RingBuffer.Valid;
      WriteFrame(dlc, CLOSE_CHANNEL, []);
      dlcs := dlcs[dlc - 1 := null];
    }

    // ---- End to end ----

    /** A channel open since before the first packet whose buffer was never too full: what its
        owner has read and what waits is a prefix of what the peer wrote to it, and all of it
        once the peer's whole stream has been read. */
    lemma {:induction false} ChannelServed(size: nat, ops: seq<Op>, dlc: byte)
      requires Valid() && Tracked() && !past.astray && Open(dlc)
      requires 0 < size <= MAX_INFO && forall i :: 0 <= i < |ops| ==> Legal(ops[i])
      requires past.arrived <= Stream(mode, AllPackets(size, ops))
      ensures dlc in past.since && dlc in past.taken
      ensures past.since[dlc] == 0 && dlc !in past.lost ==>
        && past.taken[dlc] + Contents(dlc) <= Written(ops, dlc)
        && (past.arrived == Stream(mode, AllPackets(size, ops)) ==> past.taken[dlc] + Contents(dlc) == Written(ops, dlc))
    {
      hide Demux, Fed, Stream, AllPackets, Written, Legal, RingBuffer.Valid;
      SnapshotIs();
      assert past.since[dlc] == 0 ==> past.handed[past.since[dlc]..] == past.handed;
      StreamServed(mode, size, ops, past.arrived, dlc);
    }

    /** One more read of a peer's stream: never a short frame; the buffer stays open if every
        frame fits it; and a frame that does not fit is never read to its end. */
    lemma {:induction false} PeerRead(ps: seq<Packet>, data: seq<byte>, outside: byte)
      requires Valid() && Tracked() && !past.astray && |data| <= MUX_BUFFER_SIZE - bufUsed
      requires AllSendable(ps) && past.arrived + data <= Stream(mode, ps)
      ensures FeedBuffer(mode, Pending() + data, outside).sound
      ensures FramesWithin(mode, ps, MUX_BUFFER_SIZE) ==>
              |FeedBuffer(mode, Pending() + data, outside).found.rest| < MUX_BUFFER_SIZE
      ensures forall j :: 0 <= j < |ps| && |Frame(mode, ps[j])| > MUX_BUFFER_SIZE && |past.arrived| < EndOf(mode, ps, j) ==>
              |past.arrived| + |data| < EndOf(mode, ps, j)
    {
      hide Demux, Followed, Stream, Frame, FeedBuffer, RingBuffer.Valid, EndOf;
      ReadOn(mode, ps, past.arrived, data, outside);
      if FramesWithin(mode, ps, MUX_BUFFER_SIZE) {
        KeptIsShort(mode, [], ps, past.arrived + data, MUX_BUFFER_SIZE);
        assert [] + (past.arrived + data) == past.arrived + data;
      }
      forall j | 0 <= j < |ps| && |Frame(mode, ps[j])| > MUX_BUFFER_SIZE && |past.arrived| < EndOf(mode, ps, j)
        ensures |past.arrived| + |data| < EndOf(mode, ps, j)
      {
        ReadStopsShort(mode, ps, j, past.arrived, data);
      }
    }
  }

  lemma NoWrapPositive(rb: RingBuffer)
    requires rb.Valid()
    ensures rb.LenNoWrap() <= rb.Len() && (rb.LenNoWrap() == 0 <==> rb.Len() == 0)
  {
    rb.NoWrapIs();
  }

  lemma {:induction false} FirstFragment(mode: Mode, size: nat, dlc: byte, data: seq<byte>)
    requires 0 < size <= MAX_INFO && dlc <= 63 && |data| > 0
    ensures var max := Min(|data|, size);
      Stream(mode, Fragments(size, dlc, DATA, data)) ==
      Frame(mode, Packet(dlc, DATA, data[..max])) + Stream(mode, Fragments(size, dlc, DATA, data[max..]))
  {
    hide Frame;
    var ps := Fragments(size, dlc, DATA, data);
    if |data| > size {
      assert ps[1..] == Fragments(size, dlc, DATA, data[size..]);
    } else {
      assert data[..|data|] == data && data[|data|..] == [] && ps[1..] == [];
    }
  }

  lemma {:induction false} NoFragments(mode: Mode, size: nat, dlc: byte, data: seq<byte>)
    requires 0 < size <= MAX_INFO && dlc <= 63 && |data| == 0
    ensures Stream(mode, Fragments(size, dlc, DATA, data)) == []
  {
  }

  lemma {:induction false} NothingFed(held: seq<byte>, dlc: byte)
    ensures Topped(held, Fed([], dlc)) == held
  {
    if |held| <= CHANNEL_BUFFER_SIZE {
      ToppedTwice(held, [], []);
    }
  }

  lemma TailAgain(b: seq<byte>, off: nat, nread: nat, end: nat)
    requires off + nread <= end <= |b|
    ensures b[off + nread..end] == b[off..end][nread..]
  {
  }

  // ---- What became of the data ----

  /** The packets found in part of a stream, channel by channel. */
  lemma {:induction false} StreamServed(mode: Mode, size: nat, ops: seq<Op>, got: seq<byte>, dlc: byte)
    requires 0 < size <= MAX_INFO && forall i :: 0 <= i < |ops| ==> Legal(ops[i])
    requires got <= Stream(mode, AllPackets(size, ops))
    ensures Fed(Demux(mode, got).packets, dlc) <= Written(ops, dlc)
    ensures got == Stream(mode, AllPackets(size, ops)) ==> Fed(Demux(mode, got).packets, dlc) == Written(ops, dlc)
  {
    hide Demux, Fed, Stream, AllPackets, Written, Legal, FeedReads;
    OneChunk(got);
    ChannelsPreserved(mode, size, ops, [got], 0, dlc);
    PeerFed(mode, AllPackets(size, ops), [got], 0);
  }

  lemma {:induction false} OneChunk(got: seq<byte>)
    ensures HdlcCodec.Flatten([got]) == got
  {
    assert [got][1..] == [] && got + [] == got;
  }

  /** For the channels held: all data sent to one since it was opened has been read by its
      owner or still waits, unless its buffer was too full at some time. */
  ghost predicate Followed(handed: seq<Packet>, since: map<byte, nat>, taken: map<byte, seq<byte>>, lost: set<byte>,
                           held: map<byte, seq<byte>>)
  {
    forall c :: c in held ==>
      && c in since && c in taken && since[c] <= |handed|
      && (c !in lost ==> taken[c] + held[c] == Fed(handed[since[c]..], c))
  }

  /** Every channel took as much as it had room for. */
  ghost predicate AllTopped(before: map<byte, seq<byte>>, ps: seq<Packet>, held: map<byte, seq<byte>>) {
    forall c :: c in held ==> c in before && |before[c]| <= CHANNEL_BUFFER_SIZE && held[c] == Topped(before[c], Fed(ps, c))
  }

  /** The channels that had too little room. */
  ghost function Overfull(before: map<byte, seq<byte>>, ps: seq<Packet>): set<byte> {
    set c | c in before && |before[c]| + |Fed(ps, c)| > CHANNEL_BUFFER_SIZE
  }

  const NO_HISTORY: History := History([], [], false, map[], map[], {})

  /** The history agrees with the bytes kept and with what the channels hold. */
  ghost predicate Accounts(mode: Mode, h: History, pending: seq<byte>, held: map<byte, seq<byte>>) {
    !h.astray ==>
      && Demux(mode, h.arrived) == Demuxed(h.handed, pending)
      && Followed(h.handed, h.since, h.taken, h.lost, held)
  }

  ghost function Arrived(h: History, data: seq<byte>, d: Feeding, before: map<byte, seq<byte>>): History {
    h.(arrived := h.arrived + data, handed := h.handed + d.found.packets, astray := h.astray || !d.sound,
       lost := h.lost + Overfull(before, d.found.packets))
  }

  ghost function ReadOut(h: History, dlc: byte, data: seq<byte>): History {
    h.(taken := h.taken[dlc := (if dlc in h.taken then h.taken[dlc] else []) + data])
  }

  ghost function Opened(h: History, dlc: byte): History {
    h.(since := h.since[dlc := |h.handed|], taken := h.taken[dlc := []], lost := h.lost - {dlc})
  }

  lemma {:induction false} AccountsArrived(mode: Mode, h: History, pending: seq<byte>, before: map<byte, seq<byte>>, data: seq<byte>,
                                           outside: byte, held: map<byte, seq<byte>>)
    requires Accounts(mode, h, pending, before)
    requires AllTopped(before, FeedBuffer(mode, pending + data, outside).found.packets, held)
    ensures var d := FeedBuffer(mode, pending + data, outside); Accounts(mode, Arrived(h, data, d, before), d.found.rest, held)
  {
    hide Demux, FeedBuffer, Followed, AllTopped, Overfull;
    if !h.astray {
      var d := FeedBuffer(mode, pending + data, outside);
      ReadFollows(mode, h.arrived, h.handed, pending, data, outside);
      FollowedOn(h.handed, d.found.packets, h.since, h.taken, h.lost, before, held);
    }
  }

  lemma {:induction false} AccountsTaken(mode: Mode, h: History, pending: seq<byte>, before: map<byte, seq<byte>>,
                                         held: map<byte, seq<byte>>, dlc: byte, data: seq<byte>)
    requires Accounts(mode, h, pending, before) && dlc in before
    requires forall c :: c in held ==> c in before && before[c] == if c == dlc then data + held[c] else held[c]
    ensures Accounts(mode, ReadOut(h, dlc, data), pending, held)
  {
    hide Demux, Followed;
    if !h.astray {
      FollowedTake(h.handed, h.since, h.taken, h.lost, before, held, dlc, data);
    }
  }

  lemma {:induction false} AccountsOpened(mode: Mode, h: History, pending: seq<byte>, before: map<byte, seq<byte>>,
                                          held: map<byte, seq<byte>>, dlc: byte)
    requires Accounts(mode, h, pending, before)
    requires forall c :: c in held ==> if c == dlc then held[c] == [] else c in before && before[c] == held[c]
    ensures Accounts(mode, Opened(h, dlc), pending, held)
  {
    hide Demux, Followed;
    if !h.astray {
      FollowedNew(h.handed, h.since, h.taken, h.lost, before, held, dlc);
    }
  }

  lemma {:induction false} AccountsFewer(mode: Mode, h: History, pending: seq<byte>, before: map<byte, seq<byte>>,
                                         held: map<byte, seq<byte>>)
    requires Accounts(mode, h, pending, before)
    requires forall c :: c in held ==> c in before && before[c] == held[c]
    ensures Accounts(mode, h, pending, held)
  {
    hide Demux, Fed;
  }

  lemma {:induction false} FollowedOn(handed: seq<Packet>, ps: seq<Packet>, since: map<byte, nat>, taken: map<byte, seq<byte>>,
                                      lost: set<byte>, before: map<byte, seq<byte>>, held: map<byte, seq<byte>>)
    requires Followed(handed, since, taken, lost, before) && AllTopped(before, ps, held)
    ensures Followed(handed + ps, since, taken, lost + Overfull(before, ps), held)
  {
    hide Fed, Topped;
    forall c | c in held && c !in lost + Overfull(before, ps)
      ensures taken[c] + held[c] == Fed((handed + ps)[since[c]..], c)
    {
      ChannelFollowed(handed, ps, since[c], taken[c], before[c], c);
    }
  }

  lemma {:induction false} ChannelFollowed(handed: seq<Packet>, ps: seq<Packet>, since: nat, taken: seq<byte>, held: seq<byte>, dlc: byte)
    requires since <= |handed| && taken + held == Fed(handed[since..], dlc)
    requires |held| + |Fed(ps, dlc)| <= CHANNEL_BUFFER_SIZE
    ensures taken + Topped(held, Fed(ps, dlc)) == Fed((handed + ps)[since..], dlc)
  {
    hide Fed;
    assert (handed + ps)[since..] == handed[since..] + ps;
    FedAppend(handed[since..], ps, dlc);
    ToppedWhole(held, Fed(ps, dlc));
    assert taken + (held + Fed(ps, dlc)) == (taken + held) + Fed(ps, dlc);
  }

  lemma {:induction false} FollowedTake(handed: seq<Packet>, since: map<byte, nat>, taken: map<byte, seq<byte>>, lost: set<byte>,
                                        before: map<byte, seq<byte>>, held: map<byte, seq<byte>>, dlc: byte, data: seq<byte>)
    requires Followed(handed, since, taken, lost, before) && dlc in before
    requires forall c :: c in held ==> c in before && before[c] == if c == dlc then data + held[c] else held[c]
    ensures dlc in taken && Followed(handed, since, taken[dlc := taken[dlc] + data], lost, held)
  {
    hide Fed;
    if dlc in held {
      assert taken[dlc] + (data + held[dlc]) == (taken[dlc] + data) + held[dlc];
    }
  }

  lemma {:induction false} FollowedNew(handed: seq<Packet>, since: map<byte, nat>, taken: map<byte, seq<byte>>, lost: set<byte>,
                                       before: map<byte, seq<byte>>, held: map<byte, seq<byte>>, dlc: byte)
    requires Followed(handed, since, taken, lost, before)
    requires forall c :: c in held ==> if c == dlc then held[c] == [] else c in before && before[c] == held[c]
    ensures Followed(handed, since[dlc := |handed|], taken[dlc := []], lost - {dlc}, held)
  {
    NothingFedYet(handed, dlc);
    hide Fed;
  }

  lemma {:induction false} NothingFedYet(handed: seq<Packet>, dlc: byte)
    ensures Fed(handed[|handed|..], dlc) == []
  {
  }

  /** One more read of the stream. */
  lemma {:induction false} ReadFollows(mode: Mode, arrived: seq<byte>, handed: seq<Packet>, pending: seq<byte>, data: seq<byte>, outside: byte)
    requires Demux(mode, arrived) == Demuxed(handed, pending)
    ensures var d := FeedBuffer(mode, pending + data, outside);
      d.sound ==> Demux(mode, arrived + data) == Demuxed(handed + d.found.packets, d.found.rest)
  {
    hide AdvancedDemux, BasicDemux, FeedAdvanced;
    ReadBoundaryIrrelevant(mode, arrived, data);
    FeedingIs(pending + data, outside);
  }

  /** What was kept after a read has no packet in it. */
  lemma {:induction false} RestFed(mode: Mode, s: seq<byte>, before: byte)
    requires Demux(mode, s) == Demuxed([], s)
    ensures FeedBuffer(mode, s, before) == Feeding(Demuxed([], s), true)
  {
    hide BasicDemux, AdvancedGood, AdvancedPacket, Segment;
    if mode.Advanced? && |s| > 0 {
      RestIsTail(mode, s[1..]);
      if !AdvancedSkips(s) && !AdvancedWaits(s) {
        RestIsTail(mode, s[AdvancedSize(s)..]);
      }
      assert s[0..] == s;
    }
  }

  /** Packets handed out before those still in the buffer. */
  function After(done: seq<Packet>, r: Feeding): Feeding {
    Feeding(Then(Demuxed(done, []), r.found), r.sound)
  }

  lemma StartFeeding(mode: Mode, s: seq<byte>, before: byte)
    ensures FeedBuffer(mode, s, before) == After([], FeedBuffer(mode, s[0..], before)) && s[0..] == s
  {
    hide FeedBuffer;
    assert s[0..] == s;
  }

  /** What one extraction from a buffer has to do with everything in it. */
  ghost predicate NextOk(mode: Mode, s: seq<byte>, before: byte, nread: nat, found: bool, sound: bool, p: Packet) {
    && nread <= |s|
    && if found && sound then
         nread > 0 && var r := FeedBuffer(mode, s[nread..], s[nread - 1]);
         FeedBuffer(mode, s, before) == Feeding(Prepend(p, r.found), r.sound)
       else FeedBuffer(mode, s, before) == Feeding(Demuxed([], s[nread..]), sound)
  }

  lemma BasicNext(s: seq<byte>, before: byte, nread: nat, found: bool, p: Packet)
    requires Extracted(Basic, s, nread, found, p)
    ensures NextOk(Basic, s, before, nread, found, true, p) && nread <= |s| && (found ==> nread > 0)
  {
    hide BasicDemux;
  }

  lemma {:induction false} AdvancedNext(s: seq<byte>, before: byte, nread: nat, found: bool, dlc: byte, control: byte, n: int, p: Packet)
    requires nread <= |s| && (found && n >= 0 ==> p == Packet(dlc, control, p.data))
    requires Extract(s, 0, FrontOf(before, s)) == AsFound(nread, found, dlc, control, n, if found && n >= 0 then p.data else [])
    ensures NextOk(Advanced, s, before, nread, found, found ==> n >= 0, p)
  {
    hide Extract, FrontOf;
  }

  lemma UntouchedTail(b0: seq<byte>, b: seq<byte>, off: nat, nread: nat, found: bool, len: nat)
    requires (found ==> nread > 0) && nread <= len && off + len <= |b0|
    requires Untouched(b0, b, off, off + if found then nread - 1 else nread)
    ensures |b| == |b0| && b[off + nread..off + len] == b0[off..off + len][nread..]
    ensures found ==> b[off + nread - 1] == b0[off..off + len][nread - 1]
  {
  }

  /** One more step of the loop that hands out packets. */
  lemma FoundNext(mode: Mode, s: seq<byte>, done: seq<Packet>, outside: byte, t: seq<byte>, before: byte,
                  nread: nat, found: bool, sound: bool, p: Packet)
    requires NextOk(mode, t, before, nread, found, sound, p)
    requires FeedBuffer(mode, s, outside) == After(done, FeedBuffer(mode, t, before))
    ensures nread <= |t|
    ensures found && sound ==>
      && nread > 0
      && FeedBuffer(mode, s, outside) == After(done + [p], FeedBuffer(mode, t[nread..], t[nread - 1]))
    ensures !(found && sound) ==> FeedBuffer(mode, s, outside) == Feeding(Demuxed(done, t[nread..]), sound)
  {
    hide FeedBuffer;
  }
}
