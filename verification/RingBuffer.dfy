/** Arithmetic of a power-of-two ring addressed by two wrapping 32-bit counters. */
module RingArithmetic {
  import opened Bytes

  ghost predicate IsPow2(n: nat)
    decreases n
  {
    n == 1 || (n > 1 && n % 2 == 0 && IsPow2(n / 2))
  }

  /** Bitwise conjunction of two non-negative numbers. */
  function BitAnd(x: nat, y: nat): (r: nat)
    ensures r <= y
    decreases x
  {
    if x == 0 || y == 0 then 0
    else (if x % 2 == 1 && y % 2 == 1 then 1 else 0) + 2 * BitAnd(x / 2, y / 2)
  }

  function Sub32(a: uint32, b: uint32): uint32 {
    (a - b) % TWO32
  }

  function Add32(a: uint32, b: uint32): uint32 {
    (a + b) % TWO32
  }

  /** An index that runs at most once past the end of an array of n cells. */
  function Wrap(i: nat, n: nat): nat
    requires i < 2 * n
  {
    if i < n then i else i - n
  }

  lemma MulAway(d: int, n: int)
    requires n > 0
    ensures d >= 1 ==> d * n >= n
    ensures d <= -1 ==> d * n <= -n
  {
  }

  lemma ModUnique(x: int, n: int, q: int, r: int)
    requires n > 0 && 0 <= r < n && x == q * n + r
    ensures x % n == r
  {
    var d := x / n - q;
    assert d * n == r - x % n by {
      assert x == (x / n) * n + x % n;
      assert (x / n - q) * n == (x / n) * n - q * n;
    }
    MulAway(d, n);
  }

  lemma HalveMod(x: nat, m: nat)
    requires m > 0
    ensures x % (2 * m) == x % 2 + 2 * ((x / 2) % m)
  {
    var q, r := (x / 2) / m, (x / 2) % m;
    assert x / 2 == q * m + r;
    assert x == q * (2 * m) + (x % 2 + 2 * r) by {
      assert x == 2 * (x / 2) + x % 2;
      assert 2 * (q * m) == q * (2 * m);
    }
    ModUnique(x, 2 * m, q, x % 2 + 2 * r);
  }

  /** Masking with a power of two less one is the remainder. */
  lemma {:induction false} MaskIsMod(x: nat, n: nat)
    requires IsPow2(n)
    ensures BitAnd(x, n - 1) == x % n
    decreases n
  {
    if n > 1 {
      var m := n / 2;
      assert n == 2 * m && (n - 1) / 2 == m - 1 && (n - 1) % 2 == 1;
      MaskIsMod(x / 2, m);
      HalveMod(x, m);
      if x == 0 {
        ModUnique(0, n, 0, 0);
      }
    }
  }

  lemma {:induction false} Pow2Divides(n: nat, big: nat)
    requires IsPow2(n) && IsPow2(big) && n <= big
    ensures big % n == 0
    decreases n
  {
    if n > 1 {
      Pow2Divides(n / 2, big / 2);
      HalveMod(big, n / 2);
    }
  }

  lemma {:induction false} Power2IsPow2(k: nat)
    ensures IsPow2(Power2(k))
  {
    if k > 0 {
      Power2IsPow2(k - 1);
    }
  }

  lemma KnownPowers()
    ensures IsPow2(TWO32) && IsPow2(262144) && IsPow2(4096)
  {
    assert Power2(12) == 4096;
    assert Power2(18) == 262144;
    assert Power2(25) == 0x200_0000;
    assert Power2(32) == TWO32;
    Power2IsPow2(32);
    Power2IsPow2(18);
    Power2IsPow2(12);
  }

  lemma ModOfMod(x: nat, n: nat, big: nat)
    requires n > 0 && big > 0 && big % n == 0
    ensures (x % big) % n == x % n
  {
    var k, q := big / n, x / big;
    assert big == k * n;
    var r := (x % big) % n;
    var p := (x % big) / n;
    assert x % big == p * n + r;
    assert x == (q * k + p) * n + r by {
      assert x == q * big + x % big;
      assert q * big == (q * k) * n;
    }
    ModUnique(x, n, q * k + p, r);
  }

  lemma StepMod(x: nat, i: nat, n: nat)
    requires n > 0 && i <= n
    ensures (x + i) % n == Wrap(x % n + i, n)
  {
    var q, r := x / n, x % n;
    assert x == q * n + r;
    if r + i < n {
      ModUnique(x + i, n, q, r + i);
    } else {
      assert x + i == (q + 1) * n + (r + i - n);
      ModUnique(x + i, n, q + 1, r + i - n);
    }
  }

  /** The cell `off` places after a counter, 32-bit overflow included. */
  lemma SlotAfter(base: uint32, off: nat, n: nat)
    requires IsPow2(n) && n <= TWO32 && off <= n
    ensures BitAnd((base + off) % TWO32, n - 1) == Wrap(base % n + off, n)
    ensures ((base + off) % TWO32) % n == Wrap(base % n + off, n)
  {
    MaskIsMod((base + off) % TWO32, n);
    KnownPowers();
    Pow2Divides(n, TWO32);
    ModOfMod(base + off, n, TWO32);
    StepMod(base, off, n);
  }

  lemma CounterAhead(hi: uint32, lo: uint32)
    ensures hi == (lo + Sub32(hi, lo)) % TWO32
  {
  }
}

/** A bounded byte queue in a fixed array. Counters run freely modulo 2^32. */
module RingBuffers {
  import opened Bytes
  import opened RingArithmetic

  const MAX_SIZE: nat := 262144

  /** The n cells of a ring from cell `start`, in order. */
  function Ring(cells: seq<byte>, start: nat, n: nat): (s: seq<byte>)
    requires start < |cells| && n <= |cells|
    ensures |s| == n
  {
    seq(n, (i: nat) requires i < n => cells[Wrap(start + i, |cells|)])
  }

  function Min(a: nat, b: nat): nat {
    if a < b then a else b
  }

  lemma {:induction false} Doubling(n: nat)
    requires IsPow2(n) && n < MAX_SIZE
    ensures IsPow2(n * 2) && n * 2 <= MAX_SIZE
  {
    if n * 2 > MAX_SIZE {
      KnownPowers();
      NoPow2Between(n, MAX_SIZE);
    }
  }

  /** A smaller power of two is at most half of a larger one. */
  lemma {:induction false} NoPow2Between(p: nat, n: nat)
    requires IsPow2(p) && IsPow2(n) && p < n
    ensures p <= n / 2
    decreases p
  {
    if p > 1 {
      NoPow2Between(p / 2, n / 2);
    }
  }

  class RingBuffer {
    const buffer: array<byte>
    const size: nat
    const mask: nat
    var inp: uint32
    var out: uint32

    ghost predicate Valid()
      reads this
    {
      && IsPow2(size) && size <= MAX_SIZE
      && mask == size - 1 && buffer.Length == size
      && Sub32(inp, out) <= size
    }

    function Len(): nat
      reads this
    {
      Sub32(inp, out)
    }

    function Avail(): (n: nat)
      requires Valid()
      reads this
      ensures n <= size
    {
      size - Sub32(inp, out)
    }

    /** The queued bytes, oldest first. */
    ghost function Contents(): (s: seq<byte>)
      requires Valid()
      reads this, buffer
      ensures |s| == Len()
    {
      Ring(buffer[..], out % size, Len())
    }

    /** The first n free cells after the queued bytes. */
    ghost function Pending(n: nat): (s: seq<byte>)
      requires Valid() && n <= Avail()
      reads this, buffer
      ensures |s| == n
    {
      Ring(buffer[..], inp % size, n)
    }

    constructor Sized(realSize: nat)
      requires IsPow2(realSize) && realSize <= MAX_SIZE
      ensures Valid() && size == realSize && Contents() == []
      ensures inp == 0 && out == 0 && fresh(buffer)
    {
      size := realSize;
      mask := realSize - 1;
      buffer := new byte[realSize](_ => 0);
      inp := 0;
      out := 0;
    }

    /** The capacity is the least power of two that holds the wanted size, capped at MAX_SIZE. */
    static method New(wanted: uint32) returns (r: RingBuffer)
      ensures r.Valid() && r.Contents() == [] && fresh(r) && fresh(r.buffer)
      ensures r.inp == 0 && r.out == 0
      ensures IsPow2(r.size) && r.size >= Min(wanted, 262144)
      ensures forall p: nat :: IsPow2(p) && p >= Min(wanted, 262144) ==> r.size <= p
    {
      var realSize := 1;
      while realSize < wanted && realSize < MAX_SIZE
        invariant IsPow2(realSize) && realSize <= MAX_SIZE
        invariant realSize == 1 || realSize / 2 < Min(wanted, MAX_SIZE)
      {
        Doubling(realSize);
        realSize := realSize * 2;
      }
      forall p: nat | IsPow2(p) && p >= Min(wanted, MAX_SIZE)
        ensures realSize <= p
      {
        if p < realSize {
          NoPow2Between(p, realSize);
        }
      }
      r := new RingBuffer.Sized(realSize);
    }

    function WritePtr(offset: nat): nat
      reads this
    {
      BitAnd((inp + offset) % TWO32, mask)
    }

    function ReadPtr(offset: nat): nat
      reads this
    {
      BitAnd((out + offset) % TWO32, mask)
    }

    lemma PointersWrap(offset: nat)
      requires Valid() && offset <= size
      ensures WritePtr(offset) == Wrap(inp % size + offset, size)
      ensures ReadPtr(offset) == Wrap(out % size + offset, size)
    {
      hide BitAnd, IsPow2, Wrap, Sub32;
      SlotAfter(inp, offset, size);
      SlotAfter(out, offset, size);
    }

    /** The free cells begin where the queued bytes end. */
    lemma WriteFollowsRead()
      requires Valid()
      ensures inp % size == Wrap(out % size + Len(), size)
    {
      KnownPowers();
      SlotAfter(out, Len(), size);
      CounterAhead(inp, out);
    }

    function LenNoWrap(): nat
      requires Valid()
      reads this
    {
      Min(Len(), size - BitAnd(out, mask))
    }

    function AvailNoWrap(): nat
      requires Valid()
      reads this
    {
      Min(Avail(), size - BitAnd(inp, mask))
    }

    lemma NoWrapIs()
      requires Valid()
      ensures LenNoWrap() == Min(Len(), size - out % size)
      ensures AvailNoWrap() == Min(Avail(), size - inp % size)
    {
      MaskIsMod(out, size);
      MaskIsMod(inp, size);
    }

    /** The read pointer stands on the cell of queued byte number `pos`. */
    ghost predicate ReadsAt(buf: nat, pos: nat)
      requires Valid()
      reads this
    {
      pos <= Len() && buf == Wrap(out % size + pos, size)
    }

    lemma ReadStart()
      requires Valid()
      ensures ReadsAt(ReadPtr(0), 0)
    {
      PointersWrap(0);
    }

    lemma ReadCell(buf: nat, pos: nat)
      requires Valid() && pos < Len() && ReadsAt(buf, pos)
      ensures buf < buffer.Length && Contents()[pos] == buffer[buf]
    {
    }

    /** The no-wrap read length and pointers name exactly the contiguous front of the queue. */
    lemma ReadIsContiguous()
      requires Valid()
      ensures LenNoWrap() <= Len() && ReadPtr(0) + LenNoWrap() <= buffer.Length
      ensures Contents()[..LenNoWrap()] == buffer[ReadPtr(0)..ReadPtr(0) + LenNoWrap()]
      ensures LenNoWrap() < Len() ==> ReadPtr(LenNoWrap()) == 0
    {
      hide BitAnd, IsPow2, Sub32, Ring, RingBuffer.LenNoWrap, RingBuffer.ReadPtr, RingBuffer.WritePtr;
      NoWrapIs();
      PointersWrap(0);
      PointersWrap(LenNoWrap());
      RingFront(buffer[..], out % size, Len(), LenNoWrap());
    }

    /** Likewise for the free cells behind the queue. */
    lemma WriteIsContiguous()
      requires Valid()
      ensures AvailNoWrap() <= Avail() && WritePtr(0) + AvailNoWrap() <= buffer.Length
      ensures Pending(AvailNoWrap()) == buffer[WritePtr(0)..WritePtr(0) + AvailNoWrap()]
      ensures AvailNoWrap() < Avail() ==> WritePtr(AvailNoWrap()) == 0
    {
      hide BitAnd, IsPow2, Sub32, Ring, RingBuffer.AvailNoWrap, RingBuffer.ReadPtr, RingBuffer.WritePtr;
      NoWrapIs();
      PointersWrap(0);
      PointersWrap(AvailNoWrap());
      RingFront(buffer[..], inp % size, AvailNoWrap(), AvailNoWrap());
    }

    lemma OutAfter(n: nat)
      requires Valid() && n <= size
      ensures Add32(out, n) % size == Wrap(out % size + n, size)
    {
      KnownPowers();
      SlotAfter(out, n, size);
    }

    /** Both memcpy calls of a write: the free cells now hold the data, nothing else moved. */
    method CopyIn(data: seq<byte>)
      requires Valid() && |data| <= Avail()
      modifies buffer
      ensures Valid() && Pending(|data|) == data
      ensures Contents() == old(Contents())
    {
      hide BitAnd, IsPow2, Sub32, Ring;
      var offset := BitAnd(inp, mask);
      var end := Min(|data|, size - offset);
      MaskIsMod(inp, size);
      WriteFollowsRead();
      forall i | 0 <= i < end {
        buffer[offset + i] := data[i];
      }
      label first:
      forall i | 0 <= i < |data| - end {
        buffer[i] := data[end + i];
      }
      RingFilled(old(buffer[..]), buffer[..], out % size, Len(), data, end);
      assert Ring(buffer[..], inp % size, |data|) == data;
    }

    /** Appends as much of the data as fits. */
    method Write(data: seq<byte>) returns (n: nat)
      requires Valid()
      modifies buffer, this`inp
      ensures Valid() && n == Min(|data|, old(Avail()))
      ensures Contents() == old(Contents()) + data[..n]
      ensures out == old(out) && Len() == old(Len()) + n
    {
      n := Min(|data|, Avail());
      CopyIn(data[..n]);
      var advanced := WriteAdvance(n);
    }

    /** Removes and returns the oldest bytes, as many as asked for and there are. */
    method Read(len: nat) returns (data: seq<byte>)
      requires Valid()
      modifies this`inp, this`out
      ensures Valid() && data == old(Contents())[..Min(len, old(Len()))]
      ensures Contents() == old(Contents())[|data|..]
    {
      var n := Min(len, Len());
      var offset := BitAnd(out, mask);
      var end := Min(n, size - offset);
      MaskIsMod(out, size);
      data := buffer[offset..offset + end] + buffer[..n - end];
      RingPieces(buffer[..], out % size, Len(), n, end);
      var drained := Drain(n);
    }

    method WriteAdvance(len: nat) returns (n: nat)
      requires Valid()
      modifies this`inp
      ensures Valid() && n == Min(len, old(Avail()))
      ensures Contents() == old(Contents() + Pending(n))
      ensures out == old(out) && Len() == old(Len()) + n
    {
      n := Min(len, Avail());
      WriteFollowsRead();
      AdvanceCounter(inp, out, n);
      RingJoins(buffer[..], out % size, Len(), n);
      inp := Add32(inp, n);
    }

    method Drain(len: nat) returns (n: nat)
      requires Valid()
      modifies this`inp, this`out
      ensures Valid() && n == Min(len, old(Len()))
      ensures Contents() == old(Contents())[n..]
      ensures Len() == 0 ==> inp == out == 0
    {
      hide IsPow2, Ring, Sub32;
      n := Min(len, Len());
      MoveOut(n);
      EmptyIff(inp, out);
      if out == inp {
        Reset();
      }
    }

    method MoveOut(n: nat)
      requires Valid() && n <= Len()
      modifies this`out
      ensures Valid() && Len() == old(Len()) - n && Contents() == old(Contents())[n..]
    {
      hide IsPow2, Ring, Wrap;
      DrainCounter(inp, out, n);
      OutAfter(n);
      RingDrops(buffer[..], out % size, Len(), n);
      out := Add32(out, n);
    }

    method Reset()
      requires Valid()
      modifies this`inp, this`out
      ensures Valid() && Contents() == [] && inp == out == 0
    {
      inp := 0;
      out := 0;
    }
  }

  lemma AdvanceCounter(inp: uint32, out: uint32, n: nat)
    requires Sub32(inp, out) + n < TWO32
    ensures n < TWO32 && Sub32(Add32(inp, n), out) == Sub32(inp, out) + n
  {
  }

  lemma EmptyIff(inp: uint32, out: uint32)
    ensures Sub32(inp, out) == 0 <==> inp == out
  {
  }

  lemma DrainCounter(inp: uint32, out: uint32, n: nat)
    requires n <= Sub32(inp, out)
    ensures Sub32(inp, Add32(out, n)) == Sub32(inp, out) - n
  {
  }

  /** Consecutive stretches of a ring join up. */
  lemma RingJoins(cells: seq<byte>, start: nat, n: nat, m: nat)
    requires start < |cells| && n + m <= |cells|
    ensures Wrap(start + n, |cells|) < |cells|
    ensures Ring(cells, start, n + m) == Ring(cells, start, n) + Ring(cells, Wrap(start + n, |cells|), m)
  {
    var whole := Ring(cells, start, n + m);
    var mid := Wrap(start + n, |cells|);
    forall i | 0 <= i < m ensures whole[n + i] == Ring(cells, mid, m)[i] {
      assert Wrap(start + (n + i), |cells|) == Wrap(mid + i, |cells|);
    }
    assert whole[..n] == Ring(cells, start, n);
    assert whole[n..] == Ring(cells, mid, m);
    assert whole == whole[..n] + whole[n..];
  }

  lemma RingFront(cells: seq<byte>, start: nat, n: nat, k: nat)
    requires start < |cells| && k <= n <= |cells| && start + k <= |cells|
    ensures Ring(cells, start, n)[..k] == cells[start..start + k]
  {
    var front := Ring(cells, start, n)[..k];
    forall i | 0 <= i < k ensures front[i] == cells[start..start + k][i] {
      assert front[i] == cells[Wrap(start + i, |cells|)];
    }
  }

  /** Copying data into the free cells, in at most two pieces, leaves the queue alone
      and puts the data right behind it. */
  lemma RingFilled(before: seq<byte>, cells: seq<byte>, start: nat, n: nat, data: seq<byte>, end: nat)
    requires |cells| == |before| && start < |cells| && n + |data| <= |cells|
    requires var at := Wrap(start + n, |cells|);
      && end == Min(|data|, |cells| - at)
      && (forall i :: 0 <= i < end ==> cells[at + i] == data[i])
      && (forall i :: 0 <= i < |data| - end ==> cells[i] == data[end + i])
      && (forall j :: 0 <= j < |cells| && !(at <= j < at + end) && j >= |data| - end ==> cells[j] == before[j])
    ensures Ring(cells, start, n) == Ring(before, start, n)
    ensures Ring(cells, Wrap(start + n, |cells|), |data|) == data
  {
    var at := Wrap(start + n, |cells|);
    forall i | 0 <= i < n ensures Ring(cells, start, n)[i] == Ring(before, start, n)[i] {
      var j := Wrap(start + i, |cells|);
      assert !(at <= j < at + end) && j >= |data| - end;
    }
    forall i | 0 <= i < |data| ensures Ring(cells, at, |data|)[i] == data[i] {
      if i < end {
        assert Wrap(at + i, |cells|) == at + i && cells[at + i] == data[i];
      } else {
        assert Wrap(at + i, |cells|) == i - end && cells[i - end] == data[end + (i - end)];
      }
    }
  }

  lemma RingPieces(cells: seq<byte>, start: nat, n: nat, k: nat, end: nat)
    requires start < |cells| && k <= n <= |cells| && end == Min(k, |cells| - start)
    ensures Ring(cells, start, n)[..k] == cells[start..start + end] + cells[..k - end]
  {
    RingFront(cells, start, n, end);
    var r := Ring(cells, start, n)[..k];
    forall i | end <= i < k ensures r[i] == cells[i - end] {
      assert end == |cells| - start;
      assert Wrap(start + i, |cells|) == i - end;
      assert r[i] == Ring(cells, start, n)[i] == cells[Wrap(start + i, |cells|)];
    }
    assert r[..end] == Ring(cells, start, n)[..end];
    assert r[end..] == cells[..k - end];
    assert r == r[..end] + r[end..];
  }

  lemma RingDrops(cells: seq<byte>, start: nat, n: nat, m: nat)
    requires start < |cells| && m <= n <= |cells|
    ensures Wrap(start + m, |cells|) < |cells|
    ensures Ring(cells, start, n)[m..] == Ring(cells, Wrap(start + m, |cells|), n - m)
  {
    RingJoins(cells, start, m, n - m);
  }
}
