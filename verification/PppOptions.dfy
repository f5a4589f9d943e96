/** Lists of configuration options: a type, a length and a value each (section 6 of RFC 1661). */
module PppOptions {
  import opened Bytes

  datatype Opt = Opt(kind: byte, value: seq<byte>)

  /** The options of a list, up to the first one that does not fit. */
  function Parse(data: seq<byte>): seq<Opt>
    decreases |data|
  {
    if |data| < 2 || data[1] < 2 || data[1] > |data| then []
    else [Opt(data[0], data[2..data[1]])] + Parse(data[data[1]..])
  }

  /** Every length byte is at least two and fits. */
  predicate WellFormed(data: seq<byte>)
    decreases |data|
  {
    |data| == 0 || (|data| >= 2 && 2 <= data[1] <= |data| && WellFormed(data[data[1]..]))
  }

  predicate Printable(o: Opt) {
    |o.value| <= 253
  }

  function PrintOne(o: Opt): seq<byte>
    requires Printable(o)
  {
    [o.kind, |o.value| + 2] + o.value
  }

  function Print(opts: seq<Opt>): seq<byte>
    requires forall i :: 0 <= i < |opts| ==> Printable(opts[i])
  {
    if |opts| == 0 then [] else PrintOne(opts[0]) + Print(opts[1..])
  }

  lemma {:induction false} ParseOne(o: Opt, rest: seq<byte>)
    requires Printable(o)
    ensures Parse(PrintOne(o) + rest) == [o] + Parse(rest)
    ensures WellFormed(PrintOne(o) + rest) <==> WellFormed(rest)
  {
    var d := PrintOne(o) + rest;
    assert d[1] == |o.value| + 2 && d[2..d[1]] == o.value && d[d[1]..] == rest;
  }

  lemma {:induction false} ParsePrint(opts: seq<Opt>)
    requires forall i :: 0 <= i < |opts| ==> Printable(opts[i])
    ensures Parse(Print(opts)) == opts && WellFormed(Print(opts))
    decreases |opts|
  {
    if |opts| > 0 {
      ParsePrint(opts[1..]);
      ParseOne(opts[0], Print(opts[1..]));
    }
  }

  lemma {:induction false} PrintParse(data: seq<byte>)
    ensures forall i :: 0 <= i < |Parse(data)| ==> Printable(Parse(data)[i])
    ensures Print(Parse(data)) == data <==> WellFormed(data)
    decreases |data|
  {
    if |data| >= 2 && 2 <= data[1] <= |data| {
      var n, rest := data[1], Parse(data[data[1]..]);
      PrintParse(data[n..]);
      var o := Opt(data[0], data[2..n]);
      assert ([o] + rest)[1..] == rest;
      assert Print(Parse(data)) == PrintOne(o) + Print(rest);
      assert PrintOne(o) == data[..n];
      assert data == data[..n] + data[n..];
      if Print(Parse(data)) == data {
        assert Print(rest) == (PrintOne(o) + Print(rest))[n..];
      }
    }
  }

  lemma {:induction false} PrintAppend(a: seq<Opt>, b: seq<Opt>)
    requires forall i :: 0 <= i < |a| ==> Printable(a[i])
    requires forall i :: 0 <= i < |b| ==> Printable(b[i])
    ensures Print(a + b) == Print(a) + Print(b)
    decreases |a|
  {
    hide PrintOne;
    if |a| == 0 {
      assert a + b == b;
    } else {
      assert (a + b)[1..] == a[1..] + b;
      PrintAppend(a[1..], b);
    }
  }

  /** The iterator the drivers walk a received list with. */
  class OptionIter {
    const data: seq<byte>
    var pos: nat
    var kind: byte
    var len: byte
    var value: seq<byte>

    constructor (data: seq<byte>)
      requires WellFormed(data)
      ensures Valid() && Rest() == Parse(data)
    {
      this.data := data;
      pos, kind, len, value := 0, 0, 0, [];
      new;
      assert data[0..] == data;
    }

    ghost predicate Valid()
      reads this
    {
      pos <= |data| && WellFormed(data[pos..])
    }

    /** The options still to come. */
    ghost function Rest(): seq<Opt>
      requires Valid()
      reads this
    {
      Parse(data[pos..])
    }

    method Next() returns (more: bool)
      requires Valid()
      modifies this
      ensures Valid() && (more <==> |old(Rest())| > 0)
      ensures more ==> Opt(kind, value) == old(Rest())[0] && len == |value| && Rest() == old(Rest())[1..]
      ensures !more ==> Rest() == []
    {
      if pos + 1 > |data| {
        return false;
      }
      assert data[pos..][1] == data[pos + 1];
      var n := data[pos + 1];
      if pos + n > |data| {
        return false;
      }
      kind, len, value := data[pos], n - 2, data[pos + 2..pos + n];
      assert value == data[pos..][2..n] && data[pos..][n..] == data[pos + n..];
      pos := pos + n;
      return true;
    }
  }
}
