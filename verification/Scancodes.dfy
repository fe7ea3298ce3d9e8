/** Two scancode assemblers: the project's, which keeps a byte count, and lab 5's, which keeps the
    prefix byte itself. */
module Scancodes {
  import opened Bytes

  const PREFIX: byte := 0xE0

  /** What `kbd_print_scancode` is given: make or break, and the bytes of the code. */
  datatype Code = Code(make: bool, bytes: seq<byte>)

  predicate IsMake(b: byte) { b < 0x80 }

  // ----- proj: a byte count -----

  datatype CountState = CountState(bytes: int, sc0: byte, sc1: byte, make: bool)

  const COUNT_START := CountState(1, 0, 0, false)

  function CountStep(s: CountState, b: byte): (CountState, seq<Code>) {
    if b == PREFIX then (s.(sc0 := b, bytes := 2), [])
    else
      var make := s.make || IsMake(b);
      var code := if s.bytes == 2 then Code(make, [s.sc0, b]) else Code(make, [b]);
      (COUNT_START, [code])
  }

  function CountRun(s: CountState, bs: seq<byte>): seq<Code>
    decreases |bs|
  {
    if bs == [] then [] else CountStep(s, bs[0]).1 + CountRun(CountStep(s, bs[0]).0, bs[1..])
  }

  // ----- lab 5: the stored prefix -----

  datatype PrefixState = PrefixState(sc0: byte, sc1: byte)

  const PREFIX_START := PrefixState(0, 0)

  function PrefixStep(s: PrefixState, b: byte): (PrefixState, seq<Code>) {
    if b == PREFIX then (s.(sc0 := b), [])
    else if s.sc0 == PREFIX then (PrefixState(0, b), [Code(IsMake(b), [s.sc0, b])])
    else (s.(sc0 := 0), [Code(IsMake(b), [b])])
  }

  function PrefixRun(s: PrefixState, bs: seq<byte>): seq<Code>
    decreases |bs|
  {
    if bs == [] then [] else PrefixStep(s, bs[0]).1 + PrefixRun(PrefixStep(s, bs[0]).0, bs[1..])
  }

  // ----- They agree -----

  predicate Agree(c: CountState, p: PrefixState) {
    && !c.make && (c.bytes == 1 || c.bytes == 2)
    && (c.bytes == 2 <==> p.sc0 == PREFIX) && (c.bytes == 2 ==> c.sc0 == PREFIX)
  }

  lemma {:induction false} RunsAgree(c: CountState, p: PrefixState, bs: seq<byte>)
    requires Agree(c, p)
    ensures CountRun(c, bs) == PrefixRun(p, bs)
    decreases |bs|
  {
    if bs == [] {
    } else {
      RunsAgree(CountStep(c, bs[0]).0, PrefixStep(p, bs[0]).0, bs[1..]);
    }
  }

  /** On every byte stream the two assemblers print the same codes. */
  lemma SameCodes(bs: seq<byte>)
    ensures CountRun(COUNT_START, bs) == PrefixRun(PREFIX_START, bs)
  {
    RunsAgree(COUNT_START, PREFIX_START, bs);
  }

  // ----- Round trip -----

  /** A one-byte code, or the prefix and one byte; the make flag is bit 7 of the last byte. */
  predicate ValidCode(c: Code) {
    && (|c.bytes| == 1 || (|c.bytes| == 2 && c.bytes[0] == PREFIX))
    && c.bytes[|c.bytes| - 1] != PREFIX
    && c.make == IsMake(c.bytes[|c.bytes| - 1])
  }

  function Sent(cs: seq<Code>): seq<byte> {
    if cs == [] then [] else cs[0].bytes + Sent(cs[1..])
  }

  /** Any sequence of codes, sent byte by byte, is printed back unchanged. */
  lemma {:induction false} CodesArrive(cs: seq<Code>)
    requires forall i :: 0 <= i < |cs| ==> ValidCode(cs[i])
    ensures CountRun(COUNT_START, Sent(cs)) == cs
  {
    if cs == [] {
    } else {
      var c, rest := cs[0], Sent(cs[1..]);
      CodesArrive(cs[1..]);
      if |c.bytes| == 1 {
        assert Sent(cs)[0] == c.bytes[0] && Sent(cs)[1..] == rest;
        assert c.bytes == [c.bytes[0]];
      } else {
        var after := Sent(cs)[1..];
        assert Sent(cs)[0] == PREFIX && after[0] == c.bytes[1] && after[1..] == rest;
        assert c.bytes == [PREFIX, c.bytes[1]];
      }
      assert cs == [c] + cs[1..];
    }
  }

  /** A byte below 0x80 is printed as a make code, the same byte with bit 7 set as its break code (0xE0 is the
      prefix and prints nothing), and likewise behind the prefix. */
  lemma OneKey(b: byte)
    requires b < 128
    ensures CountRun(COUNT_START, [b]) == [Code(true, [b])]
    ensures CountRun(COUNT_START, [0xE0, b]) == [Code(true, [0xE0, b])]
    ensures CountRun(COUNT_START, [b + 128]) == if b == 0x60 then [] else [Code(false, [b + 128])]
    ensures CountRun(COUNT_START, [0xE0, b + 128]) == if b == 0x60 then [] else [Code(false, [0xE0, b + 128])]
  {
    PrintOne(COUNT_START, b);
    PrintOne(COUNT_START, b + 128);
    PrintOne(CountState(2, 0xE0, 0, false), b);
    PrintOne(CountState(2, 0xE0, 0, false), b + 128);
    assert [0xE0 as byte, b][1..] == [b] && [0xE0 as byte, b + 128][1..] == [b + 128];
  }

  lemma PrintOne(s: CountState, b: byte)
    ensures CountRun(s, [b]) == CountStep(s, b).1
  {
    assert [b][1..] == [];
  }

  /** On any stream the make flag of a printed code tells whether its last byte is below 0x80. */
  lemma MakeMeansLow(bs: seq<byte>, c: Code)
    requires c in CountRun(COUNT_START, bs)
    ensures 1 <= |c.bytes| <= 2 && (c.make <==> c.bytes[|c.bytes| - 1] < 128)
    ensures c.bytes[|c.bytes| - 1] != 0xE0 && (|c.bytes| == 2 ==> c.bytes[0] == 0xE0)
  {
    NothingLost(COUNT_START, bs);
  }

  /** A stream with repeated prefixes merged and a trailing prefix dropped. */
  function Merged(bs: seq<byte>): seq<byte> {
    if bs == [] then []
    else if bs[0] == PREFIX && (|bs| == 1 || bs[1] == PREFIX) then Merged(bs[1..])
    else [bs[0]] + Merged(bs[1..])
  }

  /** The printed codes are well formed and hold every byte of the stream, up to repeated and trailing
      prefixes: nothing else is lost or invented. */
  lemma {:induction false} NothingLost(s: CountState, bs: seq<byte>)
    requires s == COUNT_START || s == CountState(2, PREFIX, 0, false)
    ensures forall c :: c in CountRun(s, bs) ==> ValidCode(c)
    ensures s.bytes == 1 ==> Sent(CountRun(s, bs)) == Merged(bs)
    ensures s.bytes == 2 ==> Sent(CountRun(s, bs)) == Merged([PREFIX] + bs)
    decreases |bs|
  {
    if bs == [] {
      assert Merged([PREFIX]) == [] by { assert [PREFIX][1..] == []; }
    } else {
      var (next, out) := CountStep(s, bs[0]);
      NothingLost(next, bs[1..]);
      var all := CountRun(s, bs);
      assert bs == [bs[0]] + bs[1..];
      if out == [] {
        assert all == CountRun(next, bs[1..]);
        assert ([PREFIX] + bs)[1..] == bs;
      } else {
        assert all[1..] == CountRun(next, bs[1..]) && all[0] == out[0];
        var long := [PREFIX] + bs;
        assert long[1..] == bs && long[0] == PREFIX && long[1] == bs[0];
        assert Merged(bs) == [bs[0]] + Merged(bs[1..]);
        assert Merged(long) == [PREFIX] + Merged(bs);
      }
    }
  }

  // ----- The globals -----

  class CountAssembler {
    var bytes: int
    const scancodes: array<byte>
    var makecode: bool

    ghost predicate Shaped() { scancodes.Length == 2 }

    ghost function Now(): CountState
      requires Shaped()
      reads this, scancodes
    {
      CountState(bytes, scancodes[0], scancodes[1], makecode)
    }

    constructor ()
      ensures Shaped() && Now() == COUNT_START && fresh(scancodes)
    {
      bytes, makecode := 1, false;
      scancodes := new byte[2](_ => 0);
    }

    /** `printSC`. */
    method PrintSC(scancode: byte) returns (complete: bool, printed: seq<Code>)
      requires Shaped() && (bytes == 1 || bytes == 2)
      modifies this, scancodes
      ensures (Now(), printed) == CountStep(old(Now()), scancode)
      ensures complete <==> |printed| == 1
    {
      if scancode == 0xE0 {
        scancodes[0] := scancode;
        bytes := 2;
        return false, [];
      }
      if scancode < 0x80 {
        makecode := true;
      }
      if bytes == 2 {
        scancodes[1] := scancode;
      } else {
        scancodes[0] := scancode;
      }
      printed := [Code(makecode, scancodes[..bytes])];
      assert scancodes[..bytes] == if bytes == 2 then [old(scancodes[0]), scancode] else [scancode];
      bytes := 1;
      scancodes[0] := 0;
      scancodes[1] := 0;
      makecode := false;
      complete := true;
    }
  }

  class PrefixAssembler {
    const scancodes: array<byte>

    ghost predicate Shaped() { scancodes.Length == 2 }

    ghost function Now(): PrefixState
      requires Shaped()
      reads scancodes
    {
      PrefixState(scancodes[0], scancodes[1])
    }

    constructor ()
      ensures Shaped() && Now() == PREFIX_START && fresh(scancodes)
    {
      scancodes := new byte[2](_ => 0);
    }

    /** `kbc_print_scancode`. */
    method PrintScancode(scancode: byte) returns (printed: seq<Code>)
      requires Shaped()
      modifies scancodes
      ensures (Now(), printed) == PrefixStep(old(Now()), scancode)
    {
      if scancode == 0xE0 {
        scancodes[0] := scancode;
        return [];
      }
      var nBytes, makecode := 1, false;
      if scancode < 0x80 {
        makecode := true;
      }
      if scancodes[0] == 0xE0 {
        scancodes[1] := scancode;
        nBytes := nBytes + 1;
      } else {
        scancodes[0] := scancode;
      }
      printed := [Code(makecode, scancodes[..nBytes])];
      assert scancodes[..nBytes] == if nBytes == 2 then [old(scancodes[0]), scancode] else [scancode];
      scancodes[0] := 0;
    }
  }
}
