/** The PS/2 mouse packet assembler: `mouse_ih`, the dispatch after it, and `print_mouse_packet`. */
module MousePackets {
  import opened Bytes

  /** Is the bit with this power-of-two mask set? */
  predicate Bit(b: byte, mask: int)
    requires mask > 0
  {
    (b / mask) % 2 == 1
  }

  datatype Packet = Packet(lb: bool, rb: bool, mb: bool, dx: int, dy: int, xOv: bool, yOv: bool)

  function Decode(b0: byte, b1: byte, b2: byte): Packet {
    Packet(Bit(b0, 0x01), Bit(b0, 0x02), Bit(b0, 0x04),
           if Bit(b0, 0x10) then b1 - 256 else b1,
           if Bit(b0, 0x20) then b2 - 256 else b2,
           Bit(b0, 0x40), Bit(b0, 0x80))
  }

  /** A byte read by the interrupt handler; `bad` when it came with a parity or timeout error. */
  datatype Arrival = Arrival(value: byte, bad: bool)

  datatype Decoder = Decoder(synced: bool, error: bool, counter: int, b0: byte, b1: byte, b2: byte,
                             packet: Packet, total: nat)

  /** `total_packets` is 32 bits wide. */
  function Count(total: nat): nat { (total + 1) % 0x1_0000_0000 }

  /** `print_mouse_packet`. */
  function Assemble(d: Decoder, b: byte): Decoder {
    if !d.synced && !Bit(b, 0x08) then d
    else
      var s := d.(synced := true);
      if s.counter == 0 then s.(b0 := b, counter := 1)
      else if s.counter == 1 then s.(b1 := b, counter := 2)
      else if s.counter == 2 then
        s.(b2 := b, counter := 0, packet := Decode(s.b0, s.b1, b), total := Count(s.total))
      else s
  }

  /** `mouse_ih` and the three-way dispatch on `reading_error` and `counter`. */
  function Receive(d: Decoder, a: Arrival): Decoder {
    var s := if a.bad then d.(error := true, counter := d.counter + 1)
             else if d.error then d.(counter := d.counter + 1)
             else d;
    if s.error && s.counter != 2 then s
    else if s.error then s.(error := false)
    else Assemble(s, a.value)
  }

  /** Did this arrival complete a packet? */
  predicate Completes(d: Decoder, a: Arrival) {
    !a.bad && !d.error && d.counter == 2 && (d.synced || Bit(a.value, 0x08))
  }

  function Feed(d: Decoder, bs: seq<Arrival>): Decoder
    decreases |bs|
  {
    if bs == [] then d else Feed(Receive(d, bs[0]), bs[1..])
  }

  /** The packets completed on the way. */
  function Packets(d: Decoder, bs: seq<Arrival>): seq<Packet>
    decreases |bs|
  {
    if bs == [] then []
    else (if Completes(d, bs[0]) then [Receive(d, bs[0]).packet] else []) + Packets(Receive(d, bs[0]), bs[1..])
  }

  lemma {:induction false} FeedConcat(d: Decoder, a: seq<Arrival>, b: seq<Arrival>)
    ensures Feed(d, a + b) == Feed(Feed(d, a), b)
    ensures Packets(d, a + b) == Packets(d, a) + Packets(Feed(d, a), b)
    decreases |a|
  {
    if a == [] {
      assert a + b == b;
    } else {
      FeedConcat(Receive(d, a[0]), a[1..], b);
      assert (a + b)[0] == a[0] && (a + b)[1..] == a[1..] + b;
    }
  }

  lemma FeedThree(d: Decoder, x: Arrival, y: Arrival, z: Arrival)
    ensures Feed(d, [x, y, z]) == Receive(Receive(Receive(d, x), y), z)
    ensures var d1, d2 := Receive(d, x), Receive(Receive(d, x), y);
      Packets(d, [x, y, z]) ==
      (if Completes(d, x) then [d1.packet] else []) + (if Completes(d1, y) then [d2.packet] else []) +
      (if Completes(d2, z) then [Receive(d2, z).packet] else [])
  {
    var d1, d2 := Receive(d, x), Receive(Receive(d, x), y);
    assert [x, y, z][1..] == [y, z] && [y, z][1..] == [z];
    assert Packets(d2, [z]) == if Completes(d2, z) then [Receive(d2, z).packet] else [];
    assert Feed(d2, [z]) == Receive(d2, z);
  }

  /** Counters, error flag and packets agree on what completes one. */
  lemma {:induction false} TotalCountsPackets(d: Decoder, bs: seq<Arrival>)
    requires d.total < 0x1_0000_0000
    ensures Feed(d, bs).total == (d.total + |Packets(d, bs)|) % 0x1_0000_0000
    decreases |bs|
  {
    if bs == [] {
    } else {
      TotalCountsPackets(Receive(d, bs[0]), bs[1..]);
    }
  }

  // ----- Encoding -----

  predicate Sendable(p: Packet) {
    -256 <= p.dx < 256 && -256 <= p.dy < 256
  }

  function Flag(b: bool, weight: int): int { if b then weight else 0 }

  function Low(x: int): int { if x < 0 then x + 256 else x }

  /** What the mouse sends: the standard three-byte packet, bit 3 of the first byte always set. */
  function Encode(p: Packet): (s: seq<byte>)
    requires Sendable(p)
    ensures |s| == 3
  {
    [Flag(p.lb, 0x01) + Flag(p.rb, 0x02) + Flag(p.mb, 0x04) + 0x08 + Flag(p.dx < 0, 0x10) + Flag(p.dy < 0, 0x20)
     + Flag(p.xOv, 0x40) + Flag(p.yOv, 0x80), Low(p.dx), Low(p.dy)]
  }

  /** The three bytes of a packet: buttons, overflow and sign flags by their weights, and deltas that are
      nine-bit numbers with the sign in the first byte. */
  lemma PacketFormat(b0: byte, b1: byte, b2: byte)
    ensures var p := Decode(b0, b1, b2);
      && (p.lb <==> b0 % 2 == 1) && (p.rb <==> b0 / 2 % 2 == 1) && (p.mb <==> b0 / 4 % 2 == 1)
      && (p.xOv <==> b0 / 64 % 2 == 1) && (p.yOv <==> b0 / 128 == 1)
      && p.dx == b1 - 256 * (b0 / 16 % 2) && p.dy == b2 - 256 * (b0 / 32 % 2)
  {
  }

  /** Eight flags with the weights of a byte can be read back bit by bit. */
  lemma BitsOfFlags(f: seq<bool>, n: int)
    requires |f| == 8
    requires n == Flag(f[0], 1) + Flag(f[1], 2) + Flag(f[2], 4) + Flag(f[3], 8)
                  + Flag(f[4], 16) + Flag(f[5], 32) + Flag(f[6], 64) + Flag(f[7], 128)
    ensures 0 <= n < 256
    ensures Bit(n, 1) == f[0] && Bit(n, 2) == f[1] && Bit(n, 4) == f[2] && Bit(n, 8) == f[3]
    ensures Bit(n, 16) == f[4] && Bit(n, 32) == f[5] && Bit(n, 64) == f[6] && Bit(n, 128) == f[7]
  {
    var n6 := Flag(f[6], 1) + 2 * Flag(f[7], 1);
    var n5 := Flag(f[5], 1) + 2 * n6;
    var n4 := Flag(f[4], 1) + 2 * n5;
    var n3 := Flag(f[3], 1) + 2 * n4;
    var n2 := Flag(f[2], 1) + 2 * n3;
    var n1 := Flag(f[1], 1) + 2 * n2;
    assert n == Flag(f[0], 1) + 2 * n1;
    assert n / 2 == n1 && n / 4 == n2 && n / 8 == n3 && n / 16 == n4;
    assert n / 32 == n5 && n / 64 == n6 && n / 128 == Flag(f[7], 1);
  }

  lemma DecodeEncode(p: Packet)
    requires Sendable(p)
    ensures var s := Encode(p); Decode(s[0], s[1], s[2]) == p && Bit(s[0], 0x08)
  {
    BitsOfFlags([p.lb, p.rb, p.mb, true, p.dx < 0, p.dy < 0, p.xOv, p.yOv], Encode(p)[0]);
  }

  lemma NibbleFromBits(x: int)
    requires 0 <= x < 16
    ensures x == Flag(x % 2 == 1, 1) + Flag((x / 2) % 2 == 1, 2) + Flag((x / 4) % 2 == 1, 4) + Flag(x / 8 == 1, 8)
  {
  }

  lemma LowNibble(n: byte, hi: int, lo: int)
    requires n == 16 * hi + lo && 0 <= lo < 16
    ensures Bit(n, 1) == (lo % 2 == 1) && Bit(n, 2) == ((lo / 2) % 2 == 1)
    ensures Bit(n, 4) == ((lo / 4) % 2 == 1) && Bit(n, 8) == (lo / 8 == 1)
  {
    assert n / 2 == 8 * hi + lo / 2;
    assert n / 4 == 4 * hi + lo / 4;
    assert n / 8 == 2 * hi + lo / 8;
  }

  lemma HighNibble(n: byte, hi: int, lo: int)
    requires n == 16 * hi + lo && 0 <= lo < 16
    ensures Bit(n, 16) == (hi % 2 == 1) && Bit(n, 32) == ((hi / 2) % 2 == 1)
    ensures Bit(n, 64) == ((hi / 4) % 2 == 1) && Bit(n, 128) == (hi / 8 == 1)
  {
    assert n / 16 == hi;
    assert n / 32 == hi / 2;
    assert n / 64 == hi / 4;
    assert n / 128 == hi / 8;
  }

  lemma ByteFromBits(n: byte)
    ensures n == Flag(Bit(n, 1), 1) + Flag(Bit(n, 2), 2) + Flag(Bit(n, 4), 4) + Flag(Bit(n, 8), 8)
                 + Flag(Bit(n, 16), 16) + Flag(Bit(n, 32), 32) + Flag(Bit(n, 64), 64) + Flag(Bit(n, 128), 128)
  {
    var hi, lo := n / 16, n % 16;
    LowNibble(n, hi, lo);
    HighNibble(n, hi, lo);
    NibbleFromBits(hi);
    NibbleFromBits(lo);
  }

  /** And back: a byte triple whose first byte has bit 3 set is the encoding of what it decodes to. */
  lemma EncodeDecode(b0: byte, b1: byte, b2: byte)
    requires Bit(b0, 0x08)
    ensures var p := Decode(b0, b1, b2); Sendable(p) && Encode(p) == [b0, b1, b2]
  {
    ByteFromBits(b0);
  }

  function Clean(s: seq<byte>): (r: seq<Arrival>)
    ensures |r| == |s| && forall i :: 0 <= i < |s| ==> r[i] == Arrival(s[i], false)
  {
    if s == [] then [] else [Arrival(s[0], false)] + Clean(s[1..])
  }

  function EncodeAll(ps: seq<Packet>): seq<Arrival>
    requires forall i :: 0 <= i < |ps| ==> Sendable(ps[i])
  {
    if ps == [] then [] else Clean(Encode(ps[0])) + EncodeAll(ps[1..])
  }

  // ----- Round trip -----

  predicate Fresh(d: Decoder) {
    !d.synced && !d.error && d.counter == 0
  }

  predicate InFrame(d: Decoder) {
    d.synced && !d.error && d.counter == 0
  }

  lemma {:induction false} JunkIsIgnored(d: Decoder, junk: seq<byte>)
    requires Fresh(d) && forall i :: 0 <= i < |junk| ==> !Bit(junk[i], 0x08)
    ensures Feed(d, Clean(junk)) == d && Packets(d, Clean(junk)) == []
  {
    if junk == [] {
    } else {
      assert Clean(junk)[1..] == Clean(junk[1..]) && Clean(junk)[0] == Arrival(junk[0], false);
      assert Receive(d, Arrival(junk[0], false)) == d;
      JunkIsIgnored(d, junk[1..]);
    }
  }

  lemma OnePacket(d: Decoder, p: Packet)
    requires (Fresh(d) || InFrame(d)) && Sendable(p)
    ensures var s := Clean(Encode(p)); InFrame(Feed(d, s)) && Packets(d, s) == [p]
  {
    var s := Encode(p);
    DecodeEncode(p);
    var x, y, z := Arrival(s[0], false), Arrival(s[1], false), Arrival(s[2], false);
    assert Clean(s) == [x, y, z];
    FeedThree(d, x, y, z);
  }

  lemma {:induction false} PacketsArrive(d: Decoder, ps: seq<Packet>)
    requires Fresh(d) || InFrame(d)
    requires forall i :: 0 <= i < |ps| ==> Sendable(ps[i])
    ensures Packets(d, EncodeAll(ps)) == ps
    ensures ps != [] ==> InFrame(Feed(d, EncodeAll(ps)))
    ensures ps == [] ==> Feed(d, EncodeAll(ps)) == d
    decreases |ps|
  {
    if ps == [] {
    } else {
      var first := Clean(Encode(ps[0]));
      OnePacket(d, ps[0]);
      FeedConcat(d, first, EncodeAll(ps[1..]));
      PacketsArrive(Feed(d, first), ps[1..]);
      assert EncodeAll(ps) == first + EncodeAll(ps[1..]);
      assert ps == [ps[0]] + ps[1..];
    }
  }

  /** From a fresh start, any bytes without bit 3 and then any packets yield exactly those packets. */
  lemma RoundTrip(d: Decoder, junk: seq<byte>, ps: seq<Packet>)
    requires Fresh(d) && d.total == 0
    requires forall i :: 0 <= i < |junk| ==> !Bit(junk[i], 0x08)
    requires forall i :: 0 <= i < |ps| ==> Sendable(ps[i])
    ensures Packets(d, Clean(junk) + EncodeAll(ps)) == ps
    ensures Feed(d, Clean(junk) + EncodeAll(ps)).total == |ps| % 0x1_0000_0000
  {
    RoundTripPackets(d, junk, ps);
    TotalCountsPackets(d, Clean(junk) + EncodeAll(ps));
  }

  lemma RoundTripPackets(d: Decoder, junk: seq<byte>, ps: seq<Packet>)
    requires Fresh(d)
    requires forall i :: 0 <= i < |junk| ==> !Bit(junk[i], 0x08)
    requires forall i :: 0 <= i < |ps| ==> Sendable(ps[i])
    ensures Packets(d, Clean(junk) + EncodeAll(ps)) == ps
  {
    var j, e := Clean(junk), EncodeAll(ps);
    calc {
      Packets(d, j + e);
    == { FeedConcat(d, j, e); }
      Packets(d, j) + Packets(Feed(d, j), e);
    == { JunkIsIgnored(d, junk); }
      [] + Packets(d, e);
    == { PacketsArrive(d, ps); }
      [] + ps;
    ==
      ps;
    }
  }

  // ----- Framing under errors -----

  /** The third byte of every packet of a stream of whole packets arrived without error. */
  predicate ThirdBytesGood(bs: seq<Arrival>)
  {
    forall i :: 0 <= i < |bs| && i % 3 == 2 ==> !bs[i].bad
  }

  /** The i-th packet of the stream arrived without any error. */
  predicate PacketGood(bs: seq<Arrival>, i: nat)
    requires 3 * i + 2 < |bs|
  {
    !bs[3 * i].bad && !bs[3 * i + 1].bad && !bs[3 * i + 2].bad
  }

  /** The assembler has counted past 2 in its error path and cannot come back. */
  predicate Lost(d: Decoder) {
    d.error && d.counter >= 3
  }

  lemma {:induction false} LostStaysLost(d: Decoder, bs: seq<Arrival>)
    requires Lost(d)
    ensures Lost(Feed(d, bs)) && Packets(d, bs) == []
    decreases |bs|
  {
    if bs == [] {
    } else {
      LostStaysLost(Receive(d, bs[0]), bs[1..]);
    }
  }

  /** Three bytes in frame: a good third byte ends in frame with one packet, a bad one loses the frame. */
  lemma ThreeInFrame(d: Decoder, x: Arrival, y: Arrival, z: Arrival)
    requires InFrame(d)
    ensures var r, ps := Feed(d, [x, y, z]), Packets(d, [x, y, z]);
      if z.bad then Lost(r) && ps == []
      else InFrame(r) && |ps| == 1 && (!x.bad && !y.bad ==> ps[0] == Decode(x.value, y.value, z.value))
  {
    FeedThree(d, x, y, z);
  }

  lemma {:induction false} FramingHolds(d: Decoder, bs: seq<Arrival>)
    requires InFrame(d) && |bs| % 3 == 0 && ThirdBytesGood(bs)
    ensures InFrame(Feed(d, bs)) && |Packets(d, bs)| == |bs| / 3
    ensures forall i :: 0 <= i < |bs| / 3 && PacketGood(bs, i) ==>
              Packets(d, bs)[i] == Decode(bs[3 * i].value, bs[3 * i + 1].value, bs[3 * i + 2].value)
    decreases |bs|
  {
    if bs == [] {
    } else {
      var head, tail := [bs[0], bs[1], bs[2]], bs[3..];
      assert bs == head + tail;
      ThreeInFrame(d, bs[0], bs[1], bs[2]);
      FeedConcat(d, head, tail);
      forall i | 0 <= i < |tail| && i % 3 == 2 ensures !tail[i].bad {
        assert tail[i] == bs[i + 3] && (i + 3) % 3 == 2;
      }
      FramingHolds(Feed(d, head), tail);
      var ps, rest := Packets(d, bs), Packets(Feed(d, head), tail);
      forall i | 0 <= i < |bs| / 3 && PacketGood(bs, i)
        ensures ps[i] == Decode(bs[3 * i].value, bs[3 * i + 1].value, bs[3 * i + 2].value)
      {
        if i > 0 {
          assert tail[3 * (i - 1)] == bs[3 * i] && tail[3 * (i - 1) + 1] == bs[3 * i + 1];
          assert tail[3 * (i - 1) + 2] == bs[3 * i + 2];
          assert PacketGood(tail, i - 1);
          assert ps[i] == rest[i - 1];
        }
      }
    }
  }

  lemma BadLater(bs: seq<Arrival>, tail: seq<Arrival>)
    requires |bs| >= 3 && |bs| % 3 == 0 && tail == bs[3..] && !bs[2].bad && !ThirdBytesGood(bs)
    ensures |tail| % 3 == 0 && !ThirdBytesGood(tail)
  {
    var i :| 0 <= i < |bs| && i % 3 == 2 && bs[i].bad;
    assert tail[i - 3] == bs[i] && (i - 3) % 3 == 2;
  }

  lemma {:induction false} FramingLost(d: Decoder, bs: seq<Arrival>)
    requires InFrame(d) && |bs| % 3 == 0 && !ThirdBytesGood(bs)
    ensures Lost(Feed(d, bs)) && |Packets(d, bs)| < |bs| / 3
    decreases |bs|
  {
    var head, tail := [bs[0], bs[1], bs[2]], bs[3..];
    assert bs == head + tail;
    ThreeInFrame(d, bs[0], bs[1], bs[2]);
    FeedConcat(d, head, tail);
    if bs[2].bad {
      LostStaysLost(Feed(d, head), tail);
    } else {
      BadLater(bs, tail);
      FramingLost(Feed(d, head), tail);
    }
  }

  /** Errors on first and second bytes never cost the frame, an error on a third byte always does: after
      whole packets the assembler is in frame with all of them counted if and only if every third byte
      arrived well. */
  lemma FramingIffThirdBytesGood(d: Decoder, bs: seq<Arrival>)
    requires InFrame(d) && |bs| % 3 == 0
    ensures ThirdBytesGood(bs) <==> InFrame(Feed(d, bs)) && |Packets(d, bs)| == |bs| / 3
  {
    if ThirdBytesGood(bs) {
      FramingHolds(d, bs);
    } else {
      FramingLost(d, bs);
    }
  }

  // ----- The driver's globals -----

  class MouseDriver {
    var isSync: bool
    var readingError: bool
    var counter: int
    var readPacket: byte
    const bytes: array<byte>
    var packet1: Packet
    var totalPackets: nat

    ghost predicate Shaped() { bytes.Length == 3 }

    ghost function Now(): Decoder
      requires Shaped()
      reads this, bytes
    {
      Decoder(isSync, readingError, counter, bytes[0], bytes[1], bytes[2], packet1, totalPackets)
    }

    constructor ()
      ensures Shaped() && Fresh(Now()) && totalPackets == 0 && fresh(bytes)
    {
      bytes := new byte[3](_ => 0);
      isSync, readingError, counter, readPacket, totalPackets := false, false, 0, 0, 0;
      packet1 := Packet(false, false, false, 0, 0, false, false);
    }

    method MouseIh(a: Arrival)
      requires Shaped()
      modifies `readPacket, `counter, `readingError
      ensures readPacket == a.value
      ensures readingError == (old(readingError) || a.bad)
      ensures counter == if old(readingError) || a.bad then old(counter) + 1 else old(counter)
    {
      readPacket := a.value;
      if !a.bad {
        if readingError {
          counter := counter + 1;
        }
        return;
      }
      readingError := true;
      counter := counter + 1;
    }

    method PrintMousePacket()
      requires Shaped()
      modifies this, bytes
      ensures Now() == Assemble(old(Now()), old(readPacket))
    {
      if !isSync {
        if !Bit(readPacket, 0x08) {
          return;
        } else {
          isSync := true;
        }
      }
      if counter == 0 {
        bytes[0] := readPacket;
        counter := counter + 1;
        return;
      }
      if counter == 1 {
        bytes[1] := readPacket;
        counter := counter + 1;
        return;
      }
      if counter == 2 {
        bytes[2] := readPacket;
        counter := 0;
        var b0 := bytes[0];
        var yOv, xOv := Bit(b0, 0x80), Bit(b0, 0x40);
        var deltaY: int, deltaX: int;
        if Bit(b0, 0x20) { deltaY := bytes[2] as int - 256; } else { deltaY := bytes[2]; }
        if Bit(b0, 0x10) { deltaX := bytes[1] as int - 256; } else { deltaX := bytes[1]; }
        packet1 := Packet(Bit(b0, 0x01), Bit(b0, 0x02), Bit(b0, 0x04), deltaX, deltaY, xOv, yOv);
        totalPackets := (totalPackets + 1) % 0x1_0000_0000;
      }
    }

    /** One mouse interrupt of the main loop; `updated` tells whether the pointer follows. */
    method Interrupt(a: Arrival) returns (updated: bool)
      requires Shaped()
      modifies this, bytes
      ensures Now() == Receive(old(Now()), a)
      ensures updated == (!a.bad && !old(readingError))
    {
      MouseIh(a);
      updated := false;
      if readingError && counter != 2 {
      } else if readingError && counter == 2 {
        readingError := false;
      } else {
        PrintMousePacket();
        updated := true;
      }
    }
  }
}
