/** The i8254 timer driver, against the part of the chip it talks to: control words, read-back of the
    status byte and two-byte counter writes (Intel 82C54 data sheet, "Control Word Format" and
    "Read-Back Command"). */
module Timer8254 {
  import opened Arithmetic
  import opened Bytes

  const TIMER_FREQ := 1193182
  const TIMER_CTRL := 0x43
  const TIMER_0 := 0x40

  /** One counter: output pin and null-count flag, access mode, counting mode, BCD bit, the count
      register, the low byte of a write under way, and a latched status byte. */
  datatype Counter = Counter(flags: int, access: int, mode: int, bcd: int, count: int,
                             low: Option<byte>, status: Option<byte>)

  predicate CounterOk(c: Counter) {
    0 <= c.flags < 4 && 0 <= c.access < 4 && 0 <= c.mode < 8 && 0 <= c.bcd < 2 && 0 <= c.count < 0x1_0000
  }

  /** The chip's three counters. */
  ghost predicate ChipOk(cs: seq<Counter>) {
    |cs| == 3 && forall i :: 0 <= i < 3 ==> CounterOk(cs[i])
  }

  /** No status byte waits to be read. */
  ghost predicate Idle(cs: seq<Counter>) {
    ChipOk(cs) && forall i :: 0 <= i < 3 ==> cs[i].status == None
  }

  function StatusByte(c: Counter): (b: byte)
    requires CounterOk(c)
  {
    64 * c.flags + 16 * c.access + 2 * c.mode + c.bcd
  }

  // ----- The chip -----

  function LatchStatus(c: Counter): Counter
    requires CounterOk(c)
  {
    if c.status.Some? then c else c.(status := Some(StatusByte(c)))
  }

  /** Read-back selects counters with bits 1 to 3 and latches their status when bit 4 is clear. */
  function ReadBack(c: Counter, word: byte, select: int): Counter
    requires CounterOk(c) && select > 0
  {
    if (word / select) % 2 == 1 && (word / 16) % 2 == 0 then LatchStatus(c) else c
  }

  /** A control word sets access, mode and BCD bit and restarts the byte order; access 0 only latches. */
  function Control(c: Counter, word: byte): Counter {
    if (word / 16) % 4 == 0 then c
    else c.(access := (word / 16) % 4, mode := (word / 2) % 8, bcd := word % 2, low := None)
  }

  function WriteCount(c: Counter, b: byte): Counter {
    if c.access == 1 then c.(count := b)
    else if c.access == 2 then c.(count := 256 * b)
    else if c.low.None? then c.(low := Some(b))
    else c.(count := c.low.value + 256 * b, low := None)
  }

  /** With two-byte access the low byte is written first. */
  lemma LowByteFirst(c: Counter, lsb: byte, msb: byte)
    requires c.access == 3 && c.low == None
    ensures WriteCount(WriteCount(c, lsb), msb) == c.(count := lsb + 256 * msb)
  {
  }

  class Chip {
    var counters: seq<Counter>

    method Outb(port: int, b: byte)
      requires ChipOk(counters) && 0x40 <= port <= 0x43
      modifies this
      ensures ChipOk(counters)
      ensures port == TIMER_CTRL && b / 64 == 3 ==>
                forall i :: 0 <= i < 3 ==>
                  counters[i] == ReadBack(old(counters)[i], b, if i == 0 then 2 else if i == 1 then 4 else 8)
      ensures port == TIMER_CTRL && b / 64 < 3 ==>
                counters == old(counters)[b / 64 := Control(old(counters)[b / 64], b)]
      ensures port < TIMER_CTRL ==>
                counters == old(counters)[port - TIMER_0 := WriteCount(old(counters)[port - TIMER_0], b)]
    {
      if port == TIMER_CTRL && b / 64 == 3 {
        counters := [ReadBack(counters[0], b, 2), ReadBack(counters[1], b, 4), ReadBack(counters[2], b, 8)];
      } else if port == TIMER_CTRL {
        counters := counters[b / 64 := Control(counters[b / 64], b)];
      } else {
        counters := counters[port - TIMER_0 := WriteCount(counters[port - TIMER_0], b)];
      }
    }

    /** A latched status byte is read before anything else. */
    method Inb(port: int) returns (b: byte)
      requires ChipOk(counters) && 0x40 <= port <= 0x42 && counters[port - TIMER_0].status.Some?
      modifies this
      ensures b == old(counters)[port - TIMER_0].status.value
      ensures counters == old(counters)[port - TIMER_0 := old(counters)[port - TIMER_0].(status := None)]
    {
      b := counters[port - TIMER_0].status.value;
      counters := counters[port - TIMER_0 := counters[port - TIMER_0].(status := None)];
    }
  }

  // ----- The driver -----

  /** Leaves the chip as it was and reports the timer's status byte. */
  method TimerGetConf(chip: Chip, timer: byte) returns (r: int, st: byte)
    requires Idle(chip.counters)
    modifies chip
    ensures chip.counters == old(chip.counters)
    ensures r == if timer > 2 then 1 else 0
    ensures timer <= 2 ==> st == StatusByte(old(chip.counters)[timer])
  {
    st := 0;
    if timer > 2 {
      return 1, st;
    }
    var select: byte := if timer == 0 then 2 else if timer == 1 then 4 else 8;
    var rbc: byte := 0xC0 + 0x20 + select;
    ghost var before := chip.counters;
    assert (rbc / 2) % 2 == (if timer == 0 then 1 else 0) && (rbc / 4) % 2 == (if timer == 1 then 1 else 0);
    assert (rbc / 8) % 2 == (if timer == 2 then 1 else 0) && (rbc / 16) % 2 == 0 && rbc / 64 == 3;
    chip.Outb(TIMER_CTRL, rbc);
    assert chip.counters == before[timer := LatchStatus(before[timer])];
    st := chip.Inb(TIMER_0 + timer);
    assert chip.counters == before;
    r := 0;
  }

  predicate Accepted(timer: byte, freq: nat) {
    timer <= 2 && 19 <= freq <= TIMER_FREQ
  }

  function Divisor(freq: nat): nat
    requires freq > 0
  {
    TIMER_FREQ / freq
  }

  /** The divisor is the best whole number of clock ticks and fits the counter. */
  lemma DivisorFits(freq: nat)
    requires 19 <= freq <= TIMER_FREQ
    ensures Divisor(freq) * freq <= TIMER_FREQ < (Divisor(freq) + 1) * freq
    ensures 1 <= Divisor(freq) <= 62799
  {
    var d := Divisor(freq);
    DivMod(TIMER_FREQ, freq);
    MulSucc(d, freq);
    QuotientBelow(TIMER_FREQ, freq, d + 1, 1);
    QuotientBelow(TIMER_FREQ, freq, 62800, d);
  }

  /** A request for an existing timer is accepted exactly when its divisor is one the counter can hold. */
  lemma AcceptedIffDivisorFits(timer: byte, freq: nat)
    ensures Accepted(timer, freq) <==> timer <= 2 && freq > 0 && 1 <= TIMER_FREQ / freq < 0x1_0000
  {
    if 19 <= freq <= TIMER_FREQ {
      DivisorFits(freq);
    } else if freq > TIMER_FREQ {
      QuotientIs(TIMER_FREQ, freq, 0);
    } else if freq > 0 {
      DivMod(TIMER_FREQ, freq);
      if TIMER_FREQ / freq < 0x1_0000 {
        MulMono(TIMER_FREQ / freq, 0xFFFF, freq);
      }
    }
  }

  /** What a request makes of the chip. */
  ghost function Requested(cs: seq<Counter>, timer: byte, freq: nat): (r: seq<Counter>)
    requires Idle(cs)
    ensures Idle(r)
  {
    if !Accepted(timer, freq) then cs
    else
      DivisorFits(freq);
      cs[timer := cs[timer].(access := 3, count := Divisor(freq), low := None)]
  }

  /** The status byte's low half, put into a control word, keeps mode and BCD bit. */
  lemma ControlKeepsMode(c: Counter, timer: byte, word: byte)
    requires CounterOk(c) && timer <= 2 && word == 64 * timer + 0x30 + StatusByte(c) % 16
    ensures word / 64 == timer && Control(c, word) == c.(access := 3, low := None)
  {
    var low := 2 * c.mode + c.bcd;
    assert StatusByte(c) == 16 * (4 * c.flags + c.access) + low && StatusByte(c) % 16 == low;
    assert word / 16 == 4 * timer + 3 && word / 2 == 32 * timer + 24 + c.mode;
  }

  /** `util_get_LSB` and `util_get_MSB`. */
  method Split(val: nat) returns (lsb: byte, msb: byte)
    requires val < 0x1_0000
    ensures lsb + 256 * msb == val
  {
    lsb, msb := val % 256, (val / 256) % 256;
  }

  /** The three port writes. */
  method Program(chip: Chip, timer: byte, word: byte, div: nat)
    requires Idle(chip.counters) && timer <= 2 && div < 0x1_0000 && word / 64 == timer
    requires Control(chip.counters[timer], word) == chip.counters[timer].(access := 3, low := None)
    modifies chip
    ensures chip.counters ==
            old(chip.counters)[timer := old(chip.counters)[timer].(access := 3, count := div, low := None)]
  {
    var lsb, msb := Split(div);
    chip.Outb(TIMER_CTRL, word);
    chip.Outb(TIMER_0 + timer, lsb);
    chip.Outb(TIMER_0 + timer, msb);
  }

  /** The division is cut to sixteen bits, which loses nothing. */
  method SixteenBitDivisor(freq: nat) returns (div: nat)
    requires 19 <= freq <= TIMER_FREQ
    ensures div == Divisor(freq) && div < 0x1_0000
  {
    DivisorFits(freq);
    div := (TIMER_FREQ / freq) % 0x1_0000;
  }

  method ControlWord(timer: byte, status: byte, ghost c: Counter) returns (word: byte)
    requires CounterOk(c) && timer <= 2 && status == StatusByte(c)
    ensures word / 64 == timer && Control(c, word) == c.(access := 3, low := None)
  {
    var lastBits := status % 16;
    word := 64 * timer + 0x30 + lastBits;
    ControlKeepsMode(c, timer, word);
  }

  method TimerSetFrequency(chip: Chip, timer: byte, freq: nat) returns (r: int)
    requires Idle(chip.counters)
    modifies chip
    ensures r == if Accepted(timer, freq) then 0 else 1
    ensures chip.counters == Requested(old(chip.counters), timer, freq)
  {
    var status;
    r, status := TimerGetConf(chip, timer);
    if r != 0 {
      return 1;
    }
    if freq < 19 || freq > TIMER_FREQ {
      return 1;
    }
    var controlWord := ControlWord(timer, status, chip.counters[timer]);
    var div := SixteenBitDivisor(freq);
    Program(chip, timer, controlWord, div);
    r := 0;
  }

  // ----- Every sequence of requests -----

  datatype Request = Request(timer: byte, freq: nat)

  ghost function AfterRequests(cs: seq<Counter>, rs: seq<Request>): (r: seq<Counter>)
    requires Idle(cs)
    ensures Idle(r)
  {
    if rs == [] then cs
    else Requested(AfterRequests(cs, rs[..|rs| - 1]), rs[|rs| - 1].timer, rs[|rs| - 1].freq)
  }

  /** The frequency of the last request for this timer that was accepted. */
  function LastAccepted(rs: seq<Request>, timer: nat): (f: Option<nat>)
    ensures f.Some? ==> 19 <= f.value <= TIMER_FREQ
  {
    if rs == [] then None
    else
      var last := rs[|rs| - 1];
      if Accepted(last.timer, last.freq) && last.timer == timer then Some(last.freq)
      else LastAccepted(rs[..|rs| - 1], timer)
  }

  /** After any requests every timer counts the divisor of its last accepted one, or what it counted at
      first; mode and BCD bit never change. */
  lemma {:induction false} LastRequestWins(cs: seq<Counter>, rs: seq<Request>, i: nat)
    requires Idle(cs) && i < 3
    ensures var c, f := AfterRequests(cs, rs)[i], LastAccepted(rs, i);
      && c.count == (if f.Some? then Divisor(f.value) else cs[i].count)
      && (f.None? ==> c == cs[i])
      && c.mode == cs[i].mode && c.bcd == cs[i].bcd && c.flags == cs[i].flags
  {
    if rs == [] {
    } else {
      LastRequestWins(cs, rs[..|rs| - 1], i);
    }
  }
}
