/** What arrives from the devices: scancodes, timer ticks and single mouse bytes, and the events that the
    main loop makes of them. */
module Wire {
  import opened Bytes
  import opened Cards
  import opened Deal
  import opened MousePackets
  import opened Session

  datatype Signal = Typed(code: int) | Byte(arrival: Arrival) | Clock(stray: nat, rng: Rng)

  /** The mouse branch of the loop. A byte of the error path is no event. A byte that completes a packet
      brings that packet's button and deltas; every other byte moves the pointer once more by the deltas of
      the last packet, and leaves the button as the screens have left it. */
  function EventOf(s: State, d: Decoder, g: Signal): Option<Event> {
    match g
    case Typed(code) => Some(Key(code))
    case Clock(stray, rng) => Some(Timer(stray, rng))
    case Byte(a) =>
      if a.bad || d.error then None
      else if Completes(d, a) then Some(Mouse(Receive(d, a).packet.lb, Receive(d, a).packet.dx, Receive(d, a).packet.dy))
      else Some(Mouse(s.lb, d.packet.dx, d.packet.dy))
  }

  function DecoderAfter(d: Decoder, g: Signal): Decoder {
    if g.Byte? then Receive(d, g.arrival) else d
  }

  /** The program in state s with assembler d makes the events `es` of the signals `gs`, and is then in
      state r with assembler d2. */
  ghost predicate Heard(s: State, d: Decoder, gs: seq<Signal>, es: seq<Event>, r: State, d2: Decoder)
    decreases |gs|
  {
    if gs == [] then es == [] && r == s && d2 == d
    else if EventOf(s, d, gs[0]).None? then Heard(s, DecoderAfter(d, gs[0]), gs[1..], es, r, d2)
    else
      var e := EventOf(s, d, gs[0]).value;
      && es != [] && es[0] == e && EventOk(s, e)
      && Heard(Step(s, e), DecoderAfter(d, gs[0]), gs[1..], es[1..], r, d2)
  }

  lemma HeardOne(s: State, d: Decoder, g: Signal, e: Event)
    requires EventOf(s, d, g) == Some(e) && EventOk(s, e)
    ensures Heard(s, d, [g], [e], Step(s, e), DecoderAfter(d, g))
  {
    assert Heard(Step(s, e), DecoderAfter(d, g), [g][1..], [e][1..], Step(s, e), DecoderAfter(d, g));
  }

  lemma {:induction false} HeardThen(s: State, d: Decoder, a: seq<Signal>, es: seq<Event>, m: State, d1: Decoder,
                                     b: seq<Signal>, fs: seq<Event>, r: State, d2: Decoder)
    requires Heard(s, d, a, es, m, d1) && Heard(m, d1, b, fs, r, d2)
    ensures Heard(s, d, a + b, es + fs, r, d2)
    decreases |a|
  {
    if a == [] {
      assert a + b == b && es + fs == fs;
    } else {
      assert (a + b)[0] == a[0] && (a + b)[1..] == a[1..] + b;
      var next := DecoderAfter(d, a[0]);
      if EventOf(s, d, a[0]).None? {
        HeardThen(s, next, a[1..], es, m, d1, b, fs, r, d2);
      } else {
        assert (es + fs)[0] == es[0] && (es + fs)[1..] == es[1..] + fs;
        HeardThen(Step(s, es[0]), next, a[1..], es[1..], m, d1, b, fs, r, d2);
      }
    }
  }

  /** The assembler as the program starts. */
  const INITIAL := Decoder(false, false, 0, 0, 0, 0, Packet(false, false, false, 0, 0, false, false), 0)

  /** Between two packets, the last of which did not move. */
  predicate Calm(d: Decoder) {
    (Fresh(d) || InFrame(d)) && d.packet.dx == 0 && d.packet.dy == 0
  }


  lemma PlayKeepsPointer(s: State, stray: nat)
    requires |s.board.cards| == |s.board.otherSide| == CARDS && stray < CARDS
    ensures var r := PlayTick(s, stray); r.mx == s.mx && r.my == s.my && r.lb == s.lb
  {
  }

  lemma OnlyMouseMoves(s: State, e: Event)
    requires EventOk(s, e) && !e.Mouse?
    ensures var r := Step(s, e); r.mx == s.mx && r.my == s.my && (r.lb ==> s.lb)
  {
    if s.running && e.Timer? && s.gs == Game && !s.initGame {
      PlayKeepsPointer(s.(ticks := s.ticks + 1), e.stray);
      assert Step(s, e) == PlayTick(s.(ticks := s.ticks + 1), e.stray);
    }
  }

  /** Once the assembler has lost the frame in its error path, the mouse is dead: whatever arrives, the pointer
      never moves again and no press is ever seen. */
  lemma {:induction false} LostMouseIsDead(s: State, d: Decoder, gs: seq<Signal>, es: seq<Event>, r: State, d2: Decoder)
    requires Lost(d) && Heard(s, d, gs, es, r, d2)
    ensures Lost(d2) && r.mx == s.mx && r.my == s.my && (r.lb ==> s.lb)
    ensures forall i :: 0 <= i < |es| ==> !es[i].Mouse?
    decreases |gs|
  {
    if gs == [] {
    } else {
      var next := DecoderAfter(d, gs[0]);
      if EventOf(s, d, gs[0]).None? {
        LostMouseIsDead(s, next, gs[1..], es, r, d2);
      } else {
        OnlyMouseMoves(s, es[0]);
        LostMouseIsDead(Step(s, es[0]), next, gs[1..], es[1..], r, d2);
        forall i | 0 <= i < |es| ensures !es[i].Mouse? {
          assert i > 0 ==> es[i] == es[1..][i - 1];
        }
      }
    }
  }
}
