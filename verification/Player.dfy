/** What a player can do with mouse and keyboard: point at any card, turn it up, wait for a wrong pair to
    turn back. */
module Player {
  import opened Bytes
  import opened Cards
  import opened Flip
  import opened Deal
  import opened Table
  import opened InPlay
  import opened Pointer
  import opened MousePackets
  import opened Session
  import opened Wire
  import opened Runs
  import opened Progress

  // ----- Reaching a state -----

  /** No event of the run deals again. */
  ghost predicate DealsNothing(s: State, es: seq<Event>)
    requires GoodRun(s, es)
  {
    es != [] ==> var n := |es| - 1; DealsNothing(s, es[..n]) && !Redeals(Run(s, es[..n]), es[n])
  }

  /** The disciplined run `es` leads from s to r within one game and reveals the cards `t`. */
  ghost predicate Leads(s: State, es: seq<Event>, r: State, t: seq<int>) {
    GoodRun(s, es) && DealsNothing(s, es) && r == Run(s, es) && t == Reveals(s, es)
  }

  ghost predicate Allowed(s: State, e: Event) {
    EventOk(s, e) && DisciplinedEvent(s, e) && !Redeals(s, e)
  }

  lemma LeadsOn(s: State, es: seq<Event>, m: State, t: seq<int>, e: Event, r: State, fs: seq<Event>, u: seq<int>)
    requires Leads(s, es, m, t) && Allowed(m, e) && r == Step(m, e)
    requires fs == es + [e] && u == t + Revealed(m, e)
    ensures Leads(s, fs, r, u)
  {
    assert fs[..|es|] == es;
  }

  lemma LastEvent(s: State, es: seq<Event>, r: State, t: seq<int>) returns (m: State, u: seq<int>)
    requires Leads(s, es, r, t) && es != []
    ensures var n := |es| - 1; Leads(s, es[..n], m, u) && Allowed(m, es[n]) && r == Step(m, es[n])
    ensures t == u + Revealed(m, es[|es| - 1])
  {
    m, u := Run(s, es[..|es| - 1]), Reveals(s, es[..|es| - 1]);
  }

  lemma SplitLast<T>(a: seq<T>, b: seq<T>, ab: seq<T>)
    requires ab == a + b && b != []
    ensures ab == (a + b[..|b| - 1]) + [b[|b| - 1]]
  {
  }

  lemma Regroup<T>(a: seq<T>, b: seq<T>, c: seq<T>)
    ensures a + (b + c) == (a + b) + c
  {
  }

  lemma {:induction false} Append(s: State, a: seq<Event>, m: State, t: seq<int>,
                                  b: seq<Event>, r: State, u: seq<int>, ab: seq<Event>, tu: seq<int>)
    requires Leads(s, a, m, t) && Leads(m, b, r, u) && ab == a + b && tu == t + u
    ensures Leads(s, ab, r, tu)
    decreases |b|
  {
    if b == [] {
      assert ab == a && tu == t;
    } else {
      var n := |b| - 1;
      var x, v := LastEvent(m, b, r, u);
      SplitLast(a, b, ab);
      Regroup(t, v, Revealed(x, b[n]));
      var front, tv := a + b[..n], t + v;
      Append(s, a, m, t, b[..n], x, v, front, tv);
      LeadsOn(s, front, x, tv, b[n], r, ab, tu);
    }
  }

  /** The signals `gs` lead from s to r, as the events `es`. */
  ghost predicate Carries(s: State, d: Decoder, gs: seq<Signal>, es: seq<Event>, r: State, d2: Decoder, t: seq<int>) {
    Leads(s, es, r, t) && Heard(s, d, gs, es, r, d2)
  }

  ghost predicate ReachesWith(s: State, d: Decoder, r: State, d2: Decoder, t: seq<int>) {
    exists gs, es :: Carries(s, d, gs, es, r, d2, t)
  }

  /** From an assembler between two packets to one. */
  ghost predicate ReachesFrom(s: State, d: Decoder, r: State, t: seq<int>) {
    exists d2 :: Calm(d2) && ReachesWith(s, d, r, d2, t)
  }

  /** The player can get from s to r, revealing the cards `t`, whatever bytes the assembler still holds. */
  ghost predicate Reaches(s: State, r: State, t: seq<int>) {
    forall d {:trigger ReachesFrom(s, d, r, t)} :: Calm(d) ==> ReachesFrom(s, d, r, t)
  }

  lemma CarriesThen(s: State, d: Decoder, a: seq<Signal>, es: seq<Event>, m: State, d1: Decoder, t: seq<int>,
                    b: seq<Signal>, fs: seq<Event>, r: State, d2: Decoder, u: seq<int>, tu: seq<int>)
    requires Carries(s, d, a, es, m, d1, t) && Carries(m, d1, b, fs, r, d2, u) && tu == t + u
    ensures ReachesWith(s, d, r, d2, tu)
  {
    var ab, gs := a + b, es + fs;
    Append(s, es, m, t, fs, r, u, gs, tu);
    HeardThen(s, d, a, es, m, d1, b, fs, r, d2);
    assert Carries(s, d, ab, gs, r, d2, tu);
  }

  lemma ThenWith(s: State, d: Decoder, m: State, d1: Decoder, r: State, d2: Decoder,
                 t: seq<int>, u: seq<int>, tu: seq<int>)
    requires ReachesWith(s, d, m, d1, t) && ReachesWith(m, d1, r, d2, u) && tu == t + u
    ensures ReachesWith(s, d, r, d2, tu)
  {
    var a, es :| Carries(s, d, a, es, m, d1, t);
    var b, fs :| Carries(m, d1, b, fs, r, d2, u);
    CarriesThen(s, d, a, es, m, d1, t, b, fs, r, d2, u, tu);
  }

  lemma ThenFrom(s: State, d: Decoder, m: State, r: State, t: seq<int>, u: seq<int>, tu: seq<int>)
    requires ReachesFrom(s, d, m, t) && Reaches(m, r, u) && tu == t + u
    ensures ReachesFrom(s, d, r, tu)
  {
    var d1 :| Calm(d1) && ReachesWith(s, d, m, d1, t);
    assert ReachesFrom(m, d1, r, u);
    var d2 :| Calm(d2) && ReachesWith(m, d1, r, d2, u);
    ThenWith(s, d, m, d1, r, d2, t, u, tu);
  }

  lemma Then(s: State, m: State, r: State, t: seq<int>, u: seq<int>, tu: seq<int>)
    requires Reaches(s, m, t) && Reaches(m, r, u) && tu == t + u
    ensures Reaches(s, r, tu)
  {
    forall d | Calm(d) ensures ReachesFrom(s, d, r, tu) {
      assert ReachesFrom(s, d, m, t);
      ThenFrom(s, d, m, r, t, u, tu);
    }
  }

  /** Nothing is revealed on the way. */
  lemma Quietly(s: State, m: State, r: State, u: seq<int>)
    requires Reaches(s, m, []) && Reaches(m, r, u)
    ensures Reaches(s, r, u)
  {
    Then(s, m, r, [], u, u);
  }

  lemma Here(s: State)
    ensures Reaches(s, s, [])
  {
    forall d | Calm(d) ensures ReachesFrom(s, d, s, []) {
      assert Leads(s, [], s, []) && Carries(s, d, [], [], s, d, []);
    }
  }

  lemma OneSignal(s: State, d: Decoder, g: Signal, e: Event, r: State)
    requires EventOf(s, d, g) == Some(e) && Allowed(s, e) && r == Step(s, e)
    ensures ReachesWith(s, d, r, DecoderAfter(d, g), Revealed(s, e))
  {
    LeadsOne(s, e, r);
    HeardOne(s, d, g, e);
    assert Carries(s, d, [g], [e], r, DecoderAfter(d, g), Revealed(s, e));
  }

  lemma LeadsOne(s: State, e: Event, r: State)
    requires Allowed(s, e) && r == Step(s, e)
    ensures Leads(s, [e], r, Revealed(s, e))
  {
    assert Leads(s, [], s, []);
    LeadsOn(s, [], s, [], e, r, [e], Revealed(s, e));
  }

  /** A scancode or a tick. */
  lemma One(s: State, e: Event, r: State)
    requires Allowed(s, e) && r == Step(s, e) && !e.Mouse?
    ensures Reaches(s, r, Revealed(s, e))
  {
    var g := if e.Key? then Typed(e.code) else Clock(e.stray, e.rng);
    forall d | Calm(d) ensures ReachesFrom(s, d, r, Revealed(s, e)) {
      OneSignal(s, d, g, e, r);
    }
  }

  /** The events behind a game the player can play from the start of the program. */
  lemma Signals(s: State, r: State, t: seq<int>) returns (gs: seq<Signal>, es: seq<Event>, d: Decoder)
    requires Reaches(s, r, t)
    ensures Carries(s, INITIAL, gs, es, r, d, t)
  {
    assert ReachesFrom(s, INITIAL, r, t) by {
      assert Calm(INITIAL);
    }
    d :| Calm(d) && ReachesWith(s, INITIAL, r, d, t);
    gs, es :| Carries(s, INITIAL, gs, es, r, d, t);
  }

  // ----- At the board -----

  predicate PointerVisible(s: State) {
    0 <= s.mx < X_RESOLUTION && 0 <= s.my < Y_RESOLUTION
  }

  /** The player is at the board, no button down, the pointer anywhere on the screen. */
  ghost predicate AtHand(s: State) {
    Inv(s) && Playing(s) && !s.lb && PointerVisible(s)
  }

  function Moved(s: State, pressed: bool, dx: int, dy: int): State {
    s.(lb := pressed, mx := MoveX(s.mx, dx), my := MoveY(s.my, dy))
  }

  lemma ByteMoves(s: State, d: Decoder, a: Arrival, pressed: bool, dx: int, dy: int)
    requires Inv(s) && Playing(s) && EventOf(s, d, Byte(a)) == Some(Mouse(pressed, dx, dy))
    ensures var r := Moved(s, pressed, dx, dy);
      Inv(r) && Playing(r) && ReachesWith(s, d, r, Receive(d, a), [])
  {
    var e := Mouse(pressed, dx, dy);
    QuietEvent(s, e);
    OneSignal(s, d, Byte(a), e, Moved(s, pressed, dx, dy));
  }

  /** What the assembler does with the three bytes of a packet. */
  lemma PacketBytes(d: Decoder, p: Packet, x: Arrival, y: Arrival, z: Arrival)
    requires (Fresh(d) || InFrame(d)) && Sendable(p) && Clean(Encode(p)) == [x, y, z]
    ensures var d1, d2, d3 := Receive(d, x), Receive(Receive(d, x), y), Receive(Receive(Receive(d, x), y), z);
      && !x.bad && !y.bad && !z.bad && !d.error && !d1.error && !d2.error
      && !Completes(d, x) && !Completes(d1, y) && Completes(d2, z)
      && d1.packet == d2.packet == d.packet && d3.packet == p && InFrame(d3)
  {
    DecodeEncode(p);
    var s := Clean(Encode(p));
    assert s[0] == x && s[1] == y && s[2] == z;
  }

  /** The first two bytes of a packet move the pointer by the packet before it, the third by its own. */
  lemma PacketMoves(s: State, d: Decoder, p: Packet, r: State) returns (d3: Decoder)
    requires Inv(s) && Playing(s) && (Fresh(d) || InFrame(d)) && Sendable(p)
    requires var q := d.packet; r == Moved(Moved(Moved(s, s.lb, q.dx, q.dy), s.lb, q.dx, q.dy), p.lb, p.dx, p.dy)
    ensures InFrame(d3) && d3.packet == p && ReachesWith(s, d, r, d3, []) && Inv(r) && Playing(r)
  {
    var q, b := d.packet, Clean(Encode(p));
    PacketBytes(d, p, b[0], b[1], b[2]);
    var s1 := Moved(s, s.lb, q.dx, q.dy);
    var s2 := Moved(s1, s.lb, q.dx, q.dy);
    var d1 := Receive(d, b[0]);
    var d2 := Receive(d1, b[1]);
    d3 := Receive(d2, b[2]);
    ByteMoves(s, d, b[0], s.lb, q.dx, q.dy);
    ByteMoves(s1, d1, b[1], s.lb, q.dx, q.dy);
    ByteMoves(s2, d2, b[2], p.lb, p.dx, p.dy);
    ThenWith(s, d, s1, d1, s2, d2, [], [], []);
    ThenWith(s, d, s2, d2, r, d3, [], [], []);
  }

  function Motion(pressed: bool, dx: int, dy: int): Packet {
    Packet(pressed, false, false, dx, dy, false, false)
  }

  /** A motion takes two packets, one with the deltas and one without, and is applied three times. */
  lemma MouseMoves(s: State, pressed: bool, dx: int, dy: int, r: State)
    requires Inv(s) && Playing(s) && PointerVisible(s) && -256 <= dx < 256 && -256 <= dy < 256
    requires r == Moved(Moved(Moved(s, pressed, dx, dy), pressed, dx, dy), pressed, dx, dy) && PointerVisible(r)
    ensures Inv(r) && Playing(r) && Reaches(s, r, [])
  {
    var m := Moved(s, pressed, dx, dy);
    assert Calm(INITIAL);
    forall d | Calm(d) ensures Inv(r) && Playing(r) && ReachesFrom(s, d, r, []) {
      assert Moved(s, s.lb, 0, 0) == s && Moved(r, pressed, 0, 0) == r;
      var d1 := PacketMoves(s, d, Motion(pressed, dx, dy), m);
      var d2 := PacketMoves(m, d1, Motion(pressed, 0, 0), r);
      ThenWith(s, d, m, d1, r, d2, [], [], []);
    }
  }

  /** Three pixels at a time to a column, give or take two. */
  lemma {:induction false} WalkX(s: State, x: int) returns (r: State)
    requires AtHand(s) && 0 < x < X_RESOLUTION - 10
    ensures AtHand(r) && r == s.(mx := r.mx) && x <= r.mx < x + 3 && Reaches(s, r, [])
    decreases if s.mx < x then x + 3 - s.mx else if s.mx < x + 3 then 0 else s.mx - x
  {
    if x <= s.mx < x + 3 {
      r := s;
      Here(s);
    } else {
      var m := s.(mx := if s.mx < x then s.mx + 3 else s.mx - 3);
      MouseMoves(s, false, if s.mx < x then 2 else -2, 0, m);
      r := WalkX(m, x);
      Quietly(s, m, r, []);
    }
  }

  /** Likewise to a row; going up from the lowest rows the pointer first jumps to row 585. */
  lemma {:induction false} WalkY(s: State, y: int) returns (r: State)
    requires AtHand(s) && 0 < y < Y_RESOLUTION - 25
    ensures AtHand(r) && r == s.(my := r.my) && y <= r.my < y + 3 && Reaches(s, r, [])
    decreases if s.my < y then y + 3 - s.my else if s.my < y + 3 then 0 else s.my - y
  {
    if y <= s.my < y + 3 {
      r := s;
      Here(s);
    } else {
      var m := s.(my := if s.my < y then s.my + 3 else MoveY(MoveY(MoveY(s.my, 2), 2), 2));
      MouseMoves(s, false, 0, if s.my < y then -2 else 2, m);
      r := WalkY(m, y);
      Quietly(s, m, r, []);
    }
  }

  lemma CornerIsUnder(c: nat, mx: int, my: int)
    requires c < CARDS
    requires var (x, y) := ScreenXY(c % 4, c / 4); x <= mx < x + 3 && y <= my < y + 3
    ensures CardUnder(mx, my) == Some(c)
  {
    HitIffUnder(c % 4, c / 4, mx, my);
  }

  /** From anywhere to any card. */
  lemma PointAt(s: State, c: nat) returns (r: State)
    requires AtHand(s) && c < CARDS
    ensures AtHand(r) && Reaches(s, r, []) && r == s.(mx := r.mx, my := r.my) && CardUnder(r.mx, r.my) == Some(c)
  {
    var (x, y) := ScreenXY(c % 4, c / 4);
    var m := WalkY(s, y);
    r := WalkX(m, x);
    CornerIsUnder(c, r.mx, r.my);
    Quietly(s, m, r, []);
  }

  // ----- Turning a card up -----

  const TICK := Timer(0, Rng(0, []))

  /** A tick without a press, or with nothing turning, is disciplined. */
  lemma TickAllowed(s: State)
    requires Inv(s) && s.gs == Game && (!s.lb || s.initGame || Still(s.board))
    ensures Allowed(s, TICK)
  {
    if s.lb && !s.initGame {
      StillIsDisciplined(s, TICK);
    }
  }

  lemma PointerStays(s: State, r: State)
    requires WellFormed(s.board) && InPlayTick(s, TICK) && r == Step(s, TICK)
    ensures r.lb == s.lb && r.mx == s.mx && r.my == s.my && r.scancode == s.scancode && r.ticks == s.ticks + 1
    ensures r.running && r.initGame == s.initGame && (s.gs == Game ==> r.gs in {Game, Pause, Exit})
  {
    StepIsPlay(s, TICK);
  }

  lemma StillRevealsNothing(s: State)
    requires Inv(s) && !s.initGame && Still(s.board)
    ensures Revealed(s, TICK) == []
  {
    DrawStill(s.board);
  }

  lemma PressTick(s: State, c: nat, r: State)
    requires Inv(s) && Playing(s) && Still(s.board) && s.lb && CardUnder(s.mx, s.my) == Some(c)
    requires s.board.cards[c].isFlipped && r == Step(s, TICK)
    ensures Inv(r) && Playing(r) && TurningUp(r.board, c) && Reaches(s, r, [])
    ensures r.board.cards == s.board.cards[c := s.board.cards[c].(isFlipping := true)]
    ensures r.mx == s.mx && r.my == s.my && r.lives == s.lives
  {
    TickAllowed(s);
    PressStartsCard(s, TICK, c);
    StepKeepsInv(s, TICK);
    PointerStays(s, r);
    StillRevealsNothing(s);
    One(s, TICK, r);
  }

  /** Point at a face-down card of a still board, press, wait for the tick, release. */
  lemma StartCard(s: State, c: nat) returns (r: State)
    requires AtHand(s) && Still(s.board) && c < CARDS && s.board.cards[c].isFlipped
    ensures AtHand(r) && TurningUp(r.board, c) && Reaches(s, r, []) && r.lives == s.lives
    ensures r.board.cards == s.board.cards[c := s.board.cards[c].(isFlipping := true)]
  {
    var s1 := PointAt(s, c);
    var s2 := s1.(lb := true);
    MouseMoves(s1, true, 0, 0, s2);
    var s3 := Step(s2, TICK);
    PressTick(s2, c, s3);
    r := s3.(lb := false);
    MouseMoves(s3, false, 0, 0, r);
    Quietly(s2, s3, r, []);
    Quietly(s1, s2, r, []);
    Quietly(s, s1, r, []);
  }

  lemma UpTickRevealsNothing(s: State, c: nat)
    requires Inv(s) && Playing(s) && TurningUp(s.board, c) && TicksFor(FramesUp(s.board, c), s.ticks) > 1
    ensures Revealed(s, TICK) == []
  {
    UpFrame(s.board, c, s.ticks);
    assert Shown(s.board, InputOf(s, 0).draws) == {};
  }

  lemma WaitOneUp(s: State, c: nat, r: State)
    requires AtHand(s) && TurningUp(s.board, c) && TicksFor(FramesUp(s.board, c), s.ticks) > 1
    requires EventOk(s, TICK) && r == Step(s, TICK)
    ensures AtHand(r) && TurningUp(r.board, c) && Reaches(s, r, []) && r.lives == s.lives
    ensures r.board.cards == s.board.cards
    ensures TicksFor(FramesUp(r.board, c), r.ticks) == TicksFor(FramesUp(s.board, c), s.ticks) - 1
  {
    TickAllowed(s);
    UpTickRevealsNothing(s, c);
    UpTick(s, TICK, c);
    StepKeepsInv(s, TICK);
    PointerStays(s, r);
    One(s, TICK, r);
  }

  /** Wait until one tick is missing. */
  lemma {:induction false} WaitUp(s: State, c: nat) returns (r: State)
    requires AtHand(s) && TurningUp(s.board, c)
    ensures AtHand(r) && TurningUp(r.board, c) && Reaches(s, r, []) && r.lives == s.lives
    ensures r.board.cards == s.board.cards && TicksFor(FramesUp(r.board, c), r.ticks) == 1
    decreases TicksFor(FramesUp(s.board, c), s.ticks)
  {
    if TicksFor(FramesUp(s.board, c), s.ticks) == 1 {
      r := s;
      Here(s);
    } else {
      TickAllowed(s);
      var m := Step(s, TICK);
      WaitOneUp(s, c, m);
      r := WaitUp(m, c);
      Quietly(s, m, r, []);
    }
  }

  // ----- The tick that shows it -----

  ghost predicate Downward(b: Board) {
    exists p: nat, q: nat :: TurningDown(b, p, q)
  }

  lemma CheckUnpressedBoard(d: Board, lives: nat, i: Input)
    requires Common(d) && Quiet(d) && InputOk(i) && !i.lb
    requires AtMostOneOpen(d.cards) || exists p: nat, q: nat :: PairUp(d, p, q)
    ensures var r := AfterFrame(d, lives, i.lb, i.under, i.stray).board; Still(r) || Downward(r)
  {
    if AtMostOneOpen(d.cards) {
      ScanOfOne(d.cards, lives);
    } else {
      var p: nat, q: nat :| PairUp(d, p, q);
      CheckUnpressedPair(d, lives, p, q);
      if FaceOf(d.cards[p]) == FaceOf(d.cards[q]) {
        assert p !in Moving(d.cards) && q !in Moving(d.cards);
        MatchKeepsCommon(d, p, q);
      } else {
        SendBackStartsTurn(d, p, q);
      }
    }
  }

  lemma ShownBoard(b: Board, c: nat, lives: nat, i: Input)
    requires PlayBoard(b) && TurningUp(b, c) && b.otherSide[c] == 1 && b.width == 1 && InputOk(i) && !i.lb && i.draws
    ensures var r := InPlay.Tick(b, lives, i).board; Still(r) || Downward(r)
  {
    FrameShows(b, c);
    ShownAtLast(b, c);
    if o :| o in OpenSet(b.cards) {
      var p, q := ShownMakesPair(b, true, o, c);
    }
    CheckUnpressedBoard(Draw(b), lives, i);
  }

  /** After the tick the game goes on, or it has ended. */
  lemma PlayOrEnd(s: State, r: State)
    requires EventOk(s, TICK) && Playing(s) && r == Step(s, TICK)
    ensures r.gs == Game || (r.gs == Exit && (r.gameOver || r.victory))
    ensures r.board == InPlay.Tick(s.board, s.lives, InputOf(s, 0)).board
  {
    StepIsPlay(s, TICK);
  }

  /** The player can go on: nothing turns, or a wrong pair does. */
  ghost predicate Playable(s: State) {
    AtHand(s) && (Still(s.board) || Downward(s.board))
  }

  ghost predicate Ready(s: State) {
    AtHand(s) && Still(s.board)
  }

  ghost predicate Ended(s: State) {
    Inv(s) && (s.gameOver || s.victory)
  }

  lemma ShowTick(s: State, c: nat, r: State)
    requires AtHand(s) && TurningUp(s.board, c) && TicksFor(FramesUp(s.board, c), s.ticks) == 1
    requires EventOk(s, TICK) && r == Step(s, TICK)
    ensures Reaches(s, r, [c]) && (Playable(r) || Ended(r))
  {
    TickAllowed(s);
    LastUpTick(s, TICK, c);
    One(s, TICK, r);
    StepKeepsInv(s, TICK);
    PointerStays(s, r);
    ShownBoard(s.board, c, s.lives, InputOf(s, 0));
    PlayOrEnd(s, r);
  }

  // ----- A wrong pair turns back -----

  lemma WaitOneDown(s: State, p: nat, q: nat, r: State)
    requires AtHand(s) && TurningDown(s.board, p, q) && TicksFor(FramesDown(s.board, p), s.ticks) > 1
    requires EventOk(s, TICK) && r == Step(s, TICK)
    ensures AtHand(r) && TurningDown(r.board, p, q) && Reaches(s, r, [])
    ensures TicksFor(FramesDown(r.board, p), r.ticks) == TicksFor(FramesDown(s.board, p), s.ticks) - 1
  {
    TickAllowed(s);
    DownRevealsNothing(s, p, q);
    DownTick(s, TICK, p, q);
    StepKeepsInv(s, TICK);
    PointerStays(s, r);
    One(s, TICK, r);
  }

  lemma DownRevealsNothing(s: State, p: nat, q: nat)
    requires Inv(s) && Playing(s) && TurningDown(s.board, p, q)
    ensures Revealed(s, TICK) == []
  {
    DownShowsNothing(s.board, p, q);
  }

  lemma HiddenBoard(b: Board, p: nat, q: nat, lives: nat, i: Input)
    requires PlayBoard(b) && TurningDown(b, p, q) && b.otherSide[p] == 1 && b.width == 5
    requires InputOk(i) && !i.lb && i.draws
    ensures Still(InPlay.Tick(b, lives, i).board) && !AllMatched(InPlay.Tick(b, lives, i).board.cards)
    ensures !InPlay.Tick(b, lives, i).over
  {
    FrameHides(b, p, q);
    PairMoves(b, p, q);
    ScanOfOne(Draw(b).cards, lives);
    assert p in OpenSet(b.cards);
    assert !AtRest(b, true).cards[p].flipSuccess;
  }

  lemma HideTickBoard(s: State, p: nat, q: nat, r: State)
    requires AtHand(s) && TurningDown(s.board, p, q) && TicksFor(FramesDown(s.board, p), s.ticks) == 1
    requires EventOk(s, TICK) && r == Step(s, TICK)
    ensures r.gs == Game && Still(r.board)
  {
    OneFrameLeft(s.board, p, q, s.ticks);
    HiddenBoard(s.board, p, q, s.lives, InputOf(s, 0));
    GameGoesOn(s, r, InPlay.Tick(s.board, s.lives, InputOf(s, 0)));
  }

  lemma HideTick(s: State, p: nat, q: nat, r: State)
    requires AtHand(s) && TurningDown(s.board, p, q) && TicksFor(FramesDown(s.board, p), s.ticks) == 1
    requires EventOk(s, TICK) && r == Step(s, TICK)
    ensures Reaches(s, r, []) && Ready(r)
  {
    TickAllowed(s);
    DownRevealsNothing(s, p, q);
    One(s, TICK, r);
    StepKeepsInv(s, TICK);
    PointerStays(s, r);
    HideTickBoard(s, p, q, r);
  }

  lemma GameGoesOn(s: State, r: State, t: Ticked)
    requires EventOk(s, TICK) && Playing(s) && r == Step(s, TICK)
    requires t == InPlay.Tick(s.board, s.lives, InputOf(s, 0)) && !t.over && !AllMatched(t.board.cards)
    ensures r.gs == Game && r.board == t.board
  {
    StepIsPlay(s, TICK);
  }

  lemma {:induction false} WaitDown(s: State, p: nat, q: nat) returns (r: State)
    requires AtHand(s) && TurningDown(s.board, p, q)
    ensures Reaches(s, r, []) && Ready(r)
    decreases TicksFor(FramesDown(s.board, p), s.ticks)
  {
    TickAllowed(s);
    var m := Step(s, TICK);
    if TicksFor(FramesDown(s.board, p), s.ticks) == 1 {
      HideTick(s, p, q, m);
      r := m;
    } else {
      WaitOneDown(s, p, q, m);
      r := WaitDown(m, p, q);
      Quietly(s, m, r, []);
    }
  }

  lemma Settle(s: State) returns (r: State)
    requires Playable(s)
    ensures Reaches(s, r, []) && Ready(r)
  {
    if Still(s.board) {
      Here(s);
      r := s;
    } else {
      var p: nat, q: nat :| TurningDown(s.board, p, q);
      r := WaitDown(s, p, q);
    }
  }

  lemma ShowCard(s: State, c: nat) returns (r: State)
    requires Ready(s) && c < CARDS && s.board.cards[c].isFlipped
    ensures Reaches(s, r, [c]) && (Playable(r) || Ended(r))
  {
    var s1 := StartCard(s, c);
    var s2 := WaitUp(s1, c);
    TickAllowed(s2);
    r := Step(s2, TICK);
    ShowTick(s2, c, r);
    Quietly(s1, s2, r, [c]);
    Quietly(s, s1, r, [c]);
  }

  /** Any face-down card can be turned up next. */
  lemma RevealCard(s: State, c: nat) returns (r: State)
    requires Ready(s) && c < CARDS && s.board.cards[c].isFlipped
    ensures Reaches(s, r, [c]) && (Ready(r) || Ended(r))
  {
    var m := ShowCard(s, c);
    if Ended(m) {
      r := m;
    } else {
      r := Settle(m);
      Then(s, m, r, [c], [], [c]);
    }
  }
}
