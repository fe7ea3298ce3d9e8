/** Every turn ends, and exactly when: how many timer ticks a card takes to turn up and a wrong pair to
    turn down, whatever keys and mouse do meanwhile, unless the game is paused. */
module Progress {
  import opened Bytes
  import opened Cards
  import opened Flip
  import opened Table
  import opened InPlay
  import opened Session
  import opened Runs

  /** The game is on the screen and not about to be paused. */
  predicate Playing(s: State) {
    s.running && s.gs == Game && !s.initGame && s.scancode != ESCAPE
  }

  /** Frames until the card turning up is shown, by the side it shows and the width. */
  function FramesUp(b: Board, p: nat): int
    requires p < |b.otherSide|
  {
    if b.otherSide[p] == 0 then 22 - b.width else b.width
  }

  /** Frames until the pair turning down is hidden: two calls a frame, width steps of four. */
  function FramesDown(b: Board, p: nat): int
    requires p < |b.otherSide|
  {
    if b.otherSide[p] == 0 then 5 - b.width / 4 else b.width / 4
  }

  /** Ticks that hold a number of frames, one on every even tick. */
  function TicksFor(frames: int, ticks: nat): int {
    2 * frames - if (ticks + 1) % 2 == 0 then 1 else 0
  }

  function TicksIn(es: seq<Event>): nat {
    if es == [] then 0 else TicksIn(es[..|es| - 1]) + if es[|es| - 1].Timer? then 1 else 0
  }

  /** No event asks for the pause menu. */
  predicate NoPause(es: seq<Event>) {
    forall i :: 0 <= i < |es| ==> es[i] != Key(ESCAPE)
  }

  // ----- One event -----

  /** A tick whose frame leaves the same cards turning changes only the animation. */
  lemma TurningTick(s: State, e: Event)
    requires Inv(s) && Playing(s) && e.Timer? && EventOk(s, e)
    requires var d := Frame(s.board, (s.ticks + 1) % 2 == 0); PlayBoard(d) && !Still(d)
    ensures var r := Step(s, e);
      Playing(r) && r.ticks == s.ticks + 1 && r.lives == s.lives && r.board == Frame(s.board, (s.ticks + 1) % 2 == 0)
  {
    var i := InputOf(s, e.stray);
    var d := Frame(s.board, i.draws);
    CheckTurning(d, s.lives, i.lb, i.under, i.stray);
    SomethingTurns(d);
    assert !AllMatched(d.cards);
    StepIsPlay(s, e);
  }

  lemma StepIsPlay(s: State, e: Event)
    requires EventOk(s, e) && s.running && e.Timer? && s.gs == Game && !s.initGame
    ensures Step(s, e) == PlayTick(s.(ticks := s.ticks + 1), e.stray)
  {
  }

  /** Keys and mouse do not reach the board. */
  lemma QuietEvent(s: State, e: Event)
    requires Inv(s) && Playing(s) && !e.Timer? && e != Key(ESCAPE) && EventOk(s, e)
    ensures var r := Step(s, e); Inv(r) && Playing(r) && r.board == s.board && r.ticks == s.ticks
  {
    ScreenStep(s, e);
  }

  // ----- Turning up -----

  lemma UpFrame(b: Board, p: nat, ticks: nat)
    requires Common(b) && TurningUp(b, p) && TicksFor(FramesUp(b, p), ticks) > 1
    ensures var d := Frame(b, (ticks + 1) % 2 == 0);
      && Common(d) && TurningUp(d, p) && d.cards == b.cards
      && TicksFor(FramesUp(d, p), ticks + 1) == TicksFor(FramesUp(b, p), ticks) - 1
  {
    if (ticks + 1) % 2 == 0 {
      SingleMoves(b, p);
      FrameKeepsTurningUp(b, p);
      FrameTurningUp(b, p);
    }
  }

  lemma TurningUpPlays(d: Board, p: nat)
    requires Common(d) && TurningUp(d, p)
    ensures PlayBoard(d) && !Still(d)
  {
    assert p in Moving(d.cards);
  }

  lemma UpTick(s: State, e: Event, p: nat)
    requires Inv(s) && Playing(s) && e.Timer? && EventOk(s, e) && TurningUp(s.board, p)
    requires TicksFor(FramesUp(s.board, p), s.ticks) > 1
    ensures var r := Step(s, e);
      && Playing(r) && TurningUp(r.board, p) && r.board.cards == s.board.cards && r.lives == s.lives
      && TicksFor(FramesUp(r.board, p), r.ticks) == TicksFor(FramesUp(s.board, p), s.ticks) - 1
  {
    UpFrame(s.board, p, s.ticks);
    TurningUpPlays(Frame(s.board, (s.ticks + 1) % 2 == 0), p);
    TurningTick(s, e);
  }

  lemma {:induction false} StillTurningUp(s: State, es: seq<Event>, p: nat)
    requires Inv(s) && Playing(s) && TurningUp(s.board, p) && GoodRun(s, es) && NoPause(es)
    requires TicksIn(es) < TicksFor(FramesUp(s.board, p), s.ticks)
    ensures var r := Run(s, es);
      && Inv(r) && Playing(r) && TurningUp(r.board, p) && r.board.cards == s.board.cards
      && TicksFor(FramesUp(r.board, p), r.ticks) == TicksFor(FramesUp(s.board, p), s.ticks) - TicksIn(es)
  {
    if es == [] {
    } else {
      var n := |es| - 1;
      StillTurningUp(s, es[..n], p);
      var r, e := Run(s, es[..n]), es[n];
      StepKeepsInv(r, e);
      if e.Timer? { UpTick(r, e, p); } else { QuietEvent(r, e); }
    }
  }

  lemma LastUpTick(r: State, e: Event, p: nat)
    requires Inv(r) && Playing(r) && TurningUp(r.board, p) && TicksFor(FramesUp(r.board, p), r.ticks) == 1
    requires e.Timer? && EventOk(r, e)
    ensures Revealed(r, e) == [p]
  {
    ShownAtLast(r.board, p);
  }

  /** A card that turns up is shown by exactly the tick its width foretells, and by none before. */
  lemma CardIsShownOnTime(s: State, es: seq<Event>, r: State, e: Event, p: nat)
    requires Inv(s) && Playing(s) && TurningUp(s.board, p) && GoodRun(s, es) && NoPause(es)
    requires TicksIn(es) == TicksFor(FramesUp(s.board, p), s.ticks) - 1
    requires r == Run(s, es) && e.Timer? && EventOk(r, e)
    ensures r.board.cards == s.board.cards
    ensures Revealed(r, e) == [p]
  {
    StillTurningUp(s, es, p);
    LastUpTick(r, e, p);
  }

  lemma ShownAtLast(b: Board, p: nat)
    requires PlayBoard(b) && TurningUp(b, p) && b.otherSide[p] == 1 && b.width == 1
    ensures Shown(b, true) == {p}
  {
    FrameShows(b, p);
    SingleMoves(b, p);
    assert p in Shown(b, true);
    FrameSpec(b, true);
  }

  /** The tick of a press on a face-down card of a still board starts that card. */
  lemma PressStartsCard(s: State, e: Event, c: nat)
    requires Inv(s) && Playing(s) && e.Timer? && EventOk(s, e)
    requires Still(s.board) && s.lb && CardUnder(s.mx, s.my) == Some(c) && s.board.cards[c].isFlipped
    ensures var r := Step(s, e);
      && Playing(r) && TurningUp(r.board, c) && r.ticks == s.ticks + 1 && r.lives == s.lives
      && r.board == s.board.(cards := s.board.cards[c := s.board.cards[c].(isFlipping := true)])
      && FramesUp(r.board, c) == 21
  {
    DrawStill(s.board);
    ClickStartsCardUnder(s.board, Some(c), e.stray);
    StartTurningUp(s.board, c);
    ScanOfOne(Clicked(s.board.cards, Some(c), e.stray), s.lives);
    assert !AllMatched(s.board.cards[c := s.board.cards[c].(isFlipping := true)]);
    StepIsPlay(s, e);
  }

  /** From the press on: the card is shown 42 ticks after a press taken by an even tick, 41 after one taken
      by an odd tick, whatever keys and mouse do meanwhile, unless the game is paused. */
  lemma PressedCardIsShownOnTime(s: State, press: Event, r: State, es: seq<Event>, last: State, e: Event, c: nat)
    requires Inv(s) && Playing(s) && press.Timer? && EventOk(s, press) && r == Step(s, press)
    requires Still(s.board) && s.lb && CardUnder(s.mx, s.my) == Some(c) && s.board.cards[c].isFlipped
    requires GoodRun(r, es) && NoPause(es)
    requires TicksIn(es) + 1 == if (s.ticks + 1) % 2 == 0 then 42 else 41
    requires last == Run(r, es) && e.Timer? && EventOk(last, e)
    ensures last.board.cards == r.board.cards && Revealed(last, e) == [c]
  {
    PressKeepsPlaying(s, press, r, c);
    StartedCardIsShownOnTime(r, es, last, e, c);
  }

  lemma StartedCardIsShownOnTime(r: State, es: seq<Event>, last: State, e: Event, c: nat)
    requires Inv(r) && Playing(r) && TurningUp(r.board, c) && FramesUp(r.board, c) == 21
    requires GoodRun(r, es) && NoPause(es)
    requires TicksIn(es) + 1 == if r.ticks % 2 == 0 then 42 else 41
    requires last == Run(r, es) && e.Timer? && EventOk(last, e)
    ensures last.board.cards == r.board.cards && Revealed(last, e) == [c]
  {
    CardIsShownOnTime(r, es, last, e, c);
  }

  lemma PressKeepsPlaying(s: State, press: Event, r: State, c: nat)
    requires Inv(s) && Playing(s) && press.Timer? && EventOk(s, press) && r == Step(s, press)
    requires Still(s.board) && s.lb && CardUnder(s.mx, s.my) == Some(c) && s.board.cards[c].isFlipped
    ensures Inv(r) && Playing(r) && TurningUp(r.board, c) && r.ticks == s.ticks + 1 && FramesUp(r.board, c) == 21
  {
    PressStartsCard(s, press, c);
    StillIsDisciplined(s, press);
    StepKeepsInv(s, press);
  }

  lemma StillIsDisciplined(s: State, e: Event)
    requires Inv(s) && EventOk(s, e) && (InPlayTick(s, e) ==> Still(s.board))
    ensures DisciplinedEvent(s, e)
  {
    if InPlayTick(s, e) {
      DrawStill(s.board);
    }
  }

  // ----- Turning down -----

  lemma DownFrame(b: Board, p: nat, q: nat, ticks: nat)
    requires Common(b) && TurningDown(b, p, q) && TicksFor(FramesDown(b, p), ticks) > 1
    ensures var d := Frame(b, (ticks + 1) % 2 == 0);
      && Common(d) && TurningDown(d, p, q) && d.cards == b.cards
      && TicksFor(FramesDown(d, p), ticks + 1) == TicksFor(FramesDown(b, p), ticks) - 1
  {
    if (ticks + 1) % 2 == 0 {
      PairMoves(b, p, q);
      FrameKeepsTurningDown(b, p, q);
      FrameTurningDown(b, p, q);
    }
  }

  lemma TurningDownPlays(d: Board, p: nat, q: nat)
    requires Common(d) && TurningDown(d, p, q)
    ensures PlayBoard(d) && !Still(d)
  {
    assert p in Moving(d.cards);
  }

  lemma DownTick(s: State, e: Event, p: nat, q: nat)
    requires Inv(s) && Playing(s) && e.Timer? && EventOk(s, e) && TurningDown(s.board, p, q)
    requires TicksFor(FramesDown(s.board, p), s.ticks) > 1
    ensures var r := Step(s, e);
      && Playing(r) && TurningDown(r.board, p, q) && r.board.cards == s.board.cards && r.lives == s.lives
      && TicksFor(FramesDown(r.board, p), r.ticks) == TicksFor(FramesDown(s.board, p), s.ticks) - 1
  {
    DownFrame(s.board, p, q, s.ticks);
    TurningDownPlays(Frame(s.board, (s.ticks + 1) % 2 == 0), p, q);
    TurningTick(s, e);
  }

  lemma {:induction false} StillTurningDown(s: State, es: seq<Event>, p: nat, q: nat)
    requires Inv(s) && Playing(s) && TurningDown(s.board, p, q) && GoodRun(s, es) && NoPause(es)
    requires TicksIn(es) < TicksFor(FramesDown(s.board, p), s.ticks)
    ensures var r := Run(s, es);
      && Inv(r) && Playing(r) && TurningDown(r.board, p, q) && r.board.cards == s.board.cards
      && TicksFor(FramesDown(r.board, p), r.ticks) == TicksFor(FramesDown(s.board, p), s.ticks) - TicksIn(es)
  {
    if es == [] {
    } else {
      var n := |es| - 1;
      StillTurningDown(s, es[..n], p, q);
      var r, e := Run(s, es[..n]), es[n];
      StepKeepsInv(r, e);
      if e.Timer? { DownTick(r, e, p, q); } else { QuietEvent(r, e); }
    }
  }

  lemma LastDownFrame(b: Board, lives: nat, i: Input, p: nat, q: nat)
    requires PlayBoard(b) && TurningDown(b, p, q) && b.otherSide[p] == 1 && b.width == 5 && InputOk(i) && i.draws
    ensures var r := InPlay.Tick(b, lives, i);
      WellFormed(r.board) && r.lives == lives && r.board.cards[p].isFlipped && r.board.cards[q].isFlipped
  {
    FrameHides(b, p, q);
    PairMoves(b, p, q);
    NothingOpen(AtRest(b, true), lives, i);
  }

  lemma OneFrameLeft(b: Board, p: nat, q: nat, ticks: nat)
    requires TurningDown(b, p, q) && TicksFor(FramesDown(b, p), ticks) == 1
    ensures b.otherSide[p] == 1 && b.width == 5 && (ticks + 1) % 2 == 0
  {
  }

  /** In the last frame the pair is hidden, and no press or check of the same tick brings it back. */
  lemma LastDownTick(r: State, e: Event, p: nat, q: nat)
    requires Inv(r) && Playing(r) && e.Timer? && EventOk(r, e)
    requires TurningDown(r.board, p, q) && TicksFor(FramesDown(r.board, p), r.ticks) == 1
    ensures Hidden(Step(r, e), p) && Hidden(Step(r, e), q) && Step(r, e).lives == r.lives
  {
    OneFrameLeft(r.board, p, q, r.ticks);
    LastDownFrame(r.board, r.lives, InputOf(r, e.stray), p, q);
    StepIsPlay(r, e);
  }

  /** With nothing open and nothing turning, a press starts at most one card and the check does nothing. */
  lemma NothingOpen(d: Board, lives: nat, i: Input)
    requires Common(d) && Quiet(d) && OpenSet(d.cards) == {} && InputOk(i)
    ensures var r := AfterFrame(d, lives, i.lb, i.under, i.stray);
      && WellFormed(r.board) && r.lives == lives
      && forall k :: 0 <= k < CARDS ==> r.board.cards[k].isFlipped == d.cards[k].isFlipped
  {
    ClickStartsCardUnder(d, i.under, i.stray);
    ScanOfOne(d.cards, lives);
    if i.lb && i.under.Some? && d.cards[i.under.value].isFlipped {
      StartTurningUp(d, i.under.value);
      ScanOfOne(Clicked(d.cards, i.under, i.stray), lives);
    }
  }

  /** A wrong pair lies face down again after exactly the tick its width foretells, and not before. */
  lemma PairIsHiddenOnTime(s: State, es: seq<Event>, r: State, e: Event, p: nat, q: nat)
    requires Inv(s) && Playing(s) && TurningDown(s.board, p, q) && GoodRun(s, es) && NoPause(es)
    requires TicksIn(es) == TicksFor(FramesDown(s.board, p), s.ticks) - 1
    requires r == Run(s, es) && e.Timer? && EventOk(r, e)
    ensures r.board.cards == s.board.cards
    ensures Hidden(Step(r, e), p) && Hidden(Step(r, e), q)
  {
    StillTurningDown(s, es, p, q);
    LastDownTick(r, e, p, q);
  }

  /** The tick that charges a pair leaves it turning down with ten ticks to go. */
  lemma ChargeTick(s: State, e: Event, r: State) returns (p: nat, q: nat)
    requires Inv(s) && Playing(s) && e.Timer? && EventOk(s, e) && DisciplinedEvent(s, e)
    requires r == Step(s, e) && r.lives < s.lives
    ensures Inv(r) && TurningDown(r.board, p, q) && TicksFor(FramesDown(r.board, p), r.ticks) == 10
    ensures r.lives > 0 ==> Playing(r)
  {
    var i := InputOf(s, e.stray);
    PlayTickKeeps(s, e);
    p, q := ChargeSendsBack(s.board, s.lives, i);
    ChargedPlays(s, e, r, p, q);
  }

  lemma ChargedPlays(s: State, e: Event, r: State, p: nat, q: nat)
    requires Playing(s) && e.Timer? && EventOk(s, e) && r == Step(s, e) && Inv(r) && TurningDown(r.board, p, q)
    ensures r.ticks == s.ticks + 1 && (r.lives > 0 ==> Playing(r))
  {
    assert p in OpenSet(r.board.cards);
    StepIsPlay(s, e);
  }

  /** From the charge on: if a life is left, the wrong pair lies face down again after exactly the tenth tick,
      and no card changes before. */
  lemma ChargedPairIsHiddenOnTime(s: State, charge: Event, r: State, es: seq<Event>, last: State, e: Event)
    returns (p: nat, q: nat)
    requires Inv(s) && Playing(s) && charge.Timer? && EventOk(s, charge) && DisciplinedEvent(s, charge)
    requires r == Step(s, charge) && 0 < r.lives < s.lives && GoodRun(r, es) && NoPause(es) && TicksIn(es) == 9
    requires last == Run(r, es) && e.Timer? && EventOk(last, e)
    ensures p < q && OpenSet(r.board.cards) == {p, q} && last.board.cards == r.board.cards
    ensures Hidden(Step(last, e), p) && Hidden(Step(last, e), q)
  {
    p, q := ChargeTick(s, charge, r);
    PairIsHiddenOnTime(r, es, last, e, p, q);
  }

  predicate Hidden(s: State, c: nat) {
    c < |s.board.cards| && s.board.cards[c].isFlipped
  }
}
