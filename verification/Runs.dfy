/** What holds over every run of the main loop. */
module Runs {
  import opened Bytes
  import opened Cards
  import opened Flip
  import opened Deal
  import opened Table
  import opened InPlay
  import opened DrawSafety
  import opened Session
  import opened Rules

  // ----- The invariant -----

  /** A board that has been dealt and not yet turned down. */
  ghost predicate FreshBoard(b: Board) {
    FreshDeck(b.cards) && Quiet(b)
  }

  ghost predicate BoardInv(s: State) {
    if s.initGame then FreshBoard(s.board) else PlayBoard(s.board)
  }

  ghost predicate ScreenInv(s: State) {
    && s.lives <= LIVES
    && (s.initGame ==> s.lives == LIVES && !s.gameOver && !s.victory)
    && (s.gs == Menu || s.gs == Game || s.gs == Pause || s.gs == Instructions || s.gs == Exit)
    && (s.gs == Menu ==> s.initGame)
    && (s.gs == Pause ==> !s.initGame)
    && (s.gs == Instructions ==> (s.prevState == Game <==> !s.initGame))
    && (s.prevState == Game ==> s.gs == Instructions)
    && (s.gameOver <==> s.lives == 0)
    && (s.isAlive <==> !s.gameOver)
    && (s.gameOver || s.victory ==> s.gs == Exit && Resting(s.board))
    && (s.victory ==> !s.gameOver && AllMatched(s.board.cards))
    && (!s.running ==> s.gs == Exit && !s.gameOver && !s.victory)
  }

  ghost predicate Inv(s: State) {
    BoardInv(s) && ScreenInv(s)
  }

  /** The animation state that a new deal inherits. */
  ghost predicate Resting(b: Board) {
    WellFormed(b) && b.width == 1 && forall i :: 0 <= i < CARDS ==> b.otherSide[i] == 0
  }

  function InputOf(s: State, stray: nat): Input {
    Input((s.ticks + 1) % 2 == 0, s.lb, CardUnder(s.mx, s.my), stray)
  }

  predicate InPlayTick(s: State, e: Event) {
    s.running && e.Timer? && s.gs == Game && !s.initGame
  }

  /** The two-card discipline for one event of a run. */
  ghost predicate DisciplinedEvent(s: State, e: Event)
    requires EventOk(s, e)
  {
    InPlayTick(s, e) ==> Disciplined(s.board, InputOf(s, e.stray))
  }

  // ----- Every step keeps it -----

  lemma FreshTurnedDown(b: Board)
    requires FreshBoard(b)
    ensures var r := AtRest(b.(cards := AllTurning(b.cards)), true);
      Common(r) && Still(r) && Faces(r.cards) == Faces(b.cards) && MatchedSet(r.cards) == {} && Waiting(r.cards) == {}
  {
    var r := AtRest(b.(cards := AllTurning(b.cards)), true);
    assert Faces(r.cards) == Faces(b.cards);
    forall i | 0 <= i < CARDS ensures r.cards[i].isFlipped && !r.cards[i].isFlipping && !r.cards[i].flipSuccess {
      assert JustDealt(b.cards[i]);
    }
    assert OpenSet(r.cards) == {};
  }

  lemma OpeningKeeps(b: Board)
    requires FreshBoard(b)
    ensures Draw(b) == b
    ensures var r := Draw(b.(cards := AllTurning(b.cards)));
      && PlayBoard(r) && Still(r)
      && Faces(r.cards) == Faces(b.cards) && MatchedSet(r.cards) == {} && Waiting(r.cards) == {}
  {
    DrawStill(b);
    var t := b.(cards := AllTurning(b.cards));
    assert Together(t, true, 0) by {
      forall i | 0 <= i < CARDS ensures !t.cards[i].isFlipped {
        assert JustDealt(b.cards[i]);
      }
    }
    OpeningTurnDown(t);
    FreshTurnedDown(b);
  }

  lemma StillRests(b: Board)
    requires PlayBoard(b) && AllMatched(b.cards)
    ensures Resting(b)
  {
    if !Still(b) {
      SomethingTurns(b);
      assert false;
    }
  }

  lemma SomethingTurns(b: Board)
    requires PlayBoard(b) && !Still(b)
    ensures exists i :: 0 <= i < CARDS && b.cards[i].isFlipping
  {
    if p: nat :| TurningUp(b, p) {
      assert p in Moving(b.cards);
    } else {
      var p: nat, q: nat :| TurningDown(b, p, q);
      assert p in Moving(b.cards);
    }
  }

  lemma OverRests(r: Ticked)
    requires GoodTick(r) && r.over
    ensures Resting(r.board) && !AllMatched(r.board.cards)
  {
    var p: nat, q: nat :| TurningDown(r.board, p, q) && r.board.width == 1;
    assert p in OpenSet(r.board.cards);
  }

  lemma PlayTickKeeps(s: State, e: Event)
    requires Inv(s) && InPlayTick(s, e) && EventOk(s, e) && DisciplinedEvent(s, e)
    ensures Inv(Step(s, e)) && !Step(s, e).initGame
    ensures var r := InPlay.Tick(s.board, s.lives, InputOf(s, e.stray));
      Step(s, e).board == r.board && Step(s, e).lives == r.lives
  {
    var i := InputOf(s, e.stray);
    TickPlays(s.board, s.lives, i);
    var r := InPlay.Tick(s.board, s.lives, i);
    if r.over {
      OverRests(r);
    } else if AllMatched(r.board.cards) {
      StillRests(r.board);
    }
    PlayTickScreens(s, e, r);
  }

  lemma PlayTickScreens(s: State, e: Event, r: Ticked)
    requires ScreenInv(s) && InPlayTick(s, e) && EventOk(s, e)
    requires r == InPlay.Tick(s.board, s.lives, InputOf(s, e.stray))
    requires r.lives <= s.lives && r.over == (r.lives == 0)
    requires r.over ==> Resting(r.board) && !AllMatched(r.board.cards)
    requires AllMatched(r.board.cards) ==> Resting(r.board)
    ensures ScreenInv(Step(s, e)) && Step(s, e).board == r.board && !Step(s, e).initGame
    ensures Step(s, e).lives == r.lives
  {
  }

  lemma DealtQuiet(b: Board)
    requires Resting(b) && FreshDeck(b.cards)
    ensures FreshBoard(b)
  {
    forall i | 0 <= i < CARDS ensures !b.cards[i].isFlipping {
      assert JustDealt(b.cards[i]);
    }
  }

  lemma RedealKeeps(s: State, e: Event)
    requires Inv(s) && EventOk(s, e) && Redeals(s, e)
    ensures Inv(Step(s, e)) && Step(s, e).initGame && Step(s, e).gs == Menu
  {
    DealtIsFresh(e.rng);
    DealtQuiet(s.board.(cards := Dealt(e.rng).value));
  }

  /** Away from the board, a step only moves between screens. */
  lemma ScreenStep(s: State, e: Event)
    requires ScreenInv(s) && EventOk(s, e) && !Redeals(s, e)
    requires !(s.running && e.Timer? && s.gs == Game)
    ensures ScreenInv(Step(s, e))
    ensures var r := Step(s, e); r.board == s.board && r.lives == s.lives && r.initGame == s.initGame
  {
  }

  lemma OpeningTickKeeps(s: State)
    requires Inv(s) && s.gs == Game && s.initGame && s.running
    ensures var r := OpeningTick(s);
      && Inv(r) && Faces(r.board.cards) == Faces(s.board.cards)
      && (!r.initGame ==> View(r.board, r.lives) == NewGame(Faces(s.board.cards)))
  {
    OpeningKeeps(s.board);
  }

  lemma OpeningStep(s: State, e: Event)
    requires Inv(s) && EventOk(s, e) && s.running && e.Timer? && s.gs == Game && s.initGame
    ensures var r := Step(s, e);
      && Inv(r) && Faces(r.board.cards) == Faces(s.board.cards)
      && (!r.initGame ==> View(r.board, r.lives) == NewGame(Faces(s.board.cards)))
  {
    var s1 := s.(ticks := s.ticks + 1);
    StepIsOpening(s, e);
    assert Inv(s1) by {
      assert BoardInv(s1) && ScreenInv(s1);
    }
    OpeningTickKeeps(s1);
  }

  lemma StepIsOpening(s: State, e: Event)
    requires EventOk(s, e) && s.running && e.Timer? && s.gs == Game && s.initGame
    ensures Step(s, e) == OpeningTick(s.(ticks := s.ticks + 1))
  {
  }

  lemma StepKeepsInv(s: State, e: Event)
    requires Inv(s) && EventOk(s, e) && DisciplinedEvent(s, e)
    ensures Inv(Step(s, e))
  {
    if InPlayTick(s, e) {
      PlayTickKeeps(s, e);
    } else if Redeals(s, e) {
      RedealKeeps(s, e);
    } else if s.running && e.Timer? && s.gs == Game {
      OpeningStep(s, e);
    } else {
      ScreenStep(s, e);
    }
  }

  /** Over one tick of play the invariant survives if and only if the tick is disciplined. */
  lemma DisciplineIsExactForTicks(s: State, e: Event)
    requires Inv(s) && EventOk(s, e) && InPlayTick(s, e)
    ensures Inv(Step(s, e)) <==> DisciplinedEvent(s, e)
  {
    if DisciplinedEvent(s, e) {
      PlayTickKeeps(s, e);
    } else {
      DisciplineIsExact(s.board, s.lives, InputOf(s, e.stray));
    }
  }

  lemma StartHolds(rng: Rng)
    requires ValidRng(rng) && Dealt(rng).Some?
    ensures Inv(Start(Dealt(rng).value))
  {
    DealtIsFresh(rng);
    DealtQuiet(Start(Dealt(rng).value).board);
  }

  // ----- Runs -----

  /** Every event so far was disciplined. */
  ghost predicate GoodRun(s: State, es: seq<Event>)
    decreases |es|, 0
  {
    es != [] ==>
      var n := |es| - 1;
      GoodRun(s, es[..n]) && EventOk(Run(s, es[..n]), es[n]) && DisciplinedEvent(Run(s, es[..n]), es[n])
  }

  ghost function Run(s: State, es: seq<Event>): State
    requires GoodRun(s, es)
    decreases |es|, 1
  {
    if es == [] then s else Step(Run(s, es[..|es| - 1]), es[|es| - 1])
  }

  /** The card an event reveals, if any. */
  ghost function Revealed(s: State, e: Event): (r: seq<int>)
    requires WellFormed(s.board)
    ensures InDeck(r)
  {
    if InPlayTick(s, e) && Shown(s.board, InputOf(s, e.stray).draws) != {}
    then var c :| c in Shown(s.board, InputOf(s, e.stray).draws); [c]
    else []
  }

  /** The cards revealed since the last deal, in order. */
  ghost function Reveals(s: State, es: seq<Event>): (t: seq<int>)
    requires GoodRun(s, es)
    ensures InDeck(t)
  {
    if es == [] then []
    else
      var n := |es| - 1;
      var before := Run(s, es[..n]);
      if Redeals(before, es[n]) then [] else Reveals(s, es[..n]) + Revealed(before, es[n])
  }

  /** The state is the memory game after the reveals `t`. */
  ghost predicate Plays(s: State, t: seq<int>) {
    && InDeck(t) && Inv(s)
    && |Faces(s.board.cards)| == CARDS && Legal(Faces(s.board.cards), t)
    && (if s.initGame then t == [] else View(s.board, s.lives) == Rules.Play(Faces(s.board.cards), t))
  }

  lemma LegalExtends(faces: seq<Face>, t: seq<int>, c: int)
    requires |faces| == CARDS && InDeck(t) && Legal(faces, t) && CanReveal(Rules.Play(faces, t), c)
    ensures Legal(faces, t + [c]) && Rules.Play(faces, t + [c]) == Reveal(Rules.Play(faces, t), c)
  {
    assert (t + [c])[..|t|] == t;
  }

  /** The reveals of one tick carry a legal game on. */
  lemma TickExtends(m: Memory, after: Memory, t: seq<int>, shown: set<int>, r: seq<int>)
    requires |m.faces| == CARDS && InDeck(t) && Legal(m.faces, t) && m == Rules.Play(m.faces, t)
    requires if shown == {} then r == [] && after == m
             else exists c :: c in shown && r == [c] && CanReveal(m, c) && after == Reveal(m, c)
    ensures InDeck(t + r) && Legal(m.faces, t + r) && after == Rules.Play(m.faces, t + r)
  {
    if shown == {} {
      assert t + r == t;
    } else {
      var c :| c in shown && r == [c] && CanReveal(m, c) && after == Reveal(m, c);
      LegalExtends(m.faces, t, c);
    }
  }

  lemma TickReveals(s: State, e: Event)
    requires Inv(s) && InPlayTick(s, e) && EventOk(s, e) && DisciplinedEvent(s, e)
    ensures var r := InPlay.Tick(s.board, s.lives, InputOf(s, e.stray));
      var m, after := View(s.board, s.lives), View(r.board, r.lives);
      var shown := Shown(s.board, InputOf(s, e.stray).draws);
      if shown == {} then Revealed(s, e) == [] && after == m
      else exists c :: c in shown && Revealed(s, e) == [c] && CanReveal(m, c) && after == Reveal(m, c)
  {
    TickPlays(s.board, s.lives, InputOf(s, e.stray));
  }

  lemma PlayTickPlays(s: State, e: Event, t: seq<int>)
    requires Plays(s, t) && InPlayTick(s, e) && EventOk(s, e) && DisciplinedEvent(s, e)
    ensures Plays(Step(s, e), t + Revealed(s, e))
  {
    PlayTickKeeps(s, e);
    TickReveals(s, e);
    var r := InPlay.Tick(s.board, s.lives, InputOf(s, e.stray));
    TickExtends(View(s.board, s.lives), View(r.board, r.lives), t,
                Shown(s.board, InputOf(s, e.stray).draws), Revealed(s, e));
  }

  lemma StepPlays(s: State, e: Event, t: seq<int>)
    requires Plays(s, t) && EventOk(s, e) && DisciplinedEvent(s, e)
    ensures Plays(Step(s, e), if Redeals(s, e) then [] else t + Revealed(s, e))
  {
    if InPlayTick(s, e) {
      PlayTickPlays(s, e, t);
    } else if Redeals(s, e) {
      RedealKeeps(s, e);
    } else {
      assert t + Revealed(s, e) == t;
      if s.running && e.Timer? && s.gs == Game {
        OpeningStep(s, e);
      } else {
        ScreenStep(s, e);
      }
    }
  }

  /** Every disciplined run of the program is a run of the memory game. */
  lemma {:induction false} RunPlays(s: State, es: seq<Event>)
    requires Plays(s, []) && s.initGame && GoodRun(s, es)
    ensures Plays(Run(s, es), Reveals(s, es))
  {
    if es == [] {
    } else {
      var n := |es| - 1;
      RunPlays(s, es[..n]);
      StepPlays(Run(s, es[..n]), es[n], Reveals(s, es[..n]));
    }
  }

  // ----- What that means for every run -----

  ghost predicate Dealing(rng: Rng, es: seq<Event>) {
    ValidRng(rng) && Dealt(rng).Some? && GoodRun(Start(Dealt(rng).value), es)
  }

  lemma FromStart(rng: Rng, es: seq<Event>)
    requires Dealing(rng, es)
    ensures var s0 := Start(Dealt(rng).value); Plays(Run(s0, es), Reveals(s0, es))
  {
    var s0 := Start(Dealt(rng).value);
    StartHolds(rng);
    assert Plays(s0, []);
    RunPlays(s0, es);
  }

  /** The score after the reveals `t` of the current game. */
  ghost predicate Scored(s: State, t: seq<int>) {
    && |s.board.cards| == CARDS && InDeck(t)
    && s.lives == LIVES - PairsThat(Faces(s.board.cards), t, false)
    && |MatchedSet(s.board.cards)| == 2 * PairsThat(Faces(s.board.cards), t, true)
    && |t| / 2 <= 12
    && (s.lives == 0 <==> s.gameOver)
    && (s.gameOver ==> s.gs == Exit && !s.victory)
    && (s.victory ==> s.gs == Exit && AllMatched(s.board.cards) && s.lives > 0)
  }

  lemma PlayingKeepsScore(s: State, t: seq<int>)
    requires Plays(s, t)
    ensures Scored(s, t)
  {
    PlayCountsPairs(Faces(s.board.cards), t);
    AtMostTwelvePairs(Faces(s.board.cards), t);
    if s.initGame {
      FreshHasNoMatch(s.board);
    }
  }

  /** Lives are five minus the wrong pairs of the current game, two cards are matched for every right
      pair, a game resolves at most twelve pairs, and it is lost or won but never both. */
  lemma EveryRunKeepsScore(rng: Rng, es: seq<Event>)
    requires Dealing(rng, es)
    ensures Scored(Run(Start(Dealt(rng).value), es), Reveals(Start(Dealt(rng).value), es))
  {
    FromStart(rng, es);
    PlayingKeepsScore(Run(Start(Dealt(rng).value), es), Reveals(Start(Dealt(rng).value), es));
  }

  lemma FreshHasNoMatch(b: Board)
    requires FreshBoard(b)
    ensures MatchedSet(b.cards) == {}
  {
    forall i | 0 <= i < CARDS ensures !b.cards[i].flipSuccess {
      assert JustDealt(b.cards[i]);
    }
  }

  /** The shapes a board can have between two events of a game: matched cards face up, still and closed
      under twins, at most two cards open, and one of three kinds of motion, none of which leads to a
      division by a zero width in the next frame. */
  ghost predicate Orderly(b: Board) {
    && WellFormed(b) && DrawSafe(b, 0)
    && (forall i :: 0 <= i < CARDS && b.cards[i].flipSuccess ==> !b.cards[i].isFlipped && !b.cards[i].isFlipping)
    && (forall i, j :: 0 <= i < CARDS && 0 <= j < CARDS && FaceOf(b.cards[i]) == FaceOf(b.cards[j]) ==>
          b.cards[i].flipSuccess == b.cards[j].flipSuccess)
    && (forall i, j, k :: i in OpenSet(b.cards) && j in OpenSet(b.cards) && k in OpenSet(b.cards) ==>
          i == j || j == k || k == i)
    && InMotion(b)
  }

  /** Nothing turns, one face-down card turns up, or two face-up cards that differ turn down. */
  ghost predicate InMotion(b: Board)
    requires WellFormed(b)
  {
    || (Moving(b.cards) == {} && b.width == 1 && forall i :: 0 <= i < CARDS ==> b.otherSide[i] == 0)
    || (exists p :: 0 <= p < CARDS && Moving(b.cards) == {p} && b.cards[p].isFlipped && 1 <= b.width <= 11)
    || (exists p, q :: 0 <= p < q < CARDS && Moving(b.cards) == {p, q} &&
          !b.cards[p].isFlipped && !b.cards[q].isFlipped && FaceOf(b.cards[p]) != FaceOf(b.cards[q]) &&
          b.width % 2 == 1 && 1 <= b.width <= 11)
  }

  lemma PlayBoardMoves(b: Board)
    requires PlayBoard(b)
    ensures InMotion(b)
    ensures forall i, j, k :: i in OpenSet(b.cards) && j in OpenSet(b.cards) && k in OpenSet(b.cards) ==>
              i == j || j == k || k == i
  {
    if Still(b) {
    } else if p: nat :| TurningUp(b, p) {
      SingleMoves(b, p);
    } else {
      var p: nat, q: nat :| TurningDown(b, p, q);
      PairMoves(b, p, q);
    }
  }

  lemma PlayBoardIsOrderly(b: Board)
    requires PlayBoard(b)
    ensures Orderly(b)
  {
    NoZeroWidth(b);
    PlayBoardMoves(b);
  }

  /** An orderly board once play has begun, a fresh deal behind the menu, and an end only from the exit
      screen with neither end flag set. */
  ghost predicate InOrder(s: State) {
    && (!s.initGame ==> Orderly(s.board))
    && (s.gs == Menu ==> FreshBoard(s.board) && s.lives == LIVES && s.isAlive && !s.gameOver && !s.victory)
    && (!s.running ==> s.gs == Exit && !s.gameOver && !s.victory)
  }

  lemma EveryRunIsOrderly(rng: Rng, es: seq<Event>)
    requires Dealing(rng, es)
    ensures InOrder(Run(Start(Dealt(rng).value), es))
  {
    FromStart(rng, es);
    var s := Run(Start(Dealt(rng).value), es);
    assert Inv(s);
    if !s.initGame {
      PlayBoardIsOrderly(s.board);
    }
  }

  /** After every event of `es` the instructions were on the screen. */
  ghost predicate Reading(s: State, es: seq<Event>)
    requires GoodRun(s, es)
  {
    es == [] || (Run(s, es).gs == Instructions && Reading(s, es[..|es| - 1]))
  }

  lemma {:induction false} ReadingChangesNothing(s: State, es: seq<Event>)
    requires Inv(s) && (s.gs == Menu || s.gs == Pause) && GoodRun(s, es) && Reading(s, es)
    ensures var r := Run(s, es);
      Inv(r) && r.board == s.board && r.lives == s.lives && r.initGame == s.initGame
  {
    if es == [] {
    } else {
      var n := |es| - 1;
      ReadingChangesNothing(s, es[..n]);
      StepKeepsInv(Run(s, es[..n]), es[n]);
      ScreenStep(Run(s, es[..n]), es[n]);
    }
  }

  /** However long they are read, the instructions lead back to where they were opened: to the menu, or
      to the very game that was paused. */
  lemma InstructionsReturn(s: State, es: seq<Event>, e: Event)
    requires Inv(s) && (s.gs == Menu || s.gs == Pause)
    requires es != [] && GoodRun(s, es + [e]) && GoodRun(s, es) && Reading(s, es)
    requires Run(s, es + [e]).gs != Instructions
    ensures var r := Run(s, es + [e]);
      r.gs == (if s.gs == Menu then Menu else Game) && r.board == s.board && r.lives == s.lives
  {
    assert (es + [e])[..|es|] == es;
    ReadingChangesNothing(s, es);
    ScreenStep(Run(s, es), e);
  }
}
