/** Which key or press leads from which screen to which, when a game opens, and when the program ends. */
module Screens {
  import opened Cards
  import opened Flip
  import opened Deal
  import opened Table
  import opened InPlay
  import opened Session
  import opened Rules
  import opened Runs
  import opened Progress
  import opened BrokenGame

  datatype Choice = Play | Read | Leave | Nothing

  /** The break codes of P, I and E. */
  function KeyChoice(code: int): Choice {
    if code == 0x99 then Play else if code == 0x97 then Read else if code == 0x92 then Leave else Nothing
  }

  /** The three buttons lie below each other. */
  function ButtonChoice(s: State): Choice {
    if !s.lb then Nothing
    else if 360 <= s.mx <= 445 && 300 <= s.my <= 330 then Play
    else if 280 <= s.mx <= 520 && 400 <= s.my <= 430 then Read
    else if 360 <= s.mx <= 440 && 500 <= s.my <= 530 then Leave
    else Nothing
  }

  predicate Chosen(c: Choice, key: Choice, button: Choice) {
    key == c || button == c
  }

  /** In the menu playing comes first, then the exit key, then reading, then the exit button. */
  function MenuTarget(key: Choice, button: Choice): Screen {
    if Chosen(Play, key, button) then Game
    else if key == Leave then Exit
    else if Chosen(Read, key, button) then Instructions
    else if button == Leave then Exit
    else Menu
  }

  /** In the pause menu a press on the play button silences the key; then reading comes first and playing last. */
  function PauseTarget(key: Choice, button: Choice): Screen {
    var heard := if button == Play then Play else key;
    if Chosen(Read, heard, button) then Instructions
    else if Chosen(Leave, heard, button) then Exit
    else if Chosen(Play, heard, button) then Game
    else Pause
  }

  predicate Ticks(s: State, e: Event, screen: Screen) {
    EventOk(s, e) && s.running && e.Timer? && s.gs == screen
  }

  /** The menu's target, and what the tick uses up: play starts the clock and uses up key and press, reading
      only the press. Nothing else changes. */
  lemma MenuObeys(s: State, e: Event)
    requires Ticks(s, e, Menu)
    ensures var key, button := KeyChoice(s.scancode), ButtonChoice(s);
      var target := MenuTarget(key, button);
      Step(s, e) == s.(gs := target,
                       ticks := if target == Game then 0 else s.ticks + 1,
                       scancode := if target == Game then 0 else s.scancode,
                       lb := s.lb && !Chosen(Play, key, button) && !Chosen(Read, key, button))
  {
  }

  /** In the pause menu every choice uses up the key, so that it does not pause or choose again; reading also
      uses up the press and remembers the game. */
  lemma PauseObeys(s: State, e: Event)
    requires Ticks(s, e, Pause)
    ensures var target := PauseTarget(KeyChoice(s.scancode), ButtonChoice(s));
      Step(s, e) == s.(gs := target,
                       ticks := s.ticks + 1,
                       scancode := if target == Pause then s.scancode else 0,
                       prevState := if target == Instructions then Game else s.prevState,
                       lb := s.lb && target != Instructions)
  {
  }

  function InstructionsTarget(s: State): Screen {
    if s.prevState == Game then (if s.scancode == 0x81 || s.lb then Game else Instructions)
    else if s.scancode == 0x81 then Menu else Instructions
  }

  /** Escape leaves the instructions for where they were opened; over a paused game a press does so too. A
      press is always used up, the key never. */
  lemma InstructionsObey(s: State, e: Event)
    requires Ticks(s, e, Instructions)
    ensures var target := InstructionsTarget(s);
      Step(s, e) == s.(gs := target, ticks := s.ticks + 1, lb := false,
                       prevState := if target == Game then Instructions else s.prevState)
  {
  }

  /** The program starts in the menu over its first deal, with five lives, the pointer in the corner, the clock
      at 0, no key and the button up; a play key and a tick open the game. */
  lemma StartsInMenu(deck: seq<Card>, e: Event)
    requires |deck| == CARDS && e.Timer? && e.stray < CARDS && ValidRng(e.rng)
    ensures var s := Session.Start(deck);
      && s.gs == Menu && s.board.cards == deck && s.lives == 5 && s.mx == s.my == s.ticks == s.scancode == 0 && !s.lb
      && EventOk(s.(scancode := 0x99), e) && Step(s.(scancode := 0x99), e) == s.(gs := Game)
  {
    MenuObeys(Session.Start(deck).(scancode := 0x99), e);
  }

  /** One key and one tick, from any sound state of a screen with the button up. */
  lemma KeyFromMenu(s: State, e: Event)
    requires Inv(s) && s.running && s.gs == Menu && !s.lb && e.Timer? && EventOk(s, e)
    ensures Step(Step(s, Key(0x99)), e).gs == Game && Step(Step(s, Key(0x97)), e).gs == Instructions
    ensures Step(Step(s, Key(0x92)), e).gs == Exit
    ensures forall code :: code !in {0x99, 0x97, 0x92} ==> Step(s.(scancode := code), e).gs == Menu
  {
    MenuObeys(s.(scancode := 0x99), e);
    MenuObeys(s.(scancode := 0x97), e);
    MenuObeys(s.(scancode := 0x92), e);
    forall code | code !in {0x99, 0x97, 0x92} ensures Step(s.(scancode := code), e).gs == Menu {
      MenuObeys(s.(scancode := code), e);
    }
  }

  lemma KeyFromPause(s: State, e: Event)
    requires Inv(s) && s.running && s.gs == Pause && !s.lb && e.Timer? && EventOk(s, e)
    ensures Step(Step(s, Key(0x99)), e).gs == Game && Step(Step(s, Key(0x97)), e).gs == Instructions
    ensures Step(Step(s, Key(0x92)), e).gs == Exit
    ensures forall code :: code !in {0x99, 0x97, 0x92} ==> Step(s.(scancode := code), e).gs == Pause
  {
    PauseObeys(s.(scancode := 0x99), e);
    PauseObeys(s.(scancode := 0x97), e);
    PauseObeys(s.(scancode := 0x92), e);
    forall code | code !in {0x99, 0x97, 0x92} ensures Step(s.(scancode := code), e).gs == Pause {
      PauseObeys(s.(scancode := code), e);
    }
  }

  /** A paused game can be resumed, exactly as it was, and is not paused again by the next tick. */
  lemma ResumeGame(s: State, e: Event, r: State)
    requires Inv(s) && s.gs == Pause && e.Timer? && EventOk(s, e) && r == Step(s.(scancode := 0x99), e)
    requires ButtonChoice(s) == Nothing || ButtonChoice(s) == Play
    ensures Step(s, Key(0x99)) == s.(scancode := 0x99)
    ensures Inv(r) && Playing(r) && r.board == s.board && r.lives == s.lives && r.ticks == s.ticks + 1
  {
    var k := s.(scancode := 0x99);
    PauseObeys(k, e);
    ScreenStep(k, e);
  }

  /** From the instructions escape and a tick lead back, to the menu or to the paused game. */
  lemma LeaveInstructions(s: State, e: Event)
    requires Inv(s) && s.running && s.gs == Instructions && e.Timer? && EventOk(s, e)
    ensures var r := Step(Step(s, Key(0x81)), e);
      r.gs == (if s.initGame then Menu else Game) && r.board == s.board && r.lives == s.lives
  {
    InstructionsObey(s.(scancode := 0x81), e);
  }

  // ----- The game screen -----

  /** A disciplined tick of play leads to the exit screen exactly when it ends the game, to the pause menu
      exactly on escape otherwise, and it wins exactly at a multiple of 120 ticks with all cards matched. */
  lemma PlayObeys(s: State, e: Event)
    requires Inv(s) && InPlayTick(s, e) && EventOk(s, e) && DisciplinedEvent(s, e)
    ensures var r := Step(s, e);
      && (r.victory <==> (s.ticks + 1) % 120 == 0 && AllMatched(r.board.cards))
      && (r.gameOver <==> r.lives == 0)
      && r.gs == (if r.gameOver || r.victory then Exit else if s.scancode == 0x81 then Pause else Game)
  {
    PlayTickKeeps(s, e);
    StepIsPlay(s, e);
  }

  /** Over a paused game escape does not lead out of the instructions for long: the key is not used up, and
      unless that ends the game the next tick pauses it again. */
  lemma EscapePausesAgain(s: State, e: Event, m: State, f: Event)
    requires Inv(s) && s.running && s.gs == Instructions && !s.initGame && e.Timer? && EventOk(s, e)
    requires m == Step(s.(scancode := 0x81), e) && f.Timer? && EventOk(m, f) && DisciplinedEvent(m, f)
    ensures m.gs == Game
    ensures var r := Step(m, f); r.gs == (if r.gameOver || r.victory then Exit else Pause)
  {
    var k := s.(scancode := 0x81);
    InstructionsObey(k, e);
    ScreenStep(k, e);
    PlayObeys(m, f);
  }

  /** While the faces are shown, no key and no press matters. */
  lemma OpeningStands(s: State, e: Event)
    requires Inv(s) && s.running && s.gs == Game && s.initGame && EventOk(s, e)
    requires e.Timer? ==> !DealTick(s.ticks + 1)
    ensures var r := Step(s, e);
      && Inv(r) && r.running && r.gs == Game && r.initGame && r.board == s.board
      && r.ticks == s.ticks + if e.Timer? then 1 else 0
  {
    if e.Timer? {
      StepIsOpening(s, e);
      OpeningKeeps(s.board);
      OpeningStep(s, e);
    } else {
      ScreenStep(s, e);
    }
  }

  lemma {:induction false} OpeningRun(s: State, es: seq<Event>, down: nat)
    requires Inv(s) && s.running && s.gs == Game && s.initGame && Feasible(s, es) && s.ticks + TicksIn(es) < down
    requires forall t: nat :: s.ticks < t < down ==> !DealTick(t)
    ensures var r := Outcome(s, es);
      && Inv(r) && r.running && r.gs == Game && r.initGame && r.board == s.board && r.ticks == s.ticks + TicksIn(es)
  {
    if es == [] {
    } else {
      var n := |es| - 1;
      OpeningRun(s, es[..n], down);
      OpeningStands(Outcome(s, es[..n]), es[n]);
    }
  }

  lemma OpeningEnds(s: State, e: Event)
    requires Inv(s) && s.running && s.gs == Game && s.initGame && EventOk(s, e) && e.Timer? && DealTick(s.ticks + 1)
    ensures var r := Step(s, e);
      && Inv(r) && r.gs == Game && !r.initGame && Still(r.board) && Faces(r.board.cards) == Faces(s.board.cards)
      && forall i :: 0 <= i < CARDS ==> r.board.cards[i].isFlipped && !r.board.cards[i].flipSuccess
  {
    StepIsOpening(s, e);
    OpeningStep(s, e);
    OpeningKeeps(s.board);
    AllDown(Step(s, e).board);
  }

  lemma AllDown(b: Board)
    requires Still(b) && MatchedSet(b.cards) == {} && Waiting(b.cards) == {}
    ensures forall i :: 0 <= i < CARDS ==> b.cards[i].isFlipped && !b.cards[i].flipSuccess
  {
    QuietWaits(b);
    forall i | 0 <= i < CARDS ensures b.cards[i].isFlipped && !b.cards[i].flipSuccess {
      assert i !in MatchedSet(b.cards) && i !in OpenSet(b.cards);
    }
  }

  /** From the start of a game the faces are shown for exactly 240 ticks, whatever the player does. */
  lemma FacesAreShown(s: State, es: seq<Event>, last: State, e: Event)
    requires Inv(s) && s.running && s.gs == Game && s.initGame && s.ticks == 0
    requires Feasible(s, es) && TicksIn(es) == 239 && last == Outcome(s, es) && e.Timer? && EventOk(last, e)
    ensures last.board == s.board && last.initGame && last.gs == Game
    ensures var r := Step(last, e);
      && r.gs == Game && !r.initGame && Still(r.board) && Faces(r.board.cards) == Faces(s.board.cards)
      && forall i :: 0 <= i < CARDS ==> r.board.cards[i].isFlipped && !r.board.cards[i].flipSuccess
  {
    var down := NextDealTick(0);
    OpeningRun(s, es, down);
    OpeningEnds(last, e);
  }

  // ----- The end of the program -----

  /** The loop ends at exactly the ticks that find the exit screen without a game lost or won. */
  lemma StopsIff(s: State, e: Event)
    requires Inv(s) && s.running && EventOk(s, e)
    ensures !Step(s, e).running <==> e.Timer? && s.gs == Exit && !s.gameOver && !s.victory
  {
    if e.Timer? && s.gs == Game && !s.initGame {
      StepIsPlay(s, e);
    }
  }

  /** From the menu or the pause menu the exit key and two ticks end the program. */
  lemma QuitEnds(s: State, e: Event, m: State, f: Event)
    requires Inv(s) && s.running && (s.gs == Menu || s.gs == Pause) && !s.lb && e.Timer? && EventOk(s, e)
    requires m == Step(s.(scancode := 0x92), e) && f.Timer? && EventOk(m, f)
    ensures Step(s, Key(0x92)) == s.(scancode := 0x92) && !Step(m, f).running
  {
    var k := s.(scancode := 0x92);
    if s.gs == Menu { MenuObeys(k, e); } else { PauseObeys(k, e); }
    ScreenStep(k, e);
    QuitScreen(s, e, m);
    StopsIff(m, f);
  }

  lemma QuitScreen(s: State, e: Event, m: State)
    requires Inv(s) && s.running && (s.gs == Menu || s.gs == Pause) && e.Timer? && EventOk(s, e)
    requires m == Step(s.(scancode := 0x92), e)
    ensures m.running && m.gameOver == s.gameOver && m.victory == s.victory && m.initGame == s.initGame
    ensures Inv(m) && !s.gameOver && !s.victory
  {
    ScreenStep(s.(scancode := 0x92), e);
  }
}
