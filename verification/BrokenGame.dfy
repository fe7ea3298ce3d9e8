/** What becomes of a game after an undisciplined tick, over every run from there. */
module BrokenGame {
  import opened Bytes
  import opened Cards
  import opened Flip
  import opened Deal
  import opened Table
  import opened InPlay
  import opened DrawSafety
  import opened ThirdCard
  import opened Session
  import opened Rules
  import opened Runs
  import opened Progress

  // ----- Runs without discipline -----

  /** Any sequence of events, disciplined or not. */
  ghost predicate Feasible(s: State, es: seq<Event>)
    decreases |es|, 0
  {
    es != [] ==> var n := |es| - 1; Feasible(s, es[..n]) && EventOk(Outcome(s, es[..n]), es[n])
  }

  ghost function Outcome(s: State, es: seq<Event>): State
    requires Feasible(s, es)
    decreases |es|, 1
  {
    if es == [] then s else Step(Outcome(s, es[..|es| - 1]), es[|es| - 1])
  }

  lemma {:induction false} DisciplinedRunIsFeasible(s: State, es: seq<Event>)
    requires GoodRun(s, es)
    ensures Feasible(s, es) && Outcome(s, es) == Run(s, es)
  {
    if es == [] {
    } else {
      DisciplinedRunIsFeasible(s, es[..|es| - 1]);
    }
  }

  predicate DrawsFrame(s: State, e: Event) {
    InPlayTick(s, e) && (s.ticks + 1) % 2 == 0
  }

  /** How many frames of the game a run draws. */
  ghost function FramesIn(s: State, es: seq<Event>): nat
    requires Feasible(s, es)
  {
    if es == [] then 0
    else var n := |es| - 1; FramesIn(s, es[..n]) + if DrawsFrame(Outcome(s, es[..n]), es[n]) then 1 else 0
  }

  lemma FeasibleOn(s: State, es: seq<Event>, m: State, e: Event, fs: seq<Event>)
    requires Feasible(s, es) && m == Outcome(s, es) && EventOk(m, e) && fs == es + [e]
    ensures Feasible(s, fs) && Outcome(s, fs) == Step(m, e)
    ensures FramesIn(s, fs) == FramesIn(s, es) + if DrawsFrame(m, e) then 1 else 0
  {
    assert fs[..|es|] == es;
  }

  // ----- The broken state -----

  /** The event `e` of a sound game is undisciplined, and `r` is the state after it: the press was on card
      `h` while the cards p and q had just been shown to differ. */
  ghost predicate Breaks(s: State, e: Event, r: State, p: nat, q: nat, h: nat) {
    && Inv(s) && EventOk(s, e) && InPlayTick(s, e) && !DisciplinedEvent(s, e) && r == Step(s, e)
    && p < q && OpenSet(r.board.cards) == {p, q} && CardUnder(s.mx, s.my) == Some(h)
  }

  /** The state `n` frames after the board broke as `t`. */
  ghost predicate Spinning(s: State, t: Board, p: nat, q: nat, h: nat, n: nat) {
    && Broken(t, p, q, h) && s.board == MixedAfter(t, p, q, h, n)
    && ScreenInv(s) && !s.initGame && s.lives >= 1
  }

  lemma SpinningIsNoEnd(s: State, t: Board, p: nat, q: nat, h: nat, n: nat)
    requires Spinning(s, t, p, q, h, n)
    ensures !s.gameOver && !s.victory && !AllMatched(s.board.cards)
  {
    assert p in OpenSet(t.cards);
  }

  lemma BrokenTick(s: State, e: Event, i: Input) returns (p: nat, q: nat)
    requires Inv(s) && EventOk(s, e) && InPlayTick(s, e) && !DisciplinedEvent(s, e) && i == InputOf(s, e.stray)
    ensures i.under.Some? && p < q && Broken(Step(s, e).board, p, q, i.under.value)
    ensures var r := Step(s, e);
      && r.board == MixedAfter(r.board, p, q, i.under.value, 0)
      && ScreenInv(r) && r.lives == s.lives - 1 && r.ticks == s.ticks + 1 && !r.initGame
      && Faces(r.board.cards) == Faces(s.board.cards)
  {
    p, q := UndisciplinedTick(s.board, s.lives, i);
    var r := InPlay.Tick(s.board, s.lives, i);
    MixAtStartRests(r.board, p, q, i.under.value);
    PlayTickScreens(s, e, r);
  }

  lemma MixAtStartRests(b: Board, p: nat, q: nat, h: nat)
    requires Broken(b, p, q, h) && b == MixedAfter(b, p, q, h, 0)
    ensures Resting(b) && !AllMatched(b.cards)
  {
    assert p in OpenSet(b.cards);
  }

  /** Every undisciplined tick has its pair and its third card. */
  lemma EveryUndisciplinedTickBreaks(s: State, e: Event) returns (p: nat, q: nat, h: nat)
    requires Inv(s) && EventOk(s, e) && InPlayTick(s, e) && !DisciplinedEvent(s, e)
    ensures Breaks(s, e, Step(s, e), p, q, h) && h < CARDS && h != p && h != q
  {
    p, q := BrokenTick(s, e, InputOf(s, e.stray));
    h := CardUnder(s.mx, s.my).value;
  }

  lemma BreaksMeans(s: State, e: Event, r: State, p: nat, q: nat, h: nat)
    requires Breaks(s, e, r, p, q, h)
    ensures Broken(r.board, p, q, h) && r.board == MixedAfter(r.board, p, q, h, 0)
    ensures ScreenInv(r) && r.lives == s.lives - 1 && r.ticks == s.ticks + 1 && !r.initGame
    ensures Faces(r.board.cards) == Faces(s.board.cards)
  {
    var x, y := BrokenTick(s, e, InputOf(s, e.stray));
    SamePair(r.board, x, y, p, q);
  }

  lemma SamePair(b: Board, x: nat, y: nat, p: nat, q: nat)
    requires OpenSet(b.cards) == {x, y} && OpenSet(b.cards) == {p, q} && x < y && p < q
    ensures x == p && y == q
  {
    assert x in {p, q} && y in {p, q};
  }

  // ----- While the three cards turn -----

  lemma SpinningFrame(b: Board, lives: nat, i: Input, t: Board, p: nat, q: nat, h: nat, n: nat)
    requires Broken(t, p, q, h) && b == MixedAfter(t, p, q, h, n) && InputOk(i)
    requires q < h ==> n + (if i.draws then 1 else 0) <= 2
    ensures InPlay.Tick(b, lives, i) == Ticked(MixedAfter(t, p, q, h, if i.draws then n + 1 else n), lives, false)
  {
    if i.draws {
      NextFrame(t, p, q, h, n);
    }
    CheckOfThree(MixedAfter(t, p, q, h, if i.draws then n + 1 else n), lives, i, p, q, h);
  }

  lemma SpinningTick(s: State, e: Event, t: Board, p: nat, q: nat, h: nat, n: nat, m: nat)
    requires Spinning(s, t, p, q, h, n) && InPlayTick(s, e) && EventOk(s, e)
    requires m == n + (if DrawsFrame(s, e) then 1 else 0) && (q < h ==> m <= 2)
    ensures Spinning(Step(s, e), t, p, q, h, m) && Step(s, e).lives == s.lives
  {
    var i := InputOf(s, e.stray);
    SpinningFrame(s.board, s.lives, i, t, p, q, h, n);
    SpinningIsNoEnd(s, t, p, q, h, n);
    PlayTickScreens(s, e, InPlay.Tick(s.board, s.lives, i));
  }

  lemma SpinningStep(s: State, e: Event, t: Board, p: nat, q: nat, h: nat, n: nat, m: nat)
    requires Spinning(s, t, p, q, h, n) && EventOk(s, e)
    requires m == n + (if DrawsFrame(s, e) then 1 else 0) && (q < h ==> m <= 2)
    ensures Spinning(Step(s, e), t, p, q, h, m) && Step(s, e).lives == s.lives
  {
    if InPlayTick(s, e) {
      SpinningTick(s, e, t, p, q, h, n, m);
    } else {
      SpinningIsNoEnd(s, t, p, q, h, n);
      ScreenStep(s, e);
    }
  }

  lemma {:induction false} SpinningRun(s: State, es: seq<Event>, p: nat, q: nat, h: nat)
    requires Spinning(s, s.board, p, q, h, 0) && Feasible(s, es) && (q < h ==> FramesIn(s, es) <= 2)
    ensures var r := Outcome(s, es); Spinning(r, s.board, p, q, h, FramesIn(s, es)) && r.lives == s.lives
  {
    if es == [] {
    } else {
      var n := |es| - 1;
      SpinningRun(s, es[..n], p, q, h);
      SpinningStep(Outcome(s, es[..n]), es[n], s.board, p, q, h, FramesIn(s, es[..n]), FramesIn(s, es));
    }
  }

  /** With a life left and the third card before the second of the pair, the game is frozen for good: on no
      run does a card settle, a life go, the game end or another one begin, the width falls by nine with every
      frame, and no frame divides by a zero width. */
  lemma ThirdCardFreezesTheGame(s: State, e: Event, r: State, p: nat, q: nat, h: nat, es: seq<Event>, last: State)
    requires Breaks(s, e, r, p, q, h) && s.lives >= 2 && h < q
    requires Feasible(r, es) && last == Outcome(r, es)
    ensures last.board.cards == r.board.cards && last.lives == s.lives - 1
    ensures !last.gameOver && !last.victory && !last.initGame && WellFormed(last.board) && DrawSafe(last.board, 0)
    ensures var n := FramesIn(r, es); n >= 3 ==> last.board.width == 2 - 9 * (n - 3)
  {
    BreaksMeans(s, e, r, p, q, h);
    FrozenRun(r, es, last, p, q, h);
  }

  lemma FrozenRun(r: State, es: seq<Event>, last: State, p: nat, q: nat, h: nat)
    requires Spinning(r, r.board, p, q, h, 0) && h < q && Feasible(r, es) && last == Outcome(r, es)
    ensures last.board.cards == r.board.cards && last.lives == r.lives
    ensures !last.gameOver && !last.victory && !last.initGame && WellFormed(last.board) && DrawSafe(last.board, 0)
    ensures var n := FramesIn(r, es); n >= 3 ==> last.board.width == 2 - 9 * (n - 3)
  {
    SpinningRun(r, es, p, q, h);
    SpinningIsNoEnd(last, r.board, p, q, h, FramesIn(r, es));
    MixIsSafe(r.board, p, q, h, FramesIn(r, es));
  }

  // ----- The third frame with the third card behind the pair -----

  lemma ThreeOpen(t: Board, p: nat, q: nat, h: nat)
    requires Broken(t, p, q, h) && q < h
    ensures var d := AtRest(t, false);
      && Quiet(d) && OpenSet(d.cards) == {p, q, h}
      && FaceOf(d.cards[p]) == FaceOf(t.cards[p]) && FaceOf(d.cards[q]) == FaceOf(t.cards[q])
      && FaceOf(d.cards[h]) == FaceOf(t.cards[h])
  {
    ThreeMove(t, p, q, h);
    OpenPair(t.cards, p, q);
    var d := AtRest(t, false);
    assert forall i :: 0 <= i < CARDS && i != p && i != q && i != h ==> d.cards[i] == t.cards[i];
  }

  /** Lives after the check of three open cards whose first two differ: one life for the second card and,
      unless the third is the twin of the first, one more for the third. */
  function Recharged(lives: nat, twin: bool): nat {
    if twin then LoseLife(lives) else LoseLife(LoseLife(lives))
  }

  predicate EndsWhenRecharged(lives: nat, twin: bool) {
    LoseLife(lives) == 0 || Recharged(lives, twin) == 0
  }

  lemma CheckThreeOpen(cards: seq<Card>, lives: nat, p: nat, q: nat, h: nat)
    requires |cards| == CARDS && p < q < h < CARDS && OpenSet(cards) == {p, q, h}
    requires FaceOf(cards[p]) != FaceOf(cards[q]) && !cards[q].isFlipping && !cards[h].isFlipping
    ensures var r := ScanFrom(StartScan(cards, lives), 0);
      var twin := FaceOf(cards[h]) == FaceOf(cards[p]);
      && r.lives == Recharged(lives, twin) && r.over == EndsWhenRecharged(lives, twin)
      && r.cards[p].isFlipping && r.cards[q].isFlipping && r.cards[h].isFlipping == !twin
      && r.cards[p].flipSuccess == r.cards[h].flipSuccess == twin && !r.cards[q].flipSuccess
      && (forall k :: 0 <= k < CARDS ==> r.cards[k].isFlipped == cards[k].isFlipped)
      && (forall k :: 0 <= k < CARDS && k != p && k != q && k != h ==> r.cards[k] == cards[k])
  {
    ScanOfThree(cards, lives, p, q, h);
    assert p in OpenSet(cards) && q in OpenSet(cards) && h in OpenSet(cards);
  }

  /** What the check leaves behind: the wrong pair face up and turning again, together with the third card
      or, if that is the twin of the first, with these two matched while the first one turns. Without a press
      nothing else turns. */
  ghost predicate SentBackAgain(b: Board, twin: bool, p: nat, q: nat, h: nat, lb: bool) {
    && Resting(b) && p < q < h < CARDS
    && !b.cards[p].isFlipped && !b.cards[q].isFlipped && !b.cards[h].isFlipped
    && b.cards[p].isFlipping && b.cards[q].isFlipping && b.cards[h].isFlipping == !twin
    && b.cards[p].flipSuccess == b.cards[h].flipSuccess == twin && !b.cards[q].flipSuccess
    && (!lb ==> Moving(b.cards) == if twin then {p, q} else {p, q, h})
  }

  ghost predicate ChargedAgain(r: Ticked, lives: nat, twin: bool, p: nat, q: nat, h: nat, lb: bool) {
    && r.lives == Recharged(lives, twin) && r.over == EndsWhenRecharged(lives, twin)
    && SentBackAgain(r.board, twin, p, q, h, lb)
  }

  lemma CheckReopened(t: Board, lives: nat, i: Input, p: nat, q: nat, h: nat)
    requires Broken(t, p, q, h) && q < h && InputOk(i)
    ensures ChargedAgain(AfterFrame(AtRest(t, false), lives, i.lb, i.under, i.stray), lives,
                         FaceOf(t.cards[h]) == FaceOf(t.cards[p]), p, q, h, i.lb)
  {
    var d := AtRest(t, false);
    ThreeOpen(t, p, q, h);
    ClickStartsCardUnder(d, i.under, i.stray);
    var cards := if i.lb then Clicked(d.cards, i.under, i.stray) else d.cards;
    assert p in OpenSet(d.cards) && q in OpenSet(d.cards) && h in OpenSet(d.cards);
    assert q !in Moving(d.cards) && h !in Moving(d.cards);
    assert OpenSet(cards) == OpenSet(d.cards);
    CheckThreeOpen(cards, lives, p, q, h);
  }

  lemma ThirdFrame(s: State, e: Event, t: Board, p: nat, q: nat, h: nat)
    requires Spinning(s, t, p, q, h, 2) && q < h && DrawsFrame(s, e) && EventOk(s, e)
    ensures ChargedAgain(InPlay.Tick(s.board, s.lives, InputOf(s, e.stray)), s.lives,
                         FaceOf(t.cards[h]) == FaceOf(t.cards[p]), p, q, h, s.lb)
  {
    NextFrame(t, p, q, h, 2);
    CheckReopened(t, s.lives, InputOf(s, e.stray), p, q, h);
  }

  /** The play tick in terms of the board's tick. */
  lemma PlayTickEnds(s: State, e: Event, r: Ticked)
    requires EventOk(s, e) && InPlayTick(s, e) && !s.gameOver
    requires r == InPlay.Tick(s.board, s.lives, InputOf(s, e.stray)) && !AllMatched(r.board.cards)
    ensures var z := Step(s, e);
      z.board == r.board && z.lives == r.lives && z.gameOver == r.over && z.victory == s.victory
  {
    StepIsPlay(s, e);
  }

  lemma RechargedAt(s: State, e: Event, t: Board, p: nat, q: nat, h: nat)
    requires Spinning(s, t, p, q, h, 2) && q < h && DrawsFrame(s, e) && EventOk(s, e)
    ensures var z, twin := Step(s, e), FaceOf(t.cards[h]) == FaceOf(t.cards[p]);
      && z.lives == Recharged(s.lives, twin) && z.gameOver == EndsWhenRecharged(s.lives, twin) && !z.victory
      && SentBackAgain(z.board, twin, p, q, h, s.lb)
  {
    SpinningIsNoEnd(s, t, p, q, h, 2);
    ThirdFrame(s, e, t, p, q, h);
    PlayTickEnds(s, e, InPlay.Tick(s.board, s.lives, InputOf(s, e.stray)));
  }

  /** With a life left and the third card behind the pair, nothing is charged for two frames, however many
      events they take; the third frame shows the wrong pair again and its tick charges for it again: one
      life if the third card is the twin of the first, two otherwise. The game then ends at the right time,
      but with the second of the two charges the unsigned count of a last life runs below zero. The pair starts
      to turn down again, in the first case although one of its cards has just been matched. */
  lemma ThirdCardChargesAgain(s: State, e: Event, r: State, p: nat, q: nat, h: nat,
                              es: seq<Event>, last: State, third: Event)
    requires Breaks(s, e, r, p, q, h) && s.lives >= 2 && q < h
    requires Feasible(r, es) && FramesIn(r, es) == 2 && last == Outcome(r, es)
    requires EventOk(last, third) && DrawsFrame(last, third)
    ensures last.board.cards == r.board.cards && last.lives == s.lives - 1
    ensures var z, twin := Step(last, third), FaceOf(r.board.cards[h]) == FaceOf(r.board.cards[p]);
      && z.lives == (if twin then s.lives - 2 else if s.lives == 2 then 0xFFFF_FFFF else s.lives - 3)
      && (z.gameOver <==> s.lives == 2 || (!twin && s.lives == 3))
      && SentBackAgain(z.board, twin, p, q, h, last.lb)
      && !z.victory
  {
    BreaksMeans(s, e, r, p, q, h);
    ReopenedRun(r, es, last, p, q, h);
    RechargedAt(last, third, r.board, p, q, h);
  }

  lemma ReopenedRun(r: State, es: seq<Event>, last: State, p: nat, q: nat, h: nat)
    requires Spinning(r, r.board, p, q, h, 0) && Feasible(r, es) && FramesIn(r, es) == 2 && last == Outcome(r, es)
    ensures Spinning(last, r.board, p, q, h, 2) && last.lives == r.lives
  {
    SpinningRun(r, es, p, q, h);
  }

  /** If nothing is pressed, that card ends face down although it is matched. */
  lemma MatchedCardTurnsDown(b: Board, p: nat, q: nat, h: nat)
    requires SentBackAgain(b, true, p, q, h, false)
    ensures var r := Calls(b, true, 10); Quiet(r) && r.cards[p].isFlipped && r.cards[p].flipSuccess
  {
    PairMoves(b, p, q);
    assert |{p, q}| == 2;
    TurnDownTakes(b, 2);
    forall i | 0 <= i < CARDS ensures !AtRest(b, true).cards[i].isFlipping {
    }
  }

  // ----- The last life -----

  /** A game lost or won, on the exit screen. */
  ghost predicate Over(s: State) {
    ScreenInv(s) && (s.gameOver || s.victory) && !s.initGame
  }

  lemma OverStep(s: State, e: Event)
    requires Over(s) && EventOk(s, e) && (e.Timer? ==> !DealTick(s.ticks + 1))
    ensures Over(Step(s, e)) && Step(s, e).board == s.board && Step(s, e).gameOver == s.gameOver
    ensures Step(s, e).ticks == s.ticks + if e.Timer? then 1 else 0
  {
    ScreenStep(s, e);
  }

  /** Ticks until the next multiple of 240. */
  function TicksToDeal(ticks: nat): nat {
    240 - ticks % 240
  }

  predicate DealTick(ticks: nat) {
    ticks % 240 == 0
  }

  lemma NextDealTick(ticks: nat) returns (deal: nat)
    ensures deal == ticks + TicksToDeal(ticks) && DealTick(deal)
    ensures forall t: nat :: ticks < t < deal ==> !DealTick(t)
  {
    deal := ticks + TicksToDeal(ticks);
  }

  lemma {:induction false} OverRun(s: State, es: seq<Event>, deal: nat)
    requires Over(s) && Feasible(s, es) && s.ticks + TicksIn(es) < deal
    requires forall t: nat :: s.ticks < t < deal ==> !DealTick(t)
    ensures var r := Outcome(s, es);
      Over(r) && r.board == s.board && r.gameOver == s.gameOver && r.ticks == s.ticks + TicksIn(es)
  {
    if es == [] {
    } else {
      var n := |es| - 1;
      OverRun(s, es[..n], deal);
      OverStep(Outcome(s, es[..n]), es[n]);
    }
  }

  /** Any game lost or won is followed by a sound one. */
  lemma OverRedeals(s: State, e: Event)
    requires Over(s) && EventOk(s, e) && e.Timer? && DealTick(s.ticks + 1)
    ensures var r := Step(s, e);
      Redeals(s, e) && Inv(r) && r.initGame && r.gs == Menu && r.lives == LIVES && FreshBoard(r.board)
  {
    DealtIsFresh(e.rng);
    DealtQuiet(s.board.(cards := Dealt(e.rng).value));
  }

  /** After a game lost or won the end stays on the screen until the next multiple of 240 ticks, whatever the
      player does, and then a new game is dealt. */
  lemma NextGameFollows(s: State, es: seq<Event>, last: State, deal: Event)
    requires Inv(s) && (s.gameOver || s.victory)
    requires Feasible(s, es) && TicksIn(es) == TicksToDeal(s.ticks) - 1 && last == Outcome(s, es)
    requires EventOk(last, deal) && deal.Timer?
    ensures last.gameOver == s.gameOver && last.gs == Exit && last.board == s.board
    ensures var z := Step(last, deal);
      Redeals(last, deal) && Inv(z) && z.initGame && z.gs == Menu && z.lives == LIVES && FreshBoard(z.board)
  {
    var next := NextDealTick(s.ticks);
    NextDeal(s, es, last, next, deal);
  }

  /** On the last life the undisciplined tick just ends the game, and at the next multiple of 240 ticks, not
      before and whatever the player does meanwhile, a new game is dealt that is sound again. */
  lemma LastLifeRecovers(s: State, e: Event, r: State, p: nat, q: nat, h: nat,
                         es: seq<Event>, last: State, deal: Event)
    requires Breaks(s, e, r, p, q, h) && s.lives == 1
    requires Feasible(r, es) && TicksIn(es) == TicksToDeal(r.ticks) - 1 && last == Outcome(r, es)
    requires EventOk(last, deal) && deal.Timer?
    ensures r.gameOver && r.gs == Exit
    ensures last.gameOver && last.gs == Exit && last.board == r.board
    ensures var z := Step(last, deal);
      Redeals(last, deal) && Inv(z) && z.initGame && z.gs == Menu && z.lives == LIVES && FreshBoard(z.board)
  {
    BreaksMeans(s, e, r, p, q, h);
    var next := NextDealTick(r.ticks);
    NextDeal(r, es, last, next, deal);
  }

  lemma NextDeal(r: State, es: seq<Event>, last: State, next: nat, e: Event)
    requires Over(r) && Feasible(r, es) && last == Outcome(r, es) && r.ticks + TicksIn(es) + 1 == next
    requires (forall t: nat :: r.ticks < t < next ==> !DealTick(t)) && DealTick(next)
    requires EventOk(last, e) && e.Timer?
    ensures last.gameOver == r.gameOver && last.gs == Exit && last.board == r.board
    ensures var z := Step(last, e);
      Redeals(last, e) && Inv(z) && z.initGame && z.gs == Menu && z.lives == LIVES && FreshBoard(z.board)
  {
    OverUntil(r, es, last, next);
    OverRedeals(last, e);
  }

  lemma OverUntil(r: State, es: seq<Event>, last: State, next: nat)
    requires Over(r) && Feasible(r, es) && last == Outcome(r, es) && r.ticks + TicksIn(es) + 1 == next
    requires forall t: nat :: r.ticks < t < next ==> !DealTick(t)
    ensures Over(last) && last.board == r.board && last.gameOver == r.gameOver && last.ticks + 1 == next
  {
    OverRun(r, es, next);
  }
}
