/** The converse of the refinement: whatever the rules of the memory game allow, a player can make the
    program do, from every deal. */
module Realise {
  import opened Bytes
  import opened Cards
  import opened Flip
  import opened Deal
  import opened Table
  import opened InPlay
  import opened MousePackets
  import opened Session
  import opened Wire
  import opened Rules
  import opened Runs
  import opened Progress
  import opened DrawSafety
  import opened ThirdCard
  import opened Player
  import opened BrokenGame

  // ----- The opening -----

  ghost predicate OnMenu(s: State) {
    Inv(s) && s.running && s.gs == Menu && PointerVisible(s)
  }

  ghost predicate Opening(s: State) {
    && Inv(s) && s.running && s.gs == Game && s.initGame
    && !s.lb && s.scancode != ESCAPE && PointerVisible(s)
  }

  lemma OpeningResult(s: State, r: State)
    requires Opening(s) && EventOk(s, TICK) && r == Step(s, TICK)
    ensures Ready(r) || (Opening(r) && r.ticks % 240 == s.ticks % 240 + 1)
  {
    NextOf(s.ticks, 240);
    OpeningStep(s, TICK);
    StepIsOpening(s, TICK);
    OpeningKeeps(s.board);
  }

  lemma OneOpeningTick(s: State, r: State)
    requires Opening(s) && EventOk(s, TICK) && r == Step(s, TICK)
    ensures Reaches(s, r, []) && (Ready(r) || (Opening(r) && r.ticks % 240 == s.ticks % 240 + 1))
  {
    TickAllowed(s);
    OpeningResult(s, r);
    One(s, TICK, r);
  }

  lemma NextOf(ticks: nat, period: nat)
    requires period == 120 || period == 240
    ensures (ticks + 1) % period == 0 || (ticks + 1) % period == ticks % period + 1
  {
  }

  lemma {:induction false} WaitOpening(s: State) returns (r: State)
    requires Opening(s)
    ensures Reaches(s, r, []) && Ready(r)
    decreases 240 - s.ticks % 240
  {
    TickAllowed(s);
    var m := Step(s, TICK);
    OneOpeningTick(s, m);
    if Ready(m) {
      r := m;
    } else {
      r := WaitOpening(m);
      Quietly(s, m, r, []);
    }
  }

  /** From the menu to the first move: press P and wait for the cards to turn down. */
  lemma Begin(s: State) returns (r: State)
    requires OnMenu(s)
    ensures Reaches(s, r, []) && Ready(r)
  {
    var s1 := s.(scancode := P_KEY);
    ScreenStep(s, Key(P_KEY));
    One(s, Key(P_KEY), s1);
    var s2 := Step(s1, TICK);
    ScreenStep(s1, TICK);
    One(s1, TICK, s2);
    r := WaitOpening(s2);
    Quietly(s1, s2, r, []);
    Quietly(s, s1, r, []);
  }

  // ----- Every legal game -----

  lemma StepKeepsFaces(s: State, e: Event)
    requires Inv(s) && Allowed(s, e)
    ensures Faces(Step(s, e).board.cards) == Faces(s.board.cards)
  {
    if InPlayTick(s, e) {
      PlayTickKeeps(s, e);
      TickReveals(s, e);
    } else if s.running && e.Timer? && s.gs == Game {
      OpeningStep(s, e);
    } else {
      ScreenStep(s, e);
    }
  }

  lemma {:induction false} LeadsKeepsFaces(s: State, es: seq<Event>, r: State, t: seq<int>)
    requires Inv(s) && Leads(s, es, r, t)
    ensures Inv(r) && Faces(r.board.cards) == Faces(s.board.cards)
    decreases |es|
  {
    if es == [] {
    } else {
      var n := |es| - 1;
      var m, u := LastEvent(s, es, r, t);
      LeadsKeepsFaces(s, es[..n], m, u);
      StepKeepsInv(m, es[n]);
      StepKeepsFaces(m, es[n]);
    }
  }

  /** What has been reached within one game is that game after those reveals. */
  lemma ReachedPlays(s: State, r: State, t: seq<int>)
    requires Inv(s) && s.initGame && Reaches(s, r, t)
    ensures Plays(r, t) && Faces(r.board.cards) == Faces(s.board.cards)
  {
    var gs, es, d := Signals(s, r, t);
    LeadsKeepsFaces(s, es, r, t);
    assert Plays(s, []);
    RunPlays(s, es);
  }

  /** A card that the rules let the player reveal lies face down on a board where the game goes on. */
  lemma RevealableLiesFaceDown(r: State, t: seq<int>, c: int)
    requires (Ready(r) || Ended(r)) && Plays(r, t)
    requires CanReveal(Rules.Play(Faces(r.board.cards), t), c)
    ensures Ready(r) && 0 <= c < CARDS && r.board.cards[c].isFlipped
  {
    assert c !in MatchedSet(r.board.cards);
    assert !r.board.cards[c].flipSuccess;
    assert Ready(r);
    QuietWaits(r.board);
    assert c !in OpenSet(r.board.cards);
  }

  lemma NextIsLegal(faces: seq<Face>, t: seq<int>)
    requires |faces| == CARDS && InDeck(t) && Legal(faces, t) && t != []
    ensures var before, c := t[..|t| - 1], t[|t| - 1];
      t == before + [c] && InDeck(before) && Legal(faces, before) && CanReveal(Rules.Play(faces, before), c)
  {
  }

  /** One more reveal of a game that has been played so far. */
  lemma PlayNext(s: State, m: State, before: seq<int>, c: int) returns (r: State)
    requires Inv(s) && s.initGame && Reaches(s, m, before) && (Ready(m) || Ended(m))
    requires InDeck(before) && CanReveal(Rules.Play(Faces(s.board.cards), before), c)
    ensures Reaches(s, r, before + [c]) && (Ready(r) || Ended(r))
  {
    ReachedPlays(s, m, before);
    RevealableLiesFaceDown(m, before, c);
    r := RevealCard(m, c);
    Then(s, m, r, before, [c], before + [c]);
  }

  lemma {:induction false} PlayOut(s: State, t: seq<int>) returns (r: State)
    requires OnMenu(s) && InDeck(t) && Legal(Faces(s.board.cards), t)
    ensures Reaches(s, r, t) && (Ready(r) || Ended(r))
    decreases |t|
  {
    if t == [] {
      r := Begin(s);
    } else {
      NextIsLegal(Faces(s.board.cards), t);
      var before, c := t[..|t| - 1], t[|t| - 1];
      var m := PlayOut(s, before);
      r := PlayNext(s, m, before, c);
    }
  }

  lemma DealOnMenu(rng: Rng)
    requires ValidRng(rng) && Dealt(rng).Some?
    ensures OnMenu(Start(Dealt(rng).value)) && Start(Dealt(rng).value).board.cards == Dealt(rng).value
  {
    StartHolds(rng);
  }

  /** The program, started on the deal, makes the disciplined run `es` of the signals `gs`. */
  ghost predicate Signalled(rng: Rng, gs: seq<Signal>, es: seq<Event>) {
    Dealing(rng, es) && exists d ::
      Heard(Start(Dealt(rng).value), INITIAL, gs, es, Run(Start(Dealt(rng).value), es), d)
  }

  lemma SignalledBy(rng: Rng, r: State, t: seq<int>) returns (gs: seq<Signal>, es: seq<Event>)
    requires ValidRng(rng) && Dealt(rng).Some? && Reaches(Start(Dealt(rng).value), r, t)
    ensures Signalled(rng, gs, es)
    ensures Run(Start(Dealt(rng).value), es) == r && Reveals(Start(Dealt(rng).value), es) == t
  {
    var s := Start(Dealt(rng).value);
    var d;
    gs, es, d := Signals(s, r, t);
  }

  /** From every deal, every sequence of reveals that the rules allow is what the program reveals for some
      signals of keyboard, mouse and timer. */
  lemma EveryLegalGameIsPlayed(rng: Rng, t: seq<int>)
    requires ValidRng(rng) && Dealt(rng).Some? && InDeck(t) && Legal(Faces(Dealt(rng).value), t)
    ensures exists gs, es :: Signalled(rng, gs, es) && Reveals(Start(Dealt(rng).value), es) == t
  {
    DealOnMenu(rng);
    var r := PlayOut(Start(Dealt(rng).value), t);
    var gs, es := SignalledBy(rng, r, t);
  }

  // ----- Every deal can be won -----

  ghost predicate ClosedUnderTwins(faces: seq<Face>, matched: set<int>)
    requires |faces| == CARDS
  {
    forall i, j :: 0 <= i < CARDS && 0 <= j < CARDS && faces[i] == faces[j] ==> (i in matched <==> j in matched)
  }

  /** Only right pairs have been revealed, k of them. */
  ghost predicate AllRight(faces: seq<Face>, t: seq<int>, k: nat) {
    && |faces| == CARDS && InDeck(t) && Legal(faces, t)
    && var m := Rules.Play(faces, t);
       m.lives == LIVES && m.picked == {} && |m.matched| == 2 * k && ClosedUnderTwins(faces, m.matched)
  }

  lemma SubsetIsSmaller(a: set<int>, b: set<int>)
    requires a <= b
    ensures |a| <= |b|
  {
    assert b == a + (b - a);
  }

  lemma SomeUnmatched(matched: set<int>) returns (c: int)
    requires |matched| < CARDS
    ensures 0 <= c < CARDS && c !in matched
  {
    var all := Positions(CARDS);
    if all <= matched {
      SubsetIsSmaller(all, matched);
      assert false;
    }
    c :| c in all && c !in matched;
  }

  lemma TwinsStayClosed(faces: seq<Face>, matched: set<int>, c: nat, q: nat)
    requires Paired(faces) && ClosedUnderTwins(faces, matched)
    requires c < CARDS && q < CARDS && c != q && faces[c] == faces[q]
    ensures ClosedUnderTwins(faces, matched + {c, q})
  {
    forall i, j | 0 <= i < CARDS && 0 <= j < CARDS && faces[i] == faces[j] && i in matched + {c, q}
      ensures j in matched + {c, q}
    {
      if i == c || i == q {
        PairedMeansOneTwin(faces, c, q, j);
      }
    }
  }

  /** Two twins that are not matched yet. */
  lemma UnmatchedTwins(faces: seq<Face>, matched: set<int>) returns (c: int, q: int)
    requires Paired(faces) && |matched| < CARDS && ClosedUnderTwins(faces, matched)
    ensures 0 <= c < CARDS && 0 <= q < CARDS && c != q && faces[c] == faces[q]
    ensures c !in matched && q !in matched && ClosedUnderTwins(faces, matched + {c, q})
  {
    c := SomeUnmatched(matched);
    TwinExists(faces, c);
    q :| 0 <= q < CARDS && q != c && faces[q] == faces[c];
    TwinsStayClosed(faces, matched, c, q);
  }

  lemma TwinsMatch(m: Memory, c: int, q: int)
    requires |m.faces| == CARDS && m.picked == {} && m.lives > 0 && CanReveal(m, c) && CanReveal(m, q)
    requires c != q && m.faces[c] == m.faces[q]
    ensures CanReveal(Reveal(m, c), q)
    ensures Reveal(Reveal(m, c), q) == m.(matched := m.matched + {c, q})
    ensures |m.matched + {c, q}| == |m.matched| + 2
  {
    assert c in Reveal(m, c).picked;
    assert m.matched + {c} + {q} == m.matched + {c, q};
    assert |m.matched + {c, q}| == |m.matched| + |{c, q}|;
  }

  lemma OneMoreRight(faces: seq<Face>, t: seq<int>, k: nat) returns (u: seq<int>)
    requires Paired(faces) && AllRight(faces, t, k) && k < 8
    ensures AllRight(faces, u, k + 1)
  {
    var m := Rules.Play(faces, t);
    var c, q := UnmatchedTwins(faces, m.matched);
    TwinsMatch(m, c, q);
    u := RevealTwo(faces, t, c, q);
  }

  lemma RevealTwo(faces: seq<Face>, t: seq<int>, c: int, q: int) returns (u: seq<int>)
    requires |faces| == CARDS && InDeck(t) && Legal(faces, t)
    requires CanReveal(Rules.Play(faces, t), c) && CanReveal(Reveal(Rules.Play(faces, t), c), q)
    ensures u == t + [c, q] && InDeck(u) && Legal(faces, u)
    ensures Rules.Play(faces, u) == Reveal(Reveal(Rules.Play(faces, t), c), q)
  {
    LegalExtends(faces, t, c);
    LegalExtends(faces, t + [c], q);
    u := t + [c] + [q];
  }

  lemma {:induction false} AllRightTo(faces: seq<Face>, k: nat) returns (t: seq<int>)
    requires Paired(faces) && k <= 8
    ensures AllRight(faces, t, k)
  {
    if k == 0 {
      t := [];
    } else {
      var u := AllRightTo(faces, k - 1);
      t := OneMoreRight(faces, u, k - 1);
    }
  }

  lemma WonTick(s: State, r: State)
    requires Ready(s) && AllMatched(s.board.cards) && EventOk(s, TICK) && r == Step(s, TICK)
    ensures r.lives == s.lives && r.board == s.board
    ensures r.victory || (r.gs == Game && r.ticks % 120 == s.ticks % 120 + 1)
  {
    DrawStill(s.board);
    ScanOfOne(s.board.cards, s.lives);
    NextOf(s.ticks, 120);
    StepIsPlay(s, TICK);
  }

  lemma OneTickToVictory(s: State, r: State)
    requires Ready(s) && AllMatched(s.board.cards) && EventOk(s, TICK) && r == Step(s, TICK)
    ensures Reaches(s, r, []) && r.lives == s.lives
    ensures r.victory || (Ready(r) && AllMatched(r.board.cards) && r.ticks % 120 == s.ticks % 120 + 1)
  {
    TickAllowed(s);
    StillRevealsNothing(s);
    One(s, TICK, r);
    StepKeepsInv(s, TICK);
    PointerStays(s, r);
    WonTick(s, r);
  }

  lemma {:induction false} WaitVictory(s: State) returns (r: State)
    requires Ready(s) && AllMatched(s.board.cards)
    ensures Reaches(s, r, []) && r.victory && r.lives == s.lives
    decreases 120 - s.ticks % 120
  {
    TickAllowed(s);
    var m := Step(s, TICK);
    OneTickToVictory(s, m);
    if m.victory {
      r := m;
    } else {
      r := WaitVictory(m);
      Quietly(s, m, r, []);
    }
  }

  lemma AllInMatched(b: Board)
    requires WellFormed(b) && |MatchedSet(b.cards)| == CARDS
    ensures AllMatched(b.cards)
  {
    forall i | 0 <= i < CARDS ensures b.cards[i].flipSuccess {
      if i !in MatchedSet(b.cards) {
        SubsetOfDeck(MatchedSet(b.cards) + {i}, CARDS);
        assert false;
      }
    }
  }

  /** The state after eight right pairs. */
  lemma EightRight(s: State, r: State, t: seq<int>)
    requires Inv(s) && s.initGame && AllRight(Faces(s.board.cards), t, 8)
    requires Reaches(s, r, t) && (Ready(r) || Ended(r))
    ensures r.lives == LIVES && (r.victory || (Ready(r) && AllMatched(r.board.cards)))
  {
    ReachedPlays(s, r, t);
    AllInMatched(r.board);
  }

  /** From every deal some signals win the game, without losing a life. */
  lemma EveryDealCanBeWon(rng: Rng)
    requires ValidRng(rng) && Dealt(rng).Some?
    ensures exists gs, es ::
      && Signalled(rng, gs, es)
      && Run(Start(Dealt(rng).value), es).victory && Run(Start(Dealt(rng).value), es).lives == LIVES
  {
    DealOnMenu(rng);
    DealtIsFresh(rng);
    var s := Start(Dealt(rng).value);
    var t := AllRightTo(Faces(s.board.cards), 8);
    var r := WinWith(s, t);
    var gs, es := SignalledBy(rng, r, t);
  }

  lemma WinWith(s: State, t: seq<int>) returns (r: State)
    requires OnMenu(s) && AllRight(Faces(s.board.cards), t, 8)
    ensures Reaches(s, r, t) && r.victory && r.lives == LIVES
  {
    r := PlayOut(s, t);
    EightRight(s, r, t);
    if !r.victory {
      var m := r;
      r := WaitVictory(m);
      Then(s, m, r, t, [], t);
    }
  }

  // ----- So can the discipline be broken -----

  /** The reveals `t` are complete pairs, and the three cards can be revealed next. */
  ghost predicate ThreeLeft(faces: seq<Face>, t: seq<int>, o: nat, c: nat, h: nat) {
    && |faces| == CARDS && InDeck(t) && Legal(faces, t)
    && var m := Rules.Play(faces, t);
       && m.picked == {} && CanReveal(m, o) && CanReveal(m, c) && CanReveal(m, h)
       && o != c && c != h && h != o && faces[o] != faces[c]
  }

  /** Card o lies open, c and h face down. */
  ghost predicate OneOpen(s: State, o: nat, c: nat, h: nat) {
    && Ready(s) && o in OpenSet(s.board.cards) && c < CARDS && h < CARDS
    && s.board.cards[c].isFlipped && s.board.cards[h].isFlipped
  }

  lemma RevealFirst(faces: seq<Face>, t: seq<int>, o: nat, c: nat, h: nat)
    requires ThreeLeft(faces, t, o, c, h)
    ensures InDeck(t + [o]) && Legal(faces, t + [o])
    ensures var m := Rules.Play(faces, t + [o]);
      m.picked == {o} && m.lives == Rules.Play(faces, t).lives && CanReveal(m, c) && CanReveal(m, h)
  {
    LegalExtends(faces, t, o);
  }

  lemma AfterFirst(r: State, t: seq<int>, o: nat, c: nat, h: nat)
    requires (Ready(r) || Ended(r)) && Plays(r, t)
    requires var m := Rules.Play(Faces(r.board.cards), t); m.picked == {o} && CanReveal(m, c) && CanReveal(m, h)
    ensures OneOpen(r, o, c, h) && r.lives == Rules.Play(Faces(r.board.cards), t).lives
  {
    RevealableLiesFaceDown(r, t, c);
    RevealableLiesFaceDown(r, t, h);
    assert o in Waiting(r.board.cards);
  }

  lemma OpenOne(s: State, t: seq<int>, o: nat, c: nat, h: nat, to: seq<int>) returns (r: State)
    requires OnMenu(s) && ThreeLeft(Faces(s.board.cards), t, o, c, h) && to == t + [o]
    ensures Reaches(s, r, to) && OneOpen(r, o, c, h) && FaceOf(r.board.cards[c]) != FaceOf(r.board.cards[o])
    ensures r.lives == Rules.Play(Faces(s.board.cards), t).lives
  {
    RevealFirst(Faces(s.board.cards), t, o, c, h);
    r := PlayOut(s, to);
    ReachedPlays(s, r, to);
    AfterFirst(r, to, o, c, h);
    assert Faces(r.board.cards)[o] != Faces(r.board.cards)[c];
  }

  /** A second card is about to be shown and the button goes down on a third. */
  ghost predicate Poised(s: State, o: nat, c: nat, h: nat) {
    && Inv(s) && Playing(s) && CardUnder(s.mx, s.my) == Some(h)
    && PressBesideLastFrame(s.board, InputOf(s, 0), c, o)
  }

  lemma PoiseBoard(s: State, o: nat, c: nat, h: nat)
    requires Inv(s) && Playing(s) && CardUnder(s.mx, s.my) == Some(h) && s.lb
    requires TurningUp(s.board, c) && TicksFor(FramesUp(s.board, c), s.ticks) == 1
    requires o in OpenSet(s.board.cards) && FaceOf(s.board.cards[o]) != FaceOf(s.board.cards[c])
    requires h != c && h < CARDS && s.board.cards[h].isFlipped
    ensures Poised(s, o, c, h)
  {
  }

  lemma PressOn(s: State, h: nat) returns (r: State)
    requires AtHand(s) && h < CARDS
    ensures Reaches(s, r, []) && Inv(r) && Playing(r) && r.lb && CardUnder(r.mx, r.my) == Some(h)
    ensures r.board == s.board && r.lives == s.lives && r.ticks == s.ticks
  {
    var m := PointAt(s, h);
    r := m.(lb := true);
    MouseMoves(m, true, 0, 0, r);
    Quietly(s, m, r, []);
  }

  lemma StartedBeside(cards: seq<Card>, started: seq<Card>, o: nat, c: nat)
    requires o in OpenSet(cards) && c < |cards| && c != o
    requires started == cards[c := cards[c].(isFlipping := true)]
    ensures o in OpenSet(started) && o < |cards|
    ensures FaceOf(started[o]) == FaceOf(cards[o]) && FaceOf(started[c]) == FaceOf(cards[c])
  {
  }

  lemma StartAndWait(s: State, c: nat) returns (r: State)
    requires Ready(s) && c < CARDS && s.board.cards[c].isFlipped
    ensures Reaches(s, r, []) && AtHand(r) && TurningUp(r.board, c) && r.lives == s.lives
    ensures r.board.cards == s.board.cards[c := s.board.cards[c].(isFlipping := true)]
    ensures TicksFor(FramesUp(r.board, c), r.ticks) == 1
  {
    var m := StartCard(s, c);
    r := WaitUp(m, c);
    Quietly(s, m, r, []);
  }

  lemma Poise(s: State, o: nat, c: nat, h: nat) returns (r: State)
    requires OneOpen(s, o, c, h) && c != o && h != o && h != c
    requires FaceOf(s.board.cards[c]) != FaceOf(s.board.cards[o])
    ensures Reaches(s, r, []) && Poised(r, o, c, h) && r.lives == s.lives
  {
    var m := StartAndWait(s, c);
    StartedBeside(s.board.cards, m.board.cards, o, c);
    r := PressOn(m, h);
    PoiseBoard(r, o, c, h);
    Quietly(s, m, r, []);
  }

  /** The next tick breaks the discipline: the press is on h while o and c have just been shown to differ. */
  ghost predicate NextTickBreaks(s: State, o: nat, c: nat, h: nat) {
    && EventOk(s, TICK) && Playing(s)
    && Breaks(s, TICK, Step(s, TICK), if o < c then o else c, if o < c then c else o, h)
  }

  lemma PoisedBreaks(s: State, o: nat, c: nat, h: nat)
    requires Poised(s, o, c, h) && o != c
    ensures NextTickBreaks(s, o, c, h)
  {
    PairOfPress(s.board, s.lives, InputOf(s, 0), c, o);
    PlayOrEnd(s, Step(s, TICK));
  }

  lemma BreakAfter(s: State, t: seq<int>, o: nat, c: nat, h: nat, to: seq<int>) returns (r: State)
    requires OnMenu(s) && ThreeLeft(Faces(s.board.cards), t, o, c, h) && to == t + [o]
    ensures Reaches(s, r, to) && NextTickBreaks(r, o, c, h)
    ensures r.lives == Rules.Play(Faces(s.board.cards), t).lives
  {
    var m := OpenOne(s, t, o, c, h, to);
    r := Poise(m, o, c, h);
    Then(s, m, r, to, [], to);
    PoisedBreaks(r, o, c, h);
  }

  /** From every deal, after any pairs the rules allow and for any three cards still face down of which the
      first two differ, some signals lead to a state whose next tick is undisciplined because of those three
      cards. */
  lemma DisciplineCanBeBroken(rng: Rng, t: seq<int>, o: nat, c: nat, h: nat)
    requires ValidRng(rng) && Dealt(rng).Some? && ThreeLeft(Faces(Dealt(rng).value), t, o, c, h)
    ensures exists gs, es ::
      && Signalled(rng, gs, es)
      && Run(Start(Dealt(rng).value), es).lives == Rules.Play(Faces(Dealt(rng).value), t).lives
      && NextTickBreaks(Run(Start(Dealt(rng).value), es), o, c, h)
  {
    DealOnMenu(rng);
    var r := BreakAfter(Start(Dealt(rng).value), t, o, c, h, t + [o]);
    var gs, es := SignalledBy(rng, r, t + [o]);
  }

  // ----- And each of its consequences be met -----

  /** Three cards in order, the first of which is the twin of neither other. */
  lemma ThreeCards(faces: seq<Face>) returns (c: nat, h: nat)
    requires Paired(faces)
    ensures 0 < c < h < CARDS && faces[0] != faces[c] && faces[0] != faces[h]
  {
    if faces[1] == faces[0] {
      c, h := 2, 3;
      if faces[2] == faces[0] || faces[3] == faces[0] {
        PairedMeansOneTwin(faces, 0, 1, if faces[2] == faces[0] then 2 else 3);
        assert false;
      }
    } else {
      c, h := 1, if faces[2] == faces[0] then 3 else 2;
      if faces[h] == faces[0] {
        PairedMeansOneTwin(faces, 0, 2, 3);
        assert false;
      }
    }
  }

  lemma WrongPair(m: Memory, o: int, c: int)
    requires m.picked == {} && CanReveal(m, o) && CanReveal(m, c) && o != c && m.faces[o] != m.faces[c]
    ensures CanReveal(Reveal(m, o), c) && Reveal(Reveal(m, o), c) == m.(lives := m.lives - 1)
  {
  }

  /** The same wrong pair, k times. */
  lemma {:induction false} WrongPairs(faces: seq<Face>, o: nat, c: nat, k: nat) returns (t: seq<int>)
    requires |faces| == CARDS && o < CARDS && c < CARDS && o != c && faces[o] != faces[c] && k < LIVES
    ensures InDeck(t) && Legal(faces, t) && Rules.Play(faces, t) == Memory(faces, {}, {}, LIVES - k)
  {
    if k == 0 {
      t := [];
    } else {
      var u := WrongPairs(faces, o, c, k - 1);
      WrongPair(Rules.Play(faces, u), o, c);
      t := RevealTwo(faces, u, o, c);
    }
  }

  /** A violation after k wrong pairs, with any third card. */
  lemma BreakWithLives(rng: Rng, o: nat, c: nat, h: nat, k: nat) returns (gs: seq<Signal>, es: seq<Event>)
    requires ValidRng(rng) && Dealt(rng).Some? && k < LIVES
    requires o < CARDS && c < CARDS && h < CARDS && o != c && c != h && h != o
    requires Faces(Dealt(rng).value)[o] != Faces(Dealt(rng).value)[c]
    ensures Signalled(rng, gs, es)
    ensures var s := Run(Start(Dealt(rng).value), es);
      s.lives == LIVES - k && NextTickBreaks(s, o, c, h) && Faces(s.board.cards) == Faces(Dealt(rng).value)
  {
    var f := Faces(Dealt(rng).value);
    var t := WrongPairs(f, o, c, k);
    assert ThreeLeft(f, t, o, c, h);
    DealOnMenu(rng);
    var r := BreakAfter(Start(Dealt(rng).value), t, o, c, h, t + [o]);
    ReachedPlays(Start(Dealt(rng).value), r, t + [o]);
    gs, es := SignalledBy(rng, r, t + [o]);
  }

  /** The same with cards in board order, the third behind the pair and twin of neither. */
  lemma BreakInOrder(rng: Rng, k: nat) returns (gs: seq<Signal>, es: seq<Event>, s: State, c: nat, h: nat)
    requires ValidRng(rng) && Dealt(rng).Some? && k < LIVES
    ensures Signalled(rng, gs, es) && s == Run(Start(Dealt(rng).value), es) && 0 < c < h < CARDS
    ensures s.lives == LIVES - k && NextTickBreaks(s, 0, c, h)
    ensures |s.board.cards| == CARDS && FaceOf(s.board.cards[0]) != FaceOf(s.board.cards[h])
  {
    DealtIsFresh(rng);
    var f := Faces(Dealt(rng).value);
    c, h := ThreeCards(f);
    gs, es := BreakWithLives(rng, 0, c, h, k);
    s := Run(Start(Dealt(rng).value), es);
    assert f == Faces(s.board.cards);
  }

  /** On no run from here does a card settle, a life go, the game end or another one begin, and no frame
      divides by a zero width. */
  ghost predicate Stuck(r: State) {
    forall es :: Feasible(r, es) ==>
      var last := Outcome(r, es);
      && last.board.cards == r.board.cards && last.lives == r.lives
      && !last.gameOver && !last.victory && !last.initGame && WellFormed(last.board) && DrawSafe(last.board, 0)
  }

  lemma BrokenIsStuck(s: State, r: State, p: nat, q: nat, h: nat)
    requires EventOk(s, TICK) && Breaks(s, TICK, r, p, q, h) && s.lives >= 2 && h < q
    ensures Stuck(r)
  {
    BreaksMeans(s, TICK, r, p, q, h);
    forall es | Feasible(r, es)
      ensures var last := Outcome(r, es);
        && last.board.cards == r.board.cards && last.lives == r.lives
        && !last.gameOver && !last.victory && !last.initGame && WellFormed(last.board) && DrawSafe(last.board, 0)
    {
      FrozenRun(r, es, Outcome(r, es), p, q, h);
    }
  }

  /** Every deal can be played into a state that no event leads out of. */
  lemma EveryDealCanFreeze(rng: Rng)
    requires ValidRng(rng) && Dealt(rng).Some?
    ensures exists gs, es ::
      && Signalled(rng, gs, es)
      && var s := Run(Start(Dealt(rng).value), es);
         EventOk(s, TICK) && Stuck(Step(s, TICK))
  {
    DealtIsFresh(rng);
    var c, h := ThreeCards(Faces(Dealt(rng).value));
    var gs, es := BreakWithLives(rng, 0, h, c, 0);
    var s := Run(Start(Dealt(rng).value), es);
    BrokenIsStuck(s, Step(s, TICK), 0, h, c);
  }

  function Ticks(n: nat): (es: seq<Event>)
    ensures |es| == n && forall i :: 0 <= i < n ==> es[i] == TICK
  {
    seq(n, _ => TICK)
  }

  lemma SpinningPlays(s: State, r: State, t: Board, p: nat, q: nat, h: nat, n: nat, m: nat)
    requires Spinning(s, t, p, q, h, n) && Playing(s) && EventOk(s, TICK) && r == Step(s, TICK)
    requires m == n + (if (s.ticks + 1) % 2 == 0 then 1 else 0) && (q < h ==> m <= 2)
    ensures Spinning(r, t, p, q, h, m) && r.lives == s.lives && Playing(r) && r.ticks == s.ticks + 1
  {
    SpinningStep(s, TICK, t, p, q, h, n, m);
    SpinningIsNoEnd(r, t, p, q, h, m);
    PlayOrEnd(s, r);
    PointerStays(s, r);
  }

  lemma SpinningTicks(s: State, t: Board, p: nat, q: nat, h: nat, n: nat)
    requires Spinning(s, t, p, q, h, n) && Playing(s)
    ensures EventOk(s, TICK) && (DrawsFrame(s, TICK) <==> (s.ticks + 1) % 2 == 0)
  {
  }

  lemma TicksOn(k: nat)
    ensures Ticks(k + 1) == Ticks(k) + [TICK]
  {
  }

  /** The events `es` lead from r to m with n frames on the way. */
  ghost predicate FedTo(r: State, es: seq<Event>, m: State, n: nat) {
    Feasible(r, es) && m == Outcome(r, es) && FramesIn(r, es) == n
  }

  /** k ticks after the broken state r, n of which have drawn a frame: every second one. */
  ghost predicate SpunTo(r: State, p: nat, q: nat, h: nat, m: State, k: nat, n: nat) {
    && Spinning(m, r.board, p, q, h, n) && m.lives == r.lives && Playing(m)
    && m.ticks == r.ticks + k && 2 * n <= k <= 2 * n + 1
  }

  lemma DrawsEverySecond(ticks: nat, k: nat, n: nat)
    requires ticks % 2 == 0 && 2 * n <= k <= 2 * n + 1
    ensures (ticks + k + 1) % 2 == 0 <==> k == 2 * n + 1
  {
  }

  lemma SpinOnce(r: State, p: nat, q: nat, h: nat, s: State, m: State, k: nat, n: nat, n': nat)
    requires SpunTo(r, p, q, h, s, k, n) && r.ticks % 2 == 0 && n' == (if k == 2 * n + 1 then n + 1 else n) && n' <= 2
    requires EventOk(s, TICK) && m == Step(s, TICK)
    ensures SpunTo(r, p, q, h, m, k + 1, n') && (DrawsFrame(s, TICK) <==> n' == n + 1)
  {
    DrawsEverySecond(r.ticks, k, n);
    SpinningTicks(s, r.board, p, q, h, n);
    SpinningPlays(s, m, r.board, p, q, h, n, n');
  }

  lemma FedOn(r: State, es: seq<Event>, s: State, fs: seq<Event>, m: State, n: nat, n': nat)
    requires FedTo(r, es, s, n) && EventOk(s, TICK) && m == Step(s, TICK) && fs == es + [TICK]
    requires n' == if DrawsFrame(s, TICK) then n + 1 else n
    ensures FedTo(r, fs, m, n')
  {
    FeasibleOn(r, es, s, TICK, fs);
  }

  lemma OneMoreTick(r: State, p: nat, q: nat, h: nat, es: seq<Event>, s: State, n: nat, fs: seq<Event>, n': nat)
    returns (m: State)
    requires FedTo(r, es, s, n) && SpunTo(r, p, q, h, s, |es|, n) && r.ticks % 2 == 0
    requires fs == es + [TICK] && n' == (if |es| == 2 * n + 1 then n + 1 else n) && n' <= 2
    ensures FedTo(r, fs, m, n') && SpunTo(r, p, q, h, m, |fs|, n')
  {
    SpinningTicks(s, r.board, p, q, h, n);
    m := Step(s, TICK);
    SpinOnce(r, p, q, h, s, m, |es|, n, n');
    FedOn(r, es, s, fs, m, n, n');
  }

  lemma NoTickYet(r: State, p: nat, q: nat, h: nat)
    requires Spinning(r, r.board, p, q, h, 0) && Playing(r)
    ensures FedTo(r, [], r, 0) && SpunTo(r, p, q, h, r, 0, 0)
  {
  }

  lemma {:induction false} FiveTicks(r: State, p: nat, q: nat, h: nat, es: seq<Event>, n: nat) returns (m: State)
    requires Spinning(r, r.board, p, q, h, 0) && Playing(r) && r.ticks % 2 == 0
    requires n <= 2 && 2 * n <= |es| <= 2 * n + 1 && es == Ticks(|es|)
    ensures FedTo(r, es, m, n) && SpunTo(r, p, q, h, m, |es|, n)
    decreases |es|
  {
    if es == [] {
      m := r;
      NoTickYet(r, p, q, h);
    } else {
      var k := |es| - 1;
      TicksOn(k);
      var before := if |es| == 2 * n then n - 1 else n;
      var s := FiveTicks(r, p, q, h, Ticks(k), before);
      m := OneMoreTick(r, p, q, h, Ticks(k), s, before, es, n);
    }
  }

  lemma BreakDraws(s: State, r: State, p: nat, q: nat, h: nat)
    requires EventOk(s, TICK) && Playing(s) && Breaks(s, TICK, r, p, q, h) && s.lives >= 2
    ensures Spinning(r, r.board, p, q, h, 0) && Playing(r) && r.ticks % 2 == 0
  {
    BreaksMeans(s, TICK, r, p, q, h);
    var x, y := PressBefore(s.board, InputOf(s, 0));
    PlayOrEnd(s, r);
    PointerStays(s, r);
    SpinningIsNoEnd(r, r.board, p, q, h, 0);
  }

  ghost predicate WrapsWith(r: State, es: seq<Event>) {
    Feasible(r, es) && Outcome(r, es).lives == 0xFFFF_FFFF && Outcome(r, es).gameOver
  }

  lemma SixthTick(s: State, r: State, p: nat, q: nat, h: nat, es: seq<Event>, m: State, fs: seq<Event>)
    requires EventOk(s, TICK) && Breaks(s, TICK, r, p, q, h) && s.lives == 2 && q < h && r.ticks % 2 == 0
    requires Broken(r.board, p, q, h) && FaceOf(r.board.cards[h]) != FaceOf(r.board.cards[p])
    requires FedTo(r, es, m, 2) && SpunTo(r, p, q, h, m, 5, 2) && fs == es + [TICK]
    ensures WrapsWith(r, fs)
  {
    DrawsEverySecond(r.ticks, 5, 2);
    SpinningTicks(m, r.board, p, q, h, 2);
    ThirdCardChargesAgain(s, TICK, r, p, q, h, es, m, TICK);
    FeasibleOn(r, es, m, TICK, fs);
  }

  /** Six more ticks after the violation with two lives left. */
  lemma WrapsAfter(s: State, r: State, p: nat, q: nat, h: nat)
    requires EventOk(s, TICK) && Playing(s) && Breaks(s, TICK, r, p, q, h) && s.lives == 2 && q < h
    requires h < |r.board.cards| && p < |r.board.cards| && FaceOf(r.board.cards[h]) != FaceOf(r.board.cards[p])
    ensures WrapsWith(r, Ticks(6))
  {
    BreakDraws(s, r, p, q, h);
    var m := FiveTicks(r, p, q, h, Ticks(5), 2);
    TicksOn(5);
    SixthTick(s, r, p, q, h, Ticks(5), m, Ticks(6));
  }

  /** From every deal the unsigned count of lives can be made to run below zero: three wrong pairs, a
      violation, and the six ticks after it. */
  lemma EveryDealCanWrap(rng: Rng)
    requires ValidRng(rng) && Dealt(rng).Some?
    ensures exists gs, es :: Signalled(rng, gs, es) && AboutToWrap(Run(Start(Dealt(rng).value), es))
  {
    var gs, es, s, c, h := BreakInOrder(rng, 3);
    WrapsFrom(s, 0, c, h);
  }

  /** Two lives are left, and the next tick and the six after it take the count below zero. */
  ghost predicate AboutToWrap(s: State) {
    s.lives == 2 && EventOk(s, TICK) && WrapsWith(Step(s, TICK), Ticks(6))
  }

  lemma WrapsFrom(s: State, o: nat, c: nat, h: nat)
    requires NextTickBreaks(s, o, c, h) && s.lives == 2 && o < c < h < |s.board.cards|
    requires FaceOf(s.board.cards[o]) != FaceOf(s.board.cards[h])
    ensures AboutToWrap(s)
  {
    var r := Step(s, TICK);
    BreaksMeans(s, TICK, r, o, c, h);
    assert Faces(r.board.cards)[o] != Faces(r.board.cards)[h];
    WrapsAfter(s, r, o, c, h);
  }

  /** From every deal a game can be brought to its last life and ended by a violation. */
  lemma EveryDealCanBreakOnTheLastLife(rng: Rng)
    requires ValidRng(rng) && Dealt(rng).Some?
    ensures exists gs, es :: Signalled(rng, gs, es) && AboutToEnd(Run(Start(Dealt(rng).value), es))
  {
    var gs, es, s, c, h := BreakInOrder(rng, 4);
    EndsFrom(s, 0, c, h);
  }

  /** One life is left, and the next tick breaks the discipline and ends the game. */
  ghost predicate AboutToEnd(s: State) {
    && Inv(s) && s.lives == 1 && EventOk(s, TICK) && InPlayTick(s, TICK) && !DisciplinedEvent(s, TICK)
    && Step(s, TICK).gameOver && Step(s, TICK).gs == Exit
  }

  lemma EndsFrom(s: State, o: nat, c: nat, h: nat)
    requires NextTickBreaks(s, o, c, h) && s.lives == 1 && o < c
    ensures AboutToEnd(s)
  {
    BreaksMeans(s, TICK, Step(s, TICK), o, c, h);
  }
}
