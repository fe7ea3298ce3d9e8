/** What every tick of a game in progress keeps, and the memory game it plays. */
module InPlay {
  import opened Bytes
  import opened Cards
  import opened Flip
  import opened Table
  import opened Rules

  // ----- The invariant -----

  /** Matched cards lie face up and still, and are matched together with their twins. */
  ghost predicate Common(b: Board) {
    && WellFormed(b)
    && Paired(Faces(b.cards))
    && (forall i :: 0 <= i < CARDS && b.cards[i].flipSuccess ==> !b.cards[i].isFlipped && !b.cards[i].isFlipping)
    && (forall i, j :: 0 <= i < CARDS && 0 <= j < CARDS && FaceOf(b.cards[i]) == FaceOf(b.cards[j]) ==>
          b.cards[i].flipSuccess == b.cards[j].flipSuccess)
  }

  /** Nothing turns and the animation is reset. */
  ghost predicate Quiet(b: Board) {
    WellFormed(b) && b.width == 1 && Moving(b.cards) == {} && forall i :: 0 <= i < CARDS ==> b.otherSide[i] == 0
  }

  ghost predicate Still(b: Board) {
    Quiet(b) && AtMostOneOpen(b.cards)
  }

  /** One face-down card turns up. */
  ghost predicate TurningUp(b: Board, p: nat) {
    && p < CARDS && WellFormed(b)
    && Moving(b.cards) == {p} && AtMostOneOpen(b.cards)
    && Together(b, false, b.otherSide[p])
    && (b.otherSide[p] == 0 || b.otherSide[p] == 1)
    && 1 <= b.width <= 11 - b.otherSide[p]
  }

  /** The two open cards, which differ, turn down. */
  ghost predicate TurningDown(b: Board, p: nat, q: nat) {
    && p < q < CARDS && WellFormed(b)
    && Moving(b.cards) == {p, q} == OpenSet(b.cards)
    && FaceOf(b.cards[p]) != FaceOf(b.cards[q])
    && Together(b, true, b.otherSide[p])
    && ((b.otherSide[p] == 0 && b.width in {1, 5, 9}) || (b.otherSide[p] == 1 && b.width in {5, 9}))
  }

  ghost predicate PlayBoard(b: Board) {
    Common(b) && (Still(b) || (exists p: nat :: TurningUp(b, p)) || (exists p: nat, q: nat :: TurningDown(b, p, q)))
  }

  // ----- The game behind the board -----

  function MatchedSet(cards: seq<Card>): set<int> {
    set i: int | 0 <= i < |cards| && cards[i].flipSuccess
  }

  /** Open cards that do not turn. */
  function Waiting(cards: seq<Card>): set<int> {
    set i: int | 0 <= i < |cards| && Open(cards[i]) && !cards[i].isFlipping
  }

  ghost function View(b: Board, lives: nat): Memory {
    Memory(Faces(b.cards), MatchedSet(b.cards), Waiting(b.cards), lives)
  }

  /** Cards whose turn up ends in this frame. */
  ghost function Shown(b: Board, draws: bool): set<int>
    requires WellFormed(b)
  {
    set i: int | 0 <= i < CARDS && b.cards[i].isFlipped && !Frame(b, draws).cards[i].isFlipped
  }

  // ----- The frame -----

  lemma SingleMoves(b: Board, p: nat)
    requires Moving(b.cards) == {p}
    ensures p < |b.cards| && b.cards[p].isFlipping
    ensures forall i :: 0 <= i < |b.cards| && i != p ==> !b.cards[i].isFlipping
  {
    assert p in Moving(b.cards);
    forall i | 0 <= i < |b.cards| && i != p ensures !b.cards[i].isFlipping {
      assert i !in Moving(b.cards);
    }
  }

  /** Common only looks at faces and matched cards. */
  lemma CommonKept(b: Board, d: Board)
    requires Common(b) && WellFormed(d)
    requires forall i :: 0 <= i < CARDS ==> FaceOf(d.cards[i]) == FaceOf(b.cards[i])
    requires forall i :: 0 <= i < CARDS ==> d.cards[i].flipSuccess == b.cards[i].flipSuccess
    requires forall i :: 0 <= i < CARDS && b.cards[i].flipSuccess ==> d.cards[i] == b.cards[i]
    ensures Common(d)
    ensures Faces(d.cards) == Faces(b.cards)
    ensures MatchedSet(d.cards) == MatchedSet(b.cards)
  {
    assert Faces(d.cards) == Faces(b.cards);
    forall i, j | 0 <= i < CARDS && 0 <= j < CARDS && FaceOf(d.cards[i]) == FaceOf(d.cards[j])
      ensures d.cards[i].flipSuccess == d.cards[j].flipSuccess
    {
      assert FaceOf(b.cards[i]) == FaceOf(b.cards[j]);
    }
  }

  lemma RestKeepsCommon(b: Board, down: bool)
    requires Common(b)
    ensures Common(AtRest(b, down)) && Quiet(AtRest(b, down))
    ensures Faces(AtRest(b, down).cards) == Faces(b.cards)
    ensures MatchedSet(AtRest(b, down).cards) == MatchedSet(b.cards)
  {
    CommonKept(b, AtRest(b, down));
  }

  /** A frame of a card turning up moves the width by one, or shows the card. */
  lemma FrameTurningUp(b: Board, p: nat)
    requires TurningUp(b, p)
    ensures Draw(b) == if b.otherSide[p] == 1 && b.width == 1 then AtRest(b, false)
                       else if b.otherSide[p] == 1 || b.width > 10 then Showing(b, 1, b.width - 1)
                       else Showing(b, 0, b.width + 1)
  {
    SingleMoves(b, p);
    DrawOne(b, p);
    assert |{p}| == 1;
    CallTogether(b, false, b.otherSide[p], 1);
  }

  lemma FrameKeepsTurningUp(b: Board, p: nat)
    requires Common(b) && TurningUp(b, p) && !(b.otherSide[p] == 1 && b.width == 1)
    ensures Draw(b).cards == b.cards && TurningUp(Draw(b), p) && Common(Draw(b))
  {
    FrameTurningUp(b, p);
    SingleMoves(b, p);
    CommonKept(b, Draw(b));
  }

  lemma FrameShows(b: Board, p: nat)
    requires Common(b) && TurningUp(b, p) && b.otherSide[p] == 1 && b.width == 1
    ensures Draw(b) == AtRest(b, false) && Common(Draw(b)) && Quiet(Draw(b))
    ensures OpenSet(Draw(b).cards) == OpenSet(b.cards) + {p}
    ensures p !in OpenSet(b.cards)
  {
    FrameTurningUp(b, p);
    RestKeepsCommon(b, false);
    SingleMoves(b, p);
    assert b.cards[p].isFlipped;
    assert forall i :: 0 <= i < CARDS && i != p ==> Draw(b).cards[i] == b.cards[i];
  }

  lemma PairMoves(b: Board, p: nat, q: nat)
    requires Moving(b.cards) == {p, q}
    ensures p < |b.cards| && q < |b.cards| && b.cards[p].isFlipping && b.cards[q].isFlipping
    ensures forall i :: 0 <= i < |b.cards| && i != p && i != q ==> !b.cards[i].isFlipping
  {
    assert p in Moving(b.cards) && q in Moving(b.cards);
    forall i | 0 <= i < |b.cards| && i != p && i != q ensures !b.cards[i].isFlipping {
      assert i !in Moving(b.cards);
    }
  }

  /** A frame of two cards turning down makes two calls: 1, 5, 9, back at 9, 5, and down. */
  lemma FrameTurningDown(b: Board, p: nat, q: nat)
    requires TurningDown(b, p, q)
    ensures Draw(b) == if b.otherSide[p] == 1 && b.width == 5 then AtRest(b, true)
                       else if b.otherSide[p] == 1 then Showing(b, 1, 5)
                       else if b.width == 9 then Showing(b, 1, 9)
                       else Showing(b, 0, b.width + 4)
  {
    PairMoves(b, p, q);
    assert |{p, q}| == 2;
    CallTogether(b, true, b.otherSide[p], 2);
    var half := FlipCall(b, true);
    assert half == Showing(b, b.otherSide[p], half.width);
    DrawTwo(b, p, q);
    CallTogether(half, true, b.otherSide[p], 2);
    assert AtRest(half, true) == AtRest(b, true);
  }

  lemma FrameKeepsTurningDown(b: Board, p: nat, q: nat)
    requires Common(b) && TurningDown(b, p, q) && !(b.otherSide[p] == 1 && b.width == 5)
    ensures Draw(b).cards == b.cards && TurningDown(Draw(b), p, q) && Common(Draw(b))
  {
    FrameTurningDown(b, p, q);
    PairMoves(b, p, q);
    CommonKept(b, Draw(b));
  }

  lemma FrameHides(b: Board, p: nat, q: nat)
    requires Common(b) && TurningDown(b, p, q) && b.otherSide[p] == 1 && b.width == 5
    ensures Draw(b) == AtRest(b, true) && Common(Draw(b)) && Quiet(Draw(b))
    ensures OpenSet(Draw(b).cards) == {}
  {
    FrameTurningDown(b, p, q);
    RestKeepsCommon(b, true);
    PairMoves(b, p, q);
    forall i | 0 <= i < CARDS ensures i !in OpenSet(Draw(b).cards) {
      assert i in OpenSet(b.cards) ==> i == p || i == q;
    }
  }

  /** What a frame does to a board in play: it shows no card and waits for the same one, or it shows
      the card that was turning up and the board comes to rest. */
  ghost predicate FrameResult(b: Board, draws: bool)
    requires WellFormed(b)
  {
    var d := Frame(b, draws);
    && Common(d) && Faces(d.cards) == Faces(b.cards) && MatchedSet(d.cards) == MatchedSet(b.cards)
    && (Shown(b, draws) == {} ==> PlayBoard(d) && Waiting(d.cards) == Waiting(b.cards))
    && (forall p :: p in Shown(b, draws) ==> Shows(b, d, p) && Shown(b, draws) == {p})
  }

  ghost predicate Shows(b: Board, d: Board, p: int) {
    && Quiet(d) && AtMostOneOpen(b.cards) && Waiting(b.cards) == OpenSet(b.cards)
    && p !in OpenSet(b.cards) && OpenSet(d.cards) == OpenSet(b.cards) + {p}
  }

  lemma FrameSpecUp(b: Board, p: nat)
    requires Common(b) && TurningUp(b, p)
    ensures FrameResult(b, true)
  {
    SingleMoves(b, p);
    if b.otherSide[p] == 1 && b.width == 1 {
      FrameShows(b, p);
      RestKeepsCommon(b, false);
      var d := AtRest(b, false);
      assert b.cards[p].isFlipped && !d.cards[p].isFlipped;
      assert forall i :: 0 <= i < CARDS && i != p ==> d.cards[i] == b.cards[i];
      assert Shown(b, true) == {p};
      assert Waiting(b.cards) == OpenSet(b.cards);
    } else {
      FrameKeepsTurningUp(b, p);
      assert Shown(b, true) == {};
    }
  }

  lemma FrameSpecDown(b: Board, p: nat, q: nat)
    requires Common(b) && TurningDown(b, p, q)
    ensures FrameResult(b, true)
  {
    if b.otherSide[p] == 1 && b.width == 5 {
      FrameHides(b, p, q);
      RestKeepsCommon(b, true);
      HidingShowsNothing(b, p, q);
    } else {
      FrameKeepsTurningDown(b, p, q);
      assert Shown(b, true) == {};
    }
  }

  lemma FrameSpec(b: Board, draws: bool)
    requires PlayBoard(b)
    ensures FrameResult(b, draws)
  {
    if !draws {
      assert Shown(b, draws) == {};
    } else if Still(b) {
      DrawStill(b);
      assert Shown(b, draws) == {};
    } else if p: nat :| TurningUp(b, p) {
      FrameSpecUp(b, p);
    } else {
      var p: nat, q: nat :| TurningDown(b, p, q);
      FrameSpecDown(b, p, q);
    }
  }

  lemma HidingShowsNothing(b: Board, p: nat, q: nat)
    requires TurningDown(b, p, q) && Draw(b) == AtRest(b, true) && OpenSet(Draw(b).cards) == {}
    ensures Shown(b, true) == {} && Waiting(Draw(b).cards) == Waiting(b.cards) == {}
    ensures AtMostOneOpen(Draw(b).cards)
  {
    PairMoves(b, p, q);
    forall i | 0 <= i < CARDS ensures i !in Waiting(b.cards) && i !in Waiting(Draw(b).cards) {
      assert i in OpenSet(b.cards) ==> i == p || i == q;
      assert i !in OpenSet(Draw(b).cards);
    }
  }

  // ----- Click and check -----

  /** A press on a face-down card while two open cards that differ lie still. */
  ghost predicate PressOnThird(d: Board, lb: bool, under: Option<nat>)
    requires WellFormed(d) && (under.Some? ==> under.value < CARDS)
  {
    && lb && under.Some? && d.cards[under.value].isFlipped && Moving(d.cards) == {}
    && exists p, q :: p in OpenSet(d.cards) && q in OpenSet(d.cards) && FaceOf(d.cards[p]) != FaceOf(d.cards[q])
  }

  /** On a quiet board the click starts exactly the face-down card under the pointer. */
  lemma ClickStartsCardUnder(d: Board, under: Option<nat>, stray: nat)
    requires Quiet(d) && stray < CARDS && (under.Some? ==> under.value < CARDS)
    ensures Clicked(d.cards, under, stray) ==
            if under.Some? && d.cards[under.value].isFlipped
            then d.cards[under.value := d.cards[under.value].(isFlipping := true)]
            else d.cards
  {
    forall i | 0 <= i < CARDS ensures !d.cards[i].isFlipping {
      assert i !in Moving(d.cards);
    }
  }

  /** A press on a drawn back starts its card if the point answers, and otherwise nothing. */
  lemma ClickOnBack(d: Board, col: nat, row: nat, mx: int, my: int, stray: nat)
    requires Quiet(d) && stray < CARDS && col < 4 && row < 4 && OnBack(col, row, mx, my)
    requires d.cards[col + 4 * row].isFlipped
    ensures var k := col + 4 * row;
      Clicked(d.cards, CardUnder(mx, my), stray) ==
      if Answers(col, row, mx, my) then d.cards[k := d.cards[k].(isFlipping := true)] else d.cards
  {
    BackAnswersIff(col, row, mx, my);
    ClickStartsCardUnder(d, CardUnder(mx, my), stray);
  }

  ghost predicate SameView(b: Board, d: Board) {
    && Faces(d.cards) == Faces(b.cards) && MatchedSet(d.cards) == MatchedSet(b.cards)
    && Waiting(d.cards) == Waiting(b.cards)
  }

  lemma StartTurningUp(d: Board, h: nat)
    requires Common(d) && Quiet(d) && h < CARDS && d.cards[h].isFlipped
    ensures var r := d.(cards := d.cards[h := d.cards[h].(isFlipping := true)]);
      && Common(r) && SameView(d, r) && OpenSet(r.cards) == OpenSet(d.cards)
      && Moving(r.cards) == {h} && Together(r, false, 0) && r.width == 1
  {
    var r := d.(cards := d.cards[h := d.cards[h].(isFlipping := true)]);
    CommonKept(d, r);
    forall i | 0 <= i < CARDS ensures !d.cards[i].isFlipping {
      assert i !in Moving(d.cards);
    }
  }

  lemma CheckStill(d: Board, lives: nat, lb: bool, under: Option<nat>, stray: nat)
    requires Common(d) && Still(d) && stray < CARDS && (under.Some? ==> under.value < CARDS)
    ensures var r := AfterFrame(d, lives, lb, under, stray);
      PlayBoard(r.board) && SameView(d, r.board) && r.lives == lives && !r.over
  {
    ScanOfOne(d.cards, lives);
    if lb {
      ClickStartsCardUnder(d, under, stray);
      if under.Some? && d.cards[under.value].isFlipped {
        StartTurningUp(d, under.value);
        var cards := Clicked(d.cards, under, stray);
        ScanOfOne(cards, lives);
        assert TurningUp(d.(cards := cards), under.value);
      }
    }
  }

  lemma CheckTurningDown(d: Board, lives: nat, p: nat, q: nat)
    requires TurningDown(d, p, q)
    ensures var s := ScanFrom(StartScan(d.cards, lives), 0); s.cards == d.cards && s.lives == lives && !s.over
  {
    PairMoves(d, p, q);
    ScanOfTwo(d.cards, lives, p, q);
    assert p in OpenSet(d.cards) && q in OpenSet(d.cards);
  }

  /** While cards turn, neither a press nor the check, which runs again every tick, changes anything. */
  lemma CheckTurning(d: Board, lives: nat, lb: bool, under: Option<nat>, stray: nat)
    requires PlayBoard(d) && !Still(d) && stray < CARDS && (under.Some? ==> under.value < CARDS)
    ensures AfterFrame(d, lives, lb, under, stray) == Ticked(d, lives, false)
  {
    if p: nat :| TurningUp(d, p) {
      assert p in Moving(d.cards);
      ScanOfOne(d.cards, lives);
    } else {
      var p: nat, q: nat :| TurningDown(d, p, q);
      assert p in Moving(d.cards);
      CheckTurningDown(d, lives, p, q);
    }
  }

  /** The card that has just been shown completes a pair. */
  ghost predicate PairUp(d: Board, p: nat, q: nat) {
    Common(d) && Quiet(d) && p < q < CARDS && OpenSet(d.cards) == {p, q}
  }

  lemma OpenPair(cards: seq<Card>, p: nat, q: nat)
    requires OpenSet(cards) == {p, q}
    ensures p < |cards| && q < |cards| && Open(cards[p]) && Open(cards[q])
    ensures forall i :: 0 <= i < |cards| && i != p && i != q ==> !Open(cards[i])
  {
    assert p in OpenSet(cards) && q in OpenSet(cards);
    forall i | 0 <= i < |cards| && i != p && i != q ensures !Open(cards[i]) {
      assert i !in OpenSet(cards);
    }
  }

  function Match(cards: seq<Card>, p: nat, q: nat): (r: seq<Card>)
    requires p < |cards| && q < |cards|
    ensures |r| == |cards|
  {
    var c := cards[q := cards[q].(flipSuccess := true)];
    c[p := c[p].(flipSuccess := true)]
  }

  function SendBack(cards: seq<Card>, p: nat, q: nat): (r: seq<Card>)
    requires p < |cards| && q < |cards|
    ensures |r| == |cards|
  {
    var c := cards[q := cards[q].(isFlipping := true)];
    c[p := c[p].(isFlipping := true)]
  }

  /** Matching two twins keeps matched cards closed under twins. */
  lemma MatchKeepsCommon(d: Board, p: nat, q: nat)
    requires Common(d) && p < q < CARDS && OpenSet(d.cards) == {p, q}
    requires FaceOf(d.cards[p]) == FaceOf(d.cards[q])
    requires !d.cards[p].isFlipping && !d.cards[q].isFlipping
    ensures var cards := Match(d.cards, p, q);
      && Common(d.(cards := cards)) && Faces(cards) == Faces(d.cards)
      && MatchedSet(cards) == MatchedSet(d.cards) + {p, q} && OpenSet(cards) == {} && Waiting(cards) == {}
      && Moving(cards) == Moving(d.cards)
  {
    var cards := Match(d.cards, p, q);
    OpenPair(d.cards, p, q);
    assert Faces(cards) == Faces(d.cards);
    forall i, j | 0 <= i < CARDS && 0 <= j < CARDS && FaceOf(cards[i]) == FaceOf(cards[j])
      ensures cards[i].flipSuccess == cards[j].flipSuccess
    {
      var f := Faces(d.cards);
      if i == p || i == q {
        PairedMeansOneTwin(f, p, q, j);
      } else if j == p || j == q {
        PairedMeansOneTwin(f, p, q, i);
      } else {
        assert FaceOf(d.cards[i]) == FaceOf(d.cards[j]);
      }
    }
  }

  lemma SendBackStartsTurn(d: Board, p: nat, q: nat)
    requires PairUp(d, p, q) && FaceOf(d.cards[p]) != FaceOf(d.cards[q])
    ensures var r := d.(cards := SendBack(d.cards, p, q));
      && Common(r) && TurningDown(r, p, q) && r.width == 1
      && Faces(r.cards) == Faces(d.cards) && MatchedSet(r.cards) == MatchedSet(d.cards) && Waiting(r.cards) == {}
  {
    var r := d.(cards := SendBack(d.cards, p, q));
    OpenPair(d.cards, p, q);
    forall i | 0 <= i < CARDS ensures !d.cards[i].isFlipping {
      assert i !in Moving(d.cards);
    }
    CommonKept(d, r);
    assert Moving(r.cards) == {p, q} == OpenSet(r.cards);
  }

  lemma CheckUnpressedPair(d: Board, lives: nat, p: nat, q: nat)
    requires PairUp(d, p, q)
    ensures var s := ScanFrom(StartScan(d.cards, lives), 0);
      if FaceOf(d.cards[p]) == FaceOf(d.cards[q])
      then s.cards == Match(d.cards, p, q) && s.lives == lives && !s.over
      else s.cards == SendBack(d.cards, p, q) && s.lives == LoseLife(lives) && s.over == (s.lives == 0)
  {
    ScanOfTwo(d.cards, lives, p, q);
    assert q !in Moving(d.cards);
  }

  /** The check resolves a pair that has come to rest face up. */
  lemma CheckPair(d: Board, lives: nat, lb: bool, under: Option<nat>, stray: nat, p: nat, q: nat)
    requires PairUp(d, p, q) && stray < CARDS && (under.Some? ==> under.value < CARDS)
    requires !PressOnThird(d, lb, under)
    ensures var r := AfterFrame(d, lives, lb, under, stray);
      && PlayBoard(r.board) && Faces(r.board.cards) == Faces(d.cards) && Waiting(r.board.cards) == {}
      && if FaceOf(d.cards[p]) == FaceOf(d.cards[q])
         then MatchedSet(r.board.cards) == MatchedSet(d.cards) + {p, q} && r.lives == lives && !r.over
         else && MatchedSet(r.board.cards) == MatchedSet(d.cards)
              && r.lives == LoseLife(lives) && r.over == (r.lives == 0)
              && TurningDown(r.board, p, q) && r.board.width == 1
  {
    ClickStartsCardUnder(d, under, stray);
    assert p in OpenSet(d.cards) && q in OpenSet(d.cards);
    if lb && under.Some? && d.cards[under.value].isFlipped {
      CheckPairBesidePress(d, lives, under.value, p, q);
    } else {
      CheckUnpressedPair(d, lives, p, q);
      if FaceOf(d.cards[p]) == FaceOf(d.cards[q]) {
        assert p !in Moving(d.cards) && q !in Moving(d.cards);
        MatchKeepsCommon(d, p, q);
        assert Still(d.(cards := Match(d.cards, p, q)));
      } else {
        SendBackStartsTurn(d, p, q);
      }
    }
  }

  /** A press on a third card is harmless when the two open cards match. */
  lemma CheckPairBesidePress(d: Board, lives: nat, h: nat, p: nat, q: nat)
    requires PairUp(d, p, q) && FaceOf(d.cards[p]) == FaceOf(d.cards[q])
    requires h < CARDS && d.cards[h].isFlipped
    ensures var cards := d.cards[h := d.cards[h].(isFlipping := true)];
      var s := ScanFrom(StartScan(cards, lives), 0);
      && PlayBoard(d.(cards := s.cards)) && s.lives == lives && !s.over
      && Faces(s.cards) == Faces(d.cards) && Waiting(s.cards) == {}
      && MatchedSet(s.cards) == MatchedSet(d.cards) + {p, q}
  {
    var r := d.(cards := d.cards[h := d.cards[h].(isFlipping := true)]);
    OpenPair(d.cards, p, q);
    StartTurningUp(d, h);
    SingleMoves(r, h);
    ScanOfTwo(r.cards, lives, p, q);
    MatchKeepsCommon(r, p, q);
    MatchKeepsTurningUp(r, h, p, q);
  }

  lemma MatchKeepsTurningUp(r: Board, h: nat, p: nat, q: nat)
    requires WellFormed(r) && h < CARDS && p < CARDS && q < CARDS
    requires Moving(r.cards) == {h} && Together(r, false, 0) && r.width == 1
    requires Moving(Match(r.cards, p, q)) == Moving(r.cards) && OpenSet(Match(r.cards, p, q)) == {}
    ensures TurningUp(r.(cards := Match(r.cards, p, q)), h)
  {
    SingleMoves(r, h);
  }

  // ----- The tick -----

  /** Positions and flags of one tick that the board does not hold. */
  datatype Input = Input(draws: bool, lb: bool, under: Option<nat>, stray: nat)

  predicate InputOk(i: Input) {
    i.stray < CARDS && (i.under.Some? ==> i.under.value < CARDS)
  }

  function Tick(b: Board, lives: nat, i: Input): (r: Ticked)
    requires WellFormed(b) && InputOk(i)
    ensures WellFormed(r.board)
  {
    BoardTick(b, lives, i.draws, i.lb, i.under, i.stray)
  }

  /** The two-card discipline, for one tick: no press on a third card while two cards that differ have
      just come to rest face up. */
  ghost predicate Disciplined(b: Board, i: Input)
    requires WellFormed(b) && InputOk(i)
  {
    !PressOnThird(Frame(b, i.draws), i.lb, i.under)
  }

  lemma TickWithoutReveal(b: Board, lives: nat, i: Input)
    requires PlayBoard(b) && InputOk(i) && Shown(b, i.draws) == {}
    ensures var r := Tick(b, lives, i);
      PlayBoard(r.board) && View(r.board, r.lives) == View(b, lives) && !r.over
  {
    FrameSpec(b, i.draws);
    var d := Frame(b, i.draws);
    if Still(d) {
      CheckStill(d, lives, i.lb, i.under, i.stray);
    } else {
      CheckTurning(d, lives, i.lb, i.under, i.stray);
    }
  }

  lemma FirstOfPair(b: Board, lives: nat, i: Input, c: int)
    requires PlayBoard(b) && InputOk(i) && c in Shown(b, i.draws) && Waiting(b.cards) == {}
    ensures var r := Tick(b, lives, i);
      PlayBoard(r.board) && View(r.board, r.lives) == Reveal(View(b, lives), c) && !r.over
  {
    FrameSpec(b, i.draws);
    var d := Frame(b, i.draws);
    assert Shows(b, d, c) && OpenSet(d.cards) == {c};
    CheckStill(d, lives, i.lb, i.under, i.stray);
    QuietWaits(d);
  }

  lemma QuietWaits(d: Board)
    requires Quiet(d)
    ensures Waiting(d.cards) == OpenSet(d.cards)
  {
    forall i | 0 <= i < CARDS ensures !d.cards[i].isFlipping {
      assert i !in Moving(d.cards);
    }
  }

  /** A shown card beside a waiting one makes a pair. */
  lemma ShownMakesPair(b: Board, draws: bool, o: int, c: int) returns (p: nat, q: nat)
    requires PlayBoard(b) && c in Shown(b, draws) && o in OpenSet(b.cards)
    ensures o != c && (p, q) == if o < c then (o, c) else (c, o)
    ensures PairUp(Frame(b, draws), p, q)
    ensures OpenSet(b.cards) == Waiting(b.cards) == {o}
  {
    FrameSpec(b, draws);
    var d := Frame(b, draws);
    assert Shows(b, d, c);
    assert OpenSet(b.cards) == {o};
    p, q := if o < c then o else c, if o < c then c else o;
    assert OpenSet(d.cards) == {p, q};
    OpenPair(d.cards, p, q);
  }

  ghost predicate GoodTick(r: Ticked) {
    && PlayBoard(r.board) && r.over == (r.lives == 0)
    && (r.over ==> exists p: nat, q: nat :: TurningDown(r.board, p, q) && r.board.width == 1)
  }

  /** The memory game after the pair p, q of the game m has been compared. */
  ghost function Compared(m: Memory, p: int, q: int): Memory
    requires 0 <= p < |m.faces| && 0 <= q < |m.faces|
  {
    if m.faces[p] == m.faces[q] then Memory(m.faces, m.matched + {p, q}, {}, m.lives)
    else Memory(m.faces, m.matched, {}, m.lives - 1)
  }

  lemma PairResolves(d: Board, lives: nat, i: Input, p: nat, q: nat)
    requires PairUp(d, p, q) && lives >= 1 && InputOk(i) && !PressOnThird(d, i.lb, i.under)
    ensures var r := AfterFrame(d, lives, i.lb, i.under, i.stray);
      GoodTick(r) && View(r.board, r.lives) == Compared(View(d, lives), p, q)
  {
    CheckPair(d, lives, i.lb, i.under, i.stray, p, q);
  }

  lemma RevealCompares(m: Memory, d: Memory, o: int, c: int, p: int, q: int)
    requires 0 <= o < |m.faces| && 0 <= c < |m.faces| && m.picked == {o}
    requires (p, q) == if o < c then (o, c) else (c, o)
    requires d.faces == m.faces && d.matched == m.matched && d.lives == m.lives
    ensures Compared(d, p, q) == Reveal(m, c)
  {
    assert o in m.picked;
    assert {p, q} == m.picked + {c};
  }

  lemma SecondOfPair(b: Board, lives: nat, i: Input, o: int, c: int)
    requires PlayBoard(b) && lives >= 1 && InputOk(i) && Disciplined(b, i)
    requires c in Shown(b, i.draws) && o in Waiting(b.cards)
    ensures var r := Tick(b, lives, i);
      GoodTick(r) && View(r.board, r.lives) == Reveal(View(b, lives), c)
  {
    var p, q := ShownMakesPair(b, i.draws, o, c);
    var d := Frame(b, i.draws);
    PairResolves(d, lives, i, p, q);
    assert Faces(d.cards) == Faces(b.cards) && MatchedSet(d.cards) == MatchedSet(b.cards) by {
      FrameSpec(b, i.draws);
    }
    RevealCompares(View(b, lives), View(d, lives), o, c, p, q);
  }

  /** One disciplined tick keeps the invariant and plays at most one reveal of the memory game: exactly
      the card, if any, whose turn up ends in its frame. */
  lemma TickPlays(b: Board, lives: nat, i: Input)
    requires PlayBoard(b) && lives >= 1 && InputOk(i) && Disciplined(b, i)
    ensures var r := Tick(b, lives, i);
      && GoodTick(r) && r.lives <= lives
      && (Shown(b, i.draws) == {} ==> View(r.board, r.lives) == View(b, lives))
      && (forall c :: c in Shown(b, i.draws) ==>
            && Shown(b, i.draws) == {c} && CanReveal(View(b, lives), c)
            && View(r.board, r.lives) == Reveal(View(b, lives), c))
  {
    if c :| c in Shown(b, i.draws) {
      FrameSpec(b, i.draws);
      assert Shows(b, Frame(b, i.draws), c);
      if o :| o in Waiting(b.cards) {
        SecondOfPair(b, lives, i, o, c);
      } else {
        FirstOfPair(b, lives, i, c);
      }
    } else {
      assert Shown(b, i.draws) == {};
      TickWithoutReveal(b, lives, i);
    }
  }

  /** The discipline is exact: a tick keeps the invariant if and only if it is disciplined. */
  lemma DisciplineIsExact(b: Board, lives: nat, i: Input)
    requires PlayBoard(b) && lives >= 1 && InputOk(i)
    ensures PlayBoard(Tick(b, lives, i).board) <==> Disciplined(b, i)
  {
    if Disciplined(b, i) {
      TickPlays(b, lives, i);
    } else {
      var p, q := UndisciplinedPair(b, i);
      ThirdCardBreaks(Frame(b, i.draws), lives, i, p, q);
    }
  }

  lemma UndisciplinedPair(b: Board, i: Input) returns (p: nat, q: nat)
    requires PlayBoard(b) && InputOk(i) && !Disciplined(b, i)
    ensures PairUp(Frame(b, i.draws), p, q)
    ensures FaceOf(Frame(b, i.draws).cards[p]) != FaceOf(Frame(b, i.draws).cards[q])
  {
    FrameSpec(b, i.draws);
    var d := Frame(b, i.draws);
    var x, y :| x in OpenSet(d.cards) && y in OpenSet(d.cards) && FaceOf(d.cards[x]) != FaceOf(d.cards[y]);
    if Shown(b, i.draws) == {} {
      MovingMeansTurning(d);
      assert false;
    }
    var c :| c in Shown(b, i.draws);
    assert Shows(b, d, c);
    p, q := ShownMakesPair(b, i.draws, if x == c then y else x, c);
  }

  /** A card is shown only in the last frame of its turn up. */
  lemma ShownInLastFrame(b: Board, draws: bool, c: int)
    requires PlayBoard(b) && c in Shown(b, draws)
    ensures draws && c >= 0 && TurningUp(b, c) && b.otherSide[c] == 1 && b.width == 1
  {
    FrameSpec(b, draws);
    if Still(b) {
      DrawStill(b);
      assert false;
    } else if p: nat :| TurningUp(b, p) {
      if b.otherSide[p] == 1 && b.width == 1 {
        FrameShows(b, p);
        SingleMoves(b, p);
        assert forall i :: 0 <= i < CARDS && i != p ==> Draw(b).cards[i] == b.cards[i];
      } else {
        FrameKeepsTurningUp(b, p);
        assert false;
      }
    } else {
      var p: nat, q: nat :| TurningDown(b, p, q);
      FrameSpecDown(b, p, q);
      DownShowsNothing(b, p, q);
      assert false;
    }
  }

  lemma DownShowsNothing(b: Board, p: nat, q: nat)
    requires Common(b) && TurningDown(b, p, q)
    ensures Shown(b, true) == {}
  {
    if b.otherSide[p] == 1 && b.width == 5 {
      FrameHides(b, p, q);
      HidingShowsNothing(b, p, q);
    } else {
      FrameKeepsTurningDown(b, p, q);
    }
  }

  /** A life goes only in a tick that draws, and the pair it goes for then starts to turn down. */
  lemma ChargeSendsBack(b: Board, lives: nat, i: Input) returns (p: nat, q: nat)
    requires PlayBoard(b) && lives >= 1 && InputOk(i) && Disciplined(b, i) && Tick(b, lives, i).lives < lives
    ensures i.draws && TurningDown(Tick(b, lives, i).board, p, q) && Tick(b, lives, i).board.width == 1
  {
    if Shown(b, i.draws) == {} {
      TickWithoutReveal(b, lives, i);
      assert false;
    }
    var c :| c in Shown(b, i.draws);
    ShownInLastFrame(b, i.draws, c);
    if Waiting(b.cards) == {} {
      FirstOfPair(b, lives, i, c);
      assert false;
    }
    var o :| o in Waiting(b.cards);
    p, q := ShownMakesPair(b, i.draws, o, c);
    CheckPair(Frame(b, i.draws), lives, i.lb, i.under, i.stray, p, q);
  }

  /** The undisciplined press, as the player sees it before the tick: a card is about to finish turning up
      beside an open card that differs, and the press is on another face-down card. */
  ghost predicate PressBesideLastFrame(b: Board, i: Input, p: nat, o: int)
    requires WellFormed(b) && InputOk(i)
  {
    && TurningUp(b, p) && b.otherSide[p] == 1 && b.width == 1
    && o in OpenSet(b.cards) && FaceOf(b.cards[o]) != FaceOf(b.cards[p])
    && i.draws && i.lb && i.under.Some? && i.under.value != p && b.cards[i.under.value].isFlipped
  }

  lemma PressBreaksDiscipline(b: Board, i: Input, p: nat, o: int)
    requires PlayBoard(b) && InputOk(i) && PressBesideLastFrame(b, i, p, o)
    ensures !Disciplined(b, i)
  {
    FrameShows(b, p);
    SingleMoves(b, p);
    var d := Draw(b);
    assert forall k :: 0 <= k < CARDS && k != p ==> d.cards[k] == b.cards[k];
    assert FaceOf(d.cards[p]) == FaceOf(b.cards[p]);
    assert o in OpenSet(d.cards) && p in OpenSet(d.cards);
  }

  /** The discipline in terms of the state before the tick and its input alone. */
  lemma DisciplineBeforeTheTick(b: Board, i: Input)
    requires PlayBoard(b) && InputOk(i)
    ensures Disciplined(b, i) <==> !exists p: nat, o: int :: PressBesideLastFrame(b, i, p, o)
  {
    if p: nat, o: int :| PressBesideLastFrame(b, i, p, o) {
      PressBreaksDiscipline(b, i, p, o);
    }
    if !Disciplined(b, i) {
      var p, o := PressBefore(b, i);
    }
  }

  lemma PressBefore(b: Board, i: Input) returns (c: nat, o: int)
    requires PlayBoard(b) && InputOk(i) && !Disciplined(b, i)
    ensures PressBesideLastFrame(b, i, c, o)
  {
    var p, q := UndisciplinedPair(b, i);
    var d := Frame(b, i.draws);
    FrameSpec(b, i.draws);
    OpenPair(d.cards, p, q);
    c := ShownOfPair(b, i.draws, p, q);
    ShownInLastFrame(b, i.draws, c);
    FrameShows(b, c);
    SingleMoves(b, c);
    assert forall k :: 0 <= k < CARDS && k != c ==> d.cards[k] == b.cards[k];
    o := if c == p then q else p;
    assert o in OpenSet(d.cards);
  }

  lemma ShownOfPair(b: Board, draws: bool, p: nat, q: nat) returns (c: nat)
    requires PlayBoard(b) && PairUp(Frame(b, draws), p, q)
    ensures c in Shown(b, draws) && (c == p || c == q)
  {
    FrameSpec(b, draws);
    var d := Frame(b, draws);
    assert p in OpenSet(d.cards) && q in OpenSet(d.cards);
    if Shown(b, draws) == {} {
      MovingMeansTurning(d);
      assert false;
    }
    var x :| x in Shown(b, draws);
    assert Shows(b, d, x) && x in OpenSet(d.cards);
    c := x;
  }

  lemma MovingMeansTurning(b: Board)
    requires PlayBoard(b) && Moving(b.cards) == {}
    ensures AtMostOneOpen(b.cards)
  {
    if p: nat :| TurningUp(b, p) {
      assert p in Moving(b.cards);
    } else if p: nat, q: nat :| TurningDown(b, p, q) {
      assert p in Moving(b.cards);
    }
  }

  /** The undisciplined press starts its card, and the check then sends the pair back and charges it. */
  lemma ThirdCardStarts(d: Board, lives: nat, i: Input, p: nat, q: nat)
    requires PairUp(d, p, q) && FaceOf(d.cards[p]) != FaceOf(d.cards[q]) && InputOk(i)
    requires i.lb && i.under.Some? && d.cards[i.under.value].isFlipped
    ensures var r, h := AfterFrame(d, lives, i.lb, i.under, i.stray), i.under.value;
      && r.board == d.(cards := SendBack(d.cards[h := d.cards[h].(isFlipping := true)], p, q))
      && r.lives == LoseLife(lives) && r.over == (r.lives == 0)
  {
    OpenPair(d.cards, p, q);
    ClickStartsCardUnder(d, i.under, i.stray);
    var cards := Clicked(d.cards, i.under, i.stray);
    assert OpenSet(cards) == OpenSet(d.cards);
    assert q !in Moving(d.cards);
    ScanOfTwo(cards, lives, p, q);
  }

  /** After an undisciplined press three cards turn at once. */
  lemma ThirdCardBreaks(d: Board, lives: nat, i: Input, p: nat, q: nat)
    requires PairUp(d, p, q) && FaceOf(d.cards[p]) != FaceOf(d.cards[q]) && InputOk(i)
    requires i.lb && i.under.Some? && d.cards[i.under.value].isFlipped
    ensures var r, h := AfterFrame(d, lives, i.lb, i.under, i.stray).board, i.under.value;
      {p, q, h} <= Moving(r.cards) && !PlayBoard(r)
  {
    OpenPair(d.cards, p, q);
    ThirdCardStarts(d, lives, i, p, q);
    ThreeAreTooMany(AfterFrame(d, lives, i.lb, i.under, i.stray).board, p, q, i.under.value);
  }

  lemma ThreeAreTooMany(t: Board, p: nat, q: nat, h: nat)
    requires p < |t.cards| && q < |t.cards| && h < |t.cards| && p != q && q != h && h != p
    requires t.cards[p].isFlipping && t.cards[q].isFlipping && t.cards[h].isFlipping
    ensures {p, q, h} <= Moving(t.cards) && !PlayBoard(t)
  {
    assert p in Moving(t.cards) && q in Moving(t.cards) && h in Moving(t.cards);
  }
}
