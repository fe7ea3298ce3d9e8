/** The game as the program holds it: global arrays and variables changed in place, each operation
    proved against the functions of the other modules. */
module MemoryGame {
  import opened Bytes
  import opened Cards
  import opened Flip
  import opened Deal
  import opened Table
  import opened Pointer
  import opened Session
  import opened InPlay
  import opened DrawSafety
  import opened Runs

  /** A still card drawn by `draw_game_cards`, face or back, with its top-left corner. */
  datatype Drawn = Drawn(card: nat, x: int, y: int, back: bool)

  lemma NoZeroWidthFresh(b: Board)
    requires FreshBoard(b)
    ensures DrawSafe(b, 0) && DrawSafe(b.(cards := AllTurning(b.cards)), 0)
  {
    forall k | 0 <= k < CARDS ensures !b.cards[k].isFlipping && !b.cards[k].isFlipped {
      assert JustDealt(b.cards[k]);
    }
    SafeAfter(b, 0);
    var t := b.(cards := AllTurning(b.cards));
    AllMoving(t.cards, CARDS);
    CallTogether(t, true, 0, 16);
    var r := FlipCall(t, true);
    assert DrawCard(t, 0) == r == Showing(t, 0, 17);
    CallTogether(r, true, 0, 16);
    assert DrawCard(r, 1) == AtRest(r, true);
    SafeAfter(AtRest(r, true), 2);
    assert DrawSafe(r, 1);
  }

  ghost function PicksIn(first: seq<int>, second: seq<int>, n: nat): (r: seq<Pick>)
    requires n <= |first| && n <= |second|
    ensures |r| == n && forall k :: 0 <= k < n ==> r[k] == (first[k], second[k])
  {
    seq(n, k requires 0 <= k < n => (first[k], second[k]))
  }

  ghost function StartedIf(cards: seq<Card>, k: nat, hit: bool): seq<Card>
    requires k < |cards|
  {
    if hit then cards[k := cards[k].(isFlipping := true)] else cards
  }

  /** A card drawn at its corner. */
  function AtCorner(k: nat, back: bool): Drawn {
    var (x, y) := ScreenXY(k % 4, k / 4);
    Drawn(k, x, y, back)
  }

  /** What a frame has drawn of the first `n` cards: every card that lay still before it, once and in board
      order, and none that still turns after it, each at its corner with the side that is up. */
  ghost predicate DrawsStill(drawn: seq<Drawn>, start: seq<Card>, end: seq<Card>, n: nat) {
    |start| == |end| && n <= |start| && ShowsSides(drawn, end, n) && Ascending(drawn) && Covers(drawn, start, n)
  }

  /** Every drawn card is still in the end, and drawn where it lies with the side that is up. */
  ghost predicate ShowsSides(drawn: seq<Drawn>, end: seq<Card>, n: nat)
    requires n <= |end|
  {
    forall j :: 0 <= j < |drawn| ==>
      && drawn[j].card < n && !end[drawn[j].card].isFlipping
      && drawn[j] == AtCorner(drawn[j].card, end[drawn[j].card].isFlipped)
  }

  ghost predicate Ascending(drawn: seq<Drawn>) {
    forall j, k :: 0 <= j < k < |drawn| ==> drawn[j].card < drawn[k].card
  }

  /** Every card that was still is drawn. */
  ghost predicate Covers(drawn: seq<Drawn>, start: seq<Card>, n: nat)
    requires n <= |start|
  {
    forall k :: 0 <= k < n && !start[k].isFlipping ==> AtCorner(k, start[k].isFlipped) in drawn
  }

  lemma ShowsNext(drawn: seq<Drawn>, end: seq<Card>, n: nat, r: seq<Drawn>)
    requires n < |end| && ShowsSides(drawn, end, n) && Ascending(drawn) && !end[n].isFlipping
    requires r == drawn + [AtCorner(n, end[n].isFlipped)]
    ensures ShowsSides(r, end, n + 1) && Ascending(r)
  {
    forall j | 0 <= j < |r|
      ensures r[j].card < n + 1 && !end[r[j].card].isFlipping
      ensures r[j] == AtCorner(r[j].card, end[r[j].card].isFlipped)
    {
      assert j < |drawn| ==> r[j] == drawn[j];
    }
  }

  lemma CoversNext(drawn: seq<Drawn>, start: seq<Card>, n: nat, entry: Drawn, r: seq<Drawn>)
    requires n < |start| && Covers(drawn, start, n) && r == drawn + [entry]
    requires !start[n].isFlipping ==> entry == AtCorner(n, start[n].isFlipped)
    ensures Covers(r, start, n + 1)
  {
    forall k | 0 <= k < n + 1 && !start[k].isFlipping ensures AtCorner(k, start[k].isFlipped) in r {
      if k < n {
        var x :| 0 <= x < |drawn| && drawn[x] == AtCorner(k, start[k].isFlipped);
        assert r[x] == drawn[x];
      } else {
        assert r[|drawn|] == entry;
      }
    }
  }

  lemma DrawsNext(drawn: seq<Drawn>, start: seq<Card>, end: seq<Card>, n: nat, still: bool, r: seq<Drawn>)
    requires DrawsStill(drawn, start, end, n) && n < |start|
    requires still ==> !end[n].isFlipping
    requires !start[n].isFlipping ==> still && end[n] == start[n]
    requires r == if still then drawn + [AtCorner(n, end[n].isFlipped)] else drawn
    ensures DrawsStill(r, start, end, n + 1)
  {
    if still {
      ShowsNext(drawn, end, n, r);
      CoversNext(drawn, start, n, AtCorner(n, end[n].isFlipped), r);
    }
  }

  /** Only behind the last card does the corner fail the off-screen test. */
  lemma CornerInside(n: nat, x: int, y: int)
    requires n <= CARDS && (x, y) == ScreenXY(n % 4, n / 4)
    ensures x + CARD_WIDTH + 20 > X_RESOLUTION || y + CARD_HEIGHT + 10 > Y_RESOLUTION ==> n == CARDS
  {
  }

  /** A frame leaves a still card as it is. */
  lemma {:induction false} FrameKeepsStill(b: Board, i: nat, k: nat)
    requires WellFormed(b) && i <= CARDS && k < CARDS && !b.cards[k].isFlipping
    ensures DrawFrom(b, i).cards[k] == b.cards[k]
    decreases CARDS - i
  {
    if i == CARDS {
    } else {
      StaysStill(b, !b.cards[i].isFlipped, k);
      FrameKeepsStill(DrawCard(b, i), i + 1, k);
    }
  }

  lemma StillCardsStay(b: Board, i: nat)
    requires WellFormed(b) && i < CARDS
    ensures forall k :: 0 <= k < CARDS && !b.cards[k].isFlipping ==> DrawCard(b, i).cards[k] == b.cards[k]
    ensures !b.cards[i].isFlipping ==> DrawFrom(b, i).cards[i] == b.cards[i]
  {
    forall k | 0 <= k < CARDS && !b.cards[k].isFlipping ensures DrawCard(b, i).cards[k] == b.cards[k] {
      StaysStill(b, !b.cards[i].isFlipped, k);
    }
    if !b.cards[i].isFlipping {
      FrameKeepsStill(b, i, i);
    }
  }

  lemma PickStep(draws: seq<nat>, at: nat, got: seq<Pick>)
    requires at + 2 <= |draws| && |got| < 8
    ensures var p := PickOf(draws[at], draws[at + 1]);
      PickFaces(draws[at..], got) == PickFaces(draws[at + 2..], if p in got then got else got + [p])
  {
    assert draws[at..][2..] == draws[at + 2..];
  }

  /** A tick of play, field by field. */
  lemma PlayTickIs(s: State, stray: nat, t: State)
    requires WellFormed(s.board) && stray < CARDS
    requires var r := AfterFrame(Frame(s.board, s.ticks % 2 == 0), s.lives, s.lb, CardUnder(s.mx, s.my), stray);
      var won := s.ticks % 120 == 0 && AllMatched(r.board.cards);
      && t.board == r.board && t.lives == r.lives
      && t.isAlive == (s.isAlive && !r.over) && t.gameOver == (s.gameOver || r.over) && t.victory == (s.victory || won)
      && t.gs == if r.over || won then Exit else if s.scancode == ESCAPE then Pause else s.gs
    requires t.prevState == s.prevState && t.initGame == s.initGame && t.running == s.running
    requires t.scancode == s.scancode && t.lb == s.lb && t.mx == s.mx && t.my == s.my && t.ticks == s.ticks
    ensures t == PlayTick(s, stray)
  {
  }

  class GameLoop {
    const cards: array<Card>
    const otherSide: array<int>
    var increaseWidth: int
    var lives: nat
    var isAlive: bool
    var gs: Screen
    var prevState: Screen
    var initGame: bool
    var gameOver: bool
    var victory: bool
    var running: bool
    var scancode: int
    var lb: bool
    var mx: int
    var my: int
    var ticks: nat

    ghost predicate Shaped()
    {
      cards.Length == CARDS && otherSide.Length == CARDS
    }

    ghost function BoardNow(): (b: Board)
      requires Shaped()
      reads `increaseWidth, cards, otherSide
      ensures WellFormed(b)
    {
      Board(cards[..], otherSide[..], increaseWidth)
    }

    ghost function Now(): (s: State)
      requires Shaped()
      reads this, cards, otherSide
      ensures WellFormed(s.board)
    {
      State(BoardNow(), lives, isAlive, gs, prevState, initGame, gameOver, victory, running,
            scancode, lb, mx, my, ticks)
    }

    ghost predicate Valid()
      reads this, cards, otherSide
    {
      Shaped() && Inv(Now())
    }

    // ----- Dealing -----

    /** The inner loop: writes the pick at `i` unless it repeats an earlier one, and then steps back. */
    method Place(first: array<int>, second: array<int>, at: nat, rf: int, rs: int) returns (i: nat)
      requires first.Length == 8 && second.Length == 8 && first != second && 1 <= at < 8
      modifies first, second
      ensures PicksIn(first[..], second[..], at) == old(PicksIn(first[..], second[..], at))
      ensures if (rf, rs) in PicksIn(first[..], second[..], at) then i == at - 1
              else i == at && first[at] == rf && second[at] == rs
    {
      i := at;
      ghost var got := PicksIn(first[..], second[..], at);
      var j := 0;
      while j < i
        invariant 0 <= j <= i == at
        invariant first[..at] == old(first[..at]) && second[..at] == old(second[..at])
        invariant forall k :: 0 <= k < j ==> (rf, rs) != got[k]
        invariant j > 0 ==> first[at] == rf && second[at] == rs
      {
        if rf == first[j] && rs == second[j] {
          i := i - 1;
          assert got[j] == (rf, rs);
          break;
        } else {
          first[i], second[i] := rf, rs;
        }
        j := j + 1;
      }
      assert PicksIn(first[..], second[..], at) == got by {
        forall k | 0 <= k < at ensures (first[k], second[k]) == got[k] {
          assert first[k] == first[..at][k] && second[k] == second[..at][k];
        }
      }
    }

    /** The rejection loop. */
    method PickEight(rng: Rng) returns (ok: bool, first: array<int>, second: array<int>, at: nat)
      requires ValidRng(rng)
      ensures first.Length == 8 && second.Length == 8 && fresh(first) && fresh(second)
      ensures ok == PickFaces(rng.draws, []).Some?
      ensures ok ==>
                && at <= |rng.draws|
                && PickFaces(rng.draws, []) == Some((PicksIn(first[..], second[..], 8), rng.draws[at..]))
    {
      var draws := rng.draws;
      first, second, at := new int[8], new int[8], 0;
      if |draws| < 2 {
        return false, first, second, at;
      }
      first[0], second[0], at := draws[0] % 4, draws[1] % 13, 2;
      assert PicksIn(first[..], second[..], 1) == [] + [PickOf(draws[0], draws[1])] && draws[0..] == draws;
      PickStep(draws, 0, []);
      var i := 1;
      while i < 8
        invariant 1 <= i <= 8 && at <= |draws|
        invariant PickFaces(draws, []) == PickFaces(draws[at..], PicksIn(first[..], second[..], i))
        decreases |draws| - at
      {
        if |draws| - at < 2 {
          return false, first, second, at;
        }
        var rf, rs := draws[at] % 4, draws[at + 1] % 13;
        ghost var got, n := PicksIn(first[..], second[..], i), i;
        PickStep(draws, at, got);
        i := Place(first, second, i, rf, rs);
        at := at + 2;
        assert i == n ==> PicksIn(first[..], second[..], n + 1) == got + [(rf, rs)];
        i := i + 1;
      }
      ok := true;
    }

    /** Card i and card 15 - i get the same face. */
    method LayOut(first: array<int>, second: array<int>)
      requires Shaped() && first.Length == 8 && second.Length == 8 && first != otherSide && second != otherSide
      modifies cards
      ensures cards[..] == Laid(PicksIn(first[..], second[..], 8))
    {
      ghost var picks := PicksIn(first[..], second[..], 8);
      var i := 0;
      while i < 8
        invariant 0 <= i <= 8
        invariant forall k :: 0 <= k < i ==> cards[k] == NewCard(picks[k])
        invariant forall k :: 15 - i < k < 16 ==> cards[k] == NewCard(picks[15 - k])
      {
        cards[i] := NewCard((first[i], second[i]));
        cards[15 - i] := NewCard((first[i], second[i]));
        i := i + 1;
      }
    }

    method InitializeGameCards(rng: Rng) returns (ok: bool)
      requires Shaped() && ValidRng(rng)
      modifies cards
      ensures ok == Dealt(rng).Some?
      ensures ok ==> cards[..] == Dealt(rng).value
    {
      var first, second, at;
      ok, first, second, at := PickEight(rng);
      if ok {
        LayOut(first, second);
        ok := Shuffle(rng, at);
      }
    }

    method Shuffle(rng: Rng, start: nat) returns (ok: bool)
      requires Shaped() && ValidRng(rng) && start <= |rng.draws|
      modifies cards
      ensures var r := ShuffleFrom(old(cards[..]), rng.draws[start..], rng.max, 0);
        ok == r.Some? && (ok ==> cards[..] == r.value)
    {
      var i, at := 0, start;
      while i < 15
        invariant 0 <= i <= 15 && start <= at <= |rng.draws|
        invariant ShuffleFrom(old(cards[..]), rng.draws[start..], rng.max, 0) ==
                  ShuffleFrom(cards[..], rng.draws[at..], rng.max, i)
      {
        if at == |rng.draws| {
          return false;
        }
        var j := i + rng.draws[at] / (rng.max / (16 - i) + 1);
        ShuffleIndexInRange(i, rng.draws[at], rng.max);
        ghost var before := cards[..];
        var t := cards[j];
        cards[j] := cards[i];
        cards[i] := t;
        assert cards[..] == Swap(before, i, j);
        assert rng.draws[at..][1..] == rng.draws[at + 1..];
        i, at := i + 1, at + 1;
      }
      ok := true;
    }

    // ----- The animation -----

    /** The drawing loop of a flip: every turning card is drawn scaled by the width, and past 10 shows
        its other side. */
    method MarkSides(down: bool)
      requires Shaped() && (Moving(cards[..]) != {} ==> increaseWidth != 0)
      modifies otherSide
      ensures otherSide[..] == Marked(old(BoardNow()), down)
    {
      ghost var marked := Marked(BoardNow(), down);
      var i := 0;
      while i < 16
        invariant 0 <= i <= 16
        invariant forall k :: 0 <= k < i ==> otherSide[k] == marked[k]
        invariant forall k :: i <= k < 16 ==> otherSide[k] == old(otherSide[k])
      {
        if cards[i].isFlipping {
          if increaseWidth > 10 && cards[i].isFlipped == !down {
            otherSide[i] := 1;
          }
          assert i in Moving(cards[..]);
          var columns := CARD_WIDTH / increaseWidth;
        }
        i := i + 1;
      }
    }

    method StepWidth()
      requires Shaped()
      modifies `increaseWidth
      ensures increaseWidth == old(increaseWidth) + Drift(cards[..], otherSide[..], CARDS)
    {
      var i := 0;
      while i < 16
        invariant 0 <= i <= 16
        invariant increaseWidth == old(increaseWidth) + Drift(cards[..], otherSide[..], i)
      {
        if otherSide[i] == 0 && cards[i].isFlipping {
          increaseWidth := increaseWidth + 1;
        } else if cards[i].isFlipping {
          increaseWidth := increaseWidth - 1;
        }
        i := i + 1;
      }
    }

    method Settle(down: bool)
      requires Shaped()
      modifies `increaseWidth, cards, otherSide
      ensures cards[..] == Settled(old(cards[..]), down)
      ensures otherSide[..] == Cleared(old(cards[..]), old(otherSide[..]))
      ensures increaseWidth == if Moving(old(cards[..])) == {} then old(increaseWidth) else 1
    {
      ghost var settled, cleared := Settled(cards[..], down), Cleared(cards[..], otherSide[..]);
      var i := 0;
      while i < 16
        invariant 0 <= i <= 16
        invariant forall k :: 0 <= k < i ==> cards[k] == settled[k] && otherSide[k] == cleared[k]
        invariant forall k :: i <= k < 16 ==> cards[k] == old(cards[k]) && otherSide[k] == old(otherSide[k])
        invariant increaseWidth == if exists k :: 0 <= k < i && old(cards[..])[k].isFlipping then 1
                                   else old(increaseWidth)
      {
        if cards[i].isFlipping {
          assert old(cards[..])[i].isFlipping;
          cards[i] := cards[i].(isFlipped := down, isFlipping := false);
          otherSide[i] := 0;
          increaseWidth := 1;
        }
        i := i + 1;
      }
      assert (exists k :: 0 <= k < 16 && old(cards[..])[k].isFlipping) <==> Moving(old(cards[..])) != {} by {
        if k :| 0 <= k < 16 && old(cards[..])[k].isFlipping { assert k in Moving(old(cards[..])); }
      }
    }

    method FlipACardDown() returns (done: bool)
      requires Shaped() && (Moving(cards[..]) != {} ==> increaseWidth != 0)
      modifies `increaseWidth, cards, otherSide
      ensures BoardNow() == FlipCall(old(BoardNow()), true)
      ensures done == (old(increaseWidth) + Drift(old(cards[..]), Marked(old(BoardNow()), true), CARDS) == 1)
    {
      MarkSides(true);
      StepWidth();
      done := increaseWidth == 1;
      if done {
        Settle(true);
      }
    }

    method FlipACardUp() returns (done: bool)
      requires Shaped() && (Moving(cards[..]) != {} ==> increaseWidth != 0)
      modifies `increaseWidth, cards, otherSide
      ensures BoardNow() == FlipCall(old(BoardNow()), false)
      ensures done == (old(increaseWidth) + Drift(old(cards[..]), Marked(old(BoardNow()), false), CARDS) == 0)
    {
      MarkSides(false);
      StepWidth();
      done := increaseWidth == 0;
      if done {
        Settle(false);
      }
    }

    method FlipOrLeave(i: nat) returns (still: bool)
      requires Shaped() && i < CARDS && DrawSafe(BoardNow(), i)
      modifies `increaseWidth, cards, otherSide
      ensures BoardNow() == DrawCard(old(BoardNow()), i)
      ensures still == !old(cards[i]).isFlipping
    {
      still := !cards[i].isFlipping;
      if cards[i].isFlipping && cards[i].isFlipped {
        var _ := FlipACardUp();
      } else if cards[i].isFlipping && !cards[i].isFlipped {
        var _ := FlipACardDown();
      }
    }

    /** The body of the frame's loop: a turning card flips all turning cards, a still one is drawn. */
    method DrawOneCard(i: nat, x: int, y: int, drawn: seq<Drawn>, ghost start: seq<Card>, ghost end: seq<Card>)
      returns (more: seq<Drawn>)
      requires Shaped() && i < CARDS && DrawSafe(BoardNow(), i) && (x, y) == ScreenXY(i % 4, i / 4)
      requires DrawsStill(drawn, start, end, i) && |start| == CARDS && StillAsIn(start)
      requires DrawFrom(BoardNow(), i).cards == end
      modifies `increaseWidth, cards, otherSide
      ensures BoardNow() == DrawCard(old(BoardNow()), i)
      ensures DrawsStill(more, start, end, i + 1) && StillAsIn(start)
    {
      StillCardsStay(BoardNow(), i);
      var still := FlipOrLeave(i);
      more := if still then drawn + [Drawn(i, x, y, cards[i].isFlipped)] else drawn;
      DrawsNext(drawn, start, end, i, still, more);
    }

    /** The cards that are still in `start` have not changed. */
    ghost predicate StillAsIn(start: seq<Card>)
      requires Shaped() && |start| == CARDS
      reads cards
    {
      forall k :: 0 <= k < CARDS && !start[k].isFlipping ==> cards[..][k] == start[k]
    }

    /** The corner of the next card, given how many cards have been passed. */
    static method NextCorner(x: int, y: int, cardsPerLine: nat) returns (startX: int, startY: int)
      requires cardsPerLine > 0 && (x, y) == ScreenXY((cardsPerLine - 1) % 4, (cardsPerLine - 1) / 4)
      ensures (startX, startY) == ScreenXY(cardsPerLine % 4, cardsPerLine / 4)
    {
      startX, startY := x + CARD_WIDTH + 30, y;
      if cardsPerLine % 4 == 0 {
        startX := X_RESOLUTION / 2 - 2 * (CARD_WIDTH + 30);
        startY := startY + CARD_HEIGHT + 20;
      }
    }

    /** One frame. The running corner is that of card `i`, and the off-screen test stops the loop only
        after the last card. */
    method DrawGameCards() returns (drawn: seq<Drawn>)
      requires Shaped() && DrawSafe(BoardNow(), 0)
      modifies `increaseWidth, cards, otherSide
      ensures BoardNow() == Draw(old(BoardNow()))
      ensures DrawsStill(drawn, old(cards[..]), cards[..], CARDS)
    {
      drawn := [];
      var startX := X_RESOLUTION / 2 - 2 * (CARD_WIDTH + 30);
      var startY := Y_RESOLUTION / 2 - 2 * (CARD_HEIGHT + 20);
      var cardsPerLine := 0;
      ghost var b := BoardNow();
      ghost var d := Draw(b);
      var i := 0;
      while i < 16
        invariant 0 <= i <= 16 && cardsPerLine == i
        invariant (startX, startY) == ScreenXY(i % 4, i / 4)
        invariant DrawSafe(BoardNow(), i) && DrawFrom(BoardNow(), i) == d
        invariant DrawsStill(drawn, b.cards, d.cards, i) && StillAsIn(b.cards)
      {
        drawn := DrawOneCard(i, startX, startY, drawn, b.cards, d.cards);
        cardsPerLine := cardsPerLine + 1;
        startX, startY := NextCorner(startX, startY, cardsPerLine);
        if startX + CARD_WIDTH + 20 > X_RESOLUTION || startY + CARD_HEIGHT + 10 > Y_RESOLUTION {
          CornerInside(cardsPerLine, startX, startY);
          break;
        }
        i := i + 1;
      }
    }

    // ----- The click -----

    /** One block of the chain. */
    method TryCard(x: nat, y: nat, pos: nat, ghost under: Option<nat>) returns (r: nat)
      requires Shaped() && x < 4 && y < 4 && pos < CARDS && under == CardUnder(mx, my)
      modifies cards
      ensures r == if under == Some(x + 4 * y) then x + 4 * y else pos
      ensures cards[..] == StartedIf(old(cards[..]), x + 4 * y, under == Some(x + 4 * y))
    {
      r := pos;
      var (screenX, screenY) := ScreenXY(x, y);
      HitIffUnder(x, y, mx, my);
      if screenX <= mx <= screenX + CARD_WIDTH && screenY <= my <= screenY + CARD_HEIGHT {
        r := x + y * 4;
        cards[r] := cards[r].(isFlipping := true);
      }
    }

    /** Four blocks of the chain, in the order of the source. */
    method TryFour(a: (nat, nat), b: (nat, nat), c: (nat, nat), d: (nat, nat), pos: nat, ghost under: Option<nat>)
      returns (r: nat)
      requires Shaped() && pos < CARDS && under == CardUnder(mx, my)
      requires a.0 < 4 && a.1 < 4 && b.0 < 4 && b.1 < 4 && c.0 < 4 && c.1 < 4 && d.0 < 4 && d.1 < 4
      modifies cards
      ensures var u := if under.Some? then under.value else CARDS;
        if u == a.0 + 4 * a.1 || u == b.0 + 4 * b.1 || u == c.0 + 4 * c.1 || u == d.0 + 4 * d.1
        then r == u && cards[..] == StartedIf(old(cards[..]), r, true)
        else r == pos && cards[..] == old(cards[..])
    {
      r := TryCard(a.0, a.1, pos, under);
      r := TryCard(b.0, b.1, r, under);
      r := TryCard(c.0, c.1, r, under);
      r := TryCard(d.0, d.1, r, under);
    }

    method TryAll(stray: nat, ghost under: Option<nat>) returns (pos: nat)
      requires Shaped() && stray < CARDS && under == CardUnder(mx, my)
      modifies cards
      ensures if under.Some? then pos == under.value && cards[..] == StartedIf(old(cards[..]), pos, true)
              else pos == stray && cards[..] == old(cards[..])
    {
      pos := TryFour((0, 0), (0, 1), (2, 0), (3, 0), stray, under);
      pos := TryFour((1, 0), (1, 1), (2, 1), (3, 1), pos, under);
      pos := TryFour((0, 2), (1, 2), (2, 2), (3, 2), pos, under);
      pos := TryFour((0, 3), (1, 3), (2, 3), (3, 3), pos, under);
    }

    /** `stray` is what the uninitialised `posInArray` holds when the pointer is on no card. */
    method FlipCardOnClick(stray: nat)
      requires Shaped() && stray < CARDS
      modifies cards
      ensures cards[..] == Clicked(old(cards[..]), CardUnder(mx, my), stray)
    {
      var pos := TryAll(stray, CardUnder(mx, my));
      if !cards[pos].isFlipped {
        cards[pos] := cards[pos].(isFlipping := false);
      }
    }

    // ----- The match check -----

    /** The body of the check's loop. */
    method CheckCard(i: nat, count: nat, pos: nat) returns (flipCount: nat, cardPosInArray: nat, ghost over: bool)
      requires Shaped() && i < CARDS && pos < CARDS && count <= 1
      modifies `lives, `isAlive, `gameOver, `gs, cards
      ensures flipCount <= 1 && cardPosInArray < CARDS
      ensures ScanStep(Scan(old(cards[..]), if count == 0 then None else Some(pos), old(lives), false), i) ==
              Scan(cards[..], if flipCount == 0 then None else Some(cardPosInArray), lives, over)
      ensures isAlive == (old(isAlive) && !over) && gameOver == (old(gameOver) || over)
      ensures gs == if over then Exit else old(gs)
    {
      flipCount, cardPosInArray, over := count, pos, false;
      if !cards[i].isFlipped && flipCount == 0 && !cards[i].flipSuccess {
        flipCount := flipCount + 1;
        cardPosInArray := i;
      } else if !cards[i].isFlipped && flipCount == 1 && !cards[i].flipSuccess {
        if cards[i].num == cards[cardPosInArray].num && cards[i].suit == cards[cardPosInArray].suit {
          cards[i] := cards[i].(flipSuccess := true);
          cards[cardPosInArray] := cards[cardPosInArray].(flipSuccess := true);
        } else {
          if !cards[i].isFlipping {
            lives := LoseLife(lives);
            if lives == 0 {
              isAlive, gameOver, gs, over := false, true, Exit, true;
            }
          }
          cards[i] := cards[i].(isFlipping := true);
          cards[cardPosInArray] := cards[cardPosInArray].(isFlipping := true);
        }
      }
    }

    method ResolveOpenCards()
      requires Shaped()
      modifies `lives, `isAlive, `gameOver, `gs, cards
      ensures var s := ScanFrom(StartScan(old(cards[..]), old(lives)), 0);
        && cards[..] == s.cards && lives == s.lives
        && isAlive == (old(isAlive) && !s.over) && gameOver == (old(gameOver) || s.over)
        && gs == (if s.over then Exit else old(gs))
    {
      var flipCount: nat, cardPosInArray: nat := 0, 0;
      ghost var over := false;
      ghost var start := StartScan(cards[..], lives);
      var i := 0;
      while i < 16
        invariant 0 <= i <= 16 && flipCount <= 1 && cardPosInArray < 16
        invariant ScanFrom(Scan(cards[..], if flipCount == 0 then None else Some(cardPosInArray), lives, over), i)
                  == ScanFrom(start, 0)
        invariant isAlive == (old(isAlive) && !over) && gameOver == (old(gameOver) || over)
        invariant gs == if over then Exit else old(gs)
      {
        ghost var s := Scan(cards[..], if flipCount == 0 then None else Some(cardPosInArray), lives, false);
        ghost var now;
        flipCount, cardPosInArray, now := CheckCard(i, flipCount, cardPosInArray);
        assert ScanStep(s.(over := over), i) == ScanStep(s, i).(over := over || now);
        over := over || now;
        i := i + 1;
      }
    }

    // ----- The main loop -----

    constructor (rng: Rng)
      requires ValidRng(rng) && Dealt(rng).Some?
      ensures Valid() && fresh(cards) && fresh(otherSide)
      ensures Now() == Start(Dealt(rng).value)
    {
      cards := new Card[16](_ => NewCard((0, 0)));
      otherSide := new int[16](_ => 0);
      increaseWidth, lives, isAlive := 1, 5, true;
      gs, prevState, initGame, gameOver, victory, running := Menu, Exit, true, false, false, true;
      scancode, lb, mx, my, ticks := 0, false, 0, 0, 0;
      new;
      var _ := InitializeGameCards(rng);
      assert otherSide[..] == seq(CARDS, _ => 0);
      StartHolds(rng);
    }

    method KeyPressed(code: int)
      requires Valid()
      modifies `scancode
      ensures Valid() && Now() == Step(old(Now()), Key(code))
    {
      if running {
        scancode := code;
      }
      ScreenStep(old(Now()), Key(code));
    }

    method MouseMoved(pressed: bool, dx: int, dy: int)
      requires Valid()
      modifies `lb, `mx, `my
      ensures Valid() && Now() == Step(old(Now()), Mouse(pressed, dx, dy))
    {
      if running {
        lb := pressed;
        mx := MoveX(mx, dx);
        my := MoveY(my, dy);
      }
      ScreenStep(old(Now()), Mouse(pressed, dx, dy));
    }

    /** A choice of the menus: its key, or a press on its button. */
    method Chosen(key: int, x0: int, x1: int, y: int) returns (hit: bool)
      requires Shaped()
      ensures hit == (scancode == key || On(Now(), x0, x1, y))
    {
      hit := scancode == key || (lb && mx >= x0 && mx <= x1 && my >= y && my <= y + 30);
    }

    method MenuScreen()
      requires Shaped()
      modifies `scancode, `ticks, `gs, `lb
      ensures Now() == MenuTick(old(Now()))
    {
      var play := Chosen(P_KEY, 360, 445, 300);
      if play {
        scancode, ticks, gs, lb := 0, 0, Game, false;
      }
      var read := Chosen(I_KEY, 280, 520, 400);
      if read {
        gs, lb := Instructions, false;
      }
      var exit := Chosen(E_KEY, 360, 440, 500);
      if exit {
        gs := Exit;
      }
      assert BoardNow() == old(BoardNow());
    }

    method PauseScreen()
      requires Shaped()
      modifies `scancode, `gs, `lb, `prevState
      ensures Now() == PauseTick(old(Now()))
    {
      var play := Chosen(P_KEY, 360, 445, 300);
      if play {
        scancode, gs := 0, Game;
      }
      var read := Chosen(I_KEY, 280, 520, 400);
      if read {
        gs, lb, prevState, scancode := Instructions, false, Game, 0;
      }
      var exit := Chosen(E_KEY, 360, 440, 500);
      if exit {
        gs, scancode := Exit, 0;
      }
      assert BoardNow() == old(BoardNow());
    }

    method InstructionsScreen()
      requires Shaped()
      modifies `gs, `lb, `prevState
      ensures Now() == InstructionsTick(old(Now()))
    {
      if prevState == Game {
        if scancode == ESCAPE || lb {
          gs, prevState, lb := Game, Instructions, false;
        }
      } else {
        if scancode == ESCAPE {
          gs := Menu;
        }
        lb := false;
      }
    }

    method Restart(rng: Rng)
      requires Shaped() && ValidRng(rng) && Dealt(rng).Some?
      modifies `gs, `gameOver, `victory, `initGame, `lives, `isAlive, cards
      ensures cards[..] == Dealt(rng).value
      ensures gs == Menu && !gameOver && !victory && initGame && lives == 5 && isAlive
    {
      gs, gameOver, victory, initGame := Menu, false, false, true;
      var _ := InitializeGameCards(rng);
      lives, isAlive := 5, true;
    }

    method ExitScreen(rng: Rng)
      requires Shaped() && ValidRng(rng)
      requires (gameOver || victory) && ticks % 240 == 0 ==> Dealt(rng).Some?
      modifies `gs, `gameOver, `victory, `initGame, `lives, `isAlive, `running, cards
      ensures Now() == ExitTick(old(Now()), rng)
    {
      if gameOver {
        if ticks % 240 == 0 {
          Restart(rng);
        }
      } else if victory {
        if ticks % 240 == 0 {
          Restart(rng);
        }
      } else {
        running := false;
      }
    }

    method StartAll()
      requires Shaped()
      modifies cards
      ensures cards[..] == AllTurning(old(cards[..]))
    {
      ghost var all := AllTurning(cards[..]);
      var i := 0;
      while i < 16
        invariant 0 <= i <= 16
        invariant forall k :: 0 <= k < i ==> cards[k] == all[k]
        invariant forall k :: i <= k < 16 ==> cards[k] == old(cards[k])
      {
        cards[i] := cards[i].(isFlipping := true);
        i := i + 1;
      }
    }

    /** Before the opening turn-down: all cards start to turn at the next multiple of 240 ticks. */
    method OpeningScreen()
      requires Shaped() && DrawSafe(BoardNow(), 0)
      requires DrawSafe(BoardNow().(cards := AllTurning(cards[..])), 0)
      modifies `initGame, `increaseWidth, cards, otherSide
      ensures Now() == OpeningTick(old(Now()))
    {
      if ticks % 240 == 0 {
        StartAll();
        initGame := false;
      }
      var _ := DrawGameCards();
    }

    method AnyCardFlipping() returns (any: bool)
      requires Shaped()
      ensures any <==> Moving(cards[..]) != {}
    {
      any := false;
      var i := 0;
      while i < 16
        invariant 0 <= i <= 16
        invariant any <==> exists k :: 0 <= k < i && cards[..][k].isFlipping
      {
        if cards[i].isFlipping {
          assert cards[..][i].isFlipping;
          any := true;
        }
        i := i + 1;
      }
      if any {
        var k :| 0 <= k < 16 && cards[..][k].isFlipping;
        assert k in Moving(cards[..]);
      }
    }

    method EndOfGame() returns (endGame: bool)
      requires Shaped()
      ensures endGame <==> AllMatched(cards[..])
    {
      endGame := true;
      var i := 0;
      while i < 16
        invariant 0 <= i <= 16
        invariant endGame <==> forall k :: 0 <= k < i ==> cards[..][k].flipSuccess
      {
        if !cards[i].flipSuccess {
          assert !cards[..][i].flipSuccess;
          endGame := false;
        }
        i := i + 1;
      }
    }

    /** Click gate and check, after the frame. */
    method ClickAndCheck(stray: nat)
      requires Shaped() && stray < CARDS
      modifies `lives, `isAlive, `gameOver, `gs, cards
      ensures var r := AfterFrame(old(BoardNow()), old(lives), lb, CardUnder(mx, my), stray);
        && BoardNow() == r.board && lives == r.lives
        && isAlive == (old(isAlive) && !r.over) && gameOver == (old(gameOver) || r.over)
        && gs == (if r.over then Exit else old(gs))
    {
      var isAnyCardFlipping := false;
      if lb {
        isAnyCardFlipping := AnyCardFlipping();
        if !isAnyCardFlipping {
          FlipCardOnClick(stray);
        }
      }
      if !isAnyCardFlipping {
        ResolveOpenCards();
      }
    }

    method NextFrame()
      requires Shaped() && DrawSafe(BoardNow(), 0)
      modifies `increaseWidth, cards, otherSide
      ensures BoardNow() == Frame(old(BoardNow()), ticks % 2 == 0)
    {
      if ticks % 2 == 0 {
        var _ := DrawGameCards();
      }
    }

    /** The rest of a tick of play: pause key, click, check, victory. */
    method FinishTick(stray: nat)
      requires Shaped() && stray < CARDS
      modifies `lives, `isAlive, `gameOver, `victory, `gs, cards
      ensures var r := AfterFrame(old(BoardNow()), old(lives), lb, CardUnder(mx, my), stray);
        var won := ticks % 120 == 0 && AllMatched(r.board.cards);
        && BoardNow() == r.board && lives == r.lives
        && isAlive == (old(isAlive) && !r.over) && gameOver == (old(gameOver) || r.over)
        && victory == (old(victory) || won)
        && gs == (if r.over || won then Exit else if scancode == ESCAPE then Pause else old(gs))
    {
      if scancode == ESCAPE {
        gs := Pause;
      }
      ClickAndCheck(stray);
      var endGame := EndOfGame();
      if ticks % 120 == 0 {
        if endGame {
          gs := Exit;
          victory := true;
        }
      }
    }

    method PlayScreen(stray: nat)
      requires Shaped() && stray < CARDS && DrawSafe(BoardNow(), 0)
      modifies `increaseWidth, `lives, `isAlive, `gameOver, `victory, `gs, cards, otherSide
      ensures Now() == PlayTick(old(Now()), stray)
    {
      ghost var s := Now();
      NextFrame();
      FinishTick(stray);
      PlayTickIs(s, stray, Now());
    }

    /** The timer branch of the loop. */
    method Dispatch(stray: nat, rng: Rng)
      requires Shaped() && running && EventOk(Now(), Timer(stray, rng))
      requires gs == Game ==> DrawSafe(BoardNow(), 0)
      requires gs == Game && initGame ==> DrawSafe(BoardNow().(cards := AllTurning(cards[..])), 0)
      modifies this, cards, otherSide
      ensures Now() == TimerTick(old(Now()), Timer(stray, rng))
    {
      ticks := ticks + 1;
      match gs {
        case Menu => MenuScreen();
        case Game =>
          if initGame {
            OpeningScreen();
          } else {
            PlayScreen(stray);
          }
        case Pause => PauseScreen();
        case Instructions => InstructionsScreen();
        case Exit => ExitScreen(rng);
        case _ =>
      }
    }

    /** One timer event. The object stays valid if the tick keeps the two-card discipline. */
    method TimerInterrupt(stray: nat, rng: Rng)
      requires Valid() && EventOk(Now(), Timer(stray, rng))
      modifies this, cards, otherSide
      ensures Shaped() && Now() == Step(old(Now()), Timer(stray, rng))
      ensures old(DisciplinedEvent(Now(), Timer(stray, rng))) ==> Valid()
    {
      ghost var before, e := Now(), Timer(stray, rng);
      if gs == Game && initGame {
        NoZeroWidthFresh(BoardNow());
      } else if gs == Game {
        NoZeroWidth(BoardNow());
      }
      if running {
        Dispatch(stray, rng);
      }
      if DisciplinedEvent(before, e) {
        StepKeepsInv(before, e);
      }
    }
  }
}
