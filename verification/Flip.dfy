/** The turning animation: `flipACardDown`, `flipACardUp` and `draw_game_cards` as functions on a board. */
module Flip {
  import opened Arithmetic
  import opened Cards

  // ----- One call -----

  /** `otherSide` after the drawing loop of one call. */
  function Marked(b: Board, down: bool): (s: seq<int>)
    requires WellFormed(b)
    ensures |s| == CARDS
  {
    seq(CARDS, i requires 0 <= i < CARDS =>
      if b.cards[i].isFlipping && b.width > 10 && b.cards[i].isFlipped == !down then 1 else b.otherSide[i])
  }

  /** What the first `n` cards add to the width divisor. */
  function Drift(cards: seq<Card>, other: seq<int>, n: nat): int
    requires n <= |cards| && n <= |other|
  {
    if n == 0 then 0
    else Drift(cards, other, n - 1) +
         if !cards[n - 1].isFlipping then 0 else if other[n - 1] == 0 then 1 else -1
  }

  function Settled(cards: seq<Card>, down: bool): (s: seq<Card>)
    ensures |s| == |cards|
  {
    seq(|cards|, i requires 0 <= i < |cards| =>
      if cards[i].isFlipping then cards[i].(isFlipping := false, isFlipped := down) else cards[i])
  }

  function Cleared(cards: seq<Card>, other: seq<int>): (s: seq<int>)
    requires |cards| == |other|
    ensures |s| == |other|
  {
    seq(|other|, i requires 0 <= i < |other| => if cards[i].isFlipping then 0 else other[i])
  }

  /** One call of `flipACardDown` (`down`) or `flipACardUp`; the two differ in the side they
      mark, the side they leave the cards on, and the width they wait for. */
  function FlipCall(b: Board, down: bool): (r: Board)
    requires WellFormed(b)
    ensures WellFormed(r)
  {
    var other := Marked(b, down);
    var w := b.width + Drift(b.cards, other, CARDS);
    if w == (if down then 1 else 0) then
      Board(Settled(b.cards, down), Cleared(b.cards, other), if Moving(b.cards) == {} then w else 1)
    else
      Board(b.cards, other, w)
  }

  function Moving(cards: seq<Card>): (s: set<int>) {
    MovingBelow(cards, |cards|)
  }

  function MovingBelow(cards: seq<Card>, n: nat): set<int>
    requires n <= |cards|
  {
    set i: int | 0 <= i < n && cards[i].isFlipping
  }

  // ----- Cards turning together -----

  /** All turning cards started from the same side and show side `o`; still cards show side 0. */
  ghost predicate Together(b: Board, down: bool, o: int) {
    WellFormed(b) &&
    forall i :: 0 <= i < CARDS ==>
      if b.cards[i].isFlipping then b.cards[i].isFlipped == !down && b.otherSide[i] == o else b.otherSide[i] == 0
  }

  lemma {:induction false} DriftTogether(cards: seq<Card>, other: seq<int>, n: nat, o: int)
    requires n <= |cards| == |other|
    requires forall i :: 0 <= i < n && cards[i].isFlipping ==> other[i] == o
    ensures Drift(cards, other, n) == (if o == 0 then 1 else -1) * |MovingBelow(cards, n)|
  {
    if n == 0 {
    } else {
      DriftTogether(cards, other, n - 1, o);
      assert MovingBelow(cards, n) ==
             MovingBelow(cards, n - 1) + (if cards[n - 1].isFlipping then {n - 1} else {});
    }
  }

  /** The board after `k` cards turning together show side `o` with width `w`. */
  function Showing(b: Board, o: int, w: int): (r: Board)
    requires WellFormed(b)
    ensures WellFormed(r)
  {
    Board(b.cards, seq(CARDS, i requires 0 <= i < CARDS => if b.cards[i].isFlipping then o else 0), w)
  }

  /** The board once its turning cards lie still on side `down`. */
  function AtRest(b: Board, down: bool): (r: Board)
    requires WellFormed(b)
    ensures WellFormed(r)
  {
    Board(Settled(b.cards, down), seq(CARDS, _ => 0), 1)
  }

  /** One call on `k` cards turning together moves the width by exactly `k`. */
  lemma CallTogether(b: Board, down: bool, o: int, k: nat)
    requires Together(b, down, o) && (o == 0 || o == 1)
    requires k == |Moving(b.cards)| && k > 0
    ensures var o' := if b.width > 10 then 1 else o;
            var w := if o' == 0 then b.width + k else b.width - k;
            FlipCall(b, down) == if w == (if down then 1 else 0) then AtRest(b, down) else Showing(b, o', w)
  {
    var o' := if b.width > 10 then 1 else o;
    DriftTogether(b.cards, Marked(b, down), CARDS, o');
    assert Moving(b.cards) != {};
    assert Marked(b, down) == Showing(b, o', 0).otherSide;
    assert Cleared(b.cards, Marked(b, down)) == AtRest(b, down).otherSide;
  }

  // ----- Whole turns -----

  function Calls(b: Board, down: bool, n: nat): (r: Board)
    requires WellFormed(b)
    ensures WellFormed(r)
  {
    if n == 0 then b else FlipCall(Calls(b, down, n - 1), down)
  }

  /** How many calls of `k` cards it takes for the width to pass 10. */
  function HalfTurn(k: nat): nat
    requires k > 0
  {
    (9 + k) / k
  }

  lemma HalfTurnPassesTen(k: nat)
    requires k > 0
    ensures HalfTurn(k) * k >= 10 && (HalfTurn(k) - 1) * k < 10 && HalfTurn(k) >= 1
  {
    var c := HalfTurn(k);
    DivMod(9 + k, k);
    MulSucc(c - 1, k);
    MulSucc(c, k);
    QuotientBelow(9 + k, k, c + 1, 1);
  }

  ghost predicate Starting(b: Board, down: bool, k: nat) {
    Together(b, down, 0) && b.width == 1 && k == |Moving(b.cards)| && k > 0
  }

  /** The width after `n` calls: out by `k` a call until it passes 10, then back by `k` a call. */
  function WidthAfter(k: nat, n: nat): int
    requires k > 0
  {
    if n <= HalfTurn(k) then 1 + n * k else 1 + (2 * HalfTurn(k) - n) * k
  }

  lemma WidthStep(k: nat, n: nat)
    requires k > 0 && n > 0
    ensures n <= HalfTurn(k) ==> WidthAfter(k, n - 1) <= 10 && WidthAfter(k, n) == WidthAfter(k, n - 1) + k
    ensures n > HalfTurn(k) ==> WidthAfter(k, n) == WidthAfter(k, n - 1) - k
    ensures n == HalfTurn(k) + 1 ==> WidthAfter(k, n - 1) > 10
  {
    var c := HalfTurn(k);
    HalfTurnPassesTen(k);
    if n <= c {
      MulMono(n - 1, c - 1, k);
      MulSucc(n - 1, k);
    } else {
      MulSucc(2 * c - n, k);
      assert 2 * c - (n - 1) == 2 * c - n + 1;
      assert n == c + 1 ==> 2 * c - n + 1 == c;
    }
  }

  lemma {:induction false} TurnUnderWay(b: Board, down: bool, k: nat, n: nat)
    requires Starting(b, down, k)
    requires forall m :: HalfTurn(k) < m <= n ==> WidthAfter(k, m) != (if down then 1 else 0)
    ensures Calls(b, down, n) == Showing(b, if n > HalfTurn(k) then 1 else 0, WidthAfter(k, n))
  {
    if n == 0 {
      assert b == Showing(b, 0, 1);
    } else {
      TurnUnderWay(b, down, k, n - 1);
      WidthStep(k, n);
      WidthPositive(k, n);
      CallTogether(Calls(b, down, n - 1), down, if n - 1 > HalfTurn(k) then 1 else 0, k);
    }
  }

  lemma WidthPositive(k: nat, n: nat)
    requires k > 0
    ensures 0 < n <= HalfTurn(k) ==> WidthAfter(k, n) > 1
  {
    if 0 < n { MulMono(1, n, k); }
  }

  lemma WidthOnTheWayBack(k: nat, n: nat)
    requires k > 0
    ensures n < 2 * HalfTurn(k) ==> WidthAfter(k, n) >= 1
    ensures HalfTurn(k) < n < 2 * HalfTurn(k) ==> WidthAfter(k, n) > 1
    ensures n == 2 * HalfTurn(k) ==> WidthAfter(k, n) == 1
  {
    var c := HalfTurn(k);
    HalfTurnPassesTen(k);
    MulMono(0, n, k);
    if n < 2 * c { MulMono(1, 2 * c - n, k); }
    if n == 2 * c { assert 2 * c - n == 0; }
  }

  lemma TurnDownUnderWay(b: Board, k: nat, n: nat)
    requires Starting(b, true, k) && n < 2 * HalfTurn(k)
    ensures Calls(b, true, n) == Showing(b, if n > HalfTurn(k) then 1 else 0, WidthAfter(k, n))
  {
    forall m | HalfTurn(k) < m <= n ensures WidthAfter(k, m) != 1 {
      WidthOnTheWayBack(k, m);
    }
    TurnUnderWay(b, true, k, n);
  }

  /** Any number of face-up cards that start to turn down together are all face down after exactly
      2 * ceil(10 / k) calls, and not a call earlier. */
  lemma TurnDownTakes(b: Board, k: nat)
    requires Starting(b, true, k)
    ensures Calls(b, true, 2 * HalfTurn(k)) == AtRest(b, true)
    ensures forall n :: 0 <= n < 2 * HalfTurn(k) ==>
              Calls(b, true, n).cards == b.cards && 1 <= Calls(b, true, n).width
  {
    var c := HalfTurn(k);
    HalfTurnPassesTen(k);
    forall n | 0 <= n < 2 * c
      ensures Calls(b, true, n).cards == b.cards && 1 <= Calls(b, true, n).width
    {
      TurnDownUnderWay(b, k, n);
      WidthOnTheWayBack(k, n);
    }
    TurnDownEnds(b, k, c);
  }

  lemma TurnDownEnds(b: Board, k: nat, c: nat)
    requires Starting(b, true, k) && c == HalfTurn(k) && c >= 1
    ensures Calls(b, true, 2 * c) == AtRest(b, true)
  {
    var last := Calls(b, true, 2 * c - 1);
    TurnDownUnderWay(b, k, 2 * c - 1);
    WidthStep(k, 2 * c);
    WidthOnTheWayBack(k, 2 * c);
    var o := if 2 * c - 1 > c then 1 else 0;
    assert last == Showing(b, o, 1 + k);
    SettlesFrom(b, k, o, last);
  }

  /** The call that brings the width back to 1. */
  lemma SettlesFrom(b: Board, k: nat, o: int, last: Board)
    requires Starting(b, true, k) && (o == 0 || o == 1) && last == Showing(b, o, 1 + k) && (o == 0 ==> 1 + k > 10)
    ensures FlipCall(last, true) == AtRest(b, true)
  {
    CallTogether(last, true, o, k);
    assert AtRest(last, true) == AtRest(b, true);
  }

  /** A single card turning up is face up after exactly 21 calls. */
  lemma TurnUpTakes21(b: Board)
    requires Starting(b, false, 1)
    ensures Calls(b, false, 21) == AtRest(b, false)
    ensures forall n :: 0 <= n < 21 ==> Calls(b, false, n).cards == b.cards && 1 <= Calls(b, false, n).width <= 11
  {
    forall n | 0 <= n < 21 ensures Calls(b, false, n) == Showing(b, if n > 10 then 1 else 0, WidthAfter(1, n)) {
      TurnUnderWay(b, false, 1, n);
    }
    CallTogether(Calls(b, false, 20), false, 1, 1);
  }

  /** Two or more cards turning up together never come to rest: the width steps over 0. So a turn up
      ends if and only if it is of one card. */
  lemma TurnUpEndsOnlyAlone(b: Board, k: nat)
    requires Starting(b, false, k)
    ensures (exists n: nat :: Moving(Calls(b, false, n).cards) == {}) <==> k == 1
  {
    if k == 1 {
      TurnUpTakes21(b);
      assert Moving(Calls(b, false, 21).cards) == {};
    } else {
      forall n: nat ensures Moving(Calls(b, false, n).cards) != {} {
        forall m | HalfTurn(k) < m <= n ensures WidthAfter(k, m) != 0 {
          OneMoreThanMultiple(2 * HalfTurn(k) - m, k);
        }
        TurnUnderWay(b, false, k, n);
      }
    }
  }

  lemma OneMoreThanMultiple(a: int, k: nat)
    requires k > 1
    ensures 1 + a * k != 0
  {
    if a >= 0 { MulMono(0, a, k); } else { MulMono(a, -1, k); }
  }

  // ----- One frame: draw_game_cards -----

  function DrawCard(b: Board, i: nat): (r: Board)
    requires WellFormed(b) && i < CARDS
    ensures WellFormed(r)
  {
    if b.cards[i].isFlipping then FlipCall(b, !b.cards[i].isFlipped) else b
  }

  /** The frame from card `i` on: every turning card, when reached, calls a flip of ALL turning cards. */
  function DrawFrom(b: Board, i: nat): (r: Board)
    requires WellFormed(b) && i <= CARDS
    ensures WellFormed(r)
    decreases CARDS - i, b
  {
    if i == CARDS then b else DrawFrom(DrawCard(b, i), i + 1)
  }

  function Draw(b: Board): (r: Board)
    requires WellFormed(b)
    ensures WellFormed(r)
  {
    DrawFrom(b, 0)
  }

  lemma {:induction false} DrawSkips(b: Board, i: nat, j: nat)
    requires WellFormed(b) && i <= j <= CARDS
    requires forall k :: i <= k < j ==> !b.cards[k].isFlipping
    ensures DrawFrom(b, i) == DrawFrom(b, j)
    decreases j - i
  {
    if i == j {
    } else {
      DrawSkips(b, i + 1, j);
    }
  }

  /** No call starts a card that was still. */
  lemma CallStartsNothing(b: Board, down: bool)
    requires WellFormed(b)
    ensures Moving(FlipCall(b, down).cards) <= Moving(b.cards)
  {
  }

  lemma DrawStill(b: Board)
    requires WellFormed(b) && Moving(b.cards) == {}
    ensures Draw(b) == b
  {
    forall k | 0 <= k < CARDS ensures !b.cards[k].isFlipping {
      assert k !in Moving(b.cards);
    }
    DrawSkips(b, 0, CARDS);
  }

  /** With one turning card a frame is one call. */
  lemma DrawOne(b: Board, p: nat)
    requires WellFormed(b) && Moving(b.cards) == {p}
    ensures p < CARDS && Draw(b) == FlipCall(b, !b.cards[p].isFlipped)
  {
    assert p in Moving(b.cards);
    forall k | 0 <= k < CARDS && k != p ensures !b.cards[k].isFlipping {
      assert k !in Moving(b.cards);
    }
    DrawSkips(b, 0, p);
    var r := FlipCall(b, !b.cards[p].isFlipped);
    CallStartsNothing(b, !b.cards[p].isFlipped);
    forall k | p < k < CARDS ensures !r.cards[k].isFlipping {
      assert k !in Moving(r.cards);
    }
    DrawSkips(r, p + 1, CARDS);
  }

  /** With two face-up turning cards a frame is two calls. */
  lemma DrawTwo(b: Board, p: nat, q: nat)
    requires WellFormed(b) && p < q && Moving(b.cards) == {p, q}
    requires q < CARDS && !b.cards[p].isFlipped && !b.cards[q].isFlipped
    requires FlipCall(b, true).cards == b.cards
    ensures Draw(b) == FlipCall(FlipCall(b, true), true)
  {
    assert p in Moving(b.cards) && q in Moving(b.cards);
    forall k | 0 <= k < CARDS && k != p && k != q ensures !b.cards[k].isFlipping {
      assert k !in Moving(b.cards);
    }
    DrawSkips(b, 0, p);
    var r := FlipCall(b, true);
    DrawSkips(r, p + 1, q);
    var r' := FlipCall(r, true);
    CallStartsNothing(r, true);
    forall k | q < k < CARDS ensures !r'.cards[k].isFlipping {
      assert k !in Moving(r'.cards);
    }
    DrawSkips(r', q + 1, CARDS);
  }

  lemma {:induction false} AllMoving(cards: seq<Card>, n: nat)
    requires n <= |cards| && forall i :: 0 <= i < n ==> cards[i].isFlipping
    ensures |MovingBelow(cards, n)| == n
  {
    if n == 0 {
    } else {
      AllMoving(cards, n - 1);
      assert MovingBelow(cards, n) == MovingBelow(cards, n - 1) + {n - 1};
    }
  }

  /** The opening turn-down of all sixteen cards completes inside one frame. */
  lemma OpeningTurnDown(b: Board)
    requires Together(b, true, 0) && b.width == 1
    requires forall i :: 0 <= i < CARDS ==> b.cards[i].isFlipping
    ensures Draw(b) == AtRest(b, true)
  {
    AllMoving(b.cards, CARDS);
    CallTogether(b, true, 0, 16);
    var r := FlipCall(b, true);
    assert DrawCard(b, 0) == r == Showing(b, 0, 17);
    CallTogether(r, true, 0, 16);
    assert DrawCard(r, 1) == AtRest(r, true) == AtRest(b, true);
    assert DrawFrom(b, 0) == DrawFrom(r, 1) == DrawFrom(AtRest(b, true), 2);
    DrawSkips(AtRest(b, true), 2, CARDS);
  }
}
