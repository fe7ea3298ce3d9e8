/** What happens to the animation when the two-card discipline is broken: a face-down card turning up
    beside two cards turning down. */
module ThirdCard {
  import opened Cards
  import opened Flip
  import opened Table
  import opened InPlay
  import opened DrawSafety

  /** Sides shown by the pair and by the third card, and the width. */
  datatype Mix = Mix(pair: int, third: int, width: int)

  ghost predicate ThreeTurn(b: Board, p: nat, q: nat, r: nat) {
    && WellFormed(b) && p < q < CARDS && r < CARDS && r != p && r != q
    && Moving(b.cards) == {p, q, r}
    && !b.cards[p].isFlipped && !b.cards[q].isFlipped && b.cards[r].isFlipped
  }

  ghost function Mixed(b: Board, p: nat, q: nat, r: nat, m: Mix): (d: Board)
    requires WellFormed(b)
    ensures WellFormed(d)
  {
    Board(b.cards, seq(CARDS, i => if i == p || i == q then m.pair else if i == r then m.third else 0), m.width)
  }

  function Sign(side: int): int { if side == 0 then 1 else -1 }

  /** One call on the mix, unless it ends the turn. */
  function MixCall(m: Mix, down: bool): Mix {
    var pair := if m.width > 10 && down then 1 else m.pair;
    var third := if m.width > 10 && !down then 1 else m.third;
    Mix(pair, third, m.width + 2 * Sign(pair) + Sign(third))
  }

  predicate Ends(m: Mix, down: bool) {
    m.width == if down then 1 else 0
  }

  lemma ThreeMove(b: Board, p: nat, q: nat, r: nat)
    requires ThreeTurn(b, p, q, r)
    ensures b.cards[p].isFlipping && b.cards[q].isFlipping && b.cards[r].isFlipping
    ensures forall i :: 0 <= i < CARDS && i != p && i != q && i != r ==> !b.cards[i].isFlipping
  {
    assert p in Moving(b.cards) && q in Moving(b.cards) && r in Moving(b.cards);
    forall i | 0 <= i < CARDS && i != p && i != q && i != r ensures !b.cards[i].isFlipping {
      assert i !in Moving(b.cards);
    }
  }

  lemma {:induction false} DriftOfThree(cards: seq<Card>, other: seq<int>, p: nat, q: nat, r: nat, n: nat)
    requires n <= |cards| == |other| && p < |cards| && q < |cards| && r < |cards| && p != q && q != r && r != p
    requires forall i :: 0 <= i < |cards| ==> (cards[i].isFlipping <==> i == p || i == q || i == r)
    ensures Drift(cards, other, n) == (if p < n then Sign(other[p]) else 0) + (if q < n then Sign(other[q]) else 0)
                                      + (if r < n then Sign(other[r]) else 0)
  {
    if n == 0 {
    } else {
      DriftOfThree(cards, other, p, q, r, n - 1);
    }
  }

  lemma CallOnMix(b: Board, p: nat, q: nat, r: nat, m: Mix, down: bool)
    requires ThreeTurn(b, p, q, r)
    ensures var d := FlipCall(Mixed(b, p, q, r, m), down);
      d == if Ends(MixCall(m, down), down) then AtRest(b, down) else Mixed(b, p, q, r, MixCall(m, down))
  {
    ThreeMove(b, p, q, r);
    var x := Mixed(b, p, q, r, m);
    var other := Marked(x, down);
    DriftOfThree(b.cards, other, p, q, r, CARDS);
    assert other == Mixed(b, p, q, r, MixCall(m, down)).otherSide;
    assert Cleared(b.cards, other) == AtRest(b, down).otherSide;
  }

  /** With three turning cards a frame is three calls, in board order. */
  lemma DrawThree(b: Board, x: nat, y: nat, z: nat)
    requires WellFormed(b) && x < y < z < CARDS
    requires forall i :: 0 <= i < CARDS ==> (b.cards[i].isFlipping <==> i == x || i == y || i == z)
    requires FlipCall(b, !b.cards[x].isFlipped).cards == b.cards
    requires FlipCall(FlipCall(b, !b.cards[x].isFlipped), !b.cards[y].isFlipped).cards == b.cards
    ensures Draw(b) ==
      FlipCall(FlipCall(FlipCall(b, !b.cards[x].isFlipped), !b.cards[y].isFlipped), !b.cards[z].isFlipped)
  {
    var b1 := FlipCall(b, !b.cards[x].isFlipped);
    var b2 := FlipCall(b1, !b.cards[y].isFlipped);
    var b3 := FlipCall(b2, !b.cards[z].isFlipped);
    DrawSkips(b, 0, x);
    DrawSkips(b1, x + 1, y);
    DrawSkips(b2, y + 1, z);
    forall k | z < k < CARDS ensures !b3.cards[k].isFlipping {
      assert !b2.cards[k].isFlipping;
    }
    DrawSkips(b3, z + 1, CARDS);
  }

  /** The directions of a frame's three calls: the third card's call comes where it lies. */
  function Order(p: nat, q: nat, r: nat): (bool, bool, bool) {
    if r < p then (false, true, true) else if r < q then (true, false, true) else (true, true, false)
  }

  function MixFrame(m: Mix, o: (bool, bool, bool)): Mix {
    MixCall(MixCall(MixCall(m, o.0), o.1), o.2)
  }

  predicate RunsOn(m: Mix, o: (bool, bool, bool)) {
    !Ends(MixCall(m, o.0), o.0) && !Ends(MixCall(MixCall(m, o.0), o.1), o.1)
  }

  lemma FrameOnMix(b: Board, p: nat, q: nat, r: nat, m: Mix)
    requires ThreeTurn(b, p, q, r) && RunsOn(m, Order(p, q, r))
    ensures var o := Order(p, q, r);
      Draw(Mixed(b, p, q, r, m)) ==
      if Ends(MixFrame(m, o), o.2) then AtRest(b, o.2) else Mixed(b, p, q, r, MixFrame(m, o))
  {
    var o := Order(p, q, r);
    var m1 := MixCall(m, o.0);
    var m2 := MixCall(m1, o.1);
    ThreeMove(b, p, q, r);
    CallOnMix(b, p, q, r, m, o.0);
    CallOnMix(b, p, q, r, m1, o.1);
    CallOnMix(b, p, q, r, m2, o.2);
    var x, y, z := if r < p then r else p, if r < p then p else if r < q then r else q, if r < q then q else r;
    DrawThree(Mixed(b, p, q, r, m), x, y, z);
  }

  /** The mix after `n` frames. Behind the pair (`o.2` is then false) the third card lets it go on for two
      frames only. */
  function MixAfter(n: nat, o: (bool, bool, bool)): Mix {
    if n == 0 then Mix(0, 0, 1)
    else if n == 1 then Mix(0, 0, 10)
    else if !o.2 then Mix(1, 1, 9)
    else if n == 2 then (if o.0 then Mix(1, 1, 11) else Mix(1, 0, 11))
    else Mix(1, 1, 2 - 9 * (n - 3))
  }

  ghost function MixedAfter(b: Board, p: nat, q: nat, r: nat, n: nat): (d: Board)
    requires WellFormed(b)
    ensures WellFormed(d) && d.cards == b.cards
  {
    Mixed(b, p, q, r, MixAfter(n, Order(p, q, r)))
  }

  /** The next frame: it leaves three cards turning, except the third frame with the third card behind the
      pair, which turns all three face up. */
  lemma NextFrame(b: Board, p: nat, q: nat, r: nat, n: nat)
    requires ThreeTurn(b, p, q, r) && (q < r ==> n <= 2)
    ensures Draw(MixedAfter(b, p, q, r, n)) ==
            if q < r && n == 2 then AtRest(b, false) else MixedAfter(b, p, q, r, n + 1)
  {
    FrameOnMix(b, p, q, r, MixAfter(n, Order(p, q, r)));
  }

  /** Three calls on turning cards divide by no zero width if the width is not zero before each of them. */
  lemma SafeThree(b: Board, x: nat, y: nat, z: nat)
    requires WellFormed(b) && x < y < z < CARDS && b.width != 0
    requires forall i :: 0 <= i < CARDS ==> (b.cards[i].isFlipping <==> i == x || i == y || i == z)
    requires var b1 := FlipCall(b, !b.cards[x].isFlipped); b1.cards == b.cards && b1.width != 0
    requires var b2 := FlipCall(FlipCall(b, !b.cards[x].isFlipped), !b.cards[y].isFlipped);
      b2.cards == b.cards && b2.width != 0
    ensures DrawSafe(b, 0)
  {
    var b1 := FlipCall(b, !b.cards[x].isFlipped);
    var b2 := FlipCall(b1, !b.cards[y].isFlipped);
    var b3 := FlipCall(b2, !b.cards[z].isFlipped);
    SafeSkips(b, 0, x);
    SafeSkips(b1, x + 1, y);
    SafeSkips(b2, y + 1, z);
    forall k | z < k < CARDS ensures !b3.cards[k].isFlipping {
      StaysStill(b2, !b.cards[z].isFlipped, k);
    }
    SafeAfter(b3, z + 1);
  }

  /** The widths of a frame's three calls, none of them zero. */
  lemma MixWidths(n: nat, o: (bool, bool, bool))
    requires o == (false, true, true) || o == (true, false, true) || (o == (true, true, false) && n <= 2)
    ensures var m := MixAfter(n, o);
      RunsOn(m, o) && m.width != 0 && MixCall(m, o.0).width != 0 && MixCall(MixCall(m, o.0), o.1).width != 0
  {
  }

  /** No frame of three turning cards divides by a zero width, however many there are. */
  lemma MixIsSafe(b: Board, p: nat, q: nat, r: nat, n: nat)
    requires ThreeTurn(b, p, q, r) && (q < r ==> n <= 2)
    ensures DrawSafe(MixedAfter(b, p, q, r, n), 0)
  {
    var o := Order(p, q, r);
    var m := MixAfter(n, o);
    MixWidths(n, o);
    ThreeMove(b, p, q, r);
    CallOnMix(b, p, q, r, m, o.0);
    CallOnMix(b, p, q, r, MixCall(m, o.0), o.1);
    var x, y, z := if r < p then r else p, if r < p then p else if r < q then r else q, if r < q then q else r;
    SafeThree(Mixed(b, p, q, r, m), x, y, z);
  }

  // ----- The tick around the frame -----

  /** The board of a broken game: the two open cards differ and turn, beside a third card that turns. */
  ghost predicate Broken(b: Board, p: nat, q: nat, r: nat) {
    && ThreeTurn(b, p, q, r) && OpenSet(b.cards) == {p, q} && FaceOf(b.cards[p]) != FaceOf(b.cards[q])
    && !b.cards[r].flipSuccess
  }

  lemma ThreeAreTurning(d: Board, p: nat, q: nat, h: nat)
    requires PairUp(d, p, q) && FaceOf(d.cards[p]) != FaceOf(d.cards[q]) && h < CARDS && d.cards[h].isFlipped
    ensures var t := d.(cards := SendBack(d.cards[h := d.cards[h].(isFlipping := true)], p, q));
      Broken(t, p, q, h) && t == MixedAfter(t, p, q, h, 0)
  {
    OpenPair(d.cards, p, q);
    var t := d.(cards := SendBack(d.cards[h := d.cards[h].(isFlipping := true)], p, q));
    forall i | 0 <= i < CARDS ensures t.cards[i].isFlipping <==> i == p || i == q || i == h {
      assert i !in Moving(d.cards);
    }
    assert Moving(t.cards) == {p, q, h};
    assert OpenSet(t.cards) == {p, q};
    assert t.otherSide == MixedAfter(t, p, q, h, 0).otherSide;
  }

  /** An undisciplined tick breaks the game and charges the wrong pair. */
  lemma UndisciplinedTick(b: Board, lives: nat, i: Input) returns (p: nat, q: nat)
    requires PlayBoard(b) && InputOk(i) && !Disciplined(b, i)
    ensures var r := Tick(b, lives, i);
      && Broken(r.board, p, q, i.under.value) && r.board == MixedAfter(r.board, p, q, i.under.value, 0)
      && r.lives == LoseLife(lives) && r.over == (r.lives == 0) && Faces(r.board.cards) == Faces(b.cards)
  {
    p, q := UndisciplinedPair(b, i);
    var d := Frame(b, i.draws);
    ThirdCardStarts(d, lives, i, p, q);
    ThreeAreTurning(d, p, q, i.under.value);
    FrameSpec(b, i.draws);
    SendBackKeepsFaces(d.cards, i.under.value, p, q);
  }

  /** The pair is the card that was about to be shown and the one that lay open. */
  lemma PairOfPress(b: Board, lives: nat, i: Input, c: nat, o: int)
    requires PlayBoard(b) && InputOk(i) && PressBesideLastFrame(b, i, c, o)
    ensures !Disciplined(b, i) && OpenSet(InPlay.Tick(b, lives, i).board.cards) == {c, o}
  {
    PressBreaksDiscipline(b, i, c, o);
    var p, q := UndisciplinedTick(b, lives, i);
    PairShown(b, lives, i, c, o);
    var cards := InPlay.Tick(b, lives, i).board.cards;
    assert c in {p, q} && o in {p, q};
  }

  lemma SendBackKeepsFaces(cards: seq<Card>, h: nat, p: nat, q: nat)
    requires h < |cards| && p < |cards| && q < |cards|
    ensures Faces(SendBack(cards[h := cards[h].(isFlipping := true)], p, q)) == Faces(cards)
  {
  }

  lemma SendBackKeepsOpen(cards: seq<Card>, h: nat, p: nat, q: nat)
    requires h < |cards| && p < |cards| && q < |cards|
    ensures OpenSet(SendBack(cards[h := cards[h].(isFlipping := true)], p, q)) == OpenSet(cards)
  {
  }

  lemma PairShown(b: Board, lives: nat, i: Input, c: nat, o: int)
    requires PlayBoard(b) && InputOk(i) && PressBesideLastFrame(b, i, c, o) && !Disciplined(b, i)
    ensures c != o && {c, o} <= OpenSet(InPlay.Tick(b, lives, i).board.cards)
  {
    FrameShows(b, c);
    var p, q := UndisciplinedPair(b, i);
    ThirdCardStarts(Draw(b), lives, i, p, q);
    SendBackKeepsOpen(Draw(b).cards, i.under.value, p, q);
  }

  /** While the three cards turn, click gate and check change nothing. */
  lemma CheckOfThree(d: Board, lives: nat, i: Input, p: nat, q: nat, h: nat)
    requires Broken(d, p, q, h) && InputOk(i)
    ensures AfterFrame(d, lives, i.lb, i.under, i.stray) == Ticked(d, lives, false)
  {
    ThreeMove(d, p, q, h);
    assert p in Moving(d.cards);
    ScanOfTwo(d.cards, lives, p, q);
    assert p in OpenSet(d.cards) && q in OpenSet(d.cards);
  }
}
