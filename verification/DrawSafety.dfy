/** No flip call of a game divides by a zero width. */
module DrawSafety {
  import opened Cards
  import opened Flip
  import opened InPlay

  /** No flip call made by a frame from card `i` on divides by a zero width. */
  ghost predicate DrawSafe(b: Board, i: nat)
    requires WellFormed(b) && i <= CARDS
    decreases CARDS - i, b
  {
    i < CARDS ==> (b.cards[i].isFlipping ==> b.width != 0) && DrawSafe(DrawCard(b, i), i + 1)
  }

  lemma {:induction false} SafeSkips(b: Board, i: nat, j: nat)
    requires WellFormed(b) && i <= j <= CARDS
    requires forall k :: i <= k < j ==> !b.cards[k].isFlipping
    ensures DrawSafe(b, i) == DrawSafe(b, j)
    decreases j - i
  {
    if i == j {
    } else {
      SafeSkips(b, i + 1, j);
    }
  }

  lemma SafeAfter(b: Board, j: nat)
    requires WellFormed(b) && j <= CARDS && forall k :: j <= k < CARDS ==> !b.cards[k].isFlipping
    ensures DrawSafe(b, j)
  {
    SafeSkips(b, j, CARDS);
  }

  /** A card that does not turn is left alone by every call. */
  lemma StaysStill(b: Board, down: bool, k: nat)
    requires WellFormed(b) && k < CARDS && !b.cards[k].isFlipping
    ensures FlipCall(b, down).cards[k] == b.cards[k]
  {
  }

  lemma SafeUp(b: Board, p: nat)
    requires TurningUp(b, p)
    ensures DrawSafe(b, 0)
  {
    SingleMoves(b, p);
    SafeSkips(b, 0, p);
    var r := DrawCard(b, p);
    forall k | p < k < CARDS ensures !r.cards[k].isFlipping {
      StaysStill(b, !b.cards[p].isFlipped, k);
    }
    SafeAfter(r, p + 1);
  }

  lemma SafeDown(b: Board, p: nat, q: nat)
    requires TurningDown(b, p, q)
    ensures DrawSafe(b, 0)
  {
    PairMoves(b, p, q);
    SafeSkips(b, 0, p);
    assert |{p, q}| == 2;
    CallTogether(b, true, b.otherSide[p], 2);
    var r := DrawCard(b, p);
    assert r.cards == b.cards && r.width != 0;
    SafeSkips(r, p + 1, q);
    var r' := DrawCard(r, q);
    forall k | q < k < CARDS ensures !r'.cards[k].isFlipping {
      StaysStill(r, true, k);
    }
    SafeAfter(r', q + 1);
  }

  /** No frame of a game divides by a zero width. */
  lemma NoZeroWidth(b: Board)
    requires PlayBoard(b)
    ensures DrawSafe(b, 0)
  {
    if Still(b) {
      forall k | 0 <= k < CARDS ensures !b.cards[k].isFlipping {
        assert k !in Moving(b.cards);
      }
      SafeAfter(b, 0);
    } else if p: nat :| TurningUp(b, p) {
      SafeUp(b, p);
    } else {
      var p: nat, q: nat :| TurningDown(b, p, q);
      SafeDown(b, p, q);
    }
  }
}
