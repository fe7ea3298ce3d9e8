/** The cards of the memory game, the board they lie on, and where each one is drawn. */
module Cards {
  import opened Bytes

  datatype CardNumber = Ace | Two | Three | Four | Five | Six | Seven | Eight | Nine | Ten | Jack | Queen | King

  datatype CardSuit = Spades | Clubs | Hearts | Diamonds

  /** `isFlipped` means face DOWN; `flipSuccess` means the card has found its twin. */
  datatype Card = Card(x: int, y: int, isFlipped: bool, isFlipping: bool, flipSuccess: bool,
                       num: CardNumber, suit: CardSuit)

  /** What the match test compares. */
  datatype Face = Face(num: CardNumber, suit: CardSuit)

  /** The sixteen cards, which side each turning card shows, and the shared width divisor. */
  datatype Board = Board(cards: seq<Card>, otherSide: seq<int>, width: int)

  const CARDS := 16
  const CARD_WIDTH := 69
  const CARD_HEIGHT := 93

  // The card-back image is larger than a face.
  const BACK_WIDTH := 75
  const BACK_HEIGHT := 109

  // Mode 0x115
  const X_RESOLUTION := 800
  const Y_RESOLUTION := 600

  predicate WellFormed(b: Board) {
    |b.cards| == CARDS && |b.otherSide| == CARDS
  }

  function FaceOf(c: Card): Face {
    Face(c.num, c.suit)
  }

  function Faces(cards: seq<Card>): (f: seq<Face>)
    ensures |f| == |cards|
    ensures forall i :: 0 <= i < |cards| ==> f[i] == FaceOf(cards[i])
  {
    seq(|cards|, i requires 0 <= i < |cards| => FaceOf(cards[i]))
  }

  /** Every face on the board lies there exactly twice. */
  ghost predicate Paired(f: seq<Face>) {
    |f| == CARDS && forall i :: 0 <= i < |f| ==> multiset(f)[f[i]] == 2
  }

  /** In a paired deck three positions never share a face. */
  lemma PairedMeansOneTwin(f: seq<Face>, p: nat, q: nat, k: nat)
    requires Paired(f)
    requires p < |f| && q < |f| && k < |f|
    requires p != q && f[p] == f[q] == f[k]
    ensures k == p || k == q
  {
    if k != p && k != q {
      ThreeCopies(f, p, q, k);
      assert false;
    }
  }

  lemma ThreeCopies(f: seq<Face>, p: nat, q: nat, k: nat)
    requires p < |f| && q < |f| && k < |f|
    requires p != q && q != k && k != p && f[p] == f[q] == f[k]
    ensures multiset(f)[f[p]] >= 3
  {
    var rest := f[p := Face(Ace, Spades)];
    if f[p] == Face(Ace, Spades) {
      rest := f[p := Face(King, Diamonds)];
    }
    TwoCopies(rest, q, k);
    assert multiset(f) == multiset(rest) - multiset{rest[p]} + multiset{f[p]};
  }

  lemma TwoCopies(f: seq<Face>, p: nat, q: nat)
    requires p < |f| && q < |f| && p != q && f[p] == f[q]
    ensures multiset(f)[f[p]] >= 2
  {
    var rest := f[p := Face(Ace, Spades)];
    if f[p] == Face(Ace, Spades) {
      rest := f[p := Face(King, Diamonds)];
    }
    assert rest[q] in multiset(rest);
    assert multiset(f) == multiset(rest) - multiset{rest[p]} + multiset{f[p]};
  }

  /** A paired deck gives every position its one twin. */
  lemma TwinExists(f: seq<Face>, p: nat)
    requires Paired(f) && p < |f|
    ensures exists q :: 0 <= q < |f| && q != p && f[q] == f[p]
  {
    assert f == f[..p] + [f[p]] + f[p + 1..];
    assert multiset(f) == multiset(f[..p]) + multiset{f[p]} + multiset(f[p + 1..]);
    if f[p] in multiset(f[..p]) {
      var q :| 0 <= q < p && f[..p][q] == f[p];
      assert f[q] == f[p];
    } else {
      assert f[p] in multiset(f[p + 1..]);
      var q :| 0 <= q < |f| - p - 1 && f[p + 1..][q] == f[p];
      assert f[p + 1 + q] == f[p];
    }
  }

  function GetCardNumber(x: int): CardNumber {
    match x
    case 0 => Ace
    case 1 => Two
    case 2 => Three
    case 3 => Four
    case 4 => Five
    case 5 => Six
    case 6 => Seven
    case 7 => Eight
    case 8 => Nine
    case 9 => Ten
    case 10 => Jack
    case 11 => Queen
    case 12 => King
    case _ => Ace
  }

  function GetCardSuit(y: int): CardSuit {
    match y
    case 0 => Clubs
    case 1 => Spades
    case 2 => Hearts
    case 3 => Diamonds
    case _ => Clubs
  }

  // ----- Geometry -----

  function StartX(): int { X_RESOLUTION / 2 - 2 * (CARD_WIDTH + 30) }
  function StartY(): int { Y_RESOLUTION / 2 - 2 * (CARD_HEIGHT + 20) }

  /** `getCardsScreenXY`: top-left corner of the card in a column and row. */
  function ScreenXY(col: int, row: int): (int, int) {
    (StartX() + (CARD_WIDTH + 30) * col, StartY() + (CARD_HEIGHT + 20) * row)
  }

  /** One block of the click chain: is the pointer on the card in this column and row? */
  predicate Hit(col: int, row: int, mx: int, my: int) {
    var (sx, sy) := ScreenXY(col, row);
    sx <= mx <= sx + CARD_WIDTH && sy <= my <= sy + CARD_HEIGHT
  }

  /** The card under the pointer, found by division instead of by sixteen tests. */
  function CardUnder(mx: int, my: int): (r: Option<nat>)
    ensures r.Some? ==> r.value < CARDS
  {
    var dx, dy := mx - StartX(), my - StartY();
    if 0 <= dx && 0 <= dy && dx / 99 < 4 && dy / 113 < 4 && dx % 99 <= CARD_WIDTH && dy % 113 <= CARD_HEIGHT
    then Some(dx / 99 + 4 * (dy / 113))
    else None
  }

  /** Hit rectangles are disjoint and each one is found by `CardUnder`. */
  lemma HitIffUnder(col: nat, row: nat, mx: int, my: int)
    requires col < 4 && row < 4
    ensures Hit(col, row, mx, my) <==> CardUnder(mx, my) == Some(col + 4 * row)
  {
    var dx, dy := mx - StartX(), my - StartY();
    if Hit(col, row, mx, my) {
      assert dx / 99 == col && dy / 113 == row;
    }
  }

  lemma HitRectanglesDisjoint(i: nat, j: nat, mx: int, my: int)
    requires i < CARDS && j < CARDS
    requires Hit(i % 4, i / 4, mx, my) && Hit(j % 4, j / 4, mx, my)
    ensures i == j
  {
    HitIffUnder(i % 4, i / 4, mx, my);
    HitIffUnder(j % 4, j / 4, mx, my);
  }

  /** Is the point on the back drawn for the card in this column and row? */
  predicate OnBack(col: int, row: int, mx: int, my: int) {
    var (sx, sy) := ScreenXY(col, row);
    sx <= mx < sx + BACK_WIDTH && sy <= my < sy + BACK_HEIGHT
  }

  /** The part of a drawn back that answers to a press: its first 70 columns and 94 rows. */
  predicate Answers(col: int, row: int, mx: int, my: int) {
    var (sx, sy) := ScreenXY(col, row);
    mx <= sx + CARD_WIDTH && my <= sy + CARD_HEIGHT
  }

  /** On a drawn back the pointer is over its card exactly in the part that answers, and over no card at
      all on the five columns to the right of that part and the fifteen rows below it. */
  lemma BackAnswersIff(col: nat, row: nat, mx: int, my: int)
    requires col < 4 && row < 4 && OnBack(col, row, mx, my)
    ensures CardUnder(mx, my) == if Answers(col, row, mx, my) then Some(col + 4 * row) else None
  {
    var dx, dy := mx - StartX(), my - StartY();
    assert dx / 99 == col && dy / 113 == row;
    assert dx % 99 == dx - 99 * col && dy % 113 == dy - 113 * row;
  }

  /** What does not answer are the last five columns and the last fifteen rows. */
  lemma DeadStripIs(col: nat, row: nat, mx: int, my: int)
    ensures var (sx, sy) := ScreenXY(col, row);
      OnBack(col, row, mx, my) && !Answers(col, row, mx, my) <==>
      (sx + 70 <= mx <= sx + 74 && sy <= my <= sy + 108) || (sx <= mx <= sx + 74 && sy + 94 <= my <= sy + 108)
  {
  }

  /** No press outside the drawn backs finds a card. */
  lemma HitIsOnBack(col: nat, row: nat, mx: int, my: int)
    requires Hit(col, row, mx, my)
    ensures OnBack(col, row, mx, my) && Answers(col, row, mx, my)
  {
  }

  /** Every drawn back has points that do not answer. */
  lemma EveryBackHasADeadStrip(col: nat, row: nat)
    requires col < 4 && row < 4
    ensures var (sx, sy) := ScreenXY(col, row);
      && OnBack(col, row, sx + 72, sy + 5) && CardUnder(sx + 72, sy + 5) == None
      && OnBack(col, row, sx + 5, sy + 100) && CardUnder(sx + 5, sy + 100) == None
  {
    var (sx, sy) := ScreenXY(col, row);
    BackAnswersIff(col, row, sx + 72, sy + 5);
    BackAnswersIff(col, row, sx + 5, sy + 100);
  }
}
