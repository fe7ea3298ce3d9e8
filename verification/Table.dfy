/** One timer tick on the board during play: a frame of animation, the click, the match check. */
module Table {
  import opened Bytes
  import opened Cards
  import opened Flip

  // ----- The click: flipCardOnClick -----

  /** The chain of sixteen tests starts the card under the pointer; the last card it hit (or, when it
      hit none, whatever index the uninitialised variable holds) is then stopped if it is face up. */
  function Clicked(cards: seq<Card>, under: Option<nat>, stray: nat): (r: seq<Card>)
    requires |cards| == CARDS && stray < CARDS && (under.Some? ==> under.value < CARDS)
    ensures |r| == CARDS
  {
    var started := if under.Some? then cards[under.value := cards[under.value].(isFlipping := true)] else cards;
    var pos := if under.Some? then under.value else stray;
    if !started[pos].isFlipped then started[pos := started[pos].(isFlipping := false)] else started
  }

  // ----- The match check -----

  /** Face up and not yet matched. */
  predicate Open(c: Card) {
    !c.isFlipped && !c.flipSuccess
  }

  function OpenSet(cards: seq<Card>): set<int> {
    set i: int | 0 <= i < |cards| && Open(cards[i])
  }

  /** `first` is `cardPosInArray` once `flipCount` is 1. */
  datatype Scan = Scan(cards: seq<Card>, first: Option<nat>, lives: nat, over: bool)

  predicate ScanOk(s: Scan) {
    |s.cards| == CARDS && (s.first.Some? ==> s.first.value < CARDS)
  }

  /** `lives` is an unsigned int. */
  function LoseLife(lives: nat): nat {
    if lives == 0 then 0xFFFF_FFFF else lives - 1
  }

  function ScanStep(s: Scan, i: nat): (r: Scan)
    requires ScanOk(s) && i < CARDS
    ensures ScanOk(r)
  {
    if !Open(s.cards[i]) then s
    else if s.first.None? then s.(first := Some(i))
    else
      var p := s.first.value;
      if FaceOf(s.cards[i]) == FaceOf(s.cards[p]) then
        var cards := s.cards[i := s.cards[i].(flipSuccess := true)];
        s.(cards := cards[p := cards[p].(flipSuccess := true)])
      else
        var lives := if s.cards[i].isFlipping then s.lives else LoseLife(s.lives);
        var over := s.over || (!s.cards[i].isFlipping && lives == 0);
        var cards := s.cards[i := s.cards[i].(isFlipping := true)];
        Scan(cards[p := cards[p].(isFlipping := true)], s.first, lives, over)
  }

  function ScanFrom(s: Scan, i: nat): (r: Scan)
    requires ScanOk(s) && i <= CARDS
    ensures ScanOk(r)
    decreases CARDS - i, s
  {
    if i == CARDS then s else ScanFrom(ScanStep(s, i), i + 1)
  }

  lemma {:induction false} ScanSkips(s: Scan, i: nat, j: nat)
    requires ScanOk(s) && i <= j <= CARDS
    requires forall k :: i <= k < j ==> !Open(s.cards[k])
    ensures ScanFrom(s, i) == ScanFrom(s, j)
    decreases j - i
  {
    if i == j {
    } else {
      ScanSkips(s, i + 1, j);
    }
  }

  function StartScan(cards: seq<Card>, lives: nat): Scan {
    Scan(cards, None, lives, false)
  }

  ghost predicate AtMostOneOpen(cards: seq<Card>) {
    forall i, j :: i in OpenSet(cards) && j in OpenSet(cards) ==> i == j
  }

  /** With at most one open card the check changes nothing. */
  lemma ScanOfOne(cards: seq<Card>, lives: nat)
    requires |cards| == CARDS && AtMostOneOpen(cards)
    ensures var r := ScanFrom(StartScan(cards, lives), 0); r.cards == cards && r.lives == lives && !r.over
  {
    var s := StartScan(cards, lives);
    if p :| p in OpenSet(cards) {
      forall k | 0 <= k < CARDS && k != p ensures !Open(cards[k]) {
        assert k !in OpenSet(cards);
      }
      ScanSkips(s, 0, p);
      ScanSkips(ScanStep(s, p), p + 1, CARDS);
    } else {
      forall k | 0 <= k < CARDS ensures !Open(cards[k]) {
        assert k !in OpenSet(cards);
      }
      ScanSkips(s, 0, CARDS);
    }
  }

  lemma ScanReachesFirst(cards: seq<Card>, lives: nat, p: nat)
    requires |cards| == CARDS && p < CARDS && Open(cards[p])
    requires forall k :: 0 <= k < p ==> !Open(cards[k])
    ensures ScanFrom(StartScan(cards, lives), 0) == ScanFrom(Scan(cards, Some(p), lives, false), p + 1)
  {
    var s := StartScan(cards, lives);
    ScanSkips(s, 0, p);
    assert ScanStep(s, p) == Scan(cards, Some(p), lives, false);
  }

  lemma ScanReachesSecond(s: Scan, p: nat, q: nat)
    requires ScanOk(s) && p < q < CARDS && s.first == Some(p) && Open(s.cards[q])
    requires forall k :: p < k < CARDS && k != q ==> !Open(s.cards[k])
    ensures ScanFrom(s, p + 1) == ScanStep(s, q)
  {
    ScanSkips(s, p + 1, q);
    var s2 := ScanStep(s, q);
    forall k | q < k < CARDS ensures !Open(s2.cards[k]) {
      assert s2.cards[k] == s.cards[k];
    }
    ScanSkips(s2, q + 1, CARDS);
  }

  /** With two open cards the check compares them and nothing else: it matches them, or it sets both
      turning and charges a life unless the later one was turning already. */
  lemma ScanOfTwo(cards: seq<Card>, lives: nat, p: nat, q: nat)
    requires |cards| == CARDS && p < q < CARDS && OpenSet(cards) == {p, q}
    ensures ScanFrom(StartScan(cards, lives), 0) == ScanStep(Scan(cards, Some(p), lives, false), q)
  {
    assert p in OpenSet(cards) && q in OpenSet(cards);
    forall k | 0 <= k < CARDS && k != p && k != q ensures !Open(cards[k]) {
      assert k !in OpenSet(cards);
    }
    ScanReachesFirst(cards, lives, p);
    ScanReachesSecond(Scan(cards, Some(p), lives, false), p, q);
  }

  /** With three open cards the check compares the first one with the second and then with the third. */
  lemma ScanOfThree(cards: seq<Card>, lives: nat, p: nat, q: nat, h: nat)
    requires |cards| == CARDS && p < q < h < CARDS && OpenSet(cards) == {p, q, h}
    ensures ScanFrom(StartScan(cards, lives), 0) == ScanStep(ScanStep(Scan(cards, Some(p), lives, false), q), h)
  {
    assert p in OpenSet(cards) && q in OpenSet(cards) && h in OpenSet(cards);
    forall k | 0 <= k < CARDS && k != p && k != q && k != h ensures !Open(cards[k]) {
      assert k !in OpenSet(cards);
    }
    ScanReachesFirst(cards, lives, p);
    var s := Scan(cards, Some(p), lives, false);
    ScanSkips(s, p + 1, q);
    var s2 := ScanStep(s, q);
    forall k | q < k < CARDS ensures s2.cards[k] == cards[k] {
    }
    ScanSkips(s2, q + 1, h);
    var s3 := ScanStep(s2, h);
    forall k | h < k < CARDS ensures s3.cards[k] == cards[k] {
    }
    ScanSkips(s3, h + 1, CARDS);
  }

  // ----- The tick -----

  datatype Ticked = Ticked(board: Board, lives: nat, over: bool)

  function Frame(b: Board, draws: bool): (r: Board)
    requires WellFormed(b)
    ensures WellFormed(r)
  {
    if draws then Draw(b) else b
  }

  /** The play branch of the main loop after the frame: click gate and check. */
  function AfterFrame(d: Board, lives: nat, lb: bool, under: Option<nat>, stray: nat): (r: Ticked)
    requires WellFormed(d) && stray < CARDS && (under.Some? ==> under.value < CARDS)
    ensures WellFormed(r.board)
  {
    if lb && Moving(d.cards) != {} then Ticked(d, lives, false)
    else
      var clicked := if lb then Clicked(d.cards, under, stray) else d.cards;
      var s := ScanFrom(StartScan(clicked, lives), 0);
      Ticked(d.(cards := s.cards), s.lives, s.over)
  }

  function BoardTick(b: Board, lives: nat, draws: bool, lb: bool, under: Option<nat>, stray: nat): (r: Ticked)
    requires WellFormed(b) && stray < CARDS && (under.Some? ==> under.value < CARDS)
    ensures WellFormed(r.board)
  {
    AfterFrame(Frame(b, draws), lives, lb, under, stray)
  }
}
