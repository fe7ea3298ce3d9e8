/** Dealing: eight different faces by rejection sampling, each placed twice, then a shuffle. */
module Deal {
  import opened Arithmetic
  import opened Bytes
  import opened Cards

  /** A finite record of what `rand()` will return, and the library's RAND_MAX. */
  datatype Rng = Rng(max: nat, draws: seq<nat>)

  predicate ValidRng(r: Rng) {
    forall i :: 0 <= i < |r.draws| ==> r.draws[i] <= r.max
  }

  /** A pick is a (row, column) of the deck sheet: suit and number. */
  type Pick = (int, int)

  function PickOf(a: nat, b: nat): Pick {
    (a % 4, b % 13)
  }

  predicate NoRepeats<T(==)>(s: seq<T>) {
    forall i, j :: 0 <= i < j < |s| ==> s[i] != s[j]
  }

  /** The first eight different picks of the stream and what is left of it; None if it runs dry. */
  function PickFaces(draws: seq<nat>, got: seq<Pick>): (r: Option<(seq<Pick>, seq<nat>)>)
    requires |got| <= 8
    decreases |draws|
  {
    if |got| == 8 then Some((got, draws))
    else if |draws| < 2 then None
    else var p := PickOf(draws[0], draws[1]);
         PickFaces(draws[2..], if p in got then got else got + [p])
  }

  predicate PickInRange(p: Pick) {
    0 <= p.0 < 4 && 0 <= p.1 < 13
  }

  function NewCard(p: Pick): Card {
    Card(p.1, p.0, false, false, false, GetCardNumber(p.1), GetCardSuit(p.0))
  }

  /** Card i and card 15 - i are twins. */
  function Laid(picks: seq<Pick>): (deck: seq<Card>)
    requires |picks| == 8
    ensures |deck| == CARDS
  {
    seq(CARDS, i requires 0 <= i < CARDS => NewCard(picks[if i < 8 then i else 15 - i]))
  }

  /** The position card `i` is swapped with. */
  function ShuffleIndex(i: nat, draw: nat, max: nat): (j: nat)
    requires i < CARDS
  {
    i + draw / (max / (CARDS - i) + 1)
  }

  /** Whatever RAND_MAX is, the swap stays inside the deck. */
  lemma ShuffleIndexInRange(i: nat, draw: nat, max: nat)
    requires i < CARDS && draw <= max
    ensures i <= ShuffleIndex(i, draw, max) < CARDS
  {
    var m := CARDS - i;
    StepsCover(max, m);
    QuotientInRange(draw, max / m + 1, m);
  }

  /** m steps of max / m + 1 reach past max. */
  lemma StepsCover(max: nat, m: nat)
    requires m > 0
    ensures max / m + 1 > 0 && max < m * (max / m + 1)
  {
    DivMod(max, m);
    MulSucc(max / m, m);
    QuotientBelow(max, m, max / m + 1, 0);
  }

  lemma QuotientInRange(a: nat, d: nat, m: nat)
    requires d > 0 && a < m * d
    ensures 0 <= a / d < m
  {
    DivMod(a, d);
    QuotientBelow(a, d, m, a / d);
    MulSucc(a / d, d);
    QuotientBelow(a, d, a / d + 1, 0);
  }

  function Swap<T>(s: seq<T>, i: nat, j: nat): (r: seq<T>)
    requires i < |s| && j < |s|
    ensures |r| == |s|
  {
    s[j := s[i]][i := s[j]]
  }

  lemma SwapKeepsMultiset<T>(s: seq<T>, i: nat, j: nat)
    requires i < |s| && j < |s|
    ensures multiset(Swap(s, i, j)) == multiset(s)
  {
    assert multiset(s[j := s[i]]) == multiset(s) - multiset{s[j]} + multiset{s[i]};
  }

  function ShuffleFrom(deck: seq<Card>, draws: seq<nat>, max: nat, i: nat): (r: Option<seq<Card>>)
    requires |deck| == CARDS && i < CARDS
    requires forall k :: 0 <= k < |draws| ==> draws[k] <= max
    ensures r.Some? ==> |r.value| == CARDS
    decreases CARDS - i, deck
  {
    if i == CARDS - 1 then Some(deck)
    else if |draws| == 0 then None
    else ShuffleIndexInRange(i, draws[0], max);
         ShuffleFrom(Swap(deck, i, ShuffleIndex(i, draws[0], max)), draws[1..], max, i + 1)
  }

  /** `initialize_game_cards`; None when the record of draws ends before dealing does. */
  function Dealt(r: Rng): (d: Option<seq<Card>>)
    requires ValidRng(r)
    ensures d.Some? ==> |d.value| == CARDS
  {
    var picked := PickFaces(r.draws, []);
    if picked.None? then None
    else
      PickFacesSpec(r.draws, [], r.max);
      ShuffleFrom(Laid(picked.value.0), picked.value.1, r.max, 0)
  }

  /** The retry loop keeps the picks different and in range. */
  lemma {:induction false} PickFacesSpec(draws: seq<nat>, got: seq<Pick>, max: nat)
    requires |got| <= 8 && NoRepeats(got) && forall p :: p in got ==> PickInRange(p)
    requires forall k :: 0 <= k < |draws| ==> draws[k] <= max
    ensures var r := PickFaces(draws, got);
            r.Some? ==>
              && |r.value.0| == 8 && got <= r.value.0 && NoRepeats(r.value.0)
              && (forall p :: p in r.value.0 ==> PickInRange(p))
              && (forall k :: 0 <= k < |r.value.1| ==> r.value.1[k] <= max)
    decreases |draws|
  {
    if |got| == 8 || |draws| < 2 {
    } else {
      var p := PickOf(draws[0], draws[1]);
      PickFacesSpec(draws[2..], if p in got then got else got + [p], max);
    }
  }

  // ----- In which order -----

  /** The picks of a stream of draws, two draws each. */
  function Stream(draws: seq<nat>): (s: seq<Pick>)
    ensures |s| == |draws| / 2
  {
    seq(|draws| / 2, i requires 0 <= i < |draws| / 2 => PickOf(draws[2 * i], draws[2 * i + 1]))
  }

  /** The values of a sequence, each where it occurs for the first time. */
  function FirstSeen(s: seq<Pick>): seq<Pick> {
    if s == [] then []
    else
      var f, p := FirstSeen(s[..|s| - 1]), s[|s| - 1];
      if p in f then f else f + [p]
  }

  /** Where a value occurs first; the length if it does not. */
  function FirstIndex(s: seq<Pick>, p: Pick): (i: nat)
    ensures i <= |s| && (i < |s| ==> s[i] == p) && forall k :: 0 <= k < i ==> s[k] != p
  {
    if s == [] then 0
    else
      var i := FirstIndex(s[..|s| - 1], p);
      if i < |s| - 1 then i else if s[|s| - 1] == p then |s| - 1 else |s|
  }

  /** What that means: the same values, none twice, in the order of their first occurrences. */
  lemma {:induction false} FirstSeenSpec(s: seq<Pick>)
    ensures forall p :: p in FirstSeen(s) <==> p in s
    ensures NoRepeats(FirstSeen(s))
    ensures forall i, j :: 0 <= i < j < |FirstSeen(s)| ==>
              FirstIndex(s, FirstSeen(s)[i]) < FirstIndex(s, FirstSeen(s)[j])
  {
    if s == [] {
    } else {
      var front, p := s[..|s| - 1], s[|s| - 1];
      FirstSeenSpec(front);
      assert s == front + [p];
      var f, g := FirstSeen(front), FirstSeen(s);
      forall i, j | 0 <= i < j < |g| ensures FirstIndex(s, g[i]) < FirstIndex(s, g[j]) {
        assert g[i] == f[i] && f[i] in front;
        assert FirstIndex(front, g[i]) < |front|;
        assert j < |f| ==> g[j] == f[j] && f[j] in front;
      }
    }
  }

  lemma StreamStep(draws: seq<nat>)
    requires |draws| >= 2
    ensures Stream(draws) == [PickOf(draws[0], draws[1])] + Stream(draws[2..])
  {
  }

  lemma FirstSeenOn(s: seq<Pick>, p: Pick)
    ensures FirstSeen(s + [p]) == if p in FirstSeen(s) then FirstSeen(s) else FirstSeen(s) + [p]
  {
    assert (s + [p])[..|s|] == s;
  }

  lemma Prefixed(s: seq<Pick>, p: Pick, rest: seq<Pick>, k: nat)
    requires k <= |rest|
    ensures s + ([p] + rest)[..k + 1] == s + [p] + rest[..k]
  {
  }

  /** Fewer than eight different values in `s` and the first k picks of a stream. */
  ghost predicate TooFew(s: seq<Pick>, stream: seq<Pick>, k: nat)
    requires k <= |stream|
  {
    |FirstSeen(s + stream[..k])| < 8
  }

  lemma TooFewShifts(s: seq<Pick>, p: Pick, rest: seq<Pick>, k: nat)
    requires k <= |rest|
    ensures TooFew(s, [p] + rest, k + 1) == TooFew(s + [p], rest, k)
  {
    Prefixed(s, p, rest, k);
  }

  lemma TooFewAtFirst(s: seq<Pick>, stream: seq<Pick>)
    ensures TooFew(s, stream, 0) == (|FirstSeen(s)| < 8)
  {
    assert s + stream[..0] == s;
  }

  /** The values seen first in `s` and the beginning of the stream: eight after `n` picks, and not before. */
  ghost predicate TakesEight(stream: seq<Pick>, s: seq<Pick>, n: nat, picks: seq<Pick>) {
    && n <= |stream| && picks == FirstSeen(s + stream[..n]) && |picks| == 8
    && forall k :: 0 <= k < n ==> TooFew(s, stream, k)
  }

  lemma TakesOneMore(stream: seq<Pick>, s: seq<Pick>, p: Pick, rest: seq<Pick>, m: nat, picks: seq<Pick>)
    requires stream == [p] + rest && TakesEight(rest, s + [p], m, picks) && |FirstSeen(s)| < 8
    ensures TakesEight(stream, s, m + 1, picks)
  {
    Prefixed(s, p, rest, m);
    forall k | 0 <= k < m + 1 ensures TooFew(s, stream, k) {
      if k == 0 {
        TooFewAtFirst(s, stream);
      } else {
        TooFewShifts(s, p, rest, k - 1);
      }
    }
  }

  lemma DropTwo(draws: seq<nat>, m: nat)
    requires 2 * m + 2 <= |draws|
    ensures draws[2..][2 * m..] == draws[2 * (m + 1)..]
  {
  }

  /** What n picks of the stream, behind `s`, have made of it. */
  ghost predicate Picked(draws: seq<nat>, s: seq<Pick>, n: nat, r: (seq<Pick>, seq<nat>)) {
    2 * n <= |draws| && r.1 == draws[2 * n..] && TakesEight(Stream(draws), s, n, r.0)
  }

  ghost predicate PickedSome(draws: seq<nat>, s: seq<Pick>, r: (seq<Pick>, seq<nat>)) {
    exists n: nat :: Picked(draws, s, n, r)
  }

  lemma PickedOneMore(draws: seq<nat>, s: seq<Pick>, rest: seq<nat>, next: seq<Pick>, r: (seq<Pick>, seq<nat>))
    requires |draws| >= 2 && rest == draws[2..] && |FirstSeen(s)| < 8
    requires next == s + [PickOf(draws[0], draws[1])] && PickedSome(rest, next, r)
    ensures PickedSome(draws, s, r)
  {
    var m: nat :| Picked(rest, next, m, r);
    StreamStep(draws);
    DropTwo(draws, m);
    TakesOneMore(Stream(draws), s, PickOf(draws[0], draws[1]), Stream(rest), m, r.0);
    assert Picked(draws, s, m + 1, r);
  }

  lemma PickedAll(draws: seq<nat>, s: seq<Pick>)
    requires |FirstSeen(s)| == 8
    ensures PickedSome(draws, s, (FirstSeen(s), draws))
  {
    assert s + Stream(draws)[..0] == s;
    assert Picked(draws, s, 0, (FirstSeen(s), draws));
  }

  lemma NextPick(draws: seq<nat>, s: seq<Pick>, got: seq<Pick>)
    returns (p: Pick, rest: seq<nat>, next: seq<Pick>, more: seq<Pick>)
    requires got == FirstSeen(s) && |got| < 8 && |draws| >= 2
    ensures p == PickOf(draws[0], draws[1]) && rest == draws[2..] && next == s + [p]
    ensures more == FirstSeen(next) && |more| <= 8 && PickFaces(draws, got) == PickFaces(rest, more)
  {
    p, rest := PickOf(draws[0], draws[1]), draws[2..];
    next, more := s + [p], if p in got then got else got + [p];
    FirstSeenOn(s, p);
  }

  lemma {:induction false} PicksAreFirstSeen(draws: seq<nat>, s: seq<Pick>, got: seq<Pick>, r: (seq<Pick>, seq<nat>))
    requires got == FirstSeen(s) && |got| <= 8 && PickFaces(draws, got) == Some(r)
    ensures PickedSome(draws, s, r)
    decreases |draws|
  {
    if |got| == 8 {
      PickedAll(draws, s);
    } else {
      var p, rest, next, more := NextPick(draws, s, got);
      PicksAreFirstSeen(rest, next, more, r);
      PickedOneMore(draws, s, rest, next, r);
    }
  }

  /** The retry loop takes the first eight different picks of the stream, in the order of the stream, and
      uses up no draw after the eighth. */
  lemma PickFacesInOrder(draws: seq<nat>) returns (n: nat)
    requires PickFaces(draws, []).Some?
    ensures 2 * n <= |draws|
    ensures PickFaces(draws, []) == Some((FirstSeen(Stream(draws)[..n]), draws[2 * n..]))
    ensures |FirstSeen(Stream(draws)[..n])| == 8 && forall k :: 0 <= k < n ==> |FirstSeen(Stream(draws)[..k])| < 8
  {
    PicksAreFirstSeen(draws, [], [], PickFaces(draws, []).value);
    n :| Picked(draws, [], n, PickFaces(draws, []).value);
    forall k | 0 <= k < n ensures |FirstSeen(Stream(draws)[..k])| < 8 {
      assert TooFew([], Stream(draws), k);
      assert [] + Stream(draws)[..k] == Stream(draws)[..k];
    }
    assert [] + Stream(draws)[..n] == Stream(draws)[..n];
  }

  /** A freshly dealt deck: every face twice, all face up, nothing matched or turning. */
  ghost predicate FreshDeck(deck: seq<Card>) {
    && |deck| == CARDS
    && Paired(Faces(deck))
    && forall i :: 0 <= i < CARDS ==> JustDealt(deck[i])
  }

  predicate JustDealt(c: Card) {
    && !c.isFlipped && !c.isFlipping && !c.flipSuccess
    && 0 <= c.x < 13 && 0 <= c.y < 4 && c.num == GetCardNumber(c.x) && c.suit == GetCardSuit(c.y)
  }

  function PickFace(p: Pick): Face {
    Face(GetCardNumber(p.1), GetCardSuit(p.0))
  }

  function PickedFaces(picks: seq<Pick>): (f: seq<Face>)
    ensures |f| == |picks|
  {
    if picks == [] then [] else PickedFaces(picks[..|picks| - 1]) + [PickFace(picks[|picks| - 1])]
  }

  function Reversed<T>(s: seq<T>): (r: seq<T>)
    ensures |r| == |s|
  {
    if s == [] then [] else [s[|s| - 1]] + Reversed(s[..|s| - 1])
  }

  lemma {:induction false} ReversedKeepsMultiset<T>(s: seq<T>)
    ensures multiset(Reversed(s)) == multiset(s)
    ensures forall i :: 0 <= i < |s| ==> Reversed(s)[i] == s[|s| - 1 - i]
  {
    if s == [] {
    } else {
      ReversedKeepsMultiset(s[..|s| - 1]);
      assert s == s[..|s| - 1] + [s[|s| - 1]];
    }
  }

  lemma {:induction false} PickedFacesAt(picks: seq<Pick>)
    ensures forall i :: 0 <= i < |picks| ==> PickedFaces(picks)[i] == PickFace(picks[i])
  {
    if picks == [] {
    } else {
      PickedFacesAt(picks[..|picks| - 1]);
    }
  }

  /** The columns of the sheet run from ace to king, its rows are clubs, spades, hearts and diamonds. */
  lemma SheetOrder(p: Pick)
    requires PickInRange(p)
    ensures PickFace(p).num ==
      [Ace, Two, Three, Four, Five, Six, Seven, Eight, Nine, Ten, Jack, Queen, King][p.1]
    ensures PickFace(p).suit == [Clubs, Spades, Hearts, Diamonds][p.0]
  {
  }

  lemma FacesDiffer(p: Pick, q: Pick)
    requires PickInRange(p) && PickInRange(q) && PickFace(p) == PickFace(q)
    ensures p == q
  {
  }

  /** A value of a sequence without repeats occurs in it once. */
  lemma OccursOnce(f: seq<Face>, i: nat)
    requires NoRepeats(f) && i < |f|
    ensures multiset(f)[f[i]] == 1
  {
    assert f == f[..i] + [f[i]] + f[i + 1..];
    assert multiset(f) == multiset(f[..i]) + multiset{f[i]} + multiset(f[i + 1..]);
    assert f[i] !in f[..i] && f[i] !in f[i + 1..];
  }

  lemma PicksShowDifferentFaces(picks: seq<Pick>)
    requires NoRepeats(picks) && forall p :: p in picks ==> PickInRange(p)
    ensures NoRepeats(PickedFaces(picks))
  {
    PickedFacesAt(picks);
    forall i, j | 0 <= i < j < |picks| ensures PickedFaces(picks)[i] != PickedFaces(picks)[j] {
      assert picks[i] in picks && picks[j] in picks;
      if PickFace(picks[i]) == PickFace(picks[j]) { FacesDiffer(picks[i], picks[j]); }
    }
  }

  lemma MirroredIsPaired(half: seq<Face>)
    requires |half| == 8 && NoRepeats(half)
    ensures Paired(half + Reversed(half))
    ensures multiset(half + Reversed(half)) == multiset(half) + multiset(half)
  {
    var f := half + Reversed(half);
    ReversedKeepsMultiset(half);
    forall i | 0 <= i < CARDS ensures multiset(f)[f[i]] == 2 {
      OccursOnce(half, if i < 8 then i else 15 - i);
    }
  }

  lemma LaidShows(picks: seq<Pick>)
    requires |picks| == 8
    ensures Faces(Laid(picks)) == PickedFaces(picks) + Reversed(PickedFaces(picks))
  {
    PickedFacesAt(picks);
    ReversedKeepsMultiset(PickedFaces(picks));
    var f, half := Faces(Laid(picks)), PickedFaces(picks);
    forall i | 0 <= i < CARDS ensures f[i] == (half + Reversed(half))[i] {
      assert f[i] == PickFace(picks[if i < 8 then i else 15 - i]);
    }
  }

  /** Placing eight different picks at i and 15 - i pairs the deck. */
  lemma LaidIsFresh(picks: seq<Pick>)
    requires |picks| == 8 && NoRepeats(picks) && forall p :: p in picks ==> PickInRange(p)
    ensures FreshDeck(Laid(picks))
    ensures NoRepeats(PickedFaces(picks))
    ensures multiset(Faces(Laid(picks))) == multiset(PickedFaces(picks)) + multiset(PickedFaces(picks))
  {
    PicksShowDifferentFaces(picks);
    MirroredIsPaired(PickedFaces(picks));
    LaidShows(picks);
    LaidIsJustDealt(picks);
  }

  lemma LaidIsJustDealt(picks: seq<Pick>)
    requires |picks| == 8 && forall p :: p in picks ==> PickInRange(p)
    ensures forall i :: 0 <= i < CARDS ==> JustDealt(Laid(picks)[i])
  {
    forall i | 0 <= i < CARDS ensures JustDealt(Laid(picks)[i]) {
      var p := picks[if i < 8 then i else 15 - i];
      assert p in picks && Laid(picks)[i] == NewCard(p);
    }
  }

  lemma SwapKeepsFresh(deck: seq<Card>, i: nat, j: nat)
    requires FreshDeck(deck) && i < CARDS && j < CARDS
    ensures FreshDeck(Swap(deck, i, j))
    ensures multiset(Faces(Swap(deck, i, j))) == multiset(Faces(deck))
  {
    var f := Faces(Swap(deck, i, j));
    assert f == Swap(Faces(deck), i, j);
    SwapKeepsMultiset(Faces(deck), i, j);
    forall k | 0 <= k < CARDS ensures multiset(f)[f[k]] == 2 {
      assert f[k] == Faces(deck)[if k == i then j else if k == j then i else k];
    }
  }

  /** Shuffling only moves cards. */
  lemma {:induction false} ShuffleMovesCards(deck: seq<Card>, draws: seq<nat>, max: nat, i: nat)
    requires FreshDeck(deck) && i < CARDS
    requires forall k :: 0 <= k < |draws| ==> draws[k] <= max
    ensures var r := ShuffleFrom(deck, draws, max, i);
            r.Some? ==>
              && FreshDeck(r.value)
              && multiset(r.value) == multiset(deck)
              && multiset(Faces(r.value)) == multiset(Faces(deck))
    decreases CARDS - i
  {
    if i == CARDS - 1 || |draws| == 0 {
    } else {
      ShuffleIndexInRange(i, draws[0], max);
      var j := ShuffleIndex(i, draws[0], max);
      SwapKeepsFresh(deck, i, j);
      SwapKeepsMultiset(deck, i, j);
      ShuffleMovesCards(Swap(deck, i, j), draws[1..], max, i + 1);
    }
  }

  ghost predicate EightFacesTwice(deck: seq<Card>, faces: seq<Face>) {
    |faces| == 8 && NoRepeats(faces) && multiset(Faces(deck)) == multiset(faces) + multiset(faces)
  }

  lemma ShuffledIsFresh(picks: seq<Pick>, draws: seq<nat>, max: nat)
    requires |picks| == 8 && NoRepeats(picks) && forall p :: p in picks ==> PickInRange(p)
    requires forall k :: 0 <= k < |draws| ==> draws[k] <= max
    requires ShuffleFrom(Laid(picks), draws, max, 0).Some?
    ensures var deck := ShuffleFrom(Laid(picks), draws, max, 0).value;
            FreshDeck(deck) && EightFacesTwice(deck, PickedFaces(picks))
  {
    LaidIsFresh(picks);
    ShuffleMovesCards(Laid(picks), draws, max, 0);
  }

  lemma DealtInParts(r: Rng) returns (picks: seq<Pick>, rest: seq<nat>)
    requires ValidRng(r) && Dealt(r).Some?
    ensures |picks| == 8 && NoRepeats(picks) && forall p :: p in picks ==> PickInRange(p)
    ensures forall k :: 0 <= k < |rest| ==> rest[k] <= r.max
    ensures Dealt(r) == ShuffleFrom(Laid(picks), rest, r.max, 0)
  {
    PickFacesSpec(r.draws, [], r.max);
    var picked := PickFaces(r.draws, []).value;
    picks, rest := picked.0, picked.1;
  }

  /** Whenever dealing finishes, the deck holds eight different faces, each exactly twice. */
  lemma DealtIsFresh(r: Rng)
    requires ValidRng(r) && Dealt(r).Some?
    ensures FreshDeck(Dealt(r).value)
    ensures exists faces: seq<Face> :: EightFacesTwice(Dealt(r).value, faces)
  {
    var picks, rest := DealtInParts(r);
    ShuffledIsFresh(picks, rest, r.max);
  }

  /** In a fresh deck the match test pairs every position with exactly one other. */
  lemma MatchTestFindsOneTwin(deck: seq<Card>, p: nat)
    requires FreshDeck(deck) && p < CARDS
    ensures exists q :: && 0 <= q < CARDS && q != p && FaceOf(deck[q]) == FaceOf(deck[p])
                        && forall k :: 0 <= k < CARDS && FaceOf(deck[k]) == FaceOf(deck[p]) ==> k == p || k == q
  {
    var f := Faces(deck);
    TwinExists(f, p);
    var q :| 0 <= q < |f| && q != p && f[q] == f[p];
    forall k | 0 <= k < CARDS && FaceOf(deck[k]) == FaceOf(deck[p]) ensures k == p || k == q {
      PairedMeansOneTwin(f, p, q, k);
    }
    assert FaceOf(deck[q]) == FaceOf(deck[p]);
  }
}
