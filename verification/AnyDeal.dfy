/** Which decks can be dealt: for a generator of a large enough range, all that hold eight faces twice. */
module AnyDeal {
  import opened Arithmetic
  import opened Bytes
  import opened Cards
  import opened Deal

  // ----- One swap -----

  /** Exactly which positions a draw can send card `i` to. */
  lemma ShuffleReachesIff(i: nat, j: nat, max: nat)
    requires i <= j < CARDS
    ensures (exists draw: nat :: draw <= max && ShuffleIndex(i, draw, max) == j)
            <==> (j - i) * (max / (CARDS - i) + 1) <= max
  {
    var k, d := j - i, max / (CARDS - i) + 1;
    StepsCover(max, CARDS - i);
    MulMono(0, k, d);
    QuotientRemainder(k * d, d, k, 0);
    if k * d <= max {
      var draw: nat := k * d;
      assert ShuffleIndex(i, draw, max) == j;
    }
    if draw: nat :| draw <= max && ShuffleIndex(i, draw, max) == j {
      DivMod(draw, d);
    }
  }

  /** From 240 on every position at or behind `i` can be reached; RAND_MAX is at least 32767. */
  lemma ShuffleReachesAll(i: nat, j: nat, max: nat)
    requires i <= j < CARDS && max >= 240
    ensures exists draw: nat :: draw <= max && ShuffleIndex(i, draw, max) == j
  {
    var k, m := j - i, CARDS - i;
    var q := max / m;
    DivMod(max, m);
    QuotientBelow(max, m, q + 1, 15);
    MulMono(k, m - 1, q);
    MulSucc(m - 1, q);
    assert k * (q + 1) == k * q + k && q * m == m * q;
    ShuffleReachesIff(i, j, max);
  }

  /** A range of seventeen values is too small: the first card never goes to the last position. */
  lemma ShuffleMissesLast(draw: nat)
    requires draw <= 16
    ensures ShuffleIndex(0, draw, 16) != 15
  {
  }

  // ----- The whole shuffle -----

  lemma FindFrom<T>(s: seq<T>, r: seq<T>, i: nat) returns (j: nat)
    requires multiset(s) == multiset(r) && i < |s| == |r| && s[..i] == r[..i]
    ensures i <= j < |s| && s[j] == r[i]
  {
    assert s == s[..i] + s[i..] && r == r[..i] + r[i..];
    assert multiset(s) == multiset(s[..i]) + multiset(s[i..]);
    assert multiset(r) == multiset(r[..i]) + multiset(r[i..]);
    assert multiset(s[i..]) == multiset(s) - multiset(s[..i]) == multiset(r[i..]);
    assert r[i..][0] in multiset(s[i..]);
    var k :| 0 <= k < |s| - i && s[i..][k] == r[i];
    j := i + k;
  }

  lemma LastFollows<T>(s: seq<T>, r: seq<T>, i: nat)
    requires multiset(s) == multiset(r) && |s| == |r| == i + 1 && s[..i] == r[..i]
    ensures s == r
  {
    var j := FindFrom(s, r, i);
  }

  /** Any order of the cards is the result of some draws. */
  lemma {:induction false} ShuffleReaches(deck: seq<Card>, r: seq<Card>, max: nat, i: nat) returns (draws: seq<nat>)
    requires |deck| == |r| == CARDS && multiset(deck) == multiset(r) && i < CARDS && deck[..i] == r[..i] && max >= 240
    ensures forall k :: 0 <= k < |draws| ==> draws[k] <= max
    ensures ShuffleFrom(deck, draws, max, i) == Some(r)
    decreases CARDS - i
  {
    if i == CARDS - 1 {
      LastFollows(deck, r, i);
      draws := [];
    } else {
      var j := FindFrom(deck, r, i);
      ShuffleReachesAll(i, j, max);
      var draw: nat :| draw <= max && ShuffleIndex(i, draw, max) == j;
      SwapKeepsMultiset(deck, i, j);
      var next := Swap(deck, i, j);
      assert next[..i + 1] == r[..i + 1];
      var rest := ShuffleReaches(next, r, max, i + 1);
      draws := [draw] + rest;
      assert draws[1..] == rest;
    }
  }

  // ----- The picks -----

  /** The first draw of two picks the row and the second the column, each by its remainder, so that each of
      the 52 places on the sheet can be picked. */
  lemma EveryPlaceIsPicked(a: nat, b: nat, p: Pick)
    requires PickInRange(p)
    ensures PickOf(a, b) == p <==> (a - p.0) % 4 == 0 && (b - p.1) % 13 == 0
  {
    SameRemainder(a, 4, p.0);
    SameRemainder(b, 13, p.1);
  }

  lemma SameRemainder(a: int, d: int, r: int)
    requires 0 <= r < d
    ensures a % d == r <==> (a - r) % d == 0
  {
    DivMod(a, d);
    DivMod(a - r, d);
    if a % d == r {
      QuotientRemainder(a - r, d, a / d, 0);
    }
    if (a - r) % d == 0 {
      QuotientRemainder(a, d, (a - r) / d, r);
    }
  }

  /** Two draws for each pick. */
  function DrawsFor(picks: seq<Pick>): (draws: seq<nat>)
    requires forall p :: p in picks ==> PickInRange(p)
    ensures forall k :: 0 <= k < |draws| ==> draws[k] <= 12
  {
    if picks == [] then []
    else
      assert picks[0] in picks && PickInRange(picks[0]);
      [picks[0].0 as nat, picks[0].1 as nat] + DrawsFor(picks[1..])
  }

  lemma {:induction false} PicksFollow(picks: seq<Pick>, rest: seq<nat>, got: seq<Pick>)
    requires |got| + |picks| == 8 && NoRepeats(got + picks) && forall p :: p in picks ==> PickInRange(p)
    ensures PickFaces(DrawsFor(picks) + rest, got) == Some((got + picks, rest))
    decreases |picks|
  {
    if picks == [] {
      assert DrawsFor(picks) + rest == rest && got + picks == got;
    } else {
      var p, tail := picks[0], picks[1..];
      var draws := DrawsFor(picks) + rest;
      assert p in picks && PickOf(p.0, p.1) == p;
      assert draws == [p.0, p.1] + (DrawsFor(tail) + rest);
      assert draws[2..] == DrawsFor(tail) + rest;
      NotAmong(got, p, tail, picks);
      assert got + [p] + tail == got + picks;
      PicksFollow(tail, rest, got + [p]);
    }
  }

  lemma NotAmong(got: seq<Pick>, p: Pick, tail: seq<Pick>, picks: seq<Pick>)
    requires picks == [p] + tail && NoRepeats(got + picks)
    ensures p !in got
  {
    var all := got + picks;
    forall k | 0 <= k < |got| ensures got[k] != p {
      assert all[k] == got[k] && all[|got|] == p;
    }
  }

  // ----- The deal -----

  /** For any eight different faces and any order of their sixteen cards some draws deal that deck. */
  lemma AnyOrderIsDealt(picks: seq<Pick>, deck: seq<Card>, max: nat) returns (rng: Rng)
    requires |picks| == 8 && NoRepeats(picks) && (forall p :: p in picks ==> PickInRange(p))
    requires |deck| == CARDS && multiset(deck) == multiset(Laid(picks)) && max >= 240
    ensures ValidRng(rng) && rng.max == max && Dealt(rng) == Some(deck)
  {
    var draws := ShuffleReaches(Laid(picks), deck, max, 0);
    assert [] + picks == picks;
    PicksFollow(picks, draws, []);
    rng := Rng(max, DrawsFor(picks) + draws);
  }

  /** Sequences that repeat their values at the same positions repeat them equally often. */
  lemma {:induction false} SameCounts<A, B>(s: seq<A>, t: seq<B>, a: A, b: B)
    requires |s| == |t| && forall i :: 0 <= i < |s| ==> (s[i] == a <==> t[i] == b)
    ensures multiset(s)[a] == multiset(t)[b]
    decreases |s|
  {
    if s == [] {
    } else {
      var n := |s| - 1;
      assert s == s[..n] + [s[n]] && t == t[..n] + [t[n]];
      SameCounts(s[..n], t[..n], a, b);
    }
  }

  /** A freshly dealt card is the one its place on the sheet makes, and its face tells that place. */
  lemma FaceTellsCard(c: Card, d: Card)
    requires JustDealt(c) && JustDealt(d) && FaceOf(c) == FaceOf(d)
    ensures c == d && c == NewCard((c.y, c.x)) && PickInRange((c.y, c.x))
  {
    FacesDiffer((c.y, c.x), (d.y, d.x));
  }

  lemma EachCardTwice(deck: seq<Card>, c: Card)
    requires FreshDeck(deck)
    ensures multiset(deck)[c] == if c in deck then 2 else 0
  {
    if c in deck {
      var f := Faces(deck);
      var k :| 0 <= k < CARDS && deck[k] == c;
      forall i | 0 <= i < CARDS ensures deck[i] == c <==> f[i] == f[k] {
        if f[i] == f[k] {
          FaceTellsCard(deck[i], deck[k]);
        }
      }
      SameCounts(deck, f, c, f[k]);
    }
  }

  function PlacesOf(deck: seq<Card>): (s: seq<Pick>)
    ensures |s| == |deck| && forall i :: 0 <= i < |s| ==> s[i] == (deck[i].y, deck[i].x)
  {
    seq(|deck|, i requires 0 <= i < |deck| => (deck[i].y, deck[i].x))
  }

  lemma EachPlaceTwice(deck: seq<Card>, p: Pick)
    requires FreshDeck(deck) && p in PlacesOf(deck)
    ensures multiset(PlacesOf(deck))[p] == 2 && PickInRange(p) && NewCard(p) in deck
  {
    var s := PlacesOf(deck);
    var k :| 0 <= k < CARDS && s[k] == p;
    FaceTellsCard(deck[k], deck[k]);
    forall i | 0 <= i < CARDS ensures s[i] == p <==> deck[i] == deck[k] {
      FaceTellsCard(deck[i], deck[i]);
    }
    SameCounts(s, deck, p, deck[k]);
    EachCardTwice(deck, deck[k]);
  }

  lemma NoRepeatsCount(s: seq<Pick>, p: Pick)
    requires NoRepeats(s) && p in s
    ensures multiset(s)[p] == 1
  {
    var i :| 0 <= i < |s| && s[i] == p;
    assert s == s[..i] + [p] + s[i + 1..];
    assert multiset(s) == multiset(s[..i]) + multiset{p} + multiset(s[i + 1..]);
    assert p !in s[..i] && p !in s[i + 1..];
  }

  /** The eight different places of a fresh deck. */
  lemma EightPlaces(deck: seq<Card>) returns (picks: seq<Pick>)
    requires FreshDeck(deck)
    ensures |picks| == 8 && NoRepeats(picks) && (forall p :: p in picks ==> PickInRange(p))
    ensures forall p :: p in picks <==> p in PlacesOf(deck)
  {
    var s := PlacesOf(deck);
    picks := FirstSeen(s);
    FirstSeenSpec(s);
    forall p | p in picks ensures PickInRange(p) {
      EachPlaceTwice(deck, p);
    }
    var all, half := multiset(s), multiset(picks);
    forall p ensures all[p] == (half + half)[p] {
      if p in s {
        EachPlaceTwice(deck, p);
        NoRepeatsCount(picks, p);
      }
    }
    assert all == half + half;
    assert |all| == |half + half| == 2 * |half|;
  }

  lemma FreshIsLaid(deck: seq<Card>, picks: seq<Pick>)
    requires FreshDeck(deck) && |picks| == 8 && NoRepeats(picks) && (forall p :: p in picks ==> PickInRange(p))
    requires forall p :: p in picks <==> p in PlacesOf(deck)
    ensures multiset(deck) == multiset(Laid(picks))
  {
    var laid := Laid(picks);
    LaidIsFresh(picks);
    forall c ensures multiset(deck)[c] == multiset(laid)[c] {
      SameCards(deck, picks, c);
      EachCardTwice(deck, c);
      EachCardTwice(laid, c);
    }
  }

  lemma SameCards(deck: seq<Card>, picks: seq<Pick>, c: Card)
    requires FreshDeck(deck) && |picks| == 8 && forall p :: p in picks <==> p in PlacesOf(deck)
    ensures c in deck <==> c in Laid(picks)
  {
    var s, laid := PlacesOf(deck), Laid(picks);
    if c in deck {
      var k :| 0 <= k < CARDS && deck[k] == c;
      FaceTellsCard(c, c);
      assert s[k] in picks;
      var i :| 0 <= i < 8 && picks[i] == s[k];
      assert laid[i] == c;
    }
    if c in laid {
      var i :| 0 <= i < CARDS && laid[i] == c;
      var p := picks[if i < 8 then i else 15 - i];
      assert p in picks;
      EachPlaceTwice(deck, p);
    }
  }

  lemma FreshDeckIsDealt(deck: seq<Card>, max: nat) returns (rng: Rng)
    requires FreshDeck(deck) && max >= 240
    ensures ValidRng(rng) && rng.max == max && Dealt(rng) == Some(deck)
  {
    var picks := EightPlaces(deck);
    FreshIsLaid(deck, picks);
    rng := AnyOrderIsDealt(picks, deck, max);
  }

  /** Exactly the decks that hold eight different faces twice each, face up and untouched, can be dealt. */
  lemma DealtIffFresh(deck: seq<Card>, max: nat)
    requires max >= 240
    ensures (exists rng :: ValidRng(rng) && rng.max == max && Dealt(rng) == Some(deck)) <==> FreshDeck(deck)
  {
    if rng :| ValidRng(rng) && rng.max == max && Dealt(rng) == Some(deck) {
      DealtIsFresh(rng);
    }
    if FreshDeck(deck) {
      var rng := FreshDeckIsDealt(deck, max);
    }
  }
}
