/** The memory game as a player knows it: cards are revealed one at a time, in pairs, and a wrong
    pair costs a life. No frames, no widths, no animation. */
module Rules {
  import opened Cards

  const LIVES := 5

  /** `picked` holds the one revealed card that waits for its partner, if there is one. */
  datatype Memory = Memory(faces: seq<Face>, matched: set<int>, picked: set<int>, lives: int)

  ghost predicate CanReveal(m: Memory, c: int) {
    |m.faces| == CARDS && 0 <= c < CARDS && c !in m.matched && c !in m.picked && m.lives > 0
  }

  ghost predicate Matches(m: Memory, c: int)
    requires 0 <= c < |m.faces|
  {
    exists o :: o in m.picked && 0 <= o < |m.faces| && m.faces[o] == m.faces[c]
  }

  ghost function Reveal(m: Memory, c: int): Memory
    requires 0 <= c < |m.faces|
  {
    if m.picked == {} then m.(picked := {c})
    else if Matches(m, c) then m.(matched := m.matched + m.picked + {c}, picked := {})
    else m.(lives := m.lives - 1, picked := {})
  }

  ghost function NewGame(faces: seq<Face>): Memory {
    Memory(faces, {}, {}, LIVES)
  }

  ghost predicate InDeck(t: seq<int>) {
    forall i :: 0 <= i < |t| ==> 0 <= t[i] < CARDS
  }

  /** The game after the reveals `t`. */
  ghost function Play(faces: seq<Face>, t: seq<int>): (m: Memory)
    requires |faces| == CARDS && InDeck(t)
    ensures m.faces == faces
  {
    if t == [] then NewGame(faces) else Reveal(Play(faces, t[..|t| - 1]), t[|t| - 1])
  }

  /** Every reveal was of a card that could be revealed. */
  ghost predicate Legal(faces: seq<Face>, t: seq<int>)
    requires |faces| == CARDS && InDeck(t)
  {
    t != [] ==> Legal(faces, t[..|t| - 1]) && CanReveal(Play(faces, t[..|t| - 1]), t[|t| - 1])
  }

  /** How many of the first `k` pairs t[0]t[1], t[2]t[3], ... show equal (or unequal) faces. */
  ghost function PairsUpTo(faces: seq<Face>, t: seq<int>, k: nat, equal: bool): nat
    requires |faces| == CARDS && InDeck(t) && 2 * k <= |t|
  {
    if k == 0 then 0
    else PairsUpTo(faces, t, k - 1, equal) +
         if (faces[t[2 * k - 2]] == faces[t[2 * k - 1]]) == equal then 1 else 0
  }

  ghost function PairsThat(faces: seq<Face>, t: seq<int>, equal: bool): nat
    requires |faces| == CARDS && InDeck(t)
  {
    PairsUpTo(faces, t, |t| / 2, equal)
  }

  lemma {:induction false} PairsOfPrefix(faces: seq<Face>, t: seq<int>, n: nat, k: nat, equal: bool)
    requires |faces| == CARDS && InDeck(t) && n <= |t| && 2 * k <= n
    ensures PairsUpTo(faces, t[..n], k, equal) == PairsUpTo(faces, t, k, equal)
    decreases k
  {
    if k == 0 {
    } else {
      PairsOfPrefix(faces, t, n, k - 1, equal);
    }
  }

  /** The books of a game after `n` reveals, the last of card `last`. */
  ghost predicate Tallied(m: Memory, right: nat, wrong: nat, n: nat, last: int) {
    && m.lives == LIVES - wrong && m.lives >= 0
    && |m.matched| == 2 * right
    && m.picked == (if n % 2 == 1 then {last} else {})
    && m.matched !! m.picked
    && (forall i :: i in m.matched ==> 0 <= i < CARDS)
    && right + wrong == n / 2
  }

  /** The first card of a pair only waits. */
  lemma TallyFirst(m: Memory, right: nat, wrong: nat, n: nat, last: int, c: int)
    requires Tallied(m, right, wrong, n, last) && n % 2 == 0 && CanReveal(m, c)
    ensures Tallied(Reveal(m, c), right, wrong, n + 1, c)
  {
  }

  /** The second one resolves it. */
  lemma TallySecond(m: Memory, right: nat, wrong: nat, n: nat, o: int, c: int)
    requires Tallied(m, right, wrong, n, o) && n % 2 == 1 && CanReveal(m, c) && 0 <= o < CARDS
    ensures if m.faces[o] == m.faces[c] then Tallied(Reveal(m, c), right + 1, wrong, n + 1, c)
            else Tallied(Reveal(m, c), right, wrong + 1, n + 1, c)
  {
    assert o in m.picked;
    assert m.matched + m.picked + {c} == m.matched + {o, c};
    assert |m.matched + {o, c}| == |m.matched| + |{o, c}|;
  }

  lemma PairAdds(faces: seq<Face>, t: seq<int>, equal: bool)
    requires |faces| == CARDS && InDeck(t) && |t| % 2 == 0 && t != []
    ensures PairsThat(faces, t, equal) == PairsThat(faces, t[..|t| - 1], equal) +
            if (faces[t[|t| - 2]] == faces[t[|t| - 1]]) == equal then 1 else 0
  {
    PairsOfPrefix(faces, t, |t| - 1, |t| / 2 - 1, equal);
  }

  ghost predicate Counts(faces: seq<Face>, t: seq<int>)
    requires |faces| == CARDS && InDeck(t)
  {
    Tallied(Play(faces, t), PairsThat(faces, t, true), PairsThat(faces, t, false), |t|,
            if t == [] then 0 else t[|t| - 1])
  }

  lemma CountsFirst(faces: seq<Face>, t: seq<int>, before: seq<int>, c: int)
    requires |faces| == CARDS && InDeck(t) && Legal(faces, t) && t == before + [c] && |t| % 2 == 1
    requires InDeck(before) && Counts(faces, before)
    ensures Counts(faces, t)
  {
    assert t[..|t| - 1] == before;
    TallyFirst(Play(faces, before), PairsThat(faces, before, true), PairsThat(faces, before, false), |before|,
               if before == [] then 0 else before[|before| - 1], c);
    PairsOfPrefix(faces, t, |before|, |t| / 2, true);
    PairsOfPrefix(faces, t, |before|, |t| / 2, false);
  }

  lemma CountsSecond(faces: seq<Face>, t: seq<int>, before: seq<int>, c: int)
    requires |faces| == CARDS && InDeck(t) && Legal(faces, t) && t == before + [c] && |t| % 2 == 0
    requires InDeck(before) && Counts(faces, before)
    ensures Counts(faces, t)
  {
    assert t[..|t| - 1] == before;
    TallySecond(Play(faces, before), PairsThat(faces, before, true), PairsThat(faces, before, false), |before|,
                t[|t| - 2], c);
    PairAdds(faces, t, true);
    PairAdds(faces, t, false);
  }

  /** Lives are five minus the wrong pairs, and two cards are matched for every right pair. */
  lemma {:induction false} PlayCountsPairs(faces: seq<Face>, t: seq<int>)
    requires |faces| == CARDS && InDeck(t) && Legal(faces, t)
    ensures Counts(faces, t)
  {
    if t == [] {
    } else {
      var before, c := t[..|t| - 1], t[|t| - 1];
      PlayCountsPairs(faces, before);
      if |t| % 2 == 1 {
        CountsFirst(faces, t, before, c);
      } else {
        CountsSecond(faces, t, before, c);
      }
    }
  }

  /** What a game still has to give: unmatched pairs plus lives. */
  ghost function Potential(m: Memory): int {
    8 - |m.matched| / 2 + m.lives
  }

  ghost function Positions(n: nat): (s: set<int>)
    ensures |s| == n && forall i :: i in s <==> 0 <= i < n
  {
    if n == 0 then {} else Positions(n - 1) + {n - 1}
  }

  lemma SubsetOfDeck(s: set<int>, n: nat)
    requires forall i :: i in s ==> 0 <= i < n
    ensures |s| <= n
  {
    var all := Positions(n);
    assert all == s + (all - s);
  }

  /** A game is never lost with every card matched. */
  lemma LostMeansUnmatched(faces: seq<Face>, t: seq<int>)
    requires |faces| == CARDS && InDeck(t) && Legal(faces, t) && Play(faces, t).lives == 0
    ensures |Play(faces, t).matched| < CARDS
    decreases |t|
  {
    PlayCountsPairs(faces, t);
    var before, c := t[..|t| - 1], t[|t| - 1];
    var m := Play(faces, before);
    PlayCountsPairs(faces, before);
    assert m.lives > 0 && Play(faces, t).matched == m.matched;
    SubsetOfDeck(m.matched + {c}, CARDS);
  }

  /** Every resolved pair uses up one. */
  lemma PotentialPositive(faces: seq<Face>, t: seq<int>)
    requires |faces| == CARDS && InDeck(t) && Legal(faces, t)
    ensures Potential(Play(faces, t)) == 13 - |t| / 2 >= 1
  {
    PlayCountsPairs(faces, t);
    SubsetOfDeck(Play(faces, t).matched, CARDS);
    if Play(faces, t).lives == 0 {
      LostMeansUnmatched(faces, t);
    }
  }

  /** A game resolves at most twelve pairs. */
  lemma AtMostTwelvePairs(faces: seq<Face>, t: seq<int>)
    requires |faces| == CARDS && InDeck(t) && Legal(faces, t)
    ensures |t| / 2 <= 12
  {
    PotentialPositive(faces, t);
  }
}
