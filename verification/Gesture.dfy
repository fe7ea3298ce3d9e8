/** The mouse gesture recogniser of lab 4: a left stroke, a release, a right stroke, a release. */
module Gesture {
  import opened MousePackets

  /** `counter_exit` and `x_displacement`. */
  datatype G = G(state: int, disp: int)

  const START := G(0, 0)

  /** What the test is asked for: stroke length and tolerance, both unsigned bytes. */
  datatype Task = Task(len: nat, tol: nat)

  predicate OkLeft(p: Packet, t: Task) { p.lb && p.dx + t.tol >= 0 && p.dy + t.tol >= 0 }
  predicate OkRight(p: Packet, t: Task) { p.rb && p.dx + t.tol >= 0 && p.dy - t.tol <= 0 }

  /** One complete packet. */
  function Step(g: G, p: Packet, t: Task): G {
    if p.lb && g.state == 0 then g.(state := 1)
    else if OkLeft(p, t) && g.state == 1 then
      G(if g.disp + p.dx >= t.len then 2 else 1, g.disp + p.dx)
    else if g.state == 1 then G(0, 0)
    else if !p.lb && g.state == 2 then G(3, 0)
    else if p.rb && g.state == 3 then g.(state := 4)
    else if OkRight(p, t) && g.state == 4 then
      G(if g.disp + p.dx >= t.len then 5 else 4, g.disp + p.dx)
    else if g.state == 4 then G(0, 0)
    else if !p.rb && g.state == 5 then g.(state := 6)
    else if g.state == 5 then g.(state := 0)
    else g
  }

  function Run(g: G, h: seq<Packet>, t: Task): G {
    if h == [] then g else Step(Run(g, h[..|h| - 1], t), h[|h| - 1], t)
  }

  lemma RunOne(g: G, h: seq<Packet>, p: Packet, t: Task)
    ensures Run(g, h + [p], t) == Step(Run(g, h, t), p, t)
  {
    assert (h + [p])[..|h|] == h;
  }

  lemma {:induction false} RunConcat(g: G, a: seq<Packet>, b: seq<Packet>, t: Task)
    ensures Run(g, a + b, t) == Run(Run(g, a, t), b, t)
    decreases |b|
  {
    if b == [] {
      assert a + b == a;
    } else {
      var n := |b| - 1;
      assert (a + b)[..|a + b| - 1] == a + b[..n];
      RunConcat(g, a, b[..n], t);
    }
  }

  // ----- What a gesture is -----

  function Sum(s: seq<Packet>): int {
    if s == [] then 0 else Sum(s[..|s| - 1]) + s[|s| - 1].dx
  }

  ghost predicate AllLeft(s: seq<Packet>, t: Task) { forall i :: 0 <= i < |s| ==> OkLeft(s[i], t) }
  ghost predicate AllRight(s: seq<Packet>, t: Task) { forall i :: 0 <= i < |s| ==> OkRight(s[i], t) }
  ghost predicate LeftHeld(s: seq<Packet>) { forall i :: 0 <= i < |s| ==> s[i].lb }
  ghost predicate RightUp(s: seq<Packet>) { forall i :: 0 <= i < |s| ==> !s[i].rb }

  /** Counting from `carry`, the stroke has not yet reached the length, even for a moment. */
  ghost predicate Short(carry: int, s: seq<Packet>, len: int) {
    forall k :: 0 < k <= |s| ==> carry + Sum(s[..k]) < len
  }

  /** Counting from `carry`, the stroke reaches the length with its last packet and not before. */
  ghost predicate Reaches(carry: int, s: seq<Packet>, len: int) {
    s != [] && Short(carry, s[..|s| - 1], len) && carry + Sum(s) >= len
  }

  /** A history cut into what the recogniser took each packet for. `press`, `release`, `press2` and
      `release2` hold one packet once they have been seen. */
  datatype Cut = Cut(before: seq<Packet>, press: seq<Packet>, stroke: seq<Packet>, hold: seq<Packet>,
                     release: seq<Packet>, idle: seq<Packet>, press2: seq<Packet>, stroke2: seq<Packet>,
                     release2: seq<Packet>)

  function Left(c: Cut): seq<Packet> { c.press + c.stroke + c.hold + c.release }

  function Right(c: Cut): seq<Packet> { c.idle + c.press2 + c.stroke2 + c.release2 }

  function Joined(c: Cut): seq<Packet> { c.before + Left(c) + Right(c) }

  ghost predicate LeftDone(c: Cut, carry: int, t: Task) {
    && |c.press| == 1 && c.press[0].lb
    && AllLeft(c.stroke, t) && Reaches(carry, c.stroke, t.len)
    && LeftHeld(c.hold)
    && |c.release| == 1 && !c.release[0].lb
  }

  ghost predicate RightDone(c: Cut, t: Task) {
    && RightUp(c.idle)
    && |c.press2| == 1 && c.press2[0].rb
    && AllRight(c.stroke2, t) && Reaches(0, c.stroke2, t.len)
    && |c.release2| == 1 && !c.release2[0].rb
  }

  /** A complete gesture after a history that left the recogniser idle. */
  ghost predicate IsGesture(c: Cut, t: Task) {
    var g := Run(START, c.before, t);
    g.state == 0 && LeftDone(c, g.disp, t) && RightDone(c, t)
  }

  // ----- Every gesture is accepted -----

  lemma {:induction false} StrokeRuns(g: G, s: seq<Packet>, t: Task)
    requires (g.state == 1 && AllLeft(s, t)) || (g.state == 4 && AllRight(s, t))
    requires Short(g.disp, s, t.len)
    ensures Run(g, s, t) == G(g.state, g.disp + Sum(s))
    decreases |s|
  {
    if s == [] {
    } else {
      var n := |s| - 1;
      forall k | 0 < k <= n ensures g.disp + Sum(s[..n][..k]) < t.len {
        assert s[..n][..k] == s[..k];
      }
      StrokeRuns(g, s[..n], t);
      assert s[..|s|] == s;
    }
  }

  lemma StrokeEnds(g: G, s: seq<Packet>, t: Task)
    requires (g.state == 1 && AllLeft(s, t)) || (g.state == 4 && AllRight(s, t))
    requires Reaches(g.disp, s, t.len)
    ensures Run(g, s, t) == G(g.state + 1, g.disp + Sum(s))
  {
    StrokeRuns(g, s[..|s| - 1], t);
  }

  lemma {:induction false} WaitingStays(g: G, s: seq<Packet>, t: Task)
    requires (g.state == 2 && LeftHeld(s)) || (g.state == 3 && RightUp(s))
    ensures Run(g, s, t) == g
    decreases |s|
  {
    if s == [] {
    } else {
      WaitingStays(g, s[..|s| - 1], t);
    }
  }

  lemma OneStep(g: G, s: seq<Packet>, t: Task)
    requires |s| == 1
    ensures Run(g, s, t) == Step(g, s[0], t)
  {
    assert s[..0] == [];
  }

  lemma LeftRuns(g: G, c: Cut, t: Task)
    requires g.state == 0 && LeftDone(c, g.disp, t)
    ensures Run(g, Left(c), t) == G(3, 0)
  {
    RunConcat(g, c.press + c.stroke + c.hold, c.release, t);
    RunConcat(g, c.press + c.stroke, c.hold, t);
    RunConcat(g, c.press, c.stroke, t);
    OneStep(g, c.press, t);
    var g1 := G(1, g.disp);
    StrokeEnds(g1, c.stroke, t);
    var g2 := Run(g1, c.stroke, t);
    WaitingStays(g2, c.hold, t);
    OneStep(g2, c.release, t);
  }

  lemma RightRuns(g: G, c: Cut, t: Task)
    requires g == G(3, 0) && RightDone(c, t)
    ensures Run(g, Right(c), t).state == 6
  {
    RunConcat(g, c.idle + c.press2 + c.stroke2, c.release2, t);
    RunConcat(g, c.idle + c.press2, c.stroke2, t);
    RunConcat(g, c.idle, c.press2, t);
    WaitingStays(g, c.idle, t);
    OneStep(g, c.press2, t);
    var g1 := G(4, 0);
    StrokeEnds(g1, c.stroke2, t);
    OneStep(Run(g1, c.stroke2, t), c.release2, t);
  }

  lemma GestureAccepted(c: Cut, t: Task)
    requires IsGesture(c, t)
    ensures Run(START, Joined(c), t).state == 6
  {
    RunConcat(START, c.before + Left(c), Right(c), t);
    RunConcat(START, c.before, Left(c), t);
    LeftRuns(Run(START, c.before, t), c, t);
    RightRuns(G(3, 0), c, t);
  }

  // ----- Everything accepted is a gesture -----

  ghost predicate Stroking(c: Cut, carry: int, t: Task) {
    |c.press| == 1 && c.press[0].lb && AllLeft(c.stroke, t) && Short(carry, c.stroke, t.len)
  }

  ghost predicate Holding(c: Cut, carry: int, t: Task) {
    && |c.press| == 1 && c.press[0].lb
    && AllLeft(c.stroke, t) && Reaches(carry, c.stroke, t.len) && LeftHeld(c.hold)
  }

  /** How the cut accounts for the state the recogniser is in. */
  ghost predicate Explains(c: Cut, g: G, t: Task) {
    var g0 := Run(START, c.before, t);
    && g0.state == 0 && 0 <= g.state <= 6
    && (g.state <= 0 ==> c.press == [] && g == g0)
    && (g.state == 1 ==> Stroking(c, g0.disp, t) && g.disp == g0.disp + Sum(c.stroke))
    && (g.state <= 1 ==> c.hold == [])
    && (g.state == 0 ==> c.stroke == [])
    && (g.state == 2 ==> Holding(c, g0.disp, t))
    && (g.state <= 2 ==> c.release == [] && c.idle == [])
    && (g.state >= 3 ==> LeftDone(c, g0.disp, t) && RightUp(c.idle))
    && (g.state == 3 ==> g.disp == 0)
    && (g.state <= 3 ==> c.press2 == [] && c.stroke2 == [])
    && (g.state >= 4 ==> |c.press2| == 1 && c.press2[0].rb && AllRight(c.stroke2, t))
    && (g.state == 4 ==> Short(0, c.stroke2, t.len) && g.disp == Sum(c.stroke2))
    && (g.state >= 5 ==> Reaches(0, c.stroke2, t.len))
    && (g.state <= 5 ==> c.release2 == [])
    && (g.state == 6 ==> |c.release2| == 1 && !c.release2[0].rb)
  }

  lemma StrokeGrows(carry: int, s: seq<Packet>, p: Packet, len: int)
    requires Short(carry, s, len)
    ensures Sum(s + [p]) == Sum(s) + p.dx
    ensures if carry + Sum(s) + p.dx >= len then Reaches(carry, s + [p], len) else Short(carry, s + [p], len)
  {
    var r := s + [p];
    assert r[..|s|] == s;
    forall k | 0 < k <= |s| ensures r[..k] == s[..k] {}
    assert r[..|r|] == r;
  }

  function Idle(h: seq<Packet>): Cut { Cut(h, [], [], [], [], [], [], [], []) }

  /** The cut with one more packet of the left half, which goes where the state says. */
  function MoreLeft(c: Cut, state: int, p: Packet): Cut {
    if state == 0 then c.(press := c.press + [p])
    else if state == 1 then c.(stroke := c.stroke + [p])
    else if p.lb then c.(hold := c.hold + [p])
    else c.(release := c.release + [p])
  }

  function MoreRight(c: Cut, state: int, p: Packet): Cut {
    if state == 3 && !p.rb then c.(idle := c.idle + [p])
    else if state == 3 then c.(press2 := c.press2 + [p])
    else if state == 4 then c.(stroke2 := c.stroke2 + [p])
    else c.(release2 := c.release2 + [p])
  }

  lemma MoreLeftJoins(c: Cut, g: G, p: Packet, t: Task)
    requires Explains(c, g, t) && g.state <= 2
    ensures Joined(MoreLeft(c, g.state, p)) == Joined(c) + [p]
  {
    assert Left(MoreLeft(c, g.state, p)) == Left(c) + [p];
    assert Right(c) == [];
  }

  lemma MoreRightJoins(c: Cut, g: G, p: Packet, t: Task)
    requires Explains(c, g, t) && 3 <= g.state <= 5
    ensures Joined(MoreRight(c, g.state, p)) == Joined(c) + [p]
  {
    assert Right(MoreRight(c, g.state, p)) == Right(c) + [p];
  }

  lemma IdleExplains(h: seq<Packet>, t: Task)
    requires Run(START, h, t).state == 0
    ensures Joined(Idle(h)) == h && Explains(Idle(h), Run(START, h, t), t)
  {
  }

  lemma MoreLeftExplains(c: Cut, g: G, p: Packet, t: Task)
    requires Explains(c, g, t) && g.state <= 2 && Step(g, p, t).state != 0
    ensures Explains(MoreLeft(c, g.state, p), Step(g, p, t), t)
  {
    if g.state == 1 {
      StrokeGrows(Run(START, c.before, t).disp, c.stroke, p, t.len);
    }
  }

  lemma MoreRightExplains(c: Cut, g: G, p: Packet, t: Task)
    requires Explains(c, g, t) && 3 <= g.state <= 5 && Step(g, p, t).state != 0
    ensures Explains(MoreRight(c, g.state, p), Step(g, p, t), t)
  {
    if g.state == 4 {
      StrokeGrows(0, c.stroke2, p, t.len);
    }
  }

  lemma {:induction false} Explain(h: seq<Packet>, t: Task) returns (c: Cut)
    requires h == [] || Run(START, h[..|h| - 1], t).state != 6
    ensures Joined(c) == h && Explains(c, Run(START, h, t), t)
  {
    if h == [] {
      c := Cut([], [], [], [], [], [], [], [], []);
    } else {
      var n := |h| - 1;
      var c' := Explain(h[..n], t);
      var g, p := Run(START, h[..n], t), h[n];
      assert h == h[..n] + [p];
      if Step(g, p, t).state == 0 {
        c := Idle(h);
        IdleExplains(h, t);
      } else if g.state <= 2 {
        c := MoreLeft(c', g.state, p);
        MoreLeftJoins(c', g, p, t);
        MoreLeftExplains(c', g, p, t);
      } else {
        c := MoreRight(c', g.state, p);
        MoreRightJoins(c', g, p, t);
        MoreRightExplains(c', g, p, t);
      }
    }
  }

  /** The packet loop of the test ends with this history. */
  ghost predicate Accepts(h: seq<Packet>, t: Task) {
    h != [] && Run(START, h, t).state == 6 && Run(START, h[..|h| - 1], t).state != 6
  }

  ghost predicate EndsInGesture(h: seq<Packet>, t: Task) {
    exists c: Cut :: IsGesture(c, t) && Joined(c) == h
  }

  /** The recogniser stops on a history if and only if the history ends in a gesture begun when the
      recogniser was idle: left press, a left stroke that reaches the length from the carried
      displacement, left release, right press, a right stroke that reaches it from zero, right release. */
  lemma AcceptsIffGesture(h: seq<Packet>, t: Task)
    requires h == [] || Run(START, h[..|h| - 1], t).state != 6
    ensures Accepts(h, t) <==> EndsInGesture(h, t)
  {
    if Accepts(h, t) {
      var c := Explain(h, t);
      assert IsGesture(c, t);
    }
    if EndsInGesture(h, t) {
      var c: Cut :| IsGesture(c, t) && Joined(c) == h;
      GestureAccepted(c, t);
    }
  }

  // ----- The carried displacement -----

  /** Between gestures the displacement is zero, or what a fall from state 5 left of a complete stroke. */
  lemma {:induction false} CarryIsZeroOrLong(h: seq<Packet>, t: Task)
    ensures var g := Run(START, h, t);
      && (g.state == 0 ==> g.disp == 0 || g.disp >= t.len)
      && (g.state == 5 ==> g.disp >= t.len)
    decreases |h|
  {
    if h == [] {
    } else {
      CarryIsZeroOrLong(h[..|h| - 1], t);
    }
  }

  function Moved(lb: bool, rb: bool, dx: int): Packet { Packet(lb, rb, false, dx, 0, false, false) }

  /** A gesture whose left stroke is the single step `dx`. */
  function ShortGesture(before: seq<Packet>, dx: int, len: int): Cut {
    Cut(before, [Moved(true, false, 0)], [Moved(true, false, dx)], [], [Moved(false, false, 0)],
        [], [Moved(false, true, 0)], [Moved(false, true, len)], [Moved(false, false, 0)])
  }

  lemma SumOfOne(p: Packet)
    ensures Sum([p]) == p.dx
  {
    assert [p][..0] == [];
  }

  lemma ShortGestureIsOne(before: seq<Packet>, dx: int, t: Task)
    requires var g := Run(START, before, t); g.state == 0 && g.disp + dx >= t.len && dx + t.tol >= 0
    ensures var c := ShortGesture(before, dx, t.len); IsGesture(c, t) && Sum(c.stroke) == dx
  {
    var c := ShortGesture(before, dx, t.len);
    SumOfOne(c.stroke[0]);
    SumOfOne(c.stroke2[0]);
    assert c.stroke[..0] == [] && c.stroke2[..0] == [];
  }

  /** After this history every gesture has a left stroke as long as asked for. */
  ghost predicate NextStrokeIsLong(before: seq<Packet>, t: Task) {
    forall c: Cut :: c.before == before && IsGesture(c, t) ==> Sum(c.stroke) >= t.len
  }

  /** When the recogniser is idle, the next accepted left stroke is sure to be long enough if and only if
      no displacement is carried over, or nothing was asked for and nothing is tolerated. */
  lemma StrokeIsLongIff(before: seq<Packet>, t: Task)
    requires Run(START, before, t).state == 0
    ensures NextStrokeIsLong(before, t) <==> Run(START, before, t).disp == 0 || (t.len == 0 && t.tol == 0)
  {
    CarryIsZeroOrLong(before, t);
    var carry := Run(START, before, t).disp;
    if t.len == 0 && t.tol == 0 {
      forall c: Cut | c.before == before && IsGesture(c, t) ensures Sum(c.stroke) >= t.len {
        ForwardSum(c.stroke, t);
      }
    } else if carry != 0 {
      var dx := if t.len > 0 then 0 else -1;
      ShortGestureIsOne(before, dx, t);
      assert Sum(ShortGesture(before, dx, t.len).stroke) < t.len;
    }
  }

  /** With no tolerance a left stroke never goes back. */
  lemma {:induction false} ForwardSum(s: seq<Packet>, t: Task)
    requires AllLeft(s, t) && t.tol == 0
    ensures Sum(s) >= 0
    decreases |s|
  {
    if s == [] {
    } else {
      ForwardSum(s[..|s| - 1], t);
    }
  }

  /** The recogniser fell from state 5 back to 0 at some point; that reset keeps the displacement. */
  ghost predicate FellBack(h: seq<Packet>, t: Task) {
    exists k :: 0 < k <= |h| && Run(START, h[..k - 1], t).state == 5 && Run(START, h[..k], t).state == 0
  }

  lemma FellBackLasts(h: seq<Packet>, n: nat, t: Task)
    requires n <= |h|
    ensures FellBack(h[..n], t) ==> FellBack(h, t)
  {
    if FellBack(h[..n], t) {
      var k :| 0 < k <= n && Run(START, h[..n][..k - 1], t).state == 5 && Run(START, h[..n][..k], t).state == 0;
      assert h[..n][..k] == h[..k] && h[..n][..k - 1] == h[..k - 1];
    }
  }

  lemma {:induction false} NoCarry(h: seq<Packet>, t: Task)
    requires !FellBack(h, t)
    ensures Run(START, h, t).state == 0 ==> Run(START, h, t).disp == 0
    decreases |h|
  {
    if h == [] {
    } else {
      var n := |h| - 1;
      assert h[..|h|] == h;
      FellBackLasts(h, n, t);
      NoCarry(h[..n], t);
      assert !(Run(START, h[..n], t).state == 5 && Run(START, h, t).state == 0);
    }
  }

  /** In particular a run without such a fall asks for the full stroke. */
  lemma StrokeIsLongEnough(c: Cut, t: Task)
    requires IsGesture(c, t) && !FellBack(c.before, t)
    ensures Sum(c.stroke) >= t.len
  {
    NoCarry(c.before, t);
  }

  /** One complete gesture whose right button is not released at once: the recogniser falls back with the
      whole right stroke in its displacement. */
  function Fall(len: int): seq<Packet> {
    [Moved(true, false, 0), Moved(true, false, len), Moved(false, false, 0),
     Moved(false, true, 0), Moved(false, true, len), Moved(false, true, 0)]
  }

  lemma FallCarries(t: Task)
    ensures Run(START, Fall(t.len), t) == G(0, t.len)
  {
    var f := Fall(t.len);
    var f5, f4, f3, f2, f1 := f[..5], f[..4], f[..3], f[..2], f[..1];
    assert f5[..4] == f4 && f4[..3] == f3 && f3[..2] == f2 && f2[..1] == f1 && f1[..0] == [];
    assert Run(START, f1, t) == G(1, 0);
    assert Run(START, f2, t) == G(2, t.len);
    assert Run(START, f3, t) == G(3, 0);
    assert Run(START, f4, t) == G(4, 0);
    assert Run(START, f5, t) == G(5, t.len);
  }

  /** For every positive length: after such a fall a left stroke that does not move at all is accepted. */
  lemma CarryShortensStroke(t: Task)
    requires t.len > 0
    ensures var c := ShortGesture(Fall(t.len), 0, t.len);
      IsGesture(c, t) && Sum(c.stroke) == 0 && EndsInGesture(Joined(c), t)
  {
    FallCarries(t);
    ShortGestureIsOne(Fall(t.len), 0, t);
  }

  // ----- In terms of buttons and deltas -----

  function SumY(s: seq<Packet>): int {
    if s == [] then 0 else SumY(s[..|s| - 1]) + s[|s| - 1].dy
  }

  /** Left button down, and neither left nor down by more than the tolerance. */
  ghost predicate LeftStroke(s: seq<Packet>, t: Task) {
    forall i :: 0 <= i < |s| ==> s[i].lb && s[i].dx >= -(t.tol as int) && s[i].dy >= -(t.tol as int)
  }

  /** Right button down, and neither left nor up by more than the tolerance. */
  ghost predicate RightStroke(s: seq<Packet>, t: Task) {
    forall i :: 0 <= i < |s| ==> s[i].rb && s[i].dx >= -(t.tol as int) && s[i].dy <= t.tol
  }

  /** The stroke gets from `carry` to `len` in its last packet. */
  ghost predicate Attains(carry: int, s: seq<Packet>, len: int) {
    s != [] && carry + Sum(s) >= len && forall k :: 0 < k < |s| ==> carry + Sum(s[..k]) < len
  }

  /** A gesture in these terms: press, stroke, hold, release on the left, then on the right. */
  ghost predicate TwoStrokes(c: Cut, t: Task) {
    var idle := Run(START, c.before, t);
    && idle.state == 0
    && |c.press| == |c.release| == |c.press2| == |c.release2| == 1
    && c.press[0].lb && LeftStroke(c.stroke, t) && Attains(idle.disp, c.stroke, t.len)
    && (forall i :: 0 <= i < |c.hold| ==> c.hold[i].lb) && !c.release[0].lb
    && (forall i :: 0 <= i < |c.idle| ==> !c.idle[i].rb)
    && c.press2[0].rb && RightStroke(c.stroke2, t) && Attains(0, c.stroke2, t.len) && !c.release2[0].rb
  }

  lemma AttainsIsReaches(carry: int, s: seq<Packet>, len: int)
    ensures Attains(carry, s, len) <==> Reaches(carry, s, len)
  {
    if s != [] {
      var front := s[..|s| - 1];
      if Attains(carry, s, len) {
        forall k | 0 < k <= |front| ensures carry + Sum(front[..k]) < len {
          assert front[..k] == s[..k];
        }
      }
      if Reaches(carry, s, len) {
        forall k | 0 < k < |s| ensures carry + Sum(s[..k]) < len {
          assert front[..k] == s[..k];
        }
      }
    }
  }

  lemma StrokesAlike(s: seq<Packet>, t: Task)
    ensures LeftStroke(s, t) <==> AllLeft(s, t)
    ensures RightStroke(s, t) <==> AllRight(s, t)
  {
    if LeftStroke(s, t) {
      forall i | 0 <= i < |s| ensures OkLeft(s[i], t) {
        assert s[i].lb;
      }
    }
    if AllLeft(s, t) {
      forall i | 0 <= i < |s| ensures s[i].lb && s[i].dx >= -(t.tol as int) && s[i].dy >= -(t.tol as int) {
        assert OkLeft(s[i], t);
      }
    }
    if RightStroke(s, t) {
      forall i | 0 <= i < |s| ensures OkRight(s[i], t) {
        assert s[i].rb;
      }
    }
    if AllRight(s, t) {
      forall i | 0 <= i < |s| ensures s[i].rb && s[i].dx >= -(t.tol as int) && s[i].dy <= t.tol {
        assert OkRight(s[i], t);
      }
    }
  }

  lemma GestureIsTwoStrokes(c: Cut, t: Task)
    ensures IsGesture(c, t) <==> TwoStrokes(c, t)
  {
    StrokesAlike(c.stroke, t);
    StrokesAlike(c.stroke2, t);
    AttainsIsReaches(Run(START, c.before, t).disp, c.stroke, t.len);
    AttainsIsReaches(0, c.stroke2, t.len);
  }

  /** The recogniser stops on a history if and only if that ends in two strokes within the tolerance. */
  lemma AcceptsIffTwoStrokes(h: seq<Packet>, t: Task)
    requires h == [] || Run(START, h[..|h| - 1], t).state != 6
    ensures Run(START, h, t).state == 6 <==> exists c :: Joined(c) == h && TwoStrokes(c, t)
  {
    AcceptsIffGesture(h, t);
    if c :| Joined(c) == h && IsGesture(c, t) {
      GestureIsTwoStrokes(c, t);
    }
    if c :| Joined(c) == h && TwoStrokes(c, t) {
      GestureIsTwoStrokes(c, t);
    }
  }

  lemma {:induction false} StrokeTotals(s: seq<Packet>, t: Task)
    ensures LeftStroke(s, t) ==> Sum(s) >= -((t.tol * |s|) as int) && SumY(s) >= -((t.tol * |s|) as int)
    ensures RightStroke(s, t) ==> Sum(s) >= -((t.tol * |s|) as int) && SumY(s) <= t.tol * |s|
    decreases |s|
  {
    if s == [] {
    } else {
      var n := |s| - 1;
      StrokeTotals(s[..n], t);
      assert t.tol * |s| == t.tol * n + t.tol;
    }
  }

  /** So in every gesture the left stroke falls, and the right one rises, by at most the tolerance a packet. */
  lemma GestureStaysInside(c: Cut, t: Task)
    requires IsGesture(c, t)
    ensures LeftStroke(c.stroke, t) && SumY(c.stroke) >= -((t.tol * |c.stroke|) as int)
    ensures RightStroke(c.stroke2, t) && SumY(c.stroke2) <= t.tol * |c.stroke2|
    ensures Sum(c.stroke2) >= t.len
  {
    GestureIsTwoStrokes(c, t);
    StrokeTotals(c.stroke, t);
    StrokeTotals(c.stroke2, t);
  }

  // ----- The loop -----

  class Recogniser {
    var counterExit: int
    var xDisplacement: int

    ghost function Now(): G reads this { G(counterExit, xDisplacement) }

    constructor ()
      ensures Now() == START
    {
      counterExit, xDisplacement := 0, 0;
    }

    /** The branch taken when a packet is complete. */
    method OnPacket(p: Packet, t: Task)
      modifies this
      ensures Now() == Step(old(Now()), p, t)
    {
      if p.lb && counterExit == 0 {
        counterExit := 1;
      } else if p.lb && p.dx + t.tol >= 0 && p.dy + t.tol >= 0 && counterExit == 1 {
        xDisplacement := xDisplacement + p.dx;
        if xDisplacement >= t.len {
          counterExit := 2;
        }
      } else if counterExit == 1 {
        counterExit := 0;
        xDisplacement := 0;
      } else if !p.lb && counterExit == 2 {
        counterExit := 3;
        xDisplacement := 0;
      } else if p.rb && counterExit == 3 {
        counterExit := 4;
      } else if p.rb && p.dx + t.tol >= 0 && p.dy - t.tol <= 0 && counterExit == 4 {
        xDisplacement := xDisplacement + p.dx;
        if xDisplacement >= t.len {
          counterExit := 5;
        }
      } else if counterExit == 4 {
        xDisplacement := 0;
        counterExit := 0;
      } else if !p.rb && counterExit == 5 {
        if p.lb {
          counterExit := 0;
        }
        counterExit := 6;
      } else if counterExit == 5 {
        counterExit := 0;
      }
    }

    /** `mouse_test_gesture`: consumes packets until the gesture is made, or the stream ends first. */
    method Recognise(h: seq<Packet>, t: Task) returns (used: nat)
      requires Now() == START
      modifies this
      ensures used <= |h|
      ensures counterExit == 6 ==> EndsInGesture(h[..used], t)
      ensures counterExit != 6 ==> used == |h| && !EndsInGesture(h, t)
    {
      used := 0;
      while counterExit != 6 && used < |h|
        invariant used <= |h|
        invariant Now() == Run(START, h[..used], t)
        invariant used > 0 ==> Run(START, h[..used][..used - 1], t).state != 6
        decreases |h| - used
      {
        assert h[..used + 1] == h[..used] + [h[used]] && h[..used + 1][..used] == h[..used];
        RunOne(START, h[..used], h[used], t);
        OnPacket(h[used], t);
        used := used + 1;
      }
      assert used == |h| ==> h[..used] == h;
      AcceptsIffGesture(h[..used], t);
    }
  }
}
