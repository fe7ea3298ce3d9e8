/** The mouse pointer of the game: `update_mouse_position` on the 800x600 screen. */
module Pointer {
  import opened Cards

  /** C division by two: it truncates toward zero. */
  function Half(x: int): int {
    if x >= 0 then x / 2 else -((-x) / 2)
  }

  function MoveX(mx: int, dx: int): int {
    if mx + dx < 0 then 0
    else if mx + dx >= X_RESOLUTION then X_RESOLUTION - 15
    else mx + Half(dx)
  }

  /** The lower edge is tested with the sign of the upper one: `my + dy`, although the pointer moves by -dy. */
  function MoveY(my: int, dy: int): int {
    if my - dy < 0 then 0
    else if my + dy >= Y_RESOLUTION then Y_RESOLUTION - 15
    else my - Half(dy)
  }

  /** Inside the screen the pointer goes half the way, rounded toward where it comes from; past an edge it
      is put on column 0 or 785. */
  lemma MoveXHalves(mx: int, dx: int)
    ensures var d := MoveX(mx, dx) - mx;
      if mx + dx < 0 then MoveX(mx, dx) == 0
      else if mx + dx >= 800 then MoveX(mx, dx) == 785
      else 2 * d == dx || (dx > 0 && 2 * d == dx - 1) || (dx < 0 && 2 * d == dx + 1)
  {
  }

  /** Likewise upwards and downwards, with the rows counted down and the lower edge tested upwards. */
  lemma MoveYHalves(my: int, dy: int)
    ensures var d := my - MoveY(my, dy);
      if my - dy < 0 then MoveY(my, dy) == 0
      else if my + dy >= 600 then MoveY(my, dy) == 585
      else 2 * d == dy || (dy > 0 && 2 * d == dy - 1) || (dy < 0 && 2 * d == dy + 1)
  {
  }

  function FollowX(mx: int, dxs: seq<int>): int {
    if dxs == [] then mx else MoveX(FollowX(mx, dxs[..|dxs| - 1]), dxs[|dxs| - 1])
  }

  function FollowY(my: int, dys: seq<int>): int {
    if dys == [] then my else MoveY(FollowY(my, dys[..|dys| - 1]), dys[|dys| - 1])
  }

  predicate NineBit(ds: seq<int>) {
    forall i :: 0 <= i < |ds| ==> -256 <= ds[i] < 256
  }

  /** The pointer never leaves the screen sideways, whatever it is told. */
  lemma {:induction false} StaysOnScreenX(mx: int, dxs: seq<int>)
    requires 0 <= mx < X_RESOLUTION
    ensures 0 <= FollowX(mx, dxs) < X_RESOLUTION
  {
    if dxs == [] {
    } else {
      StaysOnScreenX(mx, dxs[..|dxs| - 1]);
    }
  }

  /** Downwards it can run off the screen, but never past row 983. */
  lemma {:induction false} BoundedY(my: int, dys: seq<int>)
    requires 0 <= my < Y_RESOLUTION && NineBit(dys)
    ensures 0 <= FollowY(my, dys) <= Y_RESOLUTION + 383
  {
    if dys == [] {
    } else {
      BoundedY(my, dys[..|dys| - 1]);
    }
  }

  lemma FollowOne(my: int, dys: seq<int>, dy: int, more: seq<int>)
    requires more == dys + [dy]
    ensures FollowY(my, more) == MoveY(FollowY(my, dys), dy)
  {
    assert more[..|dys|] == dys;
  }

  /** Row 983 is reached from the row in which the pointer starts, so the bound is the best one: four full
      moves down, one of 87 rows, three more. */
  lemma RunsOffScreenY(my: int, far: int, near: int)
    requires my == 0 && far == -256 && near == -174
    ensures FollowY(my, [far, far, far, far, near, far, far, far]) == Y_RESOLUTION + 383
  {
    FollowOne(my, [], far, [far]);
    FollowOne(my, [far], far, [far, far]);
    FollowOne(my, [far, far], far, [far, far, far]);
    FollowOne(my, [far, far, far], far, [far, far, far, far]);
    FollowOne(my, [far, far, far, far], near, [far, far, far, far, near]);
    FollowOne(my, [far, far, far, far, near], far, [far, far, far, far, near, far]);
    FollowOne(my, [far, far, far, far, near, far], far, [far, far, far, far, near, far, far]);
    FollowOne(my, [far, far, far, far, near, far, far], far, [far, far, far, far, near, far, far, far]);
  }

  /** From a visible row one move stays visible exactly when it is not a move down whose half passes the
      lower edge. */
  lemma MoveYStaysVisibleIff(my: int, dy: int)
    requires 0 <= my < Y_RESOLUTION
    ensures 0 <= MoveY(my, dy) < Y_RESOLUTION <==> !(dy < 0 && my + (-dy) / 2 >= Y_RESOLUTION)
  {
  }
}
