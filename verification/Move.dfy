/** `video_test_move`: a sprite moving along one axis, one timer tick at a time. */
module Move {
  import opened Arithmetic
  import opened Bytes
  import opened Video

  function Min(a: int, b: int): int { if a <= b then a else b }

  /** How far the sprite has travelled after `ticks` ticks: `speed` pixels a tick, or, when speed is
      negative, one pixel every -speed ticks. */
  function Travelled(speed: int, ticks: nat): int {
    if speed > 0 then ticks * speed else if speed < 0 then ticks / -speed else 0
  }

  /** Forwards up to the end; backwards the first step already lands on the end. */
  function Position(start: nat, end: nat, speed: int, ticks: nat): int {
    if start <= end then Min(start + Travelled(speed, ticks), end)
    else if Travelled(speed, ticks) > 0 then end
    else start
  }

  lemma TravelStep(speed: int, ticks: nat)
    ensures Travelled(speed, ticks + 1) - Travelled(speed, ticks) ==
            if speed > 0 then speed else if speed < 0 && (ticks + 1) % -speed == 0 then 1 else 0
    ensures Travelled(speed, ticks) >= 0
  {
    if speed > 0 {
      MulSucc(ticks, speed);
      MulMono(0, ticks, speed);
    } else if speed < 0 {
      NextQuotient(ticks, -speed);
    }
  }

  lemma NextQuotient(a: nat, d: nat)
    requires d > 0
    ensures (a + 1) / d == a / d + (if (a + 1) % d == 0 then 1 else 0)
    ensures a / d >= 0
  {
    var q, r := a / d, a % d;
    DivMod(a, d);
    MulSucc(q, d);
    QuotientBelow(a, d, q + 1, 0);
    if r + 1 == d {
      MulSucc(q, d);
      QuotientRemainder(a + 1, d, q + 1, 0);
    } else {
      QuotientRemainder(a + 1, d, q, r + 1);
    }
  }

  /** Never past the end and, once there, there to stay. */
  lemma NeverOvershoots(start: nat, end: nat, speed: int, ticks: nat, later: nat)
    requires start <= end && ticks <= later
    ensures start <= Position(start, end, speed, ticks) <= Position(start, end, speed, later) <= end
    decreases later - ticks
  {
    TravelStep(speed, ticks);
    if ticks < later {
      NeverOvershoots(start, end, speed, ticks + 1, later);
    }
  }

  /** Until the end is reached, a tick moves by the speed, and a negative speed takes that many ticks a pixel. */
  lemma MovesBySpeed(start: nat, end: nat, speed: int, k: nat, late: nat)
    ensures speed > 0 && start + k * speed <= end ==> Position(start, end, speed, k) == start + k * speed
    ensures speed < 0 && start + k <= end && late < -speed ==>
              0 <= k * -speed && Position(start, end, speed, k * -speed + late) == start + k
  {
    if speed > 0 {
      MulMono(0, k, speed);
    } else if speed < 0 {
      MulMono(0, k, -speed);
      if late < -speed {
        QuotientRemainder(k * -speed + late, -speed, k, late);
      }
    }
  }

  /** A move backwards stays where it is for -speed - 1 ticks if it is slow, and is over with its first step. */
  lemma BackwardsJumps(start: nat, end: nat, speed: int, ticks: nat)
    requires end < start
    ensures speed > 0 && ticks > 0 ==> Position(start, end, speed, ticks) == end
    ensures speed < 0 && ticks >= -speed ==> Position(start, end, speed, ticks) == end
    ensures speed < 0 && ticks < -speed ==> Position(start, end, speed, ticks) == start
  {
    if speed > 0 && ticks > 0 {
      MulMono(1, ticks, speed);
    } else if speed < 0 {
      DivMod(ticks, -speed);
      if ticks < -speed {
        QuotientIs(ticks, -speed, 0);
      } else {
        QuotientBelow(ticks, -speed, ticks / -speed + 1, 1);
      }
    }
  }

  /** Mode 0x105: 1024 by 768, one byte a pixel. */
  const BLACK: Pixel := [0]

  /** A black screen, whatever lies behind it in memory. */
  ghost predicate Blank(img: seq<Pixel>, size: nat) {
    size <= |img| && forall k :: 0 <= k < size ==> img[k] == BLACK
  }

  /** That screen with the sprite at (x, y). */
  ghost function Showing(base: seq<Pixel>, xres: nat, x: nat, y: nat, w: nat, h: nat, sprite: seq<byte>): seq<Pixel>
    requires xres > 0
  {
    Drawn(base, xres, x, y, w, SpriteSource(sprite, w, 1), h, 0)
  }

  /** Painting the sprite's box black leaves the black screen. */
  lemma EraseRestores(base: seq<Pixel>, xres: nat, yres: nat, x: nat, y: nat, w: nat, h: nat, sprite: seq<byte>)
    requires xres > 0 && x + w <= xres && y + h <= yres && Blank(base, xres * yres)
    ensures Drawn(Showing(base, xres, x, y, w, h, sprite), xres, x, y, w, Solid(BLACK), h, 0) == base
  {
    forall k | 0 <= k < |base| && Reached(k % xres, k / xres, x, y, w, h, 0) ensures base[k] == BLACK {
      ColumnRow(xres, k);
      OnScreenIndex(xres, yres, k % xres, k / xres);
    }
  }

  class Animation {
    const vb: VideoBuffer
    const width: nat
    const height: nat
    const sprite: seq<byte>
    const xf: nat
    const yf: nat
    const speed: int
    ghost const x0: nat
    ghost const y0: nat
    ghost const base: seq<Pixel>
    var xi: nat
    var yi: nat
    var doneMoving: bool
    var counter: nat

    /** The sprite fits the screen at both ends. */
    ghost predicate Request() {
      && vb.Valid() && vb.xres == 1024 && vb.yres == 768 && vb.bitsPerPixel == 8
      && |sprite| == width * height && |base| == vb.Cells() && Blank(base, vb.Size())
      && x0 + width <= vb.xres && y0 + height <= vb.yres
      && xf + width <= vb.xres && yf + height <= vb.yres
      && -32768 <= speed <= 32767
    }

    ghost predicate Fits(x: nat, y: nat) {
      x + width <= vb.xres && y + height <= vb.yres
    }

    /** The sprite moves along y if its column is right from the start, else along x if its row is, else
        not at all. */
    ghost function PositionX(ticks: nat): int {
      if x0 != xf && y0 == yf then Position(x0, xf, speed, ticks) else x0
    }

    ghost function PositionY(ticks: nat): int {
      if x0 == xf then Position(y0, yf, speed, ticks) else y0
    }

    /** Where the sprite is and what the screen shows. */
    ghost predicate Valid()
      reads this, vb.buffer
    {
      && Request()
      && xi == PositionX(counter) && yi == PositionY(counter)
      && (doneMoving ==> xi == xf && yi == yf)
      && vb.Image() == Showing(base, vb.xres, xi, yi, width, height, sprite)
    }

    constructor (vb: VideoBuffer, width: nat, height: nat, sprite: seq<byte>,
                 xi: nat, yi: nat, xf: nat, yf: nat, speed: int)
      requires vb.Valid() && vb.xres == 1024 && vb.yres == 768 && vb.bitsPerPixel == 8
      requires |sprite| == width * height && xi + width <= vb.xres && yi + height <= vb.yres
      requires xf + width <= vb.xres && yf + height <= vb.yres && -32768 <= speed <= 32767
      requires Blank(vb.Image(), vb.Size())
      modifies vb.buffer
      ensures Valid() && this.vb == vb && counter == 0 && this.xi == xi && this.yi == yi && x0 == xi && y0 == yi
      ensures this.xf == xf && this.yf == yf && this.speed == speed && base == old(vb.Image())
    {
      this.vb, this.width, this.height, this.sprite := vb, width, height, sprite;
      this.xi, this.yi, this.xf, this.yf, this.speed := xi, yi, xf, yf, speed;
      x0, y0, doneMoving, counter, base := xi, yi, false, 0, vb.Image();
      new;
      StartsAtStart(xi, xf, speed);
      StartsAtStart(yi, yf, speed);
      Show();
    }

    method Erase()
      requires Request() && Fits(xi, yi)
      requires vb.Image() == Showing(base, vb.xres, xi, yi, width, height, sprite)
      modifies vb.buffer
      ensures vb.Image() == base
    {
      EraseRestores(base, vb.xres, vb.yres, xi, yi, width, height, sprite);
      assert ColorBytes(0, 1) == BLACK;
      RectangleOnScreen(vb.Image(), vb.xres, vb.yres, xi, yi, width, height, BLACK);
      var _ := vb.DrawRectangle(xi, yi, width, height, 0);
    }

    method Show()
      requires Request() && Fits(xi, yi) && vb.Image() == base
      modifies vb.buffer
      ensures vb.Image() == Showing(base, vb.xres, xi, yi, width, height, sprite)
    {
      SpriteClips(base, vb.xres, vb.yres, xi, yi, width, height, SpriteSource(sprite, width, 1));
      vb.DrawSprite(width, height, sprite, xi, yi);
    }

    /** Erase the sprite and draw it again elsewhere. */
    method Jump(x: nat, y: nat)
      requires Request() && Fits(xi, yi) && Fits(x, y)
      requires vb.Image() == Showing(base, vb.xres, xi, yi, width, height, sprite)
      modifies `xi, `yi, vb.buffer
      ensures xi == x && yi == y && vb.Image() == Showing(base, vb.xres, x, y, width, height, sprite)
    {
      Erase();
      xi, yi := x, y;
      Show();
    }

    /** One coordinate after a step, cut to sixteen bits and not past the end. */
    static method Stepped(at: nat, step: nat, end: nat) returns (r: nat)
      requires at < 0x8000 && step < 0x8000
      ensures r == Min(at + step, end)
    {
      r := (at + step) % 0x1_0000;
      if r > end {
        r := end;
      }
    }

    /** Erase, move one axis by `step` without passing the end, draw again. */
    method Advance(step: nat)
      requires Request() && Fits(xi, yi) && step <= 32767
      requires vb.Image() == Showing(base, vb.xres, xi, yi, width, height, sprite)
      modifies `xi, `yi, `doneMoving, vb.buffer
      ensures xi == if old(xi) != xf && old(yi) == yf then Min(old(xi) + step, xf) else old(xi)
      ensures yi == if old(xi) == xf then Min(old(yi) + step, yf) else old(yi)
      ensures doneMoving ==> old(doneMoving) || (xi == xf && yi == yf)
      ensures xi == xf && yi == yf ==> doneMoving
      ensures vb.Image() == Showing(base, vb.xres, xi, yi, width, height, sprite)
    {
      if xi == xf {
        var y := Stepped(yi, step, yf);
        Jump(xi, y);
        if yi == yf {
          doneMoving := true;
        }
      } else if yi == yf {
        var x := Stepped(xi, step, xf);
        Jump(x, yi);
        if xi == xf {
          doneMoving := true;
        }
      }
    }

    /** One timer interrupt: afterwards the sprite is where the closed form says, and nowhere else. */
    method Tick()
      requires Valid()
      modifies this, vb.buffer
      ensures Valid() && counter == old(counter) + 1
    {
      PositionStep(x0, xf, speed, counter);
      PositionStep(y0, yf, speed, counter);
      counter := counter + 1;
      if !doneMoving {
        if speed < 0 && counter % -speed == 0 {
          Advance(1);
        } else if speed > 0 {
          Advance(speed);
        }
      }
    }
  }

  lemma StartsAtStart(start: nat, end: nat, speed: int)
    ensures Position(start, end, speed, 0) == start
  {
    if speed < 0 { QuotientIs(0, -speed, 0); }
  }

  /** One tick moves by the step of that tick, up to the end, or not at all. */
  lemma PositionStep(start: nat, end: nat, speed: int, ticks: nat)
    ensures var step := if speed > 0 then speed else if speed < 0 && (ticks + 1) % -speed == 0 then 1 else 0;
      Position(start, end, speed, ticks + 1) ==
      if step > 0 then Min(Position(start, end, speed, ticks) + step, end) else Position(start, end, speed, ticks)
    ensures Position(start, end, speed, ticks) <= end || Position(start, end, speed, ticks) == start
    ensures Position(start, end, speed, ticks) >= 0
  {
    TravelStep(speed, ticks);
  }
}
