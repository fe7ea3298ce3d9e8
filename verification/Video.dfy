/** The frame buffer: pixels, lines, rectangles, sprites and cards over one flat array of bytes. The
    specification is an image, one colour for each (x, y), followed by the memory behind the buffer that
    the edge test of the pixel functions lets writes reach. */
module Video {
  import opened Arithmetic
  import opened Bytes

  type Pixel = seq<byte>

  // ----- Colours -----

  function ColorByte(color: nat, i: nat): byte {
    if i == 0 then color % 256
    else if i == 1 then (color / 0x100) % 256
    else if i == 2 then (color / 0x1_0000) % 256
    else (color / 0x100_0000) % 256
  }

  /** The low `b` bytes of a colour, as `memcpy` stores them. */
  function ColorBytes(color: nat, b: nat): (p: Pixel)
    ensures |p| == b && forall i :: 0 <= i < b ==> p[i] == ColorByte(color, i)
  {
    seq(b, i requires 0 <= i => ColorByte(color, i))
  }

  /** The number that bytes make up, lowest first. */
  function Number(p: seq<byte>): nat {
    if p == [] then 0 else p[0] + 256 * Number(p[1..])
  }

  function Power256(b: nat): (p: nat)
    ensures p > 0
  {
    if b == 0 then 1 else 256 * Power256(b - 1)
  }

  lemma NumberPush(b: byte, rest: seq<byte>)
    ensures Number([b] + rest) == b + 256 * Number(rest)
  {
    assert ([b] + rest)[1..] == rest;
  }

  lemma NumberOfFour(p: seq<byte>, w: int, x: int, y: int, z: int)
    requires |p| == 4 && w == p[0] && x == p[1] && y == p[2] && z == p[3]
    ensures Number(p) == w + 256 * x + 0x1_0000 * y + 0x100_0000 * z
    ensures Number(p[..3]) == w + 256 * x + 0x1_0000 * y
    ensures Number(p[..2]) == w + 256 * x && Number(p[..1]) == w
  {
    NumberOfThree(p[1..], x, y, z);
    assert p[1..][..2] == [x, y] && p[1..][..1] == [x];
    assert p == [w] + p[1..] && p[..3] == [w] + [x, y] && p[..2] == [w] + [x] && p[..1] == [w] + [];
    NumberPush(w, p[1..]);
    NumberPush(w, [x, y]);
    NumberPush(w, [x]);
    NumberPush(w, []);
  }

  lemma NumberOfThree(p: seq<byte>, x: int, y: int, z: int)
    requires |p| == 3 && x == p[0] && y == p[1] && z == p[2]
    ensures Number(p) == x + 256 * y + 0x1_0000 * z
    ensures Number([x, y]) == x + 256 * y && Number([x]) == x
  {
    assert p == [x] + [y, z] && [x, y] == [x] + [y] && [x] == [x] + [];
    assert [y, z] == [y] + [z] && [y] == [y] + [] && [z] == [z] + [];
    NumberPush(x, [y, z]);
    NumberPush(x, [y]);
    NumberPush(x, []);
    NumberPush(y, [z]);
    NumberPush(y, []);
    NumberPush(z, []);
  }

  /** The stored bytes make up the colour, as far as they go. */
  lemma ColorBytesMakeUp(color: nat, b: nat)
    requires 1 <= b <= 4
    ensures Number(ColorBytes(color, b)) == color % Power256(b)
  {
    var p := ColorBytes(color, 4);
    NumberOfFour(p, p[0], p[1], p[2], p[3]);
    assert p[..b] == ColorBytes(color, b);
    assert Power256(1) == 256 && Power256(2) == 0x1_0000 && Power256(3) == 0x100_0000 && Power256(4) == 0x1_0000_0000;
    BytesOf(color);
  }

  lemma BytesOf(color: nat)
    ensures color % 0x1_0000 == color % 256 + 256 * ((color / 256) % 256)
    ensures color % 0x100_0000 == color % 0x1_0000 + 0x1_0000 * ((color / 0x1_0000) % 256)
    ensures color % 0x1_0000_0000 == color % 0x100_0000 + 0x100_0000 * ((color / 0x100_0000) % 256)
  {
    TopByte(color, 256);
    TopByte(color, 0x1_0000);
    TopByte(color, 0x100_0000);
  }

  lemma TopByte(color: nat, weight: nat)
    requires weight > 0
    ensures color % (256 * weight) == color % weight + weight * ((color / weight) % 256)
  {
    var q := color / weight;
    DivMod(color, weight);
    DivMod(q, 256);
    var r := color % weight + weight * (q % 256);
    MulMono(0, q % 256, weight);
    MulMono(q % 256, 255, weight);
    assert (q % 256) * weight == weight * (q % 256);
    assert q * weight == (q / 256) * (256 * weight) + weight * (q % 256);
    QuotientRemainder(color, 256 * weight, q / 256, r);
  }

  // ----- Bytes and pixels -----

  ghost function PixelsOf(buf: seq<byte>, b: nat, n: nat): (img: seq<Pixel>)
    requires |buf| == n * b
    ensures |img| == n
  {
    seq(n, k requires 0 <= k < n => (PixelInside(k, b, n); buf[k * b..k * b + b]))
  }

  lemma PixelInside(k: nat, b: nat, n: nat)
    requires k < n
    ensures 0 <= k * b && k * b + b <= n * b
  {
    MulMono(0, k, b);
    MulMono(k + 1, n, b);
    MulSucc(k, b);
  }

  /** Different pixels own different bytes. */
  lemma PixelsApart(j: nat, k: nat, b: nat)
    requires j < k
    ensures j * b + b <= k * b
  {
    MulMono(j + 1, k, b);
    MulSucc(j, b);
  }

  /** The byte offset the code computes is that of pixel y * xres + x. */
  lemma OffsetOf(xres: nat, x: nat, y: nat, b: nat)
    ensures xres * y * b + x * b == (y * xres + x) * b
  {
    assert xres * y == y * xres;
    assert (y * xres + x) * b == y * xres * b + x * b;
  }

  lemma OnScreenIndex(xres: nat, yres: nat, x: nat, y: nat)
    requires x < xres && y < yres
    ensures 0 <= y * xres + x < xres * yres
  {
    MulMono(0, y, xres);
    MulMono(y + 1, yres, xres);
    MulSucc(y, xres);
  }

  /** Column and row of a pixel index. */
  lemma IndexInverse(xres: nat, x: nat, y: nat)
    requires x < xres
    ensures (y * xres + x) / xres == y && (y * xres + x) % xres == x
  {
    QuotientRemainder(y * xres + x, xres, y, x);
  }

  /** No two points of the screen share an index. */
  lemma OffsetInjective(xres: nat, x: nat, y: nat, x': nat, y': nat)
    requires x < xres && x' < xres && y * xres + x == y' * xres + x'
    ensures x == x' && y == y'
  {
    IndexInverse(xres, x, y);
    IndexInverse(xres, x', y');
  }

  lemma ColumnRow(xres: nat, k: nat)
    requires xres > 0
    ensures k == (k / xres) * xres + k % xres && 0 <= k % xres < xres && 0 <= k / xres
  {
    DivMod(k, xres);
    QuotientBelow(k, xres, k / xres + 1, 0);
  }

  // ----- Drawing a block -----

  /** Has a row-major drawing of a block with corner (x, y) and width w, after `r` full rows and `c`
      pixels of the next, reached the pixel (px, py)? */
  predicate Reached(px: int, py: int, x: int, y: int, w: int, r: int, c: int) {
    x <= px < x + w && y <= py && (py - y < r || (py - y == r && px - x < c))
  }

  /** The image after that much of the block; `source` gives the colour at a column and row of it. */
  ghost function Drawn(img: seq<Pixel>, xres: nat, x: int, y: int, w: nat, source: (int, int) -> Pixel,
                       r: nat, c: nat): (s: seq<Pixel>)
    requires xres > 0
    ensures |s| == |img|
  {
    seq(|img|, k requires 0 <= k < |img| =>
      if Reached(k % xres, k / xres, x, y, w, r, c) then source(k % xres - x, k / xres - y) else img[k])
  }

  lemma DrawnNothing(img: seq<Pixel>, xres: nat, x: int, y: int, w: nat, source: (int, int) -> Pixel)
    requires xres > 0
    ensures Drawn(img, xres, x, y, w, source, 0, 0) == img
  {
  }

  lemma DrawnRow(img: seq<Pixel>, xres: nat, x: int, y: int, w: nat, source: (int, int) -> Pixel, r: nat)
    requires xres > 0
    ensures Drawn(img, xres, x, y, w, source, r, w) == Drawn(img, xres, x, y, w, source, r + 1, 0)
  {
  }

  lemma DrawnPixel(img: seq<Pixel>, xres: nat, x: int, y: int, w: nat, source: (int, int) -> Pixel, r: nat, c: nat)
    requires c < w && 0 <= x + c && x + w <= xres && 0 <= y + r && 0 <= (y + r) * xres + x + c < |img|
    ensures Drawn(img, xres, x, y, w, source, r, c)[(y + r) * xres + x + c := source(c, r)]
            == Drawn(img, xres, x, y, w, source, r, c + 1)
  {
    var at := (y + r) * xres + x + c;
    IndexInverse(xres, x + c, y + r);
    forall k | 0 <= k < |img| && k != at
      ensures Reached(k % xres, k / xres, x, y, w, r, c + 1) == Reached(k % xres, k / xres, x, y, w, r, c)
    {
      ColumnRow(xres, k);
      assert !(k % xres == x + c && k / xres == y + r);
    }
  }

  /** To the left of the screen and above it nothing is drawn. */
  lemma DrawnOutside(img: seq<Pixel>, xres: nat, x: int, y: int, w: nat, source: (int, int) -> Pixel, r: nat, c: nat)
    requires xres > 0 && c < w && (x + c < 0 || y + r < 0)
    ensures Drawn(img, xres, x, y, w, source, r, c) == Drawn(img, xres, x, y, w, source, r, c + 1)
  {
    forall k | 0 <= k < |img|
      ensures Reached(k % xres, k / xres, x, y, w, r, c + 1) == Reached(k % xres, k / xres, x, y, w, r, c)
    {
      ColumnRow(xres, k);
    }
  }

  /** A row drawn under `r` full rows makes `r + 1`. */
  lemma DrawnLine(img: seq<Pixel>, xres: nat, x: nat, y: nat, w: nat, p: Pixel, r: nat)
    requires xres > 0
    ensures Drawn(Drawn(img, xres, x, y, w, Solid(p), r, 0), xres, x, y + r, w, Solid(p), 1, 0)
            == Drawn(img, xres, x, y, w, Solid(p), r + 1, 0)
  {
  }

  /** What a fully drawn block shows at each point of the screen. */
  lemma DrawnAt(img: seq<Pixel>, xres: nat, x: int, y: int, w: nat, h: nat, source: (int, int) -> Pixel,
                px: nat, py: nat)
    requires px < xres && py * xres + px < |img|
    ensures Drawn(img, xres, x, y, w, source, h, 0)[py * xres + px] ==
            if x <= px < x + w && y <= py < y + h then source(px - x, py - y) else img[py * xres + px]
  {
    IndexInverse(xres, px, py);
  }

  /** Index of pixel (c, r) in a picture stored row by row. */
  function RowMajor(width: nat, c: int, r: int): int {
    r * width + c
  }

  /** Row-major indices step by one, row after row, and stay inside the picture. */
  lemma RowMajorSteps(width: nat, height: nat, c: nat, r: nat)
    requires r < height && c <= width
    ensures RowMajor(width, c + 1, r) == RowMajor(width, c, r) + 1
    ensures RowMajor(width, 0, r + 1) == RowMajor(width, width, r)
    ensures c < width ==> 0 <= RowMajor(width, c, r) < width * height
  {
    MulSucc(r, width);
    if c < width {
      OnScreenIndex(width, height, c, r);
    }
  }

  ghost function Solid(p: Pixel): (int, int) -> Pixel { (c, r) => p }

  // ----- The edge test -----

  /** The guard of the pixel functions. */
  predicate Passes(xres: nat, yres: nat, x: nat, y: nat) {
    x <= xres && y <= yres
  }

  predicate OnScreen(xres: nat, yres: nat, x: nat, y: nat) {
    x < xres && y < yres
  }

  /** The guard refuses every point off the screen but those on the column or the row just past it. */
  lemma GuardIsSoundIff(xres: nat, yres: nat, x: nat, y: nat)
    ensures (Passes(xres, yres, x, y) ==> OnScreen(xres, yres, x, y)) <==>
            !((x == xres && y <= yres) || (y == yres && x <= xres))
  {
  }

  lemma PassedIndex(xres: nat, yres: nat, x: nat, y: nat)
    requires Passes(xres, yres, x, y)
    ensures 0 <= y * xres + x < xres * yres + xres + 1
  {
    MulMono(0, y, xres);
    MulMono(y, yres, xres);
    assert yres * xres == xres * yres;
  }

  /** A write that passes the guard leaves the buffer if and only if it is on the row past the screen, or
      at the end of the last row. */
  lemma LeavesBufferIff(xres: nat, yres: nat, x: nat, y: nat)
    requires xres > 0 && yres > 0 && Passes(xres, yres, x, y)
    ensures y * xres + x >= xres * yres <==> y == yres || (x == xres && y == yres - 1)
  {
    assert xres * yres == yres * xres;
    MulSucc(yres - 1, xres);
    if y == yres {
    } else if y == yres - 1 {
    } else {
      MulMono(y + 1, yres - 1, xres);
      MulSucc(y, xres);
    }
  }

  /** Otherwise the column past the screen is the first pixel of the next row. */
  lemma EdgeColumnWraps(xres: nat, y: nat)
    ensures y * xres + xres == (y + 1) * xres + 0
  {
    MulSucc(y, xres);
  }

  /** Every screen has such points: one that wraps, if it has two rows, and two that leave the buffer. */
  lemma EdgeWitnesses(xres: nat, yres: nat)
    requires xres > 0 && yres > 0
    ensures Passes(xres, yres, xres, yres - 1) && (yres - 1) * xres + xres == xres * yres
    ensures Passes(xres, yres, 0, yres) && yres * xres + 0 == xres * yres
    ensures yres > 1 ==> Passes(xres, yres, xres, 0) && 0 * xres + xres == 1 * xres + 0
  {
    MulSucc(yres - 1, xres);
    assert xres * yres == yres * xres;
  }

  // ----- Lines and rectangles, wherever they lie -----

  /** `n` pixels in a row of memory. */
  ghost function Painted(img: seq<Pixel>, from: int, n: int, p: Pixel): (s: seq<Pixel>)
    ensures |s| == |img|
  {
    seq(|img|, k requires 0 <= k < |img| => if from <= k < from + n then p else img[k])
  }

  /** How many pixels of a line pass the guard before the first one that does not. */
  function LineCount(xres: nat, yres: nat, x: nat, y: nat, len: nat): (n: nat)
    ensures n <= len
  {
    if !Passes(xres, yres, x, y) then 0 else if x + len <= xres + 1 then len else xres + 1 - x
  }

  /** `rows` lines of `n` pixels under each other. */
  ghost function PaintedRows(img: seq<Pixel>, xres: nat, x: nat, y: nat, n: nat, rows: nat, p: Pixel): (s: seq<Pixel>)
    ensures |s| == |img|
  {
    if rows == 0 then img
    else Painted(PaintedRows(img, xres, x, y, n, rows - 1, p), (y + rows - 1) * xres + x, n, p)
  }

  predicate OnLine(k: int, xres: nat, x: nat, row: nat, n: nat) {
    row * xres + x <= k < row * xres + x + n
  }

  /** Exactly the pixels of memory on one of these lines are painted. */
  lemma {:induction false} PaintedRowsAt(img: seq<Pixel>, xres: nat, x: nat, y: nat, n: nat, rows: nat, p: Pixel, k: nat)
    requires k < |img|
    ensures PaintedRows(img, xres, x, y, n, rows, p)[k] ==
            if exists row :: y <= row < y + rows && OnLine(k, xres, x, row, n) then p else img[k]
    decreases rows
  {
    if rows == 0 {
    } else {
      PaintedRowsAt(img, xres, x, y, n, rows - 1, p, k);
      assert PaintedRows(img, xres, x, y, n, rows, p)[k] ==
             if OnLine(k, xres, x, y + rows - 1, n) then p else PaintedRows(img, xres, x, y, n, rows - 1, p)[k];
    }
  }

  /** How many lines of a rectangle are drawn before the code gives up. */
  function RectRows(xres: nat, yres: nat, x: nat, y: nat, width: nat, height: nat): nat {
    if height == 0 || width == 0 then height
    else if y > yres then 0
    else if x + width > xres + 1 then 1
    else if y + height <= yres + 1 then height else yres + 1 - y
  }

  /** Does the rectangle return 0? */
  predicate RectSucceeds(xres: nat, yres: nat, x: nat, y: nat, width: nat, height: nat) {
    width == 0 || height == 0 || (x + width <= xres + 1 && y + height <= yres + 1)
  }

  /** What the next line of a rectangle does: it is drawn whole, or the rectangle ends with it. */
  lemma RectStep(xres: nat, yres: nat, x: nat, y: nat, width: nat, height: nat, i: nat)
    requires i < height && RectSucceeds(xres, yres, x, y, width, i)
    ensures var n, line := LineCount(xres, yres, x, y, width), LineCount(xres, yres, x, y + i, width);
      if line == width
      then n == width && RectSucceeds(xres, yres, x, y, width, i + 1)
      else && !RectSucceeds(xres, yres, x, y, width, height)
           && (y + i <= yres ==> i == 0 && line == n && RectRows(xres, yres, x, y, width, height) == 1)
           && (y + i > yres ==> line == 0 && RectRows(xres, yres, x, y, width, height) == i)
  {
  }

  /** So the image after that line is again one of whole lines. */
  lemma RectLine(img: seq<Pixel>, xres: nat, yres: nat, x: nat, y: nat, width: nat, height: nat, p: Pixel, i: nat)
    requires i < height && RectSucceeds(xres, yres, x, y, width, i)
    ensures var n, line := LineCount(xres, yres, x, y, width), LineCount(xres, yres, x, y + i, width);
      Painted(PaintedRows(img, xres, x, y, n, i, p), (y + i) * xres + x, line, p) ==
      PaintedRows(img, xres, x, y, n, if line == width then i + 1 else RectRows(xres, yres, x, y, width, height), p)
  {
    RectStep(xres, yres, x, y, width, height, i);
    PaintedNone(PaintedRows(img, xres, x, y, LineCount(xres, yres, x, y, width), i, p), (y + i) * xres + x, p);
  }

  lemma PaintedNone(img: seq<Pixel>, from: int, p: Pixel)
    ensures Painted(img, from, 0, p) == img
  {
  }

  /** On the screen a line of memory is a line of the image. */
  lemma LineOnScreen(img: seq<Pixel>, xres: nat, x: nat, y: nat, len: nat, p: Pixel)
    requires x + len <= xres && xres > 0
    ensures Painted(img, y * xres + x, len, p) == Drawn(img, xres, x, y, len, Solid(p), 1, 0)
  {
    forall k | 0 <= k < |img|
      ensures y * xres + x <= k < y * xres + x + len <==> Reached(k % xres, k / xres, x, y, len, 1, 0)
    {
      ColumnRow(xres, k);
      QuotientIs(k, xres, y);
    }
  }

  lemma {:induction false} RowsOnScreen(img: seq<Pixel>, xres: nat, x: nat, y: nat, w: nat, h: nat, p: Pixel)
    requires x + w <= xres && xres > 0
    ensures PaintedRows(img, xres, x, y, w, h, p) == Drawn(img, xres, x, y, w, Solid(p), h, 0)
    decreases h
  {
    if h == 0 {
      DrawnNothing(img, xres, x, y, w, Solid(p));
    } else {
      RowsOnScreen(img, xres, x, y, w, h - 1, p);
      LineOnScreen(PaintedRows(img, xres, x, y, w, h - 1, p), xres, x, y + h - 1, w, p);
      DrawnLine(img, xres, x, y, w, p, h - 1);
    }
  }

  /** A rectangle on the screen is drawn whole. */
  lemma RectangleOnScreen(img: seq<Pixel>, xres: nat, yres: nat, x: nat, y: nat, width: nat, height: nat, p: Pixel)
    requires xres > 0 && x + width <= xres && y + height <= yres
    ensures RectSucceeds(xres, yres, x, y, width, height)
    ensures PaintedRows(img, xres, x, y, LineCount(xres, yres, x, y, width),
                        RectRows(xres, yres, x, y, width, height), p)
            == Drawn(img, xres, x, y, width, Solid(p), height, 0)
  {
    RowsOnScreen(img, xres, x, y, width, height, p);
  }

  // ----- Sprites, wherever they lie -----

  /** One call of the pixel function; coordinates are sixteen bits wide. */
  ghost function Put(img: seq<Pixel>, xres: nat, yres: nat, x: int, y: int, p: Pixel): (s: seq<Pixel>)
    requires |img| == xres * yres + xres + 1
    ensures |s| == |img|
  {
    var x', y' := x % 0x1_0000, y % 0x1_0000;
    if Passes(xres, yres, x', y') then PassedIndex(xres, yres, x', y'); img[y' * xres + x' := p] else img
  }

  lemma PutOnScreen(img: seq<Pixel>, xres: nat, yres: nat, x: nat, y: nat, p: Pixel)
    requires |img| == xres * yres + xres + 1 && x < xres < 0x1_0000 && y < yres < 0x1_0000
    ensures 0 <= y * xres + x < |img| && Put(img, xres, yres, x, y, p) == img[y * xres + x := p]
  {
    PassedIndex(xres, yres, x, y);
  }

  lemma PutOutside(img: seq<Pixel>, xres: nat, yres: nat, x: int, y: int, p: Pixel)
    requires |img| == xres * yres + xres + 1
    requires xres - 0x1_0000 < x < 0 || yres - 0x1_0000 < y < 0
    ensures Put(img, xres, yres, x, y, p) == img
  {
  }

  /** The image after `r` full rows of a sprite and `c` pixels of the next. */
  ghost function SpriteAfter(img: seq<Pixel>, xres: nat, yres: nat, x: int, y: int, width: nat,
                             source: (int, int) -> Pixel, r: nat, c: nat): (s: seq<Pixel>)
    requires |img| == xres * yres + xres + 1
    ensures |s| == |img|
    decreases r, c
  {
    if c > 0 then
      Put(SpriteAfter(img, xres, yres, x, y, width, source, r, c - 1), xres, yres, x + c - 1, y + r, source(c - 1, r))
    else if r > 0 then SpriteAfter(img, xres, yres, x, y, width, source, r - 1, width)
    else img
  }

  lemma SpriteStep(img: seq<Pixel>, xres: nat, yres: nat, x: int, y: int, width: nat,
                   source: (int, int) -> Pixel, r: nat, c: nat)
    requires |img| == xres * yres + xres + 1
    ensures SpriteAfter(img, xres, yres, x, y, width, source, r, c + 1) ==
            Put(SpriteAfter(img, xres, yres, x, y, width, source, r, c), xres, yres, x + c, y + r, source(c, r))
  {
  }

  lemma SpriteNextRow(img: seq<Pixel>, xres: nat, yres: nat, x: int, y: int, width: nat,
                      source: (int, int) -> Pixel, r: nat)
    requires |img| == xres * yres + xres + 1
    ensures SpriteAfter(img, xres, yres, x, y, width, source, r + 1, 0) ==
            SpriteAfter(img, xres, yres, x, y, width, source, r, width)
  {
  }

  class VideoBuffer {
    const xres: nat
    const yres: nat
    const bitsPerPixel: nat
    /** The buffer itself and, behind it, the bytes of one more row and one more pixel. */
    const buffer: array<byte>

    ghost function Size(): nat { xres * yres }

    ghost function Cells(): nat { xres * yres + xres + 1 }

    /** 15 bits are stored in two bytes, everything else in whole bytes. */
    function Depth(): nat { if bitsPerPixel == 15 then 2 else bitsPerPixel / 8 }

    ghost predicate Valid() {
      && 0 < xres < 0xFFFF && 0 < yres < 0xFFFF && 1 <= Depth() <= 4
      && buffer.Length == Cells() * Depth()
    }

    /** The pixels of the screen, then those behind the buffer. */
    ghost function Image(): (img: seq<Pixel>)
      requires Valid()
      reads buffer
      ensures |img| == Cells()
    {
      PixelsOf(buffer[..], Depth(), Cells())
    }

    constructor (xres: nat, yres: nat, bitsPerPixel: nat)
      requires 0 < xres < 0xFFFF && 0 < yres < 0xFFFF
      requires bitsPerPixel == 15 || 8 <= bitsPerPixel < 40
      ensures Valid() && this.xres == xres && this.yres == yres && this.bitsPerPixel == bitsPerPixel
      ensures fresh(buffer)
    {
      this.xres, this.yres, this.bitsPerPixel := xres, yres, bitsPerPixel;
      var depth := if bitsPerPixel == 15 then 2 else bitsPerPixel / 8;
      buffer := new byte[(xres * yres + xres + 1) * depth](_ => 0);
    }

    /** Writing the bytes of one pixel replaces that pixel of the image. */
    method Store(ghost k: nat, at: int, color: nat)
      requires Valid() && k < Cells() && at == k * Depth()
      modifies buffer
      ensures Image() == old(Image())[k := ColorBytes(color, Depth())]
      ensures forall i :: 0 <= i < Depth() ==> 0 <= at + i < buffer.Length && buffer[at + i] == ColorByte(color, i)
    {
      var b := Depth();
      PixelInside(k, b, Cells());
      forall i | 0 <= i < b {
        buffer[at + i] := ColorByte(color, i);
      }
      ghost var img, was := Image(), old(Image());
      forall j | 0 <= j < Cells() ensures img[j] == was[k := ColorBytes(color, b)][j] {
        PixelInside(j, b, Cells());
        if j < k { PixelsApart(j, k, b); } else if k < j { PixelsApart(k, j, b); }
      }
    }

    /** `vg_draw_pixel` and `my_draw_pixel`, for any coordinates. */
    method DrawPixel(x: nat, y: nat, color: nat) returns (r: int)
      requires Valid()
      modifies buffer
      ensures r == if Passes(xres, yres, x, y) then 0 else 1
      ensures Passes(xres, yres, x, y) ==>
                && 0 <= y * xres + x < Cells()
                && Image() == old(Image())[y * xres + x := ColorBytes(color, Depth())]
                && var at := xres * y * Depth() + x * Depth();
                   forall i :: 0 <= i < Depth() ==>
                     0 <= at + i < buffer.Length && buffer[at + i] == ColorByte(color, i)
      ensures !Passes(xres, yres, x, y) ==> Image() == old(Image())
    {
      if x > xres || y > yres {
        return 1;
      }
      PassedIndex(xres, yres, x, y);
      OffsetOf(xres, x, y, Depth());
      Store(y * xres + x, xres * y * Depth() + x * Depth(), color);
      r := 0;
    }

    /** `vg_draw_hline`, wherever the line lies. */
    method DrawHLine(x: nat, y: nat, len: nat, color: nat) returns (r: int)
      requires Valid()
      modifies buffer
      ensures r == if LineCount(xres, yres, x, y, len) < len then 1 else 0
      ensures Image() == Painted(old(Image()), y * xres + x, LineCount(xres, yres, x, y, len),
                                 ColorBytes(color, Depth()))
    {
      ghost var img, p := Image(), ColorBytes(color, Depth());
      assert Painted(img, y * xres + x, 0, p) == img;
      var i := 0;
      while i < len
        invariant 0 <= i <= LineCount(xres, yres, x, y, len)
        invariant Image() == Painted(img, y * xres + x, i, p)
      {
        ghost var was := Image();
        var failed := DrawPixel(x + i, y, color);
        if failed != 0 {
          return 1;
        }
        assert was[y * xres + (x + i) := p] == Painted(img, y * xres + x, i + 1, p);
        i := i + 1;
      }
      r := 0;
    }

    /** `vg_draw_rectangle`, wherever the rectangle lies. */
    method DrawRectangle(x: nat, y: nat, width: nat, height: nat, color: nat) returns (r: int)
      requires Valid()
      modifies buffer
      ensures r == if RectSucceeds(xres, yres, x, y, width, height) then 0 else 1
      ensures Image() == PaintedRows(old(Image()), xres, x, y, LineCount(xres, yres, x, y, width),
                                     RectRows(xres, yres, x, y, width, height), ColorBytes(color, Depth()))
    {
      ghost var img, p := Image(), ColorBytes(color, Depth());
      ghost var n := LineCount(xres, yres, x, y, width);
      var i := 0;
      while i < height
        invariant 0 <= i <= height && RectSucceeds(xres, yres, x, y, width, i)
        invariant Image() == PaintedRows(img, xres, x, y, n, i, p)
      {
        var line := DrawRectLine(x, y, width, height, color, i, img);
        if line != 0 {
          return 1;
        }
        i := i + 1;
      }
      r := 0;
    }

    /** The body of its loop. */
    method DrawRectLine(x: nat, y: nat, width: nat, height: nat, color: nat, i: nat, ghost img: seq<Pixel>)
      returns (line: int)
      requires Valid() && i < height && RectSucceeds(xres, yres, x, y, width, i)
      requires Image() == PaintedRows(img, xres, x, y, LineCount(xres, yres, x, y, width), i,
                                      ColorBytes(color, Depth()))
      modifies buffer
      ensures if line == 0 then RectSucceeds(xres, yres, x, y, width, i + 1)
              else !RectSucceeds(xres, yres, x, y, width, height)
      ensures Image() == PaintedRows(img, xres, x, y, LineCount(xres, yres, x, y, width),
                                     if line == 0 then i + 1 else RectRows(xres, yres, x, y, width, height),
                                     ColorBytes(color, Depth()))
    {
      RectStep(xres, yres, x, y, width, height, i);
      RectLine(img, xres, yres, x, y, width, height, ColorBytes(color, Depth()), i);
      line := DrawHLine(x, y + i, width, color);
    }

    /** `greenPartOfScreen`, for any corner and size; the loops stop when they reach the right or the lower
        edge. */
    method GreenPartOfScreen(x: int, y: int, width: int, height: int)
      requires Valid()
      modifies buffer
      ensures Image() == SpriteAfter(old(Image()), xres, yres, x, y, Clip(xres, x, width),
                                     Solid(ColorBytes(0x22B14C, Depth())), Clip(yres, y, height), 0)
    {
      ghost var img, source := Image(), Solid(ColorBytes(0x22B14C, Depth()));
      ghost var w := Clip(xres, x, width);
      var i := y;
      while i < height + y
        invariant y <= i && i - y <= Clip(yres, y, height)
        invariant Image() == SpriteAfter(img, xres, yres, x, y, w, source, i - y, 0)
      {
        if i == yres {
          break;
        }
        GreenRow(x, y, width, i - y, img, w, source);
        SpriteNextRow(img, xres, yres, x, y, w, source, i - y);
        i := i + 1;
      }
    }

    /** One row of it. */
    method GreenRow(x: int, y: int, width: int, r: nat, ghost img: seq<Pixel>, ghost w: nat,
                    ghost source: (int, int) -> Pixel)
      requires Valid() && |img| == Cells() && w == Clip(xres, x, width)
      requires source == Solid(ColorBytes(0x22B14C, Depth()))
      requires Image() == SpriteAfter(img, xres, yres, x, y, w, source, r, 0)
      modifies buffer
      ensures Image() == SpriteAfter(img, xres, yres, x, y, w, source, r, w)
    {
      var c := 0;
      while x + c < width + x
        invariant 0 <= c <= w
        invariant Image() == SpriteAfter(img, xres, yres, x, y, w, source, r, c)
      {
        if x + c == xres {
          break;
        }
        GreenPixel(x, y, r, c, img, w, source);
        c := c + 1;
      }
      assert c == w;
    }

    /** And one pixel of that. */
    method GreenPixel(x: int, y: int, r: nat, c: nat, ghost img: seq<Pixel>, ghost w: nat,
                      ghost source: (int, int) -> Pixel)
      requires Valid() && |img| == Cells() && source == Solid(ColorBytes(0x22B14C, Depth()))
      requires Image() == SpriteAfter(img, xres, yres, x, y, w, source, r, c)
      modifies buffer
      ensures Image() == SpriteAfter(img, xres, yres, x, y, w, source, r, c + 1)
    {
      SpriteStep(img, xres, yres, x, y, w, source, r, c);
      PutPixel(x + c, y + r, 0x22B14C);
    }

    /** A pixel whose coordinates are cut to sixteen bits by the call, the result ignored. */
    method PutPixel(x: int, y: int, color: nat)
      requires Valid()
      modifies buffer
      ensures Image() == Put(old(Image()), xres, yres, x, y, ColorBytes(color, Depth()))
    {
      var _ := DrawPixel(x % 0x1_0000, y % 0x1_0000, color);
    }

    /** `draw_sprite`: one byte a pixel, taken in order, wherever the sprite lies. */
    method DrawSprite(width: nat, height: nat, sprite: seq<byte>, x: int, y: int)
      requires Valid() && |sprite| == width * height
      modifies buffer
      ensures Image() == SpriteAfter(old(Image()), xres, yres, x, y, width,
                                     SpriteSource(sprite, width, Depth()), height, 0)
    {
      ghost var img, source := Image(), SpriteSource(sprite, width, Depth());
      var at := 0;
      var i := 0;
      while i < height
        invariant 0 <= i <= height && at == RowMajor(width, 0, i)
        invariant Image() == SpriteAfter(img, xres, yres, x, y, width, source, i, 0)
      {
        at := SpriteRow(width, height, sprite, x, y, i, at, img);
        SpriteNextRow(img, xres, yres, x, y, width, source, i);
        RowMajorSteps(width, height, 0, i);
        i := i + 1;
      }
    }

    /** The inner loop. */
    method SpriteRow(width: nat, height: nat, sprite: seq<byte>, x: int, y: int, i: nat, start: nat,
                     ghost img: seq<Pixel>) returns (at: nat)
      requires Valid() && |sprite| == width * height && i < height && start == RowMajor(width, 0, i)
      requires |img| == Cells()
      requires Image() == SpriteAfter(img, xres, yres, x, y, width, SpriteSource(sprite, width, Depth()), i, 0)
      modifies buffer
      ensures at == RowMajor(width, width, i)
      ensures Image() == SpriteAfter(img, xres, yres, x, y, width, SpriteSource(sprite, width, Depth()), i, width)
    {
      ghost var source := SpriteSource(sprite, width, Depth());
      at := start;
      var j := 0;
      while j < width
        invariant 0 <= j <= width && at == RowMajor(width, j, i)
        invariant Image() == SpriteAfter(img, xres, yres, x, y, width, source, i, j)
      {
        SpriteDot(width, height, sprite, x, y, i, j, at, img, source);
        RowMajorSteps(width, height, j, i);
        at := at + 1;
        j := j + 1;
      }
    }

    /** And its body. */
    method SpriteDot(width: nat, height: nat, sprite: seq<byte>, x: int, y: int, i: nat, j: nat, at: nat,
                     ghost img: seq<Pixel>, ghost source: (int, int) -> Pixel)
      requires Valid() && |sprite| == width * height && i < height && j < width && at == RowMajor(width, j, i)
      requires |img| == Cells() && source == SpriteSource(sprite, width, Depth())
      requires Image() == SpriteAfter(img, xres, yres, x, y, width, source, i, j)
      modifies buffer
      ensures Image() == SpriteAfter(img, xres, yres, x, y, width, source, i, j + 1)
    {
      RowMajorSteps(width, height, j, i);
      SpriteStep(img, xres, yres, x, y, width, source, i, j);
      assert source(j, i) == ColorBytes(sprite[at], Depth());
      PutPixel(x + j, y + i, sprite[at]);
    }
  }

  lemma SpritePixel(img: seq<Pixel>, xres: nat, yres: nat, x: int, y: int, w: nat,
                    source: (int, int) -> Pixel, r: nat, c: nat)
    requires |img| == xres * yres + xres + 1 && 0 < xres < 0x1_0000 && yres < 0x1_0000 && c < w
    requires xres - 0x1_0000 < x && x + w <= xres && yres - 0x1_0000 < y && y + r < yres
    ensures Put(Drawn(img, xres, x, y, w, source, r, c), xres, yres, x + c, y + r, source(c, r))
            == Drawn(img, xres, x, y, w, source, r, c + 1)
  {
    if x + c < 0 || y + r < 0 {
      DrawnOutside(img, xres, x, y, w, source, r, c);
      PutOutside(Drawn(img, xres, x, y, w, source, r, c), xres, yres, x + c, y + r, source(c, r));
    } else {
      PutOnScreen(Drawn(img, xres, x, y, w, source, r, c), xres, yres, x + c, y + r, source(c, r));
      DrawnPixel(img, xres, x, y, w, source, r, c);
    }
  }

  /** In each of the modes that the exercises use a pixel takes as many bytes as its bits need. */
  lemma DepthIsWholeBytes(vb: VideoBuffer)
    requires vb.bitsPerPixel in {8, 15, 16, 24, 32}
    ensures vb.Depth() == (vb.bitsPerPixel + 7) / 8
  {
  }

  lemma {:induction false} SpriteRows(img: seq<Pixel>, xres: nat, yres: nat, x: int, y: int, w: nat,
                                      source: (int, int) -> Pixel, r: nat, c: nat)
    requires |img| == xres * yres + xres + 1 && 0 < xres < 0x1_0000 && yres < 0x1_0000 && c <= w
    requires xres - 0x1_0000 < x && x + w <= xres && yres - 0x1_0000 < y && y + r <= yres && (c > 0 ==> y + r < yres)
    ensures SpriteAfter(img, xres, yres, x, y, w, source, r, c) == Drawn(img, xres, x, y, w, source, r, c)
    decreases r, c
  {
    if c > 0 {
      SpriteRows(img, xres, yres, x, y, w, source, r, c - 1);
      SpriteStep(img, xres, yres, x, y, w, source, r, c - 1);
      SpritePixel(img, xres, yres, x, y, w, source, r, c - 1);
    } else if r > 0 {
      SpriteRows(img, xres, yres, x, y, w, source, r - 1, w);
      SpriteNextRow(img, xres, yres, x, y, w, source, r - 1);
      DrawnRow(img, xres, x, y, w, source, r - 1);
    } else {
      DrawnNothing(img, xres, x, y, w, source);
    }
  }

  /** A sprite that keeps within the right and the lower edge shows in its box, as far as that is on the
      screen, and changes nothing else: left and upper edge clip it. */
  lemma SpriteClips(img: seq<Pixel>, xres: nat, yres: nat, x: int, y: int, w: nat, h: nat,
                    source: (int, int) -> Pixel)
    requires |img| == xres * yres + xres + 1 && 0 < xres < 0x1_0000 && yres < 0x1_0000
    requires xres - 0x1_0000 < x && x + w <= xres && yres - 0x1_0000 < y && y + h <= yres
    ensures SpriteAfter(img, xres, yres, x, y, w, source, h, 0) == Drawn(img, xres, x, y, w, source, h, 0)
  {
    SpriteRows(img, xres, yres, x, y, w, source, h, 0);
  }

  /** Past the right or the lower edge nothing is drawn. */
  lemma {:induction false} SpriteBeyond(img: seq<Pixel>, xres: nat, yres: nat, x: int, y: int, w: nat,
                                        source: (int, int) -> Pixel, r: nat, c: nat)
    requires |img| == xres * yres + xres + 1 && c <= w
    requires || w == 0 || (xres < x && x + w <= 0x1_0000)
             || (yres < y && y + r + (if c > 0 then 1 else 0) <= 0x1_0000)
    ensures SpriteAfter(img, xres, yres, x, y, w, source, r, c) == img
    decreases r, c
  {
    if c > 0 {
      SpriteBeyond(img, xres, yres, x, y, w, source, r, c - 1);
      SpriteStep(img, xres, yres, x, y, w, source, r, c - 1);
    } else if r > 0 {
      SpriteBeyond(img, xres, yres, x, y, w, source, r - 1, w);
      SpriteNextRow(img, xres, yres, x, y, w, source, r - 1);
    } else {
    }
  }

  /** How much of `len` pixels from `at` on the loops of `greenPartOfScreen` reach. */
  function Clip(res: nat, at: int, len: int): nat {
    if len <= 0 then 0 else if at <= res < at + len then res - at else len
  }

  /** What that function paints: its rectangle, clipped at all four edges. */
  lemma GreenClips(img: seq<Pixel>, xres: nat, yres: nat, x: int, y: int, width: int, height: int, p: Pixel)
    requires |img| == xres * yres + xres + 1 && 0 < xres < 0x1_0000 && yres < 0x1_0000
    requires xres - 0x1_0000 < x && yres - 0x1_0000 < y && x + width <= 0x1_0000 && y + height <= 0x1_0000
    ensures var w, h := Clip(xres, x, width), Clip(yres, y, height);
      SpriteAfter(img, xres, yres, x, y, w, Solid(p), h, 0) ==
      if x <= xres && y <= yres then Drawn(img, xres, x, y, w, Solid(p), h, 0) else img
  {
    var w, h := Clip(xres, x, width), Clip(yres, y, height);
    if x <= xres && y <= yres {
      SpriteClips(img, xres, yres, x, y, w, h, Solid(p));
    } else if h > 0 {
      SpriteBeyond(img, xres, yres, x, y, w, Solid(p), h, 0);
    }
  }

  /** Pixel (c, r) of a sprite stored row by row. */
  ghost function SpriteSource(sprite: seq<byte>, width: nat, b: nat): (int, int) -> Pixel {
    (c: int, r: int) =>
      if 0 <= RowMajor(width, c, r) < |sprite| then ColorBytes(sprite[RowMajor(width, c, r)], b) else []
  }
}
