/** `video_test_pattern`: an n-by-n grid of coloured cells. */
module Pattern {
  import opened Arithmetic
  import opened Video

  /** Colour layouts: palette, or three fields given by the weight and the range of each. */
  datatype Format = Indexed | Direct(rWeight: nat, rRange: nat, gWeight: nat, gRange: nat, bRange: nat)

  const RGB555 := Direct(0x400, 32, 0x20, 32, 32)
  const RGB565 := Direct(0x800, 32, 0x20, 64, 32)
  const RGB888 := Direct(0x1_0000, 256, 0x100, 256, 256)

  predicate Known(f: Format) {
    f == Indexed || f == RGB555 || f == RGB565 || f == RGB888
  }

  /** The masked and shifted components of a colour. */
  function Unpack(f: Format, color: nat): (nat, nat, nat)
    requires Known(f) && f.Direct?
  {
    ((color / f.rWeight) % f.rRange, (color / f.gWeight) % f.gRange, color % f.bRange)
  }

  /** The components shifted back into place. */
  function Pack(f: Format, r: nat, g: nat, b: nat): nat
    requires Known(f) && f.Direct?
  {
    r * f.rWeight + g * f.gWeight + b
  }

  lemma UnpackPack(f: Format, r: nat, g: nat, b: nat)
    requires Known(f) && f.Direct? && r < f.rRange && g < f.gRange && b < f.bRange
    ensures Unpack(f, Pack(f, r, g, b)) == (r, g, b)
  {
    if f == RGB888 {
      Fields888(r, g, b);
    } else if f == RGB565 {
      Fields565(r, g, b);
    } else {
      Fields555(r, g, b);
    }
  }

  lemma Fields888(r: nat, g: nat, b: nat)
    requires r < 256 && g < 256 && b < 256
    ensures Unpack(RGB888, Pack(RGB888, r, g, b)) == (r, g, b)
  {
    var color := 0x1_0000 * r + 0x100 * g + b;
    assert Pack(RGB888, r, g, b) == color;
    assert color / 0x1_0000 == r && color / 0x100 == 0x100 * r + g && color % 0x100 == b;
  }

  lemma Fields565(r: nat, g: nat, b: nat)
    requires r < 32 && g < 64 && b < 32
    ensures Unpack(RGB565, Pack(RGB565, r, g, b)) == (r, g, b)
  {
    var color := 0x800 * r + 0x20 * g + b;
    assert Pack(RGB565, r, g, b) == color;
    assert color / 0x800 == r && color / 0x20 == 0x40 * r + g && color % 0x20 == b;
  }

  lemma Fields555(r: nat, g: nat, b: nat)
    requires r < 32 && g < 32 && b < 32
    ensures Unpack(RGB555, Pack(RGB555, r, g, b)) == (r, g, b)
  {
    var color := 0x400 * r + 0x20 * g + b;
    assert Pack(RGB555, r, g, b) == color;
    assert color / 0x400 == r && color / 0x20 == 0x20 * r + g && color % 0x20 == b;
  }

  /** The colour of the cell in row i and column j. */
  function CellColor(f: Format, first: nat, step: nat, n: nat, i: nat, j: nat): nat
    requires Known(f)
  {
    if f == Indexed then ((first + (i * n + j) * step) % 0x1_0000_0000) % 256
    else
      var (r, g, b) := Unpack(f, first);
      Pack(f, (r + j * step) % f.rRange, (g + i * step) % f.gRange, (b + (j + i) * step) % f.bRange)
  }

  /** Unpacked again, a cell's colour gives the three formulas. */
  lemma CellComponents(f: Format, first: nat, step: nat, n: nat, i: nat, j: nat)
    requires Known(f) && f.Direct?
    ensures var (r, g, b) := Unpack(f, first);
      Unpack(f, CellColor(f, first, step, n, i, j)) ==
      ((r + j * step) % f.rRange, (g + i * step) % f.gRange, (b + (j + i) * step) % f.bRange)
  {
    var (r, g, b) := Unpack(f, first);
    UnpackPack(f, (r + j * step) % f.rRange, (g + i * step) % f.gRange, (b + (j + i) * step) % f.bRange);
  }

  /** The cell's number in reading order decides its palette colour. */
  function PaletteColor(first: nat, step: nat, k: int): int {
    ((first + k * step) % 0x1_0000_0000) % 256
  }

  /** In the palette mode the cells count up by the step, row after row, modulo the 256 colours. */
  lemma IndexedCounts(first: nat, step: nat, n: nat, i: nat, j: nat)
    requires n > 0
    ensures CellColor(Indexed, first, step, n, 0, 0) == first % 256
    ensures CellColor(Indexed, first, step, n, i, j + 1) == (CellColor(Indexed, first, step, n, i, j) + step) % 256
    ensures CellColor(Indexed, first, step, n, i + 1, 0) ==
            (CellColor(Indexed, first, step, n, i, n - 1) + step) % 256
  {
    IndexedAt(first, step, n, 0, 0, 0);
    WordThenByte(first);
    MulMono(0, i, n);
    MulSucc(i, n);
    NextIndexed(first, step, n, i, j, i, j + 1, i * n + j);
    NextIndexed(first, step, n, i, n - 1, i + 1, 0, i * n + n - 1);
  }

  lemma NextIndexed(first: nat, step: nat, n: nat, i: nat, j: nat, i': nat, j': nat, k: nat)
    requires k == i * n + j && k + 1 == i' * n + j'
    ensures CellColor(Indexed, first, step, n, i', j') == (CellColor(Indexed, first, step, n, i, j) + step) % 256
  {
    IndexedAt(first, step, n, i, j, k);
    IndexedAt(first, step, n, i', j', k + 1);
    CountsOn(first, step, k);
  }

  lemma IndexedAt(first: nat, step: nat, n: nat, i: nat, j: nat, k: int)
    requires k == i * n + j
    ensures CellColor(Indexed, first, step, n, i, j) == PaletteColor(first, step, k)
    ensures PaletteColor(first, step, 0) == (first % 0x1_0000_0000) % 256
  {
  }

  lemma CountsOn(first: nat, step: nat, k: nat)
    ensures PaletteColor(first, step, k + 1) == (PaletteColor(first, step, k) + step) % 256
  {
    MulSucc(k, step);
    ByteCounts(first + k * step, first + (k + 1) * step, step);
  }

  lemma ByteCounts(a: int, b: int, step: int)
    requires b == a + step
    ensures (b % 0x1_0000_0000) % 256 == ((a % 0x1_0000_0000) % 256 + step) % 256
  {
    WordThenByte(a);
    WordThenByte(b);
    ByteOfSum(a, b, step);
  }

  lemma ByteOfSum(a: int, b: int, step: int)
    requires b == a + step
    ensures b % 256 == (a % 256 + step) % 256
  {
    DivMod(a, 256);
    var s := a % 256 + step;
    DivMod(s, 256);
    QuotientRemainder(b, 256, a / 256 + s / 256, s % 256);
  }

  lemma WordThenByte(a: int)
    ensures (a % 0x1_0000_0000) % 256 == a % 256
  {
  }

  /** A colour of each layout is its three components at their places, and every colour of the layout's
      range is packed from its components. */
  lemma PackUnpack555(color: nat)
    requires color < 0x8000
    ensures var (r, g, b) := Unpack(RGB555, color);
      color == 1024 * r + 32 * g + b && r < 32 && g < 32 && b < 32 && Pack(RGB555, r, g, b) == color
  {
    assert color / 0x400 == color / 0x20 / 32;
  }

  lemma PackUnpack565(color: nat)
    requires color < 0x1_0000
    ensures var (r, g, b) := Unpack(RGB565, color);
      color == 2048 * r + 32 * g + b && r < 32 && g < 64 && b < 32 && Pack(RGB565, r, g, b) == color
  {
    assert color / 0x800 == color / 0x20 / 64;
  }

  lemma PackUnpack888(color: nat)
    requires color < 0x100_0000
    ensures var (r, g, b) := Unpack(RGB888, color);
      color == 65536 * r + 256 * g + b && r < 256 && g < 256 && b < 256 && Pack(RGB888, r, g, b) == color
  {
    assert color / 0x1_0000 == color / 0x100 / 256;
  }

  /** The row or column a coordinate falls in, `n` when cells have no extent. */
  function Cell(p: nat, size: nat, n: nat): nat {
    if size == 0 then n else p / size
  }

  datatype Grid = Grid(format: Format, first: nat, step: nat, n: nat, cellWidth: nat, cellHeight: nat)

  ghost predicate Painted(g: Grid, px: nat, py: nat, i: nat, j: nat) {
    var row, col := Cell(py, g.cellHeight, g.n), Cell(px, g.cellWidth, g.n);
    col < g.n && (row < i || (row == i && col < j))
  }

  ghost function ColorAt(g: Grid, px: nat, py: nat, depth: nat): Pixel
    requires Known(g.format)
  {
    ColorBytes(CellColor(g.format, g.first, g.step, g.n,
                         Cell(py, g.cellHeight, g.n), Cell(px, g.cellWidth, g.n)), depth)
  }

  /** The image after `i` full rows of cells and `j` cells of the next. */
  ghost function Progress(img: seq<Pixel>, xres: nat, g: Grid, depth: nat, i: nat, j: nat): (s: seq<Pixel>)
    requires xres > 0 && Known(g.format)
    ensures |s| == |img|
  {
    seq(|img|, k requires 0 <= k < |img| =>
      if Painted(g, k % xres, k / xres, i, j) then ColorAt(g, k % xres, k / xres, depth) else img[k])
  }

  lemma CellIs(p: nat, size: nat, n: nat, q: nat)
    requires q < n
    ensures Cell(p, size, n) == q <==> q * size <= p < q * size + size
  {
    if size > 0 {
      QuotientIs(p, size, q);
    }
  }

  lemma CellRectangle(g: Grid, px: nat, py: nat, i: nat, j: nat)
    requires i < g.n && j < g.n
    ensures Reached(px, py, j * g.cellWidth, i * g.cellHeight, g.cellWidth, g.cellHeight, 0)
            <==> Cell(py, g.cellHeight, g.n) == i && Cell(px, g.cellWidth, g.n) == j
  {
    CellIs(py, g.cellHeight, g.n, i);
    CellIs(px, g.cellWidth, g.n, j);
  }

  /** Filling the next cell's rectangle is progress by one cell. */
  lemma PaintCell(img: seq<Pixel>, xres: nat, g: Grid, depth: nat, i: nat, j: nat, x: nat, y: nat)
    requires xres > 0 && Known(g.format) && i < g.n && j < g.n && x == j * g.cellWidth && y == i * g.cellHeight
    ensures Drawn(Progress(img, xres, g, depth, i, j), xres, x, y, g.cellWidth,
                  Solid(ColorBytes(CellColor(g.format, g.first, g.step, g.n, i, j), depth)), g.cellHeight, 0)
            == Progress(img, xres, g, depth, i, j + 1)
  {
    var p := ColorBytes(CellColor(g.format, g.first, g.step, g.n, i, j), depth);
    var was, next := Progress(img, xres, g, depth, i, j), Progress(img, xres, g, depth, i, j + 1);
    var now := Drawn(was, xres, x, y, g.cellWidth, Solid(p), g.cellHeight, 0);
    forall k | 0 <= k < |img| ensures now[k] == next[k] {
      CellRectangle(g, k % xres, k / xres, i, j);
    }
  }

  lemma PaintRow(img: seq<Pixel>, xres: nat, g: Grid, depth: nat, i: nat)
    requires xres > 0 && Known(g.format)
    ensures Progress(img, xres, g, depth, i, g.n) == Progress(img, xres, g, depth, i + 1, 0)
  {
  }

  lemma CellOnScreen(q: nat, n: nat, size: nat, res: nat)
    requires q < n && size == res / n
    ensures q * size + size <= res
  {
    MulMono(q + 1, n, size);
    MulSucc(q, size);
    DivMod(res, n);
    assert n * size == (res / n) * n;
  }

  ghost predicate Fits(g: Grid, vb: VideoBuffer) {
    && vb.Valid() && Known(g.format) && 1 <= g.n
    && g.cellWidth == vb.xres / g.n && g.cellHeight == vb.yres / g.n
  }

  /** What drawing the cell's rectangle does to the image. */
  lemma CellDrawn(img: seq<Pixel>, xres: nat, yres: nat, g: Grid, depth: nat, i: nat, j: nat, x: nat, y: nat)
    requires xres > 0 && Known(g.format) && i < g.n && j < g.n && x == j * g.cellWidth && y == i * g.cellHeight
    requires g.cellWidth == xres / g.n && g.cellHeight == yres / g.n
    ensures PaintedRows(Progress(img, xres, g, depth, i, j), xres, x, y, LineCount(xres, yres, x, y, g.cellWidth),
                        RectRows(xres, yres, x, y, g.cellWidth, g.cellHeight),
                        ColorBytes(CellColor(g.format, g.first, g.step, g.n, i, j), depth))
            == Progress(img, xres, g, depth, i, j + 1)
  {
    CellOnScreen(i, g.n, g.cellHeight, yres);
    CellOnScreen(j, g.n, g.cellWidth, xres);
    PaintCell(img, xres, g, depth, i, j, x, y);
    RectangleOnScreen(Progress(img, xres, g, depth, i, j), xres, yres, x, y, g.cellWidth, g.cellHeight,
                      ColorBytes(CellColor(g.format, g.first, g.step, g.n, i, j), depth));
  }

  /** The body of the double loop. */
  method DrawCell(vb: VideoBuffer, g: Grid, i: nat, j: nat, ghost img: seq<Pixel>)
    requires Fits(g, vb) && i < g.n && j < g.n && vb.Image() == Progress(img, vb.xres, g, vb.Depth(), i, j)
    modifies vb.buffer
    ensures vb.Image() == Progress(img, vb.xres, g, vb.Depth(), i, j + 1)
  {
    var x, y := j * g.cellWidth, i * g.cellHeight;
    CellDrawn(img, vb.xres, vb.yres, g, vb.Depth(), i, j, x, y);
    var _ := vb.DrawRectangle(x, y, g.cellWidth, g.cellHeight, CellColor(g.format, g.first, g.step, g.n, i, j));
  }

  method DrawPattern(vb: VideoBuffer, n: nat, first: nat, step: nat, format: Format)
    requires vb.Valid() && 1 <= n < 256 && first < 0x1_0000_0000 && step < 256 && Known(format)
    modifies vb.buffer
    ensures vb.Image() == Progress(old(vb.Image()), vb.xres,
                                   Grid(format, first, step, n, vb.xres / n, vb.yres / n), vb.Depth(), n, 0)
  {
    var g := Grid(format, first, step, n, vb.xres / n, vb.yres / n);
    ghost var img := vb.Image();
    assert Progress(img, vb.xres, g, vb.Depth(), 0, 0) == img;
    var i := 0;
    while i < n
      invariant 0 <= i <= n
      invariant vb.Image() == Progress(img, vb.xres, g, vb.Depth(), i, 0)
    {
      var j := 0;
      while j < n
        invariant 0 <= j <= n
        invariant vb.Image() == Progress(img, vb.xres, g, vb.Depth(), i, j)
      {
        DrawCell(vb, g, i, j, img);
        j := j + 1;
      }
      PaintRow(img, vb.xres, g, vb.Depth(), i);
      CellOnScreen(i, n, g.cellHeight, vb.yres);
      assert i * g.cellHeight <= vb.yres;
      if i * g.cellHeight > vb.yres {
        break;
      }
      i := i + 1;
    }
  }

  /** What the finished pattern shows at each point: the formula colour of cell (py / cellHeight,
      px / cellWidth) inside the n-by-n area, the old pixel to the right of it and below. */
  lemma PatternShows(img: seq<Pixel>, xres: nat, yres: nat, g: Grid, depth: nat, px: nat, py: nat)
    requires Known(g.format) && g.n > 0 && g.cellWidth == xres / g.n && g.cellHeight == yres / g.n
    requires px < xres && py < yres && |img| >= xres * yres
    ensures py * xres + px < |img|
    ensures Progress(img, xres, g, depth, g.n, 0)[py * xres + px] ==
      if px < g.n * g.cellWidth && py < g.n * g.cellHeight
      then ColorAt(g, px, py, depth)
      else img[py * xres + px]
  {
    OnScreenIndex(xres, yres, px, py);
    IndexInverse(xres, px, py);
    CellBelow(px, g.cellWidth, g.n);
    CellBelow(py, g.cellHeight, g.n);
  }

  lemma CellBelow(p: nat, size: nat, n: nat)
    ensures Cell(p, size, n) < n <==> p < n * size
    ensures p < n * size ==> size > 0
  {
    if size > 0 {
      var q := p / size;
      QuotientIs(p, size, q);
      MulSucc(q, size);
      if q < n { MulMono(q + 1, n, size); } else { MulMono(n, q, size); }
    }
  }
}
