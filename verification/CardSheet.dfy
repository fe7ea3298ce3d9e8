/** `vg_draw_card`: copying one card from the sheet of 13 by 4 faces, or the card back, to the screen. */
module CardSheet {
  import opened Bytes
  import opened Cards
  import opened Video

  const SHEET_WIDTH := 950
  const SHEET_HEIGHT := 392

  /** Byte address of the sheet pixel (73 * column + c, 99 * row + r), three bytes a pixel. */
  function SheetAddress(column: int, row: int, c: int, r: int): int {
    3 * (SHEET_WIDTH * (99 * row + r) + 73 * column + c)
  }

  /** Every pixel of all 52 faces lies inside the sheet. */
  lemma TileInsideSheet(column: int, row: int, c: int, r: int)
    requires 0 <= column < 13 && 0 <= row < 4 && 0 <= c < CARD_WIDTH && 0 <= r < CARD_HEIGHT
    ensures 0 <= 73 * column + c < SHEET_WIDTH && 0 <= 99 * row + r < SHEET_HEIGHT
    ensures 0 <= SheetAddress(column, row, c, r)
    ensures SheetAddress(column, row, c, r) + 3 <= 3 * SHEET_WIDTH * SHEET_HEIGHT
  {
  }

  /** The address tells where on the sheet the pixel lies, so no two faces share one. */
  lemma SheetPlace(column: int, row: int, c: int, r: int)
    requires 0 <= column < 13 && 0 <= row < 4 && 0 <= c < CARD_WIDTH && 0 <= r < CARD_HEIGHT
    ensures var pixel := SheetAddress(column, row, c, r) / 3;
      && SheetAddress(column, row, c, r) == 3 * pixel
      && pixel % 950 / 73 == column && pixel % 950 % 73 == c && pixel / 950 / 99 == row && pixel / 950 % 99 == r
  {
    var pixel, x, y := SheetAddress(column, row, c, r) / 3, 73 * column + c, 99 * row + r;
    assert pixel == 950 * y + x;
    assert pixel % 950 == x && pixel / 950 == y;
  }

  lemma FacesApart(column: int, row: int, c: int, r: int, column': int, row': int, c': int, r': int)
    requires 0 <= column < 13 && 0 <= row < 4 && 0 <= c < CARD_WIDTH && 0 <= r < CARD_HEIGHT
    requires 0 <= column' < 13 && 0 <= row' < 4 && 0 <= c' < CARD_WIDTH && 0 <= r' < CARD_HEIGHT
    requires SheetAddress(column, row, c, r) == SheetAddress(column', row', c', r')
    ensures column == column' && row == row' && c == c' && r == r'
  {
    SheetPlace(column, row, c, r);
    SheetPlace(column', row', c', r');
  }

  /** Three bytes of a sheet, or nothing outside it. */
  function Texel(sheet: seq<byte>, at: int): Pixel {
    if 0 <= at && at + 3 <= |sheet| then sheet[at..at + 3] else []
  }

  ghost function FaceSource(sheet: seq<byte>, column: int, row: int): (int, int) -> Pixel {
    (c: int, r: int) => Texel(sheet, SheetAddress(column, row, c, r))
  }

  function BackAddress(width: nat, c: int, r: int): int {
    3 * RowMajor(width, c, r)
  }

  ghost function BackSource(back: seq<byte>, width: nat): (int, int) -> Pixel {
    (c: int, r: int) => Texel(back, BackAddress(width, c, r))
  }

  /** A colour read from three bytes and stored as three bytes is those bytes. */
  lemma ReadThenStore(sheet: seq<byte>, at: nat)
    requires at + 3 <= |sheet|
    ensures ColorBytes(ColorOf(sheet, at), 3) == Texel(sheet, at)
  {
    ColorSplits(sheet[at], sheet[at + 1], sheet[at + 2]);
    var p, q := ColorBytes(ColorOf(sheet, at), 3), Texel(sheet, at);
    assert p[0] == q[0] && p[1] == q[1] && p[2] == q[2];
  }

  lemma ColorSplits(a: byte, b: byte, c: byte)
    ensures var color: int := a as int + 0x100 * b as int + 0x1_0000 * c as int;
      color % 256 == a && (color / 0x100) % 256 == b && (color / 0x1_0000) % 256 == c
  {
    var color: int := a as int + 0x100 * b as int + 0x1_0000 * c as int;
    assert color / 0x100 == b as int + 0x100 * c as int && color / 0x1_0000 == c;
  }

  /** Three bytes read into a word, lowest first. */
  function ColorOf(sheet: seq<byte>, at: nat): nat
    requires at + 3 <= |sheet|
  {
    sheet[at] as int + 0x100 * sheet[at + 1] as int + 0x1_0000 * sheet[at + 2] as int
  }

  /** That is the number they make up. */
  lemma ColorIsNumber(sheet: seq<byte>, at: nat)
    requires at + 3 <= |sheet|
    ensures ColorOf(sheet, at) == Number(sheet[at..at + 3])
  {
    var p := sheet[at..at + 3] + [0];
    NumberOfFour(p, p[0], p[1], p[2], p[3]);
    assert p[..3] == sheet[at..at + 3];
  }

  method ReadColor(sheet: seq<byte>, at: nat) returns (color: nat)
    requires at + 3 <= |sheet|
    ensures ColorBytes(color, 3) == sheet[at..at + 3]
  {
    color := ColorOf(sheet, at);
    ReadThenStore(sheet, at);
  }

  /** One pixel of a block that lies on the screen. */
  method DrawDot(vb: VideoBuffer, x: nat, y: nat, w: nat, h: nat, r: nat, c: nat, color: nat,
                 ghost img: seq<Pixel>, ghost source: (int, int) -> Pixel)
    requires vb.Valid() && |img| == vb.Cells() && x + w <= vb.xres && y + h <= vb.yres && r < h && c < w
    requires ColorBytes(color, vb.Depth()) == source(c, r)
    requires vb.Image() == Drawn(img, vb.xres, x, y, w, source, r, c)
    modifies vb.buffer
    ensures vb.Image() == Drawn(img, vb.xres, x, y, w, source, r, c + 1)
  {
    OnScreenIndex(vb.xres, vb.yres, x + c, y + r);
    DrawnPixel(img, vb.xres, x, y, w, source, r, c);
    var _ := vb.DrawPixel(x + c, y + r, color);
  }

  /** A face: the running pointer skips the rest of the sheet's row after each row of the card. */
  method DrawFace(vb: VideoBuffer, sheet: seq<byte>, screenX: nat, screenY: nat, column: nat, row: nat)
    requires vb.Valid() && vb.bitsPerPixel == 24 && |sheet| == 3 * SHEET_WIDTH * SHEET_HEIGHT
    requires column < 13 && row < 4
    requires screenX + CARD_WIDTH <= vb.xres && screenY + CARD_HEIGHT <= vb.yres
    modifies vb.buffer
    ensures vb.Image() == Drawn(old(vb.Image()), vb.xres, screenX, screenY, CARD_WIDTH,
                                FaceSource(sheet, column, row), CARD_HEIGHT, 0)
  {
    ghost var img, source := vb.Image(), FaceSource(sheet, column, row);
    DrawnNothing(img, vb.xres, screenX, screenY, CARD_WIDTH, source);
    var at := (73 * column + SHEET_WIDTH * (99 * row)) * 3;
    var line := screenY;
    while line < CARD_HEIGHT + screenY
      invariant screenY <= line <= CARD_HEIGHT + screenY
      invariant at == SheetAddress(column, row, 0, line - screenY)
      invariant vb.Image() == Drawn(img, vb.xres, screenX, screenY, CARD_WIDTH, source, line - screenY, 0)
    {
      var col := screenX;
      while col < CARD_WIDTH + screenX
        invariant screenX <= col <= CARD_WIDTH + screenX
        invariant at == SheetAddress(column, row, col - screenX, line - screenY)
        invariant vb.Image() ==
                  Drawn(img, vb.xres, screenX, screenY, CARD_WIDTH, source, line - screenY, col - screenX)
      {
        TileInsideSheet(column, row, col - screenX, line - screenY);
        var color := ReadColor(sheet, at);
        DrawDot(vb, screenX, screenY, CARD_WIDTH, CARD_HEIGHT, line - screenY, col - screenX, color, img, source);
        at := at + 3;
        col := col + 1;
      }
      DrawnRow(img, vb.xres, screenX, screenY, CARD_WIDTH, source, line - screenY);
      at := at + 3 * (SHEET_WIDTH - CARD_WIDTH);
      line := line + 1;
    }
  }

  /** The back: the whole image in order. */
  method DrawBack(vb: VideoBuffer, back: seq<byte>, width: nat, height: nat, screenX: nat, screenY: nat)
    requires vb.Valid() && vb.bitsPerPixel == 24 && |back| == 3 * (width * height)
    requires screenX + width <= vb.xres && screenY + height <= vb.yres
    modifies vb.buffer
    ensures vb.Image() == Drawn(old(vb.Image()), vb.xres, screenX, screenY, width,
                                BackSource(back, width), height, 0)
  {
    ghost var img, source := vb.Image(), BackSource(back, width);
    DrawnNothing(img, vb.xres, screenX, screenY, width, source);
    var at := 0;
    var line := screenY;
    while line < height + screenY
      invariant screenY <= line <= height + screenY && at == BackAddress(width, 0, line - screenY)
      invariant vb.Image() == Drawn(img, vb.xres, screenX, screenY, width, source, line - screenY, 0)
    {
      var col := screenX;
      while col < width + screenX
        invariant screenX <= col <= width + screenX && at == BackAddress(width, col - screenX, line - screenY)
        invariant vb.Image() == Drawn(img, vb.xres, screenX, screenY, width, source, line - screenY, col - screenX)
      {
        RowMajorSteps(width, height, col - screenX, line - screenY);
        var color := ReadColor(back, at);
        DrawDot(vb, screenX, screenY, width, height, line - screenY, col - screenX, color, img, source);
        at := at + 3;
        col := col + 1;
      }
      DrawnRow(img, vb.xres, screenX, screenY, width, source, line - screenY);
      RowMajorSteps(width, height, 0, line - screenY);
      line := line + 1;
    }
  }

  /** `vg_draw_card`: position (-1, -1) asks for the back, an image of 75 by 109. */
  method DrawCard(vb: VideoBuffer, sheet: seq<byte>, back: seq<byte>,
                  screenX: nat, screenY: nat, positionX: int, positionY: int)
    requires vb.Valid() && vb.bitsPerPixel == 24
    requires |sheet| == 3 * SHEET_WIDTH * SHEET_HEIGHT && |back| == 3 * (BACK_WIDTH * BACK_HEIGHT)
    requires (positionX == -1 && positionY == -1) || (0 <= positionX < 13 && 0 <= positionY < 4)
    requires screenX + BACK_WIDTH <= vb.xres && screenY + BACK_HEIGHT <= vb.yres
    modifies vb.buffer
    ensures vb.Image() ==
      if positionX == -1
      then Drawn(old(vb.Image()), vb.xres, screenX, screenY, BACK_WIDTH, BackSource(back, BACK_WIDTH), BACK_HEIGHT, 0)
      else Drawn(old(vb.Image()), vb.xres, screenX, screenY, CARD_WIDTH, FaceSource(sheet, positionX, positionY),
                 CARD_HEIGHT, 0)
  {
    if positionX == -1 && positionY == -1 {
      DrawBack(vb, back, BACK_WIDTH, BACK_HEIGHT, screenX, screenY);
    } else {
      DrawFace(vb, sheet, screenX, screenY, positionX, positionY);
    }
  }

  /** On the 800 by 600 screen the place of every card leaves room for its back, as DrawCard asks. */
  lemma CardsOnScreen(col: nat, row: nat)
    requires col < 4 && row < 4
    ensures var (sx, sy) := ScreenXY(col, row);
      0 <= sx && sx + BACK_WIDTH <= X_RESOLUTION && 0 <= sy && sy + BACK_HEIGHT <= Y_RESOLUTION
  {
  }
}
