/** The lock-with-slash tray glyph and its rasterisation, one XDrawPoint per
    cell, into a 24x24 pixmap (createIconPixmap in src/trayicon.c). */
module IconPixmap {
  import opened Wrappers

  /** Side of the square tray icon, in pixels (ICON_SIZE). */
  const IconSize: nat := 24
  /** Entries of the XPM array: a header, four colour lines, 24 pixel rows. */
  const XpmEntries: nat := 29
  /** Index of the first pixel row, past the header and the colour lines. */
  const FirstPixelRow: nat := 5
  /** Characters per pixel row, the bound of the inner loop's second guard. */
  const XpmRowChars: nat := 24
  /** Foreground used for a transparent cell: the pixmap has no alpha channel. */
  const LightGray: nat := 0xC0C0C0

  /** The glyph as XPM text. The colour lines are never parsed: the meaning of
      each character is fixed by ForegroundFor. */
  const LockSlashXpm: seq<string> := [
    "24 24 4 1",
    "  c None",
    ". c #000000",
    "+ c #FF0000",
    "@ c #FFFFFF",
    "                        ",
    "                        ",
    "        ........        ",
    "       ..      ..       ",
    "      ..        ..      ",
    "     ..          ..     ",
    "     .            .     ",
    "    ..   ++++++   ..    ",
    "   ....++......++....   ",
    "  ...++..........++...  ",
    "  ..++..@@@@@@@@..++..  ",
    "  .++...@@....@@...++.  ",
    "  .+....@@....@@....+.  ",
    "  .+....@@....@@....+.  ",
    "  ..++..@@....@@..++..  ",
    "  ...++..@@@@@@..++...  ",
    "   ....++......++....   ",
    "    ....++++++....      ",
    "      ........          ",
    "                        ",
    "                        ",
    "                        ",
    "                        ",
    "                        "
  ]

  /** The pixel values in force while drawing: the default screen's black and
      white, and the accent (the allocated red, or its fallback). */
  datatype Palette = Palette(black: nat, white: nat, accent: nat)

  /** One XDrawPoint call: the point and the GC foreground it is drawn with. */
  datatype Plot = Plot(x: int, y: int, pixel: nat)

  /** The accent pixel: red when XAllocNamedColor succeeded, else white. */
  function AccentPixel(red: Option<nat>, white: nat): nat
  {
    match red
    case Some(pixel) => pixel
    case None => white
  }

  /** The palette createIconPixmap draws with. */
  function ResolvePalette(black: nat, white: nat, red: Option<nat>): Palette
  {
    Palette(black, white, AccentPixel(red, white))
  }

  predicate IsBackground(c: char)
  {
    c != '.' && c != '+' && c != '@'
  }

  /** The foreground chosen for one glyph character. */
  function ForegroundFor(c: char, pal: Palette): (r: nat)
    ensures r in {pal.black, pal.accent, pal.white, LightGray}
    ensures IsBackground(c) ==> r == LightGray
  {
    if c == '.' then pal.black
    else if c == '+' then pal.accent
    else if c == '@' then pal.white
    else LightGray
  }

  /** Every index the drawing loop reads lies inside the glyph, and the loops'
      second guards (y + 5 < 29, x < 24) hold whenever the first ones do. */
  lemma GlyphCoversLoop()
    ensures |LockSlashXpm| == XpmEntries == FirstPixelRow + IconSize
    ensures forall k :: FirstPixelRow <= k < XpmEntries ==> |LockSlashXpm[k]| == XpmRowChars == IconSize
  {
  }

  /** Pixel row y of the glyph: entry y + 5. */
  function GlyphRow(y: nat): (line: string)
    requires y < IconSize
    ensures |line| == IconSize
  {
    GlyphCoversLoop();
    LockSlashXpm[y + FirstPixelRow]
  }

  /** The glyph character of cell (x, y): entry y + 5, column x. */
  function Cell(x: nat, y: nat): char
    requires x < IconSize && y < IconSize
  {
    GlyphRow(y)[x]
  }

  /** The plots of the first n cells of row y, in drawing order. */
  function RowPlots(pal: Palette, y: nat, n: nat): (plots: seq<Plot>)
    requires y < IconSize && n <= IconSize
    ensures |plots| == n
  {
    if n == 0 then []
    else RowPlots(pal, y, n - 1) + [Plot(n - 1, y, ForegroundFor(Cell(n - 1, y), pal))]
  }

  /** The plots of the first m rows, in drawing order. */
  function GridPlots(pal: Palette, m: nat): seq<Plot>
    requires m <= IconSize
  {
    if m == 0 then [] else GridPlots(pal, m - 1) + RowPlots(pal, m - 1, IconSize)
  }

  /** Renders the glyph: allocates the pixmap and draws every cell once, row
      by row, with the foreground its character selects. Returns the pixmap
      and the points drawn, in order. */
  method CreateIconPixmap(black: nat, white: nat, red: Option<nat>)
      returns (pixmap: array2<nat>, plots: seq<Plot>)
    ensures fresh(pixmap)
    ensures pixmap.Length0 == IconSize && pixmap.Length1 == IconSize
    ensures plots == GridPlots(ResolvePalette(black, white, red), IconSize)
    ensures forall x, y :: 0 <= x < IconSize && 0 <= y < IconSize ==>
      pixmap[x, y] == ForegroundFor(Cell(x, y), ResolvePalette(black, white, red))
  {
    var width, height := IconSize, IconSize;
    var redPixel := AccentPixel(red, white);
    var pal := Palette(black, white, redPixel);
    pixmap := new nat[width, height];
    plots := [];
    GlyphCoversLoop();
    var y := 0;
    while y < height && y + FirstPixelRow < XpmEntries
      invariant 0 <= y <= height
      invariant plots == GridPlots(pal, y)
      invariant forall x', y' :: 0 <= x' < IconSize && 0 <= y' < y ==>
        pixmap[x', y'] == ForegroundFor(Cell(x', y'), pal)
    {
      var row := DrawRow(pixmap, pal, y);
      plots := plots + row;
      y := y + 1;
    }
  }

  /** The inner loop of createIconPixmap: draws the 24 cells of row y. */
  method DrawRow(pixmap: array2<nat>, pal: Palette, y: nat) returns (plots: seq<Plot>)
    requires pixmap.Length0 == IconSize && pixmap.Length1 == IconSize && y < IconSize
    modifies pixmap
    ensures plots == RowPlots(pal, y, IconSize)
    ensures forall x :: 0 <= x < IconSize ==> pixmap[x, y] == ForegroundFor(Cell(x, y), pal)
    ensures forall x', y' :: 0 <= x' < IconSize && 0 <= y' < IconSize && y' != y ==> pixmap[x', y'] == old(pixmap[x', y'])
  {
    var line := GlyphRow(y);
    plots := [];
    var x := 0;
    while x < IconSize && x < XpmRowChars
      invariant 0 <= x <= IconSize
      invariant plots == RowPlots(pal, y, x)
      invariant forall x' :: 0 <= x' < x ==> pixmap[x', y] == ForegroundFor(Cell(x', y), pal)
      invariant forall x', y' :: 0 <= x' < IconSize && 0 <= y' < IconSize && y' != y ==> pixmap[x', y'] == old(pixmap[x', y'])
    {
      assert line[x] == Cell(x, y);
      var foreground := ForegroundFor(line[x], pal);
      pixmap[x, y] := foreground;
      plots := plots + [Plot(x, y, foreground)];
      x := x + 1;
    }
  }

  /** Row plots: n of them, the i-th at (i, y). */
  lemma {:induction false} RowPlotsAt(pal: Palette, y: nat, n: nat)
    requires y < IconSize && n <= IconSize
    ensures |RowPlots(pal, y, n)| == n
    ensures forall i :: 0 <= i < n ==> RowPlots(pal, y, n)[i] == Plot(i, y, ForegroundFor(Cell(i, y), pal))
  {
    if n > 0 {
      RowPlotsAt(pal, y, n - 1);
    }
  }

  lemma DivModBy24(i: int, q: int, r: int)
    requires i == IconSize * q + r && 0 <= r < IconSize
    ensures i / IconSize == q && i % IconSize == r
  {
  }

  /** The first m rows hold 24 * m plots; plot i is at (i % 24, i / 24). */
  lemma {:induction false} GridPlotsAt(pal: Palette, m: nat)
    requires m <= IconSize
    ensures |GridPlots(pal, m)| == IconSize * m
    ensures forall i :: 0 <= i < IconSize * m ==>
      GridPlots(pal, m)[i] == Plot(i % IconSize, i / IconSize, ForegroundFor(Cell(i % IconSize, i / IconSize), pal))
  {
    if m > 0 {
      GridPlotsAt(pal, m - 1);
      RowPlotsAt(pal, m - 1, IconSize);
      var prefix := GridPlots(pal, m - 1);
      var row := RowPlots(pal, m - 1, IconSize);
      forall i | 0 <= i < IconSize * m
        ensures GridPlots(pal, m)[i] == Plot(i % IconSize, i / IconSize, ForegroundFor(Cell(i % IconSize, i / IconSize), pal))
      {
        if i >= IconSize * (m - 1) {
          var k := i - IconSize * (m - 1);
          DivModBy24(i, m - 1, k);
          assert GridPlots(pal, m)[i] == row[k];
        } else {
          assert GridPlots(pal, m)[i] == prefix[i];
        }
      }
    }
  }

  /** Rendering draws exactly 24 * 24 points, all inside the icon, each cell
      once, each with the foreground of glyph entry y + 5, column x. */
  lemma EveryCellPlottedOnce(pal: Palette)
    ensures |GridPlots(pal, IconSize)| == IconSize * IconSize == 576
    ensures forall i :: 0 <= i < |GridPlots(pal, IconSize)| ==>
      0 <= GridPlots(pal, IconSize)[i].x < IconSize && 0 <= GridPlots(pal, IconSize)[i].y < IconSize
    ensures forall i, j :: 0 <= i < j < |GridPlots(pal, IconSize)| ==>
      (GridPlots(pal, IconSize)[i].x, GridPlots(pal, IconSize)[i].y) != (GridPlots(pal, IconSize)[j].x, GridPlots(pal, IconSize)[j].y)
    ensures forall x, y :: 0 <= x < IconSize && 0 <= y < IconSize ==>
      GridPlots(pal, IconSize)[IconSize * y + x] == Plot(x, y, ForegroundFor(Cell(x, y), pal))
  {
    var g := GridPlots(pal, IconSize);
    GridPlotsAt(pal, IconSize);
    forall i, j | 0 <= i < j < |g| ensures (g[i].x, g[i].y) != (g[j].x, g[j].y) {
      assert i == IconSize * g[i].y + g[i].x;
      assert j == IconSize * g[j].y + g[j].x;
    }
    forall x, y | 0 <= x < IconSize && 0 <= y < IconSize
      ensures g[IconSize * y + x] == Plot(x, y, ForegroundFor(Cell(x, y), pal))
    {
      DivModBy24(IconSize * y + x, y, x);
    }
  }

  /** When red cannot be allocated the render still completes: every accent
      cell is drawn white, every other cell exactly as with red. */
  lemma RedFallbackDrawsAccentWhite(black: nat, white: nat, red: nat)
    ensures |GridPlots(ResolvePalette(black, white, None), IconSize)| == |GridPlots(ResolvePalette(black, white, Some(red)), IconSize)| == IconSize * IconSize
    ensures forall i :: 0 <= i < IconSize * IconSize ==>
      GridPlots(ResolvePalette(black, white, None), IconSize)[i] ==
        var drawn := GridPlots(ResolvePalette(black, white, Some(red)), IconSize)[i];
        if Cell(i % IconSize, i / IconSize) == '+' then drawn.(pixel := white) else drawn
  {
    GridPlotsAt(ResolvePalette(black, white, None), IconSize);
    GridPlotsAt(ResolvePalette(black, white, Some(red)), IconSize);
  }

  /** How many plots carry pixel value p. */
  function CountPixel(plots: seq<Plot>, p: nat): nat
  {
    if plots == [] then 0
    else CountPixel(plots[..|plots| - 1], p) + (if plots[|plots| - 1].pixel == p then 1 else 0)
  }

  /** How many characters of s are transparent (neither '.', '+' nor '@'). */
  function CountBackground(s: string): nat
  {
    if s == [] then 0
    else CountBackground(s[..|s| - 1]) + (if IsBackground(s[|s| - 1]) then 1 else 0)
  }

  /** How many characters of the given rows are transparent. */
  function CountBackgroundRows(rows: seq<string>): nat
  {
    if rows == [] then 0
    else CountBackgroundRows(rows[..|rows| - 1]) + CountBackground(rows[|rows| - 1])
  }

  lemma {:induction false} CountPixelAppend(a: seq<Plot>, b: seq<Plot>, p: nat)
    ensures CountPixel(a + b, p) == CountPixel(a, p) + CountPixel(b, p)
  {
    if b == [] {
      assert a + b == a;
    } else {
      assert (a + b)[..|a + b| - 1] == a + b[..|b| - 1];
      CountPixelAppend(a, b[..|b| - 1], p);
    }
  }

  /** A palette none of whose three colours is the light gray. */
  predicate DistinctFromGray(pal: Palette)
  {
    pal.black != LightGray && pal.accent != LightGray && pal.white != LightGray
  }

  lemma {:induction false} RowGrayCount(pal: Palette, y: nat, n: nat)
    requires DistinctFromGray(pal) && y < IconSize && n <= IconSize
    ensures CountPixel(RowPlots(pal, y, n), LightGray) == CountBackground(GlyphRow(y)[..n])
  {
    var line := GlyphRow(y);
    if n > 0 {
      RowGrayCount(pal, y, n - 1);
      var plots := RowPlots(pal, y, n);
      assert plots[..n - 1] == RowPlots(pal, y, n - 1);
      assert plots[n - 1].pixel == LightGray <==> IsBackground(line[n - 1]);
      assert line[..n][..n - 1] == line[..n - 1];
    }
  }

  lemma {:induction false} GridGrayCount(pal: Palette, m: nat)
    requires DistinctFromGray(pal) && m <= IconSize
    ensures CountPixel(GridPlots(pal, m), LightGray) == CountBackgroundRows(LockSlashXpm[FirstPixelRow..FirstPixelRow + m])
  {
    GlyphCoversLoop();
    if m > 0 {
      GridGrayCount(pal, m - 1);
      RowGrayCount(pal, m - 1, IconSize);
      CountPixelAppend(GridPlots(pal, m - 1), RowPlots(pal, m - 1, IconSize), LightGray);
      var rows := LockSlashXpm[FirstPixelRow..FirstPixelRow + m];
      assert rows[..m - 1] == LockSlashXpm[FirstPixelRow..FirstPixelRow + m - 1];
      assert rows[m - 1] == GlyphRow(m - 1);
      assert rows[m - 1][..IconSize] == rows[m - 1];
    }
  }

  /** The light-gray points of the rendered icon are as many as the
      transparent characters of the 24 pixel rows (when the screen's black,
      white and accent are not that gray themselves). */
  lemma LightGrayCountMatchesGlyph(pal: Palette)
    requires DistinctFromGray(pal)
    ensures CountPixel(GridPlots(pal, IconSize), LightGray) == CountBackgroundRows(LockSlashXpm[FirstPixelRow..])
  {
    GridGrayCount(pal, IconSize);
    GlyphCoversLoop();
    assert LockSlashXpm[FirstPixelRow..FirstPixelRow + IconSize] == LockSlashXpm[FirstPixelRow..];
  }
}
