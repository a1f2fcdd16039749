/**
 The viewport: the rectangle of the complex plane shown in the window, the
 map from a linear pixel index to a point of that rectangle, and zooming in
 on the pixel under the cursor.
 */
module Viewport {
  import opened ComplexNumbers
  import opened Configuration

  /** Window size in pixels. */
  const ScreenWidth: nat := 640
  const ScreenHeight: nat := 480

  /** Number of pixels, and so of buffer entries. */
  const PixelCount: nat := ScreenWidth * ScreenHeight

  /**
   A rectangle of the complex plane given by two corners. The real part grows
   to the right and the imaginary part shrinks downwards, as the rows of the
   screen do, when the range is `Oriented`.
   */
  datatype PlotRange = PlotRange(topLeft: Complex, bottomRight: Complex)

  /** The rectangle shown at start-up: [-2, 1] x [-1.25, 1.25]. */
  const StartRange: PlotRange := PlotRange(Complex(-2.0, 1.25), Complex(1.0, -1.25))

  predicate Oriented(r: PlotRange) {
    r.topLeft.re < r.bottomRight.re && r.topLeft.im > r.bottomRight.im
  }

  /** The signed horizontal extent: the offset from the left edge to the right edge. */
  function Width(r: PlotRange): (w: real)
    ensures r.topLeft.re + w == r.bottomRight.re
  {
    r.bottomRight.re - r.topLeft.re
  }

  /**
   The signed vertical extent: the offset from the top edge to the bottom edge,
   negative for an oriented range because going down the screen lowers the
   imaginary part.
   */
  function Height(r: PlotRange): (h: real)
    ensures r.topLeft.im + h == r.bottomRight.im
  {
    r.bottomRight.im - r.topLeft.im
  }

  function Center(r: PlotRange): Complex {
    Complex((r.topLeft.re + r.bottomRight.re) / 2.0, (r.topLeft.im + r.bottomRight.im) / 2.0)
  }

  /** The pixel position at the middle of the window. */
  const ScreenCenter: (real, real) := ((ScreenWidth / 2) as real, (ScreenHeight / 2) as real)

  /**
   Reference map from a (possibly fractional) pixel position to the complex
   plane: the affine map sending pixel (0, 0) to the top-left corner and pixel
   (ScreenWidth, ScreenHeight) to the bottom-right corner.
   */
  function PixelToPoint(r: PlotRange, pixel: (real, real)): Complex {
    Complex(r.topLeft.re + Width(r) * (pixel.0 / ScreenWidth as real),
            r.topLeft.im + Height(r) * (pixel.1 / ScreenHeight as real))
  }

  /** The reference map sends the window's top-left and bottom-right corners to the range's. */
  lemma {:induction false} PixelToPointCorners(r: PlotRange)
    ensures PixelToPoint(r, (0.0, 0.0)) == r.topLeft
    ensures PixelToPoint(r, (ScreenWidth as real, ScreenHeight as real)) == r.bottomRight
  {
  }

  /** Column and row of a linear, row-major pixel index. */
  function Column(index: nat): nat { index % ScreenWidth }
  function Row(index: nat): nat { index / ScreenWidth }

  /**
   The point of the plane drawn at a linear pixel index: the column and row of
   the index, as fractions of the window size, scale the range's width and
   height and are offset by the top-left corner. It is the reference pixel map
   taken at the index's column and row.
   */
  function IndexToPoint(r: PlotRange, index: nat): (p: Complex)
    ensures p == PixelToPoint(r, (Column(index) as real, Row(index) as real))
  {
    var f := (index % ScreenWidth) as real / ScreenWidth as real;
    var g := ((index / ScreenWidth) as real).Floor as real / ScreenHeight as real;
    assert (Row(index) as real).Floor == Row(index);
    assert f * Width(r) == Width(r) * f && g * Height(r) == Height(r) * g;
    Complex(f * Width(r) + r.topLeft.re, g * Height(r) + r.topLeft.im)
  }

  /**
   Re-centres the range on the point drawn at pixel position `point` and
   divides its width and height by `settings.zoom`.
   */
  function ZoomIn(r: PlotRange, point: (real, real), settings: Settings): (r': PlotRange)
    requires settings.zoom != 0.0
    ensures Width(r') == Width(r) / settings.zoom
    ensures Height(r') == Height(r) / settings.zoom
    ensures Center(r') == PixelToPoint(r, point)
    ensures Oriented(r) && settings.zoom > 0.0 ==> Oriented(r')
  {
    var h := Height(r);
    var w := Width(r);
    var midX := point.0 / ScreenWidth as real * w + r.topLeft.re;
    var midY := point.1 / ScreenHeight as real * h + r.topLeft.im;
    var halfW := w / (2.0 * settings.zoom);
    var halfH := h / (2.0 * settings.zoom);
    assert halfW + halfW == w / settings.zoom;
    assert halfH + halfH == h / settings.zoom;
    assert Complex(midX, midY) == PixelToPoint(r, point) by {
      assert point.0 / ScreenWidth as real * w == w * (point.0 / ScreenWidth as real);
      assert point.1 / ScreenHeight as real * h == h * (point.1 / ScreenHeight as real);
    }
    PlotRange(Complex(midX - halfW, midY - halfH), Complex(midX + halfW, midY + halfH))
  }

  /** The start-up range is oriented: 3 units wide and 2.5 units tall. */
  lemma {:induction false} StartRangeOriented()
    ensures Oriented(StartRange)
    ensures Width(StartRange) == 3.0 && Height(StartRange) == -2.5
  {
  }

  /**
   A range is oriented exactly when its width is positive and its height
   negative.
   */
  lemma {:induction false} OrientedBySize(r: PlotRange)
    ensures Oriented(r) <==> Width(r) > 0.0 && Height(r) < 0.0
  {
  }

  /**
   Offsetting `start` by a fraction in [0, 1) of a length `x` lands between
   `start` (included) and `start + x` (excluded).
   */
  lemma {:induction false} FractionOfLength(f: real, start: real, x: real, p: real)
    requires 0.0 <= f < 1.0
    requires p == f * x + start
    ensures x > 0.0 ==> start <= p < start + x
    ensures x < 0.0 ==> start + x < p <= start
  {
    if x > 0.0 {
      assert (1.0 - f) * x > 0.0;
    } else if x < 0.0 {
      assert (1.0 - f) * x < 0.0;
    }
  }

  /**
   Of two offsets from `start` along a length `x`, the one with the larger
   fraction lies further in the direction of `x`.
   */
  lemma {:induction false} LargerFractionFurther(f: real, g: real, start: real, x: real, p: real, q: real)
    requires f < g
    requires p == f * x + start && q == g * x + start
    ensures x > 0.0 ==> p < q
    ensures x < 0.0 ==> p > q
  {
    assert q - p == (g - f) * x;
    if x > 0.0 {
      assert (g - f) * x > 0.0;
    } else if x < 0.0 {
      assert (g - f) * x < 0.0;
    }
  }

  /** An index inside the window has a column and a row inside the window. */
  lemma {:induction false} GridPosition(index: nat)
    requires index < PixelCount
    ensures Column(index) < ScreenWidth && Row(index) < ScreenHeight
    ensures 0.0 <= Column(index) as real / ScreenWidth as real < 1.0
    ensures 0.0 <= Row(index) as real / ScreenHeight as real < 1.0
  {
  }

  /** Pixel index 0 is drawn exactly at the top-left corner. */
  lemma {:induction false} FirstIndexIsTopLeft(r: PlotRange)
    ensures IndexToPoint(r, 0) == r.topLeft
  {
  }

  /** The last pixel index lies one pixel step up and left of the bottom-right corner. */
  lemma {:induction false} LastIndexPoint(r: PlotRange)
    ensures IndexToPoint(r, PixelCount - 1)
         == Complex(r.bottomRight.re - Width(r) / ScreenWidth as real,
                    r.bottomRight.im - Height(r) / ScreenHeight as real)
  {
    assert Column(PixelCount - 1) == ScreenWidth - 1;
    assert Row(PixelCount - 1) == ScreenHeight - 1;
  }

  /**
   On an oriented range every pixel of the window is drawn inside the
   rectangle: on or right of the left edge and strictly left of the right
   edge, on or below the top edge and strictly above the bottom edge.
   */
  lemma {:induction false} IndexToPointContained(r: PlotRange, index: nat)
    requires Oriented(r)
    requires index < PixelCount
    ensures r.topLeft.re <= IndexToPoint(r, index).re < r.bottomRight.re
    ensures r.bottomRight.im < IndexToPoint(r, index).im <= r.topLeft.im
  {
    var p := IndexToPoint(r, index);
    var f := Column(index) as real / ScreenWidth as real;
    var g := Row(index) as real / ScreenHeight as real;
    GridPosition(index);
    assert p.re == f * Width(r) + r.topLeft.re;
    assert p.im == g * Height(r) + r.topLeft.im;
    FractionOfLength(f, r.topLeft.re, Width(r), p.re);
    FractionOfLength(g, r.topLeft.im, Height(r), p.im);
  }

  /**
   Pixels of one row share their imaginary part; pixels of one column share
   their real part.
   */
  lemma {:induction false} RowsAndColumns(r: PlotRange, i: nat, j: nat)
    ensures Row(i) == Row(j) ==> IndexToPoint(r, i).im == IndexToPoint(r, j).im
    ensures Column(i) == Column(j) ==> IndexToPoint(r, i).re == IndexToPoint(r, j).re
  {
  }

  /**
   On an oriented range the real part strictly increases from left to right
   and the imaginary part strictly decreases from top to bottom.
   */
  lemma {:induction false} Monotone(r: PlotRange, i: nat, j: nat)
    requires Oriented(r)
    ensures Column(i) < Column(j) ==> IndexToPoint(r, i).re < IndexToPoint(r, j).re
    ensures Row(i) < Row(j) ==> IndexToPoint(r, i).im > IndexToPoint(r, j).im
  {
    var p, q := IndexToPoint(r, i), IndexToPoint(r, j);
    if Column(i) < Column(j) {
      LargerFractionFurther(Column(i) as real / ScreenWidth as real, Column(j) as real / ScreenWidth as real,
                            r.topLeft.re, Width(r), p.re, q.re);
    }
    if Row(i) < Row(j) {
      LargerFractionFurther(Row(i) as real / ScreenHeight as real, Row(j) as real / ScreenHeight as real,
                            r.topLeft.im, Height(r), p.im, q.im);
    }
  }

  /** On an oriented range no two pixels are drawn at the same point. */
  lemma {:induction false} DistinctPixelsDistinctPoints(r: PlotRange, i: nat, j: nat)
    requires Oriented(r)
    requires i != j
    ensures IndexToPoint(r, i) != IndexToPoint(r, j)
  {
    assert i == Row(i) * ScreenWidth + Column(i);
    assert j == Row(j) * ScreenWidth + Column(j);
    if Column(i) != Column(j) {
      if Column(i) < Column(j) { Monotone(r, i, j); } else { Monotone(r, j, i); }
    } else {
      assert Row(i) != Row(j);
      if Row(i) < Row(j) { Monotone(r, i, j); } else { Monotone(r, j, i); }
    }
  }

  /** The middle of the window is drawn at the centre of the range. */
  lemma {:induction false} ScreenCenterIsCenter(r: PlotRange)
    ensures PixelToPoint(r, ScreenCenter) == Center(r)
  {
    assert ScreenCenter == (320.0, 240.0);
    assert 320.0 / ScreenWidth as real == 0.5;
    assert 240.0 / ScreenHeight as real == 0.5;
  }

  /** A range is determined by its centre, width and height. */
  lemma {:induction false} RangeFromCenterAndSize(a: PlotRange, b: PlotRange)
    requires Center(a) == Center(b)
    requires Width(a) == Width(b) && Height(a) == Height(b)
    ensures a == b
  {
  }

  /**
   After one zoom step, the point under the cursor is drawn at the middle of
   the window.
   */
  lemma {:induction false} ZoomMovesClickToCenter(r: PlotRange, point: (real, real), settings: Settings)
    requires settings.zoom != 0.0
    ensures PixelToPoint(ZoomIn(r, point, settings), ScreenCenter) == PixelToPoint(r, point)
  {
    ScreenCenterIsCenter(ZoomIn(r, point, settings));
  }

  /** Zooming by a factor of one at the middle of the window changes nothing. */
  lemma {:induction false} ZoomByOneAtCenter(r: PlotRange, settings: Settings)
    requires settings.zoom == 1.0
    ensures ZoomIn(r, ScreenCenter, settings) == r
  {
    ScreenCenterIsCenter(r);
    RangeFromCenterAndSize(ZoomIn(r, ScreenCenter, settings), r);
  }

  /**
   A range whose centre equals that of `r` and whose sizes are those of `r`
   divided by `a` and then by `b` equals the range with that centre whose sizes
   are those of `r` divided by `a * b`.
   */
  lemma {:induction false} ShrinkTwice(r: PlotRange, twice: PlotRange, direct: PlotRange, a: real, b: real, ab: real)
    requires a != 0.0 && b != 0.0 && ab == a * b
    requires Center(twice) == Center(direct)
    requires Width(twice) == Width(r) / a / b && Height(twice) == Height(r) / a / b
    requires Width(direct) == Width(r) / ab && Height(direct) == Height(r) / ab
    ensures twice == direct
  {
    assert Width(r) / a == (Width(r) / ab) * b;
    assert Height(r) / a == (Height(r) / ab) * b;
    RangeFromCenterAndSize(twice, direct);
  }

  /**
   Zooming at a pixel by `a` and then at the middle of the window by `b` is
   zooming once at that pixel by `a * b`.
   */
  lemma {:induction false} ZoomCompose(r: PlotRange, point: (real, real), first: Settings, second: Settings, both: Settings)
    requires first.zoom != 0.0 && second.zoom != 0.0
    requires both.zoom == first.zoom * second.zoom
    ensures ZoomIn(ZoomIn(r, point, first), ScreenCenter, second) == ZoomIn(r, point, both)
  {
    var once := ZoomIn(r, point, first);
    var twice := ZoomIn(once, ScreenCenter, second);
    var direct := ZoomIn(r, point, both);
    ScreenCenterIsCenter(once);
    ShrinkTwice(r, twice, direct, first.zoom, second.zoom, both.zoom);
  }

  /**
   Zooming in at the middle of the window and then zooming by the reciprocal
   factor at the middle again restores the range exactly.
   */
  lemma {:induction false} ZoomRoundTrip(r: PlotRange, zoomIn: Settings, zoomOut: Settings)
    requires zoomIn.zoom != 0.0
    requires zoomOut.zoom == 1.0 / zoomIn.zoom
    ensures ZoomIn(ZoomIn(r, ScreenCenter, zoomIn), ScreenCenter, zoomOut) == r
  {
    var identity := Settings(1.0, zoomIn.maxIterations);
    ZoomCompose(r, ScreenCenter, zoomIn, zoomOut, identity);
    ZoomByOneAtCenter(r, identity);
  }
}
