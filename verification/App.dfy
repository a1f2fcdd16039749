/**
 The application state and its render pass: a row-major buffer of
 ScreenWidth * ScreenHeight 32-bit pixel values, each filled from the escape
 time of the point its index is drawn at.
 */
module App {
  import opened ComplexNumbers
  import opened Configuration
  import opened Viewport
  import opened Escape

  const U32Modulus: int := 0x1_0000_0000
  const U32Max: int := 0xFFFF_FFFF

  /**
   Rust's `x as u32` on a float: truncation toward zero, saturating at 0 below
   and at u32::MAX above.
   */
  function CastToU32(x: real): (n: uint32)
    ensures 0.0 <= x < U32Modulus as real ==> n as real <= x < n as real + 1.0
    ensures x < 1.0 ==> n == 0
    ensures x >= U32Modulus as real ==> n == U32Max
  {
    if x < 0.0 then 0 else if x >= U32Modulus as real then U32Max else x.Floor
  }

  /**
   The value stored for one pixel: 256 times the escape value (0 for a point
   that stays bounded) cast to u32, the product taken in u32 arithmetic.
   Every stored value is a multiple of 256, and a bounded point is black.
   */
  function PixelValue(escape: Option<real>): (v: uint32)
    ensures v % 256 == 0
    ensures escape.None? ==> v == 0
  {
    var value := match escape case None => 0.0 case Some(t) => t;
    WrappedMultipleOf256(CastToU32(value));
    (256 * CastToU32(value)) % U32Modulus
  }

  /** Reducing 256 * n modulo 2^32 keeps only n modulo 2^24, times 256. */
  lemma {:induction false} WrappedMultipleOf256(n: nat)
    ensures (256 * n) % U32Modulus == 256 * (n % 0x100_0000)
  {
    var q, r := n / 0x100_0000, n % 0x100_0000;
    assert n == q * 0x100_0000 + r;
    assert 256 * n == q * U32Modulus + 256 * r;
    assert 0 <= 256 * r < U32Modulus;
  }

  /**
   When the smoothing term lies in [0, 1) the stored value is exactly 256
   times the escaping iteration index.
   */
  lemma {:induction false} PixelOfEscapeIndex(i: nat, s: real)
    requires 0.0 <= s < 1.0
    requires i < 0x100_0000
    ensures PixelValue(Some(i as real + s)) == 256 * i
  {
    assert CastToU32(i as real + s) == i;
  }

  /** The reference value of the pixel at `index` for a range and settings. */
  function RenderedPixel(r: PlotRange, settings: Settings, shade: real -> real, index: nat): uint32 {
    PixelValue(ShadedEscape(IndexToPoint(r, index), settings.maxIterations, shade))
  }

  /** A pixel whose point stays bounded is rendered black. */
  lemma {:induction false} BoundedPixelIsBlack(r: PlotRange, settings: Settings, shade: real -> real, index: nat)
    requires StaysBounded(IndexToPoint(r, index), settings.maxIterations)
    ensures RenderedPixel(r, settings, shade, index) == 0
  {
    ShadedEscapeCorrect(IndexToPoint(r, index), settings.maxIterations, shade);
  }

  /** The viewer's state, less the window it draws into. */
  datatype Application = Application(plotRange: PlotRange, settings: Settings, buffer: seq<uint32>)

  /** One buffer entry per pixel, an oriented range and a shrinking zoom factor. */
  predicate Valid(app: Application) {
    |app.buffer| == PixelCount && Oriented(app.plotRange) && app.settings.zoom > 0.0
  }

  /** The start-up state: the start range, the default settings and a black buffer. */
  function New(): (app: Application)
    ensures Valid(app)
    ensures app.plotRange == StartRange && app.settings == DefaultSettings
    ensures forall k :: 0 <= k < |app.buffer| ==> app.buffer[k] == 0
  {
    StartRangeOriented();
    Application(StartRange, DefaultSettings, seq(PixelCount, _ => 0))
  }

  /**
   The render pass: every buffer entry is overwritten with the value of the
   point its index is drawn at; the range and settings are untouched.
   */
  method Update(app: Application, shade: real -> real) returns (next: Application)
    ensures next.plotRange == app.plotRange && next.settings == app.settings
    ensures |next.buffer| == |app.buffer|
    ensures forall k :: 0 <= k < |next.buffer| ==>
              next.buffer[k] == RenderedPixel(app.plotRange, app.settings, shade, k)
    ensures forall k :: 0 <= k < |next.buffer| ==> next.buffer[k] % 256 == 0
    ensures forall k | 0 <= k < |next.buffer| && StaysBounded(IndexToPoint(app.plotRange, k), app.settings.maxIterations)
              :: next.buffer[k] == 0
    ensures Valid(app) ==> Valid(next)
  {
    var buffer := app.buffer;
    var index := 0;
    while index < |buffer|
      invariant 0 <= index <= |buffer| == |app.buffer|
      invariant forall k :: 0 <= k < index ==> buffer[k] == RenderedPixel(app.plotRange, app.settings, shade, k)
    {
      var z := IndexToPoint(app.plotRange, index);
      var escape := EscapeTime(z, app.settings, shade);
      buffer := buffer[index := PixelValue(escape)];
      index := index + 1;
    }
    next := app.(buffer := buffer);
    forall k | 0 <= k < |next.buffer| && StaysBounded(IndexToPoint(app.plotRange, k), app.settings.maxIterations)
      ensures next.buffer[k] == 0
    {
      BoundedPixelIsBlack(app.plotRange, app.settings, shade, k);
    }
  }

  /**
   One zoom step, taken on each frame while the left button is held with the
   cursor at `point`: zoom the range in on that pixel, then render the
   whole buffer for the new range.
   */
  method ZoomIn(app: Application, point: (real, real), shade: real -> real) returns (next: Application)
    requires app.settings.zoom != 0.0
    ensures next.plotRange == Viewport.ZoomIn(app.plotRange, point, app.settings)
    ensures next.settings == app.settings
    ensures |next.buffer| == |app.buffer|
    ensures forall k :: 0 <= k < |next.buffer| ==>
              next.buffer[k] == RenderedPixel(next.plotRange, app.settings, shade, k)
    ensures Valid(app) ==> Valid(next)
  {
    var zoomed := app.(plotRange := Viewport.ZoomIn(app.plotRange, point, app.settings));
    next := Update(zoomed, shade);
  }

  /** With an iteration cap of 0 nothing escapes and the whole picture is black. */
  lemma {:induction false} NoIterationsAllBlack(r: PlotRange, settings: Settings, shade: real -> real, index: nat)
    requires settings.maxIterations == 0
    ensures RenderedPixel(r, settings, shade, index) == 0
  {
    BoundedPixelIsBlack(r, settings, shade, index);
  }

  /** The linear index of the pixel at the middle of the window. */
  const CenterIndex: nat := (ScreenHeight / 2) * ScreenWidth + ScreenWidth / 2

  /**
   In the start range the top-left pixel is -2 + 1.25i, outside the radius-2
   disc, so it escapes at iteration index 0 for any positive cap.
   */
  lemma {:induction false} StartCornerEscapesAtOnce(maxIterations: nat)
    requires maxIterations >= 1
    ensures FirstEscape(IndexToPoint(StartRange, 0), maxIterations) == Some(0)
  {
    FirstIndexIsTopLeft(StartRange);
    assert NormSqr(StartRange.topLeft) == 5.5625;
    FarPointEscapesAtOnce(StartRange.topLeft, maxIterations);
  }

  /**
   In the start range the middle pixel is drawn at -1/2, which never escapes,
   so it is rendered black whatever the cap and the smoothing term.
   */
  lemma {:induction false} StartCenterIsBlack(settings: Settings, shade: real -> real)
    ensures IndexToPoint(StartRange, CenterIndex) == MinusHalf
    ensures RenderedPixel(StartRange, settings, shade, CenterIndex) == 0
  {
    StartCenterPoint();
    MinusHalfStaysBounded(settings.maxIterations);
    BoundedPixelIsBlack(StartRange, settings, shade, CenterIndex);
  }

  lemma {:induction false} StartCenterPoint()
    ensures IndexToPoint(StartRange, CenterIndex) == MinusHalf
  {
    assert CenterIndex % ScreenWidth == 320 && CenterIndex / ScreenWidth == 240;
  }
}
