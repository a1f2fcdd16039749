# mandelbrot-rs viewport and escape-time core, in Dafny

This project models the render core of the `mandelbrot-rs` viewer
(`src/main.rs`). The window is 640 × 480 pixels. It shows a rectangle of the
complex plane, the `PlotRange`. The rectangle starts as [-2, 1] × [-1.25, 1.25].
Each pixel index is mapped to a complex point `c`. The viewer then iterates
z ← z² + c from 0, at most 255 times, and stores `256 * (escape value) as u32`
in a row-major buffer. While the left mouse button is held, each frame zooms
the rectangle in by a factor 2 around the cursor and renders again.

Modules:

- `ComplexNumbers`: the pair-of-reals complex numbers used by the viewer:
  addition, multiplication and the squared modulus. This replaces `num::Complex`.
- `Configuration`: the zoom factor and iteration cap (`ZoomFactor`,
  `MaxIterations`) and `Settings`, the source's `ApplicationSettings`.
- `Viewport`: the window size (`ScreenWidth`, `ScreenHeight`), `StartRange`,
  `PlotRange` with `Width`, `Height`, `IndexToPoint` and `ZoomIn`, and a
  reference pixel-to-plane map `PixelToPoint`.
- `Escape`: the orbit `Orbit(c, n)`, the reference first-escape search
  `FirstEscape`, and `EscapeTime`, the source's loop.
- `App`: the float-to-`u32` cast, the pixel value rule, the application state,
  `New` (the buffer sizing in `Application::new`), `Update` (the fill loop) and
  `ZoomIn` (zoom, then render).

`f32` is modelled as `real` throughout. The smoothing term
`1 - ln(log2(|z|²)/2)` is a parameter `shade: real -> real`, applied to |z|² at
the escaping iteration. Nothing is assumed about it, so only the integer
iteration index is pinned down exactly.

The viewer has only zoom-in with the left button, a fixed iteration cap of 255 and a
fixed scale of 256. There is no zoom-out, panning or recolouring. The middle
pixel of the start image (column 320, row 240) is drawn at -1/2 + 0i, not at
the origin. That point is bounded (`App.StartCenterIsBlack`).

## Model

| member | source | states |
|---|---|---|
| `Viewport.Width` | src/main.rs:56-58 | The width is the signed offset that takes the left edge's real part to the right edge's. It is positive exactly for oriented ranges (`OrientedBySize`). |
| `Viewport.Height` | src/main.rs:53-55 | The height is the signed offset that takes the top edge's imaginary part to the bottom edge's. It is negative exactly for oriented ranges (`OrientedBySize`). |
| `Viewport.StartRangeOriented` | src/main.rs:9-10 | The start range is correctly oriented (left < right, top > bottom), 3 units wide and -2.5 units high. |
| `Viewport.OrientedBySize` | src/main.rs:53-58 | Width and height come from the two corners. A range is oriented exactly when its width is positive and its height negative. |
| `Viewport.FirstIndexIsTopLeft` | src/main.rs:37-42 | Pixel index 0 maps exactly to `top_left`. |
| `Viewport.LastIndexPoint` | src/main.rs:37-42 | The last index maps one pixel step up and left of `bottom_right` (last row, last column). |
| `Viewport.PixelToPointCorners` | src/main.rs:46-47 | `PixelToPoint`, the affine pixel-to-plane map that `zoom_in` uses for the cursor position, sends pixel (0, 0) to `top_left` and pixel (WIDTH, HEIGHT) to `bottom_right`. |
| `Viewport.IndexToPoint` | src/main.rs:37-42 | `index_to_point` equals the affine pixel-to-plane map `PixelToPoint`, taken at the index's column `index % WIDTH` and row `index / WIDTH` (the floor of an integer row is the row itself). `FirstIndexIsTopLeft`, `LastIndexPoint`, `IndexToPointContained`, `RowsAndColumns`, `Monotone` and `DistinctPixelsDistinctPoints` pin it down further. |
| `Viewport.IndexToPointContained` | src/main.rs:37-42 | On an oriented range, every index below WIDTH·HEIGHT maps inside the rectangle: `top_left.re ≤ re < bottom_right.re` and `bottom_right.im < im ≤ top_left.im`. |
| `Viewport.RowsAndColumns` | src/main.rs:38-41 | Indices in the same row share the imaginary part. Indices in the same column share the real part. |
| `Viewport.Monotone` | src/main.rs:38-41 | On an oriented range, the real part strictly increases with the column and the imaginary part strictly decreases with the row. |
| `Viewport.DistinctPixelsDistinctPoints` | src/main.rs:37-42 | On an oriented range, two different indices never map to the same point. |
| `Viewport.ZoomIn` | src/main.rs:43-52 | After `zoom_in`, width and height are the old ones divided by `zoom`. The new centre is the point the old range assigns to the cursor's pixel position. A positive zoom keeps the range oriented. |
| `Viewport.ZoomMovesClickToCenter` | src/main.rs:43-52 | After one zoom step, the point under the cursor is drawn at the middle of the window. |
| `Viewport.ZoomByOneAtCenter` | src/main.rs:43-52 | Zooming by factor 1 at the middle pixel leaves the range unchanged. |
| `Viewport.ZoomCompose` | src/main.rs:43-52 | Zooming at a pixel by `a`, then at the middle pixel by `b`, is one zoom at that pixel by `a·b`. |
| `Viewport.ZoomRoundTrip` | src/main.rs:43-52 | Zooming at the middle pixel by `z` and then by `1/z` restores the original corners exactly. |
| `Escape.Step` | src/main.rs:64 | One step `z*z + c` over complex multiplication. From z = 0 it lands on c. The orbit lemmas `OriginOrbit`, `MinusHalfOrbit` and `FarPointEscapesAtOnce`, and the loop invariant of `EscapeTime`, pin it down further. |
| `Escape.FirstEscapeFrom` | src/main.rs:63-69 | The reference search returns an index in `[from, max)` whose iteration escapes (the absolute square exceeds 4), with no escape before it. It returns `None` only if no index in that interval escapes. |
| `Escape.FirstEscapeCorrect` | src/main.rs:61-70 | The first-escape search returns `Some(i)` if and only if `i < max_iterations` is the first escaping iteration index. It returns `None` if and only if no index below the cap escapes. |
| `Escape.ShadedEscapeCorrect` | src/main.rs:61-70 | The reported value is `None` exactly when the point stays bounded. Otherwise it is the first escaping index plus the shade of that iteration's absolute square. |
| `Escape.EscapeTime` | src/main.rs:61-71 | The loop returns the reference value. It returns `None` if and only if no iteration below the cap escapes, and always `None` when `max_iterations = 0`. |
| `Escape.OriginOrbit` | src/main.rs:62-64 | Starting from 0 with c = 0, z stays 0 at every step. |
| `Escape.OriginStaysBounded` | src/main.rs:61-70 | c = 0 never escapes: the result is `None` for every `max_iterations`. |
| `Escape.FarPointEscapesAtOnce` | src/main.rs:62-67 | If the absolute square of c exceeds 4 and `max_iterations ≥ 1`, the first escape is at iteration index 0. |
| `Escape.MinusHalfOrbit` | src/main.rs:62-64 | The orbit of c = -1/2 stays on the real segment [-1/2, 0]. |
| `Escape.MinusHalfStaysBounded` | src/main.rs:61-70 | c = -1/2 never escapes, whatever the cap. |
| `App.CastToU32` | src/main.rs:92 | `as u32` on a float truncates toward zero. It gives 0 below 1 and saturates at `u32::MAX` from 2³² on. |
| `App.PixelValue` | src/main.rs:92 | A pixel value is `256 * (value or 0.0) as u32` in u32 arithmetic. It is always a multiple of 256, and 0 for a bounded point. |
| `App.PixelOfEscapeIndex` | src/main.rs:92 | When the shade lies in [0, 1), the pixel value is exactly 256 times the escaping iteration index. |
| `App.BoundedPixelIsBlack` | src/main.rs:90-93 | A pixel whose point stays bounded is stored as 0. |
| `App.NoIterationsAllBlack` | src/main.rs:90-93 | With `max_iterations = 0`, every pixel is stored as 0. |
| `App.New` | src/main.rs:81-88 | The start state has exactly WIDTH·HEIGHT zero entries, the start range and the default settings. It satisfies the invariant `Valid`. |
| `App.Update` | src/main.rs:89-95 | The fill loop writes each entry with the pixel value of the point its index maps to. The length, range and settings are unchanged. Every entry is a multiple of 256, every bounded pixel is 0, and `Valid` is preserved. |
| `App.ZoomIn` | src/main.rs:96-99 | One zoom step (one frame with the left button held) zooms the range around the cursor's pixel, then re-renders every entry for the new range. The settings and buffer length are unchanged, and `Valid` is preserved. |
| `App.StartCornerEscapesAtOnce` | src/main.rs:37-42 | In the start range (src/main.rs:9-10), the index map sends pixel 0 to `top_left`, -2 + 1.25i. It escapes at iteration index 0 for any positive cap. |
| `App.StartCenterIsBlack` | src/main.rs:37-42 | In the start range, the middle pixel is -1/2. It never escapes and is stored as 0, whatever the cap and shade. This uses the start range, the index map, and the `unwrap_or(0.0)` rule of src/main.rs:92. |

## Left out

- Window and event loop: `main`, window creation and its error message, `main_loop`, mouse and key polling, frame pacing with `Instant` and `sleep`, and `update_with_buffer`. These are I/O and timing against `minifb`, which is not part of this model. The `window` field of `Application` is dropped for the same reason, and so is `FRAME_DURATION`.
- Floating point: rounding, infinities and NaN are not modelled, because `f32` is idealised as `real`.
- The smoothing term `1 - ln(log2(|z|²)/2)` needs transcendental functions. It is an arbitrary parameter, and nothing is claimed about its range.
- `App.CastToU32`: the NaN case of Rust's cast (NaN gives 0) is not modelled, because reals have no NaN.
- `App.PixelValue`: the product `256 * n` wraps modulo 2³², as in a release build. A debug build would panic on overflow instead. With the source's cap and a shade below 1, the product stays below 2³² (`App.PixelOfEscapeIndex`).
- `Viewport.ZoomIn` and `App.ZoomIn` require `zoom ≠ 0`, because real division by zero is undefined. The source uses only `ZOOM = 2.0`; with `f32` a zero zoom would give infinities.
- `max_iterations` is a `u32` and is modelled as a 32-bit subset type. The cast of the loop index `i as f32` is exact over reals.
- Repeated zoom while the button is held: the frame loop calls `zoom_in` once per frame for as long as the left button is down, so one press lasting several frames zooms several times. The loop is I/O and is not modelled. `App.ZoomIn` models one such step, and `Viewport.ZoomCompose` describes how successive steps combine when later ones are at the middle pixel.
