# MonoGame ↔ Ultralight bridge: a Dafny model of `Game1`

`Game1` is a MonoGame game that hosts an Ultralight web view. Each tick, its
`Update` forwards the mouse to the view and advances the renderer. Each
frame, its `Draw` renders the view, reads the view's CPU bitmap, swaps the
red and blue bytes of every pixel into a fresh byte stream, uploads the
stream to a texture, and draws the render target into a destination
rectangle computed once at load time.

The model has these modules:

- `Common` (`common.dfy`): bytes, C# 32-bit `int` wrap-around, the `(int)` cast of a
  `uint`, and results and outcomes that carry an exception.
- `PixelFormat` (`pixel_format.dfy`): the channel swap. `SwapPixels(s, n)` is the
  reference definition: the first `n` pixels of `s`, each with bytes 0 and 2 exchanged. `CreateTextureFromBytePointer` is the source's
  loop over a freshly allocated `array<byte>`, and it is proved equal to `SwapPixels`.
  The engine's pixel memory is a `seq<byte>`, so the conversion only reads it.
- `Layout` (`layout.dfy`): `GetRenderTargetDestination` on exact integers.
  The float comparison `sx/sy > rw/rh` becomes `sx*rh > rw*sy`.
  `(int)(a * (b/(float)c))` becomes `a*b / c`.
  The centring `/ 2` is C#'s truncating division (`TruncDiv`), because the numerator can be negative.
- `MouseInput` (`mouse_input.dfy`): the mouse snapshot → `ULMouseEvent` mapping.
- `Game` (`game.dfy`): class `Game1`. Its constructor stands for
  `Initialize` + `LoadContent`. It has `MouseEventsToUltralight`, `Update` and `Draw`.
  The calls made into Ultralight are recorded in the field `engineCalls`. The
  uploaded texture is the field `bitmapTexture`. The view's surface is a
  parameter of `Draw`.

Behaviour of the code worth knowing:

- Destination rectangle: the code does not letterbox or pillarbox. It scales
  the render target so that it *covers* the screen. When the screen is
  relatively wider, the width is the screen's and the height overflows above
  and below. Otherwise, the height is the screen's and the width overflows
  left and right. The rectangle lies inside the screen only when it equals
  the screen (`Layout.CoversScreen`). For an 800×450 screen and a 400×300
  target, the code gives (0, −75, 800, 600) (`Layout.ExampleWiderScreenOverflows`).
- Pixel conversion: the code has no length check. It reads `width*height*4`
  bytes through a raw pointer, so the model *requires* the engine's memory to
  cover those bytes. The only failure modelled is one the code raises itself:
  `new byte[n]` with a negative `n`, which happens when `width*height*4` wraps
  around in a 32-bit `int`.
- Mouse: X/Y are not scaled, and there is no Down/Up edge detection. One event
  fires per tick. It is `MouseDown`/`Left` on every tick the left button is held,
  and otherwise has the default type and button (`MouseMoved`/`None`). No
  `MouseUp`, scroll or keyboard event is ever sent.
- Texture: old textures are never disposed. The code replaces
  `_bitmapTexture` every frame, and the model keeps only the current one.

## Model

| member | source | states |
|---|---|---|
| `Common.WrapInt32` | MonogameUltralight/Game1.cs:114 | the C# `int` value of an exact integer: in the 32-bit range, and equal to it when it fits |
| `Common.WrapInt32Congruent` | MonogameUltralight/Game1.cs:114 | the wrapped value differs from the exact one by a multiple of 2^32 |
| `Common.UIntToInt` | MonogameUltralight/Game1.cs:151 | `(int)` of a `uint` bitmap size: unchanged up to `int.MaxValue`, negative (u − 2^32) above |
| `Common.WrapKeepsMultipleOfFour` | MonogameUltralight/Game1.cs:114-119 | a wrapped multiple of four is still a multiple of four, so the `i += 4` loop never straddles the end |
| `PixelFormat.SwapPixels` | MonogameUltralight/Game1.cs:119-130 | converting `n` pixels gives exactly `4n` bytes |
| `PixelFormat.SwapPixelsByte` | MonogameUltralight/Game1.cs:119-130 | byte `i` of the converted pixels is source byte `i+2`, `i`, `i−2` or `i` for lanes 0, 1, 2, 3 of its pixel |
| `PixelFormat.SwapPixelsPixel` | MonogameUltralight/Game1.cs:121-129 | for every pixel `k`: `out[4k] == in[4k+2]`, `out[4k+2] == in[4k]`, `out[4k+1] == in[4k+1]`, `out[4k+3] == in[4k+3]` |
| `PixelFormat.SwapPixelsPrefix` | MonogameUltralight/Game1.cs:119-129 | only the first `4n` source bytes are read: sources that agree on them convert alike |
| `PixelFormat.SwapPixelsInvolutive` | MonogameUltralight/Game1.cs:122-129 | converting twice gives back the original `4n`-byte prefix exactly |
| `PixelFormat.DataLength` | MonogameUltralight/Game1.cs:114 | `width*height*4` as a C# `int`: a multiple of four when non-negative |
| `PixelFormat.DataLengthExact` | MonogameUltralight/Game1.cs:114 | without overflow the length is exactly `width*height*4` |
| `PixelFormat.PixelCount` | MonogameUltralight/Game1.cs:114-119 | the loop converts exactly a quarter of the length: `4 * PixelCount == dataLength` |
| `PixelFormat.CreateTextureFromBytePointer` | MonogameUltralight/Game1.cs:109-136 | fails, because the array allocation throws, exactly when the length is negative. Otherwise it returns a `width`×`height` texture whose data is `SwapPixels` of the `dataLength / 4` pixels read through the pointer |
| `Layout.GetRenderTargetDestination` | MonogameUltralight/Game1.cs:86-107 | the rectangle on exact integers (cross-multiplied comparison, floor-scaled side, truncating centring): it spans the screen exactly along one axis at offset 0, and is centred on both axes to within one pixel (`|2x + width − sx| <= 1`, `|2y + height − sy| <= 1`) |
| `Layout.TruncDiv` | MonogameUltralight/Game1.cs:103-104 | C# division: the quotient is rounded toward zero for either sign of the numerator |
| `Layout.WiderCoversVertically` | MonogameUltralight/Game1.cs:92-104 | screen relatively wider: `x == 0`, `width == sx`, `height == rh*sx/rw >= sy`, `y <= 0` and `y + height >= sy` |
| `Layout.NarrowerCoversHorizontally` | MonogameUltralight/Game1.cs:97-104 | otherwise: `y == 0`, `height == sy`, `width == rw*sy/rh >= sx`, `x <= 0` and `x + width >= sx` |
| `Layout.CoversScreen` | MonogameUltralight/Game1.cs:86-107 | for all positive sizes the rectangle covers the screen and matches it on one axis; it is inside the screen iff it is the screen |
| `Layout.EqualAspectFillsScreen` | MonogameUltralight/Game1.cs:86-107 | equal aspect ratios give exactly `(0, 0, sx, sy)` |
| `Layout.ViewportSizedTargetFillsScreen` | MonogameUltralight/Game1.cs:48-53 | the render target of `LoadContent`, sized to the viewport, is drawn over exactly the viewport |
| `Layout.AspectPreservedUpToTruncation` | MonogameUltralight/Game1.cs:92-101 | the scaled side is the exact proportional length rounded down, so the target's aspect ratio is kept up to that rounding |
| `Layout.ExampleEqualAspect` | MonogameUltralight/Game1.cs:86-107 | 800×600 screen and 400×300 target give (0, 0, 800, 600) |
| `Layout.ExampleWiderScreenOverflows` | MonogameUltralight/Game1.cs:86-107 | 800×450 screen and 400×300 target give (0, −75, 800, 600) |
| `Layout.ExampleNarrowerScreenOverflows` | MonogameUltralight/Game1.cs:86-107 | 400×600 screen and 400×300 target give (−200, 0, 800, 600) |
| `Layout.ExampleTruncatingCentre` | MonogameUltralight/Game1.cs:103-104 | 800×451 screen: the offset −149/2 truncates to −74 (floor would give −75) |
| `MouseInput.ToUltralightMouseEvent` | MonogameUltralight/Game1.cs:62-73 | X/Y copied unscaled. Type is `MouseDown` iff the left button is pressed, and button is `Left` iff it is pressed. Released leaves type and button at their defaults. Never `MouseUp` |
| `MouseInput.OnlyPositionAndLeftButtonMatter` | MonogameUltralight/Game1.cs:62-72 | snapshots that agree on X, Y and the left button give the same event |
| `MouseInput.HeldButtonRepeatsMouseDown` | MonogameUltralight/Game1.cs:68-72 | a left button held over many ticks gives a `MouseDown`/`Left` event on every one of them |
| `Game.Game1.constructor` | MonogameUltralight/Game1.cs:44-53 | the render target has the viewport's size and its destination is `(0, 0, width, height)`; no texture yet |
| `Game.Game1.MouseEventsToUltralight` | MonogameUltralight/Game1.cs:60-75 | appends exactly one `FireMouseEvent` of the translated snapshot |
| `Game.Game1.Update` | MonogameUltralight/Game1.cs:77-84 | appends the one mouse event and then `RendererUpdate`, in that order |
| `Game.Game1.Draw` | MonogameUltralight/Game1.cs:138-168 | appends `RendererRender`. No surface throws `SurfaceNotFound` and leaves the texture. A negative length throws `ArrayOverflow`. Otherwise the texture is replaced by the swapped bitmap |

## Left out

- Ultralight engine calls: foreign code. Only the three calls that `Update` and `Draw` make (`FireMouseEvent`, `Update`, `Render`) are recorded, as `EngineCall` values. The view's `Surface` is a parameter of `Draw`. The set-up calls (`CreateRenderer`, `CreateView`, setting `URL`) are not modelled, so the constructor starts with no recorded calls.
- MonoGame graphics (`Texture2D` construction and its argument checks, `SetData`, `RenderTarget2D`, `SpriteBatch`, `Clear`, `SetRenderTarget`): device I/O. A texture is the value of its size and bytes after `SetData`; the two sprite draws of `Draw` are not modelled.
- Float rounding in `GetRenderTargetDestination`: the model uses exact integers. Single-precision floats can compare nearly equal aspect ratios differently, or truncate a scaled side one pixel lower.
- `Layout.GetRenderTargetDestination`: degenerate (zero or negative) sizes are excluded by its precondition. The float code would produce infinities or NaN there, and that is not modelled. The int conversion of an out-of-range float is not modelled either.
- `PixelFormat.CreateTextureFromBytePointer`: `new Texture2D(gd, width, height)` runs before the allocation and throws for non-positive sizes. The model leaves that check out, so a 0×h bitmap throws in the source but gives `Success(Texture(0, h, []))` in the model. Its "fails exactly when the length is negative" covers only the allocation of `stream`. The bitmap's row stride is ignored, as the code ignores it. Reading past the engine's memory is undefined behaviour in the source, so the model requires that memory to cover the bytes read.
- Texture lifetime: old textures are never disposed by the code; there is no "one live texture" invariant to model.
- Constructor boilerplate, the font loader, `base.Update`/`base.Draw`, and the URL loading.
- Keyboard, scroll, device scale factor and button-edge detection: none of it exists in the code.
