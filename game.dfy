/** The `Game1` object: what its `Update` and `Draw` callbacks do with the
    engine, the mouse and the bitmap texture. Engine calls are recorded, not
    performed: `engineCalls` is the sequence of calls that `Update` and `Draw`
    make on the Ultralight renderer and view, in order. The calls made at
    set-up (creating the renderer and the view, setting the URL) are not
    modelled. */
module Game {
  import opened Common
  import opened PixelFormat
  import opened Layout
  import opened MouseInput

  /** A call from the bridge into the Ultralight engine. */
  datatype EngineCall =
    | FireMouseEvent(event: ULMouseEvent)   // `_view.FireMouseEvent`
    | RendererUpdate                        // `_renderer.Update()`
    | RendererRender                        // `_renderer.Render()`

  /** Ultralight's CPU bitmap: unsigned 32-bit sizes and the pixel memory. */
  datatype ULBitmap = ULBitmap(width: int, height: int, rawPixels: seq<byte>) {
    /** The engine's memory covers every byte the conversion reads. */
    predicate CoversConversion() {
      IsUInt32(width) && IsUInt32(height) &&
      DataLength(UIntToInt(width), UIntToInt(height)) <= |rawPixels|
    }
  }

  datatype ULSurface = ULSurface(bitmap: ULBitmap)

  class Game1 {
    const viewportWidth: int
    const viewportHeight: int
    const renderTargetWidth: int
    const renderTargetHeight: int
    var renderTargetDestination: Rectangle
    var bitmapTexture: Option<Texture>
    var engineCalls: seq<EngineCall>

    /** `Initialize` and `LoadContent`: the render target is sized to the
        viewport, so its destination is the whole viewport. */
    constructor (width: int, height: int)
      requires width > 0 && height > 0
      ensures viewportWidth == width && viewportHeight == height
      ensures renderTargetWidth == width && renderTargetHeight == height
      ensures renderTargetDestination == Rectangle(0, 0, width, height)
      ensures bitmapTexture == None && engineCalls == []
    {
      viewportWidth, viewportHeight := width, height;
      renderTargetWidth, renderTargetHeight := width, height;
      renderTargetDestination := GetRenderTargetDestination(Point(width, height), width, height);
      ViewportSizedTargetFillsScreen(width, height);
      bitmapTexture := None;
      engineCalls := [];
    }

    /** Fires the one mouse event built from this tick's snapshot. */
    method MouseEventsToUltralight(mouse: MouseState)
      modifies this`engineCalls
      ensures engineCalls == old(engineCalls) + [FireMouseEvent(ToUltralightMouseEvent(mouse))]
    {
      var event := ToUltralightMouseEvent(mouse);
      engineCalls := engineCalls + [FireMouseEvent(event)];
    }

    /** One tick: exactly one mouse event, then the renderer's update. */
    method Update(mouse: MouseState)
      modifies this`engineCalls
      ensures engineCalls ==
        old(engineCalls) + [FireMouseEvent(ToUltralightMouseEvent(mouse)), RendererUpdate]
    {
      MouseEventsToUltralight(mouse);
      engineCalls := engineCalls + [RendererUpdate];
    }

    /** One frame: render, then read the view's surface (`surface` is what
        `_view.Surface` returns after rendering). No surface throws; otherwise
        the bitmap is channel-swapped into a new texture that replaces
        `bitmapTexture`. The destination rectangle is not recomputed. */
    method Draw(surface: Option<ULSurface>) returns (outcome: Outcome)
      requires surface.Some? ==> surface.value.bitmap.CoversConversion()
      modifies this`bitmapTexture, this`engineCalls
      ensures engineCalls == old(engineCalls) + [RendererRender]
      ensures surface.None? ==>
        outcome == Threw(SurfaceNotFound) && bitmapTexture == old(bitmapTexture)
      ensures surface.Some? ==>
        var b := surface.value.bitmap;
        var w, h := UIntToInt(b.width), UIntToInt(b.height);
        var n := DataLength(w, h);
        if n < 0 then
          outcome == Threw(ArrayOverflow) && bitmapTexture == old(bitmapTexture)
        else
          outcome == Completed &&
          bitmapTexture == Some(Texture(w, h, SwapPixels(b.rawPixels, PixelCount(w, h))))
    {
      engineCalls := engineCalls + [RendererRender];
      if surface.None? {
        return Threw(SurfaceNotFound);
      }
      var bitmap := surface.value.bitmap;
      var texture := CreateTextureFromBytePointer(bitmap.rawPixels, UIntToInt(bitmap.width), UIntToInt(bitmap.height));
      if texture.Failure? {
        return Threw(texture.error);
      }
      bitmapTexture := Some(texture.value);
      outcome := Completed;
    }
  }
}
