/** `GetRenderTargetDestination`: where the render target is drawn on the
    screen. Float arithmetic is replaced by exact integer arithmetic: the
    comparison of aspect ratios by cross-multiplication, `(int)(a * (b / (float)c))`
    by `a * b / c`, and the centring `/ 2` by C#'s truncating division. */
module Layout {

  datatype Point = Point(x: int, y: int)

  /** MonoGame's `Rectangle(x, y, width, height)`. */
  datatype Rectangle = Rectangle(x: int, y: int, width: int, height: int)

  /** C# integer division, which truncates toward zero (Dafny's `/` is Euclidean). */
  function TruncDiv(a: int, b: int): (q: int)
    requires b > 0
    ensures a >= 0 ==> 0 <= a - b * q < b
    ensures a < 0 ==> 0 <= b * q - a < b
  {
    if a >= 0 then a / b else -((-a) / b)
  }

  /** `screenAspectRatio > rtAspectRatio` for positive sizes. */
  predicate ScreenWider(screen: Point, rtWidth: int, rtHeight: int) {
    screen.x * rtHeight > rtWidth * screen.y
  }

  predicate PositiveSizes(screen: Point, rtWidth: int, rtHeight: int) {
    screen.x > 0 && screen.y > 0 && rtWidth > 0 && rtHeight > 0
  }

  /** The rectangle the render target is drawn into: it spans the screen
      exactly along one axis and is centred on both axes to within one pixel. */
  function GetRenderTargetDestination(screen: Point, rtWidth: int, rtHeight: int): (r: Rectangle)
    requires PositiveSizes(screen, rtWidth, rtHeight)
    ensures (r.x == 0 && r.width == screen.x) || (r.y == 0 && r.height == screen.y)
    ensures -1 <= 2 * r.x + r.width - screen.x <= 1
    ensures -1 <= 2 * r.y + r.height - screen.y <= 1
  {
    var destWidth := if ScreenWider(screen, rtWidth, rtHeight) then screen.x else rtWidth * screen.y / rtHeight;
    var destHeight := if ScreenWider(screen, rtWidth, rtHeight) then rtHeight * screen.x / rtWidth else screen.y;
    var destX := TruncDiv(screen.x - destWidth, 2);
    var destY := TruncDiv(screen.y - destHeight, 2);
    Rectangle(destX, destY, destWidth, destHeight)
  }

  /** A multiple of `c > 0` that lies in `[0, c)` is zero. */
  lemma MultipleInRangeIsZero(c: int, k: int)
    requires c > 0 && 0 <= c * k < c
    ensures k == 0
  {
  }

  /** Multiplying by `c > 0` keeps a strict order, so it can be cancelled. */
  lemma MulStrictCancel(c: int, x: int, y: int)
    requires c > 0 && c * x < c * y
    ensures x < y
  {
  }

  /** `a / c <= b / c` whenever `a <= b` and `c > 0`. */
  lemma DivMonotone(a: int, b: int, c: int)
    requires a <= b && c > 0
    ensures a / c <= b / c
  {
    var qa, qb := a / c, b / c;
    assert c * qa <= a;
    assert b < c * qb + c;
    assert c * (qb + 1) == c * qb + c;
    MulStrictCancel(c, qa, qb + 1);
  }

  /** `a * c / c == a` for `c > 0`. */
  lemma MulDivCancel(a: int, c: int)
    requires c > 0
    ensures a * c / c == a
  {
    var q := a * c / c;
    assert c * (a - q) == a * c - c * q;
    MultipleInRangeIsZero(c, a - q);
  }

  /** When the screen is relatively wider, the rectangle takes the screen's
      width and a height at least the screen's: it covers the screen
      vertically, overflowing above and below by the same amount to within a
      pixel. */
  lemma {:induction false} WiderCoversVertically(screen: Point, rtWidth: int, rtHeight: int)
    requires PositiveSizes(screen, rtWidth, rtHeight)
    requires ScreenWider(screen, rtWidth, rtHeight)
    ensures var r := GetRenderTargetDestination(screen, rtWidth, rtHeight);
      r.x == 0 && r.width == screen.x &&
      r.height == rtHeight * screen.x / rtWidth && r.height >= screen.y &&
      r.y <= 0 && r.y + r.height >= screen.y
  {
    var r := GetRenderTargetDestination(screen, rtWidth, rtHeight);
    DivMonotone(screen.y * rtWidth, rtHeight * screen.x, rtWidth);
    MulDivCancel(screen.y, rtWidth);
    assert r.height >= screen.y;
  }

  /** Otherwise the rectangle takes the screen's height and a width at least
      the screen's: it covers the screen horizontally, overflowing left and
      right. */
  lemma {:induction false} NarrowerCoversHorizontally(screen: Point, rtWidth: int, rtHeight: int)
    requires PositiveSizes(screen, rtWidth, rtHeight)
    requires !ScreenWider(screen, rtWidth, rtHeight)
    ensures var r := GetRenderTargetDestination(screen, rtWidth, rtHeight);
      r.y == 0 && r.height == screen.y &&
      r.width == rtWidth * screen.y / rtHeight && r.width >= screen.x &&
      r.x <= 0 && r.x + r.width >= screen.x
  {
    var r := GetRenderTargetDestination(screen, rtWidth, rtHeight);
    DivMonotone(screen.x * rtHeight, rtWidth * screen.y, rtHeight);
    MulDivCancel(screen.x, rtHeight);
    assert r.width >= screen.x;
  }

  /** In every case the rectangle covers the whole screen and matches it
      exactly along one axis; it lies inside the screen only when it equals it. */
  lemma CoversScreen(screen: Point, rtWidth: int, rtHeight: int)
    requires PositiveSizes(screen, rtWidth, rtHeight)
    ensures var r := GetRenderTargetDestination(screen, rtWidth, rtHeight);
      r.x <= 0 && r.y <= 0 && r.x + r.width >= screen.x && r.y + r.height >= screen.y &&
      (r.width == screen.x || r.height == screen.y) &&
      ((0 <= r.x && 0 <= r.y && r.x + r.width <= screen.x && r.y + r.height <= screen.y) <==>
       r == Rectangle(0, 0, screen.x, screen.y))
  {
    if ScreenWider(screen, rtWidth, rtHeight) {
      WiderCoversVertically(screen, rtWidth, rtHeight);
    } else {
      NarrowerCoversHorizontally(screen, rtWidth, rtHeight);
    }
  }

  /** Equal aspect ratios fill the screen exactly. */
  lemma {:induction false} EqualAspectFillsScreen(screen: Point, rtWidth: int, rtHeight: int)
    requires PositiveSizes(screen, rtWidth, rtHeight)
    requires screen.x * rtHeight == rtWidth * screen.y
    ensures GetRenderTargetDestination(screen, rtWidth, rtHeight) == Rectangle(0, 0, screen.x, screen.y)
  {
    assert rtWidth * screen.y / rtHeight == screen.x by {
      assert rtWidth * screen.y == screen.x * rtHeight;
      MulDivCancel(screen.x, rtHeight);
    }
  }

  /** A render target of the viewport's own size is drawn over the whole viewport. */
  lemma ViewportSizedTargetFillsScreen(width: int, height: int)
    requires width > 0 && height > 0
    ensures GetRenderTargetDestination(Point(width, height), width, height) == Rectangle(0, 0, width, height)
  {
    EqualAspectFillsScreen(Point(width, height), width, height);
  }

  /** The scaled side is the exact proportional length rounded down, so the
      rectangle keeps the render target's aspect ratio up to that rounding. */
  lemma AspectPreservedUpToTruncation(screen: Point, rtWidth: int, rtHeight: int)
    requires PositiveSizes(screen, rtWidth, rtHeight)
    ensures var r := GetRenderTargetDestination(screen, rtWidth, rtHeight);
      if ScreenWider(screen, rtWidth, rtHeight) then
        rtWidth * r.height <= rtHeight * r.width < rtWidth * (r.height + 1)
      else
        rtHeight * r.width <= rtWidth * r.height < rtHeight * (r.width + 1)
  {
  }

  /** 800x600 screen, 400x300 target: the whole screen. */
  lemma ExampleEqualAspect()
    ensures GetRenderTargetDestination(Point(800, 600), 400, 300) == Rectangle(0, 0, 800, 600)
  {
  }

  /** 800x450 screen, 400x300 target: full width, 600 high, 75 pixels above
      and below the screen, where a pillarbox would be 600x450 at x = 100. */
  lemma ExampleWiderScreenOverflows()
    ensures GetRenderTargetDestination(Point(800, 450), 400, 300) == Rectangle(0, -75, 800, 600)
  {
  }

  /** 400x600 screen, 400x300 target: full height, 800 wide, 200 pixels to
      the left and right of the screen. */
  lemma ExampleNarrowerScreenOverflows()
    ensures GetRenderTargetDestination(Point(400, 600), 400, 300) == Rectangle(-200, 0, 800, 600)
  {
  }

  /** 800x451 screen, 400x300 target: the offset is -149 / 2 truncated to -74,
      where rounding down would give -75. */
  lemma ExampleTruncatingCentre()
    ensures GetRenderTargetDestination(Point(800, 451), 400, 300) == Rectangle(0, -74, 800, 600)
  {
  }
}
