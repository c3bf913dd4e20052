/**
 * Where a browser window is placed: the default centred 800 x 600 bounds, the bounds restored from
 * saved preferences and pulled back onto the screen, and the offset of a window opened from another.
 * Rectangles are `java.awt.Rectangle` on unbounded integers; the screen size is a parameter.
 */
module WindowBounds {
  import opened Options

  const DEFAULT_WINDOW_WIDTH: int := 800
  const DEFAULT_WINDOW_HEIGHT: int := 600
  const NEW_FRAME_OFFSET: int := 22

  /** The `java.awt.Frame` extended-state bits. */
  const NORMAL: bv32 := 0
  const ICONIFIED: bv32 := 1
  const MAXIMIZED_HORIZ: bv32 := 2
  const MAXIMIZED_VERT: bv32 := 4
  const MAXIMIZED_BOTH: bv32 := 6

  function Min(a: int, b: int): int { if a <= b then a else b }
  function Max(a: int, b: int): int { if a >= b then a else b }

  datatype Rect = Rect(x: int, y: int, width: int, height: int) {

    function Right(): int { x + width }

    function Bottom(): int { y + height }

    predicate Contains(px: int, py: int) {
      x <= px < Right() && y <= py < Bottom()
    }

    /** `Rectangle.translate`. */
    function Translated(dx: int, dy: int): Rect {
      Rect(x + dx, y + dy, width, height)
    }

    /** `Rectangle.intersection`: the larger left and top edges, the smaller right and bottom edges. */
    function Intersection(r: Rect): (i: Rect)
      ensures forall px, py :: i.Contains(px, py) <==> Contains(px, py) && r.Contains(px, py)
    {
      var left := Max(x, r.x);
      var top := Max(y, r.y);
      Rect(left, top, Min(Right(), r.Right()) - left, Min(Bottom(), r.Bottom()) - top)
    }
  }

  /** `Rectangle(screenSize)`. */
  function ScreenBounds(screenWidth: int, screenHeight: int): Rect {
    Rect(0, 0, screenWidth, screenHeight)
  }

  predicate InsideScreen(r: Rect, screenWidth: int, screenHeight: int) {
    0 <= r.x && 0 <= r.y && r.Right() <= screenWidth && r.Bottom() <= screenHeight
  }

  /** Kotlin's `Int / 2`, which rounds toward zero (Dafny's `/` rounds negative quotients down). */
  function HalfTowardZero(a: int): (h: int)
    ensures a >= 0 ==> 0 <= a - 2 * h <= 1
    ensures a < 0 ==> -1 <= a - 2 * h <= 0
  {
    if a >= 0 then a / 2 else -((-a) / 2)
  }

  /** `getDefaultFrameBounds`: an 800 x 600 window whose left and right margins differ by at most one pixel. */
  function DefaultFrameBounds(screenWidth: int, screenHeight: int): (r: Rect)
    ensures r.width == DEFAULT_WINDOW_WIDTH && r.height == DEFAULT_WINDOW_HEIGHT
    ensures screenWidth >= DEFAULT_WINDOW_WIDTH ==> r.x <= screenWidth - r.Right() <= r.x + 1
    ensures screenWidth < DEFAULT_WINDOW_WIDTH ==> r.x - 1 <= screenWidth - r.Right() <= r.x
    ensures screenHeight >= DEFAULT_WINDOW_HEIGHT ==> r.y <= screenHeight - r.Bottom() <= r.y + 1
    ensures screenHeight < DEFAULT_WINDOW_HEIGHT ==> r.y - 1 <= screenHeight - r.Bottom() <= r.y
  {
    Rect(HalfTowardZero(screenWidth - DEFAULT_WINDOW_WIDTH), HalfTowardZero(screenHeight - DEFAULT_WINDOW_HEIGHT),
         DEFAULT_WINDOW_WIDTH, DEFAULT_WINDOW_HEIGHT)
  }

  /** On a 1920 x 1080 screen the window sits at (560, 240); on a 799 x 599 screen the truncated half of -1 puts it at (0, 0). */
  lemma DefaultFrameBoundsExamples()
    ensures DefaultFrameBounds(1920, 1080) == Rect(560, 240, 800, 600)
    ensures DefaultFrameBounds(799, 599) == Rect(0, 0, 800, 600)
  {
  }

  /** The first translation of the saved bounds: right and down just far enough to put the top-left corner on the screen. */
  function MovedToOrigin(r: Rect): (s: Rect)
    ensures s.x >= 0 && s.y >= 0
    ensures s.width == r.width && s.height == r.height
    ensures r.x >= 0 ==> s.x == r.x
    ensures r.y >= 0 ==> s.y == r.y
    ensures r.x < 0 ==> s.x == 0
    ensures r.y < 0 ==> s.y == 0
  {
    r.Translated(-Min(0, r.x), -Min(0, r.y))
  }

  /** The second translation: left and up by however far the window overhangs the right and bottom screen edges. */
  function MovedInsideEdges(r: Rect, screenWidth: int, screenHeight: int): (s: Rect)
    ensures s.Right() <= screenWidth && s.Bottom() <= screenHeight
    ensures s.width == r.width && s.height == r.height
    ensures r.Right() <= screenWidth ==> s.x == r.x
    ensures r.Bottom() <= screenHeight ==> s.y == r.y
    ensures r.Right() > screenWidth ==> s.Right() == screenWidth
    ensures r.Bottom() > screenHeight ==> s.Bottom() == screenHeight
  {
    r.Translated(-Max(0, r.Right() - screenWidth), -Max(0, r.Bottom() - screenHeight))
  }

  /**
   * The bounds `loadWindowSettings` makes of a saved rectangle: moved right and down onto the screen,
   * then left and up off its far edges, then intersected with the screen. The result always lies on
   * the screen and a rectangle already on it is kept. Along each axis, a window that fits keeps its
   * size and moves only as far as needed: to 0 when it started before the screen, to end at the edge
   * when it overhung it, not at all otherwise. A window larger than the screen is cut to it.
   */
  function SanitizedBounds(saved: Rect, screenWidth: int, screenHeight: int): (r: Rect)
    ensures InsideScreen(r, screenWidth, screenHeight)
    ensures InsideScreen(saved, screenWidth, screenHeight) ==> r == saved
    ensures 0 <= saved.width <= screenWidth ==> r.width == saved.width
    ensures 0 <= saved.height <= screenHeight ==> r.height == saved.height
    ensures 0 <= saved.width <= screenWidth && saved.x < 0 ==> r.x == 0
    ensures 0 <= saved.height <= screenHeight && saved.y < 0 ==> r.y == 0
    ensures 0 <= saved.width <= screenWidth && saved.Right() > screenWidth ==> r.Right() == screenWidth
    ensures 0 <= saved.height <= screenHeight && saved.Bottom() > screenHeight ==> r.Bottom() == screenHeight
    ensures 0 <= saved.x && saved.Right() <= screenWidth ==> r.x == saved.x
    ensures 0 <= saved.y && saved.Bottom() <= screenHeight ==> r.y == saved.y
    ensures 0 <= screenWidth < saved.width ==> r.x == 0 && r.width == screenWidth
    ensures 0 <= screenHeight < saved.height ==> r.y == 0 && r.height == screenHeight
  {
    ScreenBounds(screenWidth, screenHeight).Intersection(MovedInsideEdges(MovedToOrigin(saved), screenWidth, screenHeight))
  }

  /** The sanitising in `loadWindowSettings`: the saved rectangle is translated in place twice and then intersected with the screen. */
  method SanitizeFrameBounds(saved: Rect, screenWidth: int, screenHeight: int) returns (bounds: Rect)
    ensures bounds == SanitizedBounds(saved, screenWidth, screenHeight)
  {
    var frameBounds := saved;
    frameBounds := frameBounds.Translated(-Min(0, frameBounds.x), -Min(0, frameBounds.y));
    frameBounds := frameBounds.Translated(-Max(0, frameBounds.Right() - screenWidth), -Max(0, frameBounds.Bottom() - screenHeight));
    bounds := ScreenBounds(screenWidth, screenHeight).Intersection(frameBounds);
  }

  /** The window preferences; a missing key reads as the default bounds' value, a missing flag as false. */
  datatype WindowPrefs = WindowPrefs(x: Option<int>, y: Option<int>, width: Option<int>, height: Option<int>,
                                     maximized: Option<bool>)

  /** The rectangle read from the preferences before sanitising. */
  function SavedBounds(prefs: WindowPrefs, screenWidth: int, screenHeight: int): Rect {
    var defaultFrameBounds := DefaultFrameBounds(screenWidth, screenHeight);
    Rect(prefs.x.GetOr(defaultFrameBounds.x), prefs.y.GetOr(defaultFrameBounds.y),
         prefs.width.GetOr(defaultFrameBounds.width), prefs.height.GetOr(defaultFrameBounds.height))
  }

  /**
   * `loadWindowSettings`: the bounds to give the window and whether to maximize it. The saved
   * rectangle is sanitised; with nothing saved and a screen of at least 800 x 600 the window gets
   * the default bounds.
   */
  method LoadWindowSettings(prefs: WindowPrefs, screenWidth: int, screenHeight: int)
    returns (bounds: Rect, maximized: bool)
    ensures bounds == SanitizedBounds(SavedBounds(prefs, screenWidth, screenHeight), screenWidth, screenHeight)
    ensures prefs.x.None? && prefs.y.None? && prefs.width.None? && prefs.height.None? &&
            screenWidth >= DEFAULT_WINDOW_WIDTH && screenHeight >= DEFAULT_WINDOW_HEIGHT ==>
      bounds == DefaultFrameBounds(screenWidth, screenHeight)
    ensures maximized <==> prefs.maximized == Some(true)
  {
    var frameBounds := SavedBounds(prefs, screenWidth, screenHeight);
    bounds := SanitizeFrameBounds(frameBounds, screenWidth, screenHeight);
    maximized := prefs.maximized.GetOr(false);
  }

  /** `isMaximized`: some bit of MAXIMIZED_BOTH is set, so maximized in either direction counts. */
  predicate IsMaximized(extendedState: bv32)
    ensures IsMaximized(extendedState) <==>
      extendedState & MAXIMIZED_HORIZ != 0 || extendedState & MAXIMIZED_VERT != 0
  {
    extendedState & MAXIMIZED_BOTH != 0
  }

  /** A normal or iconified window is not maximized; one maximized in one direction only is. */
  lemma MaximizedStates()
    ensures !IsMaximized(NORMAL) && !IsMaximized(ICONIFIED)
    ensures IsMaximized(MAXIMIZED_HORIZ) && IsMaximized(MAXIMIZED_VERT) && IsMaximized(MAXIMIZED_BOTH)
    ensures IsMaximized(ICONIFIED | MAXIMIZED_BOTH)
  {
  }

  /**
   * `normalFrameBounds`: a window that is not maximized has its own bounds; a maximized one is given
   * the 800 x 600 default bounds, which lie on a screen large enough to hold them.
   */
  function NormalFrameBounds(bounds: Rect, extendedState: bv32, screenWidth: int, screenHeight: int): (r: Rect)
    ensures !IsMaximized(extendedState) ==> r == bounds
    ensures IsMaximized(extendedState) ==> r.width == DEFAULT_WINDOW_WIDTH && r.height == DEFAULT_WINDOW_HEIGHT
    ensures IsMaximized(extendedState) && screenWidth >= DEFAULT_WINDOW_WIDTH && screenHeight >= DEFAULT_WINDOW_HEIGHT ==>
      InsideScreen(r, screenWidth, screenHeight)
  {
    if IsMaximized(extendedState) then DefaultFrameBounds(screenWidth, screenHeight) else bounds
  }

  /**
   * `setupWindowBounds` with an active window: a window opened from a normal one has its size and
   * sits 22 pixels right of and below it; from a maximized one it sits 22 pixels off the default bounds.
   */
  function NewFrameBounds(activeBounds: Rect, activeState: bv32, screenWidth: int, screenHeight: int): (r: Rect)
    ensures var base := if IsMaximized(activeState) then DefaultFrameBounds(screenWidth, screenHeight) else activeBounds;
      r.x == base.x + 22 && r.y == base.y + 22 && r.width == base.width && r.height == base.height
  {
    NormalFrameBounds(activeBounds, activeState, screenWidth, screenHeight).Translated(NEW_FRAME_OFFSET, NEW_FRAME_OFFSET)
  }
}
