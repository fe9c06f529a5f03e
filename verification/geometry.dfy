/** Window placement geometry of `winFactory`: rectangle containment, the
    "visible on some display" test, and the centred fallback placement. */
module Geometry {
  import opened Options

  /** A display's bounds as the host reports them, in integer pixels. */
  datatype Rect = Rect(x: int, y: int, width: int, height: int)

  /** The default window size taken from the options given to `winFactory`. */
  datatype Size = Size(width: int, height: int)

  /** The in-memory window state. The position is absent on a first run (the
      persisted record had no x or y); it is real-valued because the centred
      fallback divides by two and so may land on a half pixel. */
  datatype WindowState = WindowState(x: Option<real>, y: Option<real>, width: int, height: int)

  predicate HasPosition(s: WindowState) {
    s.x.Some? && s.y.Some?
  }

  /** `windowWithinBounds`: the window lies inside `b` on all four edges. A
      missing coordinate compares as false, as `undefined >= n` does. */
  predicate WithinBounds(s: WindowState, b: Rect) {
    && HasPosition(s)
    && s.x.value >= b.x as real
    && s.y.value >= b.y as real
    && s.x.value + s.width as real <= (b.x + b.width) as real
    && s.y.value + s.height as real <= (b.y + b.height) as real
  }

  /** Point (px, py) lies in the closed rectangle of display `b`. */
  ghost predicate Covers(b: Rect, px: real, py: real) {
    && b.x as real <= px <= (b.x + b.width) as real
    && b.y as real <= py <= (b.y + b.height) as real
  }

  /** Point (px, py) lies in the closed rectangle the window occupies. */
  ghost predicate Occupies(s: WindowState, px: real, py: real)
    requires HasPosition(s)
  {
    && s.x.value <= px <= s.x.value + s.width as real
    && s.y.value <= py <= s.y.value + s.height as real
  }

  /** The edge test of `windowWithinBounds` is exactly point-set inclusion of
      the window's rectangle in the display's, for a window of non-negative
      size; a window with no position is never within bounds. */
  lemma {:induction false} WithinBoundsIsContainment(s: WindowState, b: Rect)
    requires s.width >= 0 && s.height >= 0
    ensures !HasPosition(s) ==> !WithinBounds(s, b)
    ensures HasPosition(s) ==>
      (WithinBounds(s, b) <==> forall px: real, py: real :: Occupies(s, px, py) ==> Covers(b, px, py))
  {
    if HasPosition(s) {
      var x, y := s.x.value, s.y.value;
      var x2, y2 := x + s.width as real, y + s.height as real;
      if forall px: real, py: real :: Occupies(s, px, py) ==> Covers(b, px, py) {
        assert Occupies(s, x, y);
        assert Occupies(s, x2, y2);
        assert Covers(b, x, y) && Covers(b, x2, y2);
      }
    }
  }

  /** `screen.getAllDisplays().some(...)`: some display contains the window. */
  function VisibleOn(s: WindowState, displays: seq<Rect>): (r: bool)
    ensures r <==> exists i :: 0 <= i < |displays| && WithinBounds(s, displays[i])
  {
    if |displays| == 0 then false
    else if WithinBounds(s, displays[0]) then true
    else
      var rest := VisibleOn(s, displays[1..]);
      assert forall i :: 1 <= i < |displays| ==> displays[i] == displays[1..][i - 1];
      rest
  }

  /** `resetToDefaults`: the default size, centred using only the primary
      display's width and height (its x and y offset is not added). */
  function ResetToDefaults(defaults: Size, primary: Rect): (r: WindowState)
    ensures HasPosition(r)
    ensures r.width == defaults.width && r.height == defaults.height
    ensures 2.0 * r.x.value == (primary.width - defaults.width) as real
    ensures 2.0 * r.y.value == (primary.height - defaults.height) as real
  {
    WindowState(Some((primary.width - defaults.width) as real / 2.0),
                Some((primary.height - defaults.height) as real / 2.0),
                defaults.width, defaults.height)
  }

  /** `ensureVisibleOnSomeDisplay`: keep a state some display fully contains,
      otherwise replace it wholesale with the centred default. */
  function EnsureVisible(s: WindowState, displays: seq<Rect>, primary: Rect, defaults: Size): (r: WindowState)
    ensures HasPosition(r)
    ensures (exists i :: 0 <= i < |displays| && WithinBounds(s, displays[i])) ==> r == s
    ensures (forall i :: 0 <= i < |displays| ==> !WithinBounds(s, displays[i])) ==>
      && r.width == defaults.width && r.height == defaults.height
      && 2.0 * r.x.value == (primary.width - defaults.width) as real
      && 2.0 * r.y.value == (primary.height - defaults.height) as real
  {
    if VisibleOn(s, displays) then s else ResetToDefaults(defaults, primary)
  }

  /** The result is either contained in some display or is the centred default;
      in particular it does not depend on a rejected state's values. */
  lemma EnsureVisibleOutcome(s: WindowState, t: WindowState, displays: seq<Rect>, primary: Rect, defaults: Size)
    requires !VisibleOn(s, displays) && !VisibleOn(t, displays)
    ensures EnsureVisible(s, displays, primary, defaults) == EnsureVisible(t, displays, primary, defaults)
    ensures EnsureVisible(s, displays, primary, defaults) == ResetToDefaults(defaults, primary)
  {
  }

  /** Applying the placement check twice changes nothing more than applying
      it once, whether or not the centred default itself fits a display. */
  lemma EnsureVisibleIdempotent(s: WindowState, displays: seq<Rect>, primary: Rect, defaults: Size)
    ensures var r := EnsureVisible(s, displays, primary, defaults);
            EnsureVisible(r, displays, primary, defaults) == r
  {
  }

  /** When the primary display sits at the origin and the default size fits
      it, the centred default lies inside the primary display with equal
      margins on opposite sides. */
  lemma ResetFitsPrimaryAtOrigin(defaults: Size, primary: Rect)
    requires primary.x == 0 && primary.y == 0
    requires 0 <= defaults.width <= primary.width && 0 <= defaults.height <= primary.height
    ensures WithinBounds(ResetToDefaults(defaults, primary), primary)
    ensures var r := ResetToDefaults(defaults, primary);
      && r.x.value - primary.x as real == (primary.x + primary.width) as real - (r.x.value + r.width as real)
      && r.y.value - primary.y as real == (primary.y + primary.height) as real - (r.y.value + r.height as real)
  {
  }

  /** The centring ignores the primary display's offset: a primary display
      whose bounds start at (1920, 0) receives a window placed on the display
      to its left, outside its own bounds. */
  lemma ResetIgnoresPrimaryOffset()
    ensures var primary := Rect(1920, 0, 1920, 1080);
      var r := ResetToDefaults(Size(500, 500), primary);
      r.x == Some(710.0) && !WithinBounds(r, primary)
  {
  }
}
