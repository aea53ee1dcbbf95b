/** Points, rectangles and the container box, and the three geometric rules of the selector:
    clamping the pointer, the rectangle spanned by two corners, and strict overlap. */
module Geometry {

  /** A length the DOM never reports negative (clientWidth, clientHeight). */
  type Extent = r: real | 0.0 <= r

  datatype Point = Point(x: real, y: real)

  /** A bounding box as getBoundingClientRect reports it. */
  datatype Rect = Rect(left: real, top: real, right: real, bottom: real)

  /** The container box measured at call time: offsetLeft/offsetTop and clientWidth/clientHeight. */
  datatype Bounds = Bounds(offsetLeft: real, offsetTop: real, clientWidth: Extent, clientHeight: Extent)
  {
    function MaxX(): real { offsetLeft + clientWidth }

    function MaxY(): real { offsetTop + clientHeight }

    predicate Contains(p: Point)
    {
      offsetLeft <= p.x <= MaxX() && offsetTop <= p.y <= MaxY()
    }

    predicate ContainsRect(r: Rect)
    {
      offsetLeft <= r.left && r.right <= MaxX() && offsetTop <= r.top && r.bottom <= MaxY()
    }
  }

  function Dist(a: real, b: real): real
  {
    if a <= b then b - a else a - b
  }

  function Min(a: real, b: real): real { if a <= b then a else b }

  function Max(a: real, b: real): real { if a <= b then b else a }

  /** One axis of the pointer clamp: the point of [lo, lo + size] nearest to v. */
  function ClampAxis(v: real, lo: real, size: Extent): (r: real)
    ensures lo <= r <= lo + size
    ensures lo <= v <= lo + size ==> r == v
    ensures forall w :: lo <= w <= lo + size ==> Dist(r, v) <= Dist(w, v)
  {
    if v < lo then lo else if v > lo + size then lo + size else v
  }

  /** The pointer position restricted to the container box, each axis independently. */
  function ClampPoint(p: Point, b: Bounds): (q: Point)
    ensures b.Contains(q)
    ensures b.Contains(p) ==> q == p
    ensures q.x == p.x || q.x == b.offsetLeft || q.x == b.MaxX()
    ensures q.y == p.y || q.y == b.offsetTop || q.y == b.MaxY()
  {
    Point(ClampAxis(p.x, b.offsetLeft, b.clientWidth), ClampAxis(p.y, b.offsetTop, b.clientHeight))
  }

  /** Clamping twice is clamping once. */
  lemma ClampIdempotent(p: Point, b: Bounds)
    ensures ClampPoint(ClampPoint(p, b), b) == ClampPoint(p, b)
  {
  }

  /** The rectangle whose opposite corners are the anchor `a` and the current point `c`. */
  function RectFromCorners(a: Point, c: Point): (r: Rect)
    ensures r.left <= r.right && r.top <= r.bottom
    ensures (r.left == a.x && r.right == c.x) || (r.left == c.x && r.right == a.x)
    ensures (r.top == a.y && r.bottom == c.y) || (r.top == c.y && r.bottom == a.y)
    ensures r.right - r.left == Dist(a.x, c.x) && r.bottom - r.top == Dist(a.y, c.y)
  {
    Rect(Min(a.x, c.x), Min(a.y, c.y), Max(a.x, c.x), Max(a.y, c.y))
  }

  /** Which corner is the anchor does not matter. */
  lemma RectFromCornersSymmetric(a: Point, c: Point)
    ensures RectFromCorners(a, c) == RectFromCorners(c, a)
  {
  }

  /** Two corners inside the container span a rectangle inside the container. */
  lemma CornersInsideSpanInside(b: Bounds, a: Point, c: Point)
    requires b.Contains(a) && b.Contains(c)
    ensures b.ContainsRect(RectFromCorners(a, c))
  {
  }

  /** The size of the box a press creates before any movement. */
  const PressSize: real := 0.5

  /** The box a press at `p` creates: its top-left corner at `p`, PressSize on each side. */
  function PressRect(p: Point): Rect
  {
    Rect(p.x, p.y, p.x + PressSize, p.y + PressSize)
  }

  /** The selection test: the two boxes overlap on an open interval on both axes. */
  predicate IsSelected(r1: Rect, r2: Rect)
  {
    r1.left < r2.right && r1.right > r2.left && r1.top < r2.bottom && r1.bottom > r2.top
  }

  lemma IsSelectedSymmetric(r1: Rect, r2: Rect)
    ensures IsSelected(r1, r2) <==> IsSelected(r2, r1)
  {
  }

  /** Boxes that only share an edge or a corner are not selected. */
  lemma TouchingIsNotSelected(r1: Rect, r2: Rect)
    requires r1.right == r2.left || r1.left == r2.right || r1.bottom == r2.top || r1.top == r2.bottom
    ensures !IsSelected(r1, r2)
  {
  }

  predicate StrictlyInside(p: Point, r: Rect)
  {
    r.left < p.x < r.right && r.top < p.y < r.bottom
  }

  predicate HasArea(r: Rect)
  {
    r.left < r.right && r.top < r.bottom
  }

  /** For boxes with area, selection means exactly that some point lies strictly inside both. */
  lemma SelectedIffCommonInteriorPoint(r1: Rect, r2: Rect)
    requires HasArea(r1) && HasArea(r2)
    ensures IsSelected(r1, r2) <==> exists p :: StrictlyInside(p, r1) && StrictlyInside(p, r2)
  {
    if IsSelected(r1, r2) {
      var lo, hi := Max(r1.left, r2.left), Min(r1.right, r2.right);
      var top, bottom := Max(r1.top, r2.top), Min(r1.bottom, r2.bottom);
      var p := Point((lo + hi) / 2.0, (top + bottom) / 2.0);
      assert StrictlyInside(p, r1) && StrictlyInside(p, r2);
    }
  }

  /** `big` covers `small`. */
  predicate Encloses(big: Rect, small: Rect)
  {
    big.left <= small.left && small.right <= big.right && big.top <= small.top && small.bottom <= big.bottom
  }

  /** A box that covers another selects everything the other selects. */
  lemma EnclosingBoxSelectsMore(big: Rect, small: Rect, r: Rect)
    requires Encloses(big, small) && IsSelected(small, r)
    ensures IsSelected(big, r)
  {
  }

  /** A press at a point of a box (left and top edges included) selects that box at once. */
  lemma PressSelectsBoxUnderPointer(p: Point, r: Rect)
    requires r.left <= p.x < r.right && r.top <= p.y < r.bottom
    ensures IsSelected(PressRect(p), r)
  {
  }
}
