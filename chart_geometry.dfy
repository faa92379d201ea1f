/**
 * Geometry of the chart drawing engine: the coordinate bridge to the chart
 * surface, the drawing variants, hit-testing, handle-testing and OHLC
 * snapping (src/lib/chart/DrawingManager.ts).  Prices and times are reals;
 * JavaScript's floating point is not modelled.
 */
module ChartGeometry {
  import opened Wrappers

  /** A chart-space coordinate. */
  datatype Point = Point(time: real, price: real)

  /** A pixel position on the chart surface. */
  datatype ScreenPoint = ScreenPoint(x: real, y: real)

  /**
   * The chart library's coordinate mappings (`timeScale().coordinateToTime`,
   * `series.coordinateToPrice`, `timeScale().timeToCoordinate`,
   * `series.priceToCoordinate`), each free to answer `null` (None) for a
   * position outside the mapped range.  Nothing else is assumed of them.
   */
  datatype CoordinateBridge = CoordinateBridge(
    coordinateToTime: real -> Option<real>,
    coordinateToPrice: real -> Option<real>,
    timeToCoordinate: real -> Option<real>,
    priceToCoordinate: real -> Option<real>)

  datatype Handle = Start | End

  /** The four annotation variants; every one carries the shared base fields. */
  datatype Drawing =
    | TrendLine(id: string, color: string, visible: bool, selected: bool, start: Point, end: Point)
    | HLine(id: string, color: string, visible: bool, selected: bool, price: real)
    | Fib(id: string, color: string, visible: bool, selected: bool, start: Point, end: Point, levels: seq<real>)
    | Rect(id: string, color: string, visible: bool, selected: bool, start: Point, end: Point, fillColor: string)

  /** Trend lines, Fibonacci retracements and rectangles have two endpoints. */
  predicate HasEndpoints(d: Drawing) {
    !d.HLine?
  }

  datatype SnapOptions = SnapOptions(enabled: bool, snapToOHLC: bool, snapDistance: real)

  datatype Candle = Candle(time: real, open: real, high: real, low: real, close: real)

  function Abs(x: real): real {
    if x < 0.0 then -x else x
  }

  function Min(a: real, b: real): real {
    if a <= b then a else b
  }

  function Max(a: real, b: real): real {
    if a >= b then a else b
  }

  function ScreenToChart(b: CoordinateBridge, x: real, y: real): Option<Point> {
    match (b.coordinateToTime(x), b.coordinateToPrice(y))
    case (Some(t), Some(p)) => Some(Point(t, p))
    case _ => None
  }

  function ChartToScreen(b: CoordinateBridge, p: Point): Option<ScreenPoint> {
    match (b.timeToCoordinate(p.time), b.priceToCoordinate(p.price))
    case (Some(x), Some(y)) => Some(ScreenPoint(x, y))
    case _ => None
  }

  // ---------------------------------------------------------------------
  // Distances.  The source compares `Math.sqrt(d) < tol`; for d >= 0 that
  // holds exactly when tol > 0 and d < tol * tol, which is what is modelled.
  // ---------------------------------------------------------------------

  function Square(x: real): (r: real)
    ensures r >= 0.0
  {
    x * x
  }

  lemma ProductPositive(u: real, v: real)
    requires u > 0.0 && v > 0.0
    ensures u * v > 0.0
  {
  }

  lemma SquarePositive(x: real)
    requires x != 0.0
    ensures Square(x) > 0.0
  {
    if x > 0.0 {
      calc {
        Square(x);
      ==
        x * x;
      > { ProductPositive(x, x); }
        0.0;
      }
    } else {
      calc {
        Square(x);
      ==
        (-x) * (-x);
      > { ProductPositive(-x, -x); }
        0.0;
      }
    }
  }

  function SqDist(p: ScreenPoint, q: ScreenPoint): (r: real)
    ensures r >= 0.0
  {
    Square(p.x - q.x) + Square(p.y - q.y)
  }

  /** `Math.sqrt(sq) < tol`, for sq >= 0. */
  predicate SqrtBelow(sq: real, tol: real) {
    tol > 0.0 && sq < Square(tol)
  }

  /** The point at parameter t on the segment from s to e. */
  function SegmentPoint(s: ScreenPoint, e: ScreenPoint, t: real): ScreenPoint {
    ScreenPoint(s.x + t * (e.x - s.x), s.y + t * (e.y - s.y))
  }

  /** `dot` of distanceToLine: (p - s) . (e - s). */
  function Dot(p: ScreenPoint, s: ScreenPoint, e: ScreenPoint): real {
    (p.x - s.x) * (e.x - s.x) + (p.y - s.y) * (e.y - s.y)
  }

  /** `lenSq` of distanceToLine: |e - s|^2, zero exactly for a degenerate segment. */
  function LenSq(s: ScreenPoint, e: ScreenPoint): (r: real)
    ensures r >= 0.0
  {
    SqDist(e, s)
  }

  /** Squared distances vanish exactly between equal points. */
  lemma SqDistZero(p: ScreenPoint, q: ScreenPoint)
    ensures SqDist(p, q) == 0.0 <==> p == q
  {
    if p.x != q.x {
      SquarePositive(p.x - q.x);
    }
    if p.y != q.y {
      SquarePositive(p.y - q.y);
    }
  }

  lemma ProductNonPositive(u: real, v: real)
    requires u <= 0.0 && v >= 0.0
    ensures u * v <= 0.0
  {
  }

  lemma ProductNonNegative(u: real, v: real)
    requires u >= 0.0 && v >= 0.0
    ensures u * v >= 0.0
  {
  }

  /** `param` of distanceToLine: the projection parameter, -1 for a zero-length segment. */
  function ProjectionParam(p: ScreenPoint, s: ScreenPoint, e: ScreenPoint): real {
    var lenSq := LenSq(s, e);
    if lenSq != 0.0 then Dot(p, s, e) / lenSq else -1.0
  }

  /** The foot of the clamped projection: an endpoint when the projection falls outside. */
  function NearestOnSegment(p: ScreenPoint, s: ScreenPoint, e: ScreenPoint): ScreenPoint {
    var param := ProjectionParam(p, s, e);
    if param < 0.0 then s
    else if param > 1.0 then e
    else SegmentPoint(s, e, param)
  }

  /** distanceToLine, squared. */
  function SqDistanceToSegment(p: ScreenPoint, s: ScreenPoint, e: ScreenPoint): real {
    SqDist(p, NearestOnSegment(p, s, e))
  }

  /** The squared distance to the point at parameter t, as a quadratic in t. */
  function Quad(a2: real, dot: real, lenSq: real, t: real): real {
    a2 - 2.0 * t * dot + Square(t) * lenSq
  }

  lemma SquareOfDifference(a: real, c: real, t: real)
    ensures Square(a - t * c) == Square(a) - 2.0 * t * (a * c) + Square(t) * Square(c)
  {
  }

  lemma SqDistAlongSegment(p: ScreenPoint, s: ScreenPoint, e: ScreenPoint, t: real)
    ensures SqDist(p, SegmentPoint(s, e, t)) == Quad(SqDist(p, s), Dot(p, s, e), LenSq(s, e), t)
  {
    var a, b, c, d := p.x - s.x, p.y - s.y, e.x - s.x, e.y - s.y;
    var q := SegmentPoint(s, e, t);
    assert p.x - q.x == a - t * c && p.y - q.y == b - t * d;
    SquareOfDifference(a, c, t);
    SquareOfDifference(b, d, t);
    assert Square(e.x - s.x) == Square(c) && Square(e.y - s.y) == Square(d);
    assert Square(t) * (Square(c) + Square(d)) == Square(t) * Square(c) + Square(t) * Square(d);
  }

  // Scalar facts behind the three clamping cases.

  lemma QuadraticFromStart(a2: real, dot: real, lenSq: real, t: real)
    requires lenSq >= 0.0 && dot <= 0.0 && t >= 0.0
    ensures Quad(a2, dot, lenSq, t) >= Quad(a2, dot, lenSq, 0.0)
  {
  }

  lemma QuadraticFromEnd(a2: real, dot: real, lenSq: real, t: real)
    requires dot >= lenSq >= 0.0 && 0.0 <= t <= 1.0
    ensures Quad(a2, dot, lenSq, t) >= Quad(a2, dot, lenSq, 1.0)
  {
    assert Quad(a2, dot, lenSq, t) - Quad(a2, dot, lenSq, 1.0)
        == 2.0 * (dot - lenSq) * (1.0 - t) + lenSq * Square(1.0 - t);
    ProductNonNegative(dot - lenSq, 1.0 - t);
    ProductNonNegative(lenSq, Square(1.0 - t));
  }

  lemma QuadraticFromFoot(a2: real, param: real, lenSq: real, t: real)
    requires lenSq >= 0.0
    ensures Quad(a2, param * lenSq, lenSq, t) >= Quad(a2, param * lenSq, lenSq, param)
  {
    var w := t - param;
    assert Square(t) == Square(param) + 2.0 * param * w + Square(w);
    assert Square(w) * lenSq >= 0.0;
  }

  /** Projection clamped below: the start point is the closest point of the segment. */
  lemma ClampedBelowIsMinimum(p: ScreenPoint, s: ScreenPoint, e: ScreenPoint, t: real)
    requires ProjectionParam(p, s, e) < 0.0 && 0.0 <= t <= 1.0
    ensures SqDist(p, s) <= SqDist(p, SegmentPoint(s, e, t))
  {
    var lenSq := LenSq(s, e);
    if lenSq != 0.0 {
      SqDistAlongSegment(p, s, e, t);
      SqDistAlongSegment(p, s, e, 0.0);
      assert s == SegmentPoint(s, e, 0.0);
      assert Dot(p, s, e) == ProjectionParam(p, s, e) * lenSq;
      ProductNonPositive(ProjectionParam(p, s, e), lenSq);
      QuadraticFromStart(SqDist(p, s), Dot(p, s, e), lenSq, t);
    } else {
      SqDistZero(e, s);
      assert SegmentPoint(s, e, t) == s;
    }
  }

  /** Projection clamped above: the end point is the closest point of the segment. */
  lemma ClampedAboveIsMinimum(p: ScreenPoint, s: ScreenPoint, e: ScreenPoint, t: real)
    requires ProjectionParam(p, s, e) > 1.0 && 0.0 <= t <= 1.0
    ensures SqDist(p, e) <= SqDist(p, SegmentPoint(s, e, t))
  {
    var lenSq := LenSq(s, e);
    assert Dot(p, s, e) == ProjectionParam(p, s, e) * lenSq;
    ProductNonNegative(ProjectionParam(p, s, e) - 1.0, lenSq);
    assert (ProjectionParam(p, s, e) - 1.0) * lenSq == ProjectionParam(p, s, e) * lenSq - lenSq;
    SqDistAlongSegment(p, s, e, t);
    SqDistAlongSegment(p, s, e, 1.0);
    assert e == SegmentPoint(s, e, 1.0);
    QuadraticFromEnd(SqDist(p, s), Dot(p, s, e), lenSq, t);
  }

  /** Projection inside [0, 1]: its foot is the closest point of the segment. */
  lemma InteriorFootIsMinimum(p: ScreenPoint, s: ScreenPoint, e: ScreenPoint, t: real)
    requires 0.0 <= ProjectionParam(p, s, e) <= 1.0 && 0.0 <= t <= 1.0
    ensures SqDist(p, SegmentPoint(s, e, ProjectionParam(p, s, e))) <= SqDist(p, SegmentPoint(s, e, t))
  {
    var lenSq := LenSq(s, e);
    var param := ProjectionParam(p, s, e);
    assert Dot(p, s, e) == param * lenSq;
    SqDistAlongSegment(p, s, e, t);
    SqDistAlongSegment(p, s, e, param);
    QuadraticFromFoot(SqDist(p, s), param, lenSq, t);
  }

  lemma SqDistanceToSegmentAtMost(p: ScreenPoint, s: ScreenPoint, e: ScreenPoint, t: real)
    requires 0.0 <= t <= 1.0
    ensures SqDistanceToSegment(p, s, e) <= SqDist(p, SegmentPoint(s, e, t))
  {
    var param := ProjectionParam(p, s, e);
    if param < 0.0 {
      ClampedBelowIsMinimum(p, s, e, t);
    } else if param > 1.0 {
      ClampedAboveIsMinimum(p, s, e, t);
    } else {
      InteriorFootIsMinimum(p, s, e, t);
    }
  }

  /**
   * distanceToLine is the distance from p to the closest point of the
   * finite segment: it is attained on the segment, no point of the segment
   * is closer, and a zero-length segment gives the distance to its start.
   */
  lemma SqDistanceToSegmentIsMinimum(p: ScreenPoint, s: ScreenPoint, e: ScreenPoint)
    ensures exists t :: 0.0 <= t <= 1.0 && SqDistanceToSegment(p, s, e) == SqDist(p, SegmentPoint(s, e, t))
    ensures forall t :: 0.0 <= t <= 1.0 ==> SqDistanceToSegment(p, s, e) <= SqDist(p, SegmentPoint(s, e, t))
    ensures s == e ==> SqDistanceToSegment(p, s, e) == SqDist(p, s)
  {
    var param := ProjectionParam(p, s, e);
    assert s == SegmentPoint(s, e, 0.0);
    assert e == SegmentPoint(s, e, 1.0);
    forall t | 0.0 <= t <= 1.0
      ensures SqDistanceToSegment(p, s, e) <= SqDist(p, SegmentPoint(s, e, t))
    {
      SqDistanceToSegmentAtMost(p, s, e, t);
    }
    if s == e {
      assert param == -1.0;
    }
  }

  // ---------------------------------------------------------------------
  // isPointOnDrawing
  // ---------------------------------------------------------------------

  /** One Fibonacci level line: at price high - range * level, within the drawing's horizontal span. */
  predicate FibLevelHit(b: CoordinateBridge, level: real, high: real, range: real,
                        minX: real, maxX: real, x: real, y: real, tol: real)
  {
    var lineY := b.priceToCoordinate(high - range * level);
    lineY.Some? && x >= minX && x <= maxX && Abs(y - lineY.value) < tol
  }

  /** The `for (const level of drawing.levels)` scan: true at the first level line that is hit. */
  function OnAnyFibLevel(b: CoordinateBridge, levels: seq<real>, high: real, range: real,
                         minX: real, maxX: real, x: real, y: real, tol: real): (r: bool)
    ensures r <==> exists i :: 0 <= i < |levels| && FibLevelHit(b, levels[i], high, range, minX, maxX, x, y, tol)
  {
    if levels == [] then false
    else if FibLevelHit(b, levels[0], high, range, minX, maxX, x, y, tol) then true
    else
      var r := OnAnyFibLevel(b, levels[1..], high, range, minX, maxX, x, y, tol);
      assert r <==> exists i :: 1 <= i < |levels| && FibLevelHit(b, levels[i], high, range, minX, maxX, x, y, tol) by {
        if r {
          var i :| 0 <= i < |levels[1..]| && FibLevelHit(b, levels[1..][i], high, range, minX, maxX, x, y, tol);
          assert levels[1..][i] == levels[i + 1];
        }
        forall i | 1 <= i < |levels| && FibLevelHit(b, levels[i], high, range, minX, maxX, x, y, tol) ensures r {
          assert levels[1..][i - 1] == levels[i];
        }
      }
      r
  }

  /** Whether the screen point (x, y) touches drawing d, per variant. */
  predicate IsPointOnDrawing(b: CoordinateBridge, d: Drawing, x: real, y: real, tol: real) {
    match d
    case HLine(_, _, _, _, price) =>
      var lineY := b.priceToCoordinate(price);
      lineY.Some? && Abs(y - lineY.value) < tol
    case TrendLine(_, _, _, _, start, end) =>
      var s, e := ChartToScreen(b, start), ChartToScreen(b, end);
      s.Some? && e.Some? && SqrtBelow(SqDistanceToSegment(ScreenPoint(x, y), s.value, e.value), tol)
    case Rect(_, _, _, _, start, end, _) =>
      var s, e := ChartToScreen(b, start), ChartToScreen(b, end);
      s.Some? && e.Some? &&
      x >= Min(s.value.x, e.value.x) - tol && x <= Max(s.value.x, e.value.x) + tol &&
      y >= Min(s.value.y, e.value.y) - tol && y <= Max(s.value.y, e.value.y) + tol
    case Fib(_, _, _, _, start, end, levels) =>
      var s, e := ChartToScreen(b, start), ChartToScreen(b, end);
      s.Some? && e.Some? &&
      var high := Max(start.price, end.price);
      var low := Min(start.price, end.price);
      OnAnyFibLevel(b, levels, high, high - low, Min(s.value.x, e.value.x), Max(s.value.x, e.value.x), x, y, tol)
  }

  /** A trend line is hit at every point of its screen segment, for any positive tolerance. */
  lemma TrendLineHitOnSegment(b: CoordinateBridge, d: Drawing, t: real, tol: real)
    requires d.TrendLine? && 0.0 <= t <= 1.0 && tol > 0.0
    requires ChartToScreen(b, d.start).Some? && ChartToScreen(b, d.end).Some?
    ensures var q := SegmentPoint(ChartToScreen(b, d.start).value, ChartToScreen(b, d.end).value, t);
      IsPointOnDrawing(b, d, q.x, q.y, tol)
  {
    var s, e := ChartToScreen(b, d.start).value, ChartToScreen(b, d.end).value;
    var q := SegmentPoint(s, e, t);
    assert ScreenPoint(q.x, q.y) == q;
    SqDistanceToSegmentAtMost(q, s, e, t);
    assert SqDistanceToSegment(q, s, e) == 0.0;
    SquarePositive(tol);
  }

  /** A point at least tol away from every point of the segment does not hit the trend line. */
  lemma TrendLineMissedFarAway(b: CoordinateBridge, d: Drawing, x: real, y: real, tol: real)
    requires d.TrendLine?
    requires ChartToScreen(b, d.start).Some? && ChartToScreen(b, d.end).Some?
    requires var s, e := ChartToScreen(b, d.start).value, ChartToScreen(b, d.end).value;
      forall t :: 0.0 <= t <= 1.0 ==> SqDist(ScreenPoint(x, y), SegmentPoint(s, e, t)) >= tol * tol
    ensures !IsPointOnDrawing(b, d, x, y, tol)
  {
    var s, e := ChartToScreen(b, d.start).value, ChartToScreen(b, d.end).value;
    SqDistanceToSegmentIsMinimum(ScreenPoint(x, y), s, e);
  }

  /** Rectangles are filled for hit-testing: any point of the box hits, whatever the tolerance >= 0. */
  lemma RectInteriorHits(b: CoordinateBridge, d: Drawing, x: real, y: real, tol: real)
    requires d.Rect? && tol >= 0.0
    requires ChartToScreen(b, d.start).Some? && ChartToScreen(b, d.end).Some?
    requires var s, e := ChartToScreen(b, d.start).value, ChartToScreen(b, d.end).value;
      Min(s.x, e.x) <= x <= Max(s.x, e.x) && Min(s.y, e.y) <= y <= Max(s.y, e.y)
    ensures IsPointOnDrawing(b, d, x, y, tol)
  {
  }

  // ---------------------------------------------------------------------
  // findDrawingAtPoint / findHandleAtPoint, as specifications
  // ---------------------------------------------------------------------

  predicate VisibleHit(b: CoordinateBridge, d: Drawing, x: real, y: real, tol: real) {
    d.visible && IsPointOnDrawing(b, d, x, y, tol)
  }

  /** The last index whose element satisfies p. */
  function LastIndexWhere<T>(s: seq<T>, p: T -> bool): (r: Option<nat>)
    ensures r.None? <==> forall i :: 0 <= i < |s| ==> !p(s[i])
    ensures r.Some? ==> r.value < |s| && p(s[r.value]) && forall j :: r.value < j < |s| ==> !p(s[j])
  {
    if s == [] then None
    else if p(s[|s| - 1]) then Some(|s| - 1)
    else
      var r := LastIndexWhere(s[..|s| - 1], p);
      assert forall i :: 0 <= i < |s| - 1 ==> s[..|s| - 1][i] == s[i];
      r
  }

  /** The id of the topmost (last) visible drawing hit at (x, y). */
  function TopmostHit(b: CoordinateBridge, ds: seq<Drawing>, x: real, y: real, tol: real): (r: Option<string>)
    ensures r.None? <==> forall i :: 0 <= i < |ds| ==> !VisibleHit(b, ds[i], x, y, tol)
    ensures r.Some? ==>
      exists i :: 0 <= i < |ds| && VisibleHit(b, ds[i], x, y, tol) && ds[i].id == r.value &&
        forall j :: i < j < |ds| ==> !VisibleHit(b, ds[j], x, y, tol)
  {
    match LastIndexWhere(ds, d => VisibleHit(b, d, x, y, tol))
    case Some(i) => Some(ds[i].id)
    case None => None
  }

  /** findDrawingAtPoint: nothing when the screen point cannot be mapped to the chart. */
  function FindDrawingAt(b: CoordinateBridge, ds: seq<Drawing>, x: real, y: real, tol: real): (r: Option<string>)
    ensures ScreenToChart(b, x, y).None? ==> r.None?
    ensures r.Some? ==> exists i :: 0 <= i < |ds| && ds[i].visible && ds[i].id == r.value
  {
    if ScreenToChart(b, x, y).None? then None else TopmostHit(b, ds, x, y, tol)
  }

  /** Within handle tolerance of an endpoint drawn on screen. */
  predicate NearHandle(b: CoordinateBridge, p: Point, x: real, y: real, tol: real) {
    var s := ChartToScreen(b, p);
    s.Some? && SqrtBelow(SqDist(ScreenPoint(x, y), s.value), tol)
  }

  predicate HandleCandidate(b: CoordinateBridge, d: Drawing, x: real, y: real, tol: real) {
    d.visible && d.selected && HasEndpoints(d) &&
    (NearHandle(b, d.start, x, y, tol) || NearHandle(b, d.end, x, y, tol))
  }

  datatype HandleHit = HandleHit(drawingId: string, handle: Handle)

  /**
   * The handle under (x, y): the topmost visible, selected two-point drawing
   * with an endpoint in reach; `start` is preferred when both are.
   */
  function HandleAt(b: CoordinateBridge, ds: seq<Drawing>, x: real, y: real, tol: real): (r: Option<HandleHit>)
    ensures r.None? <==> forall i :: 0 <= i < |ds| ==> !HandleCandidate(b, ds[i], x, y, tol)
    ensures r.Some? ==>
      exists i :: 0 <= i < |ds| && HandleCandidate(b, ds[i], x, y, tol) &&
        r.value.drawingId == ds[i].id &&
        (r.value.handle == Start <==> NearHandle(b, ds[i].start, x, y, tol)) &&
        forall j :: i < j < |ds| ==> !HandleCandidate(b, ds[j], x, y, tol)
  {
    match LastIndexWhere(ds, d => HandleCandidate(b, d, x, y, tol))
    case Some(i) =>
      Some(HandleHit(ds[i].id, if NearHandle(b, ds[i].start, x, y, tol) then Start else End))
    case None => None
  }

  // ---------------------------------------------------------------------
  // snapToOHLC, as a specification
  // ---------------------------------------------------------------------

  /** `candleData.find(c => c.time === time)`: the first candle with exactly that time. */
  function FindCandle(candles: seq<Candle>, time: real): (r: Option<Candle>)
    ensures r.None? <==> forall i :: 0 <= i < |candles| ==> candles[i].time != time
    ensures r.Some? ==>
      exists i :: 0 <= i < |candles| && candles[i] == r.value && r.value.time == time &&
        forall j :: 0 <= j < i ==> candles[j].time != time
  {
    if candles == [] then None
    else if candles[0].time == time then Some(candles[0])
    else
      var r := FindCandle(candles[1..], time);
      assert forall i :: 1 <= i < |candles| ==> candles[1..][i - 1] == candles[i];
      r
  }

  function OHLC(c: Candle): seq<real> {
    [c.open, c.high, c.low, c.close]
  }

  /** Screen distance of a candidate price from the pointer's y, when the price is on screen. */
  function ScreenDistance(b: CoordinateBridge, price: real, screenY: real): Option<real> {
    match b.priceToCoordinate(price)
    case Some(py) => Some(Abs(py - screenY))
    case None => None
  }

  predicate Eligible(b: CoordinateBridge, price: real, screenY: real, snapDistance: real) {
    var dist := ScreenDistance(b, price, screenY);
    dist.Some? && dist.value < snapDistance
  }

  /** One pass of the OHLC loop: minDist None stands for `Infinity`. */
  function SnapCandidate(b: CoordinateBridge, price: real, screenY: real, snapDistance: real,
                         closest: real, minDist: Option<real>): (real, Option<real>)
  {
    match ScreenDistance(b, price, screenY)
    case None => (closest, minDist)
    case Some(dist) =>
      if (minDist.None? || dist < minDist.value) && dist < snapDistance then (price, Some(dist))
      else (closest, minDist)
  }

  /** The state of the OHLC loop after scanning `prices` from the left. */
  function SnapScan(b: CoordinateBridge, prices: seq<real>, screenY: real, snapDistance: real,
                    initial: real): (real, Option<real>)
  {
    if prices == [] then (initial, None)
    else
      var acc := SnapScan(b, prices[..|prices| - 1], screenY, snapDistance, initial);
      SnapCandidate(b, prices[|prices| - 1], screenY, snapDistance, acc.0, acc.1)
  }

  /** prices[k] is eligible, no eligible price is nearer, and none before it is as near. */
  ghost predicate NearestAt(b: CoordinateBridge, prices: seq<real>, screenY: real, snapDistance: real, k: int) {
    0 <= k < |prices| && Eligible(b, prices[k], screenY, snapDistance)
    && (forall j :: 0 <= j < |prices| && Eligible(b, prices[j], screenY, snapDistance) ==>
          ScreenDistance(b, prices[k], screenY).value <= ScreenDistance(b, prices[j], screenY).value)
    && (forall j :: 0 <= j < k && Eligible(b, prices[j], screenY, snapDistance) ==>
          ScreenDistance(b, prices[k], screenY).value < ScreenDistance(b, prices[j], screenY).value)
  }

  ghost predicate NoneEligible(b: CoordinateBridge, prices: seq<real>, screenY: real, snapDistance: real) {
    forall k :: 0 <= k < |prices| ==> !Eligible(b, prices[k], screenY, snapDistance)
  }

  /**
   * The OHLC scan keeps the input price when no candidate is on screen
   * within snapDistance; otherwise it picks the first candidate whose screen
   * distance is minimal among the eligible ones.
   */
  lemma {:induction false} SnapScanPicksNearest(b: CoordinateBridge, prices: seq<real>, screenY: real,
                                                snapDistance: real, initial: real)
    ensures var r := SnapScan(b, prices, screenY, snapDistance, initial);
      if NoneEligible(b, prices, screenY, snapDistance) then r == (initial, None)
      else exists k :: NearestAt(b, prices, screenY, snapDistance, k)
                       && r == (prices[k], ScreenDistance(b, prices[k], screenY))
  {
    if prices != [] {
      var n := |prices| - 1;
      var pre := prices[..n];
      assert forall j :: 0 <= j < n ==> pre[j] == prices[j];
      SnapScanPicksNearest(b, pre, screenY, snapDistance, initial);
      var acc := SnapScan(b, pre, screenY, snapDistance, initial);
      if NoneEligible(b, pre, screenY, snapDistance) {
        SnapFirst(b, prices, screenY, snapDistance, initial);
      } else {
        var k :| NearestAt(b, pre, screenY, snapDistance, k) && acc == (pre[k], ScreenDistance(b, pre[k], screenY));
        SnapNext(b, prices, screenY, snapDistance, k, acc);
      }
    }
  }

  /** The last price against a scan that has found nothing yet. */
  lemma SnapFirst(b: CoordinateBridge, prices: seq<real>, screenY: real, snapDistance: real, initial: real)
    requires prices != [] && NoneEligible(b, prices[..|prices| - 1], screenY, snapDistance)
    ensures var n := |prices| - 1;
      var r := SnapCandidate(b, prices[n], screenY, snapDistance, initial, None);
      if NoneEligible(b, prices, screenY, snapDistance) then r == (initial, None)
      else NearestAt(b, prices, screenY, snapDistance, n) && r == (prices[n], ScreenDistance(b, prices[n], screenY))
  {
    var n := |prices| - 1;
    assert forall j :: 0 <= j < n ==> prices[..n][j] == prices[j];
  }

  /** The last price against a scan whose best so far is prices[k]. */
  lemma SnapNext(b: CoordinateBridge, prices: seq<real>, screenY: real, snapDistance: real, k: int, acc: (real, Option<real>))
    requires prices != [] && NearestAt(b, prices[..|prices| - 1], screenY, snapDistance, k)
    requires acc == (prices[k], ScreenDistance(b, prices[k], screenY))
    ensures var n := |prices| - 1;
      var r := SnapCandidate(b, prices[n], screenY, snapDistance, acc.0, acc.1);
      !NoneEligible(b, prices, screenY, snapDistance) &&
      ((NearestAt(b, prices, screenY, snapDistance, n) && r == (prices[n], ScreenDistance(b, prices[n], screenY))) ||
       (NearestAt(b, prices, screenY, snapDistance, k) && r == acc))
  {
    var n := |prices| - 1;
    assert forall j :: 0 <= j < n ==> prices[..n][j] == prices[j];
    assert Eligible(b, prices[k], screenY, snapDistance);
  }

  /** snapToOHLC: keeps the time; changes the price only to an eligible OHLC value of the candle at that time. */
  function SnapToOHLC(opts: SnapOptions, candles: seq<Candle>, b: CoordinateBridge, point: Point, screenY: real): (r: Point)
    ensures r.time == point.time
    ensures !opts.enabled || !opts.snapToOHLC || FindCandle(candles, point.time).None? ==> r == point
    ensures r.price == point.price || exists c :: c in candles && c.time == point.time && r.price in OHLC(c)
  {
    if !opts.enabled || !opts.snapToOHLC then point
    else match FindCandle(candles, point.time)
      case None => point
      case Some(c) =>
        SnapScanPicksNearest(b, OHLC(c), screenY, opts.snapDistance, point.price);
        Point(point.time, SnapScan(b, OHLC(c), screenY, opts.snapDistance, point.price).0)
  }
}
