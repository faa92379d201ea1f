/**
 * The DrawingManager class of src/lib/chart/DrawingManager.ts, imperatively:
 * its fields are updated in place, its searches are the source's loops, and
 * every method is proved equal to the corresponding step of the state
 * machine in module DrawingEngine, where the properties of those steps are
 * proved.
 */
module Chart {
  import opened Wrappers
  import opened ChartGeometry
  import opened DrawingEngine

  class DrawingManager {
    /** The chart's coordinate conversions (the chart and series objects). */
    const bridge: CoordinateBridge
    var drawings: seq<Drawing>
    var state: DrawingState
    var snapOptions: SnapOptions
    var candleData: seq<Candle>
    var touchMode: bool
    /** Replaces the clock and random suffix of generated ids. */
    var nextId: nat
    /** The callbacks that fired, in order. */
    var notifications: seq<Notification>

    function Model(): Manager
      reads this
    {
      Manager(drawings, state, snapOptions, candleData, touchMode, nextId, notifications)
    }

    constructor(bridge: CoordinateBridge)
      ensures this.bridge == bridge && Model() == InitialManager
    {
      this.bridge := bridge;
      drawings := [];
      state := InitialState;
      snapOptions := DefaultSnapOptions;
      candleData := [];
      touchMode := false;
      nextId := 0;
      notifications := [];
    }

    // ------------------------------------------------------------------
    // Settings and accessors
    // ------------------------------------------------------------------

    method SetCandleData(data: seq<Candle>)
      modifies this
      ensures Model() == old(Model()).(candleData := data)
    {
      candleData := data;
    }

    method SetSnapEnabled(enabled: bool)
      modifies this
      ensures Model() == DrawingEngine.SetSnapEnabled(old(Model()), enabled)
    {
      snapOptions := snapOptions.(enabled := enabled, snapToOHLC := enabled);
    }

    method IsSnapEnabled() returns (r: bool)
      ensures r == snapOptions.enabled
    {
      r := snapOptions.enabled;
    }

    method SetTouchMode(enabled: bool)
      modifies this
      ensures Model() == old(Model()).(touchMode := enabled)
    {
      touchMode := enabled;
    }

    method IsTouchMode() returns (r: bool)
      ensures r == touchMode
    {
      r := touchMode;
    }

    method GetState() returns (r: DrawingState)
      ensures r == state
    {
      r := state;
    }

    method GetDrawings() returns (r: seq<Drawing>)
      ensures r == drawings
    {
      r := drawings;
    }

    method SetDrawings(ds: seq<Drawing>)
      modifies this
      ensures Model() == DrawingEngine.SetDrawings(old(Model()), ds)
    {
      drawings := ds;
      notifications := notifications + [DrawingsChanged];
    }

    method SetTool(tool: Tool)
      modifies this
      ensures Model() == DrawingEngine.SetTool(old(Model()), tool)
    {
      state := state.(tool := tool, mode := IdleMode, isDrawing := false, startPoint := None, currentPoint := None);
      var cursor := if tool == SelectTool then Default else if tool != NoTool then Crosshair else Default;
      notifications := notifications + [CursorChanged(cursor), StateChanged];
    }

    // ------------------------------------------------------------------
    // Searches
    // ------------------------------------------------------------------

    /** snapToOHLC, with the loop over the open, high, low and close prices. */
    method SnapToOHLC(point: Point, screenY: real) returns (r: Point)
      ensures r == ChartGeometry.SnapToOHLC(snapOptions, candleData, bridge, point, screenY)
    {
      if !snapOptions.enabled || !snapOptions.snapToOHLC {
        return point;
      }
      var nearestCandle := FindCandle(candleData, point.time);
      if nearestCandle.None? {
        return point;
      }
      var prices := OHLC(nearestCandle.value);
      var closest := point.price;
      var minDist: Option<real> := None;
      for k := 0 to |prices|
        invariant (closest, minDist) == SnapScan(bridge, prices[..k], screenY, snapOptions.snapDistance, point.price)
      {
        assert prices[..k + 1][..k] == prices[..k];
        var pScreen := bridge.priceToCoordinate(prices[k]);
        if pScreen.None? {
          continue;
        }
        var dist := Abs(pScreen.value - screenY);
        if (minDist.None? || dist < minDist.value) && dist < snapOptions.snapDistance {
          minDist := Some(dist);
          closest := prices[k];
        }
      }
      assert prices[..|prices|] == prices;
      r := Point(point.time, closest);
    }

    /** isPointOnDrawing, with the loop over a Fibonacci drawing's levels. */
    method IsPointOnDrawing(d: Drawing, x: real, y: real, tolerance: real) returns (r: bool)
      ensures r == ChartGeometry.IsPointOnDrawing(bridge, d, x, y, tolerance)
    {
      match d
      case HLine(_, _, _, _, price) =>
        var lineY := bridge.priceToCoordinate(price);
        r := lineY.Some? && Abs(y - lineY.value) < tolerance;
      case TrendLine(_, _, _, _, start, end) =>
        var s, e := ChartToScreen(bridge, start), ChartToScreen(bridge, end);
        if s.None? || e.None? {
          return false;
        }
        r := SqrtBelow(SqDistanceToSegment(ScreenPoint(x, y), s.value, e.value), tolerance);
      case Rect(_, _, _, _, start, end, _) =>
        var s, e := ChartToScreen(bridge, start), ChartToScreen(bridge, end);
        if s.None? || e.None? {
          return false;
        }
        var minX, maxX := Min(s.value.x, e.value.x), Max(s.value.x, e.value.x);
        var minY, maxY := Min(s.value.y, e.value.y), Max(s.value.y, e.value.y);
        r := x >= minX - tolerance && x <= maxX + tolerance && y >= minY - tolerance && y <= maxY + tolerance;
      case Fib(_, _, _, _, start, end, levels) =>
        var s, e := ChartToScreen(bridge, start), ChartToScreen(bridge, end);
        if s.None? || e.None? {
          return false;
        }
        var minX, maxX := Min(s.value.x, e.value.x), Max(s.value.x, e.value.x);
        var highPrice, lowPrice := Max(start.price, end.price), Min(start.price, end.price);
        var range := highPrice - lowPrice;
        for i := 0 to |levels|
          invariant forall j :: 0 <= j < i ==> !FibLevelHit(bridge, levels[j], highPrice, range, minX, maxX, x, y, tolerance)
        {
          if FibLevelHit(bridge, levels[i], highPrice, range, minX, maxX, x, y, tolerance) {
            return true;
          }
        }
        r := false;
    }

    /** findDrawingAtPoint: scans from the topmost drawing down; `tolerance` defaults by touch mode. */
    method FindDrawingAtPoint(x: real, y: real, tolerance: Option<real>) returns (r: Option<string>)
      ensures r == FindDrawingAt(bridge, drawings, x, y, tolerance.GetOr(HitTolerance(touchMode)))
    {
      var actualTolerance := tolerance.GetOr(if touchMode then 15.0 else 8.0);
      var point := ScreenToChart(bridge, x, y);
      if point.None? {
        return None;
      }
      var i := |drawings|;
      while i > 0
        invariant 0 <= i <= |drawings|
        invariant forall j :: i <= j < |drawings| ==> !VisibleHit(bridge, drawings[j], x, y, actualTolerance)
      {
        i := i - 1;
        var d := drawings[i];
        if !d.visible {
          continue;
        }
        var hit := IsPointOnDrawing(d, x, y, actualTolerance);
        if hit {
          LastHitIsTopmost(drawings, x, y, actualTolerance, i);
          return Some(d.id);
        }
      }
      r := None;
    }

    lemma LastHitIsTopmost(ds: seq<Drawing>, x: real, y: real, tol: real, i: nat)
      requires i < |ds| && VisibleHit(bridge, ds[i], x, y, tol)
      requires forall j :: i < j < |ds| ==> !VisibleHit(bridge, ds[j], x, y, tol)
      ensures TopmostHit(bridge, ds, x, y, tol) == Some(ds[i].id)
    {
      var p := (d: Drawing) => VisibleHit(bridge, d, x, y, tol);
      assert p(ds[i]);
      var k := LastIndexWhere(ds, p);
      assert k.Some?;
      assert k.value == i;
    }

    /** findHandleAtPoint: the topmost visible, selected two-point drawing with an endpoint in reach. */
    method FindHandleAtPoint(x: real, y: real) returns (r: Option<HandleHit>)
      ensures r == HandleAt(bridge, drawings, x, y, HandleTolerance(touchMode))
    {
      var handleTolerance := if touchMode then 20.0 else 12.0;
      var i := |drawings|;
      while i > 0
        invariant 0 <= i <= |drawings|
        invariant forall j :: i <= j < |drawings| ==> !HandleCandidate(bridge, drawings[j], x, y, handleTolerance)
      {
        i := i - 1;
        var d := drawings[i];
        if !d.visible || !d.selected {
          continue;
        }
        if d.TrendLine? || d.Fib? || d.Rect? {
          var startScreen := ChartToScreen(bridge, d.start);
          var endScreen := ChartToScreen(bridge, d.end);
          if startScreen.Some? && SqrtBelow(SqDist(ScreenPoint(x, y), startScreen.value), handleTolerance) {
            LastCandidateIsTopmost(drawings, x, y, handleTolerance, i);
            return Some(HandleHit(d.id, Start));
          }
          if endScreen.Some? && SqrtBelow(SqDist(ScreenPoint(x, y), endScreen.value), handleTolerance) {
            LastCandidateIsTopmost(drawings, x, y, handleTolerance, i);
            return Some(HandleHit(d.id, End));
          }
        }
      }
      r := None;
    }

    lemma LastCandidateIsTopmost(ds: seq<Drawing>, x: real, y: real, tol: real, i: nat)
      requires i < |ds| && HandleCandidate(bridge, ds[i], x, y, tol)
      requires forall j :: i < j < |ds| ==> !HandleCandidate(bridge, ds[j], x, y, tol)
      ensures HandleAt(bridge, ds, x, y, tol) ==
        Some(HandleHit(ds[i].id, if NearHandle(bridge, ds[i].start, x, y, tol) then Start else End))
    {
      var p := (d: Drawing) => HandleCandidate(bridge, d, x, y, tol);
      assert p(ds[i]);
      var k := LastIndexWhere(ds, p);
      assert k.Some?;
      assert k.value == i;
    }

    // ------------------------------------------------------------------
    // Drawing operations
    // ------------------------------------------------------------------

    method CompleteDrawing(endPoint: Point)
      modifies this
      ensures Model() == DrawingEngine.CompleteDrawing(old(Model()), endPoint)
    {
      if state.startPoint.None? {
        return;
      }
      ghost var m := Model();
      var start := state.startPoint.value;
      var id := DrawingId(nextId);
      nextId := nextId + 1;
      var newDrawing := NewDrawing(state.tool, id, start, endPoint);
      if newDrawing.Some? {
        drawings := drawings + [newDrawing.value];
        notifications := notifications + [DrawingsChanged];
      }
      state := state.(isDrawing := false, mode := IdleMode, startPoint := None, currentPoint := None);
      assert Model() == CompletedBeforeReset(m, endPoint);
      SetTool(NoTool);
    }

    method SelectDrawing(id: string)
      modifies this
      ensures Model() == DrawingEngine.SelectDrawing(old(Model()), id)
    {
      drawings := MarkSelected(drawings, id);
      state := state.(selectedId := Some(id));
      notifications := notifications + [DrawingsChanged, StateChanged];
    }

    method DeselectAll()
      modifies this
      ensures Model() == DrawingEngine.DeselectAll(old(Model()))
    {
      drawings := ClearSelection(drawings);
      state := state.(selectedId := None);
      notifications := notifications + [DrawingsChanged, StateChanged];
    }

    method MoveSelectedDrawing(newPoint: Point)
      modifies this
      ensures Model() == DrawingEngine.MoveSelectedDrawing(old(Model()), newPoint)
    {
      if !Truthy(state.selectedId) || state.startPoint.None? {
        return;
      }
      var deltaTime := newPoint.time - state.startPoint.value.time;
      var deltaPrice := newPoint.price - state.startPoint.value.price;
      drawings := MoveDrawings(drawings, state.selectedId.value, deltaTime, deltaPrice);
      state := state.(startPoint := Some(newPoint));
      notifications := notifications + [DrawingsChanged];
    }

    method ResizeSelectedDrawing(newPoint: Point)
      modifies this
      ensures Model() == DrawingEngine.ResizeSelectedDrawing(old(Model()), newPoint)
    {
      if !Truthy(state.selectedId) || state.resizingHandle.None? {
        return;
      }
      drawings := ResizeDrawings(drawings, state.selectedId.value, state.resizingHandle.value, newPoint);
      notifications := notifications + [DrawingsChanged];
    }

    method DeleteSelected() returns (deleted: bool)
      modifies this
      ensures (Model(), deleted) == DrawingEngine.DeleteSelected(old(Model()))
    {
      if !Truthy(state.selectedId) {
        return false;
      }
      drawings := RemoveById(drawings, state.selectedId.value);
      state := state.(selectedId := None);
      notifications := notifications + [DrawingsChanged, StateChanged];
      deleted := true;
    }

    method ClearAll()
      modifies this
      ensures Model() == DrawingEngine.ClearAll(old(Model()))
    {
      drawings := [];
      state := state.(selectedId := None, hoveredId := None);
      notifications := notifications + [DrawingsChanged, StateChanged];
    }

    method CancelDrawing()
      modifies this
      ensures Model() == DrawingEngine.CancelDrawing(old(Model()))
    {
      state := state.(isDrawing := false, isDragging := false, mode := IdleMode,
                      startPoint := None, currentPoint := None);
      SetTool(NoTool);
    }

    // ------------------------------------------------------------------
    // Pointer events
    // ------------------------------------------------------------------

    method HandleMouseDown(x: real, y: real)
      modifies this
      ensures Model() == MouseDown(bridge, old(Model()), x, y)
    {
      var point := ScreenToChart(bridge, x, y);
      if point.None? {
        return;
      }
      var handle := SelectedHandle(x, y);
      if handle.Some? {
        state := state.(isResizing := true, resizingHandle := handle, mode := ResizingMode, startPoint := point);
        notifications := notifications + [CursorChanged(Crosshair), StateChanged];
        return;
      }
      if state.tool == SelectTool || state.tool == NoTool {
        var hitId := FindDrawingAtPoint(x, y, None);
        if Truthy(hitId) {
          SelectDrawing(hitId.value);
          state := state.(isDragging := true, mode := MovingMode, startPoint := point);
          notifications := notifications + [CursorChanged(Grabbing)];
        } else {
          DeselectAll();
        }
      } else {
        var snappedPoint := SnapToOHLC(point.value, y);
        state := state.(isDrawing := true, mode := DrawingMode,
                        startPoint := Some(snappedPoint), currentPoint := Some(snappedPoint),
                        rawStartScreen := Some(ScreenPoint(x, y)), rawCurrentScreen := Some(ScreenPoint(x, y)));
        if state.tool == HLineTool {
          CompleteDrawing(snappedPoint);
        }
      }
      notifications := notifications + [StateChanged];
    }

    method HandleMouseMove(x: real, y: real)
      modifies this
      ensures Model() == MouseMove(bridge, old(Model()), x, y)
    {
      var point := ScreenToChart(bridge, x, y);
      if point.None? {
        return;
      }
      if state.isDrawing && state.startPoint.Some? {
        state := state.(currentPoint := point, rawCurrentScreen := Some(ScreenPoint(x, y)));
        notifications := notifications + [StateChanged];
      } else if state.isResizing && Truthy(state.selectedId) && state.resizingHandle.Some? {
        var snappedPoint := SnapToOHLC(point.value, y);
        ResizeSelectedDrawing(snappedPoint);
      } else if state.isDragging && Truthy(state.selectedId) && state.startPoint.Some? {
        MoveSelectedDrawing(point.value);
      } else {
        Hover(x, y);
      }
    }

    /** The handle of the selected drawing under the pointer, as handleMouseDown and the hover branch look it up. */
    method SelectedHandle(x: real, y: real) returns (h: Option<Handle>)
      ensures h == SelectedHandleAt(bridge, Model(), x, y)
    {
      h := None;
      if Truthy(state.selectedId) {
        var handleHit := FindHandleAtPoint(x, y);
        if handleHit.Some? && Some(handleHit.value.drawingId) == state.selectedId {
          h := Some(handleHit.value.handle);
        }
      }
    }

    /** The hover branch of handleMouseMove. */
    method Hover(x: real, y: real)
      modifies this
      ensures Model() == DrawingEngine.Hover(bridge, old(Model()), x, y)
    {
      var hoveredHandle := SelectedHandle(x, y);
      var hitId := FindDrawingAtPoint(x, y, None);
      var cursorChange := [];
      if state.tool == NoTool || state.tool == SelectTool {
        var newCursor := if hoveredHandle.Some? then Crosshair else if Truthy(hitId) then Grab else Default;
        cursorChange := [CursorChanged(newCursor)];
      }
      ghost var m := Model();
      HoverOutcome(bridge, m, x, y, hoveredHandle, hitId, cursorChange);
      if hoveredHandle != state.hoveredHandle || hitId != state.hoveredId {
        state := state.(hoveredHandle := hoveredHandle, hoveredId := hitId);
        notifications := notifications + cursorChange + [StateChanged];
        assert Model() == m.(state := m.state.(hoveredHandle := hoveredHandle, hoveredId := hitId),
                             notifications := m.notifications + cursorChange + [StateChanged]);
      }
    }

    method HandleMouseUp(x: real, y: real)
      modifies this
      ensures Model() == MouseUp(bridge, old(Model()), x, y)
    {
      var point := ScreenToChart(bridge, x, y);
      if state.isDrawing && state.startPoint.Some? && point.Some? {
        var snappedPoint := SnapToOHLC(point.value, y);
        CompleteDrawing(snappedPoint);
      }
      ghost var m := Model();
      EndDrag();
      EndResize();
      state := state.(isDrawing := false, startPoint := None);
      notifications := notifications + [StateChanged];
      ReleaseKeeps(m);
    }

    /** The dragging block of handleMouseUp. */
    method EndDrag()
      modifies this
      ensures Model() == DrawingEngine.EndDrag(old(Model()))
    {
      if state.isDragging {
        state := state.(isDragging := false, mode := IdleMode);
        notifications := notifications + [CursorChanged(if Truthy(state.hoveredId) then Grab else Default)];
      }
    }

    /** The resizing block of handleMouseUp. */
    method EndResize()
      modifies this
      ensures Model() == DrawingEngine.EndResize(old(Model()))
    {
      if state.isResizing {
        state := state.(isResizing := false, resizingHandle := None, mode := IdleMode);
        notifications := notifications + [CursorChanged(if Truthy(state.hoveredId) then Grab else Default)];
      }
    }
  }
}
