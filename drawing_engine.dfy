/**
 * The interaction state machine of DrawingManager
 * (src/lib/chart/DrawingManager.ts), as pure transition functions on a
 * value holding every field of the manager.  The class in module Chart
 * runs the same steps imperatively and is proved equal to these functions;
 * the properties of the machine are proved here.
 *
 * Callbacks are modelled by the list of notifications they would receive
 * (which callback fired and, for the cursor, with which cursor).  Drawing
 * ids come from a counter instead of the clock and a random number.
 */
module DrawingEngine {
  import opened Wrappers
  import opened Text
  import opened ChartGeometry
  import Seqs

  datatype Tool = NoTool | TrendLineTool | HLineTool | FibTool | RectTool | SelectTool

  datatype Mode = IdleMode | DrawingMode | MovingMode | ResizingMode

  datatype Cursor = Default | Crosshair | Move | Pointer | Grab | Grabbing

  datatype Notification = DrawingsChanged | StateChanged | CursorChanged(cursor: Cursor)

  datatype DrawingState = DrawingState(
    tool: Tool,
    mode: Mode,
    isDrawing: bool,
    isDragging: bool,
    isResizing: bool,
    resizingHandle: Option<Handle>,
    startPoint: Option<Point>,
    currentPoint: Option<Point>,
    selectedId: Option<string>,
    hoveredId: Option<string>,
    hoveredHandle: Option<Handle>,
    dragOffset: Option<Point>,
    rawStartScreen: Option<ScreenPoint>,
    rawCurrentScreen: Option<ScreenPoint>)

  const InitialState := DrawingState(NoTool, IdleMode, false, false, false, None, None, None,
                                     None, None, None, None, None, None)

  const DefaultSnapOptions := SnapOptions(false, false, 10.0)

  /** Every field of a DrawingManager, plus the notifications emitted so far and the id counter. */
  datatype Manager = Manager(
    drawings: seq<Drawing>,
    state: DrawingState,
    snapOptions: SnapOptions,
    candleData: seq<Candle>,
    touchMode: bool,
    nextId: nat,
    notifications: seq<Notification>)

  const InitialManager := Manager([], InitialState, DefaultSnapOptions, [], false, 0, [])

  /** JavaScript truthiness of a `string | null`. */
  predicate Truthy(s: Option<string>) {
    s.Some? && s.value != ""
  }

  function HitTolerance(touchMode: bool): real {
    if touchMode then 15.0 else 8.0
  }

  function HandleTolerance(touchMode: bool): real {
    if touchMode then 20.0 else 12.0
  }

  /** Tools under which a press selects rather than draws. */
  predicate IsPointerTool(t: Tool) {
    t == NoTool || t == SelectTool
  }

  /** Tools that draw by press, drag and release. */
  predicate IsDragTool(t: Tool) {
    t == TrendLineTool || t == FibTool || t == RectTool
  }

  const FibLevels: seq<real> := [0.0, 0.236, 0.382, 0.5, 0.618, 0.786, 1.0]

  predicate UniqueIds(ds: seq<Drawing>) {
    forall i, j :: 0 <= i < j < |ds| ==> ds[i].id != ds[j].id
  }

  function SelectedIndices(ds: seq<Drawing>): set<int> {
    set i | 0 <= i < |ds| && ds[i].selected
  }

  // ---------------------------------------------------------------------
  // setTool
  // ---------------------------------------------------------------------

  /** setTool: the gesture in progress is dropped, but isDragging and isResizing are kept. */
  function SetTool(m: Manager, tool: Tool): (r: Manager)
    ensures r.state.tool == tool && r.state.mode == IdleMode && !r.state.isDrawing
    ensures r.state.startPoint.None? && r.state.currentPoint.None?
    ensures r.state.isDragging == m.state.isDragging && r.state.isResizing == m.state.isResizing
    ensures r.state.resizingHandle == m.state.resizingHandle && r.state.selectedId == m.state.selectedId
    ensures r.drawings == m.drawings && r.nextId == m.nextId
    ensures r.notifications == m.notifications
      + [CursorChanged(if IsPointerTool(tool) then Default else Crosshair), StateChanged]
  {
    var st := m.state.(tool := tool, mode := IdleMode, isDrawing := false, startPoint := None, currentPoint := None);
    m.(state := st,
       notifications := m.notifications + [CursorChanged(if IsPointerTool(tool) then Default else Crosshair), StateChanged])
  }

  // ---------------------------------------------------------------------
  // selectDrawing / deselectAll
  // ---------------------------------------------------------------------

  /** `drawings.map(d => ({...d, selected: d.id === id}))`. */
  function MarkSelected(ds: seq<Drawing>, id: string): (r: seq<Drawing>)
    ensures |r| == |ds|
    ensures forall i :: 0 <= i < |r| ==> r[i] == ds[i].(selected := ds[i].id == id)
  {
    seq(|ds|, i requires 0 <= i < |ds| => ds[i].(selected := ds[i].id == id))
  }

  /** `drawings.map(d => ({...d, selected: false}))`. */
  function ClearSelection(ds: seq<Drawing>): (r: seq<Drawing>)
    ensures |r| == |ds|
    ensures forall i :: 0 <= i < |r| ==> r[i] == ds[i].(selected := false)
  {
    seq(|ds|, i requires 0 <= i < |ds| => ds[i].(selected := false))
  }

  /**
   * Selecting an id that occurs once leaves exactly that drawing selected;
   * selecting an absent id leaves none; clearing leaves none.
   */
  lemma SelectionIsExclusive(ds: seq<Drawing>, id: string)
    requires UniqueIds(ds)
    ensures forall k :: 0 <= k < |ds| && ds[k].id == id ==> SelectedIndices(MarkSelected(ds, id)) == {k}
    ensures (forall k :: 0 <= k < |ds| ==> ds[k].id != id) ==> SelectedIndices(MarkSelected(ds, id)) == {}
    ensures SelectedIndices(ClearSelection(ds)) == {}
  {
    var r := MarkSelected(ds, id);
    forall j | j in SelectedIndices(r) ensures 0 <= j < |ds| && ds[j].id == id {
    }
    forall k | 0 <= k < |ds| && ds[k].id == id
      ensures SelectedIndices(r) == {k}
    {
      assert k in SelectedIndices(r);
    }
  }

  function SelectDrawing(m: Manager, id: string): (r: Manager)
    ensures r.state == m.state.(selectedId := Some(id))
    ensures r.drawings == MarkSelected(m.drawings, id)
    ensures r.notifications == m.notifications + [DrawingsChanged, StateChanged]
  {
    m.(drawings := MarkSelected(m.drawings, id),
       state := m.state.(selectedId := Some(id)),
       notifications := m.notifications + [DrawingsChanged, StateChanged])
  }

  function DeselectAll(m: Manager): (r: Manager)
    ensures r.state == m.state.(selectedId := None)
    ensures r.drawings == ClearSelection(m.drawings)
    ensures r.notifications == m.notifications + [DrawingsChanged, StateChanged]
  {
    m.(drawings := ClearSelection(m.drawings),
       state := m.state.(selectedId := None),
       notifications := m.notifications + [DrawingsChanged, StateChanged])
  }

  // ---------------------------------------------------------------------
  // completeDrawing
  // ---------------------------------------------------------------------

  function DrawingId(n: nat): (r: string)
    ensures |r| > 8 && r[..8] == "drawing_"
  {
    "drawing_" + NatToString(n)
  }

  lemma DrawingIdInjective(a: nat, b: nat)
    requires DrawingId(a) == DrawingId(b)
    ensures a == b
  {
    assert NatToString(a) == DrawingId(a)[8..];
    assert NatToString(b) == DrawingId(b)[8..];
    NatToStringInjective(a, b);
  }

  /** The drawing a finished gesture creates, with the variant's fixed colours and levels. */
  function NewDrawing(tool: Tool, id: string, start: Point, end: Point): (r: Option<Drawing>)
    ensures r.Some? <==> IsDragTool(tool) || tool == HLineTool
    ensures r.Some? ==> r.value.id == id && r.value.visible && !r.value.selected
    ensures r.Some? && HasEndpoints(r.value) ==> r.value.start == start && r.value.end == end
    ensures tool == TrendLineTool ==> r == Some(TrendLine(id, "#f39c12", true, false, start, end))
    ensures tool == HLineTool ==> r == Some(HLine(id, "#FBBF24", true, false, end.price))
    ensures tool == FibTool ==>
      r == Some(Fib(id, "#8B5CF6", true, false, start, end, [0.0, 0.236, 0.382, 0.5, 0.618, 0.786, 1.0]))
    ensures tool == RectTool ==>
      r == Some(Rect(id, "#10B981", true, false, start, end, "rgba(16, 185, 129, 0.15)"))
  {
    match tool
    case TrendLineTool => Some(TrendLine(id, "#f39c12", true, false, start, end))
    case HLineTool => Some(HLine(id, "#FBBF24", true, false, end.price))
    case FibTool => Some(Fib(id, "#8B5CF6", true, false, start, end, FibLevels))
    case RectTool => Some(Rect(id, "#10B981", true, false, start, end, "rgba(16, 185, 129, 0.15)"))
    case _ => None
  }

  /** A new Fibonacci drawing's outer levels are the high and the low of its two prices. */
  lemma FibLevelsSpanRange(start: Point, end: Point)
    ensures var high, low := Max(start.price, end.price), Min(start.price, end.price);
      high - (high - low) * FibLevels[0] == high &&
      high - (high - low) * FibLevels[|FibLevels| - 1] == low &&
      forall i :: 0 <= i < |FibLevels| ==> low <= high - (high - low) * FibLevels[i] <= high
  {
    var high, low := Max(start.price, end.price), Min(start.price, end.price);
    forall i | 0 <= i < |FibLevels|
      ensures low <= high - (high - low) * FibLevels[i] <= high
    {
      ProductNonNegative(high - low, FibLevels[i]);
      ProductNonNegative(high - low, 1.0 - FibLevels[i]);
    }
  }

  function Appended(d: Option<Drawing>): seq<Drawing> {
    if d.Some? then [d.value] else []
  }

  /** CompleteDrawing up to the final tool reset. */
  function CompletedBeforeReset(m: Manager, end: Point): Manager
    requires m.state.startPoint.Some?
  {
    var created := NewDrawing(m.state.tool, DrawingId(m.nextId), m.state.startPoint.value, end);
    m.(drawings := m.drawings + Appended(created),
       nextId := m.nextId + 1,
       notifications := m.notifications + (if created.Some? then [DrawingsChanged] else []),
       state := m.state.(isDrawing := false, mode := IdleMode, startPoint := None, currentPoint := None))
  }

  /** completeDrawing: appends the new drawing, ends the gesture and returns to the `none` tool. */
  function CompleteDrawing(m: Manager, end: Point): (r: Manager)
    ensures m.state.startPoint.None? ==> r == m
    ensures m.state.startPoint.Some? ==>
      r.drawings == m.drawings + Appended(NewDrawing(m.state.tool, DrawingId(m.nextId), m.state.startPoint.value, end))
      && r.nextId == m.nextId + 1
      && r.state.tool == NoTool && r.state.mode == IdleMode && !r.state.isDrawing
      && r.state.startPoint.None? && r.state.currentPoint.None?
      && r.state.isDragging == m.state.isDragging && r.state.isResizing == m.state.isResizing
      && r.state.resizingHandle == m.state.resizingHandle && r.state.selectedId == m.state.selectedId
  {
    if m.state.startPoint.None? then m
    else SetTool(CompletedBeforeReset(m, end), NoTool)
  }

  /** Ids are unique and none of them is one the counter will still hand out. */
  ghost predicate FreshIds(m: Manager) {
    UniqueIds(m.drawings) &&
    forall i, k: nat :: 0 <= i < |m.drawings| && k >= m.nextId ==> m.drawings[i].id != DrawingId(k)
  }

  lemma {:induction false} CompleteDrawingKeepsIdsFresh(m: Manager, end: Point)
    requires FreshIds(m)
    ensures FreshIds(CompleteDrawing(m, end))
  {
    if m.state.startPoint.Some? {
      var r := CompleteDrawing(m, end);
      var id := DrawingId(m.nextId);
      forall i, k: nat | 0 <= i < |r.drawings| && k >= r.nextId
        ensures r.drawings[i].id != DrawingId(k)
      {
        if i < |m.drawings| {
          assert r.drawings[i] == m.drawings[i];
        } else {
          assert r.drawings[i].id == id;
          if DrawingId(k) == id {
            DrawingIdInjective(k, m.nextId);
          }
        }
      }
      forall i, j | 0 <= i < j < |r.drawings|
        ensures r.drawings[i].id != r.drawings[j].id
      {
        if j >= |m.drawings| {
          assert r.drawings[j].id == id;
          assert r.drawings[i] == m.drawings[i];
        } else {
          assert r.drawings[i] == m.drawings[i] && r.drawings[j] == m.drawings[j];
        }
      }
    }
  }

  // ---------------------------------------------------------------------
  // moveSelectedDrawing / resizeSelectedDrawing
  // ---------------------------------------------------------------------

  function Shift(p: Point, dt: real, dp: real): Point {
    Point(p.time + dt, p.price + dp)
  }

  /** One drawing moved by (dt, dp): a horizontal line only vertically, two-point drawings rigidly. */
  function Translate(d: Drawing, dt: real, dp: real): (r: Drawing)
    ensures r.id == d.id && r.color == d.color && r.visible == d.visible && r.selected == d.selected
    ensures r.HLine? == d.HLine? && r.Fib? == d.Fib? && r.Rect? == d.Rect?
    ensures d.HLine? ==> r.price - d.price == dp
    ensures HasEndpoints(d) ==>
      r.start.time - d.start.time == dt && r.start.price - d.start.price == dp &&
      r.end.time - r.start.time == d.end.time - d.start.time &&
      r.end.price - r.start.price == d.end.price - d.start.price
    ensures d.Fib? ==> r.levels == d.levels
    ensures d.Rect? ==> r.fillColor == d.fillColor
  {
    if d.HLine? then d.(price := d.price + dp)
    else d.(start := Shift(d.start, dt, dp), end := Shift(d.end, dt, dp))
  }

  function MoveDrawings(ds: seq<Drawing>, id: string, dt: real, dp: real): (r: seq<Drawing>)
    ensures |r| == |ds|
    ensures forall i :: 0 <= i < |ds| ==> r[i] == if ds[i].id == id then Translate(ds[i], dt, dp) else ds[i]
  {
    seq(|ds|, i requires 0 <= i < |ds| => if ds[i].id == id then Translate(ds[i], dt, dp) else ds[i])
  }

  /** Two successive moves of the same drawing add up. */
  lemma MovesCompose(ds: seq<Drawing>, id: string, dt1: real, dp1: real, dt2: real, dp2: real)
    ensures MoveDrawings(MoveDrawings(ds, id, dt1, dp1), id, dt2, dp2) == MoveDrawings(ds, id, dt1 + dt2, dp1 + dp2)
  {
    var a := MoveDrawings(MoveDrawings(ds, id, dt1, dp1), id, dt2, dp2);
    var b := MoveDrawings(ds, id, dt1 + dt2, dp1 + dp2);
    forall i | 0 <= i < |ds| ensures a[i] == b[i] {
      if ds[i].id == id {
        assert Translate(Translate(ds[i], dt1, dp1), dt2, dp2) == Translate(ds[i], dt1 + dt2, dp1 + dp2);
      }
    }
  }

  lemma MoveByZero(ds: seq<Drawing>, id: string)
    ensures MoveDrawings(ds, id, 0.0, 0.0) == ds
  {
    var z := MoveDrawings(ds, id, 0.0, 0.0);
    forall i | 0 <= i < |ds| ensures z[i] == ds[i] {
      if ds[i].id == id {
        if !ds[i].HLine? {
          assert Shift(ds[i].start, 0.0, 0.0) == ds[i].start;
          assert Shift(ds[i].end, 0.0, 0.0) == ds[i].end;
        }
      }
    }
  }

  /** Moving by the opposite delta restores the drawings. */
  lemma MoveUndone(ds: seq<Drawing>, id: string, dt: real, dp: real)
    ensures MoveDrawings(MoveDrawings(ds, id, dt, dp), id, -dt, -dp) == ds
  {
    MovesCompose(ds, id, dt, dp, -dt, -dp);
    MoveByZero(ds, id);
  }

  function MoveSelectedDrawing(m: Manager, newPoint: Point): (r: Manager)
    ensures !Truthy(m.state.selectedId) || m.state.startPoint.None? ==> r == m
    ensures Truthy(m.state.selectedId) && m.state.startPoint.Some? ==>
      var sp := m.state.startPoint.value;
      r.drawings == MoveDrawings(m.drawings, m.state.selectedId.value, newPoint.time - sp.time, newPoint.price - sp.price)
      && r.state == m.state.(startPoint := Some(newPoint))
      && r.notifications == m.notifications + [DrawingsChanged]
  {
    if !Truthy(m.state.selectedId) || m.state.startPoint.None? then m
    else
      var sp := m.state.startPoint.value;
      m.(drawings := MoveDrawings(m.drawings, m.state.selectedId.value, newPoint.time - sp.time, newPoint.price - sp.price),
         state := m.state.(startPoint := Some(newPoint)),
         notifications := m.notifications + [DrawingsChanged])
  }

  /** One endpoint of one drawing set to p. */
  function SetEndpoint(d: Drawing, handle: Handle, p: Point): (r: Drawing)
    requires HasEndpoints(d)
    ensures r.id == d.id && r.color == d.color && r.visible == d.visible && r.selected == d.selected
    ensures HasEndpoints(r) && r.Fib? == d.Fib? && r.Rect? == d.Rect?
    ensures handle == Start ==> r.start == p && r.end == d.end
    ensures handle == End ==> r.end == p && r.start == d.start
    ensures d.Fib? ==> r.levels == d.levels
    ensures d.Rect? ==> r.fillColor == d.fillColor
  {
    if handle == Start then d.(start := p) else d.(end := p)
  }

  function ResizeDrawings(ds: seq<Drawing>, id: string, handle: Handle, p: Point): (r: seq<Drawing>)
    ensures |r| == |ds|
    ensures forall i :: 0 <= i < |ds| ==>
      r[i] == if ds[i].id == id && HasEndpoints(ds[i]) then SetEndpoint(ds[i], handle, p) else ds[i]
  {
    seq(|ds|, i requires 0 <= i < |ds| =>
      if ds[i].id == id && HasEndpoints(ds[i]) then SetEndpoint(ds[i], handle, p) else ds[i])
  }

  /** Resizing to the same point twice is the same as once; only the latest point matters. */
  lemma ResizeLastWins(ds: seq<Drawing>, id: string, handle: Handle, p: Point, q: Point)
    ensures ResizeDrawings(ResizeDrawings(ds, id, handle, p), id, handle, q) == ResizeDrawings(ds, id, handle, q)
  {
    var a := ResizeDrawings(ResizeDrawings(ds, id, handle, p), id, handle, q);
    var b := ResizeDrawings(ds, id, handle, q);
    forall i | 0 <= i < |ds| ensures a[i] == b[i] {
    }
  }

  function ResizeSelectedDrawing(m: Manager, newPoint: Point): (r: Manager)
    ensures !Truthy(m.state.selectedId) || m.state.resizingHandle.None? ==> r == m
    ensures Truthy(m.state.selectedId) && m.state.resizingHandle.Some? ==>
      r.drawings == ResizeDrawings(m.drawings, m.state.selectedId.value, m.state.resizingHandle.value, newPoint)
      && r.state == m.state && r.notifications == m.notifications + [DrawingsChanged]
  {
    if !Truthy(m.state.selectedId) || m.state.resizingHandle.None? then m
    else
      m.(drawings := ResizeDrawings(m.drawings, m.state.selectedId.value, m.state.resizingHandle.value, newPoint),
         notifications := m.notifications + [DrawingsChanged])
  }

  // ---------------------------------------------------------------------
  // deleteSelected / clearAll / cancelDrawing
  // ---------------------------------------------------------------------

  /** `drawings.filter(d => d.id !== id)`. */
  function RemoveById(ds: seq<Drawing>, id: string): (r: seq<Drawing>)
    ensures |r| <= |ds|
    ensures forall d :: d in r <==> d in ds && d.id != id
  {
    if ds == [] then []
    else if ds[0].id == id then RemoveById(ds[1..], id)
    else [ds[0]] + RemoveById(ds[1..], id)
  }

  /** The condition `deleteSelected` filters by. */
  function OtherId(id: string): Drawing -> bool {
    (d: Drawing) => d.id != id
  }

  /** Removing by id is filtering by the other ids. */
  lemma {:induction false} RemoveIsFilter(ds: seq<Drawing>, id: string)
    ensures RemoveById(ds, id) == Seqs.Filter(ds, OtherId(id))
    decreases |ds|
  {
    if ds != [] {
      var x, rest := ds[0], ds[1..];
      RemoveIsFilter(rest, id);
      assert ds == [x] + rest;
      Seqs.FilterCons(x, rest, OtherId(id));
      assert RemoveById(ds, id) == (if x.id == id then [] else [x]) + RemoveById(rest, id);
    }
  }

  /**
   * Deleting keeps the other drawings in their order, which is the z-order the hit test
   * reads: the result reads off, in increasing order, exactly the positions whose id
   * differs, and keeps every copy of a kept drawing.
   */
  lemma RemoveKeepsOrder(ds: seq<Drawing>, id: string) returns (idx: seq<int>)
    ensures var r := RemoveById(ds, id);
      |idx| == |r| &&
      (forall k :: 0 <= k < |idx| ==> 0 <= idx[k] < |ds| && ds[idx[k]] == r[k]) &&
      (forall k, l :: 0 <= k < l < |idx| ==> idx[k] < idx[l]) &&
      (forall i :: 0 <= i < |ds| ==> (ds[i].id != id <==> i in idx))
    ensures forall d :: multiset(RemoveById(ds, id))[d] == if d.id != id then multiset(ds)[d] else 0
  {
    RemoveIsFilter(ds, id);
    idx := Seqs.FilterPositions(ds, OtherId(id));
    forall d ensures multiset(RemoveById(ds, id))[d] == if d.id != id then multiset(ds)[d] else 0 {
      Seqs.FilterCount(ds, OtherId(id), d);
    }
  }

  /** Removing the id after marking it selected leaves the other drawings, unselected. */
  lemma {:induction false} RemoveMarked(ds: seq<Drawing>, id: string)
    ensures RemoveById(MarkSelected(ds, id), id) == ClearSelection(RemoveById(ds, id))
    decreases |ds|
  {
    if ds != [] {
      var marked := MarkSelected(ds, id);
      assert marked[1..] == MarkSelected(ds[1..], id);
      RemoveMarked(ds[1..], id);
      if ds[0].id != id {
        var rest := RemoveById(ds[1..], id);
        ClearSelectionCons(ds[0], rest);
      }
    }
  }

  lemma ClearSelectionCons(d: Drawing, ds: seq<Drawing>)
    ensures ClearSelection([d] + ds) == [d.(selected := false)] + ClearSelection(ds)
  {
  }

  lemma TailUnique(ds: seq<Drawing>)
    requires UniqueIds(ds) && ds != []
    ensures UniqueIds(ds[1..])
    ensures forall d :: d in ds[1..] ==> d.id != ds[0].id
  {
    var tail := ds[1..];
    forall i, j | 0 <= i < j < |tail| ensures tail[i].id != tail[j].id {
      assert tail[i] == ds[i + 1] && tail[j] == ds[j + 1];
    }
    forall d | d in tail ensures d.id != ds[0].id {
      var k :| 0 <= k < |tail| && tail[k] == d;
      assert ds[k + 1] == d;
    }
  }

  /** Removing an id that does not occur changes nothing. */
  lemma {:induction false} RemoveAbsentId(ds: seq<Drawing>, id: string)
    requires forall k :: 0 <= k < |ds| ==> ds[k].id != id
    ensures RemoveById(ds, id) == ds
  {
    if ds != [] {
      forall k | 0 <= k < |ds[1..]| ensures ds[1..][k].id != id {
        assert ds[1..][k] == ds[k + 1];
      }
      RemoveAbsentId(ds[1..], id);
      assert ds == [ds[0]] + ds[1..];
    }
  }

  /** Removing an id keeps the remaining ids unique. */
  lemma {:induction false} RemoveKeepsUnique(ds: seq<Drawing>, id: string)
    requires UniqueIds(ds)
    ensures UniqueIds(RemoveById(ds, id))
  {
    if ds != [] {
      TailUnique(ds);
      RemoveKeepsUnique(ds[1..], id);
      if ds[0].id != id {
        var rt := RemoveById(ds[1..], id);
        var r := [ds[0]] + rt;
        forall i, j | 0 <= i < j < |r| ensures r[i].id != r[j].id {
          if i == 0 {
            assert r[j] == rt[j - 1];
            assert r[j] in rt;
          } else {
            assert r[i] == rt[i - 1] && r[j] == rt[j - 1];
          }
        }
      }
    }
  }

  /** Removing an id that occurs in a list of unique ids shortens it by exactly one. */
  lemma {:induction false} RemovePresentId(ds: seq<Drawing>, id: string, k: int)
    requires UniqueIds(ds) && 0 <= k < |ds| && ds[k].id == id
    ensures |RemoveById(ds, id)| == |ds| - 1
  {
    TailUnique(ds);
    if k == 0 {
      forall j | 0 <= j < |ds[1..]| ensures ds[1..][j].id != id {
        assert ds[1..][j] in ds[1..];
      }
      RemoveAbsentId(ds[1..], id);
    } else {
      assert ds[1..][k - 1] == ds[k];
      RemovePresentId(ds[1..], id, k - 1);
    }
  }

  /** deleteSelected: the manager afterwards and whether anything was deleted. */
  function DeleteSelected(m: Manager): (r: (Manager, bool))
    ensures !Truthy(m.state.selectedId) ==> r == (m, false)
    ensures Truthy(m.state.selectedId) ==>
      r.1 && r.0.drawings == RemoveById(m.drawings, m.state.selectedId.value)
      && r.0.state == m.state.(selectedId := None)
      && r.0.notifications == m.notifications + [DrawingsChanged, StateChanged]
  {
    if !Truthy(m.state.selectedId) then (m, false)
    else
      (m.(drawings := RemoveById(m.drawings, m.state.selectedId.value),
          state := m.state.(selectedId := None),
          notifications := m.notifications + [DrawingsChanged, StateChanged]), true)
  }

  function ClearAll(m: Manager): (r: Manager)
    ensures r.drawings == [] && r.state == m.state.(selectedId := None, hoveredId := None)
    ensures r.notifications == m.notifications + [DrawingsChanged, StateChanged]
  {
    m.(drawings := [],
       state := m.state.(selectedId := None, hoveredId := None),
       notifications := m.notifications + [DrawingsChanged, StateChanged])
  }

  /**
   * cancelDrawing: ends drawing and dragging, clears both gesture points and sets the tool to
   * none (through setTool, so the cursor goes back to default); resizing and the selection are
   * left untouched.
   */
  function CancelDrawing(m: Manager): (r: Manager)
    ensures !r.state.isDrawing && !r.state.isDragging && r.state.isResizing == m.state.isResizing
    ensures r.state.tool == NoTool && r.state.mode == IdleMode
    ensures r.drawings == m.drawings && r.state.selectedId == m.state.selectedId
    ensures r.state == m.state.(tool := NoTool, mode := IdleMode, isDrawing := false, isDragging := false,
                                startPoint := None, currentPoint := None)
    ensures r.nextId == m.nextId && r.notifications == m.notifications + [CursorChanged(Default), StateChanged]
    ensures AtRest(r.state) <==> !m.state.isResizing
  {
    var m1 := m.(state := m.state.(isDrawing := false, isDragging := false, mode := IdleMode,
                                   startPoint := None, currentPoint := None));
    SetTool(m1, NoTool)
  }

  // ---------------------------------------------------------------------
  // handleMouseDown / handleMouseMove / handleMouseUp
  // ---------------------------------------------------------------------

  /** The handle of the selected drawing under the pointer, if any. */
  function SelectedHandleAt(b: CoordinateBridge, m: Manager, x: real, y: real): (r: Option<Handle>)
    ensures r.Some? ==> Truthy(m.state.selectedId)
  {
    if !Truthy(m.state.selectedId) then None
    else
      var hit := HandleAt(b, m.drawings, x, y, HandleTolerance(m.touchMode));
      if hit.Some? && Some(hit.value.drawingId) == m.state.selectedId then Some(hit.value.handle) else None
  }

  /** Press on a handle of the selected drawing: start resizing. */
  function PressHandle(m: Manager, handle: Handle, point: Point): Manager {
    m.(state := m.state.(isResizing := true, resizingHandle := Some(handle), mode := ResizingMode,
                         startPoint := Some(point)),
       notifications := m.notifications + [CursorChanged(Crosshair), StateChanged])
  }

  /** Press with the select/none tool: select and start dragging the drawing hit, or deselect. */
  function PressPointer(b: CoordinateBridge, m: Manager, point: Point, x: real, y: real): Manager {
    var hitId := FindDrawingAt(b, m.drawings, x, y, HitTolerance(m.touchMode));
    var m1 :=
      if Truthy(hitId) then
        var s := SelectDrawing(m, hitId.value);
        s.(state := s.state.(isDragging := true, mode := MovingMode, startPoint := Some(point)),
           notifications := s.notifications + [CursorChanged(Grabbing)])
      else DeselectAll(m);
    m1.(notifications := m1.notifications + [StateChanged])
  }

  /** Press with a drawing tool: start a drawing at the snapped point; a horizontal line is finished at once. */
  function PressDraw(b: CoordinateBridge, m: Manager, point: Point, x: real, y: real): Manager {
    var snapped := SnapToOHLC(m.snapOptions, m.candleData, b, point, y);
    var m1 := m.(state := m.state.(isDrawing := true, mode := DrawingMode,
                                   startPoint := Some(snapped), currentPoint := Some(snapped),
                                   rawStartScreen := Some(ScreenPoint(x, y)),
                                   rawCurrentScreen := Some(ScreenPoint(x, y))));
    var m2 := if m.state.tool == HLineTool then CompleteDrawing(m1, snapped) else m1;
    m2.(notifications := m2.notifications + [StateChanged])
  }

  function MouseDown(b: CoordinateBridge, m: Manager, x: real, y: real): (r: Manager)
    ensures ScreenToChart(b, x, y).None? ==> r == m
    ensures r.snapOptions == m.snapOptions && r.candleData == m.candleData && r.touchMode == m.touchMode
  {
    match ScreenToChart(b, x, y)
    case None => m
    case Some(point) =>
      var handle := SelectedHandleAt(b, m, x, y);
      if handle.Some? then PressHandle(m, handle.value, point)
      else if IsPointerTool(m.state.tool) then PressPointer(b, m, point, x, y)
      else PressDraw(b, m, point, x, y)
  }

  /**
   * Pointer movement with no gesture in progress: the hovered handle becomes the selected
   * drawing's handle under the pointer and the hovered id the topmost drawing hit.  Only a
   * change is announced; under the pointer tools the cursor becomes a crosshair over a
   * handle, a grab hand over a drawing and the default arrow elsewhere.
   */
  function Hover(b: CoordinateBridge, m: Manager, x: real, y: real): (r: Manager)
    ensures r.drawings == m.drawings
    ensures r.state == m.state.(hoveredHandle := r.state.hoveredHandle, hoveredId := r.state.hoveredId)
  {
    var hoveredHandle := SelectedHandleAt(b, m, x, y);
    var hitId := FindDrawingAt(b, m.drawings, x, y, HitTolerance(m.touchMode));
    if hoveredHandle != m.state.hoveredHandle || hitId != m.state.hoveredId then
      var cursor := if hoveredHandle.Some? then Crosshair else if Truthy(hitId) then Grab else Default;
      m.(state := m.state.(hoveredHandle := hoveredHandle, hoveredId := hitId),
         notifications := m.notifications
           + (if IsPointerTool(m.state.tool) then [CursorChanged(cursor)] else [])
           + [StateChanged])
    else m
  }

  /** The hovered handle or the hovered drawing differs. */
  predicate HoverChanged(m: Manager, r: Manager) {
    r.state.hoveredHandle != m.state.hoveredHandle || r.state.hoveredId != m.state.hoveredId
  }

  /**
   * The cursor announced on a hover change: only under the pointer tools, a crosshair over
   * a handle, a grab hand over a drawing and the default arrow elsewhere.
   */
  function HoverCursor(tool: Tool, st: DrawingState): seq<Notification> {
    if !IsPointerTool(tool) then []
    else if st.hoveredHandle.Some? then [CursorChanged(Crosshair)]
    else if Truthy(st.hoveredId) then [CursorChanged(Grab)]
    else [CursorChanged(Default)]
  }

  /**
   * What hovering computes: the hovered handle is the selected drawing's handle under the
   * pointer, the hovered id the topmost drawing hit, and only a change is announced, with
   * the cursor under the pointer tools.
   */
  lemma HoverComputes(b: CoordinateBridge, m: Manager, x: real, y: real)
    ensures var r := Hover(b, m, x, y);
      && r.state.hoveredHandle == SelectedHandleAt(b, m, x, y)
      && r.state.hoveredId == FindDrawingAt(b, m.drawings, x, y, HitTolerance(m.touchMode))
      && (HoverChanged(m, r) ==> r.notifications == m.notifications + HoverCursor(m.state.tool, r.state) + [StateChanged])
      && (!HoverChanged(m, r) ==> r.notifications == m.notifications)
  {
  }

  /** The two outcomes of Hover, given the handle and drawing under the pointer and the cursor announcement. */
  lemma HoverOutcome(b: CoordinateBridge, m: Manager, x: real, y: real, h: Option<Handle>, hit: Option<string>,
                     cursorChange: seq<Notification>)
    requires h == SelectedHandleAt(b, m, x, y)
    requires hit == FindDrawingAt(b, m.drawings, x, y, HitTolerance(m.touchMode))
    requires cursorChange ==
      if IsPointerTool(m.state.tool) then
        [CursorChanged(if h.Some? then Crosshair else if Truthy(hit) then Grab else Default)]
      else []
    ensures h == m.state.hoveredHandle && hit == m.state.hoveredId ==> Hover(b, m, x, y) == m
    ensures h != m.state.hoveredHandle || hit != m.state.hoveredId ==>
      Hover(b, m, x, y) == m.(state := m.state.(hoveredHandle := h, hoveredId := hit),
                              notifications := m.notifications + cursorChange + [StateChanged])
  {
  }

  function MouseMove(b: CoordinateBridge, m: Manager, x: real, y: real): (r: Manager)
    ensures r.state.isDrawing == m.state.isDrawing && r.state.isDragging == m.state.isDragging
    ensures r.state.isResizing == m.state.isResizing && r.state.resizingHandle == m.state.resizingHandle
    ensures r.state.tool == m.state.tool && r.state.selectedId == m.state.selectedId
    ensures r.nextId == m.nextId
    ensures m.state.isDrawing && m.state.startPoint.Some? ==> r.drawings == m.drawings && r.state.startPoint == m.state.startPoint
  {
    match ScreenToChart(b, x, y)
    case None => m
    case Some(point) =>
      if m.state.isDrawing && m.state.startPoint.Some? then
        m.(state := m.state.(currentPoint := Some(point), rawCurrentScreen := Some(ScreenPoint(x, y))),
           notifications := m.notifications + [StateChanged])
      else if m.state.isResizing && Truthy(m.state.selectedId) && m.state.resizingHandle.Some? then
        ResizeSelectedDrawing(m, SnapToOHLC(m.snapOptions, m.candleData, b, point, y))
      else if m.state.isDragging && Truthy(m.state.selectedId) && m.state.startPoint.Some? then
        MoveSelectedDrawing(m, point)
      else
        Hover(b, m, x, y)
  }

  function ReleaseCursor(m: Manager): Cursor {
    if Truthy(m.state.hoveredId) then Grab else Default
  }

  function EndDrag(m: Manager): Manager {
    if m.state.isDragging then
      m.(state := m.state.(isDragging := false, mode := IdleMode),
         notifications := m.notifications + [CursorChanged(ReleaseCursor(m))])
    else m
  }

  function EndResize(m: Manager): Manager {
    if m.state.isResizing then
      m.(state := m.state.(isResizing := false, resizingHandle := None, mode := IdleMode),
         notifications := m.notifications + [CursorChanged(ReleaseCursor(m))])
    else m
  }

  /** handleMouseUp: finishes a drawing when the point maps, then ends any drag and resize. */
  function MouseUp(b: CoordinateBridge, m: Manager, x: real, y: real): (r: Manager)
    ensures !r.state.isDrawing && !r.state.isDragging && !r.state.isResizing
    ensures r.state.startPoint.None? && r.state.resizingHandle == (if m.state.isResizing then None else m.state.resizingHandle)
  {
    var point := ScreenToChart(b, x, y);
    var m1 :=
      if m.state.isDrawing && m.state.startPoint.Some? && point.Some? then
        CompleteDrawing(m, SnapToOHLC(m.snapOptions, m.candleData, b, point.value, y))
      else m;
    ReleaseAll(m1)
  }

  lemma ReleaseKeeps(m: Manager)
    ensures var e := EndResize(EndDrag(m));
      ReleaseAll(m) == e.(state := e.state.(isDrawing := false, startPoint := None),
                          notifications := e.notifications + [StateChanged])
  {
  }

  /** The part of handleMouseUp after any completion: end drag and resize, clear the drawing state. */
  function ReleaseAll(m: Manager): Manager {
    var m2 := EndResize(EndDrag(m));
    m2.(state := m2.state.(isDrawing := false, startPoint := None),
        notifications := m2.notifications + [StateChanged])
  }

  // ---------------------------------------------------------------------
  // Setters and the event loop
  // ---------------------------------------------------------------------

  function SetDrawings(m: Manager, ds: seq<Drawing>): (r: Manager)
    ensures r.drawings == ds && r.state == m.state && r.notifications == m.notifications + [DrawingsChanged]
  {
    m.(drawings := ds, notifications := m.notifications + [DrawingsChanged])
  }

  /** setSnapEnabled switches both the snapping and the OHLC snapping flag. */
  function SetSnapEnabled(m: Manager, enabled: bool): (r: Manager)
    ensures r.snapOptions == m.snapOptions.(enabled := enabled, snapToOHLC := enabled)
    ensures r.state == m.state && r.drawings == m.drawings
  {
    m.(snapOptions := m.snapOptions.(enabled := enabled, snapToOHLC := enabled))
  }

  /** Everything that can happen to a manager: pointer events and the public operations. */
  datatype Input =
    | PointerDown(x: real, y: real)
    | PointerMove(x: real, y: real)
    | PointerUp(x: real, y: real)
    | ChooseTool(tool: Tool)
    | Select(id: string)
    | Deselect
    | DeleteSelection
    | Clear
    | Cancel
    | LoadDrawings(drawings: seq<Drawing>)
    | LoadCandles(candles: seq<Candle>)
    | EnableSnap(enabled: bool)
    | EnableTouch(enabled: bool)

  function Apply(b: CoordinateBridge, m: Manager, input: Input): Manager {
    match input
    case PointerDown(x, y) => MouseDown(b, m, x, y)
    case PointerMove(x, y) => MouseMove(b, m, x, y)
    case PointerUp(x, y) => MouseUp(b, m, x, y)
    case ChooseTool(t) => SetTool(m, t)
    case Select(id) => SelectDrawing(m, id)
    case Deselect => DeselectAll(m)
    case DeleteSelection => DeleteSelected(m).0
    case Clear => ClearAll(m)
    case Cancel => CancelDrawing(m)
    case LoadDrawings(ds) => SetDrawings(m, ds)
    case LoadCandles(cs) => m.(candleData := cs)
    case EnableSnap(e) => SetSnapEnabled(m, e)
    case EnableTouch(e) => m.(touchMode := e)
  }

  function Run(b: CoordinateBridge, m: Manager, inputs: seq<Input>): Manager
    decreases |inputs|
  {
    if inputs == [] then m else Run(b, Apply(b, m, inputs[0]), inputs[1..])
  }

  // ---------------------------------------------------------------------
  // Gesture flags
  // ---------------------------------------------------------------------

  /** A drawing in progress has its anchor and a two-point tool; a resize knows its handle. */
  predicate Consistent(st: DrawingState) {
    (st.isDrawing ==> st.startPoint.Some? && IsDragTool(st.tool)) &&
    (st.isResizing ==> st.resizingHandle.Some?)
  }

  /** The documented exclusivity of the three gesture flags. */
  predicate AtMostOneGesture(st: DrawingState) {
    (st.isDrawing ==> !st.isDragging && !st.isResizing) && !(st.isDragging && st.isResizing)
  }

  predicate AtRest(st: DrawingState) {
    !st.isDrawing && !st.isDragging && !st.isResizing
  }

  /** Every input keeps the state consistent. */
  lemma ApplyKeepsConsistent(b: CoordinateBridge, m: Manager, input: Input)
    requires Consistent(m.state)
    ensures Consistent(Apply(b, m, input).state)
  {
    match input
    case PointerDown(x, y) => DownKeepsConsistent(b, m, x, y);
    case PointerMove(x, y) => MoveKeepsConsistent(b, m, x, y);
    case PointerUp(x, y) =>
    case _ =>
  }

  lemma DownKeepsConsistent(b: CoordinateBridge, m: Manager, x: real, y: real)
    requires Consistent(m.state)
    ensures Consistent(MouseDown(b, m, x, y).state)
  {
    match ScreenToChart(b, x, y)
    case None =>
    case Some(point) =>
      var handle := SelectedHandleAt(b, m, x, y);
      if handle.Some? {
        assert Consistent(PressHandle(m, handle.value, point).state);
      } else if IsPointerTool(m.state.tool) {
        PointerKeepsConsistent(b, m, point, x, y);
      } else {
        DrawKeepsConsistent(b, m, point, x, y);
      }
  }

  lemma PointerKeepsConsistent(b: CoordinateBridge, m: Manager, point: Point, x: real, y: real)
    requires Consistent(m.state)
    ensures Consistent(PressPointer(b, m, point, x, y).state)
  {
  }

  lemma DrawKeepsConsistent(b: CoordinateBridge, m: Manager, point: Point, x: real, y: real)
    requires Consistent(m.state) && !IsPointerTool(m.state.tool)
    ensures Consistent(PressDraw(b, m, point, x, y).state)
  {
  }

  lemma MoveKeepsConsistent(b: CoordinateBridge, m: Manager, x: real, y: real)
    requires Consistent(m.state)
    ensures Consistent(MouseMove(b, m, x, y).state)
  {
  }

  /**
   * Every input keeps the gesture flags exclusive, except a press that arrives while a
   * gesture is still in progress (its release was never delivered).
   */
  lemma ApplyKeepsExclusive(b: CoordinateBridge, m: Manager, input: Input)
    requires Consistent(m.state) && AtMostOneGesture(m.state)
    requires input.PointerDown? ==> AtRest(m.state)
    ensures AtMostOneGesture(Apply(b, m, input).state)
  {
  }

  lemma {:induction false} RunKeepsConsistent(b: CoordinateBridge, m: Manager, inputs: seq<Input>)
    requires Consistent(m.state)
    ensures Consistent(Run(b, m, inputs).state)
    decreases |inputs|
  {
    if inputs != [] {
      ApplyKeepsConsistent(b, m, inputs[0]);
      RunKeepsConsistent(b, Apply(b, m, inputs[0]), inputs[1..]);
    }
  }

  /** The identity mapping between screen and chart coordinates. */
  const IdentityBridge := CoordinateBridge(x => Some(x), y => Some(y), t => Some(t), p => Some(p))

  /** Draw a horizontal line at y = 100, grab it, switch to the trend-line tool and press again. */
  const BothFlagsInputs: seq<Input> :=
    [ChooseTool(HLineTool), PointerDown(0.0, 100.0), PointerDown(50.0, 100.0),
     ChooseTool(TrendLineTool), PointerDown(0.0, 0.0)]

  /** As written, the sequence above leaves the manager drawing and dragging at once. */
  lemma ExclusivityViolated()
    ensures var r := Run(IdentityBridge, InitialManager, BothFlagsInputs);
      r.state.isDrawing && r.state.isDragging
  {
    var b := IdentityBridge;
    var m1 := SetTool(InitialManager, HLineTool);
    assert Run(b, InitialManager, BothFlagsInputs) == Run(b, m1, BothFlagsInputs[1..]);
    var m2 := MouseDown(b, m1, 0.0, 100.0);
    PressPlacesLine(m1);
    assert Run(b, m1, BothFlagsInputs[1..]) == Run(b, m2, BothFlagsInputs[2..]);
    var m3 := MouseDown(b, m2, 50.0, 100.0);
    PressGrabsLine(m2);
    assert Run(b, m2, BothFlagsInputs[2..]) == Run(b, m3, BothFlagsInputs[3..]);
    var m4 := SetTool(m3, TrendLineTool);
    assert Run(b, m3, BothFlagsInputs[3..]) == Run(b, m4, BothFlagsInputs[4..]);
    PressStartsDrawing(m4);
    assert Run(b, m4, BothFlagsInputs[4..]) == Run(b, MouseDown(b, m4, 0.0, 0.0), []);
  }

  /** The horizontal line of the example, before and after it is selected. */
  const ExampleLine := HLine(DrawingId(0), "#FBBF24", true, false, 100.0)
  const SelectedExampleLine := HLine(DrawingId(0), "#FBBF24", true, true, 100.0)

  /** With the hline tool and no drawings, a press at y = 100 places the example line. */
  lemma PressPlacesLine(m: Manager)
    requires m.state.tool == HLineTool && !Truthy(m.state.selectedId)
    requires m.drawings == [] && m.nextId == 0 && !m.snapOptions.enabled && !m.state.isDragging
    ensures var r := MouseDown(IdentityBridge, m, 0.0, 100.0);
      r.drawings == [ExampleLine] && r.state.tool == NoTool && !Truthy(r.state.selectedId)
      && !r.state.isDragging && !r.snapOptions.enabled && r.touchMode == m.touchMode
  {
    var b := IdentityBridge;
    assert ScreenToChart(b, 0.0, 100.0) == Some(Point(0.0, 100.0));
    assert SelectedHandleAt(b, m, 0.0, 100.0).None?;
    assert SnapToOHLC(m.snapOptions, m.candleData, b, Point(0.0, 100.0), 100.0) == Point(0.0, 100.0);
  }

  /** With the pointer tool, a press on the example line selects it and starts dragging. */
  lemma PressGrabsLine(m: Manager)
    requires IsPointerTool(m.state.tool) && !Truthy(m.state.selectedId)
    requires m.drawings == [ExampleLine] && !m.touchMode
    ensures var r := MouseDown(IdentityBridge, m, 50.0, 100.0);
      r.state.isDragging && r.state.selectedId == Some(DrawingId(0))
      && r.drawings == [SelectedExampleLine] && !r.touchMode
  {
    var b := IdentityBridge;
    assert ScreenToChart(b, 50.0, 100.0) == Some(Point(50.0, 100.0));
    assert SelectedHandleAt(b, m, 50.0, 100.0).None?;
    assert VisibleHit(b, ExampleLine, 50.0, 100.0, 8.0);
    assert FindDrawingAt(b, m.drawings, 50.0, 100.0, 8.0) == Some(DrawingId(0));
  }

  /** With a drawing tool, a press away from any handle starts drawing while the drag goes on. */
  lemma PressStartsDrawing(m: Manager)
    requires m.state.tool == TrendLineTool && m.state.isDragging
    requires m.drawings == [SelectedExampleLine] && m.state.selectedId == Some(DrawingId(0))
    requires !m.touchMode
    ensures var r := MouseDown(IdentityBridge, m, 0.0, 0.0);
      r.state.isDrawing && r.state.isDragging
  {
    var b := IdentityBridge;
    assert ScreenToChart(b, 0.0, 0.0) == Some(Point(0.0, 0.0));
    assert HandleAt(b, m.drawings, 0.0, 0.0, 12.0).None?;
  }

  // ---------------------------------------------------------------------
  // A press that first abandons the unfinished gesture
  // ---------------------------------------------------------------------

  /** Drops a gesture whose release never arrived, as cancelDrawing and handleMouseUp do. */
  function AbandonGesture(m: Manager): (r: Manager)
    ensures AtRest(r.state) && r.drawings == m.drawings && r.nextId == m.nextId
  {
    m.(state := m.state.(isDrawing := false, isDragging := false, isResizing := false,
                         resizingHandle := None, mode := IdleMode,
                         startPoint := None, currentPoint := None))
  }

  function CorrectedMouseDown(b: CoordinateBridge, m: Manager, x: real, y: real): (r: Manager)
    ensures AtRest(m.state) ==> r == MouseDown(b, m, x, y)
  {
    if ScreenToChart(b, x, y).None? || AtRest(m.state) then MouseDown(b, m, x, y)
    else MouseDown(b, AbandonGesture(m), x, y)
  }

  function CorrectedApply(b: CoordinateBridge, m: Manager, input: Input): (r: Manager)
    ensures !input.PointerDown? ==> r == Apply(b, m, input)
  {
    if input.PointerDown? then CorrectedMouseDown(b, m, input.x, input.y) else Apply(b, m, input)
  }

  function CorrectedRun(b: CoordinateBridge, m: Manager, inputs: seq<Input>): Manager
    decreases |inputs|
  {
    if inputs == [] then m else CorrectedRun(b, CorrectedApply(b, m, inputs[0]), inputs[1..])
  }

  /** With the corrected press, the flags stay exclusive after any sequence of inputs. */
  lemma {:induction false} CorrectedRunKeepsExclusive(b: CoordinateBridge, m: Manager, inputs: seq<Input>)
    requires Consistent(m.state) && AtMostOneGesture(m.state)
    ensures Consistent(CorrectedRun(b, m, inputs).state) && AtMostOneGesture(CorrectedRun(b, m, inputs).state)
    decreases |inputs|
  {
    if inputs != [] {
      var m1 := CorrectedApply(b, m, inputs[0]);
      if inputs[0].PointerDown? && !AtRest(m.state) {
        ApplyKeepsExclusive(b, AbandonGesture(m), inputs[0]);
        ApplyKeepsConsistent(b, AbandonGesture(m), inputs[0]);
      } else {
        ApplyKeepsExclusive(b, m, inputs[0]);
        ApplyKeepsConsistent(b, m, inputs[0]);
      }
      CorrectedRunKeepsExclusive(b, m1, inputs[1..]);
    }
  }

  /** In particular from a fresh manager, and the counterexample no longer applies. */
  lemma CorrectedFromInitial(b: CoordinateBridge, inputs: seq<Input>)
    ensures AtMostOneGesture(CorrectedRun(b, InitialManager, inputs).state)
  {
    CorrectedRunKeepsExclusive(b, InitialManager, inputs);
  }

  /** A run whose presses all arrive at rest behaves the same under both press handlers. */
  lemma {:induction false} CorrectedAgreesAtRest(b: CoordinateBridge, m: Manager, inputs: seq<Input>)
    requires Consistent(m.state) && AtMostOneGesture(m.state)
    requires forall i :: 0 <= i < |inputs| && inputs[i].PointerDown? ==> AtRest(Run(b, m, inputs[..i]).state)
    ensures CorrectedRun(b, m, inputs) == Run(b, m, inputs)
    decreases |inputs|
  {
    if inputs != [] {
      assert inputs[..0] == [];
      var m1 := Apply(b, m, inputs[0]);
      assert CorrectedApply(b, m, inputs[0]) == m1;
      ApplyKeepsConsistent(b, m, inputs[0]);
      ApplyKeepsExclusive(b, m, inputs[0]);
      forall i | 0 <= i < |inputs[1..]| && inputs[1..][i].PointerDown?
        ensures AtRest(Run(b, m1, inputs[1..][..i]).state)
      {
        assert inputs[..i + 1] == [inputs[0]] + inputs[1..][..i];
        assert Run(b, m, inputs[..i + 1]) == Run(b, m1, inputs[1..][..i]);
      }
      CorrectedAgreesAtRest(b, m1, inputs[1..]);
    }
  }

  // ---------------------------------------------------------------------
  // Gestures
  // ---------------------------------------------------------------------

  /** A press with the horizontal-line tool creates the line at once, at the snapped price. */
  lemma HLineOnPress(b: CoordinateBridge, m: Manager, x: real, y: real)
    requires m.state.tool == HLineTool && SelectedHandleAt(b, m, x, y).None?
    requires ScreenToChart(b, x, y).Some?
    ensures var r := MouseDown(b, m, x, y);
      var snapped := SnapToOHLC(m.snapOptions, m.candleData, b, ScreenToChart(b, x, y).value, y);
      r.drawings == m.drawings + [HLine(DrawingId(m.nextId), "#FBBF24", true, false, snapped.price)]
      && r.state.tool == NoTool && !r.state.isDrawing && r.nextId == m.nextId + 1
  {
  }

  function Moves(points: seq<ScreenPoint>): (r: seq<Input>)
    ensures |r| == |points|
    ensures forall i :: 0 <= i < |r| ==> r[i] == PointerMove(points[i].x, points[i].y)
  {
    seq(|points|, i requires 0 <= i < |points| => PointerMove(points[i].x, points[i].y))
  }

  /** Moving while drawing only updates the preview. */
  lemma {:induction false} PreviewKeepsAnchor(b: CoordinateBridge, m: Manager, points: seq<ScreenPoint>)
    requires m.state.isDrawing && m.state.startPoint.Some?
    ensures var r := Run(b, m, Moves(points));
      r.drawings == m.drawings && r.nextId == m.nextId &&
      r.state.isDrawing && r.state.startPoint == m.state.startPoint && r.state.tool == m.state.tool &&
      r.state.isDragging == m.state.isDragging && r.state.isResizing == m.state.isResizing &&
      r.state.selectedId == m.state.selectedId &&
      r.snapOptions == m.snapOptions && r.candleData == m.candleData
    decreases |points|
  {
    if points != [] {
      var m1 := MouseMove(b, m, points[0].x, points[0].y);
      assert Moves(points)[1..] == Moves(points[1..]);
      PreviewKeepsAnchor(b, m1, points[1..]);
    }
  }

  /**
   * Press, any number of moves and a release with a two-point tool add exactly one
   * drawing, anchored at the snapped press and release points, and go back to the
   * `none` tool at rest.
   */
  lemma DrawGesture(b: CoordinateBridge, m: Manager, down: ScreenPoint, points: seq<ScreenPoint>, up: ScreenPoint)
    requires IsDragTool(m.state.tool) && !m.state.isDragging && !m.state.isResizing
    requires SelectedHandleAt(b, m, down.x, down.y).None?
    requires ScreenToChart(b, down.x, down.y).Some? && ScreenToChart(b, up.x, up.y).Some?
    ensures var r := Run(b, m, [PointerDown(down.x, down.y)] + Moves(points) + [PointerUp(up.x, up.y)]);
      var start := SnapToOHLC(m.snapOptions, m.candleData, b, ScreenToChart(b, down.x, down.y).value, down.y);
      var end := SnapToOHLC(m.snapOptions, m.candleData, b, ScreenToChart(b, up.x, up.y).value, up.y);
      r.drawings == m.drawings + [NewDrawing(m.state.tool, DrawingId(m.nextId), start, end).value]
      && r.nextId == m.nextId + 1 && r.state.tool == NoTool && AtRest(r.state)
  {
    var m1 := MouseDown(b, m, down.x, down.y);
    PressStartsGesture(b, m, down);
    PreviewKeepsAnchor(b, m1, points);
    var m2 := Run(b, m1, Moves(points));
    GestureRun(b, m, down, points, up);
    ReleaseCompletes(b, m2, up);
  }

  /** With a two-point tool and no handle under the pointer, a press starts a drawing at the snapped point. */
  lemma PressStartsGesture(b: CoordinateBridge, m: Manager, down: ScreenPoint)
    requires IsDragTool(m.state.tool) && !m.state.isDragging && !m.state.isResizing
    requires SelectedHandleAt(b, m, down.x, down.y).None?
    requires ScreenToChart(b, down.x, down.y).Some?
    ensures var r := MouseDown(b, m, down.x, down.y);
      r.drawings == m.drawings && r.nextId == m.nextId && r.state.tool == m.state.tool &&
      r.state.isDrawing && !r.state.isDragging && !r.state.isResizing &&
      r.state.startPoint == Some(SnapToOHLC(m.snapOptions, m.candleData, b, ScreenToChart(b, down.x, down.y).value, down.y)) &&
      r.snapOptions == m.snapOptions && r.candleData == m.candleData
  {
  }

  /** The release of a two-point drawing gesture completes it. */
  lemma ReleaseCompletes(b: CoordinateBridge, m: Manager, up: ScreenPoint)
    requires IsDragTool(m.state.tool) && m.state.isDrawing && m.state.startPoint.Some?
    requires !m.state.isDragging && !m.state.isResizing
    requires ScreenToChart(b, up.x, up.y).Some?
    ensures var r := MouseUp(b, m, up.x, up.y);
      var end := SnapToOHLC(m.snapOptions, m.candleData, b, ScreenToChart(b, up.x, up.y).value, up.y);
      r.drawings == m.drawings + [NewDrawing(m.state.tool, DrawingId(m.nextId), m.state.startPoint.value, end).value]
      && r.nextId == m.nextId + 1 && r.state.tool == NoTool && AtRest(r.state)
  {
  }

  /** A press, moves and a release run as the three steps in turn. */
  lemma GestureRun(b: CoordinateBridge, m: Manager, down: ScreenPoint, points: seq<ScreenPoint>, up: ScreenPoint)
    ensures Run(b, m, [PointerDown(down.x, down.y)] + Moves(points) + [PointerUp(up.x, up.y)])
         == MouseUp(b, Run(b, MouseDown(b, m, down.x, down.y), Moves(points)), up.x, up.y)
  {
    var inputs := [PointerDown(down.x, down.y)] + Moves(points) + [PointerUp(up.x, up.y)];
    var m1 := MouseDown(b, m, down.x, down.y);
    assert inputs[1..] == Moves(points) + [PointerUp(up.x, up.y)];
    RunAppend(b, m1, Moves(points), [PointerUp(up.x, up.y)]);
    assert Run(b, m, inputs) == Run(b, m1, inputs[1..]);
  }

  lemma {:induction false} RunAppend(b: CoordinateBridge, m: Manager, xs: seq<Input>, ys: seq<Input>)
    ensures Run(b, m, xs + ys) == Run(b, Run(b, m, xs), ys)
    decreases |xs|
  {
    if xs == [] {
      assert xs + ys == ys;
    } else {
      assert (xs + ys)[1..] == xs[1..] + ys;
      RunAppend(b, Apply(b, m, xs[0]), xs[1..], ys);
    }
  }

  /** The last point of a pointer path that maps to the chart, if any. */
  function LastMapped(b: CoordinateBridge, points: seq<ScreenPoint>): (r: Option<Point>)
    ensures r.Some? ==> exists i :: 0 <= i < |points| && ScreenToChart(b, points[i].x, points[i].y) == r
    decreases |points|
  {
    if points == [] then None
    else
      var p := ScreenToChart(b, points[|points| - 1].x, points[|points| - 1].y);
      if p.Some? then p else LastMapped(b, points[..|points| - 1])
  }

  /**
   * Dragging the selected drawing along a pointer path moves it by the offset between
   * the press point and the last point of the path that maps to the chart: the intermediate
   * moves add up.
   */
  lemma {:induction false} DragAddsUp(b: CoordinateBridge, m: Manager, points: seq<ScreenPoint>)
    requires m.state.isDragging && !m.state.isDrawing && !m.state.isResizing
    requires Truthy(m.state.selectedId) && m.state.startPoint.Some?
    ensures DraggedTo(m, Run(b, m, Moves(points)), LastMapped(b, points).GetOr(m.state.startPoint.value))
    decreases |points|
  {
    if points == [] {
      MoveByZero(m.drawings, m.state.selectedId.value);
    } else {
      var init := points[..|points| - 1];
      var q := points[|points| - 1];
      assert Moves(points) == Moves(init) + [PointerMove(q.x, q.y)];
      RunAppend(b, m, Moves(init), [PointerMove(q.x, q.y)]);
      DragAddsUp(b, m, init);
      var mid := Run(b, m, Moves(init));
      assert Run(b, m, Moves(points)) == MouseMove(b, mid, q.x, q.y);
      var p := ScreenToChart(b, q.x, q.y);
      assert LastMapped(b, points) == if p.Some? then p else LastMapped(b, init);
      DragExtend(b, m, mid, LastMapped(b, init).GetOr(m.state.startPoint.value), q.x, q.y);
    }
  }

  /** r is m after dragging the selected drawing from m's anchor to last. */
  ghost predicate DraggedTo(m: Manager, r: Manager, last: Point)
    requires m.state.startPoint.Some? && m.state.selectedId.Some?
  {
    var sp := m.state.startPoint.value;
    r.state.startPoint == Some(last) &&
    r.drawings == MoveDrawings(m.drawings, m.state.selectedId.value, last.time - sp.time, last.price - sp.price) &&
    r.state.isDragging && !r.state.isDrawing && !r.state.isResizing && r.state.selectedId == m.state.selectedId
  }

  lemma DragExtend(b: CoordinateBridge, m: Manager, mid: Manager, l1: Point, x: real, y: real)
    requires Truthy(m.state.selectedId) && m.state.startPoint.Some?
    requires DraggedTo(m, mid, l1)
    ensures var p := ScreenToChart(b, x, y);
      DraggedTo(m, MouseMove(b, mid, x, y), if p.Some? then p.value else l1)
  {
    var r := MouseMove(b, mid, x, y);
    DragStep(b, mid, x, y);
    match ScreenToChart(b, x, y)
    case None =>
    case Some(p) =>
      DragOn(m, mid, r, l1, p);
  }

  lemma DragOn(m: Manager, mid: Manager, r: Manager, l1: Point, l2: Point)
    requires m.state.startPoint.Some? && m.state.selectedId.Some?
    requires DraggedTo(m, mid, l1)
    requires r.state.startPoint == Some(l2)
    requires r.drawings == MoveDrawings(mid.drawings, m.state.selectedId.value, l2.time - l1.time, l2.price - l1.price)
    requires r.state.isDragging == mid.state.isDragging && r.state.isDrawing == mid.state.isDrawing
    requires r.state.isResizing == mid.state.isResizing && r.state.selectedId == mid.state.selectedId
    ensures DraggedTo(m, r, l2)
  {
    DragShift(m.drawings, m.state.selectedId.value, m.state.startPoint.value, l1, l2);
  }

  /** Dragging from sp to l1 and then on to l2 moves as far as dragging from sp to l2. */
  lemma DragShift(ds: seq<Drawing>, id: string, sp: Point, l1: Point, l2: Point)
    ensures MoveDrawings(MoveDrawings(ds, id, l1.time - sp.time, l1.price - sp.price), id, l2.time - l1.time, l2.price - l1.price)
         == MoveDrawings(ds, id, l2.time - sp.time, l2.price - sp.price)
  {
    MovesCompose(ds, id, l1.time - sp.time, l1.price - sp.price, l2.time - l1.time, l2.price - l1.price);
    assert (l1.time - sp.time) + (l2.time - l1.time) == l2.time - sp.time;
    assert (l1.price - sp.price) + (l2.price - l1.price) == l2.price - sp.price;
  }

  /** One pointer move while dragging. */
  lemma DragStep(b: CoordinateBridge, m: Manager, x: real, y: real)
    requires m.state.isDragging && !m.state.isDrawing && !m.state.isResizing
    requires Truthy(m.state.selectedId) && m.state.startPoint.Some?
    ensures var r := MouseMove(b, m, x, y);
      var sp := m.state.startPoint.value;
      match ScreenToChart(b, x, y)
      case None => r == m
      case Some(p) =>
        r.state.startPoint == Some(p) &&
        r.drawings == MoveDrawings(m.drawings, m.state.selectedId.value, p.time - sp.time, p.price - sp.price)
  {
  }

  /** Resizing along a pointer path leaves the handle at the snapped last point; earlier points do not matter. */
  lemma {:induction false} ResizeFollowsLastPoint(b: CoordinateBridge, m: Manager, points: seq<ScreenPoint>)
    requires m.state.isResizing && !m.state.isDrawing && Truthy(m.state.selectedId)
    requires m.state.resizingHandle.Some?
    requires points != [] && ScreenToChart(b, points[|points| - 1].x, points[|points| - 1].y).Some?
    ensures var r := Run(b, m, Moves(points));
      var q := points[|points| - 1];
      var end := SnapToOHLC(m.snapOptions, m.candleData, b, ScreenToChart(b, q.x, q.y).value, q.y);
      r.drawings == ResizeDrawings(m.drawings, m.state.selectedId.value, m.state.resizingHandle.value, end) &&
      r.state == m.state
    decreases |points|
  {
    var init := points[..|points| - 1];
    var q := points[|points| - 1];
    assert Moves(points) == Moves(init) + [PointerMove(q.x, q.y)];
    RunAppend(b, m, Moves(init), [PointerMove(q.x, q.y)]);
    var mid := Run(b, m, Moves(init));
    ResizeKeepsState(b, m, init);
    var id, h := m.state.selectedId.value, m.state.resizingHandle.value;
    var end := SnapToOHLC(m.snapOptions, m.candleData, b, ScreenToChart(b, q.x, q.y).value, q.y);
    if init != [] && ScreenToChart(b, init[|init| - 1].x, init[|init| - 1].y).Some? {
      ResizeFollowsLastPoint(b, m, init);
      var p := init[|init| - 1];
      var e1 := SnapToOHLC(m.snapOptions, m.candleData, b, ScreenToChart(b, p.x, p.y).value, p.y);
      ResizeLastWins(m.drawings, id, h, e1, end);
    } else {
      ResizeFromSomewhere(b, m, init);
      if mid.drawings != m.drawings {
        var e1 :| mid.drawings == ResizeDrawings(m.drawings, id, h, e1);
        ResizeLastWins(m.drawings, id, h, e1, end);
      }
    }
  }

  lemma {:induction false} ResizeKeepsState(b: CoordinateBridge, m: Manager, points: seq<ScreenPoint>)
    requires m.state.isResizing && !m.state.isDrawing && Truthy(m.state.selectedId)
    requires m.state.resizingHandle.Some?
    ensures var r := Run(b, m, Moves(points));
      r.state == m.state && r.snapOptions == m.snapOptions && r.candleData == m.candleData
    decreases |points|
  {
    if points != [] {
      assert Moves(points)[1..] == Moves(points[1..]);
      ResizeKeepsState(b, MouseMove(b, m, points[0].x, points[0].y), points[1..]);
    }
  }

  lemma {:induction false} ResizeFromSomewhere(b: CoordinateBridge, m: Manager, points: seq<ScreenPoint>)
    requires m.state.isResizing && !m.state.isDrawing && Truthy(m.state.selectedId)
    requires m.state.resizingHandle.Some?
    ensures var r := Run(b, m, Moves(points));
      r.drawings == m.drawings ||
      exists e :: r.drawings == ResizeDrawings(m.drawings, m.state.selectedId.value, m.state.resizingHandle.value, e)
    decreases |points|
  {
    if points == [] {
      assert Run(b, m, Moves(points)).drawings == m.drawings;
    } else {
      var init := points[..|points| - 1];
      var q := points[|points| - 1];
      assert Moves(points) == Moves(init) + [PointerMove(q.x, q.y)];
      RunAppend(b, m, Moves(init), [PointerMove(q.x, q.y)]);
      ResizeKeepsState(b, m, init);
      ResizeFromSomewhere(b, m, init);
      var mid := Run(b, m, Moves(init));
      var id, h := m.state.selectedId.value, m.state.resizingHandle.value;
      var p := ScreenToChart(b, q.x, q.y);
      if p.Some? {
        var e2 := SnapToOHLC(m.snapOptions, m.candleData, b, p.value, q.y);
        if mid.drawings != m.drawings {
          var e1 :| mid.drawings == ResizeDrawings(m.drawings, id, h, e1);
          ResizeLastWins(m.drawings, id, h, e1, e2);
        }
        assert Run(b, m, Moves(points)).drawings == ResizeDrawings(m.drawings, id, h, e2);
      } else {
        assert Run(b, m, Moves(points)).drawings == mid.drawings;
      }
    }
  }

  // ---------------------------------------------------------------------
  // Selection and deletion
  // ---------------------------------------------------------------------

  lemma MarkSelectedKeepsIds(ds: seq<Drawing>, id: string)
    requires UniqueIds(ds)
    ensures UniqueIds(MarkSelected(ds, id)) && UniqueIds(ClearSelection(ds))
    ensures forall k :: 0 <= k < |ds| ==> MarkSelected(ds, id)[k].id == ds[k].id
  {
  }

  /**
   * Selecting a drawing and deleting the selection removes exactly the drawings with that
   * id: one when the ids are unique and the id is present, none when it is absent.
   */
  lemma SelectThenDelete(m: Manager, id: string)
    requires UniqueIds(m.drawings) && id != ""
    ensures var (r, deleted) := DeleteSelected(SelectDrawing(m, id));
      deleted && r.state.selectedId.None? &&
      r.drawings == ClearSelection(RemoveById(m.drawings, id)) &&
      (forall d :: d in r.drawings ==> d.id != id) &&
      UniqueIds(r.drawings) &&
      ((exists k :: 0 <= k < |m.drawings| && m.drawings[k].id == id) ==> |r.drawings| == |m.drawings| - 1) &&
      ((forall k :: 0 <= k < |m.drawings| ==> m.drawings[k].id != id) ==> |r.drawings| == |m.drawings|)
  {
    var ds := MarkSelected(m.drawings, id);
    var s := SelectDrawing(m, id);
    assert s.drawings == ds && Truthy(s.state.selectedId) && s.state.selectedId.value == id;
    var r := DeleteSelected(s).0;
    assert r.drawings == RemoveById(ds, id);
    MarkSelectedKeepsIds(m.drawings, id);
    RemoveSelected(ds, id);
    RemoveMarked(m.drawings, id);
  }

  /** Removing an id from a list with distinct ids drops one drawing if it is there, none otherwise. */
  lemma RemoveSelected(ds: seq<Drawing>, id: string)
    requires UniqueIds(ds)
    ensures UniqueIds(RemoveById(ds, id))
    ensures (exists k :: 0 <= k < |ds| && ds[k].id == id) ==> |RemoveById(ds, id)| == |ds| - 1
    ensures (forall k :: 0 <= k < |ds| ==> ds[k].id != id) ==> |RemoveById(ds, id)| == |ds|
  {
    RemoveKeepsUnique(ds, id);
    if exists k :: 0 <= k < |ds| && ds[k].id == id {
      var k :| 0 <= k < |ds| && ds[k].id == id;
      RemovePresentId(ds, id, k);
    } else {
      RemoveAbsentId(ds, id);
    }
  }
}
