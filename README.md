# BigLot competition dashboard: a Dafny model of its core

This project models two parts of the BigLot trading-competition dashboard and proves
properties of them. The first is the chart drawing engine behind the candle chart. The
second is the arithmetic behind the leaderboard: the per-trader statistics that the two
MetaTrader bridge scripts compute, and the ranking the web pages apply to them.

- **Chart drawing engine** (`src/lib/chart/DrawingManager.ts`).
  - `DrawingEngine` is a pure state machine over a `Manager` record. The record holds the
    drawings list, the `DrawingState`, the snap options, the candles, touch mode, an id
    counter and a log of the notifications the callbacks would receive.
  - `Chart.DrawingManager` is the class itself. Its methods update the fields in place, and
    the searches are the source's loops. Every method that changes the manager is proved
    equal to its step in `DrawingEngine`, where the properties of the steps are proved.
    The query methods (`SnapToOHLC`, `IsPointOnDrawing`, `FindDrawingAtPoint`,
    `FindHandleAtPoint`, `SelectedHandle`) are proved equal to functions of
    `ChartGeometry` and `DrawingEngine`.
  - `ChartGeometry` holds the hit tests, the clamped point-to-segment distance, the handle
    search and the OHLC snapping.
  - The chart library's coordinate mapping is a `CoordinateBridge` parameter: four partial
    functions that may return no value.
- **Leaderboard ranking.**
  - `Ranking` is `processLeaderboardData` of `src/routes/+page.server.ts`: disqualify,
    split, rank by profit and by points, order.
  - `HomePage` is that page's `load`. It keeps the first database row per participant and
    falls back to the mock list.
  - `VerifyLogic` is the simplified copy in `verify_logic.ts` with its worked example.
  - `LeaderboardRoute` is `src/routes/leaderboard/+page.server.ts`: dedup, the
    "disqualified last, then points" comparator and the mock comparator with a profit
    tie-break.
  - `DailyStats` is the shape of a `daily_stats` row.
  - `Dedup`, `Sorting` and `Seqs` are the list operations they share. JavaScript's
    `Array.prototype.sort` and Python's `sorted` are both stable, so both are `SortBy`, a
    stable insertion sort.
- **Bridge statistics.**
  - `BiglotStats` is `sync_participant` of `bridge-biglot/main.py`. It aggregates deals
    into positions, keeps the closed positions sorted by close time, and runs one pass
    over them for the counters, drawdown, sessions, durations and trade rows. Then come
    the streak loop and the aggregates.
  - `LegacyStats` is the older `sync_participant` of `bridge/main.py`. It counts per
    closing deal, overwrites the lot, and times only positions with both times set.
  - `Trading` and `Accumulators` hold what the two scripts share: counters, running
    drawdown, session buckets, `format_duration`/`fmt_dur`, style thresholds, favourite
    pair and the aggregate ratios.
  - `EquityService` is the arithmetic of `bridge/equity_service.py`.

Money and prices are `real`; timestamps are `int` Unix seconds. Inputs the scripts fetch
are parameters:
- the deals, the ids of the open positions, the account figures and the stop levels of an
  order;
- the previous day's equity and the time of the last snapshot;
- the database rows, or none when the query failed or came back empty;
- the mock leaderboard.

The chart's `DrawingState` carries a single `mode` field
(src/lib/chart/DrawingManager.ts:49 and 56). It is set to 'resizing', 'moving' or
'drawing' when a gesture starts (lines 345, 359, 369) and back to 'idle' when it ends
(line 447). So the state names one gesture at a time, and at most one of `isDrawing`,
`isDragging` and `isResizing` should be true. The code does not ensure this. The model
follows the code, proves what does hold, and records the counterexample under "Findings".

The two bridge scripts differ, and the model keeps each one's behaviour:
- the older script formats a zero average holding time as "0m 0s" where the newer one
  writes "0m";
- an opening deal overwrites the lot in the older script and adds to it in the newer one;
- the older script counts one trade per closing deal rather than per closed position.

## Model

| member | source | states |
|---|---|---|
| Chart.DrawingManager.constructor | src/lib/chart/DrawingManager.ts:80-116 | A new manager has no drawings, the idle state, snapping off with distance 10, no candles and touch mode off |
| Chart.DrawingManager.SetCandleData | src/lib/chart/DrawingManager.ts:118-120 | Only the candle list changes |
| Chart.DrawingManager.SetSnapEnabled | src/lib/chart/DrawingManager.ts:122-125 | Both snap flags take the new value; drawings and state are untouched |
| Chart.DrawingManager.IsSnapEnabled | src/lib/chart/DrawingManager.ts:127-129 | Returns the snap flag |
| Chart.DrawingManager.SetTouchMode | src/lib/chart/DrawingManager.ts:132-134 | Only touch mode changes |
| Chart.DrawingManager.IsTouchMode | src/lib/chart/DrawingManager.ts:136-138 | Returns touch mode |
| Chart.DrawingManager.GetState | src/lib/chart/DrawingManager.ts:144-146 | Returns the current drawing state |
| Chart.DrawingManager.GetDrawings | src/lib/chart/DrawingManager.ts:148-150 | Returns the current drawings |
| Chart.DrawingManager.SetDrawings | src/lib/chart/DrawingManager.ts:152-155 | The new state is the engine's SetDrawings step: the list is replaced and a change is notified |
| Chart.DrawingManager.SetTool | src/lib/chart/DrawingManager.ts:158-174 | The new state is the engine's SetTool step |
| Chart.DrawingManager.SnapToOHLC | src/lib/chart/DrawingManager.ts:193-222 | The loop over the candle's four prices returns the snapped point that ChartGeometry.SnapToOHLC specifies |
| Chart.DrawingManager.IsPointOnDrawing | src/lib/chart/DrawingManager.ts:243-287 | Agrees with the per-variant hit test |
| Chart.DrawingManager.FindDrawingAtPoint | src/lib/chart/DrawingManager.ts:226-241 | The backwards scan returns the topmost visible hit; the tolerance defaults to 15 in touch mode and 8 otherwise |
| Chart.DrawingManager.LastHitIsTopmost | src/lib/chart/DrawingManager.ts:231-240 | A visible hit with no visible hit above it is the topmost hit |
| Chart.DrawingManager.FindHandleAtPoint | src/lib/chart/DrawingManager.ts:305-332 | The backwards scan returns the handle the handle search specifies, with tolerance 20 in touch mode and 12 otherwise |
| Chart.DrawingManager.LastCandidateIsTopmost | src/lib/chart/DrawingManager.ts:308-331 | The last candidate wins, and start is reported in preference to end |
| Chart.DrawingManager.CompleteDrawing | src/lib/chart/DrawingManager.ts:464-518 | The new state is the engine's CompleteDrawing step |
| Chart.DrawingManager.SelectDrawing | src/lib/chart/DrawingManager.ts:521-529 | The new state is the engine's SelectDrawing step |
| Chart.DrawingManager.DeselectAll | src/lib/chart/DrawingManager.ts:532-537 | The new state is the engine's DeselectAll step |
| Chart.DrawingManager.MoveSelectedDrawing | src/lib/chart/DrawingManager.ts:540-567 | The new state is the engine's MoveSelectedDrawing step |
| Chart.DrawingManager.ResizeSelectedDrawing | src/lib/chart/DrawingManager.ts:570-591 | The new state is the engine's ResizeSelectedDrawing step |
| Chart.DrawingManager.DeleteSelected | src/lib/chart/DrawingManager.ts:594-602 | The new state and the returned flag are the engine's DeleteSelected step |
| Chart.DrawingManager.ClearAll | src/lib/chart/DrawingManager.ts:605-611 | The new state is the engine's ClearAll step |
| Chart.DrawingManager.CancelDrawing | src/lib/chart/DrawingManager.ts:614-621 | The new state is the engine's CancelDrawing step |
| Chart.DrawingManager.HandleMouseDown | src/lib/chart/DrawingManager.ts:335-383 | The new state is the engine's MouseDown step: resize, select or drag, or start or place a drawing |
| Chart.DrawingManager.HandleMouseMove | src/lib/chart/DrawingManager.ts:386-434 | The new state is the engine's MouseMove step: preview, resize, move or hover |
| Chart.DrawingManager.SelectedHandle | src/lib/chart/DrawingManager.ts:408-414 | The hovered handle is the one found on the selected drawing |
| Chart.DrawingManager.Hover | src/lib/chart/DrawingManager.ts:402-433 | The hover branch is the engine's Hover: the selected drawing's handle and the topmost hit become hovered, and a change is announced with the cursor (DrawingEngine.HoverComputes) |
| Chart.DrawingManager.HandleMouseUp | src/lib/chart/DrawingManager.ts:437-461 | The new state is the engine's MouseUp step |
| Chart.DrawingManager.EndDrag | src/lib/chart/DrawingManager.ts:445-449 | The dragging block of the mouse-up handler: the new state is the engine's EndDrag step |
| Chart.DrawingManager.EndResize | src/lib/chart/DrawingManager.ts:451-456 | The resizing block of the mouse-up handler: the new state is the engine's EndResize step |
| ChartGeometry.SqDist | src/lib/chart/DrawingManager.ts:289-302 | The squared screen distance is never negative |
| ChartGeometry.LenSq | src/lib/chart/DrawingManager.ts:295 | The squared segment length is never negative |
| ChartGeometry.SqDistZero | src/lib/chart/DrawingManager.ts:289-302 | The distance is zero exactly when the two points coincide |
| ChartGeometry.SqDistanceToSegmentIsMinimum | src/lib/chart/DrawingManager.ts:289-302 | The clamped projection is attained on the segment and is the minimum over all of it; a zero-length segment gives the distance to its start |
| ChartGeometry.OnAnyFibLevel | src/lib/chart/DrawingManager.ts:266-284 | A Fibonacci drawing is hit exactly when some level line is hit |
| ChartGeometry.TrendLineHitOnSegment | src/lib/chart/DrawingManager.ts:249-254 | Every point of a trend line's segment hits it |
| ChartGeometry.TrendLineMissedFarAway | src/lib/chart/DrawingManager.ts:249-254 | A point at least the tolerance away from the whole segment does not hit it |
| ChartGeometry.RectInteriorHits | src/lib/chart/DrawingManager.ts:255-265 | Every point inside a rectangle's screen box hits it |
| ChartGeometry.LastIndexWhere | src/lib/chart/DrawingManager.ts:231-240 | Returns the last index that satisfies the test, or none exactly when no index does |
| ChartGeometry.TopmostHit | src/lib/chart/DrawingManager.ts:231-240 | Returns the id of the last visible drawing that hits; none exactly when no visible drawing hits |
| ChartGeometry.FindDrawingAt | src/lib/chart/DrawingManager.ts:226-241 | Returns none when the screen point does not map; otherwise the id of a visible drawing |
| ChartGeometry.HandleAt | src/lib/chart/DrawingManager.ts:305-332 | Returns the last visible, selected two-point drawing with a handle in reach; start exactly when start is in reach; none exactly when there is no such drawing |
| ChartGeometry.FindCandle | src/lib/chart/DrawingManager.ts:197-198 | Returns the first candle with exactly that time, or none exactly when no candle has it |
| ChartGeometry.SnapScanPicksNearest | src/lib/chart/DrawingManager.ts:208-219 | The scan keeps the input price when no price is strictly within the snap distance; otherwise it picks one with the least screen distance, the earliest on ties |
| ChartGeometry.SnapToOHLC | src/lib/chart/DrawingManager.ts:193-222 | Keeps the time; returns the point unchanged when snapping is off or no candle has that time; otherwise the price is the input price or one of that candle's OHLC values |
| DrawingEngine.SetTool | src/lib/chart/DrawingManager.ts:158-174 | Sets the tool, the idle mode, no drawing, no start or current point; drawings, selection, drag and resize flags are unchanged |
| DrawingEngine.MarkSelected | src/lib/chart/DrawingManager.ts:522-525 | Each drawing's selected flag becomes "its id is the chosen id"; nothing else changes |
| DrawingEngine.ClearSelection | src/lib/chart/DrawingManager.ts:533 | Every selected flag becomes false; nothing else changes |
| DrawingEngine.SelectionIsExclusive | src/lib/chart/DrawingManager.ts:521-537 | With distinct ids, selecting marks exactly the drawing with that id (none if absent), and deselecting marks none |
| DrawingEngine.SelectDrawing | src/lib/chart/DrawingManager.ts:521-529 | Records the selected id, marks the drawings and notifies both listeners |
| DrawingEngine.DeselectAll | src/lib/chart/DrawingManager.ts:532-537 | Clears the selected id and every selected flag |
| DrawingEngine.DrawingId | src/lib/chart/DrawingManager.ts:468 | Ids start with "drawing_" |
| DrawingEngine.DrawingIdInjective | src/lib/chart/DrawingManager.ts:468 | Different counter values give different ids |
| DrawingEngine.NewDrawing | src/lib/chart/DrawingManager.ts:470-505 | Each shape tool gives a visible, unselected drawing of its own type and colour: a trend line or rectangle (with its fill) between start and end, an hline at the end point's price, a Fibonacci drawing with levels 0, 0.236, 0.382, 0.5, 0.618, 0.786 and 1; any other tool gives none |
| DrawingEngine.FibLevelsSpanRange | src/lib/chart/DrawingManager.ts:273-277 | The level prices run from the high (level 0) to the low (level 1) and stay within them |
| DrawingEngine.CompleteDrawing | src/lib/chart/DrawingManager.ts:464-518 | Without a start point nothing changes; otherwise at most one drawing is appended at the end, the tool becomes none, drawing stops and both points are cleared |
| DrawingEngine.CompleteDrawingKeepsIdsFresh | src/lib/chart/DrawingManager.ts:468-508 | Completing a drawing keeps all ids distinct and below the counter |
| DrawingEngine.Translate | src/lib/chart/DrawingManager.ts:549-562 | Both endpoints shift by the same delta, an hline only by the price delta; the variant, id, flags, levels and fill are kept |
| DrawingEngine.MoveDrawings | src/lib/chart/DrawingManager.ts:546-563 | Only drawings with the selected id are translated; the others are unchanged |
| DrawingEngine.MovesCompose | src/lib/chart/DrawingManager.ts:540-567 | Two moves make one move by the summed delta |
| DrawingEngine.MoveByZero | src/lib/chart/DrawingManager.ts:540-567 | A move by zero changes nothing |
| DrawingEngine.MoveUndone | src/lib/chart/DrawingManager.ts:540-567 | A move by the opposite delta restores the drawings |
| DrawingEngine.MoveSelectedDrawing | src/lib/chart/DrawingManager.ts:540-567 | Without a selection or start point nothing changes; otherwise the selected drawing moves by the new point minus the start point, and the start point becomes the new point |
| DrawingEngine.SetEndpoint | src/lib/chart/DrawingManager.ts:576-587 | Replaces exactly the named endpoint; the other endpoint, the levels and the fill are kept |
| DrawingEngine.ResizeDrawings | src/lib/chart/DrawingManager.ts:573-588 | Only two-point drawings with the selected id change; hlines and other drawings are kept |
| DrawingEngine.ResizeLastWins | src/lib/chart/DrawingManager.ts:570-591 | Resizing the same handle twice equals resizing it once to the later point |
| DrawingEngine.ResizeSelectedDrawing | src/lib/chart/DrawingManager.ts:570-591 | Without a selection or handle nothing changes; otherwise only the drawings change, by ResizeDrawings |
| DrawingEngine.RemoveById | src/lib/chart/DrawingManager.ts:597 | A drawing is kept exactly when its id differs, and the list never grows |
| DrawingEngine.RemoveIsFilter | src/lib/chart/DrawingManager.ts:597 | Removing by id is the filter by the other ids |
| DrawingEngine.RemoveKeepsOrder | src/lib/chart/DrawingManager.ts:597 | The kept drawings are read off, in increasing order, from exactly the positions whose id differs, so their z-order is unchanged, and every copy of a kept drawing stays |
| DrawingEngine.RemoveAbsentId | src/lib/chart/DrawingManager.ts:597 | Removing an absent id changes nothing |
| DrawingEngine.RemoveKeepsUnique | src/lib/chart/DrawingManager.ts:597 | Removing keeps ids distinct |
| DrawingEngine.RemovePresentId | src/lib/chart/DrawingManager.ts:597 | With distinct ids, removing a present id drops exactly one drawing |
| DrawingEngine.DeleteSelected | src/lib/chart/DrawingManager.ts:594-602 | Without a selection it returns false and changes nothing; otherwise it removes that id, clears the selection and returns true |
| DrawingEngine.SelectThenDelete | src/lib/chart/DrawingManager.ts:594-602 | Selecting and then deleting leaves exactly the other drawings, in their order and unselected, clears the selection and reports a deletion; with distinct ids one drawing goes when the id is present and none otherwise |
| DrawingEngine.ClearAll | src/lib/chart/DrawingManager.ts:605-611 | Empties the list and clears the selection and hover |
| DrawingEngine.CancelDrawing | src/lib/chart/DrawingManager.ts:614-621 | The whole new state: drawing and dragging end, both gesture points are cleared, the tool is none and the mode idle, everything else (resizing, selection, drawings, counter) is kept; the cursor goes back to default before the state notification (through setTool, lines 158-174); the engine is at rest afterwards exactly when no resize was in progress |
| DrawingEngine.SelectedHandleAt | src/lib/chart/DrawingManager.ts:340-342 | A handle is found only when a drawing is selected |
| DrawingEngine.MouseDown | src/lib/chart/DrawingManager.ts:335-383 | A press that does not map changes nothing, and no press changes the configuration |
| DrawingEngine.HLineOnPress | src/lib/chart/DrawingManager.ts:376-379 | With the hline tool, a press away from the handles appends an hline at the snapped price and resets the tool |
| DrawingEngine.DrawGesture | src/lib/chart/DrawingManager.ts:365-380 | Press, any moves and release with a two-point tool append exactly one drawing from the snapped press point to the snapped release point, and leave the engine at rest |
| DrawingEngine.PreviewKeepsAnchor | src/lib/chart/DrawingManager.ts:390-394 | Moves while drawing change neither the drawings nor the start point |
| DrawingEngine.Hover | src/lib/chart/DrawingManager.ts:402-433 | Hovering changes no drawing and no field of the state but the hovered handle and id |
| DrawingEngine.HoverComputes | src/lib/chart/DrawingManager.ts:402-433 | The hovered handle becomes the selected drawing's handle under the pointer and the hovered id the topmost visible hit. A change is announced by a state notification, preceded under the pointer tools by the cursor: crosshair over a handle, grab over a drawing, default elsewhere. No change announces nothing |
| DrawingEngine.MouseMove | src/lib/chart/DrawingManager.ts:386-434 | A move never changes the gesture flags, the tool, the selection or the counter; while drawing it changes no drawing |
| DrawingEngine.DragStep | src/lib/chart/DrawingManager.ts:399-401 | While dragging, a move translates the selected drawing by the pointer delta and re-anchors the start point |
| DrawingEngine.DragAddsUp | src/lib/chart/DrawingManager.ts:540-567 | A run of moves while dragging equals one move from the anchor to the last mapped point |
| DrawingEngine.ResizeFollowsLastPoint | src/lib/chart/DrawingManager.ts:395-398 | After moves while resizing, the endpoint is the last point, snapped |
| DrawingEngine.ResizeKeepsState | src/lib/chart/DrawingManager.ts:395-398 | Moves while resizing do not change the drawing state |
| DrawingEngine.MouseUp | src/lib/chart/DrawingManager.ts:437-461 | After a release no gesture is in progress and the start point is cleared |
| DrawingEngine.SetDrawings | src/lib/chart/DrawingManager.ts:152-155 | Replaces the list, keeps the state and notifies one change |
| DrawingEngine.SetSnapEnabled | src/lib/chart/DrawingManager.ts:122-125 | Sets both snap flags; drawings and state are kept |
| DrawingEngine.MarkSelectedKeepsIds | src/lib/chart/DrawingManager.ts:522-533 | Selecting and deselecting keep ids distinct |
| DrawingEngine.ApplyKeepsConsistent | src/lib/chart/DrawingManager.ts:335-461 | Every event keeps this: drawing implies a start point and a two-point tool, and resizing implies a handle |
| DrawingEngine.RunKeepsConsistent | src/lib/chart/DrawingManager.ts:335-461 | Any sequence of events keeps that consistency |
| DrawingEngine.ApplyKeepsExclusive | src/lib/chart/DrawingManager.ts:335-383 | "At most one gesture" is kept by every event, provided presses happen only at rest |
| DrawingEngine.ExclusivityViolated | src/lib/chart/DrawingManager.ts:340-380 | A concrete event sequence from the initial state ends with drawing and dragging both set |
| DrawingEngine.AbandonGesture | src/lib/chart/DrawingManager.ts:335-383 | The reset the corrected press applies before handling a press that arrives mid-gesture: it leaves the engine at rest (no drawing, dragging or resizing) with its drawings and counter kept |
| DrawingEngine.CorrectedMouseDown | src/lib/chart/DrawingManager.ts:335-383 | Agrees with the press handler whenever no gesture is in progress |
| DrawingEngine.CorrectedApply | src/lib/chart/DrawingManager.ts:335-461 | Differs from the original only on presses |
| DrawingEngine.CorrectedRunKeepsExclusive | src/lib/chart/DrawingManager.ts:335-461 | With the corrected press, any event sequence keeps consistency and at most one gesture |
| DrawingEngine.CorrectedFromInitial | src/lib/chart/DrawingManager.ts:335-461 | From the initial state, the corrected engine never has two gestures at once |
| DrawingEngine.CorrectedAgreesAtRest | src/lib/chart/DrawingManager.ts:335-461 | When every press happens at rest, the corrected and the original runs agree |
| Ranking.RankMap | src/routes/+page.server.ts:100 | Every sorted entry's id has a rank between 1 and the list length |
| Ranking.RankMapPosition | src/routes/+page.server.ts:100 | With distinct ids, each entry's rank is its position plus one |
| Ranking.RankMapCovers | src/routes/+page.server.ts:107-111 | Every entry of a permutation of the sorted list has a rank |
| Ranking.Ranks | src/routes/+page.server.ts:99-104 | Every active entry has a rank |
| Ranking.ProfitRanks | src/routes/+page.server.ts:99-100 | Every active entry has a profit rank |
| Ranking.PointsRanks | src/routes/+page.server.ts:103-104 | Every active entry has a points rank |
| Ranking.WithRanks | src/routes/+page.server.ts:107-111 | Each active entry gets its profit rank and its points rank, in order |
| Ranking.RankedOrderIsPreorder | src/routes/+page.server.ts:99-122 | The three descending comparators are total preorders |
| Ranking.SortedEntries | src/routes/+page.server.ts:122 | Sorting the ranked records sorts their entries by points |
| Ranking.ProcessIsPermutation | src/routes/+page.server.ts:93-122 | The output is a permutation of the input: the active entries sorted by points, then the disqualified ones in input order |
| Ranking.ProcessPrefix | src/routes/+page.server.ts:122 | The i-th output of the active part is the i-th active entry by points |
| Ranking.ProcessTail | src/routes/+page.server.ts:114-122 | The tail holds the disqualified entries in order, with rank 999 |
| Ranking.SortedByPoints | src/routes/+page.server.ts:103 | Sorting by points gives non-increasing points |
| Ranking.ProcessOrder | src/routes/+page.server.ts:93-122 | The active prefix has no disqualified entry and non-increasing points; every later entry is disqualified with rank 999 |
| Ranking.PrefixIsActive | src/routes/+page.server.ts:94-122 | No entry of the active prefix is disqualified |
| Ranking.RankIsPosition | src/routes/+page.server.ts:99-104 | With distinct ids, an entry's rank is one more than its position in the sorted list |
| Ranking.RanksInRange | src/routes/+page.server.ts:99-104 | Ranks lie between 1 and the number of active entries |
| Ranking.RanksDistinct | src/routes/+page.server.ts:99-104 | With distinct ids, two active entries never share a rank |
| Ranking.RanksCovered | src/routes/+page.server.ts:99-104 | Every rank from 1 to the number of active entries is taken |
| Ranking.RanksFollowOrder | src/routes/+page.server.ts:99-104 | A strictly higher key gets a strictly smaller rank |
| Ranking.ActiveDistinct | src/routes/+page.server.ts:94 | The active filter keeps ids distinct |
| Ranking.PrefixElement | src/routes/+page.server.ts:107-122 | Each prefix record is an active entry with its profit and points ranks |
| Ranking.PrefixCovers | src/routes/+page.server.ts:107-122 | Every active entry appears in the prefix |
| Ranking.PrefixIdsDistinct | src/routes/+page.server.ts:107-122 | With distinct input ids, the prefix ids are distinct |
| Ranking.PrefixRank | src/routes/+page.server.ts:107-111 | A prefix record's rank is its entry's rank in the chosen sort |
| Ranking.RankInRange | src/routes/+page.server.ts:99-111 | Output ranks of the prefix lie in 1 to the number of active entries |
| Ranking.RankDistinct | src/routes/+page.server.ts:99-111 | Two prefix records never share a rank |
| Ranking.RankTaken | src/routes/+page.server.ts:99-111 | Every rank from 1 to the number of active entries is taken in the prefix |
| Ranking.RankFollowsKey | src/routes/+page.server.ts:99-111 | A strictly higher profit (or points) gets a strictly smaller profit (or points) rank |
| Ranking.RanksExact | src/routes/+page.server.ts:97-122 | With distinct ids, the active ranks are exactly 1 to the number of active entries, ordered by key |
| Ranking.PartitionExact | src/routes/+page.server.ts:94-95 | Every entry is in exactly one of the two filters, active exactly when not disqualified |
| Ranking.Placement | src/routes/+page.server.ts:93-122 | Every input entry appears; in the active part exactly when not disqualified, and with rank 999 when disqualified |
| DailyStats.OrZero | src/routes/+page.server.ts:59 | A missing value reads as 0; a present one as itself |
| DailyStats.Nickname | src/routes/+page.server.ts:81 | The nickname is never empty: it is the participant's own nickname or "Unknown" |
| HomePage.FromRow | src/routes/+page.server.ts:55-91 | A database row keeps id, points and profit; it is disqualified iff equity is at most 0, or max drawdown is present and at least 99, or the participant is flagged |
| HomePage.FromMock | src/routes/+page.server.ts:55-91 | A mock entry keeps its fields and follows the mock disqualification rule |
| HomePage.Load | src/routes/+page.server.ts:5-50 | The loop keeping the first row per participant, then processing, gives the specified board; without rows it is the processed mock list |
| HomePage.RowEntriesDistinct | src/routes/+page.server.ts:30-37 | After the dedup there is one entry per distinct participant |
| HomePage.DatabaseBoardSize | src/routes/+page.server.ts:27-40 | The board has one entry per distinct participant |
| HomePage.DatabaseRanks | src/routes/+page.server.ts:27-40 | On database rows, the active ranks are exactly 1 to the number of active entries and follow the key |
| HomePage.RowPlacement | src/routes/+page.server.ts:71-76 | Each kept row is on the board, after the active part exactly when disqualified, and then with rank 999 |
| HomePage.MockPlacement | src/routes/+page.server.ts:47-49 | Each mock entry is on the board, after the active part exactly when disqualified |
| VerifyLogic.FromTestRow | verify_logic.ts:13-24 | The mapped entry keeps id, points, profit and equity |
| VerifyLogic.EquityRule | verify_logic.ts:15 | A row is ranked iff its equity is positive; otherwise it is disqualified with rank 999 in both rankings |
| VerifyLogic.ExampleMapped | verify_logic.ts:56-61 | The four test rows map to A, B, C, D |
| VerifyLogic.ExampleSplit | verify_logic.ts:27-28 | A, B, D are active and C is disqualified |
| VerifyLogic.ExampleProfitSort | verify_logic.ts:32 | By profit: D, B, A |
| VerifyLogic.ExampleProfitInsert | verify_logic.ts:32 | The last insertion of the profit sort places A last |
| VerifyLogic.ExamplePointsSort | verify_logic.ts:36 | By points: D, A, B |
| VerifyLogic.ExampleRankMaps | verify_logic.ts:33-37 | The rank maps are D=1, B=2, A=3 by profit and D=1, A=2, B=3 by points |
| VerifyLogic.ExampleProfitRanks | verify_logic.ts:32-33 | Profit ranks D=1, B=2, A=3 |
| VerifyLogic.ExamplePointsRanks | verify_logic.ts:36-37 | Points ranks D=1, A=2, B=3 |
| VerifyLogic.ExampleWithRanks | verify_logic.ts:40-44 | The ranked active records |
| VerifyLogic.ExampleOrder | verify_logic.ts:53 | The final points sort gives D, A, B |
| VerifyLogic.ExampleProcess | verify_logic.ts:53 | The result is D, A, B, then C with rank 999 |
| VerifyLogic.TestDataResult | verify_logic.ts:75-78 | On the test data, D has points rank 1 and profit rank 1 and C is disqualified, so the check holds |
| LeaderboardRoute.ToListRow | src/routes/leaderboard/+page.server.ts:50-68 | Keeps id, points and profit; isDisqualified is exactly "max drawdown, or 0, above 30" |
| LeaderboardRoute.Flag | src/routes/leaderboard/+page.server.ts:76-78 | A mock entry gains the flag "max drawdown above 30" and keeps everything else |
| LeaderboardRoute.Load | src/routes/leaderboard/+page.server.ts:5-95 | The loop-based dedup and the sorts give the specified board |
| LeaderboardRoute.ComparatorsArePreorders | src/routes/leaderboard/+page.server.ts:39-47 | Both comparators are total preorders |
| LeaderboardRoute.DatabaseRowsDistinct | src/routes/leaderboard/+page.server.ts:32-50 | One row per distinct participant, with no repeated id |
| LeaderboardRoute.DatabaseRowShown | src/routes/leaderboard/+page.server.ts:32-68 | The first row of each participant is shown |
| LeaderboardRoute.DatabaseRowSource | src/routes/leaderboard/+page.server.ts:32-68 | Every shown row comes from the first row of a participant |
| LeaderboardRoute.DatabaseRowsOrder | src/routes/leaderboard/+page.server.ts:39-47 | Disqualified rows come after all others; within a group, points are non-increasing |
| LeaderboardRoute.MockRowsArePermutation | src/routes/leaderboard/+page.server.ts:76-90 | The mock board is a permutation of the flagged mock entries, each with a flag |
| LeaderboardRoute.MockRowsOrder | src/routes/leaderboard/+page.server.ts:79-90 | Flagged entries come last; within a group, points are non-increasing, and profit is non-increasing on equal points |
| Dedup.FirstPerKey | src/routes/+page.server.ts:30-37 | The kept rows are rows of the input, no more of them |
| Dedup.KeepFirst | src/routes/+page.server.ts:30-35 | The map-filling loop keeps the first row of each key, in first-seen order |
| Dedup.FirstPerKeyKeys | src/routes/+page.server.ts:30-37 | Every key of the input survives |
| Dedup.FirstPerKeyDistinct | src/routes/+page.server.ts:30-37 | No key is kept twice |
| Dedup.KeptIsFirst | src/routes/+page.server.ts:30-37 | A kept row is the first row with its key |
| Dedup.FirstIsKept | src/routes/+page.server.ts:30-37 | The first row with a key is kept |
| Dedup.FirstPerKeyCount | src/routes/+page.server.ts:30-37 | As many rows are kept as there are distinct keys |
| Seqs.Filter | src/routes/+page.server.ts:94 | An element is in the result exactly when it is in the input and passes, and the result is never longer |
| Seqs.FilterPositions | src/routes/+page.server.ts:94 | The result reads off, in increasing order, exactly the positions whose element passes |
| Seqs.FilterCount | src/routes/+page.server.ts:94 | Every copy of a passing element is kept and no copy of a failing one |
| Seqs.FilterPartition | src/routes/+page.server.ts:94-95 | A filter and its complement split the list: their multisets add up to the input's |
| Seqs.FilterDistinct | src/routes/+page.server.ts:94 | Filtering keeps keys distinct |
| Sorting.SortBy | src/routes/+page.server.ts:99 | Sorting is a permutation |
| Sorting.SortBySorted | src/routes/+page.server.ts:99-104 | The result is ordered by the comparator |
| Sorting.SortByStable | src/routes/+page.server.ts:99-104 | Equal elements keep their input order |
| Sorting.SortByMap | src/routes/+page.server.ts:122 | Sorting commutes with a map that preserves the order |
| Sorting.SortByDistinct | src/routes/+page.server.ts:99-100 | Sorting keeps keys distinct |
| Sorting.MapSeq | src/routes/+page.server.ts:55 | The map has the input's length and applies the function at every index |
| Trading.DrawdownSnoc | bridge-biglot/main.py:219-223 | The drawdown of a longer list is one more running step |
| Trading.DrawdownCurve | bridge-biglot/main.py:220 | The running curve is the sum of the profits |
| Trading.DrawdownPeak | bridge-biglot/main.py:221 | The peak is the greatest prefix sum and is at least the curve |
| Trading.DrawdownMax | bridge-biglot/main.py:219-223 | The maximum drawdown is never negative, bounds every fall from an earlier prefix sum, and is attained by one |
| Trading.OpenHour | bridge-biglot/main.py:227 | The UTC hour of the open time shifted back three hours lies in 0 to 23 |
| Trading.SessionOverlaps | bridge-biglot/main.py:229-240 | Asian and London share only hour 7, London and New York hours 12 to 15, Asian and New York none; hours 21 to 23 are in no session |
| Trading.Split | bridge-biglot/main.py:304-307 | The divmod chain gives days, hours below 24, minutes below 60 and seconds below 60 that add back up to the input |
| Trading.DurationForms | bridge-biglot/main.py:304-310 | The format is "Xd Yh" from one day up, "Xh Ym" from one hour, otherwise "Xm Ys" |
| Trading.StyleOf | bridge-biglot/main.py:318-321 | Scalping under 30 minutes, Intraday under 1440, Swing from 1440 |
| Trading.TradingStyle | bridge-biglot/main.py:317-321 | "Unknown" exactly when no duration was counted; otherwise the style of the average in minutes |
| Trading.FirstMost | bridge-biglot/main.py:324 | The position of a key with the most occurrences, every earlier key having strictly fewer |
| Trading.MostCommon | bridge-biglot/main.py:324 | Returns an element with the most occurrences; among equally frequent elements, the one that occurs first |
| Trading.FavoritePair | bridge-biglot/main.py:324 | "-" exactly when there are no symbols; otherwise a most traded symbol, the first to occur among equally traded ones |
| Trading.Percent | bridge-biglot/main.py:285-287 | 0 on an empty whole; between 0 and 100 when the part is at most the whole |
| Trading.ProfitFactor | bridge-biglot/main.py:289 | Never negative; above 1 exactly when profit exceeds loss; 0 exactly when there is no profit |
| Trading.AverageLoss | bridge-biglot/main.py:299 | Never positive, and 0 without losses |
| Trading.AverageWin | bridge-biglot/main.py:298 | Never negative, and 0 without wins |
| Trading.RewardRisk | bridge-biglot/main.py:300 | Never negative, and 0 when the average loss is 0 |
| Trading.DrawdownPercent | bridge-biglot/main.py:292-295 | Never negative, and 0 without a peak |
| Accumulators.Best | bridge-biglot/main.py:190 | None exactly on no trades; otherwise the greatest profit, attained by a trade |
| Accumulators.Worst | bridge-biglot/main.py:191 | None exactly on no trades; otherwise the least profit, attained by a trade |
| Accumulators.CountersEmpty | bridge-biglot/main.py:180-198 | No trades give the zero counters |
| Accumulators.CountersSnoc | bridge-biglot/main.py:180-198 | One more trade is one more counting step |
| Accumulators.ProfitSplit | bridge-biglot/main.py:181-188 | Total profit is gross profit minus gross loss |
| Accumulators.CountersBounds | bridge-biglot/main.py:180-198 | Wins plus losses and buys plus sells are at most the trades; side wins are within side trades and wins; gross figures are not negative; best is missing exactly without trades |
| Accumulators.DurationsEmpty | bridge-biglot/main.py:167-172 | No trades give zero durations |
| Accumulators.DurationsSnoc | bridge-biglot/main.py:243-252 | One more trade is one more timing step |
| Accumulators.DurationsBounds | bridge-biglot/main.py:243-252 | Durations are not negative, and win count plus loss count is at most the count |
| Accumulators.SessionEmpty | bridge-biglot/main.py:161-165 | No trades give empty tallies |
| Accumulators.SessionSnoc | bridge-biglot/main.py:227-240 | One more trade is one more tally step |
| Accumulators.SessionBounds | bridge-biglot/main.py:227-240 | Session wins are at most the session total, which is at most the trades; trades opened from hour 21 count in no session |
| Accumulators.Streaks | bridge-biglot/main.py:271-283 | The loop computes the streak update rule and so returns the longest run of wins not broken by a loss, and of losses not broken by a win; zero-profit trades break neither |
| Accumulators.StreakAfterIsLongest | bridge-biglot/main.py:271-283 | The streak update rule (a breaking trade resets the running streak, a counted one extends it, the maximum follows it) ends with the longest unbroken streak of the list |
| Accumulators.LongestRunBounds | bridge-biglot/main.py:271-283 | The longest streak is at most the wins (losses), and 0 exactly when there are none |
| EquityService.RoundedMinute | bridge/equity_service.py:70-71 | A multiple of 5, at most the minute and within 5 of it |
| EquityService.RoundedMinuteGreatest | bridge/equity_service.py:70-71 | The largest such multiple; rounding twice changes nothing |
| EquityService.SnapshotTime | bridge/equity_service.py:69-71 | The time on the 5-minute grid at or before now, with seconds cleared |
| EquityService.SnapshotOf | bridge/equity_service.py:53-80 | Floating P/L is equity minus balance; the margin level is null exactly when it is 0 |
| EquityService.SnapshotSpacing | bridge/equity_service.py:41-75 | Measured against the stored rounded timestamp, the next snapshot is due exactly when the following five-minute slot begins; before that the time rounds to the same slot |
| EquityService.EquityGrowth | bridge/equity_service.py:135-145 | 0 without positive previous equity; otherwise positive iff equity rose and negative iff it fell, and it recovers the current equity |
| EquityService.TotalLots | bridge/equity_service.py:198-212 | The loop sums exactly the present, positive lots |
| EquityService.TotalLotsZero | bridge/equity_service.py:208-212 | The total is not negative, and 0 exactly when no lot is positive, including no positions |
| BiglotStats.InStops | bridge-biglot/main.py:132-144 | A non-zero stop on the deal is kept; only zero stops come from the order |
| BiglotStats.AggregateDeals | bridge-biglot/main.py:106-152 | The deal loop builds the positions dictionary, its key order and the symbol list of the fold |
| BiglotStats.AggregateKeys | bridge-biglot/main.py:110-125 | The positions are keyed by exactly the deals' position ids, in first-seen order |
| BiglotStats.OrderIsKeys | bridge-biglot/main.py:110-125 | The key order lists each position once |
| BiglotStats.AggregateSums | bridge-biglot/main.py:127-152 | The lot sums the opening volumes; volume out and profit sum the closing deals, which it keeps in order |
| BiglotStats.AggregateSymbols | bridge-biglot/main.py:107-108 | The symbol list holds each non-empty symbol once per deal |
| BiglotStats.AggregateSymbolsOrder | bridge-biglot/main.py:107-108 | The symbol list is the deals' non-empty symbols in the order of the deals |
| BiglotStats.ItemsMembership | bridge-biglot/main.py:157 | The items are exactly the dictionary's entries |
| BiglotStats.ItemsDistinct | bridge-biglot/main.py:157 | No position id repeats |
| BiglotStats.ClosedExactly | bridge-biglot/main.py:156-159 | A position is closed exactly when it is not open and has volume out |
| BiglotStats.ClosedOrder | bridge-biglot/main.py:156-159 | Closed positions are sorted by close time without repeats |
| BiglotStats.TradeRowOf | bridge-biglot/main.py:255-268 | The row carries the position id, profit and lot, with times shifted back three hours |
| BiglotStats.SecondPass | bridge-biglot/main.py:176-268 | The loop over closed positions gives the counters, drawdown, sessions, durations and trade rows of the fold |
| BiglotStats.Sync | bridge-biglot/main.py:286-363 | The payload counts the closed positions, with their profit, a win rate in 0 to 100, the style, the favourite pair, both streaks, the lots and the floating P/L |
| BiglotStats.FavoriteIsMostTraded | bridge-biglot/main.py:324 | "-" when no deal has a symbol; otherwise a deal's symbol traded in at least as many deals as any other, the first in the symbol list among equally traded ones |
| BiglotStats.SummaryBounds | bridge-biglot/main.py:180-283 | Wins plus losses are at most the trades; streaks are within wins and losses; best is at least worst; drawdown is not negative; side win rates are in 0 to 100 |
| LegacyStats.DealPass | bridge/main.py:90-161 | The deal loop builds the positions, their order, the counters and the drawdown of the fold |
| LegacyStats.OutcomesAreOutDeals | bridge/main.py:119-126 | One counted trade per closing deal, in order, with its profit |
| LegacyStats.LedgerLots | bridge/main.py:106-122 | The lot is the last opening volume; the profit sums the closing deals |
| LegacyStats.LedgerKeys | bridge/main.py:91-104 | The positions are keyed by exactly the deals' position ids, in first-seen order |
| LegacyStats.DurationPass | bridge/main.py:179-197 | The loop gives the durations of the positions with both times set |
| LegacyStats.SessionPass | bridge/main.py:207-216 | The loop gives the three session tallies of the positions with both times set |
| LegacyStats.TradeRowOf | bridge/main.py:259-272 | The row carries the position id, profit and lot, with times shifted back three hours |
| LegacyStats.ItemsMembership | bridge/main.py:272 | The items are exactly the dictionary's entries |
| LegacyStats.TradesExactly | bridge/main.py:259-272 | The trade rows are exactly those of the positions with both times set |
| LegacyStats.LegacyStyleAgrees | bridge/main.py:218-220 | The override by "Unknown" gives the same style as the newer script |
| LegacyStats.LegacyHoldingWithoutTrades | bridge/main.py:199-205 | Without timed trades the older script formats "0m 0s" where the newer one writes "0m" |
| LegacyStats.FavoriteAsWritten | bridge/main.py:221 | "-" when there are no positions |
| LegacyStats.FavoriteFailsOnDeposit | bridge/main.py:221 | A single deposit deal gives one position with no symbol, and the favourite pair fails |
| LegacyStats.Favorite | bridge/main.py:221 | "-" when no position has a symbol; otherwise a symbol held by the most positions, the first to occur among equally held ones |
| LegacyStats.FavoriteCorrected | bridge/main.py:221 | Agrees with the code wherever the code succeeds, and picks a most common symbol |
| LegacyStats.Sync | bridge/main.py:163-256 | The payload counts closing deals, with a win rate in 0 to 100, the style, the corrected favourite pair, the lots, the floating P/L and the trade rows |

## Left out

- Supabase queries and upserts, MetaTrader 5 calls, Telegram messages and login are not modelled. Their results are parameters.
- The order lookup's exceptions are folded into "no stops from the order".
- Trading.OpenHour: total over every integer time. `datetime.utcfromtimestamp` (bridge-biglot/main.py:227) and `datetime.fromtimestamp` (line 264) can raise for a time before 1970 on platforms whose C `gmtime` rejects negative values. The model always returns the floor-mod hour instead, so a shifted time of -10800 gives hour 21.
- BiglotStats.SecondPass: does not model the sync aborting on such a time. A position whose opening deal predates the history window keeps the initial `open_time` 0 (line 113) and still passes the closed filter (line 157), because line 227 has no `open_time > 0` guard, unlike bridge/main.py:210 and 272. Where the platform raises there, the script abandons this participant's sync, and the handler at line 458 then skips the rest of the cycle. The model instead counts that position with hour 21, in no session, and writes the full payload. This behaviour depends on the platform's time library.
- `get_previous_day_equity`, `cleanup_old_snapshots` and `get_equity_curve` in bridge/equity_service.py are database queries. The previous day's equity is a parameter of `EquityService.EquityGrowth`.
- Points (`total_points`) need `mt5.symbol_info`, so they are not computed. They are not part of either `Summary`.
- `round(x, 2)`, `toFixed`, float rounding and `Math.sqrt` are not modelled. Amounts are exact reals. A distance check `sqrt(d) < tol` is the exact `tol > 0 && d < tol * tol`.
- Timestamps are Unix seconds rather than `isoformat()` strings. Microseconds are not kept.
- The mock generators and the static mock list are not modelled. The mock leaderboard is a parameter.
- The chart library's coordinate conversions are an uninterpreted `CoordinateBridge`.
- The callbacks are a notification log. `setCallbacks` is not modelled.
- `dragOffset` is a field of the model's state that no step changes, since the source never assigns it after its initial `null` (src/lib/chart/DrawingManager.ts:96). Nothing is proved about it. The raw screen points are modelled like the other fields.
- Drawing ids come from a counter, not from `Date.now()` and `Math.random()`.
- `setDrawings` stores the caller's array itself (src/lib/chart/DrawingManager.ts:152-155), so the push in `completeDrawing` (line 508) also changes the caller's array. The model's drawings are a value, so this aliasing is not captured.
- When `history_deals_get` returns `None` (bridge-biglot/main.py:69, bridge/main.py:61), the scripts compute and write no statistics at all. The model's sync always receives a list of deals, so this path is not modelled.
- In `StatsRow`, only equity, maximum drawdown and reward/risk are nullable. Points, profit, balance, win rate, profit factor, trade count and the averages are plain numbers, so a SQL null in those columns is not modelled.
- The `main()` sync loops and sleeps of both bridge scripts are not modelled.
- BiglotStats.Sync: the ensures names only the trade count, profit, win rate, style, favourite pair, streaks, lots, floating P/L and trade rows. The other payload fields come from the same counters and functions in the body but are not restated.
- LegacyStats.Sync: the ensures names only the trade count, win rate, style, favourite pair, lots, floating P/L and trade rows. The other fields are left to the body in the same way.
- LegacyStats.Sync: the favourite pair is computed with the corrected `Favorite`, not with bridge/main.py:221 as written, so where the script raises on a position with no symbol (a deposit-only history) the model returns a payload with the favourite pair taken over the positions that have one; `FavoriteAsWritten` models the line as written.
- DrawingEngine.MouseDown: its own ensures covers only the unmapped press and the unchanged configuration. What a press does is stated by HLineOnPress, DrawGesture and the consistency and exclusivity lemmas.

## Findings

| source | as written | input that shows it | evidently intended | confidence | as-written member | corrected member |
|---|---|---|---|---|---|---|
| src/lib/chart/DrawingManager.ts:335-383 | A press starts a new gesture without ending one in progress, and `setTool` (lines 158-174) leaves `isDragging` set | With an identity mapping: choose hline, press at (0,100), press at (50,100) with the release lost, choose trendline, press at (0,0). This ends with `isDrawing` and `isDragging` both true | One gesture at a time, as the single `mode` field (lines 56, 345, 359, 369) records: at most one of `isDrawing`, `isDragging`, `isResizing` is true | medium (needs a lost release), not executed | DrawingEngine.ExclusivityViolated | DrawingEngine.CorrectedRunKeepsExclusive |
| bridge/main.py:221 | The favourite pair indexes `most_common(1)[0]` whenever any position exists, even if no position has a symbol | The account's deal history is a single balance deposit: an opening deal with an empty symbol. The resulting position has no symbol, and indexing raises `IndexError` | "-" when no position has a symbol, as bridge-biglot/main.py:324 guards | high, not executed | LegacyStats.FavoriteFailsOnDeposit | LegacyStats.FavoriteCorrected |
