# Caption editor geometry and drag protocol

This project models, in Dafny, the algorithmic core of a browser caption
editor (`js/main.js`). Users drag text captions over a picture, and the
core has two parts.

The first part is geometry:
- the `V2` vector algebra: add, subtract, dot, the half-plane side test
  `getSide` and projection;
- the `Rect` rectangle: its four derived corners, the four-corner
  containment test `containsV2`, the edge getters and the mutators.

The rectangle is modelled unrotated (`angle == 0`), so no trigonometry is
needed. The corners are a pure function of the centre and size, so they
can never fall out of step with them.

The second part is the per-frame pointer protocol:
- the `mouse` record with its 2-bit button code (`mousedown` writes 3,
  `mouseup` writes 1, `updateEnd` clears bit 0);
- the `pressed`, `held` and `released` flags derived from that code;
- `updateBegin`, which converts the position to canvas space, latches the
  press start and measures the drag;
- the drag part of `update`, which previews the drag on the selected
  item while the button is held and commits it into the item's position
  on release;
- `updateEnd`.

Runs of pointer events and frames are modelled as a fold over a sequence
of inputs. Over those runs, whole gestures are proved correct: press,
hold, release.

Modules:
- `Vectors` (`vectors.dfy`): `V2`, the algebra and the projection.
- `Rects` (`rect.dfy`): `Rect`, corners, containment, getters and
  mutators.
- `MouseState` (`mouse.dfy`): the mouse record, its events, `updateBegin`
  and `updateEnd`.
- `Frames` (`frame.dfy`): transforms, the frame step, input runs and the
  gesture theorems.

Some behaviour worth knowing, where a plain description of the editor and
the code part ways:
- The containment test uses half sizes truncated by `>> 1`. A rectangle
  less than 2 wide loses its vertical bounds: every edge test on the
  y-axis degenerates to 0 ≥ 0. A rectangle less than 2 high likewise
  loses its horizontal bounds, and a default 0×0 rectangle contains every
  point (`ContainsV2`, `ContainsV2OfTinyRect`). The plain
  bounds test holds only from 2×2 up (`ContainsV2OfProperRect`).
- There is no per-item interaction state (selected, moving, rotating).
  While the button is held, this revision drags the one selected item
  wherever the press happened.
- `updateEnd` clears bit 0, so both the `pressed` edge and the `released`
  edge last one frame, not only the release.

## Model

| member | source | states |
|---|---|---|
| Vectors.MagnitudeSqIsZeroOnlyAtZero | js/main.js:116-118 | the squared length is zero exactly for the zero vector |
| Vectors.Project | js/main.js:27-29 | the projection is undefined (NaN in the source) exactly when the target is the zero vector; otherwise it is parallel to the target and the residual `v1 - project(v1, v2)` is orthogonal to the target |
| Vectors.ProjectNonZero | js/main.js:35-39 | `storeProjection` onto a nonzero target gives a vector parallel to the target whose residual is orthogonal to the target |
| Vectors.ParallelIsScalarMultiple | js/main.js:35-39 | a vector parallel to a nonzero target is the target scaled by `dot(p, v2) / magnitudeSq(v2)`, the coefficient `storeProjection` uses, and that divisor is nonzero |
| Vectors.ProjectIsScalarMultiple | js/main.js:27-29 | derived from `Project`'s contract alone: for a nonzero target the projection is some scalar multiple of the target and has the same dot product with the target as `v1` |
| Vectors.ProjectOntoSelf | js/main.js:27-29 | projecting a nonzero vector onto itself returns it |
| Vectors.ProjectIsUnique | js/main.js:27-29 | any vector parallel to the target with an orthogonal residual is the projection, so the contract of `Project` fully determines it |
| Vectors.SubtractUndoesAdd | js/main.js:19-25 | `subtract(add(a, b), b) == a` |
| Vectors.AddUndoesSubtract | js/main.js:19-25 | `add(subtract(a, b), b) == a` |
| Vectors.DotIsSymmetric | js/main.js:15-17 | `dot(a, b) == dot(b, a)` |
| Vectors.GetSideMeasuresNormalOffset | js/main.js:31-33 | for a point written as `start + t·d + u·n` (with `d = end - start` and `n` its normal, which points right when y grows downward) the side value is `u·|d|²`: only the offset across the line counts, and the position along it does not |
| Vectors.GetSideSignIsSide | js/main.js:31-33 | for a line of nonzero length, the side value is zero exactly on the line, positive exactly to its right and negative exactly to its left |
| Vectors.GetSideSwapNegates | js/main.js:31-33 | reversing the line negates the side |
| Vectors.GetSideOfEndpointsIsZero | js/main.js:31-33 | both endpoints of the line are on it (side 0) |
| Vectors.GetSideIsTranslationInvariant | js/main.js:31-33 | shifting line and point together keeps the side |
| Rects.Half | js/main.js:175 | `n >> 1` on a nonnegative size is the integer half: twice it is `n` or `n - 1` |
| Rects.Corners | js/main.js:174-187 | four corners in the order top-left, top-right, bottom-right, bottom-left, each at `pos ± (w >> 1, h >> 1)`; left/right edges vertical, top/bottom horizontal; opposite corners mirrored through `pos` |
| Rects.Left | js/main.js:259 | `left` is `x - (w >> 1)` and never right of the centre |
| Rects.Top | js/main.js:260 | `top` is `y - (h >> 1)` and never below the centre |
| Rects.Right | js/main.js:261 | `right` is `x + (w >> 1)` and never left of the centre |
| Rects.Bottom | js/main.js:262 | `bottom` is `y + (h >> 1)` and never above the centre |
| Rects.EdgesFrom | js/main.js:190-197 | the early-exit loop answers true exactly when every remaining edge has the point on its nonnegative side |
| Rects.ContainsAsWritten | js/main.js:189-198 | as written, the answer is the test against the global `testRect`'s corners |
| Rects.ContainsV2 | js/main.js:189-198 | the intended `containsV2` (on `this`) holds exactly when all four consecutive-corner `getSide` values are ≥ 0, and exactly when `left ≤ p.x ≤ right` (required only when the half height is nonzero) and `top ≤ p.y ≤ bottom` (required only when the half width is nonzero) |
| Rects.CornerTestIsFourEdges | js/main.js:190-197 | the corner loop accepts exactly when all four consecutive-corner `getSide` values are ≥ 0 |
| Rects.TopEdge | js/main.js:192 | the top edge accepts exactly the points at or below `top`, or every point when the half width is 0 |
| Rects.RightEdge | js/main.js:192 | the right edge accepts exactly the points at or left of `right`, or every point when the half height is 0 |
| Rects.BottomEdge | js/main.js:192 | the bottom edge accepts exactly the points at or above `bottom`, or every point when the half width is 0 |
| Rects.LeftEdge | js/main.js:192 | the left edge accepts exactly the points at or right of `left`, or every point when the half height is 0 |
| Rects.CornerTestIsBoundsTest | js/main.js:189-198 | for an unrotated rectangle, the corner loop accepts iff `left ≤ p.x ≤ right` (required only when the half height is nonzero) and `top ≤ p.y ≤ bottom` (required only when the half width is nonzero) |
| Rects.ContainsV2OfProperRect | js/main.js:189-198 | from 2×2 up, `containsV2(p)` is exactly `left ≤ p.x ≤ right ∧ top ≤ p.y ≤ bottom` |
| Rects.ContainsV2OfTinyRect | js/main.js:189-198 | a rectangle under 2×2 (such as a fresh 0×0 one) contains every point |
| Rects.ContainsV2FollowsMove | js/main.js:219-222 | moving the rectangle and the point by the same offset keeps containment |
| Rects.ContainsAsWrittenIgnoresReceiver | js/main.js:192 | as written, the rectangle the method is called on plays no part in the answer |
| Rects.ContainsAsWrittenMissesOwnCentre | js/main.js:192 | the caption at (250, -100) contains its own centre, but the as-written test answers false there, because it tests the rectangle at (800, 200) |
| Rects.Rotate | js/main.js:200-202 | `rotate(d)` adds `d` to the angle and leaves centre and size alone |
| Rects.RotateInverse | js/main.js:200-202 | rotating by `-d` undoes rotating by `d` |
| Rects.SetPos | js/main.js:204-207 | `setPos` stores the new centre `(x, y)` and keeps size and angle; the corners are re-centred on the new position with unchanged extents |
| Rects.SetSize | js/main.js:209-212 | `setSize` stores `w` and `h` as given and keeps centre and angle; the corners stay centred and span the new size rounded down to even |
| Rects.Set | js/main.js:214-217 | `set` gives the same rectangle whether position or size is applied first |
| Rects.Move | js/main.js:219-222 | `move(dx, dy)` shifts the centre by (dx, dy) at any angle and keeps size and angle; at angle 0 every corner moves by (dx, dy) |
| Rects.MoveInverse | js/main.js:219-222 | moving back by `(-dx, -dy)` undoes a move |
| Rects.MoveV2 | js/main.js:224-226 | `moveV2(v)` adds `v` to the centre and keeps size and angle |
| Rects.MoveV2Composes | js/main.js:224-226 | two `moveV2` calls equal one call by the sum of the offsets, and `moveV2(-v)` undoes `moveV2(v)` |
| MouseState.ToCanvas | js/main.js:563 | the canvas-space position plus `canvasCenter` is the raw position times `canvasRatio` |
| MouseState.ToCanvasDifference | js/main.js:563 | the difference of two positions converted to canvas space is the raw difference times `canvasRatio`; the centre offset cancels |
| MouseState.Held | js/main.js:450 | `held` (bit 1) holds exactly for codes 2 and 3 |
| MouseState.Pressed | js/main.js:449 | `pressed` implies `held` |
| MouseState.Released | js/main.js:451 | `released` excludes `held` and `pressed` |
| MouseState.FlagsDetermineState | js/main.js:449-451 | two records with the same `pressed`, `held` and `released` have the same code: each of the four codes has its own flag pattern |
| MouseState.OnEvent | js/main.js:455-469 | every event records `client - canvasScreenPos`; after `mousedown` `pressed` and `held` hold and `released` does not; after `mouseup` only `released` holds; `mousemove` keeps the code; nothing else changes |
| MouseState.UpdateBegin | js/main.js:562-577 | `pos` is the converted position; on a pressed frame the start is latched at `pos` and the drag is zero; while the code is nonzero `drag == pos - start` (and the raw drag likewise); at code 0 both drags are zero; with a consistently converted start the drag is the raw drag scaled |
| MouseState.UpdateEnd | js/main.js:608-610 | `state &= ~1` maps 3 to 2 and 1 to 0 and keeps 0 and 2; afterwards neither `pressed` nor `released` holds, `held` is unchanged, and nothing else changes |
| MouseState.StateAfterEvents | js/main.js:459-469 | after a batch of events, the code is 3 if the last button event was `mousedown`, 1 if it was `mouseup`, and unchanged if there were only moves |
| MouseState.EdgesNeedFreshEvents | js/main.js:449-451 | after `updateEnd`, the next frame sees `pressed` iff a `mousedown` was the last button event since, `released` iff a `mouseup` was, and `held` iff the last was a `mousedown` or there was none and the button was held |
| MouseState.OnEventLatched | js/main.js:459-462 | corrected handlers: the same code and position as the source, and `mousedown` also latches the press position as the drag start |
| MouseState.UpdateBeginLatched | js/main.js:562-577 | corrected `updateBegin`: while the code is nonzero the drag is the movement since the latched press, scaled to canvas units |
| Frames.Update | js/main.js:579-593 | on a held frame the selected transform's `drag` is `mouse.drag` and its position is unchanged; on a released frame the position moves by `mouse.drag` and `drag` is zero; otherwise nothing changes; size and angle never change |
| Frames.ReleaseKeepsPreview | js/main.js:590-593 | the commit is atomic: with the same drag, the release frame draws the item where the held frame did, and no drag is left pending |
| Frames.Step | js/main.js:715-717 | one frame touches only the selected item, leaves neither edge flag set, keeps `held`, previews while held, commits on release, and does nothing to the items otherwise |
| Frames.CommitHappensOnce | js/main.js:590-593 | the frame after a release frame leaves every item as it was: a drag is committed once |
| Frames.Run | js/main.js:708-722 | runs of events and frames keep the item list's length and the selection index |
| Frames.RunAppend | js/main.js:708-722 | running two input sequences one after the other is running their concatenation |
| Frames.HeldPhase | js/main.js:562-593 | while the button stays down after the pressed frame, moves and frames keep the drag start and leave every item's position unchanged |
| Frames.HeldPhaseLatched | js/main.js:562-593 | with the press-latched start, moves and frames while held keep that start and leave every item's position unchanged |
| Frames.GesturePreviewsDrag | js/main.js:562-583 | press at `a`, a frame, any moves and frames, a move to `b`, a frame: the selected item previews the travel `(b - a) * canvasRatio` and has not moved |
| Frames.GestureCommitsDrag | js/main.js:562-610 | press at `a`, a frame, any moves and frames, release at `b`, a frame: the selected item has moved by `(b - a) * canvasRatio`, has no pending drag, the code is 0, and no other item moved |
| Frames.LatchedGestureCommitsDrag | js/main.js:562-610 | with the press-latched start the same holds for any moves and frames between press and release, including none |
| Frames.QuickClickUsesStaleStart | js/main.js:565-572 | as written, a press and release that reach the same frame move the item from the previous press's start to the click position |
| Frames.MoveBeforeFirstFrameIsLost | js/main.js:565-572 | as written, a move that reaches the page after `mousedown` but before the first frame is lost: the first frame latches the start at the moved-to point `a2`, so the release at `b` commits the travel from `a2`, which differs from the travel from the press point whenever the pointer moved and the canvas ratio is nonzero |
| Frames.QuickClickMovesItem | js/main.js:565-572 | on a fresh page with the page's 1300×974 canvas at ratio 1, a single-frame click at (100, 0) moves the selected item by (-550, -487) although the pointer never moved |
| Frames.QuickClickLatchedStaysPut | js/main.js:565-572 | with the press-latched start, the same click leaves the item in place with no pending drag |
| Frames.ReleaseAndPressInOneFrameDropsDrag | js/main.js:565-583 | with either latch, a `mouseup` then a `mousedown` during a drag, both before the next frame, never commit the drag: the frame sees a fresh press, the item keeps its committed position and its pending offset becomes zero |
| Frames.DragScenarioPreview | js/main.js:579-583 | on the page's canvas, an item at the origin, press at (10, 10), move to (60, 10): the frame previews (50, 0) and the item has not moved |
| Frames.DragScenarioCommit | js/main.js:590-593 | the same drag released at (60, 10): the item ends centred at (50, 0) with no pending drag |

## Left out

- Rects.Corners: modelled only for `angle == 0`. The rotated corners (`rotateDeg`, lines 182-184) need trigonometry. `Left`, `Top`, `Right`, `Bottom` and `ContainsV2` carry the same restriction.
- Rects.ContainsAsWritten: the real global `testRect` is rotated by 15 degrees (lines 705-706). The model can only evaluate the as-written test against an unrotated rectangle, so the discrepancy is shown with that rectangle unrotated.
- Rects.Half: sizes are natural numbers. Fractional sizes, negative sizes and the 32-bit wrap of `>>` from 2^31 up are not modelled.
- Numbers are mathematical reals, not IEEE doubles, so rounding is not modelled. The one NaN case, projecting onto the zero vector, is the `None` of `Project`.
- The mutating `V2` instance methods (`addV2`, `subtractV2`, `setV2`, `set`, `multiplyScalar`, `storeProjection`) are the pure functions here; receiver aliasing is not modelled except that a transform's `pos` is its rect's centre (line 552).
- `rotateRad`, `rotateDeg`, `compareAngles`, `compareDistance`, `magnitude`, `normalize`, `divideScalar`, `invert`: trigonometry, square roots or division outside the core.
- The reflection-based method wrapping in the `Rect` constructor (lines 147-158) is replaced by corners derived from the fields. The constructor itself is the `Rect` datatype constructor.
- Canvas placement (`canvasScreenPos`, `canvasRatio`, the canvas size behind `canvasCenter`) is a parameter, because `setCanvasSize` (lines 487-498) reads it from the DOM.
- `createText` (lines 516-555): the string, the measured width and height and the `parent` back-reference are not modelled; a transform is its rect, drag, size and angle.
- The DOM reads in `update` (lines 585-588) and the `draggingRect` debug flag and line (lines 595-605). That code calls `containsV2` on the caption's own rect (a local `testRect`, line 595), which the line-192 bug turns into a test against the global rectangle.
- Frames.ReleaseAndPressInOneFrameDropsDrag: the drag lost when a release and a new press reach the same frame is shown, but no corrected handling is modelled; neither latch policy changes it, and a fix would need the frame to see both edges.
- `render`, `drawTextItem` and the `Draw` helpers; `Frames.Preview` models only the position an item is drawn at.
- Frame timing (`dt`, `requestAnimationFrame`): no modelled operation reads it. Events between two frames are applied in arrival order; nothing runs concurrently.
- The selected item is an index into the item list; `selectedItem` is fixed to the custom caption at start-up (line 777), which the model does not fix.
- Image upload, drag and drop, image loading, JPEG export and the colour animation are browser I/O.

## Findings

| source | as written | input that shows it | evidently intended | confidence | as-written member | corrected member |
|---|---|---|---|---|---|---|
| js/main.js:192 | `containsV2` tests the corners of the global `testRect`, not of the rectangle it is called on; the calls on the caption's rect at lines 597 and 665 therefore test the global rectangle | the caption rectangle at (250, -100), 100×100, asked about its own centre, while `testRect` is at (800, 200): the answer is false | test `this.corners` | high, not executed | Rects.ContainsAsWrittenMissesOwnCentre | Rects.ContainsV2 |
| js/main.js:565-572 | the drag start is latched only on a frame that sees code 3; a `mousedown` and `mouseup` that both arrive before the next frame leave code 1, so that frame measures the drag from the previous press's start (or from the origin on a fresh page) and commits it; moves between `mousedown` and the first frame are also lost from the drag | fresh page, the page's 1300×974 canvas at ratio 1 at the screen origin, `mousedown` and `mouseup` at (100, 0) before one frame: the selected item moves by (-550, -487); and `mousedown` at `a`, a move to `a2 != a`, a frame, `mouseup` at `b`, a frame: the item moves by the travel from `a2`, not from `a` | measure the drag from where the press happened, so a click moves nothing | medium, not executed | Frames.QuickClickUsesStaleStart, Frames.MoveBeforeFirstFrameIsLost | Frames.LatchedGestureCommitsDrag |
