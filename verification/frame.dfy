/** One animation frame of the editor, as far as dragging goes:
    `updateBegin`, then the drag handling of `update` on the selected
    item, then `updateEnd`; and runs of pointer events and frames. While
    the button is held the selected item previews the drag in its `drag`
    offset; on the release frame the offset is committed into the item's
    position (its rect's centre) and cleared. */
module Frames {
  import opened Vectors
  import opened Rects
  import opened MouseState

  /** An item's `transform`. Its `pos` is its rect's centre (the source
      makes the two one object); `drag` is the previewed offset. */
  datatype Transform = Transform(rect: Rect, drag: V2, size: real, angle: real)

  /** Where the item is drawn: its position plus the previewed drag. */
  function Preview(t: Transform): V2 {
    Add(t.rect.pos, t.drag)
  }

  /** The drag part of `update` for the selected transform. */
  function Update(m: Mouse, t: Transform): (r: Transform)
    ensures Held(m) ==> r.rect == t.rect && r.drag == m.drag
    ensures Released(m) ==> r.rect == MoveV2(t.rect, m.drag) && r.drag == Zero
    ensures !Held(m) && !Released(m) ==> r == t
    ensures Held(m) || Released(m) ==> Preview(r) == Add(t.rect.pos, m.drag)
    ensures r.size == t.size && r.angle == t.angle
  {
    var t1 := if Held(m) then t.(drag := m.drag) else t;
    if Released(m) then t1.(rect := MoveV2(t1.rect, m.drag), drag := Zero) else t1
  }

  /** The commit does not make the item jump: with the same drag, the
      release frame draws it where a held frame would have. */
  lemma ReleaseKeepsPreview(held: Mouse, released: Mouse, t: Transform)
    requires Held(held) && Released(released) && held.drag == released.drag
    ensures Preview(Update(released, t)) == Preview(Update(held, t))
    ensures Update(released, t).drag == Zero
  {
  }

  /** When the drag start is captured. `AtFirstFrame` is the source: the
      first frame that sees `pressed` copies the current position.
      `AtPress` captures it in the `mousedown` handler. */
  datatype Latch = AtFirstFrame | AtPress

  function Begin(m: Mouse, cv: Canvas, latch: Latch): Mouse {
    match latch
    case AtFirstFrame => UpdateBegin(m, cv)
    case AtPress => UpdateBeginLatched(m, cv)
  }

  function Handle(m: Mouse, e: Event, cv: Canvas, latch: Latch): Mouse {
    match latch
    case AtFirstFrame => OnEvent(m, e, cv)
    case AtPress => OnEventLatched(m, e, cv)
  }

  /** The pointer, the scene's items and the index of the selected one. */
  datatype World = World(mouse: Mouse, items: seq<Transform>, selected: nat)

  predicate Valid(w: World) {
    w.selected < |w.items|
  }

  /** `updateBegin`; `update`; `updateEnd`. */
  function Step(w: World, cv: Canvas, latch: Latch): (r: World)
    requires Valid(w)
    ensures Valid(r) && r.selected == w.selected && |r.items| == |w.items|
    ensures forall j :: 0 <= j < |w.items| && j != w.selected ==> r.items[j] == w.items[j]
    ensures !Pressed(r.mouse) && !Released(r.mouse) && Held(r.mouse) == Held(w.mouse)
    ensures Held(w.mouse) ==>
      r.items[w.selected].rect == w.items[w.selected].rect &&
      r.items[w.selected].drag == Begin(w.mouse, cv, latch).drag
    ensures Released(w.mouse) ==>
      r.items[w.selected].rect == MoveV2(w.items[w.selected].rect, Begin(w.mouse, cv, latch).drag) &&
      r.items[w.selected].drag == Zero
    ensures !Held(w.mouse) && !Released(w.mouse) ==> r.items == w.items
  {
    var m := Begin(w.mouse, cv, latch);
    var t := Update(m, w.items[w.selected]);
    World(UpdateEnd(m), w.items[w.selected := t], w.selected)
  }

  /** A frame after the release frame changes nothing: a drag is committed
      once. */
  lemma CommitHappensOnce(w: World, cv: Canvas, latch: Latch)
    requires Valid(w) && Released(w.mouse)
    ensures Step(Step(w, cv, latch), cv, latch).items == Step(w, cv, latch).items
    ensures Step(w, cv, latch).items[w.selected].drag == Zero
  {
    var w1 := Step(w, cv, latch);
    assert w1.mouse.state == 0;
  }

  /** What reaches the editor: a pointer event or an animation frame. */
  datatype Input = Signal(e: Event) | Tick

  function Apply(w: World, i: Input, cv: Canvas, latch: Latch): (r: World)
    requires Valid(w)
    ensures Valid(r) && r.selected == w.selected && |r.items| == |w.items|
  {
    match i
    case Signal(e) => w.(mouse := Handle(w.mouse, e, cv, latch))
    case Tick => Step(w, cv, latch)
  }

  function Run(w: World, cv: Canvas, latch: Latch, ins: seq<Input>): (r: World)
    requires Valid(w)
    ensures Valid(r) && r.selected == w.selected && |r.items| == |w.items|
    decreases |ins|
  {
    if ins == [] then w else Run(Apply(w, ins[0], cv, latch), cv, latch, ins[1..])
  }

  lemma {:induction false} RunAppend(w: World, cv: Canvas, latch: Latch, a: seq<Input>, b: seq<Input>)
    requires Valid(w)
    ensures Run(w, cv, latch, a + b) == Run(Run(w, cv, latch, a), cv, latch, b)
    decreases |a|
  {
    if a != [] {
      assert (a + b)[0] == a[0];
      assert (a + b)[1..] == a[1..] + b;
      RunAppend(Apply(w, a[0], cv, latch), cv, latch, a[1..], b);
    } else {
      assert a + b == b;
    }
  }

  lemma RunOne(w: World, cv: Canvas, latch: Latch, i: Input)
    requires Valid(w)
    ensures Run(w, cv, latch, [i]) == Apply(w, i, cv, latch)
  {
    assert [i][1..] == [];
  }

  lemma RunTwo(w: World, cv: Canvas, latch: Latch, i: Input, j: Input)
    requires Valid(w)
    ensures Run(w, cv, latch, [i, j]) == Apply(Apply(w, i, cv, latch), j, cv, latch)
  {
    assert [i, j][1..] == [j];
    RunOne(Apply(w, i, cv, latch), cv, latch, j);
  }

  /** Inputs with no button event: moves and frames only. */
  predicate NoButtons(ins: seq<Input>) {
    forall i :: 0 <= i < |ins| && ins[i].Signal? ==> ins[i].e.MouseMove?
  }

  /** Holding the button after the pressed frame (source latch): moves
      and frames keep the start and leave the selected item's position and
      every other item alone. */
  lemma {:induction false} HeldPhase(w: World, cv: Canvas, ins: seq<Input>)
    requires Valid(w) && w.mouse.state == 2 && NoButtons(ins)
    ensures var r := Run(w, cv, AtFirstFrame, ins);
      r.mouse.state == 2 && r.mouse.start == w.mouse.start && r.mouse.startRaw == w.mouse.startRaw &&
      r.items[w.selected].rect == w.items[w.selected].rect &&
      forall j :: 0 <= j < |w.items| && j != w.selected ==> r.items[j] == w.items[j]
    decreases |ins|
  {
    if ins != [] {
      var w1 := Apply(w, ins[0], cv, AtFirstFrame);
      assert NoButtons(ins[1..]) by {
        forall i | 0 <= i < |ins[1..]| && ins[1..][i].Signal?
          ensures ins[1..][i].e.MouseMove?
        {
          assert ins[1..][i] == ins[i + 1];
        }
      }
      HeldPhase(w1, cv, ins[1..]);
    }
  }

  /** Holding the button (press latch): moves and frames keep the latched
      press position and leave the selected item's position and every other
      item alone. */
  lemma {:induction false} HeldPhaseLatched(w: World, cv: Canvas, ins: seq<Input>)
    requires Valid(w) && Held(w.mouse) && NoButtons(ins)
    ensures var r := Run(w, cv, AtPress, ins);
      Held(r.mouse) && r.mouse.startRaw == w.mouse.startRaw &&
      r.items[w.selected].rect == w.items[w.selected].rect &&
      forall j :: 0 <= j < |w.items| && j != w.selected ==> r.items[j] == w.items[j]
    decreases |ins|
  {
    if ins != [] {
      var w1 := Apply(w, ins[0], cv, AtPress);
      assert NoButtons(ins[1..]) by {
        forall i | 0 <= i < |ins[1..]| && ins[1..][i].Signal?
          ensures ins[1..][i].e.MouseMove?
        {
          assert ins[1..][i] == ins[i + 1];
        }
      }
      HeldPhaseLatched(w1, cv, ins[1..]);
    }
  }

  /** The pointer's movement from `a` to `b`, in canvas units. */
  function Travel(a: V2, b: V2, cv: Canvas): V2 {
    Scale(Subtract(b, a), cv.ratio)
  }

  /** A drag as the source handles it: press at `a`, a frame, any moves
      and frames, release at `b`, a frame. The selected item moves by the
      pointer's travel, ends with no pending drag, the button code is back
      to 0, and no other item moves. */
  lemma GestureCommitsDrag(w: World, cv: Canvas, a: V2, b: V2, mid: seq<Input>)
    requires Valid(w) && NoButtons(mid)
    ensures var r := Run(w, cv, AtFirstFrame, [Signal(MouseDown(a)), Tick] + mid + [Signal(MouseUp(b)), Tick]);
      r.items[w.selected].rect == MoveV2(w.items[w.selected].rect, Travel(a, b, cv)) &&
      r.items[w.selected].drag == Zero && r.mouse.state == 0 &&
      forall j :: 0 <= j < |w.items| && j != w.selected ==> r.items[j] == w.items[j]
  {
    var press := [Signal(MouseDown(a)), Tick];
    var release := [Signal(MouseUp(b)), Tick];
    RunAppend(w, cv, AtFirstFrame, press + mid, release);
    RunAppend(w, cv, AtFirstFrame, press, mid);
    // the pressed frame latches the start at `a`
    var w1 := Apply(w, Signal(MouseDown(a)), cv, AtFirstFrame);
    var w2 := Apply(w1, Tick, cv, AtFirstFrame);
    RunTwo(w, cv, AtFirstFrame, Signal(MouseDown(a)), Tick);
    var ra := Subtract(a, cv.screenPos);
    assert w1.mouse.state == 3 && w1.mouse.posRaw == ra;
    assert w2.mouse == UpdateEnd(UpdateBegin(w1.mouse, cv));
    assert w2.mouse.state == 2 && w2.mouse.startRaw == ra && w2.mouse.start == ToCanvas(ra, cv);
    assert w2.items[w.selected].rect == w.items[w.selected].rect;
    // holding keeps it
    var w3 := Run(w2, cv, AtFirstFrame, mid);
    HeldPhase(w2, cv, mid);
    // the release frame commits the travel
    var w4 := Apply(w3, Signal(MouseUp(b)), cv, AtFirstFrame);
    var w5 := Apply(w4, Tick, cv, AtFirstFrame);
    RunTwo(w3, cv, AtFirstFrame, Signal(MouseUp(b)), Tick);
    var rb := Subtract(b, cv.screenPos);
    assert w4.mouse.state == 1 && w4.mouse.posRaw == rb && w4.mouse.start == ToCanvas(ra, cv);
    ToCanvasDifference(rb, ra, cv);
    assert Subtract(rb, ra) == Subtract(b, a);
    assert UpdateBegin(w4.mouse, cv).drag == Travel(a, b, cv);
    assert w5.mouse == UpdateEnd(UpdateBegin(w4.mouse, cv));
  }

  /** As written, a move that reaches the page after `mousedown` but before
      the first frame is lost from the drag: that frame latches the start at
      the moved-to position, so releasing at `b` commits only the travel
      from `a2`, which differs from the travel from the press point `a`
      whenever the pointer moved and the canvas is shown at all. */
  lemma MoveBeforeFirstFrameIsLost(w: World, cv: Canvas, a: V2, a2: V2, b: V2)
    requires Valid(w)
    ensures var r := Run(w, cv, AtFirstFrame,
        [Signal(MouseDown(a)), Signal(MouseMove(a2)), Tick, Signal(MouseUp(b)), Tick]);
      r.items[w.selected].rect == MoveV2(w.items[w.selected].rect, Travel(a2, b, cv)) &&
      r.items[w.selected].drag == Zero && r.mouse.state == 0
    ensures a2 != a && cv.ratio != 0.0 ==> Travel(a2, b, cv) != Travel(a, b, cv)
  {
    var early := [Signal(MouseDown(a)), Signal(MouseMove(a2))];
    var release := [Signal(MouseUp(b)), Tick];
    assert [Signal(MouseDown(a)), Signal(MouseMove(a2)), Tick, Signal(MouseUp(b)), Tick]
      == early + [Tick] + release;
    RunAppend(w, cv, AtFirstFrame, early + [Tick], release);
    RunAppend(w, cv, AtFirstFrame, early, [Tick]);
    // both events land before the first frame, which latches the moved-to position
    var w1 := Apply(w, Signal(MouseDown(a)), cv, AtFirstFrame);
    var w2 := Apply(w1, Signal(MouseMove(a2)), cv, AtFirstFrame);
    RunTwo(w, cv, AtFirstFrame, Signal(MouseDown(a)), Signal(MouseMove(a2)));
    var ra2 := Subtract(a2, cv.screenPos);
    assert w2.mouse.state == 3 && w2.mouse.posRaw == ra2;
    var w3 := Apply(w2, Tick, cv, AtFirstFrame);
    RunOne(w2, cv, AtFirstFrame, Tick);
    assert w3.mouse == UpdateEnd(UpdateBegin(w2.mouse, cv));
    assert w3.mouse.state == 2 && w3.mouse.start == ToCanvas(ra2, cv);
    assert w3.items[w.selected].rect == w.items[w.selected].rect;
    // the release frame commits the travel from `a2`
    var w4 := Apply(w3, Signal(MouseUp(b)), cv, AtFirstFrame);
    var w5 := Apply(w4, Tick, cv, AtFirstFrame);
    RunTwo(w3, cv, AtFirstFrame, Signal(MouseUp(b)), Tick);
    var rb := Subtract(b, cv.screenPos);
    assert w4.mouse.state == 1 && w4.mouse.posRaw == rb && w4.mouse.start == ToCanvas(ra2, cv);
    ToCanvasDifference(rb, ra2, cv);
    assert Subtract(rb, ra2) == Subtract(b, a2);
    assert UpdateBegin(w4.mouse, cv).drag == Travel(a2, b, cv);
    assert w5.mouse == UpdateEnd(UpdateBegin(w4.mouse, cv));
    if a2 != a && cv.ratio != 0.0 {
      if a2.x != a.x {
        assert (b.x - a2.x) * cv.ratio != (b.x - a.x) * cv.ratio;
      } else {
        assert (b.y - a2.y) * cv.ratio != (b.y - a.y) * cv.ratio;
      }
    }
  }

  /** While a drag is under way (source latch), the frame after a move to
      `b` previews the pointer's travel since the press and has not moved
      the item. */
  lemma GesturePreviewsDrag(w: World, cv: Canvas, a: V2, b: V2, mid: seq<Input>)
    requires Valid(w) && NoButtons(mid)
    ensures var r := Run(w, cv, AtFirstFrame, [Signal(MouseDown(a)), Tick] + mid + [Signal(MouseMove(b)), Tick]);
      r.items[w.selected].rect == w.items[w.selected].rect &&
      r.items[w.selected].drag == Travel(a, b, cv) && r.mouse.state == 2
  {
    var press := [Signal(MouseDown(a)), Tick];
    var moved := [Signal(MouseMove(b)), Tick];
    RunAppend(w, cv, AtFirstFrame, press + mid, moved);
    RunAppend(w, cv, AtFirstFrame, press, mid);
    var w1 := Apply(w, Signal(MouseDown(a)), cv, AtFirstFrame);
    var w2 := Apply(w1, Tick, cv, AtFirstFrame);
    RunTwo(w, cv, AtFirstFrame, Signal(MouseDown(a)), Tick);
    var ra := Subtract(a, cv.screenPos);
    assert w1.mouse.state == 3 && w1.mouse.posRaw == ra;
    assert w2.mouse == UpdateEnd(UpdateBegin(w1.mouse, cv));
    assert w2.mouse.state == 2 && w2.mouse.start == ToCanvas(ra, cv);
    var w3 := Run(w2, cv, AtFirstFrame, mid);
    HeldPhase(w2, cv, mid);
    var w4 := Apply(w3, Signal(MouseMove(b)), cv, AtFirstFrame);
    var w5 := Apply(w4, Tick, cv, AtFirstFrame);
    RunTwo(w3, cv, AtFirstFrame, Signal(MouseMove(b)), Tick);
    var rb := Subtract(b, cv.screenPos);
    assert w4.mouse.state == 2 && w4.mouse.posRaw == rb && w4.mouse.start == ToCanvas(ra, cv);
    ToCanvasDifference(rb, ra, cv);
    assert Subtract(rb, ra) == Subtract(b, a);
    assert UpdateBegin(w4.mouse, cv).drag == Travel(a, b, cv);
    assert w5.mouse == UpdateEnd(UpdateBegin(w4.mouse, cv));
  }

  /** The same drag with the start captured by `mousedown`: any moves and
      frames may come between press and release, including none. */
  lemma LatchedGestureCommitsDrag(w: World, cv: Canvas, a: V2, b: V2, mid: seq<Input>)
    requires Valid(w) && NoButtons(mid)
    ensures var r := Run(w, cv, AtPress, [Signal(MouseDown(a))] + mid + [Signal(MouseUp(b)), Tick]);
      r.items[w.selected].rect == MoveV2(w.items[w.selected].rect, Travel(a, b, cv)) &&
      r.items[w.selected].drag == Zero && r.mouse.state == 0 &&
      forall j :: 0 <= j < |w.items| && j != w.selected ==> r.items[j] == w.items[j]
  {
    var press := [Signal(MouseDown(a))];
    var release := [Signal(MouseUp(b)), Tick];
    RunAppend(w, cv, AtPress, press + mid, release);
    RunAppend(w, cv, AtPress, press, mid);
    var w1 := Apply(w, Signal(MouseDown(a)), cv, AtPress);
    RunOne(w, cv, AtPress, Signal(MouseDown(a)));
    var ra := Subtract(a, cv.screenPos);
    assert Held(w1.mouse) && w1.mouse.startRaw == ra;
    var w3 := Run(w1, cv, AtPress, mid);
    HeldPhaseLatched(w1, cv, mid);
    var w4 := Apply(w3, Signal(MouseUp(b)), cv, AtPress);
    var w5 := Apply(w4, Tick, cv, AtPress);
    RunTwo(w3, cv, AtPress, Signal(MouseUp(b)), Tick);
    var rb := Subtract(b, cv.screenPos);
    assert w4.mouse.state == 1 && w4.mouse.posRaw == rb && w4.mouse.startRaw == ra;
    assert Subtract(rb, ra) == Subtract(b, a);
    assert UpdateBeginLatched(w4.mouse, cv).drag == Travel(a, b, cv);
    assert w5.mouse == UpdateEnd(UpdateBeginLatched(w4.mouse, cv));
  }

  /** As written, a press and release that reach the same frame measure
      the drag from whatever start the previous press left behind: the
      item moves by the distance from that old start to the click. */
  lemma QuickClickUsesStaleStart(w: World, cv: Canvas, a: V2)
    requires Valid(w)
    ensures var r := Run(w, cv, AtFirstFrame, [Signal(MouseDown(a)), Signal(MouseUp(a)), Tick]);
      r.items[w.selected].rect ==
        MoveV2(w.items[w.selected].rect, Subtract(ToCanvas(Subtract(a, cv.screenPos), cv), w.mouse.start))
  {
    var w1 := Apply(w, Signal(MouseDown(a)), cv, AtFirstFrame);
    var w2 := Apply(w1, Signal(MouseUp(a)), cv, AtFirstFrame);
    assert [Signal(MouseDown(a)), Signal(MouseUp(a)), Tick] == [Signal(MouseDown(a))] + [Signal(MouseUp(a)), Tick];
    RunAppend(w, cv, AtFirstFrame, [Signal(MouseDown(a))], [Signal(MouseUp(a)), Tick]);
    RunOne(w, cv, AtFirstFrame, Signal(MouseDown(a)));
    RunTwo(w1, cv, AtFirstFrame, Signal(MouseUp(a)), Tick);
    assert w2.mouse.state == 1 && w2.mouse.start == w.mouse.start;
    assert w2.mouse.posRaw == Subtract(a, cv.screenPos);
  }

  /** With either latch, a `mouseup` followed by a `mousedown` before the
      next frame, during a drag, never commits that drag: the frame sees a
      fresh press, the item snaps back to its committed position and the
      pending offset is discarded. */
  lemma ReleaseAndPressInOneFrameDropsDrag(w: World, cv: Canvas, latch: Latch, b: V2, c: V2)
    requires Valid(w) && w.mouse.state == 2
    ensures var r := Run(w, cv, latch, [Signal(MouseUp(b)), Signal(MouseDown(c)), Tick]);
      r.items[w.selected].rect == w.items[w.selected].rect &&
      r.items[w.selected].drag == Zero && r.mouse.state == 2
  {
    var w1 := Apply(w, Signal(MouseUp(b)), cv, latch);
    var w2 := Apply(w1, Signal(MouseDown(c)), cv, latch);
    assert [Signal(MouseUp(b)), Signal(MouseDown(c)), Tick] == [Signal(MouseUp(b))] + [Signal(MouseDown(c)), Tick];
    RunAppend(w, cv, latch, [Signal(MouseUp(b))], [Signal(MouseDown(c)), Tick]);
    RunOne(w, cv, latch, Signal(MouseUp(b)));
    RunTwo(w1, cv, latch, Signal(MouseDown(c)), Tick);
    assert w2.mouse.state == 3;
    if latch.AtPress? {
      assert w2.mouse.startRaw == w2.mouse.posRaw;
      assert Subtract(w2.mouse.posRaw, w2.mouse.startRaw) == Zero;
      assert Scale(Zero, cv.ratio) == Zero;
    }
    assert Begin(w2.mouse, cv, latch).drag == Zero;
  }

  /** The page's canvas, 1300 x 974, shown at its own size (ratio 1) at
      the screen origin. */
  const PageCanvas: Canvas := Canvas(Zero, 1.0, 1300, 974)

  lemma ClickOnPageCanvas()
    ensures ToCanvas(Subtract(V2(100.0, 0.0), PageCanvas.screenPos), PageCanvas) == V2(-550.0, -487.0)
  {
    var raw := Subtract(V2(100.0, 0.0), PageCanvas.screenPos);
    assert raw == V2(100.0, 0.0);
    assert 1300 / 2 == 650 && 974 / 2 == 487;
    assert Center(PageCanvas) == V2(650.0, 487.0);
    assert Scale(raw, PageCanvas.ratio) == V2(100.0, 0.0);
  }

  /** A concrete instance: on a fresh page, a click at (100, 0) that both
      starts and ends within one frame moves the selected item by
      (-550, -487), the click's canvas position measured from the initial
      zero start, although the pointer never moved. */
  lemma QuickClickMovesItem(w: World)
    requires Valid(w) && w.mouse == Idle
    ensures var r := Run(w, PageCanvas, AtFirstFrame,
                         [Signal(MouseDown(V2(100.0, 0.0))), Signal(MouseUp(V2(100.0, 0.0))), Tick]);
      r.items[w.selected].rect.pos == Add(w.items[w.selected].rect.pos, V2(-550.0, -487.0))
  {
    var a := V2(100.0, 0.0);
    QuickClickUsesStaleStart(w, PageCanvas, a);
    ClickOnPageCanvas();
    var shift := Subtract(ToCanvas(Subtract(a, PageCanvas.screenPos), PageCanvas), w.mouse.start);
    assert shift == V2(-550.0, -487.0);
  }

  /** With the start captured by `mousedown`, the same click leaves the
      item where it was. */
  lemma QuickClickLatchedStaysPut(w: World, cv: Canvas, a: V2)
    requires Valid(w)
    ensures var r := Run(w, cv, AtPress, [Signal(MouseDown(a)), Signal(MouseUp(a)), Tick]);
      r.items[w.selected].rect == w.items[w.selected].rect && r.items[w.selected].drag == Zero
  {
    LatchedGestureCommitsDrag(w, cv, a, a, []);
    var r := Run(w, cv, AtPress, [Signal(MouseDown(a)), Signal(MouseUp(a)), Tick]);
    assert [Signal(MouseDown(a))] + [] + [Signal(MouseUp(a)), Tick] ==
           [Signal(MouseDown(a)), Signal(MouseUp(a)), Tick];
    assert Travel(a, a, cv) == Zero;
  }


  /** A concrete drag of a selected item centred at the origin: press at
      (10, 10), a frame, move to (60, 10), a frame. The item previews an
      offset of (50, 0) and has not moved. */
  lemma DragScenarioPreview(w: World)
    requires Valid(w) && w.items[w.selected].rect.pos == Zero
    ensures var r := Run(w, PageCanvas, AtFirstFrame,
                         [Signal(MouseDown(V2(10.0, 10.0))), Tick, Signal(MouseMove(V2(60.0, 10.0))), Tick]);
      r.items[w.selected].drag == V2(50.0, 0.0) && r.items[w.selected].rect.pos == Zero
  {
    var a := V2(10.0, 10.0);
    var b := V2(60.0, 10.0);
    GesturePreviewsDrag(w, PageCanvas, a, b, []);
    assert [Signal(MouseDown(a)), Tick] + [] + [Signal(MouseMove(b)), Tick] ==
           [Signal(MouseDown(a)), Tick, Signal(MouseMove(b)), Tick];
    assert Travel(a, b, PageCanvas) == V2(50.0, 0.0);
  }

  /** The same drag released at (60, 10), then a frame: the item ends
      centred at (50, 0) with no pending offset. */
  lemma DragScenarioCommit(w: World)
    requires Valid(w) && w.items[w.selected].rect.pos == Zero
    ensures var r := Run(w, PageCanvas, AtFirstFrame,
                         [Signal(MouseDown(V2(10.0, 10.0))), Tick, Signal(MouseMove(V2(60.0, 10.0))), Tick,
                          Signal(MouseUp(V2(60.0, 10.0))), Tick]);
      r.items[w.selected].rect.pos == V2(50.0, 0.0) && r.items[w.selected].drag == Zero
  {
    var a := V2(10.0, 10.0);
    var b := V2(60.0, 10.0);
    var mid := [Signal(MouseMove(b)), Tick];
    assert NoButtons(mid);
    var ins := [Signal(MouseDown(a)), Tick, Signal(MouseMove(b)), Tick, Signal(MouseUp(b)), Tick];
    assert ins == [Signal(MouseDown(a)), Tick] + mid + [Signal(MouseUp(b)), Tick];
    GestureCommitsDrag(w, PageCanvas, a, b, mid);
    assert Travel(a, b, PageCanvas) == V2(50.0, 0.0);
    var r := Run(w, PageCanvas, AtFirstFrame, ins);
    assert r.items[w.selected].rect.pos == Add(Zero, V2(50.0, 0.0));
  }
}
