/** The editor's `mouse` record and the per-frame handling of it. The
    button is tracked by a 2-bit code: bit 1 says the button is down, bit 0
    says the last button event has not yet been seen by a frame. Event
    handlers write the code (`mousedown` 3, `mouseup` 1); `updateBegin`
    turns the raw position into canvas space and measures the drag;
    `updateEnd` clears bit 0, so an edge is visible to one frame only. */
module MouseState {
  import opened Vectors

  datatype Mouse = Mouse(
    posRaw: V2, startRaw: V2, dragRaw: V2,
    pos: V2, start: V2, drag: V2,
    state: bv2)

  /** The record as the page starts: everything zero, button up. */
  const Idle: Mouse := Mouse(Zero, Zero, Zero, Zero, Zero, Zero, 0)

  /** Bit 0 of the code: an edge not yet consumed by a frame. */
  const EdgeBit: bv2 := 1

  /** The `held` getter: bit 1, set for codes 2 and 3. */
  function Held(m: Mouse): (b: bool)
    ensures b <==> m.state == 2 || m.state == 3
  {
    m.state & 2 != 0
  }

  /** The `pressed` getter: a fresh press, which is also a held button. */
  function Pressed(m: Mouse): (b: bool)
    ensures b ==> Held(m)
  {
    m.state == 3
  }

  /** The `released` getter: a fresh release, neither pressed nor held. */
  function Released(m: Mouse): (b: bool)
    ensures b ==> !Held(m) && !Pressed(m)
  {
    m.state == 1
  }

  /** Each code has its own flag pattern: 0 none, 1 only `released`, 2
      only `held`, 3 `pressed` and `held`; so the flags determine the code. */
  lemma FlagsDetermineState(m: Mouse, n: Mouse)
    requires Pressed(m) == Pressed(n) && Held(m) == Held(n) && Released(m) == Released(n)
    ensures m.state == n.state
  {
  }

  /** Pointer events, carrying the client position they report. */
  datatype Event = MouseDown(client: V2) | MouseMove(client: V2) | MouseUp(client: V2)

  /** Where the canvas sits on screen and how it is scaled: `canvasScreenPos`,
      `canvasRatio` and the canvas size, whose halves (`w >> 1`) give
      `canvasCenter`. These are set by the canvas plumbing. */
  datatype Canvas = Canvas(screenPos: V2, ratio: real, width: nat, height: nat)

  function Center(cv: Canvas): V2 {
    V2((cv.width / 2) as real, (cv.height / 2) as real)
  }

  /** Raw (canvas-element) position to canvas space with the origin at the
      canvas centre. */
  function ToCanvas(raw: V2, cv: Canvas): (c: V2)
    ensures Add(c, Center(cv)) == Scale(raw, cv.ratio)
  {
    Subtract(Scale(raw, cv.ratio), Center(cv))
  }

  /** The difference of two converted positions is the scaled raw
      difference: the centre offset cancels. */
  lemma ToCanvasDifference(p: V2, q: V2, cv: Canvas)
    ensures Subtract(ToCanvas(p, cv), ToCanvas(q, cv)) == Scale(Subtract(p, q), cv.ratio)
  {
    var k := cv.ratio;
    assert p.x * k - q.x * k == (p.x - q.x) * k;
    assert p.y * k - q.y * k == (p.y - q.y) * k;
  }

  /** The `mousedown`, `mousemove` and `mouseup` handlers: record the
      position relative to the canvas element and, for the button events,
      write the state code. */
  function OnEvent(m: Mouse, e: Event, cv: Canvas): (r: Mouse)
    ensures r.posRaw == Subtract(e.client, cv.screenPos)
    ensures e.MouseDown? ==> Pressed(r) && Held(r) && !Released(r)
    ensures e.MouseUp? ==> Released(r) && !Pressed(r) && !Held(r)
    ensures e.MouseMove? ==> r.state == m.state
    ensures r == m.(posRaw := r.posRaw, state := r.state)
  {
    var raw := Subtract(e.client, cv.screenPos);
    match e
    case MouseDown(_) => m.(state := 3, posRaw := raw)
    case MouseMove(_) => m.(posRaw := raw)
    case MouseUp(_) => m.(state := 1, posRaw := raw)
  }

  /** `updateBegin`: convert the position, latch the start on a pressed
      frame, and measure the drag while the code is nonzero. */
  function UpdateBegin(m: Mouse, cv: Canvas): (r: Mouse)
    ensures r.state == m.state && r.posRaw == m.posRaw
    ensures r.pos == ToCanvas(m.posRaw, cv)
    ensures Pressed(m) ==> r.start == r.pos && r.startRaw == r.posRaw
    ensures Pressed(m) ==> r.drag == Zero && r.dragRaw == Zero
    ensures !Pressed(m) ==> r.start == m.start && r.startRaw == m.startRaw
    ensures m.state != 0 ==> r.drag == Subtract(r.pos, r.start)
    ensures m.state != 0 ==> r.dragRaw == Subtract(r.posRaw, r.startRaw)
    ensures m.state == 0 ==> r.drag == Zero && r.dragRaw == Zero
    // the canvas drag is the raw drag scaled, if the start was converted
    // with the same canvas placement
    ensures m.state != 0 && (Pressed(m) || m.start == ToCanvas(m.startRaw, cv)) ==>
      r.drag == Scale(r.dragRaw, cv.ratio)
  {
    var pos := ToCanvas(m.posRaw, cv);
    var startRaw := if Pressed(m) then m.posRaw else m.startRaw;
    var start := if Pressed(m) then pos else m.start;
    if m.state != 0 then
      ToCanvasDifference(m.posRaw, startRaw, cv);
      m.(pos := pos, startRaw := startRaw, start := start,
         dragRaw := Subtract(m.posRaw, startRaw), drag := Subtract(pos, start))
    else
      m.(pos := pos, startRaw := startRaw, start := start, dragRaw := Zero, drag := Zero)
  }

  /** `updateEnd`: `state &= ~1`. */
  function UpdateEnd(m: Mouse): (r: Mouse)
    ensures m.state == 3 ==> r.state == 2
    ensures m.state == 1 ==> r.state == 0
    ensures m.state == 0 || m.state == 2 ==> r.state == m.state
    ensures !Pressed(r) && !Released(r) && Held(r) == Held(m)
    ensures r == m.(state := r.state)
  {
    m.(state := m.state & !EdgeBit)
  }

  /** The button events applied in arrival order, the last one last. */
  function ApplyEvents(m: Mouse, es: seq<Event>, cv: Canvas): Mouse
    decreases |es|
  {
    if es == [] then m
    else OnEvent(ApplyEvents(m, es[..|es| - 1], cv), es[|es| - 1], cv)
  }

  /** The last button event among `es`: `Some(true)` for a `mousedown`,
      `Some(false)` for a `mouseup`, `None` when there are only moves. */
  function LastButton(es: seq<Event>): Option<bool>
    decreases |es|
  {
    if es == [] then None
    else if es[|es| - 1].MouseMove? then LastButton(es[..|es| - 1])
    else Some(es[|es| - 1].MouseDown?)
  }

  /** The code a frame sees is decided by the last button event since the
      previous frame; moves never change it. */
  lemma {:induction false} StateAfterEvents(m: Mouse, es: seq<Event>, cv: Canvas)
    ensures LastButton(es) == Some(true) ==> ApplyEvents(m, es, cv).state == 3
    ensures LastButton(es) == Some(false) ==> ApplyEvents(m, es, cv).state == 1
    ensures LastButton(es) == None ==> ApplyEvents(m, es, cv).state == m.state
    decreases |es|
  {
    if es != [] {
      StateAfterEvents(m, es[..|es| - 1], cv);
    }
  }

  /** Edges last one frame: after `updateEnd`, the next frame sees
      `pressed` exactly when a `mousedown` was the last button event since,
      `released` exactly when a `mouseup` was, and neither when only moves
      arrived. */
  lemma EdgesNeedFreshEvents(m0: Mouse, es: seq<Event>, cv: Canvas)
    ensures var m := ApplyEvents(UpdateEnd(m0), es, cv);
      (Pressed(m) <==> LastButton(es) == Some(true)) &&
      (Released(m) <==> LastButton(es) == Some(false)) &&
      (Held(m) <==> LastButton(es) == Some(true) || (LastButton(es) == None && Held(m0)))
  {
    StateAfterEvents(UpdateEnd(m0), es, cv);
  }

  // ---------------------------------------------------------------------
  // The same handlers with the press start latched by `mousedown` itself
  // (see the Findings in README.md).

  /** `mousedown` also records where the press began. */
  function OnEventLatched(m: Mouse, e: Event, cv: Canvas): (r: Mouse)
    ensures r.posRaw == Subtract(e.client, cv.screenPos)
    ensures r.state == OnEvent(m, e, cv).state
    ensures e.MouseDown? ==> r.startRaw == r.posRaw
    ensures !e.MouseDown? ==> r.startRaw == m.startRaw
    ensures r == m.(posRaw := r.posRaw, state := r.state, startRaw := r.startRaw)
  {
    var r := OnEvent(m, e, cv);
    if e.MouseDown? then r.(startRaw := r.posRaw) else r
  }

  /** `updateBegin` measuring the drag from the latched press position,
      so the drag is the movement since the `mousedown` that began it. */
  function UpdateBeginLatched(m: Mouse, cv: Canvas): (r: Mouse)
    ensures r.state == m.state && r.posRaw == m.posRaw && r.startRaw == m.startRaw
    ensures r.pos == ToCanvas(m.posRaw, cv)
    ensures m.state != 0 ==> r.drag == Subtract(r.pos, r.start)
    ensures m.state != 0 ==> r.drag == Scale(Subtract(m.posRaw, m.startRaw), cv.ratio)
    ensures m.state == 0 ==> r.drag == Zero && r.dragRaw == Zero
  {
    var pos := ToCanvas(m.posRaw, cv);
    if m.state != 0 then
      var start := ToCanvas(m.startRaw, cv);
      ToCanvasDifference(m.posRaw, m.startRaw, cv);
      m.(pos := pos, start := start,
         dragRaw := Subtract(m.posRaw, m.startRaw), drag := Subtract(pos, start))
    else
      m.(pos := pos, dragRaw := Zero, drag := Zero)
  }
}
