/** The editor's `Rect`: a rectangle given by its centre `pos`, its size
    `w` x `h` and a rotation `angle` in degrees. The source keeps four
    corner vectors in sync by re-running `recalculatePoints` after every
    mutation; here the corners are a pure function of the fields, so they
    can never disagree with them. Corners are modelled for the unrotated
    case (`angle == 0`) only, where no trigonometry is involved. */
module Rects {
  import opened Vectors

  datatype Rect = Rect(pos: V2, w: nat, h: nat, angle: real)

  /** `n >> 1`: half a size, truncated to an integer. */
  function Half(n: nat): (r: nat)
    ensures r + r == n || r + r + 1 == n
  {
    n / 2
  }

  /** Half extents as used for the corners. */
  function HalfW(r: Rect): real {
    Half(r.w) as real
  }

  function HalfH(r: Rect): real {
    Half(r.h) as real
  }

  /** `recalculatePoints` for an unrotated rectangle: the offset
      (w >> 1, h >> 1) is mirrored into the four quadrants and shifted by
      `pos`, giving top-left, top-right, bottom-right, bottom-left in that
      order (y grows downward). */
  function Corners(r: Rect): (c: seq<V2>)
    requires r.angle == 0.0
    ensures |c| == 4
    ensures c[0] == V2(r.pos.x - HalfW(r), r.pos.y - HalfH(r))
    ensures c[1] == V2(r.pos.x + HalfW(r), r.pos.y - HalfH(r))
    ensures c[2] == V2(r.pos.x + HalfW(r), r.pos.y + HalfH(r))
    ensures c[3] == V2(r.pos.x - HalfW(r), r.pos.y + HalfH(r))
    // the left and right edges are vertical, the top and bottom horizontal
    ensures c[0].x == c[3].x <= c[1].x == c[2].x
    ensures c[0].y == c[1].y <= c[2].y == c[3].y
    // opposite corners are mirrored through the centre
    ensures Add(c[0], c[2]) == Scale(r.pos, 2.0) && Add(c[1], c[3]) == Scale(r.pos, 2.0)
  {
    var offset := V2(HalfW(r), HalfH(r));
    var local := [V2(-offset.x, -offset.y), V2(offset.x, -offset.y),
                  V2(offset.x, offset.y), V2(-offset.x, offset.y)];
    [Add(local[0], r.pos), Add(local[1], r.pos), Add(local[2], r.pos), Add(local[3], r.pos)]
  }

  /** The `left` getter: the x of the top-left corner. */
  function Left(r: Rect): (v: real)
    requires r.angle == 0.0
    ensures v == r.pos.x - HalfW(r)
    ensures v <= r.pos.x
  {
    Corners(r)[0].x
  }

  /** The `top` getter: the y of the top-left corner. */
  function Top(r: Rect): (v: real)
    requires r.angle == 0.0
    ensures v == r.pos.y - HalfH(r)
    ensures v <= r.pos.y
  {
    Corners(r)[0].y
  }

  /** The `right` getter: the x of the bottom-right corner. */
  function Right(r: Rect): (v: real)
    requires r.angle == 0.0
    ensures v == r.pos.x + HalfW(r)
    ensures v >= r.pos.x
  {
    Corners(r)[2].x
  }

  /** The `bottom` getter: the y of the bottom-right corner. */
  function Bottom(r: Rect): (v: real)
    requires r.angle == 0.0
    ensures v == r.pos.y + HalfH(r)
    ensures v >= r.pos.y
  {
    Corners(r)[2].y
  }

  /** The point is not on the negative side of the edge from corner `j`
      to the next corner (wrapping round after the fourth). */
  predicate EdgeAccepts(c: seq<V2>, p: V2, j: nat)
    requires |c| == 4 && j < 4
  {
    GetSide(c[j], c[(j + 1) % 4], p) >= 0.0
  }

  /** The loop of `containsV2` from edge `i` on: it stops at the first
      edge that has the point on its negative side. */
  function EdgesFrom(c: seq<V2>, p: V2, i: nat): (inside: bool)
    requires |c| == 4 && i <= 4
    decreases 4 - i
    ensures inside <==> forall j :: i <= j < 4 ==> EdgeAccepts(c, p, j)
  {
    if i == 4 then true
    else if !EdgeAccepts(c, p, i) then false
    else EdgesFrom(c, p, i + 1)
  }

  /** `containsV2`, on the rectangle it is called on. The source reads the
      corners of the global `testRect` instead of `this` (see
      ContainsAsWritten); this is the evidently intended test. For an
      unrotated rectangle it is the bounds test, except that an edge of
      length zero constrains nothing (see CornerTestIsBoundsTest). */
  function ContainsV2(r: Rect, p: V2): (inside: bool)
    requires r.angle == 0.0
    ensures var c := Corners(r);
      inside <==>
        GetSide(c[0], c[1], p) >= 0.0 && GetSide(c[1], c[2], p) >= 0.0 &&
        GetSide(c[2], c[3], p) >= 0.0 && GetSide(c[3], c[0], p) >= 0.0
    ensures inside <==>
      (HalfH(r) > 0.0 ==> Left(r) <= p.x <= Right(r)) &&
      (HalfW(r) > 0.0 ==> Top(r) <= p.y <= Bottom(r))
  {
    CornerTestIsFourEdges(r, p);
    CornerTestIsBoundsTest(r, p);
    EdgesFrom(Corners(r), p, 0)
  }

  /** `containsV2` as the source writes it: whatever rectangle it is called
      on, it tests the corners of the global `testRect`. */
  function ContainsAsWritten(self: Rect, testRect: Rect, p: V2): (inside: bool)
    requires testRect.angle == 0.0
    ensures inside == ContainsV2(testRect, p)
  {
    EdgesFrom(Corners(testRect), p, 0)
  }

  /** `rotate(deg)` */
  function Rotate(r: Rect, deg: real): (r': Rect)
    ensures r'.pos == r.pos && r'.w == r.w && r'.h == r.h
    ensures r'.angle - r.angle == deg
  {
    r.(angle := r.angle + deg)
  }

  /** `setPos(x, y)`: the corners follow the new centre, the extents stay. */
  function SetPos(r: Rect, x: real, y: real): (r': Rect)
    ensures r'.pos == V2(x, y)
    ensures r'.w == r.w && r'.h == r.h && r'.angle == r.angle
    ensures r.angle == 0.0 ==>
      Add(Corners(r')[0], Corners(r')[2]) == Scale(V2(x, y), 2.0) &&
      Right(r') - Left(r') == Right(r) - Left(r) &&
      Bottom(r') - Top(r') == Bottom(r) - Top(r)
  {
    r.(pos := V2(x, y))
  }

  /** `setSize(w, h)`: the corners stay centred on `pos` and span the new
      size, rounded down to an even number by the `>> 1`. */
  function SetSize(r: Rect, w: nat, h: nat): (r': Rect)
    ensures r'.w == w && r'.h == h
    ensures r'.pos == r.pos && r'.angle == r.angle
    ensures r.angle == 0.0 ==>
      Add(Corners(r')[0], Corners(r')[2]) == Scale(r.pos, 2.0) &&
      Right(r') - Left(r') == (w - w % 2) as real &&
      Bottom(r') - Top(r') == (h - h % 2) as real
  {
    r.(w := w, h := h)
  }

  /** `set(x, y, w, h)` */
  function Set(r: Rect, x: real, y: real, w: nat, h: nat): (r': Rect)
    ensures r' == SetPos(SetSize(r, w, h), x, y)
  {
    SetSize(SetPos(r, x, y), w, h)
  }

  /** `move(x, y)`: the centre is shifted at any angle, so at angle 0 every
      corner is shifted by the same offset. */
  function Move(r: Rect, dx: real, dy: real): (r': Rect)
    ensures r'.pos == V2(r.pos.x + dx, r.pos.y + dy)
    ensures r'.w == r.w && r'.h == r.h && r'.angle == r.angle
    ensures r.angle == 0.0 ==>
      forall i :: 0 <= i < 4 ==> Corners(r')[i] == Add(Corners(r)[i], V2(dx, dy))
  {
    r.(pos := V2(r.pos.x + dx, r.pos.y + dy))
  }

  /** `moveV2(v)` */
  function MoveV2(r: Rect, v: V2): (r': Rect)
    ensures r'.pos == Add(r.pos, v)
    ensures r'.w == r.w && r'.h == r.h && r'.angle == r.angle
  {
    Move(r, v.x, v.y)
  }

  /** Multiplying by a nonnegative factor keeps or clears the sign. */
  lemma ScaledSign(s: real, k: real, d: real)
    requires s == k * d
    requires k >= 0.0
    ensures k > 0.0 ==> (s >= 0.0 <==> d >= 0.0)
    ensures k == 0.0 ==> s == 0.0
  {
    if k > 0.0 && d < 0.0 {
      assert k * d < 0.0;
    }
  }

  /** The corner loop checks all four edges. */
  lemma CornerTestIsFourEdges(r: Rect, p: V2)
    requires r.angle == 0.0
    ensures var c := Corners(r);
      EdgesFrom(c, p, 0) <==>
        GetSide(c[0], c[1], p) >= 0.0 && GetSide(c[1], c[2], p) >= 0.0 &&
        GetSide(c[2], c[3], p) >= 0.0 && GetSide(c[3], c[0], p) >= 0.0
  {
    var c := Corners(r);
    assert EdgeAccepts(c, p, 3) <==> GetSide(c[3], c[0], p) >= 0.0;
    assert EdgesFrom(c, p, 0) <==>
      EdgeAccepts(c, p, 0) && EdgeAccepts(c, p, 1) && EdgeAccepts(c, p, 2) && EdgeAccepts(c, p, 3);
  }

  /** The top edge accepts exactly the points at or below `top`; when the
      rectangle has zero half width it accepts every point. */
  lemma TopEdge(r: Rect, p: V2)
    requires r.angle == 0.0
    ensures HalfW(r) > 0.0 ==> (GetSide(Corners(r)[0], Corners(r)[1], p) >= 0.0 <==> p.y >= Top(r))
    ensures HalfW(r) == 0.0 ==> GetSide(Corners(r)[0], Corners(r)[1], p) >= 0.0
  {
    var c := Corners(r);
    var k := 2.0 * HalfW(r);
    var s := GetSide(c[0], c[1], p);
    calc {
      s;
    ==
      (c[1].x - c[0].x) * (p.y - c[0].y) - (c[1].y - c[0].y) * (p.x - c[0].x);
    ==
      { assert c[1].x - c[0].x == k; assert c[1].y - c[0].y == 0.0; }
      k * (p.y - c[0].y) - 0.0 * (p.x - c[0].x);
    ==
      k * (p.y - Top(r));
    }
    ScaledSign(s, k, p.y - Top(r));
  }

  /** The right edge accepts exactly the points at or left of `right`. */
  lemma RightEdge(r: Rect, p: V2)
    requires r.angle == 0.0
    ensures HalfH(r) > 0.0 ==> (GetSide(Corners(r)[1], Corners(r)[2], p) >= 0.0 <==> p.x <= Right(r))
    ensures HalfH(r) == 0.0 ==> GetSide(Corners(r)[1], Corners(r)[2], p) >= 0.0
  {
    var c := Corners(r);
    var k := 2.0 * HalfH(r);
    var s := GetSide(c[1], c[2], p);
    calc {
      s;
    ==
      (c[2].x - c[1].x) * (p.y - c[1].y) - (c[2].y - c[1].y) * (p.x - c[1].x);
    ==
      { assert c[2].x - c[1].x == 0.0; assert c[2].y - c[1].y == k; }
      0.0 * (p.y - c[1].y) - k * (p.x - c[1].x);
    ==
      k * (Right(r) - p.x);
    }
    ScaledSign(s, k, Right(r) - p.x);
  }

  /** The bottom edge accepts exactly the points at or above `bottom`. */
  lemma BottomEdge(r: Rect, p: V2)
    requires r.angle == 0.0
    ensures HalfW(r) > 0.0 ==> (GetSide(Corners(r)[2], Corners(r)[3], p) >= 0.0 <==> p.y <= Bottom(r))
    ensures HalfW(r) == 0.0 ==> GetSide(Corners(r)[2], Corners(r)[3], p) >= 0.0
  {
    var c := Corners(r);
    var k := 2.0 * HalfW(r);
    var s := GetSide(c[2], c[3], p);
    calc {
      s;
    ==
      (c[3].x - c[2].x) * (p.y - c[2].y) - (c[3].y - c[2].y) * (p.x - c[2].x);
    ==
      { assert c[3].x - c[2].x == -k; assert c[3].y - c[2].y == 0.0; }
      (-k) * (p.y - c[2].y) - 0.0 * (p.x - c[2].x);
    ==
      k * (Bottom(r) - p.y);
    }
    ScaledSign(s, k, Bottom(r) - p.y);
  }

  /** The left edge accepts exactly the points at or right of `left`. */
  lemma LeftEdge(r: Rect, p: V2)
    requires r.angle == 0.0
    ensures HalfH(r) > 0.0 ==> (GetSide(Corners(r)[3], Corners(r)[0], p) >= 0.0 <==> p.x >= Left(r))
    ensures HalfH(r) == 0.0 ==> GetSide(Corners(r)[3], Corners(r)[0], p) >= 0.0
  {
    var c := Corners(r);
    var k := 2.0 * HalfH(r);
    var s := GetSide(c[3], c[0], p);
    calc {
      s;
    ==
      (c[0].x - c[3].x) * (p.y - c[3].y) - (c[0].y - c[3].y) * (p.x - c[3].x);
    ==
      { assert c[0].x - c[3].x == 0.0; assert c[0].y - c[3].y == -k; }
      0.0 * (p.y - c[3].y) - (-k) * (p.x - c[3].x);
    ==
      k * (p.x - Left(r));
    }
    ScaledSign(s, k, p.x - Left(r));
  }

  /** The four-edge test of an unrotated rectangle is the bounds test
      `left <= x <= right && top <= y <= bottom`, except that an edge of
      length zero constrains nothing: a rectangle less than 2 wide accepts
      any y and one less than 2 high accepts any x. */
  lemma CornerTestIsBoundsTest(r: Rect, p: V2)
    requires r.angle == 0.0
    ensures EdgesFrom(Corners(r), p, 0) <==>
      (HalfH(r) > 0.0 ==> Left(r) <= p.x <= Right(r)) &&
      (HalfW(r) > 0.0 ==> Top(r) <= p.y <= Bottom(r))
  {
    CornerTestIsFourEdges(r, p);
    TopEdge(r, p);
    RightEdge(r, p);
    BottomEdge(r, p);
    LeftEdge(r, p);
  }

  /** For a rectangle at least 2 x 2 the test is exactly the bounds test. */
  lemma ContainsV2OfProperRect(r: Rect, p: V2)
    requires r.angle == 0.0 && r.w >= 2 && r.h >= 2
    ensures ContainsV2(r, p) <==> Left(r) <= p.x <= Right(r) && Top(r) <= p.y <= Bottom(r)
  {
  }

  /** A rectangle smaller than 2 x 2 (such as the default 0 x 0 one)
      contains every point. */
  lemma ContainsV2OfTinyRect(r: Rect, p: V2)
    requires r.angle == 0.0 && r.w < 2 && r.h < 2
    ensures ContainsV2(r, p)
  {
  }

  /** Moving the rectangle and the point together keeps containment. */
  lemma ContainsV2FollowsMove(r: Rect, p: V2, dx: real, dy: real)
    requires r.angle == 0.0
    ensures ContainsV2(Move(r, dx, dy), Add(p, V2(dx, dy))) == ContainsV2(r, p)
  {
  }

  /** As written, the receiver plays no part in the answer. */
  lemma ContainsAsWrittenIgnoresReceiver(a: Rect, b: Rect, testRect: Rect, p: V2)
    requires testRect.angle == 0.0
    ensures ContainsAsWritten(a, testRect, p) == ContainsAsWritten(b, testRect, p)
  {
  }

  /** Input that shows the discrepancy: the caption rectangle at
      (250, -100), asked about its own centre, answers with the global
      test rectangle at (800, 200), which does not contain that point. */
  lemma ContainsAsWrittenMissesOwnCentre()
    ensures var caption := Rect(V2(250.0, -100.0), 100, 100, 0.0);
            var testRect := Rect(V2(800.0, 200.0), 200, 100, 0.0);
            ContainsV2(caption, caption.pos) && !ContainsAsWritten(caption, testRect, caption.pos)
  {
    var caption := Rect(V2(250.0, -100.0), 100, 100, 0.0);
    var testRect := Rect(V2(800.0, 200.0), 200, 100, 0.0);
    ContainsV2OfProperRect(caption, caption.pos);
    ContainsV2OfProperRect(testRect, caption.pos);
  }

  /** Rotating back undoes a rotation. */
  lemma RotateInverse(r: Rect, deg: real)
    ensures Rotate(Rotate(r, deg), -deg) == r
  {
  }

  /** Moving back undoes a move. */
  lemma MoveInverse(r: Rect, dx: real, dy: real)
    ensures Move(Move(r, dx, dy), -dx, -dy) == r
  {
  }

  /** Two `moveV2` steps add up to one by the sum, and moving by `-v`
      undoes moving by `v`. */
  lemma MoveV2Composes(r: Rect, v: V2, u: V2)
    ensures MoveV2(MoveV2(r, v), u) == MoveV2(r, Add(v, u))
    ensures MoveV2(MoveV2(r, v), V2(-v.x, -v.y)) == r
  {
  }
}
