/** The canvas component's state and its event handlers: the balls array, the
    index of the ball being dragged (-1 for none) and the point where the drag
    started. */
module Component {
  import opened Physics
  import opened Pointer
  import Simulation

  const CanvasWidth: real := 800.0
  const CanvasHeight: real := 800.0

  // The layout the mount effect creates.
  const LayoutCount: nat := 5
  const LayoutRadius: real := 20.0
  const LayoutSpace: real := 50.0

  /** Ball i of the mount-time layout: a row spaced 50 apart starting 50 left of
      the centre, every odd ball lowered by half of sqrt(3) times the radius;
      `sqrt3` stands for the value of Math.sqrt(3). */
  function LayoutBall(i: nat, width: real, height: real, sqrt3: real): (b: Ball)
    ensures b.radius == LayoutRadius && b.dx == 0.0 && b.dy == 0.0
  {
    var rowHeight := sqrt3 * LayoutRadius;
    Ball(width / 2.0 - LayoutSpace + i as real * LayoutSpace,
         height / 2.0 + (if i % 2 == 0 then 0.0 else rowHeight / 2.0),
         LayoutRadius, 0.0, 0.0)
  }

  /** Two centres of the layout are at least 50 apart, whatever the value used
      for sqrt(3): their horizontal offset alone is a nonzero multiple of 50. */
  lemma LayoutSpread(i: nat, j: nat, width: real, height: real, sqrt3: real)
    requires i != j
    ensures var bi, bj := LayoutBall(i, width, height, sqrt3), LayoutBall(j, width, height, sqrt3);
            SqDist(bi.x, bi.y, bj.x, bj.y) >= 2500.0
  {
    var bi, bj := LayoutBall(i, width, height, sqrt3), LayoutBall(j, width, height, sqrt3);
    assert bj.x - bi.x == (j as real - i as real) * LayoutSpace;
    FarApart(bi.x, bi.y, bj.x, bj.y);
  }

  lemma FarApart(x1: real, y1: real, x2: real, y2: real)
    requires x2 - x1 >= 50.0 || x2 - x1 <= -50.0
    ensures SqDist(x1, y1, x2, y2) >= 2500.0
  {
    var e := x2 - x1;
    if e >= 50.0 {
      MulMonotone(e, 50.0, e, e * 50.0, e * e);
    } else {
      MulMonotone(-e, 50.0, -e, -e * 50.0, -e * -e);
      assert -e * -e == e * e;
    }
    SquarePositive(y2 - y1, (y2 - y1) * (y2 - y1));
  }

  /** No two balls of the layout overlap, so the first frame's passes change no velocity. */
  lemma LayoutApart(i: nat, j: nat, width: real, height: real, sqrt3: real)
    requires i != j
    ensures !Overlaps(LayoutBall(i, width, height, sqrt3), LayoutBall(j, width, height, sqrt3))
  {
    LayoutSpread(i, j, width, height, sqrt3);
  }

  /** A press on the centre of ball k of the layout covers ball k and no other. */
  lemma LayoutCentreCovers(k: nat, j: nat, width: real, height: real, sqrt3: real)
    ensures var c := LayoutBall(k, width, height, sqrt3);
            Covers(LayoutBall(j, width, height, sqrt3), c.x, c.y) <==> j == k
  {
    var c, b := LayoutBall(k, width, height, sqrt3), LayoutBall(j, width, height, sqrt3);
    if j != k {
      LayoutSpread(j, k, width, height, sqrt3);
    } else {
      assert SqDist(b.x, b.y, c.x, c.y) == 0.0;
    }
  }

  /** Two balls of radius 20 at rest, their centres 30 apart on a horizontal
      line: in one frame the first does not move (it integrates before any
      correction), the second moves 1 to the right, and the two leave moving
      apart, the first having been corrected twice (once by each ball's pass). */
  lemma TwoBallFrame(heading: Heading)
    requires heading(30.0, 0.0) == (1.0, 0.0)
    requires heading(-31.0, 0.0) == (-1.0, 0.0)
    ensures Frame([Ball(385.0, 400.0, 20.0, 0.0, 0.0), Ball(415.0, 400.0, 20.0, 0.0, 0.0)], CanvasWidth, CanvasHeight, heading)
         == [Ball(385.0, 400.0, 20.0, -1.89, 0.0), Ball(416.0, 400.0, 20.0, 1.881, 0.0)]
  {
    var w, h := CanvasWidth, CanvasHeight;
    var s0 := [Ball(385.0, 400.0, 20.0, 0.0, 0.0), Ball(415.0, 400.0, 20.0, 0.0, 0.0)];
    // ball 0's turn: its pass pushes ball 1 by (1, 0)
    assert s0[0 := Integrate(s0[0])] == s0;
    assert Overlaps(s0[0], s0[1]);
    assert Correction(s0[0], s0[1], heading) == (1.0, 0.0);
    var p0 := [Ball(385.0, 400.0, 20.0, -1.0, 0.0), Ball(415.0, 400.0, 20.0, 1.0, 0.0)];
    assert PairCorrect(s0, 0, 1, heading) == p0;
    assert PassFrom(s0, 0, 0, heading) == p0;
    assert Settle(p0[0], w, h) == Ball(385.0, 400.0, 20.0, -0.99, 0.0);
    var s1 := [Ball(385.0, 400.0, 20.0, -0.99, 0.0), Ball(415.0, 400.0, 20.0, 1.0, 0.0)];
    assert BallStep(s0, 0, w, h, heading) == s1;
    // ball 1's turn: it moves to 416, and its pass against ball 0 corrects by (-0.9, 0)
    var m1 := [Ball(385.0, 400.0, 20.0, -0.99, 0.0), Ball(416.0, 400.0, 20.0, 1.0, 0.0)];
    assert s1[1 := Integrate(s1[1])] == m1;
    assert Overlaps(m1[1], m1[0]);
    assert Correction(m1[1], m1[0], heading) == (-0.9, 0.0);
    var p1 := [Ball(385.0, 400.0, 20.0, -1.89, 0.0), Ball(416.0, 400.0, 20.0, 1.9, 0.0)];
    assert PairCorrect(m1, 1, 0, heading) == p1;
    assert PassFrom(m1, 1, 0, heading) == p1;
    assert Settle(p1[1], w, h) == Ball(416.0, 400.0, 20.0, 1.881, 0.0);
    assert BallStep(s1, 1, w, h, heading) == [Ball(385.0, 400.0, 20.0, -1.89, 0.0), Ball(416.0, 400.0, 20.0, 1.881, 0.0)];
  }

  class TriangleBalls {
    const width: real
    const height: real
    var balls: array<Ball>
    var activeBallIndex: int
    var startX: real
    var startY: real

    /** The active index is -1 or names a ball. */
    ghost predicate Valid()
      reads this
    {
      -1 <= activeBallIndex < balls.Length
    }

    /** The mounted component: the layout's five balls on an 800 by 800
        canvas, and no drag in progress. */
    constructor (sqrt3: real)
      ensures Valid() && fresh(balls)
      ensures width == CanvasWidth && height == CanvasHeight
      ensures balls.Length == LayoutCount
      ensures forall i :: 0 <= i < LayoutCount ==> balls[i] == LayoutBall(i, CanvasWidth, CanvasHeight, sqrt3)
      ensures activeBallIndex == -1 && startX == 0.0 && startY == 0.0
    {
      width, height := CanvasWidth, CanvasHeight;
      var newBalls := new Ball[LayoutCount];
      var i := 0;
      while i < LayoutCount
        invariant 0 <= i <= LayoutCount
        invariant forall k :: 0 <= k < i ==> newBalls[k] == LayoutBall(k, CanvasWidth, CanvasHeight, sqrt3)
      {
        var x := CanvasWidth / 2.0 - LayoutSpace + i as real * LayoutSpace;
        var y := CanvasHeight / 2.0 + (if i % 2 == 0 then 0.0 else sqrt3 * LayoutRadius / 2.0);
        newBalls[i] := Ball(x, y, LayoutRadius, 0.0, 0.0);
        i := i + 1;
      }
      balls := newBalls;
      activeBallIndex, startX, startY := -1, 0.0, 0.0;
    }

    /** One animation frame, run in place on the balls array. */
    method Animate(heading: Heading)
      requires Valid()
      modifies balls
      ensures Valid()
      ensures balls[..] == Frame(old(balls[..]), width, height, heading)
    {
      Simulation.Step(balls, width, height, heading);
    }

    /** Pointer-down at (mouseX, mouseY): on a hit, the first ball hit becomes
        the active one and the press point the anchor; on a miss nothing changes. */
    method MouseDown(mouseX: real, mouseY: real)
      requires Valid()
      modifies this`activeBallIndex, this`startX, this`startY
      ensures Valid()
      ensures var hit := HitTest(balls[..], mouseX, mouseY);
              if hit != -1 then activeBallIndex == hit && startX == mouseX && startY == mouseY
              else activeBallIndex == old(activeBallIndex) && startX == old(startX) && startY == old(startY)
    {
      var clickedBallIndex := HitTest(balls[..], mouseX, mouseY);
      if clickedBallIndex != -1 {
        activeBallIndex := clickedBallIndex;
        startX := mouseX;
        startY := mouseY;
      }
    }

    /** Pointer-move to (mouseX, mouseY): while a ball is active, the balls are
        replaced by a fresh array in which the active ball's velocity is the drag
        velocity from the anchor; otherwise nothing changes. */
    method MouseMove(mouseX: real, mouseY: real)
      requires Valid()
      modifies this`balls
      ensures Valid()
      ensures old(activeBallIndex) == -1 ==> balls == old(balls)
      ensures old(activeBallIndex) != -1 ==>
                var v := DragVelocity(startX, startY, mouseX, mouseY);
                fresh(balls) && balls[..] == Drag(old(balls[..]), activeBallIndex, v.0, v.1)
    {
      if activeBallIndex != -1 {
        var v := DragVelocity(startX, startY, mouseX, mouseY);
        var newBalls := Drag(balls[..], activeBallIndex, v.0, v.1);
        balls := new Ball[|newBalls|](i requires 0 <= i < |newBalls| => newBalls[i]);
      }
    }

    /** Pointer-up: the drag ends; the ball keeps the velocity it was given. */
    method MouseUp()
      requires Valid()
      modifies this`activeBallIndex
      ensures Valid() && activeBallIndex == -1
    {
      if activeBallIndex != -1 {
        activeBallIndex := -1;
      }
    }
  }

  /** Press on the centre of ball k of the freshly mounted layout, move to
      (mx, my) and release: ball k leaves with a tenth of the drag's
      displacement as its velocity, and every other ball is as laid out. */
  method Fling(sqrt3: real, k: nat, mx: real, my: real) returns (flung: seq<Ball>)
    requires k < LayoutCount
    ensures |flung| == LayoutCount
    ensures var c := LayoutBall(k, CanvasWidth, CanvasHeight, sqrt3);
            flung[k] == c.(dx := (c.x - mx) / 10.0, dy := (c.y - my) / 10.0)
    ensures forall i :: 0 <= i < LayoutCount && i != k ==> flung[i] == LayoutBall(i, CanvasWidth, CanvasHeight, sqrt3)
  {
    var canvas := new TriangleBalls(sqrt3);
    var c := LayoutBall(k, CanvasWidth, CanvasHeight, sqrt3);
    forall j | 0 <= j < LayoutCount
      ensures Covers(canvas.balls[j], c.x, c.y) <==> j == k
    {
      LayoutCentreCovers(k, j, CanvasWidth, CanvasHeight, sqrt3);
    }
    HitTestUnique(canvas.balls[..], c.x, c.y, k);
    canvas.MouseDown(c.x, c.y);
    canvas.MouseMove(mx, my);
    canvas.MouseUp();
    flung := canvas.balls[..];
  }
}
