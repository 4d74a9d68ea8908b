/** The balls of the canvas and the rules one animation frame applies to them,
    as pure functions over the ball list. The in-place frame loop in
    simulation.dfy is proved equal to `Frame` below. */
module Physics {

  /** One ball: centre (x, y), radius and velocity (dx, dy) in canvas units per frame. */
  datatype Ball = Ball(x: real, y: real, radius: real, dx: real, dy: real)

  /** For the offset (dx, dy) from one centre to another, the pair
      (cos(atan2(dy, dx)), sin(atan2(dy, dx))). The trigonometry itself is not
      modelled: every frame receives this function from its caller. */
  type Heading = (real, real) -> (real, real)

  function Abs(v: real): (r: real)
    ensures r >= 0.0 && (r == v || r == -v)
  {
    if v < 0.0 then -v else v
  }

  /** The squared distance between the points (x1, y1) and (x2, y2). */
  function SqDist(x1: real, y1: real, x2: real, y2: real): real
  {
    (x2 - x1) * (x2 - x1) + (y2 - y1) * (y2 - y1)
  }

  /** `Math.sqrt(dsq) <= r`, written without the square root. */
  predicate WithinSq(dsq: real, r: real)
  {
    r >= 0.0 && dsq <= r * r
  }

  /** `Math.sqrt(dsq) < m`, written without the square root. */
  predicate BelowSq(dsq: real, m: real)
  {
    m > 0.0 && dsq < m * m
  }

  /** For a distance d whose square is dsq, `d <= r` holds exactly when the squared test does. */
  lemma SqrtLe(d: real, dsq: real, r: real)
    requires 0.0 <= d && d * d == dsq
    ensures d <= r <==> WithinSq(dsq, r)
  {
    if d <= r {
      MulMonotone(d, d, r, d * d, d * r);
      MulMonotone(r, d, r, r * d, r * r);
      assert r * d == d * r;
    } else if r >= 0.0 {
      MulMonotone(r, r, d, r * r, r * d);
      MulStrict(d, r, d, d * r, d * d);
      assert r * d == d * r;
    }
  }

  /** For a distance d whose square is dsq, `d < m` holds exactly when the squared test does. */
  lemma SqrtLt(d: real, dsq: real, m: real)
    requires 0.0 <= d && d * d == dsq
    ensures d < m <==> BelowSq(dsq, m)
  {
    if d < m {
      MulMonotone(d, d, m, d * d, d * m);
      MulStrict(m, d, m, m * d, m * m);
      assert m * d == d * m;
    } else if m > 0.0 {
      MulMonotone(m, m, d, m * m, m * d);
      MulMonotone(d, m, d, d * m, d * d);
      assert m * d == d * m;
    }
  }

  // The products are passed in by name: the solver then combines these facts
  // linearly instead of attempting nonlinear reasoning.

  lemma MulMonotone(a: real, b: real, c: real, ab: real, ac: real)
    requires a >= 0.0 && b <= c && ab == a * b && ac == a * c
    ensures ab <= ac
  {
  }

  lemma MulStrict(a: real, b: real, c: real, ab: real, ac: real)
    requires a > 0.0 && b < c && ab == a * b && ac == a * c
    ensures ab < ac
  {
  }

  lemma SquarePositive(a: real, aa: real)
    requires aa == a * a
    ensures aa >= 0.0
    ensures a != 0.0 ==> aa > 0.0
    ensures a == 0.0 ==> aa == 0.0
  {
    if a > 0.0 {
      MulStrict(a, 0.0, a, a * 0.0, aa);
    } else if a < 0.0 {
      MulStrict(-a, 0.0, -a, -a * 0.0, aa);
    }
  }

  /** Position and radius agree: only the velocity may differ. */
  predicate SameBody(a: Ball, b: Ball)
  {
    a.x == b.x && a.y == b.y && a.radius == b.radius
  }

  // ---------------------------------------------------------------------------
  // The pair pass

  /** The centres of b and o are closer than the sum of the radii. */
  predicate Overlaps(b: Ball, o: Ball): (r: bool)
    ensures r ==> b.radius + o.radius > 0.0
    ensures b.x == o.x && b.y == o.y ==> (r <==> b.radius + o.radius > 0.0)
  {
    var m := b.radius + o.radius;
    SquarePositive(m, m * m);
    BelowSq(SqDist(b.x, b.y, o.x, o.y), m)
  }

  /** The correction (ax, ay): a tenth of the way from o's centre to the point
      at distance `b.radius + o.radius` from b's centre, in o's direction. */
  function Correction(b: Ball, o: Ball, heading: Heading): (r: (real, real))
    ensures var bearing := heading(o.x - b.x, o.y - b.y);
            o.x + 10.0 * r.0 == b.x + bearing.0 * (b.radius + o.radius) &&
            o.y + 10.0 * r.1 == b.y + bearing.1 * (b.radius + o.radius)
  {
    var minDistance := b.radius + o.radius;
    var bearing := heading(o.x - b.x, o.y - b.y);
    ((b.x + bearing.0 * minDistance - o.x) * 0.1, (b.y + bearing.1 * minDistance - o.y) * 0.1)
  }

  /** Takes (ax, ay) from ball i's velocity and gives it to ball j's. */
  function Transfer(s: seq<Ball>, i: nat, j: nat, ax: real, ay: real): (r: seq<Ball>)
    requires i < |s| && j < |s| && i != j
    ensures |r| == |s|
    ensures forall k :: 0 <= k < |s| ==> SameBody(r[k], s[k])
    ensures forall k :: 0 <= k < |s| && k != i && k != j ==> r[k] == s[k]
    ensures r[i].dx + r[j].dx == s[i].dx + s[j].dx && r[i].dy + r[j].dy == s[i].dy + s[j].dy
    ensures r[j].dx - s[j].dx == ax && r[j].dy - s[j].dy == ay
  {
    s[i := s[i].(dx := s[i].dx - ax, dy := s[i].dy - ay)]
     [j := s[j].(dx := s[j].dx + ax, dy := s[j].dy + ay)]
  }

  /** Ball i against ball j: when they are distinct and overlap, the correction
      is taken from i's velocity and given to j's; otherwise nothing changes. */
  function PairCorrect(s: seq<Ball>, i: nat, j: nat, heading: Heading): (r: seq<Ball>)
    requires i < |s| && j < |s|
    ensures |r| == |s|
    ensures forall k :: 0 <= k < |s| ==> SameBody(r[k], s[k])
    ensures forall k :: 0 <= k < |s| && k != i && k != j ==> r[k] == s[k]
    ensures r[i].dx + r[j].dx == s[i].dx + s[j].dx
    ensures r[i].dy + r[j].dy == s[i].dy + s[j].dy
    ensures i == j || !Overlaps(s[i], s[j]) ==> r == s
    ensures i != j && Overlaps(s[i], s[j]) ==>
              r[j].dx - s[j].dx == Correction(s[i], s[j], heading).0 &&
              r[j].dy - s[j].dy == Correction(s[i], s[j], heading).1
  {
    if i != j && Overlaps(s[i], s[j]) then
      var ab := Correction(s[i], s[j], heading);
      Transfer(s, i, j, ab.0, ab.1)
    else
      s
  }

  /** The inner pass of ball i against balls j, j + 1, ..., each pair seeing the
      velocities left by the pairs before it. */
  function PassFrom(s: seq<Ball>, i: nat, j: nat, heading: Heading): (r: seq<Ball>)
    requires i < |s| && j <= |s|
    decreases |s| - j
    ensures |r| == |s|
    ensures forall k :: 0 <= k < |s| ==> SameBody(r[k], s[k])
  {
    if j == |s| then s else PassFrom(PairCorrect(s, i, j, heading), i, j + 1, heading)
  }

  /** The summed velocity of all balls. */
  function Momentum(s: seq<Ball>): (real, real)
  {
    if s == [] then (0.0, 0.0)
    else
      var (mx, my) := Momentum(s[1..]);
      (s[0].dx + mx, s[0].dy + my)
  }

  lemma {:induction false} MomentumUpdate(s: seq<Ball>, k: nat, b: Ball)
    requires k < |s|
    ensures Momentum(s[k := b]).0 == Momentum(s).0 - s[k].dx + b.dx
    ensures Momentum(s[k := b]).1 == Momentum(s).1 - s[k].dy + b.dy
  {
    if k == 0 {
      assert s[k := b][1..] == s[1..];
    } else {
      assert s[k := b][1..] == s[1..][k - 1 := b];
      MomentumUpdate(s[1..], k - 1, b);
    }
  }

  /** One pair correction leaves the summed velocity of all balls unchanged. */
  lemma PairConservesMomentum(s: seq<Ball>, i: nat, j: nat, heading: Heading)
    requires i < |s| && j < |s|
    ensures Momentum(PairCorrect(s, i, j, heading)) == Momentum(s)
  {
    if i != j && Overlaps(s[i], s[j]) {
      var ab := Correction(s[i], s[j], heading);
      TransferConservesMomentum(s, i, j, ab.0, ab.1);
    }
  }

  /** Taking (ax, ay) from ball i's velocity and giving it to ball j's keeps the sum. */
  lemma TransferConservesMomentum(s: seq<Ball>, i: nat, j: nat, ax: real, ay: real)
    requires i < |s| && j < |s| && i != j
    ensures Momentum(Transfer(s, i, j, ax, ay)) == Momentum(s)
  {
    var bi := s[i].(dx := s[i].dx - ax, dy := s[i].dy - ay);
    var bj := s[j].(dx := s[j].dx + ax, dy := s[j].dy + ay);
    var t := s[i := bi];
    assert t[j] == s[j];
    assert Transfer(s, i, j, ax, ay) == t[j := bj];
    MomentumUpdate(s, i, bi);
    MomentumUpdate(t, j, bj);
    var m, mt, mr := Momentum(s), Momentum(t), Momentum(t[j := bj]);
    assert mr.0 == m.0 && mr.1 == m.1;
  }

  /** A whole inner pass leaves the summed velocity of all balls unchanged. */
  lemma {:induction false} PassConservesMomentum(s: seq<Ball>, i: nat, j: nat, heading: Heading)
    requires i < |s| && j <= |s|
    decreases |s| - j
    ensures Momentum(PassFrom(s, i, j, heading)) == Momentum(s)
  {
    if j < |s| {
      PairConservesMomentum(s, i, j, heading);
      PassConservesMomentum(PairCorrect(s, i, j, heading), i, j + 1, heading);
    }
  }

  /** (c, s) is the unit vector pointing along the offset (ex, ey); for the
      zero offset every unit vector qualifies, atan2(0, 0) = 0 giving (1, 0). */
  ghost predicate IsBearing(ex: real, ey: real, c: real, s: real)
  {
    c * c + s * s == 1.0 && c * ey == s * ex && c * ex + s * ey >= 0.0
  }

  /** How far the correction o receives points away from b: its dot product
      with the offset from b's centre to o's. */
  function Push(b: Ball, o: Ball, heading: Heading): real
  {
    var a := Correction(b, o, heading);
    a.0 * (o.x - b.x) + a.1 * (o.y - b.y)
  }

  /** With a true bearing, the correction given to o points away from b:
      the pair is pushed apart, strictly so unless the centres coincide. */
  lemma CorrectionPushesApart(b: Ball, o: Ball, heading: Heading)
    requires Overlaps(b, o)
    requires IsBearing(o.x - b.x, o.y - b.y, heading(o.x - b.x, o.y - b.y).0, heading(o.x - b.x, o.y - b.y).1)
    ensures Push(b, o, heading) >= 0.0
    ensures Push(b, o, heading) > 0.0 <==> (o.x, o.y) != (b.x, b.y)
  {
    var ex, ey := o.x - b.x, o.y - b.y;
    var c, s := heading(ex, ey).0, heading(ex, ey).1;
    var m := b.radius + o.radius;
    var d, dd, dsq := c * ex + s * ey, (c * ex + s * ey) * (c * ex + s * ey), ex * ex + ey * ey;
    assert dsq == SqDist(b.x, b.y, o.x, o.y);
    BearingLength(c, s, ex, ey, d, dd, dsq);
    SqrtLt(d, dsq, m);
    var ax, ay := (c * m - ex) * 0.1, (s * m - ey) * 0.1;
    assert Correction(b, o, heading).0 == ax;
    assert Correction(b, o, heading).1 == ay;
    var push, p := ax * ex + ay * ey, 0.1 * d * (m - d);
    assert Push(b, o, heading) == push;
    DotIdentity(c, s, m, ex, ey, ax, ay, d, dd, dsq, push, p);
    PositiveProduct(d, m - d, p);
    SquarePositive(d, dd);
    SquaresZero(ex, ey, dsq);
  }

  /** The component of (ex, ey) along its bearing is its length. */
  lemma BearingLength(c: real, s: real, ex: real, ey: real, d: real, dd: real, dsq: real)
    requires IsBearing(ex, ey, c, s)
    requires d == c * ex + s * ey && dd == d * d && dsq == ex * ex + ey * ey
    ensures dd == dsq
  {
    // Lagrange's identity, whose second square vanishes for a bearing
    assert (c * ex + s * ey) * (c * ex + s * ey) + (c * ey - s * ex) * (c * ey - s * ex)
        == (c * c + s * s) * (ex * ex + ey * ey);
  }

  lemma DotIdentity(c: real, s: real, m: real, ex: real, ey: real,
                    ax: real, ay: real, d: real, dd: real, dsq: real, push: real, p: real)
    requires ax == (c * m - ex) * 0.1 && ay == (s * m - ey) * 0.1
    requires d == c * ex + s * ey && dd == d * d && dsq == ex * ex + ey * ey
    requires push == ax * ex + ay * ey && p == 0.1 * d * (m - d)
    ensures push == p + 0.1 * (dd - dsq)
  {
  }

  lemma PositiveProduct(d: real, e: real, p: real)
    requires d >= 0.0 && e > 0.0 && p == 0.1 * d * e
    ensures p >= 0.0
    ensures p > 0.0 <==> d != 0.0
  {
    if d > 0.0 {
      MulStrict(e, 0.0, 0.1 * d, e * 0.0, e * (0.1 * d));
      assert e * (0.1 * d) == 0.1 * d * e;
    }
  }

  lemma SquaresZero(ex: real, ey: real, dsq: real)
    requires dsq == ex * ex + ey * ey
    ensures dsq >= 0.0
    ensures dsq == 0.0 <==> ex == 0.0 && ey == 0.0
  {
    SquarePositive(ex, ex * ex);
    SquarePositive(ey, ey * ey);
  }

  // ---------------------------------------------------------------------------
  // Walls, damping and the deadzone

  /** The ball's edge touches or crosses the wall at 0 or at `size` along this axis. */
  predicate HitsWall(p: real, r: real, size: real)
  {
    p - r <= 0.0 || p + r >= size
  }

  /** Reflection off the walls: each axis reverses and scales by 0.8 independently. */
  function Reflected(b: Ball, width: real, height: real): (r: Ball)
    ensures SameBody(r, b)
    ensures Abs(r.dx) <= Abs(b.dx) && Abs(r.dy) <= Abs(b.dy)
  {
    b.(dx := if HitsWall(b.x, b.radius, width) then b.dx * -0.8 else b.dx,
       dy := if HitsWall(b.y, b.radius, height) then b.dy * -0.8 else b.dy)
  }

  /** Friction: the speed on each axis drops to 0.99 of itself. */
  function Damped(b: Ball): (r: Ball)
    ensures SameBody(r, b)
    ensures Abs(r.dx) == 0.99 * Abs(b.dx) && Abs(r.dy) == 0.99 * Abs(b.dy)
  {
    b.(dx := b.dx * 0.99, dy := b.dy * 0.99)
  }

  function Snap(v: real): real
  {
    if Abs(v) < 0.1 then 0.0 else v
  }

  /** The deadzone: any velocity component below 0.1 in size becomes 0. */
  function Snapped(b: Ball): (r: Ball)
    ensures SameBody(r, b)
    ensures OutsideDeadzone(r.dx) && OutsideDeadzone(r.dy)
  {
    b.(dx := Snap(b.dx), dy := Snap(b.dy))
  }

  /** The end of a ball's turn: reflect, damp, snap. */
  function Settle(b: Ball, width: real, height: real): (r: Ball)
    ensures SameBody(r, b)
  {
    Snapped(Damped(Reflected(b, width, height)))
  }

  /** A velocity component outside the deadzone: exactly zero or at least 0.1 in size. */
  predicate OutsideDeadzone(v: real)
  {
    v == 0.0 || Abs(v) >= 0.1
  }

  /** On each axis, reflection reverses the direction of a moving ball exactly
      when its edge touches that axis' walls, and then keeps 0.8 of its speed;
      the x rule depends only on x, the radius and the width, the y rule only on
      y, the radius and the height. */
  lemma ReflectRule(b: Ball, width: real, height: real)
    ensures var r := Reflected(b, width, height);
            && (r.dx * b.dx < 0.0 <==> HitsWall(b.x, b.radius, width) && b.dx != 0.0)
            && Abs(r.dx) == (if HitsWall(b.x, b.radius, width) then 0.8 * Abs(b.dx) else Abs(b.dx))
            && (r.dy * b.dy < 0.0 <==> HitsWall(b.y, b.radius, height) && b.dy != 0.0)
            && Abs(r.dy) == (if HitsWall(b.y, b.radius, height) then 0.8 * Abs(b.dy) else Abs(b.dy))
    ensures forall y', dy', height' :: Reflected(b.(y := y', dy := dy'), width, height').dx == Reflected(b, width, height).dx
    ensures forall x', dx', width' :: Reflected(b.(x := x', dx := dx'), width', height).dy == Reflected(b, width, height).dy
  {

  }

  /** After the snap every component is outside the deadzone, and the snap only
      zeroes components that were inside it. */
  lemma SnapLeavesNoDrift(b: Ball)
    ensures OutsideDeadzone(Snapped(b).dx) && OutsideDeadzone(Snapped(b).dy)
    ensures Snapped(b).dx == (if Abs(b.dx) < 0.1 then 0.0 else b.dx)
    ensures Snapped(b).dy == (if Abs(b.dy) < 0.1 then 0.0 else b.dy)
  {
  }

  /** Every component the settle step produces is 0, 0.99 times its input or
      -0.792 times its input, so it never increases speed on either axis. */
  lemma SettleNeverSpeedsUp(b: Ball, width: real, height: real)
    ensures var r := Settle(b, width, height);
            && (r.dx == 0.0 || r.dx == 0.99 * b.dx || r.dx == -0.792 * b.dx)
            && (r.dy == 0.0 || r.dy == 0.99 * b.dy || r.dy == -0.792 * b.dy)
            && Abs(r.dx) <= Abs(b.dx) && Abs(r.dy) <= Abs(b.dy)
            && OutsideDeadzone(r.dx) && OutsideDeadzone(r.dy)
  {

  }

  // ---------------------------------------------------------------------------
  // One ball's turn and the whole frame

  /** Explicit Euler integration with a time step of one frame. */
  function Integrate(b: Ball): (r: Ball)
    ensures r.radius == b.radius && r.dx == b.dx && r.dy == b.dy
    ensures r.x - b.x == b.dx && r.y - b.y == b.dy
  {
    b.(x := b.x + b.dx, y := b.y + b.dy)
  }

  /** Ball i's turn: move it, run its pass against every ball, settle it. */
  function BallStep(s: seq<Ball>, i: nat, width: real, height: real, heading: Heading): (r: seq<Ball>)
    requires i < |s|
    ensures |r| == |s|
    ensures forall k :: 0 <= k < |s| ==> r[k].radius == s[k].radius
    ensures r[i].x == s[i].x + s[i].dx && r[i].y == s[i].y + s[i].dy
    ensures forall k :: 0 <= k < |s| && k != i ==> r[k].x == s[k].x && r[k].y == s[k].y
  {
    var passed := PassFrom(s[i := Integrate(s[i])], i, 0, heading);
    passed[i := Settle(passed[i], width, height)]
  }

  /** The turns of balls i, i + 1, ... in list order. */
  function StepFrom(s: seq<Ball>, i: nat, width: real, height: real, heading: Heading): (r: seq<Ball>)
    requires i <= |s|
    decreases |s| - i
    ensures |r| == |s|
    ensures forall k :: 0 <= k < |s| ==> r[k].radius == s[k].radius
  {
    if i == |s| then s else StepFrom(BallStep(s, i, width, height, heading), i + 1, width, height, heading)
  }

  /** One animation frame over the whole list: the turns of all balls in list
      order. The last ball to move ends it outside the deadzone. */
  function Frame(s: seq<Ball>, width: real, height: real, heading: Heading): (r: seq<Ball>)
    ensures |r| == |s|
    ensures |s| > 0 ==> OutsideDeadzone(r[|s| - 1].dx) && OutsideDeadzone(r[|s| - 1].dy)
  {
    if s == [] then s
    else
      FrameSettlesLast(s, 0, width, height, heading);
      StepFrom(s, 0, width, height, heading)
  }

  /** A frame keeps the number of balls and every radius. */
  lemma FrameKeepsBalls(s: seq<Ball>, width: real, height: real, heading: Heading)
    ensures |Frame(s, width, height, heading)| == |s|
    ensures forall k :: 0 <= k < |s| ==> Frame(s, width, height, heading)[k].radius == s[k].radius
  {
  }

  /** Right after its own turn, a ball's velocity is outside the deadzone. */
  lemma BallStepSettles(s: seq<Ball>, i: nat, width: real, height: real, heading: Heading)
    requires i < |s|
    ensures OutsideDeadzone(BallStep(s, i, width, height, heading)[i].dx)
    ensures OutsideDeadzone(BallStep(s, i, width, height, heading)[i].dy)
  {

  }

  /** At the end of a frame the last ball is outside the deadzone (earlier balls
      can be nudged back into it by the passes of the balls after them). */
  lemma {:induction false} FrameSettlesLast(s: seq<Ball>, i: nat, width: real, height: real, heading: Heading)
    requires i < |s|
    decreases |s| - i
    ensures OutsideDeadzone(StepFrom(s, i, width, height, heading)[|s| - 1].dx)
    ensures OutsideDeadzone(StepFrom(s, i, width, height, heading)[|s| - 1].dy)
  {
    var t := BallStep(s, i, width, height, heading);
    if i == |s| - 1 {
      BallStepSettles(s, i, width, height, heading);
      assert StepFrom(s, i, width, height, heading) == t;
    } else {
      FrameSettlesLast(t, i + 1, width, height, heading);
    }
  }
}
