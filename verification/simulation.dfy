/** The body of the animation loop: one frame, run in place over the ball array. */
module Simulation {
  import opened Physics

  /** Moves every ball, in array order, through its turn: integrate, the pass
      against every other ball, then reflect, damp and snap. Every write is made
      to the array at once, so later pairs and later balls see it. */
  method Step(balls: array<Ball>, width: real, height: real, heading: Heading)
    modifies balls
    ensures balls[..] == Frame(old(balls[..]), width, height, heading)
  {
    var i := 0;
    while i < balls.Length
      invariant 0 <= i <= balls.Length
      invariant StepFrom(balls[..], i, width, height, heading) == Frame(old(balls[..]), width, height, heading)
    {
      ghost var before := balls[..];
      var ball := balls[i];
      balls[i] := ball.(x := ball.x + ball.dx, y := ball.y + ball.dy);
      ghost var moved := balls[..];
      assert moved == before[i := Integrate(before[i])];

      var j := 0;
      while j < balls.Length
        invariant 0 <= j <= balls.Length
        invariant PassFrom(balls[..], i, j, heading) == PassFrom(moved, i, 0, heading)
      {
        ResolvePair(balls, i, j, heading);
        j := j + 1;
      }

      SettleBall(balls, i, width, height);
      assert balls[..] == BallStep(before, i, width, height, heading);
      i := i + 1;
    }
  }

  /** The inner loop's body for the pair (i, j): unless j is i itself, when the
      centres are closer than the sum of the radii, the correction is subtracted
      from ball i's velocity and added to ball j's. */
  method ResolvePair(balls: array<Ball>, i: nat, j: nat, heading: Heading)
    requires i < balls.Length && j < balls.Length
    modifies balls
    ensures balls[..] == PairCorrect(old(balls[..]), i, j, heading)
  {
    if i != j {
      var ball, other := balls[i], balls[j];
      var ex, ey := other.x - ball.x, other.y - ball.y;
      var minDistance := ball.radius + other.radius;
      if minDistance > 0.0 && ex * ex + ey * ey < minDistance * minDistance {
        var (c, s) := heading(ex, ey);
        var ax := (ball.x + c * minDistance - other.x) * 0.1;
        var ay := (ball.y + s * minDistance - other.y) * 0.1;
        assert Overlaps(ball, other);
        assert ax == Correction(ball, other, heading).0;
        assert ay == Correction(ball, other, heading).1;
        balls[i] := ball.(dx := ball.dx - ax, dy := ball.dy - ay);
        balls[j] := other.(dx := other.dx + ax, dy := other.dy + ay);
        assert balls[..] == Transfer(old(balls[..]), i, j, ax, ay);
      } else {
        assert !Overlaps(ball, other);
      }
    }
  }

  /** The end of ball i's turn: reverse and scale by 0.8 on each axis whose
      walls its edge touches, damp by 0.99, and zero any component below 0.1. */
  method SettleBall(balls: array<Ball>, i: nat, width: real, height: real)
    requires i < balls.Length
    modifies balls
    ensures balls[..] == old(balls[..])[i := Settle(old(balls[i]), width, height)]
  {
    var ball := balls[i];
    var vx, vy := ball.dx, ball.dy;
    if ball.x - ball.radius <= 0.0 || ball.x + ball.radius >= width {
      vx := vx * -0.8;
    }
    if ball.y - ball.radius <= 0.0 || ball.y + ball.radius >= height {
      vy := vy * -0.8;
    }
    vx, vy := vx * 0.99, vy * 0.99;
    if Abs(vx) < 0.1 {
      vx := 0.0;
    }
    if Abs(vy) < 0.1 {
      vy := 0.0;
    }
    balls[i] := ball.(dx := vx, dy := vy);
  }
}
