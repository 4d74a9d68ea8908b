/** The pointer handlers' pure parts: the hit test run on pointer-down and the
    list rebuilt on pointer-move. */
module Pointer {
  import opened Physics

  /** The pointer (mx, my) lies on ball b: its distance from the centre is at
      most the radius (`Math.sqrt(d2) <= radius`, see Physics.SqrtLe). */
  predicate Covers(b: Ball, mx: real, my: real): (r: bool)
    ensures r ==> b.radius >= 0.0
    ensures mx == b.x && my == b.y ==> (r <==> b.radius >= 0.0)
  {
    WithinSq(SqDist(b.x, b.y, mx, my), b.radius)
  }

  /** The first index k or later whose ball the pointer covers, or -1 when none does. */
  function HitFrom(s: seq<Ball>, k: nat, mx: real, my: real): (r: int)
    requires k <= |s|
    decreases |s| - k
    ensures r == -1 || k <= r < |s|
    ensures r == -1 <==> forall i :: k <= i < |s| ==> !Covers(s[i], mx, my)
    ensures r != -1 ==> Covers(s[r], mx, my) && forall i :: k <= i < r ==> !Covers(s[i], mx, my)
  {
    if k == |s| then -1
    else if Covers(s[k], mx, my) then k
    else HitFrom(s, k + 1, mx, my)
  }

  /** `findIndex` over the balls: the smallest index whose ball the pointer
      covers, or -1 when it covers none. */
  function HitTest(s: seq<Ball>, mx: real, my: real): (r: int)
    ensures -1 <= r < |s|
    ensures r == -1 <==> forall i :: 0 <= i < |s| ==> !Covers(s[i], mx, my)
    ensures r != -1 ==> Covers(s[r], mx, my) && forall i :: 0 <= i < r ==> !Covers(s[i], mx, my)
  {
    HitFrom(s, 0, mx, my)
  }

  /** A hit test whose answer is i is exactly one where ball i is covered and no
      earlier ball is: the two ensures of HitTest pin the answer down. */
  lemma HitTestUnique(s: seq<Ball>, mx: real, my: real, i: int)
    requires 0 <= i < |s| && Covers(s[i], mx, my)
    requires forall k :: 0 <= k < i ==> !Covers(s[k], mx, my)
    ensures HitTest(s, mx, my) == i
  {
  }

  /** The velocity a drag imposes: a tenth of the displacement from the pointer
      back to the point where the drag started. */
  function DragVelocity(startX: real, startY: real, mx: real, my: real): (v: (real, real))
    ensures startX - mx == 10.0 * v.0 && startY - my == 10.0 * v.1
  {
    ((startX - mx) / 10.0, (startY - my) / 10.0)
  }

  /** The list `map` rebuilds on pointer-move: ball k gets velocity (vx, vy), all
      other balls are kept as they are. */
  function Drag(s: seq<Ball>, k: int, vx: real, vy: real): (r: seq<Ball>)
    ensures |r| == |s|
    ensures forall i :: 0 <= i < |s| && i != k ==> r[i] == s[i]
    ensures 0 <= k < |s| ==> SameBody(r[k], s[k]) && r[k].dx == vx && r[k].dy == vy
  {
    seq(|s|, i requires 0 <= i < |s| => if i == k then s[i].(dx := vx, dy := vy) else s[i])
  }

  /** A later drag of the same ball replaces the velocity an earlier drag gave
      it entirely: nothing of the earlier drag survives. */
  lemma DragOverrides(s: seq<Ball>, k: int, v1: (real, real), v2: (real, real))
    ensures Drag(Drag(s, k, v1.0, v1.1), k, v2.0, v2.1) == Drag(s, k, v2.0, v2.1)
  {

  }
}
