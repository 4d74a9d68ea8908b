# Canvas balls: frame physics and drag handling

A Dafny model of the `TriangleBalls` canvas component (`src/App.tsx`): a list
of balls (centre, radius, velocity) that every animation frame moves, pushes
apart where they overlap, bounces off the canvas walls, damps and snaps to rest,
and that the user can grab with the pointer and fling.

- `physics.dfy`, module `Physics`: the `Ball` record and one frame as pure
  functions over the ball list (`PairCorrect`, `PassFrom`, `Settle`,
  `BallStep`, `StepFrom`, `Frame`), with the lemmas about them.
- `simulation.dfy`, module `Simulation`: the frame as the source runs it, nested
  `while` loops writing into an `array<Ball>` in place (`Step`, whose inner loop
  body is `ResolvePair` and whose per-ball tail is `SettleBall`), proved equal
  to `Physics.Frame`.
- `pointer.dfy`, module `Pointer`: the hit test (`findIndex`) and the list the
  pointer-move handler rebuilds with `map`.
- `component.dfy`, module `Component`: the class `TriangleBalls` holding the
  component state (`balls`, `activeBallIndex`, `startX`, `startY`) with its
  event handlers, the mount-time layout, and two end-to-end scenarios.

JavaScript numbers are Dafny `real`s. Every `Math.sqrt` comparison is written
in squared form; `SqrtLe` and `SqrtLt` prove the two forms agree exactly for any
distance `d >= 0` with `d * d` equal to the squared distance. The bearing
`(cos(atan2(dy, dx)), sin(atan2(dy, dx)))` used for the overlap correction is a
function-valued parameter `heading` of each frame; the rest of the correction
arithmetic (`targetX`, `ax = (targetX - otherBall.x) * 0.1`, ...) is modelled as
written. `ball !== otherBall` is modelled as `i != j` on array indices: the balls
are distinct objects, created one per iteration of the layout loop, and a
pointer-move's `map` keeps the other objects and creates exactly one new one
for the dragged ball, so they stay distinct.

Two resting balls of radius 20 whose centres are 30 apart overlap by 10, and
each ball's pass corrects by a tenth of that, so one might expect them to
separate by 2 in one frame. They separate by 1: the first ball integrates before
any correction exists, so only the second ball moves in that frame. `TwoBallFrame` pins the exact outcome.

## Model

| member | source | states |
|---|---|---|
| Physics.SqrtLe | src/App.tsx:114-119 | for `d >= 0` with `d*d == dsq`, `d <= r` holds iff `r >= 0 && dsq <= r*r`: the hit test's squared form is exact |
| Physics.SqrtLt | src/App.tsx:57-62 | for `d >= 0` with `d*d == dsq`, `d < m` holds iff `m > 0 && dsq < m*m`: the overlap test's squared form is exact |
| Physics.Overlaps | src/App.tsx:57-62 | definition of the overlap test in squared form (exact by `SqrtLt`); its contract: an overlap needs a positive radius sum, and two coincident centres overlap exactly when the radius sum is positive |
| Physics.Correction | src/App.tsx:63-67 | definition of `(ax, ay)`; its contract: o's centre plus ten times the correction is the target point at distance `radius + otherRadius` from b along the bearing; `CorrectionPushesApart` states that it pushes the pair apart |
| Physics.Transfer | src/App.tsx:69-72 | subtracting `(ax, ay)` from ball i and adding it to ball j keeps the pair's summed velocity, gives j exactly `(ax, ay)`, and touches no position, radius or other ball |
| Physics.PairCorrect | src/App.tsx:56-73 | a ball is never paired with itself and a non-overlapping pair is left unchanged; the pair's summed `dx` and `dy` are conserved; ball j gains exactly the correction of lines 63-67; positions, radii and all other balls are unchanged |
| Physics.PassFrom | src/App.tsx:55-75 | the inner pass keeps the number of balls and every position and radius |
| Physics.PairConservesMomentum | src/App.tsx:66-72 | one pair correction leaves the summed velocity of all balls unchanged |
| Physics.PassConservesMomentum | src/App.tsx:55-75 | a whole inner pass leaves the summed velocity of all balls unchanged |
| Physics.CorrectionPushesApart | src/App.tsx:63-72 | when the heading is the true bearing, the velocity given to the other ball points away from the first (`Push`, its dot product with the offset, is `>= 0`), strictly unless the centres coincide |
| Physics.ReflectRule | src/App.tsx:77-85 | on each axis the velocity reverses sign exactly when the edge touches that axis' walls (`x - r <= 0` or `x + r >= width`) and keeps 0.8 of its size, else is unchanged; the x rule ignores y and height and vice versa |
| Physics.SnapLeavesNoDrift | src/App.tsx:90-91 | after the snap each component is 0 or at least 0.1 in size, and only components below 0.1 were zeroed |
| Physics.SettleNeverSpeedsUp | src/App.tsx:77-91 | each component out of reflect/damp/snap is 0, 0.99 times or -0.792 times its input, so never faster, and outside the deadzone |
| Physics.Reflected | src/App.tsx:77-85 | definition of the wall reflection; its contract: only the velocity changes and neither component grows; `ReflectRule` states the exact rule |
| Physics.Damped | src/App.tsx:87-88 | definition of the friction step; its contract: only the velocity changes and each component's size becomes 0.99 of itself |
| Physics.Snapped | src/App.tsx:90-91 | definition of the deadzone snap; its contract: only the velocity changes and both components end outside the deadzone; `SnapLeavesNoDrift` states which components are zeroed |
| Physics.Settle | src/App.tsx:77-91 | the tail of a ball's turn writes only the velocity |
| Physics.Integrate | src/App.tsx:52-53 | definition of the position update; its contract: the displacement equals the velocity, and velocity and radius are kept |
| Physics.BallStep | src/App.tsx:51-91 | ball i's turn moves ball i by exactly its velocity, moves no other ball, and keeps every radius and the number of balls |
| Physics.StepFrom | src/App.tsx:51-98 | the turns in list order keep the number of balls and every radius |
| Physics.Frame | src/App.tsx:51-98 | definition of one frame as the turns of all balls in list order (`StepFrom` from 0); its contract: the number of balls is kept and the last ball ends outside the deadzone (`FrameSettlesLast`); `Simulation.Step` and `TriangleBalls.Animate` are proved equal to it |
| Physics.FrameKeepsBalls | src/App.tsx:51-98 | a frame never changes the number of balls or any radius |
| Physics.BallStepSettles | src/App.tsx:87-91 | right after its own turn, a ball's velocity components are each 0 or at least 0.1 in size |
| Physics.FrameSettlesLast | src/App.tsx:51-98 | at the end of a frame the last ball's velocity is outside the deadzone |
| Simulation.Step | src/App.tsx:51-98 | the in-place nested loops leave the array equal to `Frame` of its old contents |
| Simulation.ResolvePair | src/App.tsx:56-73 | the inner loop body leaves the array equal to `PairCorrect` of its old contents |
| Simulation.SettleBall | src/App.tsx:77-91 | reflect, damp and snap in place change ball i to `Settle` of it and nothing else |
| Pointer.Covers | src/App.tsx:115-118 | definition of `distance <= radius` in squared form (exact by `SqrtLe`); its contract: a covered ball has a nonnegative radius, and a press on a centre covers that ball exactly when its radius is nonnegative |
| Pointer.HitFrom | src/App.tsx:114-119 | the first index from k on whose ball the pointer covers, or -1 exactly when none from k on does |
| Pointer.HitTest | src/App.tsx:114-119 | the smallest index whose ball covers the pointer (squared distance within the radius), or -1 exactly when no ball does |
| Pointer.HitTestUnique | src/App.tsx:114-119 | an index whose ball is covered with no earlier ball covered is the hit test's answer |
| Pointer.DragVelocity | src/App.tsx:137-138 | the drag velocity times 10 is the displacement from the pointer back to the anchor |
| Pointer.Drag | src/App.tsx:140-149 | the rebuilt list has the same length, the active ball gets exactly the given velocity and keeps its position and radius, every other ball is identical |
| Pointer.DragOverrides | src/App.tsx:137-149 | a later drag of the same ball replaces the earlier velocity entirely |
| Component.LayoutBall | src/App.tsx:30-35 | every ball of the layout has radius 20 and zero velocity |
| Component.LayoutSpread | src/App.tsx:32-35 | any two layout centres are at least 50 apart, whatever value stands for sqrt(3) |
| Component.LayoutApart | src/App.tsx:25-36 | no two balls of the layout overlap |
| Component.LayoutCentreCovers | src/App.tsx:114-119 | a press on a layout ball's centre covers that ball and no other |
| Component.TwoBallFrame | src/App.tsx:51-91 | two resting balls 30 apart: after one frame the first is still at 385 with velocity -1.89, the second at 416 with velocity 1.881 |
| Component.TriangleBalls.constructor | src/App.tsx:25-38 | the mounted state: five layout balls on an 800 by 800 canvas, no active ball |
| Component.TriangleBalls.Animate | src/App.tsx:48-101 | one frame changes the balls array to `Frame` of its old contents |
| Component.TriangleBalls.MouseDown | src/App.tsx:106-126 | on a hit, the active index is the hit test's answer and the anchor the press point; on a miss the active index and anchor are unchanged; the balls are untouched |
| Component.TriangleBalls.MouseMove | src/App.tsx:128-153 | with an active ball, the balls become a fresh array equal to `Drag` with the drag velocity from the anchor; with none, nothing changes; the active index and anchor never change |
| Component.TriangleBalls.MouseUp | src/App.tsx:155-159 | the active index becomes -1; balls and anchor are untouched |
| Component.Fling | src/App.tsx:106-159 | press on a layout ball's centre, move, release: that ball alone leaves with a tenth of the drag displacement as velocity |

## Left out

- Canvas drawing (`clearRect`, `arc`, `fill`) and the `requestAnimationFrame` self-scheduling: host I/O; the model runs one frame per `Animate` call.
- React plumbing (`useState`, `useEffect`, `useRef`, the JSX canvas), and the early returns taken when the canvas or its context is not yet available: the model assumes a mounted canvas.
- The extra animation loops started each time `setBalls` reruns the effect without cancelling the previous loop, and the sharing of unchanged ball objects between the old and new arrays after a drag move: a scheduling artifact; the model runs a single loop over the current array, and balls are values.
- Pointer coordinate conversion through `getBoundingClientRect`: the handlers take canvas-local coordinates.
- `Math.sqrt`, `Math.atan2`, `Math.cos`, `Math.sin`: square roots become squared comparisons (proved equivalent); the bearing is the `heading` parameter; `Math.sqrt(3)` in the layout is the `sqrt3` parameter.
- IEEE-754 rounding: all arithmetic is exact on reals.
- Convergence and containment over many frames are not modelled; the lemmas are about single corrections, single turns and single frames.
- Physics.FrameSettlesLast: the deadzone guarantee is stated for the last ball only, because a later ball's pass in the same frame can add a small correction to an earlier, already settled ball.
