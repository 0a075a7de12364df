/** One tick of the two moving entities, as functions of their state: a
    paddle's vertical step, and the ball's bounce scan, edge reflections and
    integration. The classes in module Pong are proved against these. */
module Motion {
  import opened Geometry
  import opened Control

  /** A paddle of the given height at this Y lies fully on screen. */
  predicate OnScreen(y: real, height: real)
  {
    0.0 <= y && y + height <= ScreenHeight
  }

  /** The paddle's Y after one tick in direction `dir`; a step is only taken
      when a second step in the same direction would still fit on screen. A
      paddle moves by exactly one speed step in the direction asked, or not
      at all, and never without being asked to. */
  function Move(y: real, height: real, speed: real, dir: Direction): (r: real)
    ensures dir == Nothing ==> r == y
    ensures r != y ==> (dir == Up && r == y - speed) || (dir == Down && r == y + speed)
  {
    if dir == Up && y - speed * 2.0 >= 0.0 then y - speed
    else if dir == Down && y + height + speed * 2.0 <= ScreenHeight then y + speed
    else y
  }

  /** Up is taken exactly when two steps up stay at or below the top edge,
      Down exactly when two steps down stay at or above the bottom edge;
      otherwise the paddle stays where it is. */
  lemma MoveGuards(y: real, height: real, speed: real)
    ensures Move(y, height, speed, Up) == (if y - 2.0 * speed >= 0.0 then y - speed else y)
    ensures Move(y, height, speed, Down) == (if y + height + 2.0 * speed <= ScreenHeight then y + speed else y)
  {
  }

  /** With a non-negative speed a paddle on screen stays on screen, and a
      paddle that moved keeps a margin of one speed step to the edge it
      moved towards. */
  lemma MoveKeepsOnScreen(y: real, height: real, speed: real, dir: Direction)
    requires speed >= 0.0 && OnScreen(y, height)
    ensures OnScreen(Move(y, height, speed, dir), height)
    ensures Move(y, height, speed, dir) < y ==> Move(y, height, speed, dir) >= speed
    ensures Move(y, height, speed, dir) > y ==> Move(y, height, speed, dir) + height + speed <= ScreenHeight
  {
  }

  /** One entry of the list the ball is updated against: a box, tagged when
      the entry is the ball itself. */
  datatype Collider = Collider(box: Box, isSelf: bool)

  /** Edge-triggered bounce: the ball is not in the box now, but is at its
      position after one more step of its velocity. So a ball at rest never
      bounces, and only off a box at least as tall as the ball. */
  predicate BouncesOff(ball: Box, vx: real, vy: real, c: Box): (r: bool)
    ensures r ==> vx != 0.0 || vy != 0.0
    ensures r ==> ball.h <= c.h
  {
    !InArea(ball, c) && InArea(Shift(ball, vx, vy), c)
  }

  /** An entry the scan passes over: not the ball, and no bounce. */
  predicate Passes(ball: Box, vx: real, vy: real, c: Collider)
  {
    !c.isSelf && !BouncesOff(ball, vx, vy, c.box)
  }

  /** How the scan over the colliders ends. */
  datatype Scan = Clear | Bounced(index: nat) | Fatal(index: nat)

  /** The collider scan from entry `i` on: the ball itself is fatal, the
      first bounce stops the scan. */
  function ScanFrom(ball: Box, vx: real, vy: real, cs: seq<Collider>, i: nat): (r: Scan)
    requires i <= |cs|
    ensures r.Bounced? ==> i <= r.index < |cs| && !cs[r.index].isSelf && BouncesOff(ball, vx, vy, cs[r.index].box)
    ensures r.Fatal? ==> i <= r.index < |cs| && cs[r.index].isSelf
    decreases |cs| - i
  {
    if i == |cs| then Clear
    else if cs[i].isSelf then Fatal(i)
    else if BouncesOff(ball, vx, vy, cs[i].box) then Bounced(i)
    else ScanFrom(ball, vx, vy, cs, i + 1)
  }

  /** The whole collider scan of one tick: a bounce names an entry that is
      not the ball and is bounced off, a fatal end names an entry that is the
      ball. */
  function FirstBounce(ball: Box, vx: real, vy: real, cs: seq<Collider>): (r: Scan)
    ensures r.Bounced? ==> r.index < |cs| && !cs[r.index].isSelf && BouncesOff(ball, vx, vy, cs[r.index].box)
    ensures r.Fatal? ==> r.index < |cs| && cs[r.index].isSelf
  {
    ScanFrom(ball, vx, vy, cs, 0)
  }

  /** The scan from `i` ends at the first entry from `i` on that does not
      pass: a bounce there gives Bounced, the ball itself gives Fatal, and
      Clear means every entry passed. */
  lemma {:induction false} ScanFromIsFirstMatch(ball: Box, vx: real, vy: real, cs: seq<Collider>, i: nat, k: nat)
    requires i <= |cs|
    ensures ScanFrom(ball, vx, vy, cs, i) == Bounced(k) <==>
      && i <= k < |cs| && !cs[k].isSelf && BouncesOff(ball, vx, vy, cs[k].box)
      && forall j :: i <= j < k ==> Passes(ball, vx, vy, cs[j])
    ensures ScanFrom(ball, vx, vy, cs, i) == Fatal(k) <==>
      && i <= k < |cs| && cs[k].isSelf
      && forall j :: i <= j < k ==> Passes(ball, vx, vy, cs[j])
    ensures ScanFrom(ball, vx, vy, cs, i) == Clear <==>
      forall j :: i <= j < |cs| ==> Passes(ball, vx, vy, cs[j])
    decreases |cs| - i
  {
    if i < |cs| {
      if Passes(ball, vx, vy, cs[i]) {
        ScanFromIsFirstMatch(ball, vx, vy, cs, i + 1, k);
      } else {
        assert !Passes(ball, vx, vy, cs[i]);
      }
    }
  }

  /** The tick's scan bounces off entry `k` exactly when `k` is the first
      entry that is not the ball and that the ball reaches this tick, and no
      earlier entry is the ball. */
  lemma FirstBounceIsFirstMatch(ball: Box, vx: real, vy: real, cs: seq<Collider>, k: nat)
    ensures FirstBounce(ball, vx, vy, cs) == Bounced(k) <==>
      && k < |cs| && !cs[k].isSelf && BouncesOff(ball, vx, vy, cs[k].box)
      && forall j :: 0 <= j < k ==> Passes(ball, vx, vy, cs[j])
    ensures FirstBounce(ball, vx, vy, cs) == Fatal(k) <==>
      && k < |cs| && cs[k].isSelf
      && forall j :: 0 <= j < k ==> Passes(ball, vx, vy, cs[j])
    ensures FirstBounce(ball, vx, vy, cs) == Clear <==>
      forall j :: 0 <= j < |cs| ==> Passes(ball, vx, vy, cs[j])
  {
    ScanFromIsFirstMatch(ball, vx, vy, cs, 0, k);
  }

  /** A collider the ball is already in never triggers a bounce. */
  lemma InsideNeverBounces(ball: Box, vx: real, vy: real, cs: seq<Collider>, k: nat)
    requires k < |cs| && InArea(ball, cs[k].box)
    ensures FirstBounce(ball, vx, vy, cs) != Bounced(k)
  {
    FirstBounceIsFirstMatch(ball, vx, vy, cs, k);
  }

  /** Reaching the ball itself is fatal only when no earlier collider
      bounced it (and no earlier entry was the ball). */
  lemma FatalOnlyWithoutEarlierBounce(ball: Box, vx: real, vy: real, cs: seq<Collider>, k: nat, j: nat)
    requires FirstBounce(ball, vx, vy, cs) == Fatal(k) && j < k
    ensures !cs[j].isSelf && !BouncesOff(ball, vx, vy, cs[j].box)
  {
    FirstBounceIsFirstMatch(ball, vx, vy, cs, k);
  }

  /** The ball's position and velocity. */
  datatype BallState = BallState(box: Box, xSpeed: real, ySpeed: real)

  /** One tick ends with the ball moved, or with the fatal self-collision. */
  datatype Outcome = Moved(next: BallState) | SelfCollision

  /** The ball touches or crosses the left or the right screen edge. */
  predicate AtSideEdge(b: Box)
  {
    b.x <= 0.0 || b.x + b.w >= ScreenWidth
  }

  /** The ball touches or crosses the top or the bottom screen edge. */
  predicate AtTopOrBottom(b: Box)
  {
    b.y <= 0.0 || b.y + b.h >= ScreenHeight
  }

  /** The end of a tick, once the scan has settled the X velocity `vx`: each
      edge test (on the position before the move) flips its axis, then the
      ball moves by the resulting velocity. The speed on each axis keeps its
      magnitude, and the new position is the old one plus the new velocity. */
  function Reflect(b: Box, vx: real, vy: real): (r: BallState)
    ensures Abs(r.xSpeed) == Abs(vx) && Abs(r.ySpeed) == Abs(vy)
    ensures r.box == Shift(b, r.xSpeed, r.ySpeed)
  {
    var vx' := if AtSideEdge(b) then -vx else vx;
    var vy' := if AtTopOrBottom(b) then -vy else vy;
    BallState(Shift(b, vx', vy'), vx', vy')
  }

  /** One tick of the ball against the ordered colliders: a bounce flips the
      X velocity, then the edge reflections and the move follow. */
  function Step(s: BallState, cs: seq<Collider>): (r: Outcome)
    ensures r.Moved? ==> Abs(r.next.xSpeed) == Abs(s.xSpeed) && Abs(r.next.ySpeed) == Abs(s.ySpeed)
    ensures r.Moved? ==> r.next.box == Shift(s.box, r.next.xSpeed, r.next.ySpeed)
  {
    match FirstBounce(s.box, s.xSpeed, s.ySpeed, cs)
    case Fatal(_) => SelfCollision
    case scan => Moved(Reflect(s.box, if scan.Bounced? then -s.xSpeed else s.xSpeed, s.ySpeed))
  }

  /** The tick is fatal exactly when the scan reaches the ball itself before
      any bounce. */
  lemma StepFatal(s: BallState, cs: seq<Collider>)
    ensures Step(s, cs) == SelfCollision <==>
      exists k :: 0 <= k < |cs| && cs[k].isSelf &&
        forall j :: 0 <= j < k ==> Passes(s.box, s.xSpeed, s.ySpeed, cs[j])
  {
    var scan := FirstBounce(s.box, s.xSpeed, s.ySpeed, cs);
    if scan.Fatal? {
      FirstBounceIsFirstMatch(s.box, s.xSpeed, s.ySpeed, cs, scan.index);
    } else {
      forall k | 0 <= k < |cs| && cs[k].isSelf
        ensures exists j :: 0 <= j < k && !Passes(s.box, s.xSpeed, s.ySpeed, cs[j])
      {
        FirstBounceIsFirstMatch(s.box, s.xSpeed, s.ySpeed, cs, k);
      }
    }
  }

  /** Against colliders none of which is the ball, a tick always moves it. */
  lemma StepWithoutSelf(s: BallState, cs: seq<Collider>)
    requires forall j :: 0 <= j < |cs| ==> !cs[j].isSelf
    ensures Step(s, cs).Moved?
  {
  }

  /** X velocity: a bounce and a side-edge hit each flip it, so it keeps its
      sign exactly when both or neither happen. At most one flip comes from
      the colliders. */
  lemma StepXSpeed(s: BallState, cs: seq<Collider>)
    requires Step(s, cs).Moved?
    ensures var bounced := FirstBounce(s.box, s.xSpeed, s.ySpeed, cs).Bounced?;
      Step(s, cs).next.xSpeed == (if bounced == AtSideEdge(s.box) then s.xSpeed else -s.xSpeed)
  {
  }

  /** Y velocity and Y position are decided by the top and bottom edges alone:
      two lists of colliders give the same vertical motion. */
  lemma StepYIgnoresColliders(s: BallState, cs: seq<Collider>, cs': seq<Collider>)
    requires Step(s, cs).Moved? && Step(s, cs').Moved?
    ensures Step(s, cs).next.ySpeed == (if AtTopOrBottom(s.box) then -s.ySpeed else s.ySpeed)
    ensures Step(s, cs).next.ySpeed == Step(s, cs').next.ySpeed
    ensures Step(s, cs).next.box.y == Step(s, cs').next.box.y
  {
  }

  /** A ball that touches the left edge while moving left, with no paddle
      bounce this tick, leaves moving right. */
  lemma StepLeftEdge(s: BallState, cs: seq<Collider>)
    requires s.box.x <= 0.0 && s.xSpeed < 0.0
    requires Step(s, cs).Moved? && !FirstBounce(s.box, s.xSpeed, s.ySpeed, cs).Bounced?
    ensures Step(s, cs).next.xSpeed > 0.0
  {
  }

  /** The paddle flip and the edge flip cancel: a ball at the left edge that
      enters the left paddle's vertical span this tick keeps its direction and
      moves one more step left, to X = -1. On the next tick the paddle does
      not bounce it again (it is already in the paddle's box), so the edge
      flip alone turns it back to X = 0, moving right. */
  lemma DoubleFlipKeepsDirection()
    ensures var paddle := Collider(Box(0.0, 0.0, 10.0, 50.0), false);
      Step(BallState(Box(0.0, 41.0, 10.0, 10.0), -1.0, -1.0), [paddle])
        == Moved(BallState(Box(-1.0, 40.0, 10.0, 10.0), -1.0, -1.0))
    ensures var paddle := Collider(Box(0.0, 0.0, 10.0, 50.0), false);
      Step(BallState(Box(-1.0, 40.0, 10.0, 10.0), -1.0, -1.0), [paddle])
        == Moved(BallState(Box(0.0, 39.0, 10.0, 10.0), 1.0, -1.0))
  {
    var ball := Box(0.0, 41.0, 10.0, 10.0);
    var paddle := Collider(Box(0.0, 0.0, 10.0, 50.0), false);
    assert BouncesOff(ball, -1.0, -1.0, paddle.box);
    assert FirstBounce(ball, -1.0, -1.0, [paddle]) == Bounced(0);
  }
}
