/** The game's entities as objects whose fields each tick updates in place:
    two paddles, the ball, the ball-following controller, and the game that
    owns them. Each state-changing method is proved against the functions of
    modules Control and Motion. */
module Pong {
  import opened Geometry
  import opened Control
  import opened Motion

  /** Sizes and speeds the game is set up with. */
  const PlayerWidth: real := 10.0
  const PlayerHeight: real := 50.0
  const PlayerSpeed: real := 2.0
  const BallWidth: real := 10.0

  /** What drives a paddle: nothing, the arrow keys, or a ball follower. */
  datatype Controller = NoController | Keys | Follow(fb: FollowBall)

  /** A paddle: its top-left corner, sprite size, speed and controller. */
  class Player {
    var X: real
    var Y: real
    const Width: real
    const Height: real
    var Speed: real
    var controller: Controller

    constructor (x: real, y: real, width: real, height: real, speed: real, controller: Controller)
      ensures X == x && Y == y && Width == width && Height == height
      ensures Speed == speed && this.controller == controller
    {
      X, Y, Width, Height := x, y, width, height;
      Speed, this.controller := speed, controller;
    }

    /** The paddle's collision box. */
    function Bounds(): Box
      reads this
    {
      Box(X, Y, Width, Height)
    }

    /** The controller object a tick may update, if any. */
    ghost function Footprint(): set<object>
      reads this
    {
      if controller.Follow? then {controller.fb} else {}
    }

    /** The paddle is on screen, its speed is not negative, and a ball
        follower driving it keeps its own invariant. */
    ghost predicate Valid()
      reads this, Footprint()
    {
      && OnScreen(Y, Height) && Speed >= 0.0
      && (controller.Follow? ==> controller.fb.Valid())
    }

    /** One tick: ask the controller (if there is one) once, then move by one
        speed step when there is room for two. Only Y and the controller's
        state change. */
    method Update(upPressed: bool, downPressed: bool)
      modifies this`Y, Footprint()
      ensures controller.NoController? ==> Y == old(Y)
      ensures controller.Keys? ==> Y == Move(old(Y), Height, Speed, ArrowKeys(upPressed, downPressed))
      ensures controller.Follow? ==>
        var d := Decide(old(controller.fb.State()), old(controller.fb.Sight()));
        controller.fb.State() == d.next && Y == Move(old(Y), Height, Speed, d.dir)
      ensures old(Valid()) ==> Valid()
    {
      if !controller.NoController? {
        var dir: Direction;
        if controller.Keys? {
          dir := ArrowKeys(upPressed, downPressed);
        } else {
          dir := controller.fb.Input();
        }
        ghost var y0 := Y;
        if dir == Up && Y - Speed * 2.0 >= 0.0 {
          Y := Y - Speed;
        }
        if dir == Down && Y + Height + Speed * 2.0 <= ScreenHeight {
          Y := Y + Speed;
        }
        assert Y == Move(y0, Height, Speed, dir);
        if old(Valid()) {
          MoveKeepsOnScreen(y0, Height, Speed, dir);
        }
      }
    }
  }

  /** The ball: its top-left corner, sprite size and velocity. */
  class Ball {
    var X: real
    var Y: real
    const Width: real
    const Height: real
    var XSpeed: real
    var YSpeed: real

    constructor (x: real, y: real, width: real, height: real, xSpeed: real, ySpeed: real)
      ensures X == x && Y == y && Width == width && Height == height
      ensures XSpeed == xSpeed && YSpeed == ySpeed
    {
      X, Y, Width, Height := x, y, width, height;
      XSpeed, YSpeed := xSpeed, ySpeed;
    }

    /** The ball's collision box. */
    function Bounds(): Box
      reads this
    {
      Box(X, Y, Width, Height)
    }

    /** The ball's position and velocity as a value. */
    ghost function State(): BallState
      reads this
    {
      BallState(Bounds(), XSpeed, YSpeed)
    }

    /** One tick against the given colliders, in order. Meeting the ball
        itself before any bounce is fatal (`fatal`) and leaves the ball as it
        was; otherwise the new state is the one Step computes from the old
        state and the colliders' boxes. The colliders are not changed. */
    method Update(colliders: seq<Entity>) returns (fatal: bool)
      modifies this
      ensures Step(old(State()), old(Snapshot(this, colliders))) == if fatal then SelfCollision else Moved(State())
      ensures fatal ==> State() == old(State())
    {
      ghost var snap := Snapshot(this, colliders);
      ghost var start := State();
      ghost var scan := FirstBounce(start.box, start.xSpeed, start.ySpeed, snap);
      var i := 0;
      while i < |colliders|
        invariant 0 <= i <= |colliders|
        invariant X == start.box.x && Y == start.box.y
        invariant XSpeed == start.xSpeed && YSpeed == start.ySpeed
        invariant scan == ScanFrom(start.box, start.xSpeed, start.ySpeed, snap, i)
        modifies this`XSpeed
      {
        var c := colliders[i];
        if c.BallEntity? && c.ball == this {
          // an entry that is this ball is fatal
          assert scan == Fatal(i);
          return true;
        }
        var cBox := c.Bounds();
        var inXArea := X + Width >= cBox.x && X <= cBox.x + cBox.w;
        var inYArea := Y >= cBox.y && Y + Height <= cBox.y + cBox.h;
        var inPaddle := inXArea && inYArea;
        var nextX := X + XSpeed;
        var nextY := Y + YSpeed;
        var inNextX := nextX + Width >= cBox.x && nextX <= cBox.x + cBox.w;
        var inNextY := nextY >= cBox.y && nextY + Height <= cBox.y + cBox.h;
        var inPaddleNextTick := inNextX && inNextY;
        assert cBox == snap[i].box && !snap[i].isSelf;
        assert inPaddle == InArea(start.box, cBox);
        assert inPaddleNextTick == InArea(Shift(start.box, start.xSpeed, start.ySpeed), cBox);
        if !inPaddle && inPaddleNextTick {
          assert scan == Bounced(i);
          XSpeed := -XSpeed;
          // a bounce ends the scan
          break;
        }
        i := i + 1;
      }
      assert XSpeed == (if scan.Bounced? then -start.xSpeed else start.xSpeed);
      assert Step(start, snap) == Moved(Reflect(start.box, XSpeed, YSpeed));
      ReflectAndMove();
      fatal := false;
    }

    /** The end of a tick: the screen-edge reflections, tested on the position
        before the move, then the move by the resulting velocity. */
    method ReflectAndMove()
      modifies this
      ensures State() == Reflect(old(Bounds()), old(XSpeed), old(YSpeed))
    {
      // edge reflections, judged on the position before the move
      if X <= 0.0 || X + Width >= ScreenWidth {
        XSpeed := -XSpeed;
      }
      if Y <= 0.0 || Y + Height >= ScreenHeight {
        YSpeed := -YSpeed;
      }
      X := X + XSpeed;
      Y := Y + YSpeed;
    }
  }

  /** An entry of the collider list: a paddle or a ball, by reference. */
  datatype Entity = PlayerEntity(player: Player) | BallEntity(ball: Ball) {
    /** The object the entry refers to. */
    function Obj(): object
    {
      match this
      case PlayerEntity(p) => p
      case BallEntity(b) => b
    }

    /** The collision box of the object the entry refers to. */
    function Bounds(): Box
      reads Obj()
    {
      match this
      case PlayerEntity(p) => p.Bounds()
      case BallEntity(b) => b.Bounds()
    }
  }

  /** The collider list as `ball` sees it: each entry's current box, tagged
      when the entry is `ball` itself. */
  ghost function Snapshot(ball: Ball, cs: seq<Entity>): (r: seq<Collider>)
    reads set e | e in cs :: e.Obj()
    ensures |r| == |cs|
    ensures forall i :: 0 <= i < |cs| ==>
      r[i] == Collider(cs[i].Bounds(), cs[i].BallEntity? && cs[i].ball == ball)
    decreases |cs|
  {
    if cs == [] then []
    else [Collider(cs[0].Bounds(), cs[0].BallEntity? && cs[0].ball == ball)] + Snapshot(ball, cs[1..])
  }

  /** The ball-following controller: it watches one ball and one paddle and
      keeps its last decision and the ticks left to keep it. */
  class FollowBall {
    const ball: Ball
    const player: Player
    var lastDecision: Direction
    var count: int

    /** A new controller, in the zero-valued state. */
    constructor (ball: Ball, player: Player)
      ensures this.ball == ball && this.player == player
      ensures State() == Fresh
    {
      this.ball, this.player := ball, player;
      lastDecision, count := Up, 0;
    }

    /** The controller's state as a value. */
    ghost function State(): AiState
      reads this
    {
      AiState(lastDecision, count)
    }

    /** The state invariant: 0 <= count <= 15, and count > 0 only with an
        Up or Down decision to repeat. */
    ghost predicate Valid()
      reads this
    {
      Inv(State())
    }

    /** What the controller sees now. */
    ghost function Sight(): Sighting
      reads ball, player
    {
      Sighting(ball.X, ball.Y, player.X, player.Y, player.Speed)
    }

    /** One call: the reply and the new state are the ones Decide gives for
        the old state and what the controller sees; the invariant is kept. */
    method Input() returns (d: Direction)
      modifies this
      ensures Decide(old(State()), old(Sight())) == Decision(d, State())
      ensures old(Valid()) ==> Valid()
    {
      ghost var s0 := State();
      var ballX, ballY := ball.X, ball.Y;
      var x, y := player.X, player.Y;
      if count > 0 {
        count := count - 1;
        return lastDecision;
      }
      if Abs(ballX - x) < VisionRange {
        // ball in sight
        if ballY < y - player.Speed {
          count := count + DecisionBuffer;
          lastDecision := Up;
          return Up;
        } else if ballY > y + player.Speed {
          count := count + DecisionBuffer;
          lastDecision := Down;
          return Down;
        }
      }
      return Nothing;
    }
  }

  /** The game: the keyboard paddle on the left, the ball-following paddle on
      the right, and the ball. */
  class Game {
    const player1: Player
    const player2: Player
    const ball: Ball
    const ai: FollowBall

    /** The structure the game is set up with, and each paddle's invariant. */
    ghost predicate Valid()
      reads this, player1, player2, ball, ai
    {
      && player1 != player2
      && player1.controller.Keys?
      && player2.controller == Follow(ai)
      && ai.ball == ball && ai.player == player2
      && player1.Valid() && player2.Valid()
    }

    /** The initial game: the left paddle at the top-left corner, the right
        paddle at the bottom-right corner, the ball centred moving down and
        to the right, the follower fresh and watching the right paddle. */
    constructor Setup()
      ensures Valid()
      ensures player1.Bounds() == Box(0.0, 0.0, PlayerWidth, PlayerHeight) && player1.Speed == PlayerSpeed
      ensures player2.Bounds() == Box(ScreenWidth - PlayerWidth, ScreenHeight - PlayerHeight, PlayerWidth, PlayerHeight)
      ensures player2.Speed == PlayerSpeed
      ensures ball.State() == BallState(Box(155.0, 115.0, BallWidth, BallWidth), 1.0, 1.0)
      ensures ai.State() == Fresh
    {
      var p1 := new Player(0.0, 0.0, PlayerWidth, PlayerHeight, PlayerSpeed, Keys);
      var p2 := new Player(ScreenWidth - PlayerWidth, ScreenHeight - PlayerHeight,
                           PlayerWidth, PlayerHeight, PlayerSpeed, NoController);
      var b := new Ball(ScreenWidth / 2.0 - BallWidth / 2.0, ScreenHeight / 2.0 - BallWidth / 2.0,
                        BallWidth, BallWidth, 1.0, 1.0);
      var fb := new FollowBall(b, p2);
      p2.controller := Follow(fb);
      player1, player2, ball, ai := p1, p2, b, fb;
    }

    /** One tick: the left paddle, then the right paddle, then the ball
        against both paddles at their new positions. */
    method Update(upPressed: bool, downPressed: bool)
      requires Valid()
      modifies player1`Y, player2`Y, ai, ball
      ensures Valid()
      ensures player1.Y == Move(old(player1.Y), player1.Height, player1.Speed, ArrowKeys(upPressed, downPressed))
      ensures var d := Decide(old(ai.State()), old(ai.Sight()));
        ai.State() == d.next && player2.Y == Move(old(player2.Y), player2.Height, player2.Speed, d.dir)
      ensures Step(old(ball.State()), [Collider(player1.Bounds(), false), Collider(player2.Bounds(), false)])
        == Moved(ball.State())
    {
      player1.Update(upPressed, downPressed);
      player2.Update(upPressed, downPressed);
      ghost var cs := [Collider(player1.Bounds(), false), Collider(player2.Bounds(), false)];
      assert Snapshot(ball, [PlayerEntity(player1), PlayerEntity(player2)]) == cs;
      StepWithoutSelf(ball.State(), cs);
      var fatal := ball.Update([PlayerEntity(player1), PlayerEntity(player2)]);
      assert !fatal;
    }
  }
}
