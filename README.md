# Pong: paddles, ball and the ball-following controller

This project models the game logic of a small two-paddle Pong game, written in Go on a 2D game library, and proves properties of that model. It models two pieces:

- **The controllers.** The keyboard controller turns the states of the Up and Down arrow keys into a direction. The ball-following controller is a small state machine over `lastDecision` and `count`. While its 15-tick commit window is open it repeats its last decision. Otherwise it chases the ball if the ball is within 192 pixels (0.6 × 320) horizontally and outside a dead zone of one speed step around the paddle's Y.
- **The entities.** One tick moves a paddle by one speed step, and only if a second step would still fit on screen. One tick of the ball scans the colliders in order. The ball bounces (its X velocity is negated) off the first collider it is not in now but would be in after one step. Being handed the ball itself before any bounce is fatal. The ball then reflects off the screen edges, judged on its position before the move, and moves by the resulting velocity. A game tick updates the keyboard paddle, then the ball-following paddle, then the ball against both paddles at their new positions.

Layout:

- `geometry.dfy`, module `Geometry`: the screen size, collision boxes and the test for "the ball is in this box".
- `controller.dfy`, module `Control`: `Direction`, `ArrowKeys`, and the ball-following decision `Decide` over an `AiState` value, with lemmas about single calls and about runs of calls.
- `motion.dfy`, module `Motion`: the rules for one tick as functions. These are the paddle step `Move`, the collider scan `ScanFrom`/`FirstBounce`, the edge rules `Reflect`, and the whole ball tick `Step`. The file also holds their lemmas.
- `game.dfy`, module `Pong`: the classes whose fields each tick updates in place. These are `Player`, `Ball`, `FollowBall` and `Game`, with `Game.Setup` as the initial state. Each state-changing method is proved against the functions above.

Coordinates and speeds are `real`. Every value the game uses is integral, and 0.6 × 320 is exactly 192, so no rounding is involved. Key states are parameters of `Player.Update` and `Game.Update`. A collider is referenced as `Entity` (a paddle or a ball object). The self-collision test compares object identity, as the Go code compares pointers. `Snapshot` turns the collider list into boxes tagged "is the ball itself". The panic on self-collision becomes the `fatal` result of `Ball.Update` and the `SelfCollision` outcome of `Step`.

Where the design description and the code differ, the model follows the code:

- The vertical part of the collider test is containment (the ball lies within the paddle's vertical span), not overlap (main.go:153, 158).
- The commit window takes priority over the vision check.
- A paddle is not clamped to the screen. It refuses a step unless two steps fit. It stays on screen only when its speed is not negative.

The edge rules flip the velocity unconditionally. So a paddle bounce and a left-edge hit in the same tick cancel out, and the ball moves one more step left, to X = −1. On the next tick it is already inside the paddle's box, so the paddle does not bounce it again, and the edge rule alone turns it back. `DoubleFlipKeepsDirection` shows both ticks. The model keeps this literal behaviour.

## Model

| member | source | states |
|---|---|---|
| `Control.ArrowKeys` | controller.go:23-33 | Up exactly when only Up is pressed, Down exactly when only Down is pressed, Nothing exactly when both or neither are pressed |
| `Control.Decide` | controller.go:50-66 | an open window (count > 0) repeats lastDecision; a fresh Up/Down reply is recorded as lastDecision with count raised by 15; the state is unchanged exactly when the window was closed and the reply is Nothing (the lemmas below pin down each branch) |
| `Control.DecideCommitted` | controller.go:50-53 | with count > 0 the reply is lastDecision, count drops by exactly one, lastDecision is kept, and the ball's position makes no difference |
| `Control.DecideOutOfSight` | controller.go:54-66 | with count == 0 and the ball 192 or more pixels away horizontally, the reply is Nothing and the state is unchanged |
| `Control.DecideDeadZone` | controller.go:56-66 | with count == 0 and ballY within y ± speed, the reply is Nothing and the state is unchanged |
| `Control.DecideChase` | controller.go:54-63 | with count == 0 and the ball in sight, ballY < y − speed gives Up with state (Up, 15), and ballY > y + speed (Up not applying) gives Down with state (Down, 15) |
| `Control.DecideKeepsInv` | controller.go:50-66 | one call keeps 0 ≤ count ≤ 15 and count > 0 ⇒ lastDecision ≠ Nothing; a committed reply is never Nothing; the reply is Nothing exactly when the state is unchanged |
| `Control.FreshSatisfiesInv` | controller.go:35-40 | the zero-valued state (Up, 0) of a new follower satisfies the invariant |
| `Control.RunKeepsInv` | controller.go:43-67 | any run of calls from a state satisfying the invariant keeps it |
| `Control.CommittedRun` | controller.go:50-53 | with n ticks left, each of the next (at most n) calls repeats lastDecision whatever it sees, and count drops by one per call |
| `Control.CommitWindow` | controller.go:46-63 | after a fresh Up/Down decision the next 15 calls give that decision whatever the ball does; the window is then closed, and the 16th call answers as a new controller would |
| `Motion.Move` | main.go:111-116 | a paddle tick leaves Y unchanged for Nothing, and otherwise changes it only by −speed when asked Up or +speed when asked Down |
| `Motion.MoveGuards` | main.go:111-116 | Up moves only when Y − 2·speed ≥ 0, Down moves only when Y + height + 2·speed ≤ 240; otherwise Y is unchanged |
| `Motion.MoveKeepsOnScreen` | main.go:111-116 | with speed ≥ 0, 0 ≤ Y ∧ Y + height ≤ 240 is kept, and a paddle that moved keeps one speed step of margin to the edge it moved towards |
| `Geometry.InArea` | main.go:151-159 | the ball's box is in the collider's box exactly when the horizontal distance of their centres is at most half their widths together and the ball lies within the collider's vertical span; only a ball no taller than the collider fits |
| `Motion.BouncesOff` | main.go:151-160 | the bounce test (out of the box now, in it after one step) never holds for a ball at rest, nor for a collider shorter than the ball |
| `Motion.ScanFrom` | main.go:144-165 | a Bounced result names an entry at or after the start that is not the ball and is bounced off; a Fatal result names an entry at or after the start that is the ball itself |
| `Motion.FirstBounce` | main.go:144-165 | the same for the whole scan: Bounced names a non-ball entry that is bounced off, Fatal an entry that is the ball (FirstBounceIsFirstMatch shows it is the first such entry) |
| `Motion.ScanFromIsFirstMatch` | main.go:144-165 | from any start index: Bounced(k) exactly when entry k is the first that does not pass and is a bounce; Fatal(k) exactly when it is the first that does not pass and is the ball; Clear exactly when every entry passes |
| `Motion.FirstBounceIsFirstMatch` | main.go:144-165 | the same characterisation for the whole scan: the first matching collider wins and the scan stops there |
| `Motion.InsideNeverBounces` | main.go:152-160 | a collider the ball is already in never triggers the bounce |
| `Motion.FatalOnlyWithoutEarlierBounce` | main.go:144-164 | reaching the ball itself is fatal only when no earlier entry bounced the ball or was the ball |
| `Motion.Reflect` | main.go:167-176 | the edge rules keep the magnitude of both velocity components, and the ball then moves by the new velocity (StepXSpeed, StepYIgnoresColliders and StepLeftEdge state which flips happen) |
| `Motion.Step` | main.go:143-177 | a completed tick keeps the magnitude of both velocity components, and the new position is the old one plus the new velocity |
| `Motion.StepFatal` | main.go:144-148 | a tick is fatal exactly when some entry is the ball itself and every earlier entry passes |
| `Motion.StepWithoutSelf` | main.go:145-148 | against colliders none of which is the ball, a tick always completes |
| `Motion.StepXSpeed` | main.go:160-171 | the new XSpeed equals the old one exactly when both or neither of a paddle bounce and a side-edge hit happen, and is its negation otherwise |
| `Motion.StepYIgnoresColliders` | main.go:172-176 | YSpeed is flipped exactly by the top/bottom rule, and different collider lists give the same vertical motion |
| `Motion.StepLeftEdge` | main.go:168-171 | a ball at X ≤ 0 moving left, with no paddle bounce that tick, leaves moving right |
| `Motion.DoubleFlipKeepsDirection` | main.go:160-176 | a ball at X = 0 moving left that bounces off the left paddle in the same tick moves to X = −1, still moving left; on the next tick it is not bounced again and the edge rule returns it to X = 0, moving right |
| `Pong.Snapshot` | main.go:144-153 | each collider entry becomes its object's current box, tagged exactly when the entry is the updated ball |
| `Pong.Player.Update` | main.go:108-118 | with no controller Y is unchanged; otherwise Y is Move of the old Y in the controller's direction, the follower's state advances as Decide says, only Y and the follower change, and the paddle invariant is kept |
| `Pong.Ball.Update` | main.go:143-177 | the result is Step of the old state and the colliders' boxes: fatal with the ball unchanged, or the new state; only the ball changes |
| `Pong.Ball.ReflectAndMove` | main.go:167-176 | the new state is the edge reflections of the old velocity, tested on the old position, followed by the move |
| `Pong.FollowBall.Input` | controller.go:43-67 | the reply and the new (lastDecision, count) are exactly what Decide gives for the old state and the watched ball and paddle; the invariant is kept |
| `Pong.FollowBall.constructor` | controller.go:35-40 | a new controller is in the zero-valued state (Up, 0) and watches the given ball and paddle |
| `Pong.Game.Setup` | main.go:221-248 | paddles of 10×50 at (0, 0) and (310, 190) with speed 2, the ball 10×10 at (155, 115) with velocity (1, 1), a fresh follower on the right paddle, and the game invariant |
| `Pong.Game.Update` | main.go:194-204 | the left paddle moves by the keys; the right paddle moves by Decide on what the follower saw before the tick; the ball takes Step against both paddles at their new positions; the game invariant is kept |

## Left out

- Rendering: the `Draw` methods, `Layout`, the window setup, `main` and `RunGame` (main.go:102-106, 179-183, 206-219, 250-260). They are calls into the game library with no game logic.
- Key polling (`ebiten.IsKeyPressed`). The two key states are parameters of `Player.Update` and `Game.Update`.
- Sprite creation and filling. Width and height are plain constant fields taken from the sprite sizes.
- The TPS/FPS diagnostic printing in `Game.Update` (main.go:199-202). It is output only and does not affect control flow. `Game.Update` always returns without error, so the model gives it no result.
- IEEE float64 arithmetic and `math.Abs`. Values are `real`, which is exact for the integral values the game uses.
- Go interface dispatch. `Controller` is a three-way choice: no controller, the arrow keys, or a ball follower object. The collider interface is a two-way choice between a paddle object and a ball object.
- The copy of the controller declarations in main.go:17-75. It repeats controller.go:9-67 and is modelled once.
- Game.Update: requires the game to have the structure `Setup` builds (distinct paddles, the left one on the keys, the right one driven by the follower that watches it and the ball). It states nothing for games built otherwise.
- Ball.Update: states the self-collision panic as a `fatal` result with the ball unchanged. It does not model the unwinding of the process.
