/** Paddle controllers: the arrow-key reader and the ball-following heuristic,
    as pure functions of their inputs and of the heuristic's state. */
module Control {
  import opened Geometry

  /** The controller's answer for one tick. `Up` is the zero value. */
  datatype Direction = Up | Down | Nothing

  /** The keyboard controller over the two arrow-key states: contradictory or
      absent input means no movement. */
  function ArrowKeys(upPressed: bool, downPressed: bool): (d: Direction)
    ensures d == Up <==> upPressed && !downPressed
    ensures d == Down <==> downPressed && !upPressed
    ensures d == Nothing <==> upPressed == downPressed
  {
    if upPressed == downPressed then Nothing
    else if upPressed then Up
    else Down
  }

  /** Number of ticks a fresh Up/Down decision is kept. */
  const DecisionBuffer: int := 15

  /** How far away horizontally the heuristic can still see the ball. */
  const VisionRange: real := 0.6 * ScreenWidth

  /** The state the heuristic carries between ticks. */
  datatype AiState = AiState(lastDecision: Direction, count: int)

  /** The zero-valued state a new heuristic starts in. */
  const Fresh: AiState := AiState(Up, 0)

  /** What the heuristic looks at on one tick: the ball's top-left corner,
      the paddle's top-left corner and the paddle's speed. */
  datatype Sighting = Sighting(ballX: real, ballY: real, x: real, y: real, speed: real)

  /** The answer for one tick together with the state for the next. */
  datatype Decision = Decision(dir: Direction, next: AiState)

  /** One call of the ball-following heuristic. An open window repeats the
      last decision; a fresh Up/Down decision is recorded and opens a window
      of DecisionBuffer ticks; and the state stays as it was exactly when the
      window was closed and the reply is Nothing. */
  function Decide(s: AiState, o: Sighting): (d: Decision)
    ensures s.count > 0 ==> d.dir == s.lastDecision
    ensures s.count <= 0 && d.dir != Nothing ==> d.next == AiState(d.dir, s.count + DecisionBuffer)
    ensures d.next == s <==> s.count <= 0 && d.dir == Nothing
  {
    if s.count > 0 then
      Decision(s.lastDecision, s.(count := s.count - 1))
    else if Abs(o.ballX - o.x) < VisionRange then
      if o.ballY < o.y - o.speed then
        Decision(Up, AiState(Up, s.count + DecisionBuffer))
      else if o.ballY > o.y + o.speed then
        Decision(Down, AiState(Down, s.count + DecisionBuffer))
      else
        Decision(Nothing, s)
    else
      Decision(Nothing, s)
  }

  /** The invariant of the heuristic's state: the counter stays within the
      commit window, and an open window always holds a real decision. */
  predicate Inv(s: AiState)
  {
    0 <= s.count <= DecisionBuffer && (s.count > 0 ==> s.lastDecision != Nothing)
  }

  /** The answers to a run of consecutive calls. */
  function Replies(s: AiState, obs: seq<Sighting>): seq<Direction>
    decreases |obs|
  {
    if obs == [] then []
    else
      var d := Decide(s, obs[0]);
      [d.dir] + Replies(d.next, obs[1..])
  }

  /** The state after a run of consecutive calls. */
  function After(s: AiState, obs: seq<Sighting>): AiState
    decreases |obs|
  {
    if obs == [] then s else After(Decide(s, obs[0]).next, obs[1..])
  }

  /** While the commit window is open the last decision is repeated, the
      counter drops by one, and where the ball is does not matter. */
  lemma DecideCommitted(s: AiState, o: Sighting, o': Sighting)
    requires s.count > 0
    ensures Decide(s, o).dir == s.lastDecision
    ensures Decide(s, o).next == AiState(s.lastDecision, s.count - 1)
    ensures Decide(s, o) == Decide(s, o')
  {
  }

  /** With the window closed, a ball too far away horizontally is ignored. */
  lemma DecideOutOfSight(s: AiState, o: Sighting)
    requires s.count == 0 && Abs(o.ballX - o.x) >= VisionRange
    ensures Decide(s, o) == Decision(Nothing, s)
  {
  }

  /** With the window closed, a ball within one speed step of the paddle's Y
      is ignored. */
  lemma DecideDeadZone(s: AiState, o: Sighting)
    requires s.count == 0 && o.y - o.speed <= o.ballY <= o.y + o.speed
    ensures Decide(s, o) == Decision(Nothing, s)
  {
  }

  /** With the window closed and the ball in sight, a ball above the dead
      zone gives Up and a ball below it gives Down (Up is tested first, which
      matters only for a negative speed), and either opens a fifteen-tick
      window. */
  lemma DecideChase(s: AiState, o: Sighting)
    requires s.count == 0 && Abs(o.ballX - o.x) < VisionRange
    ensures o.ballY < o.y - o.speed ==> Decide(s, o) == Decision(Up, AiState(Up, DecisionBuffer))
    ensures o.y - o.speed <= o.ballY && o.ballY > o.y + o.speed ==> Decide(s, o) == Decision(Down, AiState(Down, DecisionBuffer))
  {
  }

  /** One call keeps the invariant; a committed reply is never Nothing; and a
      reply of Nothing is exactly a call that leaves the state as it was. */
  lemma DecideKeepsInv(s: AiState, o: Sighting)
    requires Inv(s)
    ensures Inv(Decide(s, o).next)
    ensures s.count > 0 ==> Decide(s, o).dir != Nothing
    ensures Decide(s, o).dir == Nothing <==> Decide(s, o).next == s
  {
  }

  /** The zero-valued state a new heuristic starts in satisfies the invariant. */
  lemma FreshSatisfiesInv()
    ensures Inv(Fresh)
  {
  }

  /** Every run of calls keeps the invariant, so with FreshSatisfiesInv it holds
      after any number of calls on a new heuristic. */
  lemma {:induction false} RunKeepsInv(s: AiState, obs: seq<Sighting>)
    requires Inv(s)
    ensures Inv(After(s, obs))
    decreases |obs|
  {
    if obs != [] {
      DecideKeepsInv(s, obs[0]);
      RunKeepsInv(Decide(s, obs[0]).next, obs[1..]);
    }
  }

  /** With `count` ticks left in the window, the next (at most `count`) calls
      all repeat the last decision whatever they see, and use up one tick each. */
  lemma {:induction false} CommittedRun(s: AiState, obs: seq<Sighting>)
    requires |obs| <= s.count
    ensures |Replies(s, obs)| == |obs|
    ensures forall i :: 0 <= i < |obs| ==> Replies(s, obs)[i] == s.lastDecision
    ensures After(s, obs) == AiState(s.lastDecision, s.count - |obs|)
    decreases |obs|
  {
    if obs != [] {
      var n := Decide(s, obs[0]).next;
      assert n == AiState(s.lastDecision, s.count - 1);
      CommittedRun(n, obs[1..]);
      assert Replies(s, obs) == [s.lastDecision] + Replies(n, obs[1..]);
    }
  }

  /** After a fresh Up/Down decision, the next fifteen calls give that same
      decision whatever the ball does, and the sixteenth answers exactly as a
      new heuristic would. */
  lemma CommitWindow(s: AiState, o: Sighting, obs: seq<Sighting>, o16: Sighting)
    requires s.count == 0 && Decide(s, o).dir != Nothing
    requires |obs| == DecisionBuffer
    ensures var d := Decide(s, o);
      && |Replies(d.next, obs)| == DecisionBuffer
      && (forall i :: 0 <= i < DecisionBuffer ==> Replies(d.next, obs)[i] == d.dir)
      && After(d.next, obs).count == 0
      && Decide(After(d.next, obs), o16).dir == Decide(Fresh, o16).dir
  {
    var d := Decide(s, o);
    assert d.next == AiState(d.dir, DecisionBuffer);
    CommittedRun(d.next, obs);
  }
}
