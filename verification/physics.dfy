/**
 The player's kinetics, run once per displayed frame: constant-gravity
 integration of the eye height with a clamp to the resting height that re-arms
 the jump, the jump impulse, and the horizontal velocity chosen from the held
 movement keys.

 Lengths and speeds are fixed-point integers: one world unit is SCALE steps,
 so every constant of the game is a whole number of steps and the arithmetic
 is exact.
 */
module Physics {

  const SCALE := 20
  /** Speed lost per frame: 0.15 units. */
  const GRAVITY := 3
  /** Upward speed given by a jump: 0.8 units. */
  const JUMP_FORCE := 16
  /** Resting eye height: 2 units. */
  const PLAYER_HEIGHT := 2 * SCALE
  /** Horizontal step per frame for a held movement key: 0.1 units. */
  const STEP := 2

  /**
   The vertical state of the player: eye height `y`, vertical speed `vy`, and
   the two flags that say whether a jump may start and whether one is under way.
   */
  datatype Body = Body(y: int, vy: int, canJump: bool, isJumping: bool)

  /** Standing at the resting height, not moving, jump armed. */
  const Rest := Body(PLAYER_HEIGHT, 0, true, false)

  /** The clamp branch of a frame: at or below the resting height and not rising. */
  predicate OnGround(b: Body) {
    b.y <= PLAYER_HEIGHT && b.vy <= 0
  }

  /**
   The relations between the fields that every reachable state keeps: a jump
   is under way exactly when it is not armed, an armed jump means the player
   stands still at the resting height, and below the resting height the player
   is always falling.
   */
  predicate Consistent(b: Body) {
    && b.isJumping == !b.canJump
    && (b.canJump ==> b.y == PLAYER_HEIGHT && b.vy == 0)
    && (b.y < PLAYER_HEIGHT ==> b.vy < 0)
  }

  /** The vertical part of one frame. */
  function Gravity(b: Body): Body {
    if b.y > PLAYER_HEIGHT || b.vy > 0 then
      var vy := b.vy - GRAVITY;
      b.(vy := vy, y := b.y + vy)
    else
      b.(y := PLAYER_HEIGHT, vy := 0, canJump := true, isJumping := false)
  }

  /** The space bar: an impulse only when the jump is armed. */
  function Jump(b: Body): Body {
    if b.canJump then b.(vy := JUMP_FORCE, canJump := false, isJumping := true) else b
  }

  /** `n` frames in a row. */
  function Run(b: Body, n: nat): Body
    decreases n
  {
    if n == 0 then b else Run(Gravity(b), n - 1)
  }

  /**
   The number of free-fall frames before the clamp branch is taken. That it is
   a total function is the statement that every fall ends: while rising the
   speed drops by GRAVITY each frame, and once falling the height drops by at
   least GRAVITY each frame.
   */
  function LandingTime(b: Body): (n: nat)
    ensures OnGround(Run(b, n))
    decreases if b.vy > 0 then b.vy else 0, if b.y > PLAYER_HEIGHT then b.y - PLAYER_HEIGHT else 0
  {
    if OnGround(b) then 0 else 1 + LandingTime(Gravity(b))
  }

  /**
   One frame, as the class performs it, on the plain values: gravity or the
   clamp, and the resulting state in each case.
   */
  lemma GravityCases(b: Body)
    ensures OnGround(b) ==> Gravity(b) == Rest
    ensures !OnGround(b) ==> Gravity(b).vy == b.vy - GRAVITY && Gravity(b).y == b.y + Gravity(b).vy
    ensures !OnGround(b) ==> Gravity(b).canJump == b.canJump && Gravity(b).isJumping == b.isJumping
  {
  }

  /** Frames and jumps keep the reachable-state relations. */
  lemma ConsistentPreserved(b: Body)
    requires Consistent(b)
    ensures Consistent(Gravity(b)) && Consistent(Jump(b))
  {
  }

  /** The player never stays below the resting height: the next frame puts them back on it. */
  lemma BelowRestLandsNext(b: Body)
    requires Consistent(b) && b.y < PLAYER_HEIGHT
    ensures Gravity(b) == Rest
  {
  }

  /** A jump is refused, and nothing changes, while one is under way. */
  lemma JumpOnlyWhenArmed(b: Body)
    requires Consistent(b)
    ensures b.isJumping ==> Jump(b) == b
    ensures !b.isJumping ==> Jump(b).vy == JUMP_FORCE && Jump(b).isJumping && !Jump(b).canJump
  {
  }

  /** Running `n + 1` frames is running `n` frames and then one more. */
  lemma {:induction false} RunLast(b: Body, n: nat)
    ensures Run(b, n + 1) == Gravity(Run(b, n))
    decreases n
  {
    if n > 0 {
      RunLast(Gravity(b), n - 1);
    }
  }

  /** No frame before the landing time takes the clamp branch. */
  lemma {:induction false} LandingTimeIsFirst(b: Body, k: nat)
    requires k < LandingTime(b)
    ensures !OnGround(Run(b, k))
    decreases k
  {
    if k > 0 {
      LandingTimeIsFirst(Gravity(b), k - 1);
    }
  }

  /**
   From any state the player is back at rest, jump re-armed, one frame after
   the landing time, and stays there for every later frame.
   */
  lemma {:induction false} ComesToRest(b: Body, m: nat)
    requires m > LandingTime(b)
    ensures Run(b, m) == Rest
    decreases m
  {
    var t := LandingTime(b);
    if m == t + 1 {
      RunLast(b, t);
    } else {
      ComesToRest(b, m - 1);
      RunLast(b, m - 1);
    }
  }

  /**
   A jump from rest: ten frames in the air, reaching 3.75 units (75 steps) on
   the way, and back at rest on the eleventh frame.
   */
  lemma JumpFromRest()
    ensures LandingTime(Jump(Rest)) == 10
    ensures Run(Jump(Rest), 5).y == 75
    ensures forall k :: 0 <= k <= 10 ==> Run(Jump(Rest), k).y <= 75
    ensures Run(Jump(Rest), 11) == Rest
  {
    var b0 := Jump(Rest);
    var b1 := Gravity(b0);
    var b2 := Gravity(b1);
    var b3 := Gravity(b2);
    var b4 := Gravity(b3);
    var b5 := Gravity(b4);
    var b6 := Gravity(b5);
    var b7 := Gravity(b6);
    var b8 := Gravity(b7);
    var b9 := Gravity(b8);
    var b10 := Gravity(b9);
    assert b5 == Body(75, 1, false, true);
    assert b10 == Body(35, -14, false, true);
    assert LandingTime(b10) == 0 && Run(b10, 1) == Rest;
    assert LandingTime(b9) == 1 && Run(b9, 2) == Rest;
    assert LandingTime(b8) == 2 && Run(b8, 3) == Rest;
    assert LandingTime(b7) == 3 && Run(b7, 4) == Rest;
    assert LandingTime(b6) == 4 && Run(b6, 5) == Rest;
    assert LandingTime(b5) == 5 && Run(b5, 6) == Rest;
    assert LandingTime(b4) == 6 && Run(b4, 7) == Rest;
    assert LandingTime(b3) == 7 && Run(b3, 8) == Rest;
    assert LandingTime(b2) == 8 && Run(b2, 9) == Rest;
    assert LandingTime(b1) == 9 && Run(b1, 10) == Rest;
    assert LandingTime(b0) == 10 && Run(b0, 11) == Rest;
    assert Run(b0, 5) == b5;
    forall k | 0 <= k <= 10 ensures Run(b0, k).y <= 75 {
      if k <= 5 {
        assert Run(b0, k) in [b0, b1, b2, b3, b4, b5];
      } else {
        assert Run(b5, k - 5) in [b5, b6, b7, b8, b9, b10];
      }
    }
  }

  /**
   The velocity along one horizontal axis for the two opposing keys of that
   axis: zero when neither is held, one STEP in the direction of the key held,
   and the positive key wins when both are held.
   */
  function AxisVelocity(negative: bool, positive: bool): (v: int)
    ensures v == STEP <==> positive
    ensures v == -STEP <==> negative && !positive
    ensures v == 0 <==> !negative && !positive
  {
    if positive then STEP else if negative then -STEP else 0
  }
}
