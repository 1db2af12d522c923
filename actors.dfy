// The per-frame simulation of the game's main loop: the player's kinematic
// step, the clown chaser's pursuit and jump, the grounding of both against the
// level, and the catch that resets them. Keyboard state, the camera basis
// and the frame time are parameters; glm::normalize and std::sqrt are
// function-typed parameters with the properties of Vectors.IsNormalizer and
// Vectors.IsSqrt. Coordinates are reals, an idealisation of 32-bit floats.
module Actors {
  import opened Vectors
  import opened Collision

  const Gravity: real := -18.0
  const MoveSpeed: real := 5.0
  const JumpSpeed: real := 7.0
  const PlayerSpawn: Vec3 := Vec3(0.0, 2.0, 0.0)
  const ClownStart: Vec3 := Vec3(4.0, 0.0, -4.0)

  /** glm::length(dir) > 0.001, compared on squares. */
  const MinDirectionLengthSq: real := 0.001 * 0.001

  /** The clown jumps only at a player at least this much higher ... */
  const JumpMinGap: real := 0.4
  /** ... and closer than this horizontally. */
  const JumpRange: real := 5.5
  const JumpCooldownTime: real := 0.6
  const CatchMargin: real := 0.1

  /** The level of the game: the floor (platform 0) and two finite platforms. */
  const Level: seq<Platform> := [
    Platform(Vec3(0.0, -1.0, 0.0), Vec3(10.0, 0.5, 10.0)),
    Platform(Vec3(3.0, 1.0, 0.0), Vec3(1.5, 0.3, 1.5)),
    Platform(Vec3(-2.5, 2.2, -1.5), Vec3(1.0, 0.3, 1.0))
  ]

  /** Keys held down this frame: W, S, D, A and Space. */
  datatype Keys = Keys(forward: bool, back: bool, right: bool, left: bool, jump: bool)

  /** The number (-1, 0 or 1) of times a basis vector enters the input sum. */
  function Net(plus: bool, minus: bool): real {
    (if plus then 1.0 else 0.0) - (if minus then 1.0 else 0.0)
  }

  /** Adds v for a held "plus" key, then subtracts it for a held "minus" key. */
  function Steer(d: Vec3, v: Vec3, plus: bool, minus: bool): Vec3 {
    var added := if plus then Add(d, v) else d;
    if minus then Sub(added, v) else added
  }

  lemma SteerIsScaledAdd(d: Vec3, v: Vec3, plus: bool, minus: bool)
    ensures Steer(d, v, plus, minus) == Add(d, Scale(v, Net(plus, minus)))
  {
    if plus && !minus {
      assert Scale(v, 1.0) == v;
    } else if !plus && minus {
      assert Scale(v, -1.0) == Sub(Zero, v);
    } else {
      assert Scale(v, 0.0) == Zero;
    }
  }

  /** The raw input direction: forwardXZ added for W, subtracted for S, then
      rightXZ added for D, subtracted for A. */
  function InputDirection(keys: Keys, forwardXZ: Vec3, rightXZ: Vec3): Vec3 {
    Steer(Steer(Zero, forwardXZ, keys.forward, keys.back), rightXZ, keys.right, keys.left)
  }

  /** The input sum is Net(W, S) forwardXZ + Net(D, A) rightXZ. */
  lemma InputDirectionOnBasis(keys: Keys, forwardXZ: Vec3, rightXZ: Vec3)
    ensures InputDirection(keys, forwardXZ, rightXZ) ==
            Add(Scale(forwardXZ, Net(keys.forward, keys.back)), Scale(rightXZ, Net(keys.right, keys.left)))
  {
    SteerIsScaledAdd(Zero, forwardXZ, keys.forward, keys.back);
    SteerIsScaledAdd(Steer(Zero, forwardXZ, keys.forward, keys.back), rightXZ, keys.right, keys.left);
  }

  lemma CombinationOnBasis(f: Vec3, r: Vec3, a: real, b: real)
    requires HorizontalBasis(f, r)
    ensures var d := Add(Scale(f, a), Scale(r, b));
            d.y == 0.0 && LengthSq(d) == a * a + b * b
  {
    LengthSqOfCombination(f, r, a, b);
    OrthonormalSum(a, b, LengthSq(f), LengthSq(r), Dot(f, r));
  }

  lemma OrthonormalSum(a: real, b: real, lf: real, lr: real, fr: real)
    requires lf == 1.0 && lr == 1.0 && fr == 0.0
    ensures a * a * lf + 2.0 * a * b * fr + b * b * lr == a * a + b * b
  {
  }

  /** A direction normalized only when it is longer than 0.001; a shorter
      one is used as it is. */
  function MoveDirection(d: Vec3, normalize: Vec3 -> Vec3): (r: Vec3)
    ensures LengthSq(d) <= MinDirectionLengthSq ==> r == d
  {
    if LengthSq(d) > MinDirectionLengthSq then normalize(d) else d
  }

  /** The direction used for movement has unit length when the raw one is
      long enough, and stays horizontal, of length at most 1, when the raw
      one is horizontal. */
  lemma MoveDirectionIsUnit(d: Vec3, normalize: Vec3 -> Vec3)
    requires IsNormalizer(normalize)
    ensures LengthSq(d) > MinDirectionLengthSq ==> LengthSq(MoveDirection(d, normalize)) == 1.0
    ensures d.y == 0.0 ==>
              MoveDirection(d, normalize).y == 0.0 && HorizontalLengthSq(MoveDirection(d, normalize)) <= 1.0
  {
    if LengthSq(d) > MinDirectionLengthSq {
      NormalizeHorizontal(normalize, d);
    } else if d.y == 0.0 {
      assert HorizontalLengthSq(d) == LengthSq(d);
    }
  }

  /** The camera's horizontal basis: two orthogonal horizontal unit vectors. */
  ghost predicate HorizontalBasis(forwardXZ: Vec3, rightXZ: Vec3) {
    forwardXZ.y == 0.0 && rightXZ.y == 0.0 &&
    LengthSq(forwardXZ) == 1.0 && LengthSq(rightXZ) == 1.0 && Dot(forwardXZ, rightXZ) == 0.0
  }

  const Up: Vec3 := Vec3(0.0, 1.0, 0.0)

  /** The camera basis the game derives from the view direction,
      forwardXZ = normalize(flattened view) and rightXZ = normalize(forwardXZ x up),
      is a horizontal orthonormal basis whenever the view is not vertical. */
  lemma CameraBasis(normalize: Vec3 -> Vec3, cameraForward: Vec3)
    requires IsNormalizer(normalize)
    requires HorizontalLengthSq(cameraForward) > 0.0
    ensures var forwardXZ := normalize(cameraForward.(y := 0.0));
            HorizontalBasis(forwardXZ, normalize(Cross(forwardXZ, Up)))
  {
    var flat := cameraForward.(y := 0.0);
    var f := normalize(flat);
    assert f.y == 0.0 && LengthSq(f) == 1.0 by {
      assert LengthSq(flat) == HorizontalLengthSq(cameraForward);
      NormalizeHorizontal(normalize, flat);
    }
    var side := Cross(f, Up);
    SideOfUnit(f);
    var r := normalize(side);
    assert r.y == 0.0 && LengthSq(r) == 1.0 && Cross(side, r) == Zero by {
      NormalizeHorizontal(normalize, side);
    }
    SideIsOrthogonal(f, r);
  }

  /** forwardXZ x up is forwardXZ turned a quarter turn about the vertical. */
  lemma SideOfUnit(f: Vec3)
    requires f.y == 0.0 && LengthSq(f) == 1.0
    ensures Cross(f, Up) == Vec3(-f.z, 0.0, f.x)
    ensures LengthSq(Cross(f, Up)) == 1.0
  {
  }

  /** A vector parallel to the quarter turn of f is orthogonal to f. */
  lemma SideIsOrthogonal(f: Vec3, r: Vec3)
    requires f.y == 0.0 && r.y == 0.0
    requires Cross(Vec3(-f.z, 0.0, f.x), r) == Zero
    ensures Dot(f, r) == 0.0
  {
    assert Cross(Vec3(-f.z, 0.0, f.x), r).y == f.x * r.x + f.z * r.z;
  }

  /** With an orthonormal horizontal camera basis, the player runs at exactly
      the move speed whenever the held keys do not cancel out, and stands
      still horizontally when they do. */
  lemma MoveSpeedIsExact(keys: Keys, forwardXZ: Vec3, rightXZ: Vec3, normalize: Vec3 -> Vec3)
    requires IsNormalizer(normalize)
    requires HorizontalBasis(forwardXZ, rightXZ)
    ensures var dir := MoveDirection(InputDirection(keys, forwardXZ, rightXZ), normalize);
            var v := Scale(dir, MoveSpeed);
            HorizontalLengthSq(v) ==
              if keys.forward == keys.back && keys.right == keys.left
              then 0.0 else MoveSpeed * MoveSpeed
  {
    InputCancelsOrMoves(keys, forwardXZ, rightXZ);
    SpeedOfDirection(InputDirection(keys, forwardXZ, rightXZ), MoveSpeed, normalize);
  }

  /** Held keys either cancel out exactly or give a horizontal direction of
      length at least 1. */
  lemma InputCancelsOrMoves(keys: Keys, forwardXZ: Vec3, rightXZ: Vec3)
    requires HorizontalBasis(forwardXZ, rightXZ)
    ensures var d := InputDirection(keys, forwardXZ, rightXZ);
            if keys.forward == keys.back && keys.right == keys.left then d == Zero
            else d.y == 0.0 && LengthSq(d) >= 1.0
  {
    var d := InputDirection(keys, forwardXZ, rightXZ);
    if keys.forward == keys.back && keys.right == keys.left {
      InputDirectionOnBasis(keys, forwardXZ, rightXZ);
      assert Scale(forwardXZ, 0.0) == Zero && Scale(rightXZ, 0.0) == Zero;
    } else {
      InputDirectionOnBasis(keys, forwardXZ, rightXZ);
      CombinationOnBasis(forwardXZ, rightXZ, Net(keys.forward, keys.back), Net(keys.right, keys.left));
      NetSquaresSum(keys);
    }
  }

  /** Running along a direction at the given speed. */
  lemma SpeedOfDirection(d: Vec3, speed: real, normalize: Vec3 -> Vec3)
    requires IsNormalizer(normalize)
    ensures d == Zero ==> HorizontalLengthSq(Scale(MoveDirection(d, normalize), speed)) == 0.0
    ensures d.y == 0.0 && LengthSq(d) > MinDirectionLengthSq ==>
              HorizontalLengthSq(Scale(MoveDirection(d, normalize), speed)) == speed * speed
  {
    var dir := MoveDirection(d, normalize);
    HorizontalLengthSqScale(dir, speed);
    MoveDirectionIsUnit(d, normalize);
    if d.y == 0.0 && LengthSq(d) > MinDirectionLengthSq {
      NormalizeHorizontal(normalize, d);
    }
  }

  lemma NetSquaresSum(keys: Keys)
    requires !(keys.forward == keys.back && keys.right == keys.left)
    ensures var a, b := Net(keys.forward, keys.back), Net(keys.right, keys.left);
            a * a + b * b >= 1.0
  {
    var a, b := Net(keys.forward, keys.back), Net(keys.right, keys.left);
    assert a * a >= 0.0 && b * b >= 0.0;
    if keys.forward != keys.back {
      assert a == 1.0 || a == -1.0;
      assert a * a == 1.0;
    } else {
      assert b == 1.0 || b == -1.0;
      assert b * b == 1.0;
    }
  }

  /** The clown's horizontal chase vector: towards the target, height ignored. */
  function ChaseDirection(target: Vec3, from: Vec3): (d: Vec3)
    ensures d.y == 0.0 && HorizontalLengthSq(d) == HorizontalLengthSq(Sub(target, from))
    ensures d.x * (target.x - from.x) + d.z * (target.z - from.z) == HorizontalLengthSq(Sub(target, from))
  {
    Sub(target, from).(y := 0.0)
  }

  /** Whenever the player is not straight above or below, the clown's
      velocity points towards the player: its horizontal projection on the
      offset player - clown is positive. */
  lemma ChaseTowardsTarget(target: Vec3, from: Vec3, speed: real, normalize: Vec3 -> Vec3)
    requires IsNormalizer(normalize) && speed > 0.0 && HorizontalLengthSq(Sub(target, from)) > 0.0
    ensures var v := Scale(MoveDirection(ChaseDirection(target, from), normalize), speed);
            v.x * (target.x - from.x) + v.z * (target.z - from.z) > 0.0
  {
    var d := ChaseDirection(target, from);
    var dir := MoveDirection(d, normalize);
    assert LengthSq(d) > 0.0;
    MoveDirectionAgrees(d, normalize);
    ChaseProjection(target, from, dir, speed);
    PositiveProduct(speed, Dot(d, dir));
    var v := Scale(dir, speed);
    assert v.x * (target.x - from.x) + v.z * (target.z - from.z) == speed * Dot(d, dir);
    assert speed * Dot(d, dir) > 0.0;
    assert v.x * (target.x - from.x) + v.z * (target.z - from.z) > 0.0;
  }

  /** MoveDirection keeps a nonzero direction's sense. */
  lemma MoveDirectionAgrees(d: Vec3, normalize: Vec3 -> Vec3)
    requires IsNormalizer(normalize) && LengthSq(d) > 0.0
    ensures Dot(d, MoveDirection(d, normalize)) > 0.0
  {
    if LengthSq(d) <= MinDirectionLengthSq {
      assert Dot(d, d) == LengthSq(d);
    }
  }

  /** The projection of a scaled direction on the chase offset. */
  lemma ChaseProjection(target: Vec3, from: Vec3, dir: Vec3, speed: real)
    ensures var v := Scale(dir, speed);
            v.x * (target.x - from.x) + v.z * (target.z - from.z) == speed * Dot(ChaseDirection(target, from), dir)
  {
    var d := ChaseDirection(target, from);
    assert (dir.x * speed) * d.x == speed * (d.x * dir.x);
    assert (dir.z * speed) * d.z == speed * (d.z * dir.z);
  }

  lemma PositiveProduct(a: real, b: real)
    requires a > 0.0 && b > 0.0
    ensures a * b > 0.0
  { }

  /** The clown never outruns its speed, and runs at exactly its speed when it
      is more than 0.001 away from the player horizontally. */
  lemma ChaseSpeedBound(target: Vec3, from: Vec3, speed: real, normalize: Vec3 -> Vec3)
    requires IsNormalizer(normalize)
    ensures var dir := MoveDirection(ChaseDirection(target, from), normalize);
            HorizontalLengthSq(Scale(dir, speed)) <= speed * speed &&
            (HorizontalLengthSq(Sub(target, from)) > MinDirectionLengthSq ==>
               HorizontalLengthSq(Scale(dir, speed)) == speed * speed)
  {
    var d := ChaseDirection(target, from);
    var dir := MoveDirection(d, normalize);
    assert LengthSq(d) == HorizontalLengthSq(d);
    HorizontalLengthSqScale(dir, speed);
    assert 0.0 <= speed * speed;
    MoveDirectionIsUnit(d, normalize);
  }

  /** One frame of the jump cooldown: it runs down only while positive. */
  function TickCooldown(cooldown: real, dt: real): (r: real)
    ensures cooldown > 0.0 ==> r == cooldown - dt
    ensures cooldown <= 0.0 ==> r == cooldown
    ensures dt >= 0.0 ==> r <= cooldown
  {
    if cooldown > 0.0 then cooldown - dt else cooldown
  }

  /** The clown's jump trigger, with the horizontal distance compared on squares. */
  predicate ShouldJump(onGround: bool, cooldown: real, gap: real, horizDistSq: real) {
    onGround && cooldown <= 0.0 && gap > JumpMinGap && horizDistSq < JumpRange * JumpRange
  }

  /** The squared comparison is the game's test glm::length(...) < 5.5. */
  lemma ShouldJumpIsRangeTest(sqrt: real -> real, onGround: bool, cooldown: real, gap: real, horizDistSq: real)
    requires IsSqrt(sqrt) && horizDistSq >= 0.0
    ensures ShouldJump(onGround, cooldown, gap, horizDistSq) <==>
            onGround && cooldown <= 0.0 && gap > JumpMinGap && sqrt(horizDistSq) < JumpRange
  {
    SqrtCompare(sqrt, horizDistSq, JumpRange);
  }

  /** The clearance the clown jumps for: the gap plus 0.4, kept in [0.8, 2.4]. */
  function JumpHeight(gap: real): (h: real)
    ensures 0.8 <= h <= 2.4
    ensures 0.4 <= gap <= 2.0 ==> h == gap + 0.4
    ensures gap > 2.0 ==> h == 2.4
  {
    Clamp(gap + 0.4, 0.8, 2.4)
  }

  /** The launch speed that rises exactly h under the game's gravity. */
  function JumpVelocity(sqrt: real -> real, h: real): (v: real)
    requires IsSqrt(sqrt) && h >= 0.0
    ensures v >= 0.0 && v * v == 2.0 * -Gravity * h
    ensures h > 0.0 ==> v > 0.0
  {
    sqrt(2.0 * -Gravity * h)
  }

  /** A triggered jump launches upwards, and the apex of that launch speed
      under smooth motion, v^2 / (2 * 18), is the clamped jump height: it lies
      between 0.8 and 2.4 and is at least the gap exactly when the gap is at
      most 2.4. The game integrates frame by frame, which rises somewhat
      higher than this smooth apex. */
  lemma JumpApex(sqrt: real -> real, gap: real)
    requires IsSqrt(sqrt) && gap > JumpMinGap
    ensures var v := JumpVelocity(sqrt, JumpHeight(gap));
            var apex := v * v / (2.0 * -Gravity);
            v > 0.0 && 0.8 <= apex <= 2.4 && (apex >= gap <==> gap <= 2.4)
  {
    var h := JumpHeight(gap);
    var v := JumpVelocity(sqrt, h);
    assert v * v / (2.0 * -Gravity) == h;
  }

  /** The catch test glm::distance(p, c) < hitDistance, compared on squares. */
  predicate Caught(playerPos: Vec3, clownPos: Vec3, hitDistance: real) {
    LengthSq(Sub(playerPos, clownPos)) < hitDistance * hitDistance
  }

  lemma LengthSqNonNegative(v: Vec3)
    ensures LengthSq(v) >= 0.0
  {
    assert v.x * v.x >= 0.0 && v.y * v.y >= 0.0 && v.z * v.z >= 0.0;
  }

  lemma CaughtIsDistanceTest(sqrt: real -> real, playerPos: Vec3, clownPos: Vec3, hitDistance: real)
    requires IsSqrt(sqrt) && hitDistance >= 0.0
    ensures Caught(playerPos, clownPos, hitDistance) <==>
            sqrt(LengthSq(Sub(playerPos, clownPos))) < hitDistance
  {
    LengthSqNonNegative(Sub(playerPos, clownPos));
    SqrtCompare(sqrt, LengthSq(Sub(playerPos, clownPos)), hitDistance);
  }

  /** Where a catch puts the clown, on the floor. */
  function ClownReset(enemyGround: real): Vec3 {
    Vec3(4.0, enemyGround, -4.0)
  }

  /** After a reset the two bodies are too far apart to be caught again,
      whatever the floor height. */
  lemma ResetIsNotCaught(enemyGround: real)
    ensures !Caught(PlayerSpawn, ClownReset(enemyGround), 0.5 + 0.45 + CatchMargin)
  {
    var d := Sub(PlayerSpawn, ClownReset(enemyGround));
    assert d.y * d.y >= 0.0;
    assert LengthSq(d) >= 32.0;
  }

  /** The level's finite platforms are far apart: no body of half size up to
      0.5 touches both, and both stand above the floor. */
  lemma LevelPlatformsApart(halfSize: real, pos: Vec3)
    requires 0.0 <= halfSize <= 0.5
    ensures AtMostOneOverlap(Level, halfSize, pos)
    ensures forall i :: 1 <= i < |Level| ==> Top(Level[i]) >= Top(Level[0])
  {
    if Overlaps(Level[1], halfSize, pos) {
      assert pos.x >= 1.0;
      assert !Overlaps(Level[2], halfSize, pos);
    }
  }

  /** On the game's level, grounding a just-grounded player or clown changes
      neither position nor velocity. */
  lemma LevelGroundingIsFixedPoint(halfSize: real, b: Body)
    requires 0.0 <= halfSize <= 0.5
    ensures Resolve(Level, halfSize, Resolve(Level, halfSize, b)) ==
            Resolve(Level, halfSize, b).(onGround := false)
  {
    LevelPlatformsApart(halfSize, b.position);
    ResolveIsFixedPoint(Level, halfSize, b);
  }

  class Player {
    var position: Vec3
    var velocity: Vec3
    var onGround: bool
    const halfSize: real := 0.5

    constructor ()
      ensures position == PlayerSpawn && velocity == Zero && !onGround
    {
      position := PlayerSpawn;
      velocity := Zero;
      onGround := false;
    }

    function State(): Body
      reads this
    {
      Body(position, velocity, onGround)
    }

    /** A grounded body has no vertical speed. */
    ghost predicate Resting()
      reads this
    {
      onGround ==> velocity.y == 0.0
    }

    /** Input, gravity, jump and integration of one frame. */
    method Step(dt: real, keys: Keys, forwardXZ: Vec3, rightXZ: Vec3, normalize: Vec3 -> Vec3)
      modifies this
      ensures var dir := MoveDirection(InputDirection(keys, forwardXZ, rightXZ), normalize);
              velocity.x == dir.x * MoveSpeed && velocity.z == dir.z * MoveSpeed
      ensures keys.jump && old(onGround) ==> velocity.y == JumpSpeed && !onGround
      ensures !(keys.jump && old(onGround)) ==>
                velocity.y == old(velocity.y) + Gravity * dt && onGround == old(onGround)
      ensures position == Add(old(position), Scale(velocity, dt))
    {
      var inputDir := MoveDirection(InputDirection(keys, forwardXZ, rightXZ), normalize);
      velocity := velocity.(x := inputDir.x * MoveSpeed, z := inputDir.z * MoveSpeed);
      velocity := velocity.(y := velocity.y + Gravity * dt);
      if keys.jump && onGround {
        velocity := velocity.(y := JumpSpeed);
        onGround := false;
      }
      position := Add(position, Scale(velocity, dt));
    }

    method Ground(platforms: seq<Platform>)
      requires |platforms| >= 1
      modifies this
      ensures State() == Resolve(platforms, halfSize, old(State()))
      ensures Resting()
    {
      var r := GroundBody(platforms, halfSize, State());
      position, velocity, onGround := r.position, r.velocity, r.onGround;
    }
  }

  class Enemy {
    var position: Vec3
    var velocity: Vec3
    var onGround: bool
    var jumpCooldown: real
    const halfSize: real := 0.45
    const speed: real := 3.2

    constructor ()
      ensures position == ClownStart && velocity == Zero && !onGround && jumpCooldown == 0.0
    {
      position := ClownStart;
      velocity := Zero;
      onGround := false;
      jumpCooldown := 0.0;
    }

    function State(): Body
      reads this
    {
      Body(position, velocity, onGround)
    }

    ghost predicate Resting()
      reads this
    {
      onGround ==> velocity.y == 0.0
    }

    /** Pursuit of the target, gravity, cooldown, jump decision and integration. */
    method Chase(target: Vec3, dt: real, normalize: Vec3 -> Vec3, sqrt: real -> real)
      requires IsSqrt(sqrt)
      modifies this
      ensures var dir := MoveDirection(ChaseDirection(target, old(position)), normalize);
              velocity.x == dir.x * speed && velocity.z == dir.z * speed
      ensures var cooldown := TickCooldown(old(jumpCooldown), dt);
              var gap := target.y - old(position).y;
              if ShouldJump(old(onGround), cooldown,  gap, HorizontalLengthSq(Sub(target, old(position))))
              then velocity.y == JumpVelocity(sqrt, JumpHeight(gap)) && jumpCooldown == JumpCooldownTime
              else velocity.y == old(velocity.y) + Gravity * dt && jumpCooldown == cooldown
      ensures onGround == old(onGround)
      ensures position == Add(old(position), Scale(velocity, dt))
    {
      var chaseDir := MoveDirection(ChaseDirection(target, position), normalize);
      var verticalSpeed := velocity.y + Gravity * dt;
      var cooldown := TickCooldown(jumpCooldown, dt);
      var playerHeightGap := target.y - position.y;
      var horizDistSq := HorizontalLengthSq(Sub(target, position));
      if ShouldJump(onGround, cooldown, playerHeightGap, horizDistSq) {
        verticalSpeed := JumpVelocity(sqrt, JumpHeight(playerHeightGap));
        cooldown := JumpCooldownTime;
      }
      velocity := Vec3(chaseDir.x * speed, verticalSpeed, chaseDir.z * speed);
      jumpCooldown := cooldown;
      position := Add(position, Scale(velocity, dt));
    }

    method Ground(platforms: seq<Platform>)
      requires |platforms| >= 1
      modifies this
      ensures State() == Resolve(platforms, halfSize, old(State()))
      ensures jumpCooldown == old(jumpCooldown)
      ensures Resting()
    {
      var r := GroundBody(platforms, halfSize, State());
      position, velocity, onGround := r.position, r.velocity, r.onGround;
    }
  }

  /** When the bodies' centres come closer than the sum of their half sizes
      plus 0.1, the player goes back to spawn and the clown to (4, enemyGround, -4). */
  method CatchAndReset(player: Player, clown: Enemy, enemyGround: real) returns (caught: bool)
    modifies player, clown
    ensures caught == Caught(old(player.position), old(clown.position), player.halfSize + clown.halfSize + CatchMargin)
    ensures caught ==>
              player.position == PlayerSpawn && player.velocity == Zero &&
              player.onGround == old(player.onGround) &&
              clown.position == ClownReset(enemyGround) && clown.velocity == Zero && clown.onGround &&
              clown.jumpCooldown == old(clown.jumpCooldown)
    ensures !caught ==> unchanged(player) && unchanged(clown)
  {
    var hitDistance := player.halfSize + clown.halfSize + CatchMargin;
    caught := LengthSq(Sub(player.position, clown.position)) < hitDistance * hitDistance;
    if caught {
      player.position := PlayerSpawn;
      player.velocity := Zero;
      clown.position := ClownReset(enemyGround);
      clown.velocity := Zero;
      clown.onGround := true;
    }
  }

  /** One iteration of the game loop's simulation, in the game's order: the
      clown chases the player's already grounded position. */
  method Frame(player: Player, clown: Enemy, platforms: seq<Platform>, dt: real, keys: Keys,
               forwardXZ: Vec3, rightXZ: Vec3, normalize: Vec3 -> Vec3, sqrt: real -> real)
      returns (caught: bool)
    requires |platforms| >= 1
    requires IsSqrt(sqrt)
    modifies player, clown
    ensures player.Resting() && clown.Resting()
    ensures clown.position.y - clown.halfSize >= Top(platforms[0])
    ensures !caught ==> player.position.y - player.halfSize >= Top(platforms[0])
    ensures caught ==>
              player.position == PlayerSpawn && player.velocity == Zero &&
              clown.position == ClownReset(Top(platforms[0]) + clown.halfSize) &&
              clown.velocity == Zero && clown.onGround
  {
    player.Step(dt, keys, forwardXZ, rightXZ, normalize);
    player.Ground(platforms);
    var enemyGround := Top(platforms[0]) + clown.halfSize;
    clown.Chase(player.position, dt, normalize, sqrt);
    clown.Ground(platforms);
    caught := CatchAndReset(player, clown, enemyGround);
  }
}
