// Grounding of a kinematic body against the level: the infinite floor
// (platform 0) and a "land on top" pass over the finite platforms 1..n-1.
// The game writes the same pass twice, once for the player and once for the
// clown; here it is one method parameterised by the body's half size.
module Collision {
  import opened Vectors

  /** A static box. The render-only tint is not part of the model. */
  datatype Platform = Platform(position: Vec3, halfExtents: Vec3)

  /** The kinematic state the grounding pass reads and writes. */
  datatype Body = Body(position: Vec3, velocity: Vec3, onGround: bool)

  /** How far below a platform's top the body's centre may be and still land. */
  const LandingTolerance: real := 0.6

  function Top(p: Platform): real {
    p.position.y + p.halfExtents.y
  }

  /** The body's X/Z footprint touches the platform's (inclusive bounds). */
  predicate Overlaps(p: Platform, halfSize: real, pos: Vec3) {
    Abs(pos.x - p.position.x) <= p.halfExtents.x + halfSize &&
    Abs(pos.z - p.position.z) <= p.halfExtents.z + halfSize
  }

  /** The landing guard of one finite platform. */
  predicate Lands(p: Platform, halfSize: real, b: Body) {
    Overlaps(p, halfSize, b.position) && b.velocity.y <= 0.0 &&
    b.position.y - halfSize < Top(p) && b.position.y > Top(p) - LandingTolerance
  }

  /** Puts the body's centre at height y, stops its vertical motion and grounds it. */
  function SnapTo(b: Body, y: real): Body {
    Body(b.position.(y := y), b.velocity.(y := 0.0), true)
  }

  /** Only the vertical coordinate, vertical speed and ground flag may differ. */
  predicate SameHorizontal(a: Body, b: Body) {
    a.position.x == b.position.x && a.position.z == b.position.z &&
    a.velocity.x == b.velocity.x && a.velocity.z == b.velocity.z
  }

  /** Floor check: the ground flag is cleared, then a body whose bottom is
      below the floor top is snapped onto it. */
  function GroundOnFloor(floorTop: real, halfSize: real, b: Body): (r: Body)
    ensures SameHorizontal(r, b)
    ensures r.position.y - halfSize >= floorTop
    ensures r.position.y >= b.position.y
    ensures r.onGround <==> b.position.y - halfSize < floorTop
    ensures r.onGround ==> r.position.y - halfSize == floorTop && r.velocity.y == 0.0
    ensures !r.onGround ==> r.position == b.position && r.velocity == b.velocity
  {
    var cleared := b.(onGround := false);
    if b.position.y - halfSize < floorTop then SnapTo(cleared, floorTop + halfSize) else cleared
  }

  /** One finite platform of the landing pass. */
  function LandOn(p: Platform, halfSize: real, b: Body): (r: Body)
    ensures SameHorizontal(r, b)
    ensures r.position.y >= b.position.y
    ensures r != b ==>
      Abs(b.position.x - p.position.x) <= p.halfExtents.x + halfSize &&
      Abs(b.position.z - p.position.z) <= p.halfExtents.z + halfSize &&
      b.velocity.y <= 0.0 &&
      b.position.y - halfSize < Top(p) &&
      b.position.y > Top(p) - LandingTolerance
    ensures Lands(p, halfSize, b) ==>
      r.position.y == Top(p) + halfSize && r.velocity.y == 0.0 && r.onGround
  {
    if Lands(p, halfSize, b) then SnapTo(b, Top(p) + halfSize) else b
  }

  /** The landing pass over platforms 1..n-1, in list order; a later landing
      overrides an earlier one. */
  function LandPass(platforms: seq<Platform>, n: nat, halfSize: real, b: Body): (r: Body)
    requires n <= |platforms|
    ensures SameHorizontal(r, b)
    ensures r.position.y >= b.position.y
    ensures r == b || (r.onGround && r.velocity.y == 0.0 &&
                       exists i :: 1 <= i < n && Overlaps(platforms[i], halfSize, r.position) &&
                                    r.position.y - halfSize == Top(platforms[i]))
  {
    if n <= 1 then b
    else
      var before := LandPass(platforms, n - 1, halfSize, b);
      LandOn(platforms[n - 1], halfSize, before)
  }

  /** The whole grounding step of one frame: floor, then every finite platform. */
  function Resolve(platforms: seq<Platform>, halfSize: real, b: Body): (r: Body)
    requires |platforms| >= 1
    ensures SameHorizontal(r, b)
    ensures r.position.y >= b.position.y
    ensures r.position.y - halfSize >= Top(platforms[0])
    ensures !r.onGround ==> r.position == b.position && r.velocity == b.velocity
    ensures r.onGround ==>
              r.velocity.y == 0.0 &&
              (r.position.y - halfSize == Top(platforms[0]) ||
               exists i :: 1 <= i < |platforms| && Overlaps(platforms[i], halfSize, r.position) &&
                           r.position.y - halfSize == Top(platforms[i]))
  {
    LandPass(platforms, |platforms|, halfSize, GroundOnFloor(Top(platforms[0]), halfSize, b))
  }

  /** The grounding loop of the game, for a body of the given half size. */
  method GroundBody(platforms: seq<Platform>, halfSize: real, b: Body) returns (r: Body)
    requires |platforms| >= 1
    ensures r == Resolve(platforms, halfSize, b)
  {
    r := b.(onGround := false);
    var groundTop := Top(platforms[0]);
    if r.position.y - halfSize < groundTop {
      r := Body(r.position.(y := groundTop + halfSize), r.velocity.(y := 0.0), true);
    }
    ghost var floored := r;
    assert floored == GroundOnFloor(groundTop, halfSize, b);
    for i := 1 to |platforms|
      invariant r == LandPass(platforms, i, halfSize, floored)
    {
      var platform := platforms[i];
      var platformTop := platform.position.y + platform.halfExtents.y;
      var withinX := Abs(r.position.x - platform.position.x) <= platform.halfExtents.x + halfSize;
      var withinZ := Abs(r.position.z - platform.position.z) <= platform.halfExtents.z + halfSize;
      var falling := r.velocity.y <= 0.0;
      if withinX && withinZ && falling {
        var bottom := r.position.y - halfSize;
        if bottom < platformTop && r.position.y > platformTop - LandingTolerance {
          r := Body(r.position.(y := platformTop + halfSize), r.velocity.(y := 0.0), true);
        }
      }
    }
  }

  /** No two finite platforms both touch the footprint of a body at pos. */
  ghost predicate AtMostOneOverlap(platforms: seq<Platform>, halfSize: real, pos: Vec3) {
    forall i, j ::
      (1 <= i < |platforms| && 1 <= j < |platforms| &&
       Overlaps(platforms[i], halfSize, pos) && Overlaps(platforms[j], halfSize, pos)) ==> i == j
  }

  /** When platform k is the only finite platform that can touch the body,
      the pass is just platform k's test (or nothing if k is not among 1..n-1). */
  lemma {:induction false} LandPassSingle(platforms: seq<Platform>, n: nat, halfSize: real, b: Body, k: int)
    requires n <= |platforms|
    requires forall i :: 1 <= i < n && i != k ==> !Overlaps(platforms[i], halfSize, b.position)
    ensures LandPass(platforms, n, halfSize, b) ==
            if 1 <= k < n then LandOn(platforms[k], halfSize, b) else b
  {
    if n > 1 {
      LandPassSingle(platforms, n - 1, halfSize, b, k);
      var before := LandPass(platforms, n - 1, halfSize, b);
      if n - 1 != k {
        assert before.position.x == b.position.x && before.position.z == b.position.z;
        assert !Overlaps(platforms[n - 1], halfSize, before.position);
      }
    }
  }

  /** The finite platform, if any, whose footprint touches a body at pos. */
  lemma OnlyOverlap(platforms: seq<Platform>, halfSize: real, pos: Vec3) returns (k: int)
    requires AtMostOneOverlap(platforms, halfSize, pos)
    ensures forall i :: 1 <= i < |platforms| && i != k ==> !Overlaps(platforms[i], halfSize, pos)
    ensures 1 <= k < |platforms| ==> Overlaps(platforms[k], halfSize, pos)
  {
    if i :| 1 <= i < |platforms| && Overlaps(platforms[i], halfSize, pos) {
      k := i;
    } else {
      k := 0;
    }
  }

  /** Fixed point: re-running the grounding step on a body it has just
      grounded changes neither position nor velocity. The ground flag ends up
      false, because a body resting exactly on a surface fails the strict
      "bottom below the top" test. */
  lemma ResolveIsFixedPoint(platforms: seq<Platform>, halfSize: real, b: Body)
    requires |platforms| >= 1
    requires AtMostOneOverlap(platforms, halfSize, b.position)
    ensures Resolve(platforms, halfSize, Resolve(platforms, halfSize, b)) ==
            Resolve(platforms, halfSize, b).(onGround := false)
  {
    var n := |platforms|;
    var floorTop := Top(platforms[0]);
    var k := OnlyOverlap(platforms, halfSize, b.position);
    var floored := GroundOnFloor(floorTop, halfSize, b);
    LandPassSingle(platforms, n, halfSize, floored, k);
    var r := Resolve(platforms, halfSize, b);
    var again := GroundOnFloor(floorTop, halfSize, r);
    assert again == r.(onGround := false);
    LandPassSingle(platforms, n, halfSize, again, k);
    if 1 <= k < n {
      if !Lands(platforms[k], halfSize, floored) {
        assert r == floored;
        assert !Lands(platforms[k], halfSize, again);
      } else {
        assert r.position.y - halfSize == Top(platforms[k]);
        assert !Lands(platforms[k], halfSize, again);
      }
    }
  }

  /** A falling body in the landing band of the only platform it touches ends
      the step standing on that platform. */
  lemma ResolveLandsOnPlatform(platforms: seq<Platform>, halfSize: real, b: Body, k: nat)
    requires 1 <= k < |platforms|
    requires AtMostOneOverlap(platforms, halfSize, b.position)
    requires Lands(platforms[k], halfSize, GroundOnFloor(Top(platforms[0]), halfSize, b))
    ensures var r := Resolve(platforms, halfSize, b);
      r.position.y - halfSize == Top(platforms[k]) && r.velocity.y == 0.0 && r.onGround
  {
    var floored := GroundOnFloor(Top(platforms[0]), halfSize, b);
    var j := OnlyOverlap(platforms, halfSize, b.position);
    assert Overlaps(platforms[k], halfSize, b.position);
    assert j == k;
    LandPassSingle(platforms, |platforms|, halfSize, floored, k);
  }

  /** Two stacked platforms that both touch the body: the second run of
      the step lands on the upper one, so the fixed point needs the
      single-overlap precondition. */
  lemma StackedPlatformsBreakFixedPoint()
    ensures var platforms := [Platform(Vec3(0.0, -0.5, 0.0), Vec3(10.0, 0.5, 10.0)),
                              Platform(Vec3(0.0, 1.0, 0.0), Vec3(1.0, 0.2, 1.0)),
                              Platform(Vec3(0.0, 0.2, 0.0), Vec3(1.0, 0.1, 1.0))];
            var b := Body(Vec3(0.0, 0.3, 0.0), Zero, false);
            Resolve(platforms, 0.5, Resolve(platforms, 0.5, b)).position !=
            Resolve(platforms, 0.5, b).position
  {
    var platforms := [Platform(Vec3(0.0, -0.5, 0.0), Vec3(10.0, 0.5, 10.0)),
                      Platform(Vec3(0.0, 1.0, 0.0), Vec3(1.0, 0.2, 1.0)),
                      Platform(Vec3(0.0, 0.2, 0.0), Vec3(1.0, 0.1, 1.0))];
    var b := Body(Vec3(0.0, 0.3, 0.0), Zero, false);
    var floored := GroundOnFloor(0.0, 0.5, b);
    assert floored.position.y == 0.5;
    assert !Lands(platforms[1], 0.5, floored);
    assert LandPass(platforms, 2, 0.5, floored) == floored;
    var first := Resolve(platforms, 0.5, b);
    assert first.position.y == 0.8;
    var again := GroundOnFloor(0.0, 0.5, first);
    assert again.position.y == 0.8;
    assert Lands(platforms[1], 0.5, again);
    assert LandPass(platforms, 2, 0.5, again).position.y == 1.7;
  }
}
