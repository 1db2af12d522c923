# A verified model of the platformer's simulation core

The game (`src/main.cpp`) is a small OpenGL/GLFW prototype. The player, drawn
as a humanoid around a cube-shaped collision box, runs and jumps over a floor
and two floating platforms. A clown chases the player across them. A catch
sends the player back to its spawn point and the clown to (4, floor, -4). This
project models the two pieces of logic in that file:

- **The per-frame simulation in the main loop.** This covers four steps:
  - the player's kinematic step: input direction, gravity, jump and integration;
  - grounding against the floor (platform 0), then a "land on top" pass over
    the finite platforms;
  - the clown's pursuit, its jump cooldown and its clamped jump;
  - the catch that resets both bodies.

  The game writes the grounding loop twice, once per body. Here it is one
  routine, `Collision.GroundBody`, parameterised by the body's half size.
  `Collision.GroundBody` is specified by the pure fold `Collision.Resolve`.
  `Player` and `Enemy` are classes whose methods update their fields in place.
  `Actors.Frame` runs one iteration of the loop in the game's order.
- **The integer procedural textures.** These are the checker, stripe, dots and
  fabric textures. Each builder fills a fresh byte array in nested row/column
  loops, and is proved to write exactly the pixel-rule function `Textures.Color`
  at index `(y * size + x) * 3 + c`.

Files:

- `vectors.dfy`: vectors, clamping, and the stated properties of
  `glm::normalize` and `std::sqrt`.
- `collision.dfy`: platforms, bodies, grounding, and the fixed-point results.
- `actors.dfy`: constants, the level, the input direction, the clown's jump
  rule, the `Player` and `Enemy` classes, the catch, and one frame.
- `textures.dfy`: pixel rules, buffer layout, the four fill methods, and
  pattern properties.

Modelling choices:

- **Coordinates are `real`.** This idealises the game's 32-bit floats;
  rounding is not modelled.
- **Library calls become parameters.** `glm::normalize` and `std::sqrt` are
  function-typed parameters. Their properties are stated as
  `Vectors.IsNormalizer` (unit length, parallel, same direction for a
  nonzero argument) and `Vectors.IsSqrt` (the non-negative square root).
- **Lengths are compared as squares.** The game compares `glm::length` and
  `glm::distance` against bounds; the model compares squared lengths against
  squared bounds. `Vectors.SqrtCompare`, `Actors.ShouldJumpIsRangeTest` and
  `Actors.CaughtIsDistanceTest` prove the two forms agree.
- **Inputs are parameters.** The step methods take the keys held, the frame
  time and the camera basis as parameters.

## Model

| member | source | states |
|---|---|---|
| Vectors.Abs | src/main.cpp:545-546 | std::abs: non-negative, and equal to the argument or its negation |
| Vectors.Clamp | src/main.cpp:577 | glm::clamp stays within [lo, hi], leaves a value already inside unchanged, gives lo for a value below lo and hi for a value above hi |
| Vectors.SqrtCompare | src/main.cpp:576-578 | comparing sqrt(t) with a bound is the same as comparing t with the squared bound, both for < and for > |
| Vectors.NormalizeHorizontal | src/main.cpp:503-504 | normalizing a nonzero horizontal vector gives a horizontal vector of unit horizontal length |
| Vectors.SquareLess | src/main.cpp:576 | proof helper: for non-negative a and b, a < b exactly when a*a < b*b |
| Vectors.HorizontalLengthSqScale | src/main.cpp:523-524 | proof helper: scaling a vector by k scales its squared horizontal length by k*k |
| Vectors.LengthSqOfCombination | src/main.cpp:506-518 | proof helper: squared length of a f + b r, expanded |
| Collision.GroundOnFloor | src/main.cpp:534-540 | after the floor check the bottom is at or above the floor top, and the body is grounded exactly when it was below the floor top; a snap sets the bottom to the floor top and stops vertical motion; otherwise position and velocity are unchanged; x/z are never touched |
| Collision.Overlaps | src/main.cpp:545-546 | the footprint test: the body is within the platform's half extents plus its own half size in X and in Z, bounds included |
| Collision.Lands | src/main.cpp:545-553 | the landing guard: footprint overlap, not rising, bottom below the top and centre above top - 0.6 |
| Collision.SnapTo | src/main.cpp:536-539 | a snap: the centre goes to the given height, vertical speed to 0, and the body is grounded |
| Collision.LandOn | src/main.cpp:542-556 | a platform changes the body only if the body overlaps it in X and Z (inclusive), is not rising, has its bottom below the top and its centre above top - 0.6; when it lands, the body stands on the top with zero vertical speed and grounded; x/z never change and y never decreases |
| Collision.LandPass | src/main.cpp:542-556 | the pass over platforms 1..n-1 leaves x/z alone, never lowers the body, and either changes nothing or leaves it grounded, at rest, standing on the top of one of those platforms with its footprint over that platform |
| Collision.Resolve | src/main.cpp:534-556 | after grounding, the bottom is at or above the floor top and y never decreased; an ungrounded body kept its position and velocity; a grounded one has zero vertical speed and stands on the floor or on the top of a platform whose footprint it overlaps |
| Collision.GroundBody | src/main.cpp:534-556 | the game's grounding loop (the same code at 585-606 for the clown) computes exactly Resolve |
| Collision.LandPassSingle | src/main.cpp:542-556 | when only platform k can touch the body, the pass is platform k's landing test alone |
| Collision.OnlyOverlap | src/main.cpp:545-546 | under the single-overlap condition there is an index k outside which no platform touches the body |
| Collision.ResolveIsFixedPoint | src/main.cpp:534-556 | when at most one finite platform touches the body, grounding a just-grounded body again changes neither position nor velocity, and only clears the ground flag |
| Collision.ResolveLandsOnPlatform | src/main.cpp:548-554 | a floored body in the landing band of the only platform it touches ends the step standing on that platform's top, at rest and grounded |
| Collision.StackedPlatformsBreakFixedPoint | src/main.cpp:542-556 | counterexample: with two stacked platforms that both touch the body, a second grounding lifts the body onto the upper platform |
| Actors.Steer | src/main.cpp:507-518 | one key pair: add the basis vector for the plus key, then subtract it for the minus key |
| Actors.InputDirection | src/main.cpp:506-518 | the raw input: forwardXZ for W, minus for S, then rightXZ for D, minus for A (its meaning is stated by InputDirectionOnBasis) |
| Actors.SteerIsScaledAdd | src/main.cpp:507-518 | one key pair adds Net(plus, minus) copies of its basis vector |
| Actors.InputDirectionOnBasis | src/main.cpp:506-518 | the raw input is Net(W,S) forwardXZ + Net(D,A) rightXZ |
| Actors.CombinationOnBasis | src/main.cpp:506-518 | on an orthonormal horizontal basis, a f + b r is horizontal with squared length a*a + b*b |
| Actors.OrthonormalSum | src/main.cpp:506-518 | proof helper: the expanded squared length reduces to a*a + b*b for an orthonormal basis |
| Actors.MoveDirection | src/main.cpp:519-521 | a direction no longer than 0.001 is used unnormalized |
| Actors.MoveDirectionIsUnit | src/main.cpp:519-521 | a direction longer than 0.001 becomes unit length; a horizontal one stays horizontal with horizontal length at most 1 |
| Actors.CameraBasis | src/main.cpp:503-504 | for a non-vertical view, forwardXZ and rightXZ as the game derives them form a horizontal orthonormal basis |
| Actors.SideOfUnit | src/main.cpp:504 | forwardXZ x up is forwardXZ turned a quarter turn, of unit length |
| Actors.SideIsOrthogonal | src/main.cpp:504 | a vector parallel to that quarter turn is orthogonal to forwardXZ |
| Actors.InputCancelsOrMoves | src/main.cpp:506-518 | the held keys either cancel exactly (zero direction) or give a horizontal direction of length at least 1 |
| Actors.NetSquaresSum | src/main.cpp:506-518 | unless both key pairs cancel, Net(W,S)^2 + Net(D,A)^2 >= 1 |
| Actors.SpeedOfDirection | src/main.cpp:519-524 | a zero direction gives no horizontal speed; a long enough horizontal one gives exactly the requested speed |
| Actors.MoveSpeedIsExact | src/main.cpp:506-524 | the player runs at exactly 5.0 horizontally whenever the held keys do not cancel, and stands still horizontally when they do |
| Actors.ChaseDirection | src/main.cpp:559-560 | the chase vector is horizontal, has the horizontal length of the offset player - clown, and its projection on that offset equals the offset's squared horizontal length, so it is exactly the flattened offset |
| Actors.ChaseTowardsTarget | src/main.cpp:559-566 | whenever the player is not straight above or below the clown, the clown's horizontal velocity has a positive projection on the offset player - clown: it runs towards the player |
| Actors.MoveDirectionAgrees | src/main.cpp:561-563 | proof helper: the move direction of a nonzero vector has a positive dot product with it, whether it was normalized (as at :519-521 and :561-563) or kept |
| Actors.ChaseProjection | src/main.cpp:565-566 | proof helper: the horizontal projection of a scaled direction on the chase offset is the speed times its dot product with the chase vector |
| Actors.PositiveProduct | src/main.cpp:565-566 | proof helper: the product of two positive reals is positive |
| Actors.ChaseSpeedBound | src/main.cpp:559-566 | the clown's horizontal speed never exceeds its speed, and equals it when the player is more than 0.001 away horizontally |
| Actors.TickCooldown | src/main.cpp:569-571 | the cooldown decreases by dt only while positive, and never increases for dt >= 0 |
| Actors.ShouldJump | src/main.cpp:576 | the jump trigger: grounded, cooldown over, gap above 0.4 and squared horizontal distance below 5.5^2 |
| Actors.ShouldJumpIsRangeTest | src/main.cpp:574-576 | the squared-distance trigger is exactly the game's test: grounded, cooldown over, gap above 0.4 and horizontal distance below 5.5 |
| Actors.JumpHeight | src/main.cpp:577 | the jump height lies in [0.8, 2.4], equals gap + 0.4 for gaps in [0.4, 2.0], and is 2.4 for larger gaps |
| Actors.JumpVelocity | src/main.cpp:578 | the launch speed is non-negative, its square is 2 * 18 * height, and it is positive for a positive height |
| Actors.JumpApex | src/main.cpp:576-579 | a triggered jump launches upwards; the apex of that launch speed under smooth motion, v^2 / (2 * 18), is the clamped height, between 0.8 and 2.4, and is at least the gap exactly when the gap is at most 2.4 (the frame-by-frame rise of the game differs; see Left out) |
| Actors.LengthSqNonNegative | src/main.cpp:609 | proof helper: squared lengths are non-negative |
| Actors.Caught | src/main.cpp:608-609 | the catch test on squares: squared distance below the squared hit distance |
| Actors.CaughtIsDistanceTest | src/main.cpp:608-609 | the squared catch test is exactly glm::distance(player, clown) < hitDistance |
| Actors.ClownReset | src/main.cpp:612 | where a catch puts the clown: (4, enemyGround, -4) |
| Actors.ResetIsNotCaught | src/main.cpp:608-614 | right after a reset the bodies are too far apart to be caught again, at any floor height |
| Actors.Level | src/main.cpp:447-451 | the game's three platforms: the floor and two finite platforms, tints left out |
| Actors.LevelPlatformsApart | src/main.cpp:447-451 | on the game's level no body of half size up to 0.5 touches both finite platforms, and both platform tops are above the floor top |
| Actors.LevelGroundingIsFixedPoint | src/main.cpp:447-451 | on the game's level, grounding a just-grounded player (0.5) or clown (0.45) again changes neither position nor velocity |
| Actors.Player.constructor | src/main.cpp:103-108 | a new player is at (0, 2, 0), at rest and not grounded |
| Actors.Player.Step | src/main.cpp:519-532 | horizontal velocity is the input direction times 5; vertical velocity gains -18 dt; a jump (Space while grounded) sets vertical speed 7 and clears the ground flag, and nothing else changes the flag; position advances by velocity dt |
| Actors.Player.Ground | src/main.cpp:534-556 | the player's new state is Resolve of the old one with half size 0.5, and a grounded player has zero vertical speed |
| Actors.Enemy.constructor | src/main.cpp:110-117 | a new clown is at (4, 0, -4), at rest, not grounded, with no cooldown |
| Actors.Enemy.Chase | src/main.cpp:559-583 | horizontal velocity is the chase direction times 3.2; when the jump trigger holds on the ticked cooldown, vertical speed is sqrt(36 * JumpHeight(gap)) and the cooldown is 0.6; otherwise vertical speed gains -18 dt and the cooldown is the ticked one; position advances by velocity dt |
| Actors.Enemy.Ground | src/main.cpp:585-606 | the clown's new state is Resolve of the old one with half size 0.45, its jump cooldown is unchanged, and a grounded clown has zero vertical speed |
| Actors.CatchAndReset | src/main.cpp:608-615 | the reset fires exactly when the bodies are closer than 0.5 + 0.45 + 0.1; it then puts the player at spawn with zero velocity and the clown at (4, enemyGround, -4), at rest and grounded; otherwise both bodies are untouched |
| Actors.Frame | src/main.cpp:506-615 | after a frame, both bodies are at rest when grounded and the clown is never below the floor; the player is not below the floor unless the catch reset it, in which case both bodies are at their reset values |
| Textures.ClampInt | src/main.cpp:258-261 | glm::clamp<int> stays within [lo, hi], leaves a value already inside unchanged, gives lo for a value below lo and hi for a value above hi |
| Textures.DivModUnique | src/main.cpp:136 | proof helper: the quotient and remainder of n by d are the unique q and r with n = q d + r and 0 <= r < d |
| Textures.MultipleAtLeast | src/main.cpp:136 | proof helper: a positive multiple of d is at least d |
| Textures.PixelIndex | src/main.cpp:135-140 | index (y size + x) 3 + c lies in the buffer and decodes back to pixel (x, y), channel c |
| Textures.IndexPixel | src/main.cpp:132-140 | every buffer index decodes to an in-range pixel (x, y) and channel c that encode back to it, so the fill writes every byte; that no other (x, y, c) lands there is PixelIndex's |
| Textures.ImagePixel | src/main.cpp:136-140 | in a finished image, channel c of pixel (x, y) sits at (y size + x) 3 + c and holds that channel of the pixel's colour |
| Textures.FillPixel | src/main.cpp:133-141 | writing pixel (x, y) in row-major order extends the correctly filled prefix by three bytes |
| Textures.BuildCheckerTexture | src/main.cpp:130-142 | the fill yields a 64 x 64 x 3 buffer whose every byte is that of the checker pattern |
| Textures.BuildStripeTexture | src/main.cpp:157-169 | the fill yields a 64 x 64 x 3 buffer whose every byte is that of the stripe pattern |
| Textures.BuildDotsTexture | src/main.cpp:184-200 | starting from a buffer of base bytes and overwriting only dot pixels yields exactly the dots pattern |
| Textures.BuildFabricTexture | src/main.cpp:250-263 | the fill yields a 128 x 128 x 3 buffer whose every byte is that of the fabric pattern |
| Textures.CheckerShade | src/main.cpp:136-137 | the checker rule: 220 where the 8-pixel square indices have an odd sum, else 40; always 40 or 220 |
| Textures.StripeShade | src/main.cpp:163-164 | the stripe rule: a in odd 6-pixel bands, else b; always one of the two |
| Textures.InDot | src/main.cpp:189-193 | the dot rule: (x mod 16 - 8)^2 + (y mod 16 - 8)^2 <= 16 |
| Textures.FabricRed | src/main.cpp:256-258 | the fabric red rule: base, plus stripe in even 10-pixel bands, minus 8 on weave lines, clamped; always in [20, 230] |
| Textures.FabricShade | src/main.cpp:258-261 | the fabric colour: its red is FabricRed, green and blue exactly 10 and 20 below it |
| Textures.GrayPatterns | src/main.cpp:137-197 | checker (:137-140), stripe (:165-167) and dots (:195-197) pixels have three equal channels |
| Textures.CheckerAlternates | src/main.cpp:136-137 | every checker pixel is 40 or 220, and moving 8 pixels across or down flips the shade |
| Textures.CheckerTiles | src/main.cpp:130-148 | the 64-pixel checker repeats without a seam under GL_REPEAT wrapping |
| Textures.EighthsOfWrap | src/main.cpp:136 | proof helper: x / 8 is (x mod 64) / 8 plus 8 (x / 64) |
| Textures.StripeAlternates | src/main.cpp:163-164 | stripes are 6 pixels wide and, for a != b, alternate between the two shades |
| Textures.StripeSeam | src/main.cpp:157-175 | 64 is not a multiple of the 12-pixel stripe period: columns 60..63 and 0..5 are all b, and for a != b columns 59 and 6 are a, so the b band across the wrap is exactly 10 pixels wide |
| Textures.DotFootprint | src/main.cpp:189-193 | a dot lies within [4, 12] of its 16 x 16 cell on both axes, so dots never touch, and every cell centre is a dot |
| Textures.DotsTile | src/main.cpp:184-206 | for distinct shades a pixel shows the dot shade exactly inside a dot, and the dots texture repeats without a seam |
| Textures.SixteenthsOfWrap | src/main.cpp:189-190 | proof helper: wrapping by 64 does not change the position inside a 16-pixel cell |
| Textures.FabricChannels | src/main.cpp:258-261 | the fabric's red channel lies in [20, 230], and green and blue are exactly 10 and 20 below it, so their clamps never cut in |
| Textures.FabricWeaveDarker | src/main.cpp:257-258 | a weave row is never lighter than another pixel of the same column |

## Left out

- GLFW windowing, input polling, the clock (`glfwGetTime`) and every GL call are not modelled: shaders, vertex buffers, texture upload and mipmaps, drawing, and the buffer swap. The keys, the frame time and the camera basis are parameters.
- `ReadFile` (`src/main.cpp:19-28`) is file I/O and is not part of this model.
- Camera yaw/pitch, `cameraForward`, `lookAt` and `perspective` (`src/main.cpp:471-504`, `617-625`) are trigonometry. The step methods take `forwardXZ` and `rightXZ` as parameters. `Actors.CameraBasis` shows that the game's derivation of them from any non-vertical view gives the orthonormal horizontal basis the speed lemmas assume.
- `BuildPlankTexture`, `BuildSkinTexture` and `BuildMetalTexture` are not modelled. They compute their bytes with `float` and `std::sin`, so the bytes depend on floating-point rounding.
- Float rounding in general: `glm::normalize`, `glm::length`, `glm::distance` and `std::sqrt` are abstract, and only the properties in `Vectors.IsNormalizer` and `Vectors.IsSqrt` are assumed of them.
- The platforms' `tint` is only used for rendering and is not modelled.
- Collision.ResolveIsFixedPoint: the natural statement ("grounding again changes nothing") is false when two finite platforms both touch the body's footprint. `Collision.StackedPlatformsBreakFixedPoint` shows this. The lemma therefore assumes at most one such platform. The game's own level always meets that assumption, as `Actors.LevelGroundingIsFixedPoint` shows. No assumption that platform tops lie above the floor is needed. The fixed point keeps the ground flag only up to clearing it: a body resting exactly on a surface fails the strict "bottom below the top" test, so a second pass ungrounds it.
- Actors.Enemy.Ground: the clown's floor test is written `position.y < enemyGround` with `enemyGround = groundTop + halfSize` (`src/main.cpp:558`, `585-590`). Over the reals this is the player's form `position.y - halfSize < groundTop`, so both bodies use `Collision.GroundBody`.
- Actors.Frame: the frame contract states grounding and reset facts only. The horizontal speeds are in `Actors.MoveSpeedIsExact` and `Actors.ChaseSpeedBound`, which hold for the game's derived camera basis and for `Vectors.IsNormalizer`.
- The fill buffer is modelled as an `array` of bytes (`0..255`) rather than a `std::vector<unsigned char>`. The `static_cast<unsigned char>` in the fabric fill never truncates, because every value is already clamped into range (`Textures.FabricChannels`).
- Actors.JumpApex: the apex it states, v^2 / (2 * 18), is that of smooth motion. The game moves the clown frame by frame (velocity at `src/main.cpp:567`/`579`, then position at `583`), so the real rise depends on the frame time and exceeds this apex by roughly v dt / 2; the model does not bound that discrete rise.
