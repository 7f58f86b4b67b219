# Christmassy sled game: verified model of the sled and the map ring

This project models the gameplay core of a small arcade game. A circular
"snow-globe" map spins under a sled that only moves sideways. The player steers
and jumps to dodge obstacles and collect gifts. Two components hold the logic:

- `SantaPlayerSled` is the per-tick sled simulation. It grows the turn-speed
  limit, steers and clamps the lateral velocity, and clamps the position into
  the road corridor. When the sled is at rest it bounces off the road edge. It
  also integrates the jump arc and resolves landings, crashing on unsafe ones.
  Next come the ragdoll (crash) state machine and the trigger handling:
  gifts add points and hide the gift for half a map revolution, obstacles
  crash the sled.
- `ChristmassyGameLogic` turns the map and its rear-view clone by the same
  pitch step every frame. It also rebuilds a ring of cottages: it clears the
  registry, then fills one slot per cottage with an alternating side, a jittered
  pitch inside the slot's slice, a yaw facing the road, and a lateral offset
  beyond the road's half-width.

Files:

- `engine.dfy` (module `Engine`) holds what the core uses from the engine.
  Objects are opaque `Handle`s. A `Scene` hands out a fresh handle per clone and
  logs destructions and keeps the current set of hidden (disabled) objects; its invariant is that only handles
  already handed out are destroyed or disabled. `Clamp`, `Lerp` and `Max` are
  the scalar helpers.
- `game_logic.dfy` (module `GameLogic`) holds the class `ChristmassyGameLogic`.
  Its pure partners are `Rotate`/`Spin` for the map rotation and
  `PlaceCottage`/`Ring` for the cottage layout, with lemmas about them. Its
  invariant says the registry holds distinct, live (never destroyed) objects.
- `sled.dfy` (module `Sled`) holds the class `SantaPlayerSled`. Its pure
  partner `Step` gives the outcome of one alive tick. `Glide` covers a run of
  ticks. `RespawnDelay`, `Pending` and `DueGifts` cover the gift timers. Its
  invariant says every handle it names was handed out by the scene, the
  ragdoll pair differs from the live santa and sleigh, and every pending timer
  names a distinct, hidden gift.

Modelling choices:

- Floats are `real`. Rotations are scalar pitch and yaw angles in degrees.
- The random source is a sequence of `Draw(pick, jitter, distance)` values,
  one per loop iteration. Their ranges are preconditions, required only when
  the source actually draws (a non-empty catalog and a positive count).
- The prefab catalog is a possibly empty `seq<Prefab>`.
- Input, `Time.Delta` and the current time are parameters.
- `RoadWidth`, `RotationSpeed`, `MapRadius`, `CottagesSpawned` and the
  validity of `Map` are constants of the component, since nothing in the
  core writes them.
- The source reaches the session through a global `Instance` and uses its
  `Points` and `EndGame()`, which `ChristmassyGameLogic.cs` does not define.
  Here the sled holds a `game` reference. The session is the same class with
  a `points` counter and an `ended` flag that `EndGame` sets.
- The async gift re-enable becomes a timer record `GiftTimer(due, gift)`.
  `ResumeDueGifts(now)` polls the timers.
- A trigger overlap only comes from an object that exists and, for a gift,
  is shown: a disabled object has no active collider, so the engine never
  reports an overlap with a hidden gift.
- The engine's `MathX.Lerp` is taken to clamp its fraction into [0, 1], which
  is its default. The turn-limit and corridor bounds do not depend on it, since
  a clamp always follows; `LerpBetween` and `SteerEases` do.
- `MathX.Clamp` is given a non-empty range. The sled invariant keeps the turn
  limit and the road width non-negative, so every call the tick makes
  satisfies this.

Nothing in `ChristmassyGameLogic.cs` or `SantaPlayerSled.cs` writes
`RotationSpeed`, so the map turns at a constant speed during a run. The jump
test still runs in the tick that crashed the sled, so a crash landing with
jump pressed in that tick leaves a vertical speed of 350 that only `Unragdoll`
clears. `Unragdoll` does not reset the pivot height or the target pitch.

## Model

| member | source | states |
|---|---|---|
| `Sled.Step` | code/SantaPlayerSled.cs:67-127 | One alive tick. The turn limit grows by exactly 5·dt. The lateral position ends in [-w, w], where w is RoadWidth/0.5 if the pivot was airborne at tick start and RoadWidth/1.5 otherwise. The velocity ends within ±turn limit, edge bounce included. The position slides by the steered velocity·dt and is clamped into [-w, w]; a sled at rest that reaches the edge has its steered velocity reversed and scaled by 0.25. The pivot never ends below the road. Landing happens iff the sled was airborne and comes back to rest moving down; it zeroes the vertical speed and the pitch target. A crash happens iff the sled lands with \|y\| ≥ w/2.5. A jump happens iff pressed while at rest at the end of the arc; it sets the vertical speed to exactly 350 and the pitch target to -30. Otherwise the pitch target is kept. |
| `Sled.Glide` | code/SantaPlayerSled.cs:75-80 | After any run of alive ticks, the turn limit equals its start value plus 5 × the elapsed time. The settled invariant still holds (pivot ≥ 0, not moving down at rest, non-negative limit). The velocity lies within the limit and the position within ±2·RoadWidth. |
| `Sled.Corridor` | code/SantaPlayerSled.cs:76 | The usable half-width is 2·RoadWidth while the pivot is off the ground and RoadWidth/1.5 at rest; it is never negative. |
| `Sled.Steer` | code/SantaPlayerSled.cs:75-86 | The steering phase grows the turn limit by exactly 5·dt, leaves the velocity within ±the new limit and the position within [-w, w], and leaves pivot height, vertical speed and pitch target alone. The position is the old one slid by the eased velocity (`SteerVelocity`) and clamped (`Slide`); at rest on the edge the velocity is that eased velocity times -0.25, otherwise it is the eased velocity. |
| `Sled.SteerVelocity` | code/SantaPlayerSled.cs:78-79 | The steered velocity always lies within ±the turn limit. |
| `Sled.SteerEases` | code/SantaPlayerSled.cs:78-79 | With the stick in [-1, 1] and the velocity within the limit, the new velocity lies between the old velocity and stick·limit. Held, it reaches stick·limit in any tick of at least 1 s; released, it reaches 0 in any tick of at least 0.5 s (twice as fast). |
| `Engine.LerpBetween` | code/SantaPlayerSled.cs:78 | Interpolation never overshoots: the result lies between the two end points, in either order. |
| `Sled.Slide` | code/SantaPlayerSled.cs:80 | The new lateral position always lies within the corridor [-w, w]. It is exactly y + velocity·dt when that is inside, and the nearer edge otherwise. |
| `Sled.Fall` | code/SantaPlayerSled.cs:88-98 | While airborne the pivot moves to max(z + dt·Height, 0) and the vertical speed drops by exactly 1000·dt. The arc never takes the pivot below the road, a sled at rest and not rising is untouched, and only pivot height and vertical speed change. |
| `Sled.Land` | code/SantaPlayerSled.cs:100-104 | A landing zeroes vertical speed and pitch target and is resolved afterwards (landing again changes nothing); without a landing nothing changes. |
| `Sled.Jump` | code/SantaPlayerSled.cs:119-122 | Without a press, or off the ground, nothing changes. A press at rest adds exactly 350 to the vertical speed and sets the pitch target to -30, so a sled at rest that jumps is airborne; only vertical speed and pitch target change. |
| `Sled.JumpLeavesGround` | code/SantaPlayerSled.cs:88-122 | After a tick in which the sled jumped, the next tick leaves the pivot above the road. |
| `Sled.RespawnDelay` | code/SantaPlayerSled.cs:224-225 | The delay is positive, and the delay times the rotation speed is exactly 180 degrees. |
| `Sled.RespawnIsHalfTurn` | code/SantaPlayerSled.cs:224-228 | Spinning the map for one respawn delay turns it by exactly half a revolution. |
| `Sled.GiftReturnsAfterDelay` | code/SantaPlayerSled.cs:227-229 | For a gift collected while shown, with every pending timer's gift hidden (the sled invariant keeps this), the gift hidden at time `start` is due again iff now ≥ start + 180/RotationSpeed: at or after the delay, never before. |
| `Sled.Pending` | code/SantaPlayerSled.cs:228-229 | The timers still waiting are exactly those not yet due. |
| `Sled.PendingKeepsDistinct` | code/SantaPlayerSled.cs:227-229 | Dropping the due timers keeps the remaining timers' gifts pairwise distinct. |
| `Sled.SantaPlayerSled.constructor` | code/SantaPlayerSled.cs:50-58 | The sled starts alive with no ragdoll, no timers, zero velocity, vertical speed and pitch target, and the given turn limit; its santa and sleigh are existing scene objects, so the invariant holds. |
| `Sled.SantaPlayerSled.OnStart` | code/SantaPlayerSled.cs:62-65 | The recovery turn limit is set to the current turn limit. |
| `Sled.SantaPlayerSled.FixedUpdate` | code/SantaPlayerSled.cs:67-140 | A dead tick changes nothing. An alive tick leaves the kinematics equal to `Step`'s result. On an unsafe landing with a valid renderer the sled crashes, and otherwise the crash state is untouched. The invariant is kept. |
| `Sled.SantaPlayerSled.SteerPhase` | code/SantaPlayerSled.cs:75-86 | Turn limit, velocity and position are updated as `Steer` specifies. |
| `Sled.SantaPlayerSled.FallPhase` | code/SantaPlayerSled.cs:88-98 | Pivot height and vertical speed are updated as `Fall` specifies. |
| `Sled.SantaPlayerSled.LandPhase` | code/SantaPlayerSled.cs:100-117 | A landing resets the vertical speed and the pitch target and restores the invariant. It crashes exactly when the landing is outside the safe band and a crash is possible. |
| `Sled.SantaPlayerSled.JumpPhase` | code/SantaPlayerSled.cs:119-127 | A jump applies only at rest: vertical speed +350 and pitch target -30. |
| `Sled.SantaPlayerSled.Ragdoll` | code/SantaPlayerSled.cs:146-183 | With a ragdoll already present, or no valid renderer, nothing changes. Otherwise the sled is dead, the collider and the live models are off, a fresh ragdoll pair is cloned and the session has ended. The kinematics are untouched. |
| `Sled.SantaPlayerSled.Unragdoll` | code/SantaPlayerSled.cs:186-204 | With no ragdoll, or no valid renderer, nothing changes. Otherwise both ragdoll objects are destroyed and the sled is alive again, with collider and models on. Velocity, vertical speed and y become 0 and the turn limit returns to the value saved by `OnStart`. |
| `Sled.SantaPlayerSled.OnTriggerEnter` | code/SantaPlayerSled.cs:206-215 | The overlapping gift is a shown scene object. A gift tag adds exactly 10 points, hides the gift and schedules its return at now + 180/RotationSpeed, keeping the invariant. Without one, points, timers and gift states are unchanged. An obstacle tag crashes the sled when a crash is possible; otherwise the crash state is untouched. |
| `Sled.SantaPlayerSled.UnwrapGift` | code/SantaPlayerSled.cs:217-230 | Points grow by exactly 10, the gift (shown before) is disabled, and one timer due at now + 180/RotationSpeed is appended; every pending timer still names a distinct hidden gift. |
| `Sled.SantaPlayerSled.ResumeDueGifts` | code/SantaPlayerSled.cs:228-229 | Every gift with a due timer is enabled again, and only the timers not yet due remain. For each timer polled, its gift is hidden afterwards iff its due time is still after `now`; the invariant is kept. |
| `GameLogic.Rotate` | code/ChristmassyGameLogic.cs:46-47 | One frame turns the map by RotationSpeed·dt, with the turn never positive for non-negative speed and time. The map-to-clone offset is kept. |
| `GameLogic.Spin` | code/ChristmassyGameLogic.cs:42-48 | Over any sequence of frames the clone keeps its offset to the map. |
| `GameLogic.SpinTurnsByElapsed` | code/ChristmassyGameLogic.cs:42-48 | Over any sequence of frames the map turns by RotationSpeed × the elapsed time. |
| `GameLogic.Slice` | code/ChristmassyGameLogic.cs:69 | The slice is positive, and the count times the slice is a full turn of 360 degrees. |
| `GameLogic.PlaceCottage` | code/ChristmassyGameLogic.cs:73-85 | Slot i has side i mod 2, a catalog prefab and yaw -90 + 180·side. Its pitch lies in [slice·i - slice/2, slice·i + slice/2]. Its lateral offset is in [RoadWidth/2+100, RoadWidth/2+300] to the left for side 0, and mirrored to the right for side 1. |
| `GameLogic.Ring` | code/ChristmassyGameLogic.cs:71-89 | The registry built after n iterations holds exactly n cottages. |
| `GameLogic.RingAt` | code/ChristmassyGameLogic.cs:71-89 | Entry i of the registry is slot i, placed with the i-th draw and the i-th fresh handle. |
| `GameLogic.CottageRingLayout` | code/ChristmassyGameLogic.cs:69-89 | A full ring holds exactly CottagesSpawned cottages. They alternate sides 0,1,0,… and each pitch stays within its slice. Each offset lies beyond the road on its own side, each yaw faces the road, and all handles are fresh and pairwise distinct. |
| `GameLogic.ChristmassyGameLogic.constructor` | code/ChristmassyGameLogic.cs:8-32 | The component starts with an empty registry, no errors, zero points and the session not ended, and its invariant holds. |
| `GameLogic.ChristmassyGameLogic.OnUpdate` | code/ChristmassyGameLogic.cs:42-48 | With an invalid map nothing turns. Otherwise map and clone both turn as `Rotate` says, so their offset is kept. |
| `GameLogic.ChristmassyGameLogic.ClearMap` | code/ChristmassyGameLogic.cs:92-101 | Every registered cottage is destroyed, in registry order, and the registry ends empty. On an empty registry nothing is destroyed. The invariant is kept. |
| `GameLogic.ChristmassyGameLogic.GenerateMap` | code/ChristmassyGameLogic.cs:53-90 | With an invalid map nothing changes and existing cottages are kept. Otherwise all prior cottages are destroyed. An empty catalog leaves the registry empty and logs "No cottages found". A non-empty catalog leaves exactly max(CottagesSpawned, 0) cottages, equal to `Ring` over the draws, with handles handed out during the call. In every case the registry's cottages are live (none is in the scene's destroyed log), distinct, and the invariant is kept. |
| `GameLogic.ChristmassyGameLogic.EndGame` | code/SantaPlayerSled.cs:181 | The session is marked ended. |
| `Engine.Clamp` | code/SantaPlayerSled.cs:79-80 | The result lies in [lo, hi] and equals the input when the input is already inside. |
| `Engine.Max` | code/SantaPlayerSled.cs:91 | The result is at least both arguments and is one of them. |

## Left out

- Audio, particles and animation: skiing and gift sounds, `_wishTurningVolume`, snow particle rates and enables, impact particle clones, `Sound.Play`, the `wish_y` animation parameter, and `DrawGizmos`. These are presentation only.
- Quaternion math: the pivot's rotation slerp towards pitch and yaw, and each cottage's world position on the ring (`Rotation.Up * MapRadius`). A cottage records its pitch, yaw and signed lateral offset instead, and `mapRadius` is carried but unused.
- Ragdoll physics: `ModelPhysics`, the sleigh's rigid-body impulse, bone flags and removal of the player tag. The ragdoll is a pair of fresh handles.
- `Collider.Center` updates follow the pivot height and are not modelled.
- The clone placement, offset and scale in `ChristmassyGameLogic.OnStart` are not modelled. The map and clone pitches start from the values given to the constructor.
- The prefab catalog lookup through the resource library and `SetParent(Map)` are not modelled. The catalog is a parameter, and ownership is the registry itself.
- Angles accumulate without wrapping modulo 360, and float32 rounding is not modelled.
- `Pivot.IsValid()` in the jump test is taken as true. The same tick already reads the pivot's position earlier, so the test can only fail after a failure the model excludes.
- A scheduled gift re-enable is never cancelled, as in the source. `ResumeDueGifts` enables whatever handle the timer names.
- Sled.SantaPlayerSled.UnwrapGift: requires RotationSpeed > 0. The editor range admits 0, and then 180/0 is infinite in float arithmetic, so the gift would never return. Sled.SantaPlayerSled.OnTriggerEnter requires the same on its gift path.
- Sled.Glide: describes ticks during which the sled stays alive. It does not stop at a crash, after which real ticks change nothing.
- code/RoadObject.cs is not part of this model. It only clones a prefab and destroys the previous clone.
