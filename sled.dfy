/** The player's sled: per-tick steering, corridor clamp with an elastic
    edge, jump arc and landing, the crash ("ragdoll") state machine, and the
    trigger handling that turns gifts into points and obstacles into crashes. */
module Sled {
  import opened Engine
  import opened GameLogic

  /** Turn-speed limit growth, per second of alive time. */
  const TurnSpeedGrowth := 5.0
  /** Downward change of the vertical speed, per second. */
  const Gravity := 1000.0
  const JumpImpulse := 350.0
  const JumpPitch := -30.0
  /** Factor applied to the lateral velocity when it hits the road edge. */
  const Bounce := -0.25
  /** A landing is safe only within the corridor width divided by this. */
  const SafeLandingDivisor := 2.5
  const GiftPoints := 10
  /** Degrees of map rotation a collected gift stays hidden for. */
  const HalfTurn := 180.0

  /** The sled's continuous state: lateral velocity, vertical speed
      (`Height` in the source), turn-speed limit, target nose pitch, height of
      the pivot above the road, and lateral position. */
  datatype Kinematics = Kinematics(velocity: real, height: real, maxTurnSpeed: real,
                                   targetPitch: real, pivotZ: real, y: real)

  /** One fixed tick's inputs: its duration, the lateral analog axis, and
      whether jump was pressed during it. */
  datatype Tick = Tick(dt: real, inputY: real, jumpPressed: bool)

  /** The kinematics after a tick, with what happened in it. */
  datatype StepResult = StepResult(k: Kinematics, landed: bool, crash: bool, jumped: bool)

  datatype RagdollPair = RagdollPair(santa: Handle, sleigh: Handle)

  /** A pending gift re-enable: at time `due` the gift is enabled again. */
  datatype GiftTimer = GiftTimer(due: real, gift: Handle)

  /** A trigger overlap: the other collider's object and its tags. */
  datatype Overlap = Overlap(obj: Handle, tags: set<string>)

  /** The state invariant the tick keeps: the pivot never sinks below the
      road, a sled at rest is not moving downwards, the turn limit is not
      negative. */
  predicate Settled(k: Kinematics)
  {
    k.pivotZ >= 0.0 && (k.pivotZ > 0.0 || k.height >= 0.0) && k.maxTurnSpeed >= 0.0
  }

  predicate Airborne(k: Kinematics)
  {
    k.pivotZ > 0.0 || k.height > 0.0
  }

  /** The lateral half-width the sled may use: wider while the pivot is off
      the ground, narrower at rest. */
  function Corridor(roadWidth: real, pivotZ: real): (w: real)
    requires roadWidth >= 0.0
    ensures 0.0 <= w
    ensures pivotZ > 0.0 ==> w == 2.0 * roadWidth
    ensures pivotZ <= 0.0 ==> w * 1.5 == roadWidth
  {
    roadWidth / (if pivotZ > 0.0 then 0.5 else 1.5)
  }

  /** One tick of an alive sled, in the source's order: grow the turn limit,
      steer and clamp the velocity, move and clamp the position, bounce off
      the edge when at rest, integrate the jump arc, land (crashing outside
      the safe band), then jump if pressed while at rest. */
  function Step(k: Kinematics, roadWidth: real, t: Tick): (r: StepResult)
    requires t.dt > 0.0 && roadWidth >= 0.0 && Settled(k)
    ensures Settled(r.k)
    ensures r.k.maxTurnSpeed == k.maxTurnSpeed + TurnSpeedGrowth * t.dt
    ensures -Corridor(roadWidth, k.pivotZ) <= r.k.y <= Corridor(roadWidth, k.pivotZ)
    ensures -r.k.maxTurnSpeed <= r.k.velocity <= r.k.maxTurnSpeed
    ensures SteeredTo(k, roadWidth, t, r.k.velocity, r.k.y, r.k.maxTurnSpeed)
    ensures r.landed <==> Airborne(k) && k.pivotZ + t.dt * k.height <= 0.0 && k.height < Gravity * t.dt
    ensures r.landed ==> r.k.pivotZ == 0.0
    ensures r.crash <==> r.landed && (r.k.y <= -Corridor(roadWidth, k.pivotZ) / SafeLandingDivisor
                                      || r.k.y >= Corridor(roadWidth, k.pivotZ) / SafeLandingDivisor)
    ensures r.jumped <==> t.jumpPressed && r.k.pivotZ == 0.0
    ensures r.jumped ==> r.k.targetPitch == JumpPitch && r.k.height == JumpImpulse
    ensures r.landed && !r.jumped ==> r.k.height == 0.0 && r.k.targetPitch == 0.0
    ensures !r.landed && !r.jumped ==> r.k.targetPitch == k.targetPitch
    ensures !Airborne(k) ==> r.k.pivotZ == 0.0 && !r.landed
  {
    var w := Corridor(roadWidth, k.pivotZ);
    var steered := Steer(k, roadWidth, t);
    var fallen := Fall(steered, t.dt);
    var landed := Landed(fallen);
    var crash := landed && (steered.y <= -w / SafeLandingDivisor || steered.y >= w / SafeLandingDivisor);
    var jumped := t.jumpPressed && fallen.pivotZ <= 0.0;
    StepResult(Jump(Land(fallen), t.jumpPressed), landed, crash, jumped)
  }

  /** The steering outcome in the source's terms: the position slides by the
      steered velocity and is clamped into the corridor, and a sled at rest
      that reaches the edge bounces back, its velocity reversed and scaled by
      a quarter (an elastic wall, not a hard stop). */
  predicate SteeredTo(k: Kinematics, roadWidth: real, t: Tick, velocity: real, y: real, maxTurnSpeed: real)
    requires roadWidth >= 0.0 && maxTurnSpeed >= 0.0
  {
    var w := Corridor(roadWidth, k.pivotZ);
    var v := SteerVelocity(k.velocity, maxTurnSpeed, t);
    y == Slide(k.y, v, t.dt, w)
    && velocity == (if k.pivotZ <= 0.0 && (y <= -w || y >= w) then Bounce * v else v)
  }

  /** Steering phase: grow the turn limit, ease the velocity towards the
      input, clamp it, move and clamp the position, and bounce off the edge
      when at rest. */
  function Steer(k: Kinematics, roadWidth: real, t: Tick): (r: Kinematics)
    requires t.dt > 0.0 && roadWidth >= 0.0 && k.maxTurnSpeed >= 0.0
    ensures r.maxTurnSpeed == k.maxTurnSpeed + TurnSpeedGrowth * t.dt
    ensures -r.maxTurnSpeed <= r.velocity <= r.maxTurnSpeed
    ensures -Corridor(roadWidth, k.pivotZ) <= r.y <= Corridor(roadWidth, k.pivotZ)
    ensures r.height == k.height && r.pivotZ == k.pivotZ && r.targetPitch == k.targetPitch
    ensures SteeredTo(k, roadWidth, t, r.velocity, r.y, r.maxTurnSpeed)
  {
    var mts := k.maxTurnSpeed + t.dt * TurnSpeedGrowth;
    var w := Corridor(roadWidth, k.pivotZ);
    var v := SteerVelocity(k.velocity, mts, t);
    var y := Slide(k.y, v, t.dt, w);
    var v' := if k.pivotZ <= 0.0 && (y <= -w || y >= w) then v * Bounce else v;
    k.(velocity := v', maxTurnSpeed := mts, y := y)
  }

  /** Ease the velocity towards the input times the turn limit (twice as
      fast when the stick is released), then clamp it to the limit. */
  function SteerVelocity(velocity: real, maxTurnSpeed: real, t: Tick): (v: real)
    requires maxTurnSpeed >= 0.0
    ensures -maxTurnSpeed <= v <= maxTurnSpeed
  {
    var eased := Lerp(velocity, t.inputY * maxTurnSpeed, t.dt * (if t.inputY == 0.0 then 2.0 else 1.0));
    Clamp(eased, -maxTurnSpeed, maxTurnSpeed)
  }

  /** The steering eases: from a velocity within the limit and a stick
      input within [-1, 1], the new velocity lies between the old velocity
      and the target input times limit. Held, the stick reaches its target
      within one second; released, the velocity reaches zero within half a
      second. */
  lemma SteerEases(velocity: real, maxTurnSpeed: real, t: Tick)
    requires maxTurnSpeed >= 0.0 && -1.0 <= t.inputY <= 1.0
    requires -maxTurnSpeed <= velocity <= maxTurnSpeed
    ensures var target := t.inputY * maxTurnSpeed;
      var v := SteerVelocity(velocity, maxTurnSpeed, t);
      (velocity <= target ==> velocity <= v <= target)
      && (target <= velocity ==> target <= v <= velocity)
      && (t.dt >= 1.0 ==> v == target)
      && (t.inputY == 0.0 && t.dt >= 0.5 ==> v == 0.0)
  {
    var target := t.inputY * maxTurnSpeed;
    var frac := t.dt * (if t.inputY == 0.0 then 2.0 else 1.0);
    LerpBetween(velocity, target, frac);
    NonNegativeProduct(1.0 - t.inputY, maxTurnSpeed);
    NonNegativeProduct(1.0 + t.inputY, maxTurnSpeed);
    assert -maxTurnSpeed <= target <= maxTurnSpeed;
    if t.dt >= 1.0 || (t.inputY == 0.0 && t.dt >= 0.5) {
      assert frac >= 1.0;
      assert Lerp(velocity, target, frac) == target;
    }
  }

  /** Move by the velocity for one tick and clamp into [-w, w]. */
  function Slide(y: real, velocity: real, dt: real, w: real): (y': real)
    requires w >= 0.0
    ensures -w <= y' <= w
    ensures -w <= y + velocity * dt <= w ==> y' == y + velocity * dt
    ensures y + velocity * dt < -w ==> y' == -w
    ensures y + velocity * dt > w ==> y' == w
  {
    Clamp(y + velocity * dt, -w, w)
  }

  /** Jump-arc phase: while off the ground or moving up, rise by the vertical
      speed (never below the road) and let gravity act. */
  function Fall(k: Kinematics, dt: real): (r: Kinematics)
    ensures k.pivotZ >= 0.0 ==> r.pivotZ >= 0.0
    ensures dt > 0.0 && Airborne(k) ==> r.height < k.height
    ensures !Airborne(k) ==> r == k
    ensures Airborne(k) ==> r.pivotZ == Max(k.pivotZ + dt * k.height, 0.0) && r.height == k.height - dt * Gravity
    ensures r.(pivotZ := k.pivotZ, height := k.height) == k
  {
    if Airborne(k) then k.(pivotZ := Max(k.pivotZ + dt * k.height, 0.0), height := k.height - dt * Gravity)
    else k
  }

  /** Back at rest while still moving down. */
  predicate Landed(k: Kinematics)
  {
    k.pivotZ <= 0.0 && k.height < 0.0
  }

  /** Landing resolves itself: afterwards the sled is no longer landing,
      and only the vertical speed and the pitch target were reset. */
  function Land(k: Kinematics): (r: Kinematics)
    ensures !Landed(r)
    ensures Landed(k) ==> r.height == 0.0 && r.targetPitch == 0.0
    ensures !Landed(k) ==> r == k
    ensures r.(height := k.height, targetPitch := k.targetPitch) == k
  {
    if Landed(k) then k.(height := 0.0, targetPitch := 0.0) else k
  }

  /** A jump only starts from rest, and a sled at rest that jumps is
      airborne with its nose lifted. */
  function Jump(k: Kinematics, pressed: bool): (r: Kinematics)
    ensures !pressed || k.pivotZ > 0.0 ==> r == k
    ensures pressed && k.pivotZ <= 0.0 ==> r.height == k.height + JumpImpulse && r.targetPitch == JumpPitch
    ensures pressed && k.pivotZ <= 0.0 && k.height >= 0.0 ==> Airborne(r)
    ensures r.height >= k.height && r.(height := k.height, targetPitch := k.targetPitch) == k
  {
    if pressed && k.pivotZ <= 0.0 then k.(height := k.height + JumpImpulse, targetPitch := JumpPitch) else k
  }

  /** A jump from rest leaves the ground: one tick after the jump the pivot
      is above the road. */
  lemma JumpLeavesGround(k: Kinematics, roadWidth: real, t1: Tick, t2: Tick)
    requires t1.dt > 0.0 && t2.dt > 0.0 && roadWidth >= 0.0 && Settled(k)
    requires Step(k, roadWidth, t1).jumped
    ensures Step(Step(k, roadWidth, t1).k, roadWidth, t2).k.pivotZ > 0.0
  {
    var k1 := Step(k, roadWidth, t1).k;
    assert k1.pivotZ == 0.0 && k1.height == JumpImpulse;
    var s := Steer(k1, roadWidth, t2);
    assert Fall(s, t2.dt).pivotZ == Max(t2.dt * JumpImpulse, 0.0);
  }

  predicate ValidTicks(ticks: seq<Tick>)
  {
    forall i :: 0 <= i < |ticks| ==> ticks[i].dt > 0.0
  }

  function TotalTime(ticks: seq<Tick>): real
  {
    if ticks == [] then 0.0 else ticks[0].dt + TotalTime(ticks[1..])
  }

  /** The kinematics after a run of ticks during which the sled stays alive. */
  function Glide(k: Kinematics, roadWidth: real, ticks: seq<Tick>): (r: Kinematics)
    requires roadWidth >= 0.0 && Settled(k) && ValidTicks(ticks)
    ensures Settled(r)
    ensures r.maxTurnSpeed == k.maxTurnSpeed + TurnSpeedGrowth * TotalTime(ticks)
    ensures ticks != [] ==> -r.maxTurnSpeed <= r.velocity <= r.maxTurnSpeed
    ensures ticks != [] ==> -2.0 * roadWidth <= r.y <= 2.0 * roadWidth
    decreases |ticks|
  {
    if ticks == [] then k
    else
      var k1 := Step(k, roadWidth, ticks[0]).k;
      assert ValidTicks(ticks[1..]) by {
        forall i | 0 <= i < |ticks| - 1 ensures ticks[1..][i].dt > 0.0 { assert ticks[1..][i] == ticks[i + 1]; }
      }
      Glide(k1, roadWidth, ticks[1..])
  }

  /** How long a collected gift stays hidden: the time the map needs, at the
      current rotation speed, to turn half a revolution. */
  function RespawnDelay(rotationSpeed: real): (d: real)
    requires rotationSpeed > 0.0
    ensures d > 0.0 && d * rotationSpeed == HalfTurn
  {
    HalfTurn / rotationSpeed
  }

  /** During a respawn delay the map turns by exactly half a revolution. */
  lemma RespawnIsHalfTurn(t: Track, rotationSpeed: real)
    requires rotationSpeed > 0.0
    ensures t.mapPitch - Spin(t, rotationSpeed, [RespawnDelay(rotationSpeed)]).mapPitch == HalfTurn
  {
  }

  /** The timers still waiting at time `now`. */
  function Pending(ts: seq<GiftTimer>, now: real): (r: seq<GiftTimer>)
    ensures |r| <= |ts|
    ensures forall x :: x in r <==> x in ts && x.due > now
  {
    if ts == [] then []
    else (if ts[0].due > now then [ts[0]] else []) + Pending(ts[1..], now)
  }

  /** The gifts that some timer re-enables by time `now`. */
  function DueGifts(ts: seq<GiftTimer>, now: real): set<Handle>
  {
    set x | x in ts && x.due <= now :: x.gift
  }

  /** No two timers re-enable the same gift. */
  predicate DistinctGifts(ts: seq<GiftTimer>)
  {
    forall i, j :: 0 <= i < j < |ts| ==> ts[i].gift != ts[j].gift
  }

  /** Dropping the due timers keeps the pending ones distinct. */
  lemma {:induction false} PendingKeepsDistinct(ts: seq<GiftTimer>, now: real)
    requires DistinctGifts(ts)
    ensures DistinctGifts(Pending(ts, now))
    decreases |ts|
  {
    if ts != [] {
      var tail := ts[1..];
      assert DistinctGifts(tail) by {
        forall i, j | 0 <= i < j < |tail| ensures tail[i].gift != tail[j].gift {
          assert tail[i] == ts[i + 1] && tail[j] == ts[j + 1];
        }
      }
      PendingKeepsDistinct(tail, now);
      var rest := Pending(tail, now);
      if ts[0].due > now {
        forall x | x in rest ensures x.gift != ts[0].gift {
          var k :| 0 <= k < |tail| && tail[k] == x;
          assert ts[k + 1] == x;
        }
        var r := [ts[0]] + rest;
        assert Pending(ts, now) == r;
        forall i, j | 0 <= i < j < |r| ensures r[i].gift != r[j].gift {
          assert r[j] == rest[j - 1] && r[j] in rest;
          if i > 0 {
            assert r[i] == rest[i - 1];
          }
        }
      }
    }
  }

  /** A gift collected while shown, when every pending timer's gift is
      hidden (as the sled's invariant keeps), comes back at the first poll
      at or after the respawn delay, and not before. */
  lemma GiftReturnsAfterDelay(ts: seq<GiftTimer>, disabled: set<Handle>, gift: Handle,
                              start: real, rotationSpeed: real, now: real)
    requires rotationSpeed > 0.0
    requires forall i :: 0 <= i < |ts| ==> ts[i].gift in disabled
    requires gift !in disabled
    ensures gift in DueGifts(ts + [GiftTimer(start + RespawnDelay(rotationSpeed), gift)], now)
            <==> now >= start + RespawnDelay(rotationSpeed)
  {
  }

  class SantaPlayerSled {
    /** The game session (the source reaches it through a global instance). */
    const game: ChristmassyGameLogic
    const scene: Scene
    /** The live santa and sleigh objects. */
    const santa: Handle
    const sleigh: Handle
    /** Whether the santa model renderer is valid; both ragdoll transitions
        need it. */
    const rendererValid: bool

    var alive: bool
    var velocity: real
    var height: real
    var maxTurnSpeed: real
    var targetPitch: real
    var originalTurnSpeed: real
    var pivotZ: real
    var y: real
    var colliderEnabled: bool
    /** Whether the live santa and sleigh are shown. */
    var modelsEnabled: bool
    var ragdoll: Option<RagdollPair>
    var timers: seq<GiftTimer>

    function Kin(): Kinematics
      reads this
    {
      Kinematics(velocity, height, maxTurnSpeed, targetPitch, pivotZ, y)
    }

    /** Alive with no ragdoll, or dead with one; the collider and the live
        models are on exactly while alive; the kinematics are settled. */
    ghost predicate Valid()
      reads this, scene
    {
      Coherent() && Settled(Kin())
    }

    /** Valid, except that a landing may not have been resolved yet. */
    ghost predicate Coherent()
      reads this, scene
    {
      pivotZ >= 0.0 && maxTurnSpeed >= 0.0 && originalTurnSpeed >= 0.0 && game.roadWidth >= 0.0
      && (alive <==> ragdoll.None?)
      && colliderEnabled == alive && modelsEnabled == alive
      && Live()
    }

    /** Every object the sled names was handed out by the scene, the ragdoll
        pair is distinct from the live santa and sleigh, every pending timer
        names a hidden gift and no two timers name the same gift. */
    ghost predicate Live()
      reads this, scene
    {
      scene.Valid()
      && santa < scene.next && sleigh < scene.next
      && (ragdoll.Some? ==>
            ragdoll.value.santa < scene.next && ragdoll.value.sleigh < scene.next
            && ragdoll.value.santa != ragdoll.value.sleigh
            && ragdoll.value.santa != santa && ragdoll.value.santa != sleigh
            && ragdoll.value.sleigh != santa && ragdoll.value.sleigh != sleigh)
      && DistinctGifts(timers)
      && (forall i :: 0 <= i < |timers| ==> timers[i].gift in scene.disabled)
    }

    constructor (game: ChristmassyGameLogic, scene: Scene, santa: Handle, sleigh: Handle,
                 rendererValid: bool, maxTurnSpeed: real, y: real)
      requires game.roadWidth >= 0.0 && maxTurnSpeed >= 0.0
      requires scene.Valid() && santa < scene.next && sleigh < scene.next
      ensures Valid()
      ensures this.game == game && this.scene == scene && this.santa == santa && this.sleigh == sleigh
      ensures this.rendererValid == rendererValid
      ensures alive && ragdoll.None? && timers == []
      ensures Kin() == Kinematics(0.0, 0.0, maxTurnSpeed, 0.0, 0.0, y)
      ensures originalTurnSpeed == 0.0
    {
      this.game := game;
      this.scene := scene;
      this.santa := santa;
      this.sleigh := sleigh;
      this.rendererValid := rendererValid;
      alive := true;
      velocity := 0.0;
      height := 0.0;
      this.maxTurnSpeed := maxTurnSpeed;
      targetPitch := 0.0;
      originalTurnSpeed := 0.0;
      pivotZ := 0.0;
      this.y := y;
      colliderEnabled := true;
      modelsEnabled := true;
      ragdoll := None;
      timers := [];
    }

    /** Remember the configured turn limit for later recovery. */
    method OnStart()
      requires Valid()
      modifies this`originalTurnSpeed
      ensures Valid()
      ensures originalTurnSpeed == maxTurnSpeed
    {
      originalTurnSpeed := maxTurnSpeed;
    }

    /** The crash transition just happened: dead, collider and models off, a
        freshly cloned ragdoll pair, and the session ended. */
    twostate predicate Crashed()
      reads this, scene, game
    {
      !alive && !colliderEnabled && !modelsEnabled
      && ragdoll == Some(RagdollPair(old(scene.next), old(scene.next) + 1))
      && scene.next == old(scene.next) + 2
      && game.ended
    }

    /** Nothing of the crash state machine moved. */
    twostate predicate NotCrashed()
      reads this, scene, game
    {
      alive == old(alive) && colliderEnabled == old(colliderEnabled) && modelsEnabled == old(modelsEnabled)
      && ragdoll == old(ragdoll) && scene.next == old(scene.next) && game.ended == old(game.ended)
    }

    method FixedUpdate(dt: real, inputY: real, jumpPressed: bool)
      requires Valid() && dt > 0.0
      modifies this, scene`next, game`ended
      ensures Valid()
      ensures !old(alive) ==> unchanged(this) && scene.next == old(scene.next) && game.ended == old(game.ended)
      ensures old(alive) ==>
        var r := Step(old(Kin()), game.roadWidth, Tick(dt, inputY, jumpPressed));
        Kin() == r.k && timers == old(timers) && originalTurnSpeed == old(originalTurnSpeed)
        && (if r.crash && rendererValid then Crashed() else NotCrashed())
    {
      if !alive { return; }
      var t := Tick(dt, inputY, jumpPressed);
      var w := Corridor(game.roadWidth, pivotZ);
      SteerPhase(t);
      FallPhase(dt);
      LandPhase(w);
      JumpPhase(jumpPressed);
    }

    /** Steering part of the tick: turn limit, steering, clamp, edge bounce. */
    method SteerPhase(t: Tick)
      requires t.dt > 0.0 && game.roadWidth >= 0.0 && maxTurnSpeed >= 0.0
      modifies this`maxTurnSpeed, this`velocity, this`y
      ensures Kin() == Steer(old(Kin()), game.roadWidth, t)
    {
      maxTurnSpeed := maxTurnSpeed + t.dt * TurnSpeedGrowth;
      var w := Corridor(game.roadWidth, pivotZ);
      velocity := SteerVelocity(velocity, maxTurnSpeed, t);
      y := Slide(y, velocity, t.dt, w);
      if pivotZ <= 0.0 && (y <= -w || y >= w) {
        velocity := velocity * Bounce;
      }
    }

    /** The jump arc: rise by the vertical speed, never below the road, and
        let gravity act. */
    method FallPhase(dt: real)
      modifies this`pivotZ, this`height
      ensures Kin() == Fall(old(Kin()), dt)
    {
      if pivotZ > 0.0 || height > 0.0 {
        pivotZ := Max(pivotZ + dt * height, 0.0);
        height := height - dt * Gravity;
      }
    }

    /** Landing: back at rest while moving down resets the vertical speed and
        the nose pitch, and crashes outside the safe band. */
    method LandPhase(w: real)
      requires Coherent()
      modifies this, scene`next, game`ended
      ensures Valid()
      ensures Kin() == Land(old(Kin())) && timers == old(timers) && originalTurnSpeed == old(originalTurnSpeed)
      ensures if Landed(old(Kin())) && (old(y) <= -w / SafeLandingDivisor || old(y) >= w / SafeLandingDivisor)
                 && old(ragdoll).None? && rendererValid
              then Crashed() else NotCrashed()
    {
      if pivotZ <= 0.0 && height < 0.0 {
        height := 0.0;
        targetPitch := 0.0;
        if y <= -w / SafeLandingDivisor || y >= w / SafeLandingDivisor {
          Ragdoll();
        }
      }
    }

    /** Jump: only at rest; adds the upward impulse and lifts the nose. */
    method JumpPhase(pressed: bool)
      requires Valid()
      modifies this`height, this`targetPitch
      ensures Valid()
      ensures Kin() == Jump(old(Kin()), pressed)
    {
      if pressed && pivotZ <= 0.0 {
        height := height + JumpImpulse;
        targetPitch := JumpPitch;
      }
    }

    /** Crash: a no-op while a ragdoll exists (or the renderer is gone);
        otherwise clone the ragdoll pair, hide the live models, disable the
        collider, end the session and die. */
    method Ragdoll()
      requires Valid()
      modifies this, scene`next, game`ended
      ensures Valid()
      ensures Kin() == old(Kin()) && timers == old(timers) && originalTurnSpeed == old(originalTurnSpeed)
      ensures if old(ragdoll).None? && rendererValid then Crashed() else unchanged(this) && NotCrashed()
    {
      if ragdoll.Some? { return; }
      if !rendererValid { return; }
      var santaCopy := scene.Clone();
      var sleighCopy := scene.Clone();
      ragdoll := Some(RagdollPair(santaCopy, sleighCopy));
      modelsEnabled := false;
      colliderEnabled := false;
      game.EndGame();
      alive := false;
    }

    /** Recovery: a no-op without a ragdoll (or without the renderer);
        otherwise destroy the pair, show the live models, re-enable the
        collider, restore the turn limit and reset motion and position. */
    method Unragdoll()
      requires Valid()
      modifies this, scene`destroyed
      ensures Valid()
      ensures timers == old(timers) && originalTurnSpeed == old(originalTurnSpeed)
      ensures if old(ragdoll).Some? && rendererValid then
          alive && colliderEnabled && modelsEnabled && ragdoll.None?
          && Kin() == Kinematics(0.0, 0.0, originalTurnSpeed, old(targetPitch), old(pivotZ), 0.0)
          && scene.destroyed == old(scene.destroyed) + [old(ragdoll).value.santa, old(ragdoll).value.sleigh]
        else unchanged(this) && scene.destroyed == old(scene.destroyed)
    {
      if ragdoll.None? { return; }
      if !rendererValid { return; }
      scene.Destroy(ragdoll.value.santa);
      scene.Destroy(ragdoll.value.sleigh);
      ragdoll := None;
      modelsEnabled := true;
      y := 0.0;
      colliderEnabled := true;
      maxTurnSpeed := originalTurnSpeed;
      height := 0.0;
      velocity := 0.0;
      alive := true;
    }

    /** A gift overlap scores and hides the gift; an obstacle overlap
        crashes. An object with both tags does both, gift first. */
    method OnTriggerEnter(other: Overlap, now: real)
      requires Valid()
      requires "gift" in other.tags ==> game.rotationSpeed > 0.0 && other.obj < scene.next && other.obj !in scene.disabled
      modifies this, scene`next, scene`disabled, game`points, game`ended
      ensures Valid()
      ensures Kin() == old(Kin()) && originalTurnSpeed == old(originalTurnSpeed)
      ensures "gift" in other.tags ==>
        game.points == old(game.points) + GiftPoints
        && timers == old(timers) + [GiftTimer(now + RespawnDelay(game.rotationSpeed), other.obj)]
        && scene.disabled == old(scene.disabled) + {other.obj}
      ensures "gift" !in other.tags ==>
        game.points == old(game.points) && timers == old(timers) && scene.disabled == old(scene.disabled)
      ensures if "obstacle" in other.tags && old(ragdoll).None? && rendererValid then Crashed() else NotCrashed()
    {
      if "gift" in other.tags {
        UnwrapGift(other.obj, now);
      }
      if "obstacle" in other.tags {
        Ragdoll();
      }
    }

    /** Score the gift, hide it, and schedule its re-enable half a
        revolution later. */
    method UnwrapGift(gift: Handle, now: real)
      requires Valid() && game.rotationSpeed > 0.0 && gift < scene.next && gift !in scene.disabled
      modifies this`timers, scene`disabled, game`points
      ensures Valid()
      ensures game.points == old(game.points) + GiftPoints
      ensures timers == old(timers) + [GiftTimer(now + RespawnDelay(game.rotationSpeed), gift)]
      ensures scene.disabled == old(scene.disabled) + {gift}
    {
      game.points := game.points + GiftPoints;
      var resetTime := RespawnDelay(game.rotationSpeed);
      scene.SetEnabled(gift, false);
      timers := timers + [GiftTimer(now + resetTime, gift)];
    }

    /** Resume every gift wait that is over by `now`: each such gift is
        enabled again and its timer is dropped. */
    method ResumeDueGifts(now: real)
      requires Valid()
      modifies this`timers, scene`disabled
      ensures Valid()
      ensures scene.disabled == old(scene.disabled) - DueGifts(old(timers), now)
      ensures timers == Pending(old(timers), now)
      ensures forall i :: 0 <= i < |old(timers)| ==>
                (old(timers)[i].gift in scene.disabled <==> old(timers)[i].due > now)
    {
      ghost var ts := timers;
      scene.disabled := scene.disabled - DueGifts(timers, now);
      timers := Pending(timers, now);
      PendingKeepsDistinct(ts, now);
      forall j | 0 <= j < |timers| ensures timers[j].gift in scene.disabled {
        var k :| 0 <= k < |ts| && ts[k] == timers[j];
      }
    }
  }
}
