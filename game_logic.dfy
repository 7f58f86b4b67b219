/** The game session component: it spins the map (and its rear-view clone)
    every frame and lays a ring of cottages around the map, alternating
    between the two sides of the road. */
module GameLogic {
  import opened Engine

  /** A prefab file from the content catalog (its resource path). */
  type Prefab = string

  const NoCottagesFound := "No cottages found"

  /** Lateral distance band, beyond the road's half-width, for cottages. */
  const MinCottageDistance := 100.0
  const MaxCottageDistance := 300.0

  // ---------------------------------------------------------------------------
  // Map rotation
  // ---------------------------------------------------------------------------

  /** Pitch angles (degrees, accumulated without wrapping) of the map and of
      its rear-view clone. */
  datatype Track = Track(mapPitch: real, clonePitch: real)

  /** One frame of rotation at `speed` degrees per second for `dt` seconds. */
  function Rotate(t: Track, speed: real, dt: real): (r: Track)
    ensures r.mapPitch - r.clonePitch == t.mapPitch - t.clonePitch
    ensures t.mapPitch - r.mapPitch == speed * dt
    ensures speed >= 0.0 && dt >= 0.0 ==> r.mapPitch <= t.mapPitch
  {
    Track(t.mapPitch - speed * dt, t.clonePitch - speed * dt)
  }

  function Elapsed(dts: seq<real>): real
  {
    if dts == [] then 0.0 else dts[0] + Elapsed(dts[1..])
  }

  /** The track after a run of frames with the given frame times; the clone
      keeps its offset to the map throughout. */
  function Spin(t: Track, speed: real, dts: seq<real>): (r: Track)
    ensures r.mapPitch - r.clonePitch == t.mapPitch - t.clonePitch
    decreases |dts|
  {
    if dts == [] then t else Spin(Rotate(t, speed, dts[0]), speed, dts[1..])
  }

  /** Over any number of frames the map turns by speed times the elapsed
      time. */
  lemma {:induction false} SpinTurnsByElapsed(t: Track, speed: real, dts: seq<real>)
    ensures t.mapPitch - Spin(t, speed, dts).mapPitch == speed * Elapsed(dts)
    decreases |dts|
  {
    if dts != [] {
      var t1 := Rotate(t, speed, dts[0]);
      SpinTurnsByElapsed(t1, speed, dts[1..]);
      assert speed * Elapsed(dts) == speed * dts[0] + speed * Elapsed(dts[1..]);
    }
  }

  // ---------------------------------------------------------------------------
  // Cottage ring
  // ---------------------------------------------------------------------------

  /** A spawned cottage: its handle, the prefab it was cloned from, the side of
      the road (0 or 1), its pitch around the ring, its yaw, and its signed
      lateral offset along the engine's Left axis (Right is negative). */
  datatype Cottage = Cottage(handle: Handle, prefab: Prefab, side: nat, pitch: real, yaw: real, lateralOffset: real)

  /** The random values one loop iteration draws: the catalog index of the
      prefab, the pitch jitter and the lateral distance. */
  datatype Draw = Draw(pick: nat, jitter: real, distance: real)

  function Max0(n: int): (r: nat)
    ensures r >= n && (n >= 0 ==> r == n)
  {
    if n < 0 then 0 else n
  }

  /** Angular size of one slot when `count` cottages share the full turn. */
  function Slice(count: int): (r: real)
    requires count > 0
    ensures r > 0.0 && r * count as real == 360.0
  {
    360.0 / count as real
  }

  /** The range the random source draws from, for a ring of `count` cottages
      and a catalog of `catalogSize` prefabs. */
  predicate ValidDraw(d: Draw, count: int, catalogSize: nat)
  {
    count > 0 && d.pick < catalogSize
    && -Slice(count) / 2.0 <= d.jitter <= Slice(count) / 2.0
    && MinCottageDistance <= d.distance <= MaxCottageDistance
  }

  /** The source only draws when there is a catalog entry and a slot to fill;
      then it draws once per slot. */
  predicate ValidDraws(draws: seq<Draw>, count: int, catalogSize: nat)
  {
    catalogSize > 0 && count > 0 ==>
      |draws| == count && forall j :: 0 <= j < count ==> ValidDraw(draws[j], count, catalogSize)
  }

  /** Slot `i` of a ring of `count` cottages. */
  function PlaceCottage(i: nat, count: int, roadWidth: real, catalog: seq<Prefab>, d: Draw, h: Handle): (c: Cottage)
    requires i < count && ValidDraw(d, count, |catalog|)
    ensures c.handle == h && c.prefab in catalog
    ensures c.side == i % 2 && c.yaw == -90.0 + 180.0 * c.side as real
    ensures Slice(count) * i as real - Slice(count) / 2.0 <= c.pitch <= Slice(count) * i as real + Slice(count) / 2.0
    ensures c.side == 0 ==> roadWidth / 2.0 + MinCottageDistance <= c.lateralOffset <= roadWidth / 2.0 + MaxCottageDistance
    ensures c.side == 1 ==> -(roadWidth / 2.0 + MaxCottageDistance) <= c.lateralOffset <= -(roadWidth / 2.0 + MinCottageDistance)
  {
    var side := i % 2;
    var magnitude := roadWidth / 2.0 + d.distance;
    Cottage(h, catalog[d.pick], side, Slice(count) * i as real + d.jitter, -90.0 + 180.0 * side as real,
            if side == 0 then magnitude else -magnitude)
  }

  /** The first `n` slots of the ring, in the order the loop appends them;
      slot i gets the i-th fresh handle after `first`. */
  function Ring(count: int, roadWidth: real, catalog: seq<Prefab>, draws: seq<Draw>, first: Handle, n: nat): (r: seq<Cottage>)
    requires n <= Max0(count) && n <= |draws|
    requires forall j :: 0 <= j < n ==> ValidDraw(draws[j], count, |catalog|)
    ensures |r| == n
  {
    if n == 0 then []
    else Ring(count, roadWidth, catalog, draws, first, n - 1)
         + [PlaceCottage(n - 1, count, roadWidth, catalog, draws[n - 1], first + n - 1)]
  }

  lemma {:induction false} RingAt(count: int, roadWidth: real, catalog: seq<Prefab>, draws: seq<Draw>, first: Handle, n: nat, i: nat)
    requires n <= Max0(count) && n <= |draws|
    requires forall j :: 0 <= j < n ==> ValidDraw(draws[j], count, |catalog|)
    requires i < n
    ensures Ring(count, roadWidth, catalog, draws, first, n)[i]
            == PlaceCottage(i, count, roadWidth, catalog, draws[i], first + i)
  {
    if i < n - 1 {
      RingAt(count, roadWidth, catalog, draws, first, n - 1, i);
    }
  }

  /** The layout promise of a full ring: one cottage per slot, alternating
      sides, each pitch within its slice, each offset outside the road on its
      own side and facing the road, each handle fresh and distinct. */
  lemma CottageRingLayout(count: int, roadWidth: real, catalog: seq<Prefab>, draws: seq<Draw>, first: Handle)
    requires count > 0 && |catalog| > 0 && ValidDraws(draws, count, |catalog|)
    ensures var ring := Ring(count, roadWidth, catalog, draws, first, count);
      |ring| == count
      && (forall i :: 0 <= i < count ==>
            ring[i].side == i % 2
            && ring[i].handle == first + i
            && ring[i].prefab in catalog
            && ring[i].yaw == -90.0 + 180.0 * ring[i].side as real
            && Slice(count) * i as real - Slice(count) / 2.0 <= ring[i].pitch <= Slice(count) * i as real + Slice(count) / 2.0
            && (ring[i].side == 0 ==> roadWidth / 2.0 + MinCottageDistance <= ring[i].lateralOffset <= roadWidth / 2.0 + MaxCottageDistance)
            && (ring[i].side == 1 ==> -(roadWidth / 2.0 + MaxCottageDistance) <= ring[i].lateralOffset <= -(roadWidth / 2.0 + MinCottageDistance)))
      && (forall i, j :: 0 <= i < j < count ==> ring[i].handle != ring[j].handle)
  {
    var ring := Ring(count, roadWidth, catalog, draws, first, count);
    forall i | 0 <= i < count
      ensures ring[i] == PlaceCottage(i, count, roadWidth, catalog, draws[i], first + i)
    {
      RingAt(count, roadWidth, catalog, draws, first, count, i);
    }
  }

  /** The handles of a registry, in registry order. */
  function Handles(cs: seq<Cottage>): (hs: seq<Handle>)
    ensures |hs| == |cs| && forall i :: 0 <= i < |cs| ==> hs[i] == cs[i].handle
  {
    if cs == [] then [] else Handles(cs[..|cs| - 1]) + [cs[|cs| - 1].handle]
  }

  // ---------------------------------------------------------------------------
  // The component
  // ---------------------------------------------------------------------------

  class ChristmassyGameLogic {
    const scene: Scene
    /** Whether the Map object is valid. */
    const mapValid: bool
    const mapRadius: real
    const roadWidth: real
    const cottagesSpawned: int
    /** Degrees per second the map turns. */
    const rotationSpeed: real

    var mapPitch: real
    var clonePitch: real
    var cottages: seq<Cottage>
    var errors: seq<string>

    /** Session members the sled uses (score and end-of-run flag). */
    var points: int
    var ended: bool

    constructor (scene: Scene, mapValid: bool, mapRadius: real, roadWidth: real, cottagesSpawned: int,
                 rotationSpeed: real, mapPitch: real, clonePitch: real)
      requires scene.Valid()
      ensures Valid()
      ensures this.scene == scene && this.mapValid == mapValid && this.mapRadius == mapRadius
      ensures this.roadWidth == roadWidth && this.cottagesSpawned == cottagesSpawned
      ensures this.rotationSpeed == rotationSpeed
      ensures this.mapPitch == mapPitch && this.clonePitch == clonePitch
      ensures cottages == [] && errors == [] && points == 0 && !ended
    {
      this.scene := scene;
      this.mapValid := mapValid;
      this.mapRadius := mapRadius;
      this.roadWidth := roadWidth;
      this.cottagesSpawned := cottagesSpawned;
      this.rotationSpeed := rotationSpeed;
      this.mapPitch := mapPitch;
      this.clonePitch := clonePitch;
      cottages := [];
      errors := [];
      points := 0;
      ended := false;
    }

    /** The registry owns live objects only: its handles were handed out by
        the scene, are pairwise distinct and none has been destroyed. */
    ghost predicate Valid()
      reads this, scene
    {
      scene.Valid()
      && (forall i, j :: 0 <= i < j < |cottages| ==> cottages[i].handle != cottages[j].handle)
      && (forall c :: c in cottages ==> c.handle < scene.next && c.handle !in scene.destroyed)
    }

    function TrackState(): Track
      reads this
    {
      Track(mapPitch, clonePitch)
    }

    /** Per-frame rotation of the map and its clone. */
    method OnUpdate(dt: real)
      modifies this`mapPitch, this`clonePitch
      ensures !mapValid ==> TrackState() == old(TrackState())
      ensures mapValid ==> TrackState() == Rotate(old(TrackState()), rotationSpeed, dt)
    {
      if !mapValid { return; }
      mapPitch := mapPitch - rotationSpeed * dt;
      clonePitch := clonePitch - rotationSpeed * dt;
    }

    /** Destroy every registered cottage, in registry order, and empty the
        registry. */
    method ClearMap()
      requires Valid()
      modifies this`cottages, scene`destroyed
      ensures Valid()
      ensures cottages == []
      ensures scene.destroyed == old(scene.destroyed) + Handles(old(cottages))
    {
      var doomed := cottages;
      var i := 0;
      while i < |doomed|
        invariant 0 <= i <= |doomed|
        invariant scene.destroyed == old(scene.destroyed) + Handles(doomed[..i])
        invariant scene.Valid()
      {
        scene.Destroy(doomed[i].handle);
        assert doomed[..i + 1][..i] == doomed[..i];
        i := i + 1;
      }
      assert doomed[..i] == doomed;
      cottages := [];
    }

    /** Rebuild the cottage ring from the catalog, drawing from `draws`. */
    method GenerateMap(catalog: seq<Prefab>, draws: seq<Draw>)
      requires Valid() && ValidDraws(draws, cottagesSpawned, |catalog|)
      modifies this`cottages, this`errors, scene`destroyed, scene`next
      ensures Valid()
      ensures forall c :: c in cottages ==> c.handle !in scene.destroyed
      ensures !mapValid ==> cottages == old(cottages) && errors == old(errors)
                            && scene.destroyed == old(scene.destroyed) && scene.next == old(scene.next)
      ensures mapValid ==> scene.destroyed == old(scene.destroyed) + Handles(old(cottages))
      ensures mapValid && |catalog| == 0 ==>
                cottages == [] && errors == old(errors) + [NoCottagesFound] && scene.next == old(scene.next)
      ensures mapValid && |catalog| > 0 ==>
                cottages == Ring(cottagesSpawned, roadWidth, catalog, draws, old(scene.next), Max0(cottagesSpawned))
                && |cottages| == Max0(cottagesSpawned)
                && errors == old(errors)
                && scene.next == old(scene.next) + Max0(cottagesSpawned)
                && (forall c :: c in cottages ==> old(scene.next) <= c.handle < scene.next)
    {
      if !mapValid { return; }
      ClearMap();
      if |catalog| == 0 {
        errors := errors + [NoCottagesFound];
        return;
      }
      var first := scene.next;
      var i := 0;
      while i < cottagesSpawned
        invariant 0 <= i <= Max0(cottagesSpawned)
        invariant scene.next == first + i
        invariant errors == old(errors)
        invariant scene.destroyed == old(scene.destroyed) + Handles(old(cottages))
        invariant cottages == Ring(cottagesSpawned, roadWidth, catalog, draws, first, i)
        invariant forall j :: 0 <= j < i ==> cottages[j].handle == first + j
        invariant forall h :: h in scene.destroyed ==> h < first
        invariant scene.Valid()
      {
        var h := scene.Clone();
        cottages := cottages + [PlaceCottage(i, cottagesSpawned, roadWidth, catalog, draws[i], h)];
        i := i + 1;
      }
    }

    method EndGame()
      modifies this`ended
      ensures ended
    {
      ended := true;
    }
  }
}
