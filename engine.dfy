/** The slice of the game engine the core relies on: opaque object handles,
    a scene that hands out fresh handles on clone and records destructions
    and enable toggles, and the scalar helpers of the engine's math library. */
module Engine {

  /** An engine object (a GameObject), known only by its identity. */
  type Handle = nat

  datatype Option<+T> = None | Some(value: T)

  function Max(a: real, b: real): (r: real)
    ensures r >= a && r >= b && (r == a || r == b)
  {
    if a >= b then a else b
  }

  /** Clamp `v` into [lo, hi]; the engine refuses an empty range. */
  function Clamp(v: real, lo: real, hi: real): (r: real)
    requires lo <= hi
    ensures lo <= r <= hi
    ensures lo <= v <= hi ==> r == v
    ensures v < lo ==> r == lo
    ensures v > hi ==> r == hi
  {
    if v < lo then lo else if v > hi then hi else v
  }

  /** Linear interpolation from `a` towards `b`, with the fraction clamped
      into [0, 1] as the engine's helper does by default. */
  function Lerp(a: real, b: real, frac: real): real
  {
    a + (b - a) * Clamp(frac, 0.0, 1.0)
  }

  /** The interpolated value never overshoots: it lies between the two
      end points, whichever way round they are. */
  lemma LerpBetween(a: real, b: real, frac: real)
    ensures a <= b ==> a <= Lerp(a, b, frac) <= b
    ensures b <= a ==> b <= Lerp(a, b, frac) <= a
  {
    var c := Clamp(frac, 0.0, 1.0);
    var d := b - a;
    assert Lerp(a, b, frac) == a + d * c;
    if d >= 0.0 {
      NonNegativeProduct(d, c);
      NonNegativeProduct(d, 1.0 - c);
    } else {
      NonNegativeProduct(-d, c);
      NonNegativeProduct(-d, 1.0 - c);
    }
  }

  lemma NonNegativeProduct(x: real, y: real)
    requires x >= 0.0 && y >= 0.0
    ensures x * y >= 0.0
  {
  }

  /** The scene graph as far as the core sees it: `next` is the handle the
      next clone receives (so every handle at or above it is unused),
      `destroyed` lists destructions in order, and `disabled` holds the
      objects whose Enabled flag is off. */
  class Scene {
    var next: Handle
    var destroyed: seq<Handle>
    var disabled: set<Handle>

    /** Only handles already handed out can have been destroyed or
        disabled. */
    ghost predicate Valid()
      reads this
    {
      (forall h :: h in destroyed ==> h < next) && (forall h :: h in disabled ==> h < next)
    }

    constructor ()
      ensures Valid()
      ensures next == 0 && destroyed == [] && disabled == {}
    {
      next := 0;
      destroyed := [];
      disabled := {};
    }

    /** Clone an object (a prefab or a live object) into a fresh handle. */
    method Clone() returns (h: Handle)
      modifies this`next
      ensures h == old(next) && next == old(next) + 1
    {
      h := next;
      next := next + 1;
    }

    method Destroy(h: Handle)
      modifies this`destroyed
      ensures destroyed == old(destroyed) + [h]
    {
      destroyed := destroyed + [h];
    }

    method SetEnabled(h: Handle, enabled: bool)
      modifies this`disabled
      ensures disabled == if enabled then old(disabled) - {h} else old(disabled) + {h}
    {
      disabled := if enabled then disabled - {h} else disabled + {h};
    }
  }
}
