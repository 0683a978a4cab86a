/**
 * The lantern field: LanternCount instanced boxes, scattered once in a box
 * around the origin and then, every frame, each drifting upwards at a speed
 * drawn afresh for that slot and frame, wrapping from the top of the vertical
 * band back to its bottom. Horizontal coordinates never change.
 */
module Lanterns {
  import opened Vectors
  import opened Arith

  /** Number of lantern instances. */
  const LanternCount: nat := 400

  /** Width of the initial scatter along x and z, and its height along y. */
  const SpreadXZ: real := 50.0
  const SpreadY: real := 30.0

  /** The vertical band: above Top a lantern is sent back to Bottom. */
  const Top: real := 15.0
  const Bottom: real := -15.0

  /** A Math.random() draw: a real in [0, 1). */
  predicate IsDraw(r: real)
  {
    0.0 <= r < 1.0
  }

  /** (Math.random() - 0.5) * spread: a coordinate in [-spread/2, spread/2). */
  function Scatter(r: real, spread: real): (v: real)
    requires IsDraw(r) && spread > 0.0
    ensures -spread / 2.0 <= v < spread / 2.0
  {
    assert (r - 0.5) * spread < 0.5 * spread by {
      assert 0.5 * spread - (r - 0.5) * spread == (1.0 - r) * spread;
      ProductPositive(1.0 - r, spread);
    }
    assert (r - 0.5) * spread >= -0.5 * spread by {
      assert (r - 0.5) * spread + 0.5 * spread == r * spread;
      ProductNonNegative(r, spread);
    }
    (r - 0.5) * spread
  }

  /** Where a lantern starts: x and z in [-25, 25), y in [-15, 15). */
  predicate InStartBox(p: Vector3)
  {
    -SpreadXZ / 2.0 <= p.x < SpreadXZ / 2.0 &&
    Bottom <= p.y < Top &&
    -SpreadXZ / 2.0 <= p.z < SpreadXZ / 2.0
  }

  /** The start position from three draws, taken in x, y, z order. */
  function StartPosition(rx: real, ry: real, rz: real): (p: Vector3)
    requires IsDraw(rx) && IsDraw(ry) && IsDraw(rz)
    ensures InStartBox(p)
  {
    Vector3(Scatter(rx, SpreadXZ), Scatter(ry, SpreadY), Scatter(rz, SpreadXZ))
  }

  /** A lantern's rising speed, 0.5 + r * 0.5, from a fresh draw r. */
  function Speed(r: real): (v: real)
    requires IsDraw(r)
    ensures 0.5 <= v < 1.0
  {
    0.5 + r * 0.5
  }

  /** The lantern lies inside the vertical band. */
  predicate InBand(p: Vector3)
  {
    Bottom <= p.y <= Top
  }

  /**
   * One frame for one lantern: rise by delta * speed; if that takes it above
   * Top it is put back at Bottom. The horizontal position is untouched, the
   * lantern never ends above Top, and with delta >= 0 it either wrapped or
   * rose by between delta / 2 and delta.
   */
  function Float(p: Vector3, delta: real, r: real): (q: Vector3)
    requires IsDraw(r)
    ensures q.x == p.x && q.z == p.z
    ensures q.y <= Top
    ensures p.y + delta * Speed(r) > Top ==> q.y == Bottom
    ensures p.y + delta * Speed(r) <= Top ==> q.y - p.y == delta * Speed(r)
    ensures delta >= 0.0 ==> q.y == Bottom || delta / 2.0 <= q.y - p.y <= delta
  {
    var v := Speed(r);
    var y := p.y + delta * v;
    assert delta >= 0.0 ==> delta / 2.0 <= delta * v <= delta by {
      if delta >= 0.0 {
        assert delta * v - delta / 2.0 == delta * (v - 0.5);
        assert delta - delta * v == delta * (1.0 - v);
        ProductNonNegative(delta, v - 0.5);
        ProductNonNegative(delta, 1.0 - v);
      }
    }
    if y > Top then p.(y := Bottom) else p.(y := y)
  }

  /** One frame's inputs for one lantern: the time step and its speed draw. */
  datatype Tick = Tick(delta: real, draw: real)

  /** Every tick has a non-negative time step and a draw in [0, 1). */
  predicate ValidTicks(ticks: seq<Tick>)
  {
    forall k :: 0 <= k < |ticks| ==> ticks[k].delta >= 0.0 && IsDraw(ticks[k].draw)
  }

  /** A lantern after one Float per tick, in order. */
  function FloatAll(p: Vector3, ticks: seq<Tick>): (q: Vector3)
    requires forall k :: 0 <= k < |ticks| ==> IsDraw(ticks[k].draw)
    ensures q.x == p.x && q.z == p.z
    decreases |ticks|
  {
    if ticks == [] then p else FloatAll(Float(p, ticks[0].delta, ticks[0].draw), ticks[1..])
  }

  /** However many frames pass, a lantern that starts in the band stays in it. */
  lemma {:induction false} FloatAllInBand(p: Vector3, ticks: seq<Tick>)
    requires ValidTicks(ticks) && InBand(p)
    ensures InBand(FloatAll(p, ticks))
    decreases |ticks|
  {
    if ticks != [] {
      var q := Float(p, ticks[0].delta, ticks[0].draw);
      assert ValidTicks(ticks[1..]) by {
        forall k | 0 <= k < |ticks| - 1
          ensures ticks[1..][k].delta >= 0.0 && IsDraw(ticks[1..][k].draw)
        {
          assert ticks[1..][k] == ticks[k + 1];
        }
      }
      FloatAllInBand(q, ticks[1..]);
    }
  }

  /** The instanced mesh's per-slot positions, read and rewritten in place. */
  class LanternField {
    const slots: array<Vector3>

    /** The field has its fixed number of slots. */
    ghost predicate Valid()
      reads this
    {
      slots.Length == LanternCount
    }

    /** Every lantern lies inside the vertical band. */
    ghost predicate AllInBand()
      reads this, slots
    {
      forall i :: 0 <= i < slots.Length ==> InBand(slots[i])
    }

    /**
     * Scatter the lanterns: slot i is placed from draws[i], its x, y and z
     * draws, so every lantern starts inside the start box.
     */
    constructor (draws: seq<(real, real, real)>)
      requires |draws| == LanternCount
      requires forall i :: 0 <= i < |draws| ==> IsDraw(draws[i].0) && IsDraw(draws[i].1) && IsDraw(draws[i].2)
      ensures Valid() && fresh(slots)
      ensures forall i :: 0 <= i < slots.Length ==> slots[i] == StartPosition(draws[i].0, draws[i].1, draws[i].2)
      ensures forall i :: 0 <= i < slots.Length ==> InStartBox(slots[i])
      ensures AllInBand()
    {
      var a := new Vector3[LanternCount];
      var i := 0;
      while i < LanternCount
        invariant 0 <= i <= LanternCount
        invariant forall k :: 0 <= k < i ==> a[k] == StartPosition(draws[k].0, draws[k].1, draws[k].2)
      {
        a[i] := StartPosition(draws[i].0, draws[i].1, draws[i].2);
        i := i + 1;
      }
      slots := a;
    }

    /**
     * One frame: every slot i is read, floated with draws[i] and written
     * back; slot i's new position depends only on its own old position. With
     * delta >= 0 the band invariant is kept.
     */
    method Step(delta: real, draws: seq<real>)
      requires Valid()
      requires |draws| == LanternCount
      requires forall i :: 0 <= i < |draws| ==> IsDraw(draws[i])
      modifies slots
      ensures forall i :: 0 <= i < slots.Length ==> slots[i] == Float(old(slots[i]), delta, draws[i])
      ensures forall i :: 0 <= i < slots.Length ==> slots[i].x == old(slots[i]).x && slots[i].z == old(slots[i]).z
      ensures delta >= 0.0 && old(AllInBand()) ==> AllInBand()
    {
      var i := 0;
      while i < LanternCount
        invariant 0 <= i <= LanternCount
        invariant forall k :: 0 <= k < i ==> slots[k] == Float(old(slots[k]), delta, draws[k])
        invariant forall k :: i <= k < LanternCount ==> slots[k] == old(slots[k])
      {
        var position := slots[i];
        slots[i] := Float(position, delta, draws[i]);
        i := i + 1;
      }
    }
  }
}
