/**
 * The ribbon's vertex-colour gradient: vertex i of count gets the colour
 * lerpColors(head, tail, i / count), and its three channels are appended to
 * a flat colour list, so entries 3i, 3i+1, 3i+2 belong to vertex i.
 */
module Gradient {
  import opened Arith

  /** An RGB colour with real channels (THREE.Color). */
  datatype Color = Color(r: real, g: real, b: real)

  /** The channels of a colour in the order they are pushed. */
  function Channels(c: Color): (s: seq<real>)
    ensures |s| == 3
  {
    [c.r, c.g, c.b]
  }

  /** How far along the tube vertex i lies, as a fraction of the vertex count. */
  function Param(i: nat, count: nat): (t: real)
    requires i < count
    ensures 0.0 <= t < 1.0
    ensures i == 0 <==> t == 0.0
  {
    i as real / count as real
  }

  /** Further along the tube means a strictly larger parameter. */
  lemma ParamIncreasing(i: nat, j: nat, count: nat)
    requires i < j < count
    ensures Param(i, count) < Param(j, count)
  {
    var c := count as real;
    assert Param(j, count) - Param(i, count) == (j - i) as real / c;
  }

  /** The per-channel blend of lerpColors: a + (b - a) * t. */
  function Lerp(a: real, b: real, t: real): real
  {
    a + (b - a) * t
  }

  /** A blend with 0 <= t <= 1 lies between its two end values, and meets them at t = 0 and t = 1. */
  lemma LerpBetween(a: real, b: real, t: real)
    requires 0.0 <= t <= 1.0
    ensures a <= b ==> a <= Lerp(a, b, t) <= b
    ensures b <= a ==> b <= Lerp(a, b, t) <= a
    ensures Lerp(a, b, 0.0) == a && Lerp(a, b, 1.0) == b
  {
    ProductNonNegative(if a <= b then b - a else a - b, t);
    ProductNonNegative(if a <= b then b - a else a - b, 1.0 - t);
  }


  /** The blend moves monotonically from a towards b as t grows. */
  lemma LerpMonotone(a: real, b: real, t1: real, t2: real)
    requires t1 <= t2
    ensures a <= b ==> Lerp(a, b, t1) <= Lerp(a, b, t2)
    ensures b <= a ==> Lerp(a, b, t2) <= Lerp(a, b, t1)
  {
    assert Lerp(a, b, t2) - Lerp(a, b, t1) == (b - a) * (t2 - t1);
  }

  /** Color.lerpColors(c1, c2, t): each channel blended separately. */
  function LerpColors(c1: Color, c2: Color, t: real): Color
  {
    Color(Lerp(c1.r, c2.r, t), Lerp(c1.g, c2.g, t), Lerp(c1.b, c2.b, t))
  }

  /** True when every channel of c lies between the matching channels of lo and hi. */
  predicate ColorBetween(c: Color, lo: Color, hi: Color)
  {
    (lo.r <= hi.r ==> lo.r <= c.r <= hi.r) && (hi.r <= lo.r ==> hi.r <= c.r <= lo.r) &&
    (lo.g <= hi.g ==> lo.g <= c.g <= hi.g) && (hi.g <= lo.g ==> hi.g <= c.g <= lo.g) &&
    (lo.b <= hi.b ==> lo.b <= c.b <= hi.b) && (hi.b <= lo.b ==> hi.b <= c.b <= lo.b)
  }

  /** The colour of vertex i: the head colour at vertex 0, fading towards the tail colour. */
  function VertexColor(head: Color, tail: Color, i: nat, count: nat): (c: Color)
    requires i < count
    ensures ColorBetween(c, head, tail)
    ensures i == 0 ==> c == head
  {
    var t := Param(i, count);
    LerpBetween(head.r, tail.r, t);
    LerpBetween(head.g, tail.g, t);
    LerpBetween(head.b, tail.b, t);
    LerpColors(head, tail, t)
  }

  /** Colours further along the tube are at least as close to the tail, channel by channel. */
  lemma VertexColorMonotone(head: Color, tail: Color, i: nat, j: nat, count: nat)
    requires i < j < count
    ensures ColorBetween(VertexColor(head, tail, j, count), VertexColor(head, tail, i, count), tail)
  {
    var ti, tj := Param(i, count), Param(j, count);
    ParamIncreasing(i, j, count);
    LerpMonotone(head.r, tail.r, ti, tj);
    LerpMonotone(head.g, tail.g, ti, tj);
    LerpMonotone(head.b, tail.b, ti, tj);
    LerpMonotone(head.r, tail.r, tj, 1.0);
    LerpMonotone(head.g, tail.g, tj, 1.0);
    LerpMonotone(head.b, tail.b, tj, 1.0);
  }

  /** The flat colour list for the first n of count vertices, three channels each. */
  function GradientPrefix(head: Color, tail: Color, n: nat, count: nat): (s: seq<real>)
    requires n <= count
    ensures |s| == 3 * n
  {
    if n == 0 then [] else GradientPrefix(head, tail, n - 1, count) + Channels(VertexColor(head, tail, n - 1, count))
  }

  /** The three entries of a flat colour list that belong to vertex i. */
  function Triple(colors: seq<real>, i: nat): seq<real>
    requires 3 * i + 3 <= |colors|
  {
    colors[3 * i..3 * i + 3]
  }

  /** Entries 3i..3i+2 of the list hold exactly the channels of vertex i. */
  lemma {:induction false} GradientPrefixAt(head: Color, tail: Color, n: nat, count: nat, i: nat)
    requires n <= count && i < n
    ensures Triple(GradientPrefix(head, tail, n, count), i) == Channels(VertexColor(head, tail, i, count))
  {
    var s := GradientPrefix(head, tail, n, count);
    var p := GradientPrefix(head, tail, n - 1, count);
    if i < n - 1 {
      GradientPrefixAt(head, tail, n - 1, count, i);
      assert s[3 * i..3 * i + 3] == p[3 * i..3 * i + 3];
    } else {
      assert s[3 * i..3 * i + 3] == s[|p|..];
    }
  }

  /**
   * The colour loop: for every vertex, compute t, blend, and append the three
   * channels. The list ends with 3 * count entries, vertex i owning entries
   * 3i..3i+2, which hold its blended colour; vertex 0 is the head colour.
   */
  method ComputeColors(count: nat, head: Color, tail: Color) returns (colors: seq<real>)
    ensures |colors| == 3 * count
    ensures forall i :: 0 <= i < count ==> Triple(colors, i) == Channels(VertexColor(head, tail, i, count))
    ensures count > 0 ==> colors[..3] == Channels(head)
  {
    colors := [];
    var i := 0;
    while i < count
      invariant 0 <= i <= count
      invariant colors == GradientPrefix(head, tail, i, count)
    {
      var t := Param(i, count);
      var color := LerpColors(head, tail, t);
      colors := colors + [color.r, color.g, color.b];
      i := i + 1;
    }
    forall i | 0 <= i < count
      ensures Triple(colors, i) == Channels(VertexColor(head, tail, i, count))
    {
      GradientPrefixAt(head, tail, count, count, i);
    }
    if count > 0 {
      assert colors[..3] == Triple(colors, 0);
    }
  }
}
