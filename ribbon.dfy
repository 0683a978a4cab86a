/**
 * The ribbon's rolling path history: a window of CurvePoints control points,
 * oldest first, seeded as a straight line and advanced once per frame by
 * dropping the oldest point and appending the fish head. Also the copy of a
 * freshly generated position list into the ribbon's existing vertex buffer.
 */
module Ribbon {
  import opened Vectors

  /** How many control points make up the tail. */
  const CurvePoints: nat := 100

  /** Distance along z between consecutive points of the seed line. */
  const SeedSpacing: real := 0.5

  /** Point i of the seed line: on the z axis, SeedSpacing * i from the origin. */
  function SeedPoint(i: nat): Vector3
  {
    Vector3(0.0, 0.0, i as real * SeedSpacing)
  }

  /** The initial history: a straight line along z, starting at the origin. */
  function SeedPath(): (s: seq<Vector3>)
    ensures |s| == CurvePoints
    ensures s[0] == Origin
    ensures forall i :: 0 <= i < |s| ==> s[i] == Vector3(0.0, 0.0, SeedSpacing * i as real)
    ensures forall i :: 0 <= i < |s| ==> s[i].x == 0.0 && s[i].y == 0.0
    ensures forall i :: 0 < i < |s| ==> s[i].z == s[i - 1].z + SeedSpacing
  {
    seq(CurvePoints, i requires 0 <= i => SeedPoint(i))
  }

  /** Array.prototype.shift on the history: drop the oldest point (an empty list stays empty). */
  function Shift(s: seq<Vector3>): (r: seq<Vector3>)
    ensures s != [] ==> |r| == |s| - 1 && (forall j :: 0 <= j < |r| ==> r[j] == s[j + 1])
    ensures s == [] ==> r == []
  {
    if s == [] then [] else s[1..]
  }

  /**
   * One frame of the history: shift the oldest point out, push the head in.
   * The window keeps its length, the survivors keep their order and slide
   * down by one, and the head becomes the newest point.
   */
  function Advance(s: seq<Vector3>, head: Vector3): (r: seq<Vector3>)
    ensures s != [] ==> |r| == |s|
    ensures s == [] ==> r == [head]
    ensures r[|r| - 1] == head
    ensures forall j :: 0 <= j < |r| - 1 ==> r[j] == s[j + 1]
  {
    Shift(s) + [head]
  }

  /** The history after one frame per element of heads, in order. */
  function AdvanceAll(s: seq<Vector3>, heads: seq<Vector3>): seq<Vector3>
    decreases |heads|
  {
    if heads == [] then s else AdvanceAll(Advance(s, heads[0]), heads[1..])
  }

  /**
   * After any number of frames the history is exactly the last |s| points of
   * the seed followed by every head pushed so far: a sliding window.
   */
  lemma {:induction false} AdvanceAllWindow(s: seq<Vector3>, heads: seq<Vector3>)
    requires s != []
    ensures AdvanceAll(s, heads) == (s + heads)[|heads|..]
    decreases |heads|
  {
    if heads != [] {
      var s' := Advance(s, heads[0]);
      AdvanceAllWindow(s', heads[1..]);
      assert s' + heads[1..] == (s + heads)[1..];
    }
  }

  /**
   * Starting from the seed, the history holds CurvePoints points after any
   * number of frames; once CurvePoints heads have been pushed no seed point is
   * left and the history is exactly the last CurvePoints heads, oldest first.
   */
  lemma SeedWindow(heads: seq<Vector3>)
    ensures |AdvanceAll(SeedPath(), heads)| == CurvePoints
    ensures |heads| >= CurvePoints ==>
      AdvanceAll(SeedPath(), heads) == heads[|heads| - CurvePoints..]
    ensures |heads| > 0 ==> AdvanceAll(SeedPath(), heads)[CurvePoints - 1] == heads[|heads| - 1]
  {
    var s := SeedPath();
    AdvanceAllWindow(s, heads);
    if |heads| >= CurvePoints {
      assert (s + heads)[|heads|..] == heads[|heads| - CurvePoints..];
    }
  }

  /** The curve's control-point list (path.points), updated in place every frame. */
  class RibbonPath {
    var points: seq<Vector3>

    /** The history starts as the straight seed line. */
    constructor ()
      ensures points == SeedPath()
      ensures |points| == CurvePoints
    {
      points := SeedPath();
    }

    /** shift() the oldest point, then push() the new head. */
    method Update(head: Vector3)
      modifies this
      ensures points == Advance(old(points), head)
      ensures old(|points|) == CurvePoints ==> |points| == CurvePoints
    {
      points := Shift(points);
      points := points + [head];
    }
  }

  /**
   * TypedArray.prototype.set(src) with offset 0 on the ribbon's position
   * buffer: copies src over the front of dst in place; a src longer than dst
   * is refused with a RangeError (ok == false) and dst is left as it was.
   */
  method SetPositions(dst: array<real>, src: seq<real>) returns (ok: bool)
    modifies dst
    ensures ok <==> |src| <= dst.Length
    ensures ok ==> dst[..] == src + old(dst[..])[|src|..]
    ensures !ok ==> dst[..] == old(dst[..])
  {
    if |src| > dst.Length {
      return false;
    }
    var k := 0;
    while k < |src|
      invariant 0 <= k <= |src|
      invariant dst[..k] == src[..k]
      invariant dst[k..] == old(dst[..])[k..]
    {
      dst[k] := src[k];
      k := k + 1;
      assert dst[..k] == dst[..k - 1] + [dst[k - 1]];
    }
    assert dst[..] == dst[..|src|] + dst[|src|..];
    return true;
  }
}
