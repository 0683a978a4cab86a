/**
 * The scene state and the per-frame update (animate): move the fish head,
 * advance the path history, copy the regenerated tube positions into the
 * ribbon's existing buffer, and float every lantern. The clock, the
 * trigonometric values, the random draws and the tube generator's output are
 * inputs; rendering is not modelled.
 */
module Frame {
  import opened Vectors
  import opened Ribbon
  import opened Gradient
  import opened Leader
  import opened Lanterns

  class Scene {
    /** The ribbon's control-point history. */
    const path: RibbonPath
    /** The ribbon geometry's position buffer, three reals per vertex, reused every frame. */
    const positions: array<real>
    /** The ribbon's vertex colours, three reals per vertex, computed once. */
    const colors: seq<real>
    /** The lanterns' instance positions. */
    const lanterns: LanternField

    /** The history holds CurvePoints points and the field has its LanternCount slots. */
    ghost predicate Valid()
      reads this, path, lanterns
    {
      |path.points| == CurvePoints && lanterns.Valid()
    }

    /**
     * Scene setup: the seeded path, a fresh buffer holding the first tube's
     * positions, the head-to-tail gradient over its vertices, and the
     * scattered lanterns.
     */
    constructor (tubePositions: seq<real>, head: Color, tail: Color, draws: seq<(real, real, real)>)
      requires |draws| == LanternCount
      requires forall i :: 0 <= i < |draws| ==> IsDraw(draws[i].0) && IsDraw(draws[i].1) && IsDraw(draws[i].2)
      ensures Valid() && fresh(path) && fresh(positions) && fresh(lanterns) && fresh(lanterns.slots)
      ensures path.points == SeedPath()
      ensures positions[..] == tubePositions
      ensures |colors| == 3 * (|tubePositions| / 3)
      ensures forall i :: 0 <= i < |tubePositions| / 3 ==>
        Triple(colors, i) == Channels(VertexColor(head, tail, i, |tubePositions| / 3))
      ensures lanterns.Valid()
      ensures forall i :: 0 <= i < lanterns.slots.Length ==>
        lanterns.slots[i] == StartPosition(draws[i].0, draws[i].1, draws[i].2)
      ensures forall i :: 0 <= i < lanterns.slots.Length ==> InStartBox(lanterns.slots[i])
      ensures lanterns.AllInBand()
    {
      path := new RibbonPath();
      positions := new real[|tubePositions|](i requires 0 <= i < |tubePositions| => tubePositions[i]);
      var gradient := ComputeColors(|tubePositions| / 3, head, tail);
      colors := gradient;
      lanterns := new LanternField(draws);
    }

    /**
     * One frame. The head computed from the trigonometric values is pushed
     * into the history, evicting its oldest point. The regenerated positions
     * are copied into the existing buffer; when they do not fit, the copy
     * throws, the buffer is left alone and the rest of the frame (the
     * lanterns) does not run. Otherwise every lantern is floated with its own
     * draw. The colours are never touched.
     */
    method Animate(cosX: real, sinY: real, sinZ: real, delta: real, tubePositions: seq<real>, draws: seq<real>)
      returns (ok: bool)
      requires Valid()
      requires |draws| == LanternCount
      requires forall i :: 0 <= i < |draws| ==> IsDraw(draws[i])
      modifies path, positions, lanterns.slots
      ensures Valid()
      ensures path.points == Advance(old(path.points), FishHead(cosX, sinY, sinZ))
      ensures ok <==> |tubePositions| <= positions.Length
      ensures ok ==> positions[..] == tubePositions + old(positions[..])[|tubePositions|..]
      ensures !ok ==> positions[..] == old(positions[..])
      ensures ok ==> forall i :: 0 <= i < lanterns.slots.Length ==>
        lanterns.slots[i] == Float(old(lanterns.slots[i]), delta, draws[i])
      ensures !ok ==> lanterns.slots[..] == old(lanterns.slots[..])
      ensures delta >= 0.0 && old(lanterns.AllInBand()) ==> lanterns.AllInBand()
    {
      var head := FishHead(cosX, sinY, sinZ);
      path.Update(head);
      ok := SetPositions(positions, tubePositions);
      if !ok {
        return;
      }
      lanterns.Step(delta, draws);
    }
  }
}
