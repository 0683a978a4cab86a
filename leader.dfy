/**
 * The invisible leader point (the fish head): each axis oscillates with its
 * own frequency and amplitude in the elapsed time. The trigonometric values
 * are inputs; only their range [-1, 1] is used.
 */
module Leader {
  import opened Vectors

  /** Amplitudes of the x, y and z oscillations. */
  const AmplitudeX: real := 10.0
  const AmplitudeY: real := 5.0
  const AmplitudeZ: real := 10.0

  /**
   * The fish head from the values of cos(0.5 e), sin(0.7 e) and sin(0.4 e)
   * for elapsed time e: it stays in the box |x| <= 10, |y| <= 5, |z| <= 10,
   * and for cos = 1, sin = 0, sin = 0 it sits at (10, 0, 0).
   */
  function FishHead(cosX: real, sinY: real, sinZ: real): (h: Vector3)
    ensures -1.0 <= cosX <= 1.0 ==> -AmplitudeX <= h.x <= AmplitudeX
    ensures -1.0 <= sinY <= 1.0 ==> -AmplitudeY <= h.y <= AmplitudeY
    ensures -1.0 <= sinZ <= 1.0 ==> -AmplitudeZ <= h.z <= AmplitudeZ
    ensures cosX == 1.0 && sinY == 0.0 && sinZ == 0.0 ==> h == Vector3(AmplitudeX, 0.0, 0.0)
  {
    Vector3(cosX * AmplitudeX, sinY * AmplitudeY, sinZ * AmplitudeZ)
  }
}
