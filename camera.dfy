/**
 * The camera's zoom and orbit-angle state (src/core/camera.h). Only the
 * in-place updates of `distance` and `theta` are modelled; the view and
 * projection matrices are numerics left out of this model.
 */
module CameraModel {
  import opened IsanaMath

  const MinDistance: real := 50.0
  const MaxDistance: real := 150.0
  const AngleStep: real := 0.1
  const TwoPi: real := 2.0 * Pi

  /** One zoom_out step: add 1, cap at 150. */
  function ZoomOutStep(d: real): (r: real)
    ensures r <= MaxDistance
    ensures d + 1.0 <= MaxDistance ==> r == d + 1.0
    ensures d + 1.0 > MaxDistance ==> r == MaxDistance
  {
    if d + 1.0 > MaxDistance then MaxDistance else d + 1.0
  }

  /** One zoom_in step: subtract 1, floor at 50. */
  function ZoomInStep(d: real): (r: real)
    ensures r >= MinDistance
    ensures d - 1.0 >= MinDistance ==> r == d - 1.0
    ensures d - 1.0 < MinDistance ==> r == MinDistance
  {
    if d - 1.0 < MinDistance then MinDistance else d - 1.0
  }

  datatype Zoom = In | Out

  /** The distance after applying a sequence of zoom key presses in order. */
  function ApplyZooms(d: real, zs: seq<Zoom>): real
    decreases |zs|
  {
    if zs == [] then d
    else ApplyZooms(if zs[0] == In then ZoomInStep(d) else ZoomOutStep(d), zs[1..])
  }

  /** Any sequence of zooms keeps a distance that starts in [50, 150] there. */
  lemma {:induction false} ZoomsStayInRange(d: real, zs: seq<Zoom>)
    requires MinDistance <= d <= MaxDistance
    ensures MinDistance <= ApplyZooms(d, zs) <= MaxDistance
    decreases |zs|
  {
    if zs != [] {
      var d' := if zs[0] == In then ZoomInStep(d) else ZoomOutStep(d);
      ZoomsStayInRange(d', zs[1..]);
    }
  }

  /** One angle_ccw step: add 0.1, subtract 2*pi when the result exceeds 2*pi. */
  function CcwStep(theta: real): (r: real)
    ensures 0.0 <= theta <= TwoPi ==> 0.0 <= r <= TwoPi
  {
    var t := theta + AngleStep;
    if t > TwoPi then t - TwoPi else t
  }

  /**
   * One angle_cw step as written: subtract 0.1, then add 2*pi whenever the
   * result is below 2*pi (the comparison is against 2*pi, not against 0), so
   * from any theta of at least 0.1 the result is never below 2*pi.
   */
  function CwStep(theta: real): (r: real)
    ensures theta - AngleStep < TwoPi ==> r == theta - AngleStep + TwoPi
    ensures theta >= AngleStep ==> r >= TwoPi
  {
    var t := theta - AngleStep;
    if t < TwoPi then t + TwoPi else t
  }

  /**
   * angle_cw does not keep theta in [0, 2*pi]: from 0, two clockwise steps
   * reach 4*pi - 0.2.
   */
  lemma CwLeavesRange()
    ensures CwStep(0.0) == TwoPi - AngleStep
    ensures CwStep(CwStep(0.0)) == 2.0 * TwoPi - 2.0 * AngleStep
    ensures CwStep(CwStep(0.0)) > TwoPi
  {
  }

  /** Every clockwise step from inside [0, 2*pi] lands in (2*pi - 0.1, 4*pi). */
  lemma CwStepFromRange(theta: real)
    requires 0.0 <= theta <= TwoPi
    ensures TwoPi - AngleStep <= CwStep(theta) < 2.0 * TwoPi
  {
  }

  class Camera {
    var distance: real
    var theta: real

    /**
     * The constructor's initial distance (src/core/camera.cpp). The source
     * assigns an `angle` member the header does not declare and leaves theta
     * unset; theta starts at 0 here.
     */
    constructor ()
      ensures distance == 50.0 && theta == 0.0
    {
      distance := 50.0;
      theta := 0.0;
    }

    predicate DistanceInRange()
      reads this
    {
      MinDistance <= distance <= MaxDistance
    }

    method ZoomOut()
      modifies this
      ensures distance == ZoomOutStep(old(distance)) && theta == old(theta)
      ensures old(DistanceInRange()) ==> DistanceInRange()
    {
      distance := distance + 1.0;
      if distance > MaxDistance {
        distance := MaxDistance;
      }
    }

    method ZoomIn()
      modifies this
      ensures distance == ZoomInStep(old(distance)) && theta == old(theta)
      ensures old(DistanceInRange()) ==> DistanceInRange()
    {
      distance := distance - 1.0;
      if distance < MinDistance {
        distance := MinDistance;
      }
    }

    method AngleCcw()
      modifies this
      ensures theta == CcwStep(old(theta)) && distance == old(distance)
      ensures 0.0 <= old(theta) <= TwoPi ==> 0.0 <= theta <= TwoPi
    {
      theta := theta + AngleStep;
      if theta > TwoPi {
        theta := theta - TwoPi;
      }
    }

    method AngleCw()
      modifies this
      ensures theta == CwStep(old(theta)) && distance == old(distance)
    {
      theta := theta - AngleStep;
      if theta < TwoPi {
        theta := theta + TwoPi;
      }
    }

    method ResetAngle()
      modifies this
      ensures theta == 0.0 && distance == old(distance)
    {
      theta := 0.0;
    }
  }
}
