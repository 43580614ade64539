/**
 * The geometry half of `computeCube` (carpenter.js:178-236): inflate,
 * re-centring on the top-level group's origin, the rotation descriptor and
 * the `rotated` hint.
 */
module Geometry {
  import opened Wrappers
  import opened Scene

  /** What `offsetVec(v, o)` leaves in v. */
  function Sub(v: Vec3, o: Vec3): Vec3 {
    [v[0] - o[0], v[1] - o[1], v[2] - o[2]]
  }

  /** v moved by d on every axis. */
  function Shift(v: Vec3, d: real): Vec3 {
    [v[0] + d, v[1] + d, v[2] + d]
  }

  /** The element's `from`: the corner pushed out by inflate (when inflate is non-zero), then re-centred. */
  function ElementFrom(s: Cube, origin: Vec3): Vec3 {
    Sub(if s.inflate != 0.0 then Shift(s.from, -s.inflate) else s.from, origin)
  }

  /** The element's `to`, likewise. */
  function ElementTo(s: Cube, origin: Vec3): Vec3 {
    Sub(if s.inflate != 0.0 then Shift(s.to, s.inflate) else s.to, origin)
  }

  /** `cubeOrigin`: the cube's pivot re-centred on the group origin. */
  function Pivot(s: Cube, origin: Vec3): Vec3 {
    Sub(s.origin, origin)
  }

  /** Re-centring is linear in each coordinate, whether or not the inflate step ran. */
  lemma RecentredCoordinates(s: Cube, origin: Vec3, i: nat)
    requires i < 3
    ensures ElementFrom(s, origin)[i] == s.from[i] - s.inflate - origin[i]
    ensures ElementTo(s, origin)[i] == s.to[i] + s.inflate - origin[i]
    ensures Pivot(s, origin)[i] == s.origin[i] - origin[i]
  {
  }

  /** The cube and its group moved together by d. */
  function Translate(s: Cube, d: Vec3): Cube {
    s.(from := Shift3(s.from, d), to := Shift3(s.to, d), origin := Shift3(s.origin, d))
  }

  function Shift3(v: Vec3, d: Vec3): Vec3 {
    [v[0] + d[0], v[1] + d[1], v[2] + d[2]]
  }

  /** Re-centring forgets where the group sits: moving cube and group together changes nothing. */
  lemma {:induction false} RecentringIsTranslationInvariant(s: Cube, origin: Vec3, d: Vec3)
    ensures ElementFrom(Translate(s, d), Shift3(origin, d)) == ElementFrom(s, origin)
    ensures ElementTo(Translate(s, d), Shift3(origin, d)) == ElementTo(s, origin)
    ensures Pivot(Translate(s, d), Shift3(origin, d)) == Pivot(s, origin)
  {
    var t, o := Translate(s, d), Shift3(origin, d);
    forall i | 0 <= i < 3
      ensures ElementFrom(t, o)[i] == ElementFrom(s, origin)[i]
      ensures ElementTo(t, o)[i] == ElementTo(s, origin)[i]
      ensures Pivot(t, o)[i] == Pivot(s, origin)[i]
    {
      RecentredCoordinates(t, o, i);
      RecentredCoordinates(s, origin, i);
    }
  }

  /** `v.allEqual(0)` */
  predicate AllZero(v: Vec3) {
    v[0] == 0.0 && v[1] == 0.0 && v[2] == 0.0
  }

  /** The scan of `rotationAxis()`: the first axis, in x, y, z order, with a non-zero angle. */
  function FirstRotatedAxis(v: Vec3): (r: Option<Axis>)
    ensures r.None? <==> AllZero(v)
    ensures r.Some? ==> v[r.value.Index()] != 0.0 && forall j :: 0 <= j < r.value.Index() ==> v[j] == 0.0
  {
    if v[0] != 0.0 then Some(X)
    else if v[1] != 0.0 then Some(Y)
    else if v[2] != 0.0 then Some(Z)
    else None
  }

  /** `s.rotationAxis()`: the first rotated axis, otherwise the cube's stored `rotation_axis`. */
  function RotationAxisOf(s: Cube): Option<Axis> {
    match FirstRotatedAxis(s.rotation)
    case Some(a) => Some(a)
    case None => s.rotationAxis
  }

  /** `element.rotation`, given the re-centred pivot. */
  function Descriptor(s: Cube, pivot: Vec3): (r: Option<Rotation>)
    // present iff the cube is rotated, pivoted off the group origin, or rescaled
    ensures r.Some? <==> !AllZero(s.rotation) || !AllZero(pivot) || s.rescale
    ensures r.Some? ==> r.value.origin == pivot && r.value.rescale == s.rescale
    // a single-axis encoding: the angle is the cube's angle on the chosen axis ...
    ensures r.Some? ==> r.value.angle == s.rotation[r.value.axis.Index()]
    // ... which is the first rotated axis when there is one
    ensures r.Some? && !AllZero(s.rotation) ==>
      r.value.angle != 0.0 && forall j :: 0 <= j < r.value.axis.Index() ==> s.rotation[j] == 0.0
    // both ways of producing a zero-angle descriptor agree on its shape
    ensures r.Some? && AllZero(s.rotation) ==> r.value.angle == 0.0 && r.value.axis == s.rotationAxis.GetOr(Y)
  {
    var rotation :=
      if !AllZero(s.rotation) || !AllZero(pivot) then
        var axis := RotationAxisOf(s).GetOr(Y);
        Some(Rotation(s.rotation[axis.Index()], axis, pivot, false))
      else None;
    if s.rescale then
      match rotation
      case Some(d) => Some(d.(rescale := true))
      case None => Some(Rotation(0.0, s.rotationAxis.GetOr(Y), pivot, true))
    else rotation
  }

  /** `positiveItems()`: how many entries are above zero. */
  function PositiveItems(v: seq<real>): nat
    decreases |v|
  {
    if |v| == 0 then 0 else (if v[0] > 0.0 then 1 else 0) + PositiveItems(v[1..])
  }

  /** `element.rotated`: the whole rotation, when at least two of its angles are positive. */
  function Rotated(s: Cube): (r: Option<Vec3>)
    ensures r.Some? ==> r.value == s.rotation
    ensures r.Some? <==> exists i, j :: 0 <= i < j < 3 && s.rotation[i] > 0.0 && s.rotation[j] > 0.0
  {
    var v := s.rotation;
    assert PositiveItems(v) == (if v[0] > 0.0 then 1 else 0) + (if v[1] > 0.0 then 1 else 0) + (if v[2] > 0.0 then 1 else 0) by {
      assert v[1..][0] == v[1] && v[1..][1..][0] == v[2] && v[1..][1..][1..] == [];
      assert PositiveItems(v[1..][1..]) == (if v[2] > 0.0 then 1 else 0) + PositiveItems(v[1..][1..][1..]);
    }
    if PositiveItems(v) >= 2 then Some(v) else None
  }
}
