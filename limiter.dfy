/**
 * The cube size limiter of the furniture model format (carpenter.js:444-498).
 *
 * Block models only accept coordinates in [LOW, HIGH]. The limiter offers a
 * test (does the inflated box leave the domain?) and two repairs that edit the
 * cube's corner arrays in place: `move` shifts the box back inside, `clamp`
 * clamps each inflated edge into the domain.
 */
module Limiter {
  import opened Wrappers

  const LOW: real := -16.0
  const HIGH: real := 32.0

  /** The live cube the limiter is handed: its corner arrays are edited in place. */
  class Cube {
    const from: array<real>
    const to: array<real>
    var inflate: real

    constructor (from: array<real>, to: array<real>, inflate: real)
      ensures this.from == from && this.to == to && this.inflate == inflate
    {
      this.from := from;
      this.to := to;
      this.inflate := inflate;
    }
  }

  /**
   * The optional `values` argument: corners or an inflate that stand in for
   * the cube's own. The default argument (0) supplies none of them.
   */
  datatype Values = Values(from: Option<array<real>>, to: Option<array<real>>, inflate: Option<real>)

  const NO_VALUES := Values(None, None, None)

  /** `values.from || cube.from` */
  function FromOf(cube: Cube, values: Values): array<real> {
    values.from.GetOr(cube.from)
  }

  /** `values.to || cube.to` */
  function ToOf(cube: Cube, values: Values): array<real> {
    values.to.GetOr(cube.to)
  }

  /** `values.inflate == undefined ? cube.inflate : values.inflate` */
  function InflateOf(cube: Cube, values: Values): real
    reads cube
  {
    values.inflate.GetOr(cube.inflate)
  }

  /** The corner arrays the operations act on are 3-vectors. */
  predicate Shaped(cube: Cube, values: Values) {
    FromOf(cube, values).Length == 3 && ToOf(cube, values).Length == 3
  }

  /** One axis of a box: its two corner coordinates, before inflate. */
  datatype Span = Span(from: real, to: real)

  /** The test's condition on one axis: an inflated edge lies outside [LOW, HIGH]. */
  predicate Outside(s: Span, inflate: real) {
    s.to + inflate > HIGH || s.to + inflate < LOW || s.from - inflate > HIGH || s.from - inflate < LOW
  }

  /**
   * `from.find(...)` from index i on: the first axis whose inflated box is
   * outside the domain, or None when there is none.
   */
  function FindOutside(from: seq<real>, to: seq<real>, inflate: real, i: nat): (r: Option<nat>)
    requires |from| <= |to| && i <= |from|
    ensures r.Some? ==> i <= r.value < |from| && Outside(Span(from[r.value], to[r.value]), inflate)
    ensures r.Some? ==> forall j :: i <= j < r.value ==> !Outside(Span(from[j], to[j]), inflate)
    ensures r.None? <==> forall j :: i <= j < |from| ==> !Outside(Span(from[j], to[j]), inflate)
    decreases |from| - i
  {
    if i == |from| then None
    else if Outside(Span(from[i], to[i]), inflate) then Some(i)
    else FindOutside(from, to, inflate, i + 1)
  }

  /** `test`: does the inflated box leave the domain on some axis? It reads and never writes. */
  function Test(cube: Cube, values: Values): (r: bool)
    reads cube, FromOf(cube, values), ToOf(cube, values)
    requires Shaped(cube, values)
    ensures r <==> exists ax :: 0 <= ax < 3 && Outside(Span(FromOf(cube, values)[ax], ToOf(cube, values)[ax]), InflateOf(cube, values))
  {
    FindOutside(FromOf(cube, values)[..], ToOf(cube, values)[..], InflateOf(cube, values), 0).Some?
  }

  /** Explicit corners and inflate take precedence: the cube's own fields then play no part. */
  lemma TestIgnoresOverriddenCube(a: Cube, b: Cube, from: array<real>, to: array<real>, inflate: real)
    requires from.Length == 3 && to.Length == 3
    ensures Test(a, Values(Some(from), Some(to), Some(inflate))) == Test(b, Values(Some(from), Some(to), Some(inflate)))
  {
  }

  /**
   * `move` on one axis: a box sticking out above is shifted down by the
   * overlap, one sticking out below is shifted up; when the shifted box still
   * crosses the far edge, that edge is capped.
   */
  function MoveAxis(s: Span, inflate: real): (r: Span)
    // an axis already inside the domain is left alone
    ensures !Outside(s, inflate) ==> r == s
    // the shift is the smallest one that brings the violating edge back to the domain's edge
    ensures s.to + inflate > HIGH ==> r.to + inflate == HIGH
    ensures s.to + inflate <= HIGH && s.from - inflate < LOW ==> r.from - inflate == LOW
    // a box whose inflated width fits the domain keeps its size ...
    ensures (s.to + inflate) - (s.from - inflate) <= HIGH - LOW <==> r.to - r.from == s.to - s.from
    // ... one wider than the domain ends up spanning exactly the domain
    ensures (s.to + inflate) - (s.from - inflate) > HIGH - LOW ==> r.from - inflate == LOW && r.to + inflate == HIGH
    // on a well-formed box the result passes the test
    ensures s.from <= s.to && inflate >= 0.0 ==> !Outside(r, inflate)
  {
    var overlap := s.to + inflate - 32.0;
    if overlap > 0.0 then
      var shifted := Span(s.from - overlap, s.to - overlap);
      if 16.0 + shifted.from - inflate < 0.0 then Span(-16.0 + inflate, shifted.to) else shifted
    else
      var under := s.from - inflate + 16.0;
      if under < 0.0 then
        var shifted := Span(s.from - under, s.to - under);
        if shifted.to + inflate > 32.0 then Span(shifted.from, 32.0 - inflate) else shifted
      else s
  }

  /** Moving twice is moving once: a moved well-formed box is inside and stays put. */
  lemma MoveAxisIdempotent(s: Span, inflate: real)
    requires s.from <= s.to && inflate >= 0.0
    ensures MoveAxis(MoveAxis(s, inflate), inflate) == MoveAxis(s, inflate)
  {
  }

  /** `Math.clamp(x, lo, hi)` */
  function ClampTo(x: real, lo: real, hi: real): real {
    if x < lo then lo else if x > hi then hi else x
  }

  /** `clamp` on one axis: each inflated edge is clamped into the domain, then inflate is taken off again. */
  function ClampAxis(s: Span, inflate: real): (r: Span)
    ensures !Outside(r, inflate)
    ensures !Outside(s, inflate) ==> r == s
    // clamping may shrink the box but never grows it
    ensures s.from - inflate <= s.to + inflate ==> r.to - r.from <= s.to - s.from
  {
    Span(ClampTo(s.from - inflate, -16.0, 32.0) + inflate, ClampTo(s.to + inflate, -16.0, 32.0) - inflate)
  }

  lemma ClampAxisIdempotent(s: Span, inflate: real)
    ensures ClampAxis(ClampAxis(s, inflate), inflate) == ClampAxis(s, inflate)
  {
  }

  /** `move`: each axis in turn, independently of the others, through the arrays the call resolves to. */
  method Move(cube: Cube, values: Values)
    requires Shaped(cube, values) && FromOf(cube, values) != ToOf(cube, values)
    modifies FromOf(cube, values), ToOf(cube, values)
    ensures forall ax :: 0 <= ax < 3 ==>
      Span(FromOf(cube, values)[ax], ToOf(cube, values)[ax])
        == MoveAxis(Span(old(FromOf(cube, values)[ax]), old(ToOf(cube, values)[ax])), InflateOf(cube, values))
    ensures InflateOf(cube, values) >= 0.0 && (forall ax :: 0 <= ax < 3 ==> old(FromOf(cube, values)[ax]) <= old(ToOf(cube, values)[ax]))
      ==> !Test(cube, values)
  {
    var from, to, inflate := FromOf(cube, values), ToOf(cube, values), InflateOf(cube, values);
    for ax := 0 to 3
      invariant forall k :: 0 <= k < ax ==> Span(from[k], to[k]) == MoveAxis(Span(old(from[k]), old(to[k])), inflate)
      invariant forall k :: ax <= k < 3 ==> from[k] == old(from[k]) && to[k] == old(to[k])
    {
      var overlap := to[ax] + inflate - 32.0;
      if overlap > 0.0 {
        from[ax] := from[ax] - overlap;
        to[ax] := to[ax] - overlap;
        if 16.0 + from[ax] - inflate < 0.0 {
          from[ax] := -16.0 + inflate;
        }
      } else {
        overlap := from[ax] - inflate + 16.0;
        if overlap < 0.0 {
          from[ax] := from[ax] - overlap;
          to[ax] := to[ax] - overlap;
          if to[ax] + inflate > 32.0 {
            to[ax] := 32.0 - inflate;
          }
        }
      }
    }
  }

  /** `clamp`: each axis in turn, through the arrays the call resolves to; afterwards the test passes. */
  method Clamp(cube: Cube, values: Values)
    requires Shaped(cube, values) && FromOf(cube, values) != ToOf(cube, values)
    modifies FromOf(cube, values), ToOf(cube, values)
    ensures forall ax :: 0 <= ax < 3 ==>
      Span(FromOf(cube, values)[ax], ToOf(cube, values)[ax])
        == ClampAxis(Span(old(FromOf(cube, values)[ax]), old(ToOf(cube, values)[ax])), InflateOf(cube, values))
    ensures !Test(cube, values)
  {
    var from, to, inflate := FromOf(cube, values), ToOf(cube, values), InflateOf(cube, values);
    for ax := 0 to 3
      invariant forall k :: 0 <= k < ax ==> Span(from[k], to[k]) == ClampAxis(Span(old(from[k]), old(to[k])), inflate)
      invariant forall k :: ax <= k < 3 ==> from[k] == old(from[k]) && to[k] == old(to[k])
    {
      from[ax] := ClampTo(from[ax] - inflate, -16.0, 32.0) + inflate;
      to[ax] := ClampTo(to[ax] + inflate, -16.0, 32.0) - inflate;
    }
  }
}
