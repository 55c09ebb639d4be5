/** Plain values shared by both interpreters: vectors, colours, path points,
    segment metadata, layer definitions and the bounding box. */
module Values {

  datatype Option<T> = None | Some(value: T)

  datatype Result<T, E> = Ok(value: T) | Err(error: E)

  /** Pass or fail of a statement-like operation that returns nothing. */
  datatype Outcome<E> = Pass | Fail(error: E)

  /** A three.js `Vector3`, with real coordinates. */
  datatype Vec3 = Vec3(x: real, y: real, z: real)

  /** A colour, identified by its 24-bit RGB code; nothing else is read from it. */
  datatype Color = Rgb(hex: nat)

  /** The colour `#29BEB0` used when no colour is configured. */
  const DEFAULT_COLOR: Color := Rgb(0x29BEB0)

  /** A point of the tube path: the position it starts at, the radius of the
      segment leaving it, and its colour (a `LinePoint`). */
  datatype PathPoint = PathPoint(position: Vec3, radius: real, color: Color)

  /** What a colorizer is told about a segment. `gCodeLine` is absent when the
      caller does not pass it. */
  datatype SegmentMetadata = SegmentMetadata(
    segmentStart: Vec3, segmentEnd: Vec3, radius: real,
    temp: real, speed: real, gCodeLine: Option<int>)

  /** First and last global point index of a layer. */
  datatype LayerDefinition = LayerDefinition(start: int, end: int)

  /** The `{min, max}` pair of bounding-box corners; both are absent until
      the first point widens them. */
  datatype Bounds = Bounds(min: Option<Vec3>, max: Option<Vec3>)

  predicate LessEq(a: Vec3, b: Vec3) {
    a.x <= b.x && a.y <= b.y && a.z <= b.z
  }

  /** Both corners are present and `p` lies between them. */
  predicate Within(p: Vec3, b: Bounds) {
    b.min.Some? && b.max.Some? && LessEq(b.min.value, p) && LessEq(p, b.max.value)
  }

  function MinReal(a: real, b: real): real { if b < a then b else a }
  function MaxReal(a: real, b: real): real { if b > a then b else a }

  /** `calcMinMax`: a missing corner becomes a copy of `p`, then each corner is
      widened coordinate by coordinate so that it holds `p`. */
  function CalcMinMax(b: Bounds, p: Vec3): (r: Bounds)
    ensures Within(p, r)
    ensures b.min.Some? ==> LessEq(r.min.value, b.min.value)
    ensures b.max.Some? ==> LessEq(b.max.value, r.max.value)
    ensures b.min.None? ==> r.min == Some(p)
    ensures b.max.None? ==> r.max == Some(p)
  {
    var lo := if b.min.Some? then b.min.value else p;
    var hi := if b.max.Some? then b.max.value else p;
    Bounds(Some(Vec3(MinReal(lo.x, p.x), MinReal(lo.y, p.y), MinReal(lo.z, p.z))),
           Some(Vec3(MaxReal(hi.x, p.x), MaxReal(hi.y, p.y), MaxReal(hi.z, p.z))))
  }

  /** The bounds obtained by widening with every point of `ps` in turn. */
  function Enclose(b: Bounds, ps: seq<Vec3>): Bounds
    decreases |ps|
  {
    if ps == [] then b else CalcMinMax(Enclose(b, ps[..|ps| - 1]), ps[|ps| - 1])
  }

  /** Every coordinate of both corners is a coordinate of one of the points. */
  predicate Attained(b: Bounds, ps: seq<Vec3>)
    requires b.min.Some? && b.max.Some?
  {
    (exists i :: 0 <= i < |ps| && ps[i].x == b.min.value.x) &&
    (exists i :: 0 <= i < |ps| && ps[i].y == b.min.value.y) &&
    (exists i :: 0 <= i < |ps| && ps[i].z == b.min.value.z) &&
    (exists i :: 0 <= i < |ps| && ps[i].x == b.max.value.x) &&
    (exists i :: 0 <= i < |ps| && ps[i].y == b.max.value.y) &&
    (exists i :: 0 <= i < |ps| && ps[i].z == b.max.value.z)
  }

  /** Starting from no bounds, widening with a non-empty list of points gives
      the smallest box that holds them all: it holds every point, and each of
      its six bounds is a coordinate of one of the points. */
  lemma {:induction false} EncloseIsSmallest(ps: seq<Vec3>)
    requires ps != []
    ensures forall i :: 0 <= i < |ps| ==> Within(ps[i], Enclose(Bounds(None, None), ps))
    ensures Within(ps[0], Enclose(Bounds(None, None), ps)) && Attained(Enclose(Bounds(None, None), ps), ps)
  {
    var n := |ps|;
    var init := ps[..n - 1];
    var none := Bounds(None, None);
    if n == 1 {
      assert Enclose(none, ps) == CalcMinMax(none, ps[0]);
    } else {
      EncloseIsSmallest(init);
      var b := Enclose(none, init);
      var r := CalcMinMax(b, ps[n - 1]);
      assert Enclose(none, ps) == r;
      forall i | 0 <= i < n
        ensures Within(ps[i], r)
      {
        if i < n - 1 {
          assert ps[i] == init[i];
          assert Within(init[i], b);
        }
      }
      AttainedExtends(b, init, ps);
    }
  }

  lemma AttainedExtends(b: Bounds, init: seq<Vec3>, ps: seq<Vec3>)
    requires |ps| == |init| + 1 && init == ps[..|init|]
    requires b.min.Some? && b.max.Some? && Attained(b, init)
    ensures Attained(CalcMinMax(b, ps[|init|]), ps)
  {
    var n := |init|;
    var r := CalcMinMax(b, ps[n]);
    var lo, hi := r.min.value, r.max.value;
    assert forall i :: 0 <= i < n ==> ps[i] == init[i];
    assert ps[n].x == lo.x || exists i :: 0 <= i < n && ps[i].x == lo.x;
    assert ps[n].y == lo.y || exists i :: 0 <= i < n && ps[i].y == lo.y;
    assert ps[n].z == lo.z || exists i :: 0 <= i < n && ps[i].z == lo.z;
    assert ps[n].x == hi.x || exists i :: 0 <= i < n && ps[i].x == hi.x;
    assert ps[n].y == hi.y || exists i :: 0 <= i < n && ps[i].y == hi.y;
    assert ps[n].z == hi.z || exists i :: 0 <= i < n && ps[i].z == hi.z;
  }
}
