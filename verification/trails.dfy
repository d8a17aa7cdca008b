/** The trail buffer: a body's history of positions, oldest first, capped so
    that its arc length stays within one orbit's circumference, and the
    render form derived from it (scaled coordinates and a linear opacity
    ramp). */
module Trails {
  import opened Vectors

  /** `orbitCircumference` is the cap on the arc length in SI units, `scale`
      the SI-to-scene factor given at construction, `trailPoints` the
      history, oldest first. */
  datatype Trail = Trail(orbitCircumference: real, scale: real, trailPoints: seq<Vec3>)

  /** A trail as constructed: the given cap and scale, and no points yet, so
      there is nothing to trim. */
  function NewTrail(orbitCircumference: real, scale: real): (t: Trail)
    ensures t.orbitCircumference == orbitCircumference && t.scale == scale
    ensures |t.trailPoints| == 0
  {
    Trail(orbitCircumference, scale, [])
  }

  /** The arc length of a polyline: the sum of the distances from each point
      to the one before it; zero for fewer than two points, and never
      negative for a true norm. */
  function ArcLength(norm: Norm, points: seq<Vec3>): (r: real)
    ensures IsNorm(norm) ==> 0.0 <= r
    decreases |points|
  {
    if |points| < 2 then 0.0
    else ArcLength(norm, points[..|points| - 1])
         + Distance(norm, points[|points| - 1], points[|points| - 2])
  }

  /** The arc length computed as the source does, by one forward pass that
      accumulates the distance of each point to its predecessor. */
  method ComputeArcLength(norm: Norm, points: seq<Vec3>) returns (length: real)
    ensures length == ArcLength(norm, points)
    ensures |points| < 2 ==> length == 0.0
  {
    length := 0.0;
    var i := 1;
    while i < |points|
      invariant 1 <= i
      invariant |points| == 0 ==> length == 0.0
      invariant |points| > 0 ==> i <= |points| && length == ArcLength(norm, points[..i])
    {
      assert points[..i + 1][..i] == points[..i];
      length := length + Distance(norm, points[i], points[i - 1]);
      i := i + 1;
    }
    assert |points| > 0 ==> points[..|points|] == points;
  }

  /** Dropping the oldest point of a polyline removes exactly its first
      edge from the arc length. This is what lets the trim keep a running
      total instead of recomputing it. */
  lemma {:induction false} ArcLengthDropFirst(norm: Norm, points: seq<Vec3>)
    requires |points| >= 2
    ensures ArcLength(norm, points)
         == Distance(norm, points[1], points[0]) + ArcLength(norm, points[1..])
    decreases |points|
  {
    var n := |points|;
    if n > 2 {
      var init := points[..n - 1];
      ArcLengthDropFirst(norm, init);
      assert init[1..] == points[1..][..n - 2];
      assert points[1..][n - 2] == points[n - 1] && points[1..][n - 3] == points[n - 2];
    } else {
      assert points[..1][..0] == [];
    }
  }

  /** Appending a point adds exactly the new edge to the arc length (none
      when the polyline was empty). */
  lemma ArcLengthAppend(norm: Norm, points: seq<Vec3>, p: Vec3)
    ensures ArcLength(norm, points + [p])
         == ArcLength(norm, points)
            + (if |points| == 0 then 0.0 else Distance(norm, p, points[|points| - 1]))
  {
    assert (points + [p])[..|points|] == points;
  }

  /** For a true norm, arc length is never negative, and no suffix of a
      polyline is longer than the polyline. */
  lemma {:induction false} ArcLengthOfSuffix(norm: Norm, points: seq<Vec3>, j: nat)
    requires IsNorm(norm)
    requires j <= |points|
    ensures 0.0 <= ArcLength(norm, points[j..]) <= ArcLength(norm, points)
    decreases |points|
  {
    if |points| < 2 {
      assert |points[j..]| < 2;
    } else if j == 0 {
      ArcLengthOfSuffix(norm, points[1..], 0);
      ArcLengthDropFirst(norm, points);
      assert points[1..][0..] == points[1..];
      assert points[0..] == points;
    } else {
      ArcLengthOfSuffix(norm, points[1..], j - 1);
      ArcLengthDropFirst(norm, points);
      assert points[1..][j - 1..] == points[j..];
    }
  }

  /** `addPoint`: the history grows by one point at the newest end; the
      older points and the trail's settings are unchanged. */
  function AddPoint(t: Trail, p: Vec3): (r: Trail)
    ensures |r.trailPoints| == |t.trailPoints| + 1
    ensures r.trailPoints[|t.trailPoints|] == p
    ensures r.trailPoints[..|t.trailPoints|] == t.trailPoints
    ensures r.orbitCircumference == t.orbitCircumference && r.scale == t.scale
  {
    t.(trailPoints := t.trailPoints + [p])
  }

  /** Whether the trim stops at `points`: at most one point is left, or the
      arc length is within the cap. */
  predicate WithinCap(norm: Norm, points: seq<Vec3>, cap: real) {
    |points| <= 1 || ArcLength(norm, points) <= cap
  }

  /** Dropping the first element and then `k` more drops `k + 1`. */
  lemma DropTwice(points: seq<Vec3>, k: nat)
    requires k < |points|
    ensures points[1..][k..] == points[k + 1..]
  {
  }

  /** The trim, stated directly: drop the oldest point for as long as the
      remaining polyline has more than one point and is longer than `cap`.
      The result is a suffix of the input; it is empty only if the input
      was; and it meets the cap or is a single point. */
  function Capped(norm: Norm, points: seq<Vec3>, cap: real): (r: seq<Vec3>)
    ensures |r| <= |points| && r == points[|points| - |r|..]
    ensures |points| >= 1 ==> |r| >= 1
    ensures WithinCap(norm, r, cap)
    decreases |points|
  {
    if |points| > 1 && ArcLength(norm, points) > cap then
      var rest := Capped(norm, points[1..], cap);
      DropTwice(points, |points| - 1 - |rest|);
      rest
    else
      points
  }

  /** The trim keeps the longest suffix where it can stop: every point it
      dropped was dropped from a polyline that still had more than one
      point and was still over the cap. */
  lemma {:induction false} CappedIsLongest(norm: Norm, points: seq<Vec3>, cap: real, j: nat)
    requires j < |points| - |Capped(norm, points, cap)|
    ensures !WithinCap(norm, points[j..], cap)
    decreases |points|
  {
    assert points[0..] == points;
    if j > 0 {
      CappedIsLongest(norm, points[1..], cap, j - 1);
      assert points[1..][j - 1..] == points[j..];
    }
  }
  /** `CappedIsLongest` for every dropped point at once. */
  lemma CappedDropsOnlyOverCap(norm: Norm, points: seq<Vec3>, cap: real)
    ensures forall j :: 0 <= j < |points| - |Capped(norm, points, cap)| ==>
              !WithinCap(norm, points[j..], cap)
  {
    forall j | 0 <= j < |points| - |Capped(norm, points, cap)|
      ensures !WithinCap(norm, points[j..], cap)
    {
      CappedIsLongest(norm, points, cap, j);
    }
  }


  /** The newest point always survives the trim. */
  lemma CappedKeepsNewest(norm: Norm, points: seq<Vec3>, cap: real)
    requires |points| >= 1
    ensures var r := Capped(norm, points, cap); |r| >= 1 && r[|r| - 1] == points[|points| - 1]
  {
    var r := Capped(norm, points, cap);
    assert r[|r| - 1] == points[|points| - |r|..][|r| - 1];
  }

  /** `capTrail`: the trim as the source performs it, with a running total
      that is computed once and then reduced by the length of each dropped
      edge. It keeps exactly the points the direct statement keeps (so its
      result is a non-empty suffix whenever the history was non-empty), it
      meets the cap or is down to one point, and a second trim changes
      nothing. */
  method CapTrail(norm: Norm, t: Trail) returns (r: Trail)
    ensures r == t.(trailPoints := Capped(norm, t.trailPoints, t.orbitCircumference))
    ensures WithinCap(norm, r.trailPoints, t.orbitCircumference)
    ensures Capped(norm, r.trailPoints, r.orbitCircumference) == r.trailPoints
  {
    var cap := t.orbitCircumference;
    var points := t.trailPoints;
    var totalLength := ComputeArcLength(norm, points);
    while |points| > 1 && totalLength > cap
      invariant totalLength == ArcLength(norm, points)
      invariant Capped(norm, points, cap) == Capped(norm, t.trailPoints, cap)
      decreases |points|
    {
      TrimStep(norm, points, cap);
      totalLength := totalLength - Distance(norm, points[1], points[0]);
      points := points[1..];
    }
    TrimStops(norm, points, cap);
    r := t.(trailPoints := points);
  }

  /** One round of the trim: over the cap, dropping the oldest point
      removes its edge from the running total and leaves the outcome of the
      trim unchanged. */
  lemma TrimStep(norm: Norm, points: seq<Vec3>, cap: real)
    requires |points| > 1 && ArcLength(norm, points) > cap
    ensures ArcLength(norm, points) - Distance(norm, points[1], points[0]) == ArcLength(norm, points[1..])
    ensures Capped(norm, points[1..], cap) == Capped(norm, points, cap)
  {
    ArcLengthDropFirst(norm, points);
  }

  /** Where the trim stops, it keeps everything. */
  lemma TrimStops(norm: Norm, points: seq<Vec3>, cap: real)
    requires WithinCap(norm, points, cap)
    ensures Capped(norm, points, cap) == points
  {
  }

  /** Opacity of point `i` of `count`: the linear ramp `i / (count - 1)`,
      or fully opaque when there is only one point. */
  function Alpha(i: nat, count: nat): (r: real)
    ensures i < count ==> 0.0 <= r <= 1.0
    ensures i + 1 == count ==> r == 1.0
  {
    if count > 1 then
      var d := (count - 1) as real;
      if i < count then
        DivideMonotone(0.0, i as real, d);
        DivideMonotone(i as real, d, d);
        i as real / d
      else i as real / d
    else 1.0
  }

  /** Dividing by a positive number keeps the order. */
  lemma DivideMonotone(a: real, b: real, d: real)
    requires 0.0 < d && a <= b
    ensures a / d <= b / d
  {
    var qa, qb := a / d, b / d;
    assert qa * d == a && qb * d == b;
    assert (qb - qa) * d == b - a;
  }

  /** The ramp runs from 0 at the oldest point to 1 at the newest and never
      decreases on the way. */
  lemma AlphaRamp(i: nat, j: nat, count: nat)
    requires i <= j < count
    ensures 0.0 <= Alpha(i, count) <= Alpha(j, count) <= 1.0
    ensures count > 1 ==> Alpha(0, count) == 0.0
    ensures Alpha(count - 1, count) == 1.0
  {
    if count > 1 {
      var d := (count - 1) as real;
      DivideMonotone(0.0, i as real, d);
      DivideMonotone(i as real, j as real, d);
      DivideMonotone(j as real, d, d);
      assert d / d == 1.0;
      assert 0.0 / d == 0.0;
    }
  }

  /** The render buffers of a trail: three coordinates per point and one
      opacity per point. */
  datatype Geometry = Geometry(positions: seq<real>, alphas: seq<real>)

  /** `g` draws `points` at `scale`: point `i` occupies coordinates
      `3i .. 3i+2` of the position buffer, scaled, and carries opacity
      `Alpha(i, |points|)`. */
  predicate Renders(g: Geometry, points: seq<Vec3>, scale: real) {
    && |g.positions| == 3 * |points| && |g.alphas| == |points|
    && (forall i :: 0 <= i < |points| ==>
          Vec3(g.positions[3 * i], g.positions[3 * i + 1], g.positions[3 * i + 2]) == Scale(points[i], scale))
    && (forall i :: 0 <= i < |points| ==> g.alphas[i] == Alpha(i, |points|))
  }

  /** Coordinate `c` of `v`: x, y or z for 0, 1 or 2. */
  function Coord(v: Vec3, c: nat): real {
    if c == 0 then v.x else if c == 1 then v.y else v.z
  }

  /** The buffers that draw `points` at `scale`, built position by position:
      entry `k` of the position buffer is coordinate `k % 3` of point
      `k / 3`, scaled. */
  function Render(points: seq<Vec3>, scale: real): (g: Geometry)
    ensures Renders(g, points, scale)
  {
    var g := Geometry(
      seq(3 * |points|, k requires 0 <= k < 3 * |points| => Coord(Scale(points[k / 3], scale), k % 3)),
      seq(|points|, i requires 0 <= i < |points| => Alpha(i, |points|)));
    forall i | 0 <= i < |points|
      ensures Vec3(g.positions[3 * i], g.positions[3 * i + 1], g.positions[3 * i + 2]) == Scale(points[i], scale)
    {
      assert (3 * i) / 3 == i && (3 * i + 1) / 3 == i && (3 * i + 2) / 3 == i;
      assert (3 * i) % 3 == 0 && (3 * i + 1) % 3 == 1 && (3 * i + 2) % 3 == 2;
    }
    g
  }

  /** The points and the scale determine the buffers: two geometries that
      both draw the same points at the same scale are equal. */
  lemma RendersUnique(g1: Geometry, g2: Geometry, points: seq<Vec3>, scale: real)
    requires Renders(g1, points, scale) && Renders(g2, points, scale)
    ensures g1 == g2
  {
    forall k | 0 <= k < |g1.positions|
      ensures g1.positions[k] == g2.positions[k]
    {
      var i := k / 3;
      assert k == 3 * i || k == 3 * i + 1 || k == 3 * i + 2;
      assert Vec3(g1.positions[3 * i], g1.positions[3 * i + 1], g1.positions[3 * i + 2]) == Scale(points[i], scale);
      assert Vec3(g2.positions[3 * i], g2.positions[3 * i + 1], g2.positions[3 * i + 2]) == Scale(points[i], scale);
    }
    assert g1.positions == g2.positions;
    assert g1.alphas == g2.alphas;
  }

  /** `updateGeometry`'s arithmetic: the buffers that draw the points, filled
      in point order. The opacities lie in [0, 1], never decrease from the
      oldest point to the newest, and end at 1. */
  method UpdateGeometry(points: seq<Vec3>, scale: real) returns (g: Geometry)
    ensures Renders(g, points, scale) && g == Render(points, scale)
    ensures forall i :: 0 <= i < |g.alphas| ==> 0.0 <= g.alphas[i] <= 1.0
    ensures forall i, j :: 0 <= i <= j < |g.alphas| ==> g.alphas[i] <= g.alphas[j]
    ensures |g.alphas| > 0 ==> g.alphas[|g.alphas| - 1] == 1.0
  {
    var count := |points|;
    var positions := [];
    var alphas := [];
    var i := 0;
    while i < count
      invariant 0 <= i <= count
      invariant |positions| == 3 * i && |alphas| == i
      invariant forall k :: 0 <= k < i ==>
                  Vec3(positions[3 * k], positions[3 * k + 1], positions[3 * k + 2]) == Scale(points[k], scale)
      invariant forall k :: 0 <= k < i ==> alphas[k] == Alpha(k, count)
    {
      var scaledPos := Scale(points[i], scale);
      positions := positions + [scaledPos.x, scaledPos.y, scaledPos.z];
      alphas := alphas + [if count > 1 then i as real / (count - 1) as real else 1.0];
      i := i + 1;
    }
    g := Geometry(positions, alphas);
    forall i, j | 0 <= i <= j < |alphas|
      ensures 0.0 <= alphas[i] <= alphas[j] <= 1.0
    {
      AlphaRamp(i, j, count);
    }
    if count > 0 {
      AlphaRamp(count - 1, count - 1, count);
    }
    RendersUnique(g, Render(points, scale), points, scale);
  }
}
