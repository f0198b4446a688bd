/**
  * The barycentre: an uncertainty-weighted mean of a batch of points, taken
  * axis by axis. On each axis a point's weight falls as its uncertainty, taken
  * relative to the largest in the batch, rises; the result's uncertainty on an
  * axis is the plain mean of the batch's.
  */
module Fusion {
  import opened Results
  import opened Vectors
  import opened Points

  /** A point the barycentre can read: it has at least three components. */
  predicate Spatial(p: Point)
  {
    |p.coords| >= 3
  }

  predicate AllSpatial(ps: seq<Point>)
  {
    forall k :: 0 <= k < |ps| ==> Spatial(ps[k])
  }

  /** The uncertainty of `p` on axis 0, 1 or 2. */
  function Uncertainty(p: Point, axis: nat): real
  {
    if axis == 0 then p.dx else if axis == 1 then p.dy else p.dz
  }

  /** The list of coordinates on one axis, in the order of the points. */
  function Coordinates(ps: seq<Point>, axis: nat): seq<real>
    requires axis < 3 && AllSpatial(ps)
  {
    seq(|ps|, k requires 0 <= k < |ps| => ps[k].coords[axis])
  }

  /** The list of uncertainties on one axis, in the order of the points. */
  function Uncertainties(ps: seq<Point>, axis: nat): seq<real>
  {
    seq(|ps|, k requires 0 <= k < |ps| => Uncertainty(ps[k], axis))
  }

  /** `sum(s)` */
  function Sum(s: seq<real>): real
  {
    if |s| == 0 then 0.0 else s[0] + Sum(s[1..])
  }

  /** `max(s)` */
  function Max(s: seq<real>): real
    requires |s| > 0
  {
    if |s| == 1 then s[0] else var m := Max(s[1..]); if s[0] >= m then s[0] else m
  }

  /** `min(s)` */
  function Min(s: seq<real>): real
    requires |s| > 0
  {
    if |s| == 1 then s[0] else var m := Min(s[1..]); if s[0] <= m then s[0] else m
  }

  /** `max(d) or 1.0`: the largest uncertainty, or one when the largest is zero. */
  function Normaliser(d: seq<real>): real
    requires |d| > 0
  {
    if Max(d) == 0.0 then 1.0 else Max(d)
  }

  /** The weight of each point on one axis: `min' + 1 - d'` for uncertainties `d'` relative to the normaliser. */
  function Weights(d: seq<real>): seq<real>
    requires |d| > 0
  {
    var m := Normaliser(d);
    var lo := Min(d) / m;
    seq(|d|, i requires 0 <= i < |d| => lo + 1.0 - d[i] / m)
  }

  /** The weighted mean of the coordinates `xs` under the weights the uncertainties `d` give. */
  function AxisMean(xs: seq<real>, d: seq<real>): Result<real>
    requires |d| > 0
  {
    var w := Weights(d);
    if Sum(w) == 0.0 then Err(ZeroDivision) else Ok(Dot(xs, w) / Sum(w))
  }

  /** What the barycentre computes from the six lists its loop collects. */
  function Fuse(x: seq<real>, y: seq<real>, z: seq<real>, dx: seq<real>, dy: seq<real>, dz: seq<real>): Result<Point>
    requires |dx| > 0 && |dy| == |dx| && |dz| == |dx|
  {
    var n := |dx| as real;
    var mx, my, mz := AxisMean(x, dx), AxisMean(y, dy), AxisMean(z, dz);
    if mx.Err? || my.Err? || mz.Err? then Err(ZeroDivision)
    else Ok(Point([mx.value, my.value, mz.value], Sum(dx) / n, Sum(dy) / n, Sum(dz) / n))
  }

  /**
    * `barycentre(*points)`: a point shorter than three components is an index
    * error, an empty batch has no maximum, and weights that sum to zero on an
    * axis are a division by zero.
    */
  function BarycentreOf(ps: seq<Point>): Result<Point>
  {
    if !AllSpatial(ps) then Err(IndexOutOfRange)
    else if |ps| == 0 then Err(EmptyArgument)
    else Fuse(Coordinates(ps, 0), Coordinates(ps, 1), Coordinates(ps, 2),
              Uncertainties(ps, 0), Uncertainties(ps, 1), Uncertainties(ps, 2))
  }

  /** `barycentre(*points)`: collects the coordinates and uncertainties point by point, then fuses them. */
  method Barycentre(points: seq<Point>) returns (r: Result<Point>)
    ensures r == BarycentreOf(points)
  {
    var x, y, z: seq<real> := [], [], [];
    var dx, dy, dz: seq<real> := [], [], [];
    var n := |points|;
    for i := 0 to n
      invariant AllSpatial(points[..i])
      invariant x == Coordinates(points[..i], 0) && dx == Uncertainties(points[..i], 0)
      invariant y == Coordinates(points[..i], 1) && dy == Uncertainties(points[..i], 1)
      invariant z == Coordinates(points[..i], 2) && dz == Uncertainties(points[..i], 2)
    {
      var point := points[i];
      if |point.coords| < 3 {
        assert !Spatial(points[i]);
        return Err(IndexOutOfRange);
      }
      x, dx := x + [point.coords[0]], dx + [point.dx];
      y, dy := y + [point.coords[1]], dy + [point.dy];
      z, dz := z + [point.coords[2]], dz + [point.dz];
      assert points[..i + 1] == points[..i] + [point];
    }
    assert points[..n] == points;
    if n == 0 {
      return Err(EmptyArgument);
    }
    r := Fuse(x, y, z, dx, dy, dz);
  }

  // ---------------------------------------------------------------------------
  // Arithmetic on reals and sequences

  lemma MulMonotone(a: real, b: real, c: real)
    requires a <= b && 0.0 <= c
    ensures a * c <= b * c
  {
  }

  lemma DivMonotone(a: real, b: real, m: real)
    requires a <= b && 0.0 < m
    ensures a / m <= b / m
  {
  }

  lemma TimesSplit(a: real, b: real, c: real)
    ensures Times(a, b + c) == a * b + Times(a, c)
  {
  }

  lemma DivSelf(x: real)
    requires 0.0 < x
    ensures x / x == 1.0
  {
  }

  /** A quotient whose numerator lies between `lo * s` and `hi * s`, for positive `s`, lies between `lo` and `hi`. */
  lemma MeanBetween(t: real, s: real, lo: real, hi: real)
    requires 0.0 < s && Times(lo, s) <= t <= Times(hi, s)
    ensures lo <= t / s <= hi
  {
    DivMonotone(lo * s, t, s);
    DivMonotone(t, hi * s, s);
  }

  /** `max(s)` bounds every element and is attained at index `k`. */
  lemma {:induction false} MaxBounds(s: seq<real>) returns (k: nat)
    requires |s| > 0
    ensures forall i :: 0 <= i < |s| ==> s[i] <= Max(s)
    ensures k < |s| && s[k] == Max(s)
  {
    if |s| == 1 {
      k := 0;
    } else {
      var j := MaxBounds(s[1..]);
      k := if s[0] >= Max(s[1..]) then 0 else j + 1;
      forall i | 0 <= i < |s| ensures s[i] <= Max(s) {
        if i > 0 { assert s[i] == s[1..][i - 1]; }
      }
    }
  }

  /** `min(s)` bounds every element and is attained at index `k`. */
  lemma {:induction false} MinBounds(s: seq<real>) returns (k: nat)
    requires |s| > 0
    ensures forall i :: 0 <= i < |s| ==> Min(s) <= s[i]
    ensures k < |s| && s[k] == Min(s)
  {
    if |s| == 1 {
      k := 0;
    } else {
      var j := MinBounds(s[1..]);
      k := if s[0] <= Min(s[1..]) then 0 else j + 1;
      forall i | 0 <= i < |s| ensures Min(s) <= s[i] {
        if i > 0 { assert s[i] == s[1..][i - 1]; }
      }
    }
  }

  /** A sum of non-negative terms is at least each of them. */
  lemma {:induction false} SumAtLeastTerm(s: seq<real>, k: nat)
    requires k < |s| && forall i :: 0 <= i < |s| ==> 0.0 <= s[i]
    ensures s[k] <= Sum(s) && 0.0 <= Sum(s)
  {
    if k == 0 {
      if |s| > 1 {
        SumAtLeastTerm(s[1..], 0);
      }
    } else {
      SumAtLeastTerm(s[1..], k - 1);
    }
  }

  /** Non-negative weights keep their weighted sum at least the weight total times a lower bound of the terms. */
  lemma {:induction false} DotAtLeast(xs: seq<real>, w: seq<real>, lo: real)
    requires |xs| == |w|
    requires forall i :: 0 <= i < |xs| ==> lo <= xs[i] && 0.0 <= w[i]
    ensures Times(lo, Sum(w)) <= Dot(xs, w)
    decreases |xs|
  {
    if |xs| > 0 {
      var x, v, rest := xs[0], w[0], Sum(w[1..]);
      DotAtLeast(xs[1..], w[1..], lo);
      MulMonotone(lo, x, v);
      assert Dot(xs, w) == x * v + Dot(xs[1..], w[1..]);
      assert Sum(w) == v + rest;
      TimesSplit(lo, v, rest);
    }
  }

  /** Non-negative weights keep their weighted sum at most the weight total times an upper bound of the terms. */
  lemma {:induction false} DotAtMost(xs: seq<real>, w: seq<real>, hi: real)
    requires |xs| == |w|
    requires forall i :: 0 <= i < |xs| ==> xs[i] <= hi && 0.0 <= w[i]
    ensures Dot(xs, w) <= Times(hi, Sum(w))
    decreases |xs|
  {
    if |xs| > 0 {
      var x, v, rest := xs[0], w[0], Sum(w[1..]);
      DotAtMost(xs[1..], w[1..], hi);
      MulMonotone(x, hi, v);
      assert Dot(xs, w) == x * v + Dot(xs[1..], w[1..]);
      assert Sum(w) == v + rest;
      TimesSplit(hi, v, rest);
    }
  }

  /** Terms that all equal `c` have the weighted sum `c` times the weight total. */
  lemma {:induction false} DotConstant(xs: seq<real>, w: seq<real>, c: real)
    requires |xs| == |w|
    requires forall i :: 0 <= i < |xs| ==> xs[i] == c
    ensures Dot(xs, w) == c * Sum(w)
    decreases |xs|
  {
    if |xs| > 0 {
      DotConstant(xs[1..], w[1..], c);
      assert c * Sum(w) == c * w[0] + c * Sum(w[1..]);
    }
  }

  /** Unit weights make the weighted sum the plain sum, and the weight total the count. */
  lemma {:induction false} DotUnitWeights(xs: seq<real>, w: seq<real>)
    requires |xs| == |w|
    requires forall i :: 0 <= i < |w| ==> w[i] == 1.0
    ensures Dot(xs, w) == Sum(xs) && Sum(w) == |w| as real
    decreases |xs|
  {
    if |xs| > 0 {
      DotUnitWeights(xs[1..], w[1..]);
    }
  }

  // ---------------------------------------------------------------------------
  // Properties of the weights and of the barycentre

  /**
    * With non-negative uncertainties every weight lies between the smallest
    * relative uncertainty and one, and the weights sum to at least one (the
    * least uncertain point has weight exactly one).
    */
  lemma WeightsBounded(d: seq<real>)
    requires |d| > 0 && forall i :: 0 <= i < |d| ==> 0.0 <= d[i]
    ensures var w, lo := Weights(d), Min(d) / Normaliser(d);
      |w| == |d| && 0.0 <= lo &&
      (forall i :: 0 <= i < |d| ==> lo <= w[i] <= 1.0) &&
      (forall i :: 0 <= i < |d| && d[i] == Min(d) ==> w[i] == 1.0) &&
      (forall i :: 0 <= i < |d| && Max(d) > 0.0 && d[i] == Max(d) ==> w[i] == lo) &&
      1.0 <= Sum(w)
  {
    var w, m := Weights(d), Normaliser(d);
    var lo := Min(d) / m;
    var top := MaxBounds(d);
    var k := MinBounds(d);
    DivMonotone(0.0, Min(d), m);
    forall i | 0 <= i < |d|
      ensures lo <= w[i] <= 1.0
      ensures d[i] == Min(d) ==> w[i] == 1.0
      ensures Max(d) > 0.0 && d[i] == Max(d) ==> w[i] == lo
    {
      WeightBounded(d, i, m);
    }
    SumAtLeastTerm(w, k);
  }

  /**
    * One weight: between `min'` and one, exactly one for the least uncertain
    * point and exactly `min'` for the most uncertain one (when that is not zero).
    */
  lemma WeightBounded(d: seq<real>, i: nat, m: real)
    requires i < |d| && m == Normaliser(d) && 0.0 <= Min(d) <= d[i] <= Max(d)
    ensures Min(d) / m <= Weights(d)[i] <= 1.0
    ensures d[i] == Min(d) ==> Weights(d)[i] == 1.0
    ensures Max(d) > 0.0 && d[i] == Max(d) ==> Weights(d)[i] == Min(d) / m
  {
    var q, lo := d[i] / m, Min(d) / m;
    assert Weights(d)[i] == lo + 1.0 - q;
    assert d[i] <= m && 0.0 < m;
    DivSelf(m);
    DivMonotone(d[i], m, m);
    DivMonotone(Min(d), d[i], m);
    if Max(d) > 0.0 && d[i] == Max(d) {
      assert m == d[i];
    }
  }

  /**
    * The weights fall as the uncertainty rises: of two points with
    * non-negative uncertainties, the more uncertain one weighs no more.
    */
  lemma WeightsAntitone(d: seq<real>, i: nat, j: nat)
    requires i < |d| && j < |d| && 0.0 <= d[i] <= d[j]
    ensures Weights(d)[j] <= Weights(d)[i]
  {
    var top := MaxBounds(d);
    var m := Normaliser(d);
    assert 0.0 < m;
    DivMonotone(d[i], d[j], m);
  }

  /** A batch of at least one point, each with three components and non-negative uncertainties. */
  predicate WellFormedBatch(ps: seq<Point>)
  {
    |ps| > 0 && AllSpatial(ps) &&
    forall k :: 0 <= k < |ps| ==> 0.0 <= ps[k].dx && 0.0 <= ps[k].dy && 0.0 <= ps[k].dz
  }

  lemma AxisMeanBetween(ps: seq<Point>, axis: nat)
    requires WellFormedBatch(ps) && axis < 3
    ensures var xs := Coordinates(ps, axis);
      AxisMean(xs, Uncertainties(ps, axis)).Ok? &&
      Min(xs) <= AxisMean(xs, Uncertainties(ps, axis)).value <= Max(xs)
  {
    var xs, d := Coordinates(ps, axis), Uncertainties(ps, axis);
    assert forall i :: 0 <= i < |d| ==> 0.0 <= d[i];
    WeightsBounded(d);
    var w := Weights(d);
    var low := MinBounds(xs);
    var high := MaxBounds(xs);
    DotAtLeast(xs, w, Min(xs));
    DotAtMost(xs, w, Max(xs));
    MeanBetween(Dot(xs, w), Sum(w), Min(xs), Max(xs));
  }

  /**
    * A well-formed batch always has a barycentre: three coordinates, each
    * between the smallest and the largest input coordinate on its axis, and
    * per axis the mean of the input uncertainties.
    */
  lemma BarycentreWithinRange(ps: seq<Point>)
    requires WellFormedBatch(ps)
    ensures BarycentreOf(ps).Ok?
    ensures var b, n := BarycentreOf(ps).value, |ps| as real;
      |b.coords| == 3 &&
      (forall axis :: 0 <= axis < 3 ==>
         Min(Coordinates(ps, axis)) <= b.coords[axis] <= Max(Coordinates(ps, axis))) &&
      b.dx == Sum(Uncertainties(ps, 0)) / n &&
      b.dy == Sum(Uncertainties(ps, 1)) / n &&
      b.dz == Sum(Uncertainties(ps, 2)) / n
  {
    AxisMeanBetween(ps, 0);
    AxisMeanBetween(ps, 1);
    AxisMeanBetween(ps, 2);
  }

  /** When all points share one uncertainty on an axis (zero included), the coordinate on that axis is the plain mean. */
  lemma BarycentreEqualUncertainties(ps: seq<Point>, axis: nat)
    requires |ps| > 0 && AllSpatial(ps) && axis < 3
    requires forall k :: 0 <= k < |ps| ==> Uncertainty(ps[k], axis) == Uncertainty(ps[0], axis)
    ensures AxisMean(Coordinates(ps, axis), Uncertainties(ps, axis)) ==
            Ok(Sum(Coordinates(ps, axis)) / |ps| as real)
    ensures BarycentreOf(ps).Ok? ==>
            BarycentreOf(ps).value.coords[axis] == Sum(Coordinates(ps, axis)) / |ps| as real
  {
    var xs, d := Coordinates(ps, axis), Uncertainties(ps, axis);
    var c := d[0];
    var high := MaxBounds(d);
    var low := MinBounds(d);
    assert Max(d) == c && Min(d) == c;
    var w := Weights(d);
    forall i | 0 <= i < |w| ensures w[i] == 1.0 {
      assert d[i] == c;
    }
    DotUnitWeights(xs, w);
  }

  /** The barycentre of a single point is that point, cut to three components. */
  lemma BarycentreOfOne(p: Point)
    requires Spatial(p)
    ensures BarycentreOf([p]) == Ok(Point(p.coords[..3], p.dx, p.dy, p.dz))
  {
    var ps := [p];
    assert AllSpatial(ps);
    assert |ps| as real == 1.0;
    var x, y, z := Coordinates(ps, 0), Coordinates(ps, 1), Coordinates(ps, 2);
    var dx, dy, dz := Uncertainties(ps, 0), Uncertainties(ps, 1), Uncertainties(ps, 2);
    assert x == [p.coords[0]] && y == [p.coords[1]] && z == [p.coords[2]];
    assert dx == [p.dx] && dy == [p.dy] && dz == [p.dz];
    BarycentreEqualUncertainties(ps, 0);
    BarycentreEqualUncertainties(ps, 1);
    BarycentreEqualUncertainties(ps, 2);
    assert AxisMean(x, dx) == Ok(p.coords[0]);
    assert AxisMean(y, dy) == Ok(p.coords[1]);
    assert AxisMean(z, dz) == Ok(p.coords[2]);
    assert Sum(dx) == p.dx && Sum(dy) == p.dy && Sum(dz) == p.dz;
    assert |dx| as real == 1.0;
    assert Sum(dx) / 1.0 == p.dx && Sum(dy) / 1.0 == p.dy && Sum(dz) / 1.0 == p.dz;
    var f := Fuse(x, y, z, dx, dy, dz);
    assert f.Ok?;
    assert f.value.coords == [p.coords[0], p.coords[1], p.coords[2]];
    assert f.value.dx == p.dx;
    assert f.value.dy == p.dy;
    assert f.value.dz == p.dz;
    assert Fuse(x, y, z, dx, dy, dz) == Ok(Point([p.coords[0], p.coords[1], p.coords[2]], p.dx, p.dy, p.dz));
    assert p.coords[..3] == [p.coords[0], p.coords[1], p.coords[2]];
  }

  /** Equal coordinates on an axis have that coordinate as their weighted mean, whatever the weights. */
  lemma AxisMeanOfConstant(xs: seq<real>, d: seq<real>, c: real)
    requires |d| > 0 && |xs| == |d|
    requires forall k :: 0 <= k < |xs| ==> xs[k] == c
    ensures AxisMean(xs, d).Ok? ==> AxisMean(xs, d).value == c
  {
    var w := Weights(d);
    DotConstant(xs, w, c);
  }

  /** Points that coincide on their first three components have that position as their barycentre. */
  lemma BarycentreOfCoincident(ps: seq<Point>, q: seq<real>)
    requires |ps| > 0 && AllSpatial(ps) && |q| == 3
    requires forall k :: 0 <= k < |ps| ==> ps[k].coords[..3] == q
    ensures BarycentreOf(ps).Ok? ==> BarycentreOf(ps).value.coords == q
  {
    forall axis | 0 <= axis < 3
      ensures AxisMean(Coordinates(ps, axis), Uncertainties(ps, axis)).Ok? ==>
              AxisMean(Coordinates(ps, axis), Uncertainties(ps, axis)).value == q[axis]
    {
      var xs := Coordinates(ps, axis);
      forall k | 0 <= k < |xs| ensures xs[k] == q[axis] {
        assert ps[k].coords[..3][axis] == ps[k].coords[axis];
      }
      AxisMeanOfConstant(xs, Uncertainties(ps, axis), q[axis]);
    }
    if BarycentreOf(ps).Ok? {
      assert BarycentreOf(ps).value.coords == [q[0], q[1], q[2]];
    }
  }
}
