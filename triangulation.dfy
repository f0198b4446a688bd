/**
  * Position fusion from two bearings: `triangulate` finds where two lines in
  * space come closest and fuses the two closest points.
  */
module Triangulation {
  import opened Results
  import opened Vectors
  import opened Points
  import opened Fusion

  /** A bearing: a point near which the line passes and the line's direction. */
  datatype Observation = Observation(origin: Point, direction: seq<real>)

  /** The squared dot product of two unit directions is one: the lines they span are parallel. */
  predicate Aligned(nu: seq<real>, nv: seq<real>)
  {
    Times(Dot(nu, nv), Dot(nu, nv)) == 1.0
  }

  /** Equality in the Cauchy-Schwarz inequality: the directions `u` and `v` are parallel (or one is zero). */
  predicate Parallel(u: seq<real>, v: seq<real>)
  {
    Times(Dot(u, v), Dot(u, v)) == Times(Dot(u, u), Dot(v, v))
  }

  /**
    * `p1` lies on the line through `a` along `u`, `p2` on the line through `b`
    * along `v`, and the segment joining them is orthogonal to both lines: the
    * two are the lines' closest points.
    */
  ghost predicate ClosestPair(a: seq<real>, u: seq<real>, b: seq<real>, v: seq<real>, p1: seq<real>, p2: seq<real>)
  {
    |p1| == 3 && |p2| == 3 &&
    (exists s :: p1 == Add(a, Scale(u, s))) &&
    (exists t :: p2 == Add(b, Scale(v, t))) &&
    Dot(Sub(p1, p2), u) == 0.0 && Dot(Sub(p1, p2), v) == 0.0
  }

  /**
    * The offsets along two unit directions of the closest points of the two
    * lines, from `cu` and `cv`, the dot products of the difference of the
    * lines' points with the directions, and `alpha`, the directions' own dot
    * product: they solve the 2×2 system that makes the joining segment
    * orthogonal to both lines.
    */
  function Offsets(cu: real, cv: real, alpha: real): (r: (real, real))
    requires Times(alpha, alpha) != 1.0
    ensures cu + r.0 - Times(r.1, alpha) == 0.0 && cv + Times(r.0, alpha) - r.1 == 0.0
  {
    OffsetsSolve(cu, cv, alpha);
    ((alpha * cv - cu) / (1.0 - alpha * alpha), (cv - alpha * cu) / (1.0 - alpha * alpha))
  }

  /**
    * The two closest points of the lines through `a` and `b` along the unit
    * directions `nu` and `nv`: lines whose directions have a squared dot
    * product of one cannot be solved.
    */
  function Solve(a: Point, nu: seq<real>, b: Point, nv: seq<real>): Result<(Point, Point)>
  {
    if Aligned(nu, nv) then Err(NoConvergence)
    else
      var alpha := Dot(nu, nv);
      var c := PointSub(a, PointAddend(b)).coords;
      var k := Offsets(Dot(c, nu), Dot(c, nv), alpha);
      Ok((PointAdd(a, VectorAddend(Scale(nu, k.0))), PointAdd(b, VectorAddend(Scale(nv, k.1)))))
  }

  /** The closest points as `triangulate` computes them: both directions are normalised first, and a zero direction is a division by zero. */
  function ClosestPoints(a: Point, u: seq<real>, b: Point, v: seq<real>, root: real -> real): Result<(Point, Point)>
  {
    var nu := Normalize(u, root);
    if nu.Err? then Err(nu.error) else
    var nv := Normalize(v, root);
    if nv.Err? then Err(nv.error) else
    Solve(a, nu.value, b, nv.value)
  }

  /**
    * `triangulate(A, u, B, v)`: the barycentre of the two closest points, with
    * the mean of the two observations' uncertainties.
    */
  function Triangulate(a: Point, u: seq<real>, b: Point, v: seq<real>, root: real -> real): Result<Point>
  {
    var ends := ClosestPoints(a, u, b, v, root);
    if ends.Err? then Err(ends.error) else FusePair(a, b, ends.value)
  }

  /** The last step of `triangulate`: the barycentre of the closest points, with the mean uncertainties of `a` and `b`. */
  function FusePair(a: Point, b: Point, ends: (Point, Point)): Result<Point>
  {
    var m := BarycentreOf([ends.0, ends.1]);
    if m.Err? then Err(m.error)
    else Ok(Point(m.value.coords, (a.dx + b.dx) / 2.0, (a.dy + b.dy) / 2.0, (a.dz + b.dz) / 2.0))
  }

  // ---------------------------------------------------------------------------
  // Real arithmetic

  lemma MulPos(x: real, y: real)
    requires 0.0 < x && 0.0 < y
    ensures 0.0 < x * y
  {
  }

  lemma DivCancel(num: real, a: real, den: real)
    requires den != 0.0 && num == a * den
    ensures num / den == a
  {
  }

  /** The offsets of `Offsets` satisfy the system they solve. */
  lemma OffsetsSolve(cu: real, cv: real, alpha: real)
    requires alpha * alpha != 1.0
    ensures var den := 1.0 - alpha * alpha;
      cu + (alpha * cv - cu) / den - (cv - alpha * cu) / den * alpha == 0.0 &&
      cv + (alpha * cv - cu) / den * alpha - (cv - alpha * cu) / den == 0.0
  {
    Scaled(alpha * cv - cu, 1.0 - alpha * alpha, cu, cv, alpha);
  }

  lemma Scaled(num: real, den: real, cu: real, cv: real, alpha: real)
    requires den == 1.0 - alpha * alpha && den != 0.0 && num == alpha * cv - cu
    ensures cu + num / den - (cv - alpha * cu) / den * alpha == 0.0
    ensures cv + num / den * alpha - (cv - alpha * cu) / den == 0.0
  {
    assert (cu + num / den - (cv - alpha * cu) / den * alpha) * den == 0.0;
    assert (cv + num / den * alpha - (cv - alpha * cu) / den) * den == 0.0;
  }

  /** The system `Offsets` solves has no other solution. */
  lemma OffsetsUnique(cu: real, cv: real, alpha: real, s: real, t: real)
    requires Times(alpha, alpha) != 1.0
    requires cu + s - Times(t, alpha) == 0.0 && cv + Times(s, alpha) - t == 0.0
    ensures Offsets(cu, cv, alpha) == (s, t)
  {
    OffsetNumerators(cu, cv, alpha, s, t);
    DivCancel(alpha * cv - cu, s, 1.0 - alpha * alpha);
    DivCancel(cv - alpha * cu, t, 1.0 - alpha * alpha);
  }

  lemma OffsetNumerators(cu: real, cv: real, alpha: real, s: real, t: real)
    requires cu == t * alpha - s && cv == t - s * alpha
    ensures alpha * alpha != 1.0 ==> 1.0 - alpha * alpha != 0.0
    ensures alpha * cv - cu == s * (1.0 - alpha * alpha)
    ensures cv - alpha * cu == t * (1.0 - alpha * alpha)
  {
  }

  /**
    * The squared cosine of two directions of lengths `x` and `y` is one exactly
    * when their dot product squared is the product of their squared lengths.
    */
  lemma CosineSquared(alpha: real, d: real, uu: real, vv: real, x: real, y: real, p: real, q: real)
    requires 0.0 < x && 0.0 < y && Times(x, x) == uu && Times(y, y) == vv
    requires Times(p, x) == 1.0 && Times(q, y) == 1.0 && alpha == Times(Times(p, q), d)
    ensures Times(alpha, alpha) == 1.0 <==> Times(d, d) == Times(uu, vv)
  {
    MulPos(x, y);
    assert alpha * (x * y) == d;
    assert (x * y) * (x * y) == uu * vv;
    assert alpha * alpha * ((x * y) * (x * y)) == d * d;
    MulPos(x * y, x * y);
  }

  /** Directions scaled to unit length are aligned exactly when the directions are parallel. */
  lemma UnitCosine(u: seq<real>, v: seq<real>, x: real, y: real, p: real, q: real)
    requires 0.0 < x && 0.0 < y && x * x == Dot(u, u) && y * y == Dot(v, v)
    requires p * x == 1.0 && q * y == 1.0
    ensures Aligned(Scale(u, p), Scale(v, q)) <==> Parallel(u, v)
  {
    DotScaleBoth(u, v, p, q);
    CosineSquared(Dot(Scale(u, p), Scale(v, q)), Dot(u, v), Dot(u, u), Dot(v, v), x, y, p, q);
  }

  /** A direction and a non-zero multiple of it have a dot product whose square is the product of their squared lengths. */
  lemma MultipleProducts(k: real, uu: real, d: real, vv: real)
    requires 0.0 < uu && k != 0.0 && d == Times(k, uu) && vv == Times(k, Times(k, uu))
    ensures Times(d, d) == Times(uu, vv) && vv != 0.0
  {
    if k < 0.0 {
      MulPos(-k, -k);
    } else {
      MulPos(k, k);
    }
    MulPos(k * k, uu);
    assert d * d == uu * (k * k * uu);
  }

  /** A non-zero multiple of a non-zero direction is parallel to it and non-zero itself. */
  lemma MultipleIsParallel(u: seq<real>, k: real)
    requires Dot(u, u) != 0.0 && k != 0.0
    ensures Parallel(u, Scale(u, k)) && Dot(Scale(u, k), Scale(u, k)) != 0.0
  {
    DotSelf(u);
    DotScaleLeft(u, u, k);
    DotSymmetric(Scale(u, k), u);
    DotScaleBoth(u, u, k, k);
    MultipleProducts(k, Dot(u, u), Dot(u, Scale(u, k)), Dot(Scale(u, k), Scale(u, k)));
  }

  /** Lines that are not parallel have non-zero directions. */
  lemma NotParallelNonZero(u: seq<real>, v: seq<real>)
    requires !Parallel(u, v)
    ensures Dot(u, u) != 0.0 && Dot(v, v) != 0.0
  {
    DotSelf(u);
    DotSelf(v);
    if Dot(u, u) == 0.0 {
      DotZeros(u, v);
      assert false;
    }
    if Dot(v, v) == 0.0 {
      DotZeros(v, u);
      DotSymmetric(u, v);
      assert false;
    }
  }

  // ---------------------------------------------------------------------------
  // Unit directions

  /**
    * A direction with a non-zero squared length has a positive length `n`, and
    * normalises to itself scaled by `p`, the inverse of `n`, which has unit
    * squared length.
    */
  lemma UnitDirection(u: seq<real>, root: real -> real) returns (n: real, p: real)
    requires IsSqrt(root) && Dot(u, u) != 0.0
    ensures n == Norm(u, root) && 0.0 < n && n * n == Dot(u, u) && p * n == 1.0 && 0.0 < p
    ensures Normalize(u, root) == Ok(Scale(u, p))
    ensures Dot(Scale(u, p), Scale(u, p)) == 1.0
  {
    DotSelf(u);
    n := Norm(u, root);
    assert 0.0 <= n && n * n == Dot(u, u);
    assert n != 0.0;
    DivIsScale(u, n);
    NormalizeIsUnit(u, root);
    p := 1.0 / n;
  }

  /** A three-component direction that `Normalize` accepts has a non-zero squared length. */
  lemma AcceptedDirection(u: seq<real>, root: real -> real)
    requires IsSqrt(root) && |u| == 3 && Normalize(u, root).Ok?
    ensures Dot(u, u) != 0.0
  {
    DotSelf(u);
    NormalizeIsUnit(u, root);
  }

  /** The cosine `triangulate` squares, written with the directions as given. */
  lemma CosineOfDirections(u: seq<real>, v: seq<real>, root: real -> real) returns (nu: seq<real>, nv: seq<real>)
    requires IsSqrt(root) && Dot(u, u) != 0.0 && Dot(v, v) != 0.0
    ensures Normalize(u, root) == Ok(nu) && Normalize(v, root) == Ok(nv)
    ensures Dot(nu, nu) == 1.0 && Dot(nv, nv) == 1.0
    ensures Aligned(nu, nv) <==> Parallel(u, v)
  {
    var x, p := UnitDirection(u, root);
    var y, q := UnitDirection(v, root);
    nu, nv := Scale(u, p), Scale(v, q);
    UnitCosine(u, v, x, y, p, q);
  }

  /** An offset along a direction is the offset times its length along the unit direction. */
  lemma Rescale(u: seq<real>, n: real, p: real, s: real)
    requires p * n == 1.0
    ensures Scale(Scale(u, p), s * n) == Scale(u, s)
  {
    forall i | 0 <= i < |u| ensures Scale(Scale(u, p), s * n)[i] == Scale(u, s)[i] {
      Cancel(u[i], p, s, n);
    }
  }

  lemma Cancel(w: real, p: real, s: real, n: real)
    requires p * n == 1.0
    ensures w * p * (s * n) == w * s
  {
    assert w * p * (s * n) == (w * s) * (p * n);
  }

  // ---------------------------------------------------------------------------
  // Properties of the solving step

  /** The solving step fails exactly on unit directions whose dot product squares to one, and then says so. */
  lemma SolveFails(a: Point, nu: seq<real>, b: Point, nv: seq<real>)
    ensures Solve(a, nu, b, nv).Err? <==> Aligned(nu, nv)
    ensures Solve(a, nu, b, nv).Err? ==> Solve(a, nu, b, nv).error == NoConvergence
  {
  }

  /** The dot product with `w` of `c` moved by `ka` along `nu` and back by `kb` along `nv`. */
  lemma DotOfJoin(c: seq<real>, nu: seq<real>, nv: seq<real>, ka: real, kb: real, w: seq<real>)
    requires |c| == |nu| == |nv|
    ensures Dot(Sub(Add(c, Scale(nu, ka)), Scale(nv, kb)), w) == Dot(c, w) + Times(ka, Dot(nu, w)) - Times(kb, Dot(nv, w))
  {
    DotSubLeft(Add(c, Scale(nu, ka)), Scale(nv, kb), w);
    DotAddLeft(c, Scale(nu, ka), w);
    DotScaleLeft(nu, w, ka);
    DotScaleLeft(nv, w, kb);
  }

  /**
    * Moving from `a` by `ka` along `nu` and from `b` by `kb` along `nv`, with
    * offsets that solve the system of `Offsets`, gives a joining segment
    * orthogonal to both unit directions.
    */
  lemma JoiningSegment(a: seq<real>, nu: seq<real>, b: seq<real>, nv: seq<real>, ka: real, kb: real)
    requires |a| == 3 && |b| == 3 && |nu| == 3 && |nv| == 3
    requires Dot(nu, nu) == 1.0 && Dot(nv, nv) == 1.0
    requires Dot(Sub(a, b), nu) + ka - Times(kb, Dot(nu, nv)) == 0.0
    requires Dot(Sub(a, b), nv) + Times(ka, Dot(nu, nv)) - kb == 0.0
    ensures Dot(Sub(Add(a, Scale(nu, ka)), Add(b, Scale(nv, kb))), nu) == 0.0
    ensures Dot(Sub(Add(a, Scale(nu, ka)), Add(b, Scale(nv, kb))), nv) == 0.0
  {
    var c := Sub(a, b);
    assert Sub(Add(a, Scale(nu, ka)), Add(b, Scale(nv, kb))) == Sub(Add(c, Scale(nu, ka)), Scale(nv, kb));
    DotOfJoin(c, nu, nv, ka, kb, nu);
    DotOfJoin(c, nu, nv, ka, kb, nv);
    DotSymmetric(nv, nu);
  }

  /** The segment joining the two points the solving step returns is orthogonal to both unit directions. */
  lemma SolveOrthogonal(a: Point, nu: seq<real>, b: Point, nv: seq<real>)
    requires |a.coords| == 3 && |b.coords| == 3 && |nu| == 3 && |nv| == 3
    requires Dot(nu, nu) == 1.0 && Dot(nv, nv) == 1.0
    ensures Solve(a, nu, b, nv).Ok? ==>
      ClosestPair(a.coords, nu, b.coords, nv, Solve(a, nu, b, nv).value.0.coords, Solve(a, nu, b, nv).value.1.coords)
  {
    if !Aligned(nu, nv) {
      var c := Sub(a.coords, b.coords);
      var k := Offsets(Dot(c, nu), Dot(c, nv), Dot(nu, nv));
      SolveFrom(a, nu, b, nv, k);
      var p1, p2 := Add(a.coords, Scale(nu, k.0)), Add(b.coords, Scale(nv, k.1));
      assert Solve(a, nu, b, nv).value.0.coords == p1;
      assert Solve(a, nu, b, nv).value.1.coords == p2;
      JoiningSegment(a.coords, nu, b.coords, nv, k.0, k.1);
      assert ClosestPair(a.coords, nu, b.coords, nv, p1, p2);
    }
  }

  /** Where the two lines meet, moving from `a` to the meeting point and back to `b` leaves nothing. */
  lemma MeetingGap(a: seq<real>, nu: seq<real>, b: seq<real>, nv: seq<real>, sa: real, tb: real, w: seq<real>)
    requires |a| == 3 && |b| == 3 && |nu| == 3 && |nv| == 3
    requires Add(a, Scale(nu, sa)) == Add(b, Scale(nv, tb))
    ensures Dot(Sub(Add(Sub(a, b), Scale(nu, sa)), Scale(nv, tb)), w) == 0.0
  {
    var gap := Sub(Add(Sub(a, b), Scale(nu, sa)), Scale(nv, tb));
    forall i | 0 <= i < |gap| ensures gap[i] == 0.0 {
      assert Add(a, Scale(nu, sa))[i] == Add(b, Scale(nv, tb))[i];
    }
    DotZeros(gap, w);
  }

  /** Where the lines through `a` and `b` along the unit directions meet, the offsets `Offsets` finds are those of the meeting point. */
  lemma MeetingOffsets(a: seq<real>, nu: seq<real>, b: seq<real>, nv: seq<real>, sa: real, tb: real)
    requires |a| == 3 && |b| == 3 && |nu| == 3 && |nv| == 3
    requires Dot(nu, nu) == 1.0 && Dot(nv, nv) == 1.0 && !Aligned(nu, nv)
    requires Add(a, Scale(nu, sa)) == Add(b, Scale(nv, tb))
    ensures Offsets(Dot(Sub(a, b), nu), Dot(Sub(a, b), nv), Dot(nu, nv)) == (sa, tb)
  {
    var c := Sub(a, b);
    MeetingGap(a, nu, b, nv, sa, tb, nu);
    MeetingGap(a, nu, b, nv, sa, tb, nv);
    DotOfJoin(c, nu, nv, sa, tb, nu);
    DotOfJoin(c, nu, nv, sa, tb, nv);
    DotSymmetric(nv, nu);
    OffsetsUnique(Dot(c, nu), Dot(c, nv), Dot(nu, nv), sa, tb);
  }

  /**
    * When the lines through `a` and `b` along the unit directions meet, the
    * solving step returns the meeting point twice, with the uncertainties of
    * `a` and `b` each grown by half.
    */
  lemma SolveMeeting(a: Point, nu: seq<real>, b: Point, nv: seq<real>, sa: real, tb: real)
    requires |a.coords| == 3 && |b.coords| == 3 && |nu| == 3 && |nv| == 3
    requires Dot(nu, nu) == 1.0 && Dot(nv, nv) == 1.0 && !Aligned(nu, nv)
    requires Add(a.coords, Scale(nu, sa)) == Add(b.coords, Scale(nv, tb))
    ensures var p := Add(a.coords, Scale(nu, sa));
      Solve(a, nu, b, nv) == Ok((Point(p, a.dx + a.dx / 2.0, a.dy + a.dy / 2.0, a.dz + a.dz / 2.0),
                                 Point(p, b.dx + b.dx / 2.0, b.dy + b.dy / 2.0, b.dz + b.dz / 2.0)))
  {
    MeetingOffsets(a.coords, nu, b.coords, nv, sa, tb);
    SolveFrom(a, nu, b, nv, (sa, tb));
  }

  /** The solving step moves `a` and `b` along their directions by the offsets `Offsets` finds. */
  lemma SolveFrom(a: Point, nu: seq<real>, b: Point, nv: seq<real>, k: (real, real))
    requires !Aligned(nu, nv)
    requires Offsets(Dot(Sub(a.coords, b.coords), nu), Dot(Sub(a.coords, b.coords), nv), Dot(nu, nv)) == k
    ensures Solve(a, nu, b, nv) == Ok((PointAdd(a, VectorAddend(Scale(nu, k.0))), PointAdd(b, VectorAddend(Scale(nv, k.1)))))
  {
    assert PointSub(a, PointAddend(b)).coords == Sub(a.coords, b.coords);
  }

  /** Two points at one position `p`, with non-negative uncertainties, fuse to `p`. */
  lemma FuseCoincidentPair(p1: Point, p2: Point, p: seq<real>)
    requires |p| == 3 && p1.coords == p && p2.coords == p
    requires 0.0 <= p1.dx && 0.0 <= p1.dy && 0.0 <= p1.dz && 0.0 <= p2.dx && 0.0 <= p2.dy && 0.0 <= p2.dz
    ensures BarycentreOf([p1, p2]).Ok? && BarycentreOf([p1, p2]).value.coords == p
  {
    var pair := [p1, p2];
    assert p[..3] == p;
    assert WellFormedBatch(pair);
    BarycentreWithinRange(pair);
    BarycentreOfCoincident(pair, p);
  }

  // ---------------------------------------------------------------------------
  // Properties of `triangulate`

  /** The barycentre never fails the way parallel lines do. */
  lemma FuseNeverParallel(ps: seq<Point>)
    ensures BarycentreOf(ps) != Err(NoConvergence)
  {
  }

  /**
    * Once both directions normalise, `triangulate` gives up exactly when the
    * lines are parallel: the square of the dot product of the directions is
    * the product of their squared lengths (equality in Cauchy-Schwarz).
    */
  lemma TriangulateFailsOnParallel(a: Point, u: seq<real>, b: Point, v: seq<real>, root: real -> real)
    requires IsSqrt(root) && Dot(u, u) != 0.0 && Dot(v, v) != 0.0
    ensures Triangulate(a, u, b, v, root) == Err(NoConvergence) <==> Parallel(u, v)
  {
    var nu, nv := CosineOfDirections(u, v, root);
    assert ClosestPoints(a, u, b, v, root) == Solve(a, nu, b, nv);
    SolveFails(a, nu, b, nv);
    if Solve(a, nu, b, nv).Ok? {
      FuseNeverParallel([Solve(a, nu, b, nv).value.0, Solve(a, nu, b, nv).value.1]);
    }
  }

  /** A direction and a non-zero multiple of it give parallel lines, which `triangulate` refuses. */
  lemma TriangulateRefusesMultiple(a: Point, u: seq<real>, b: Point, k: real, root: real -> real)
    requires IsSqrt(root) && Dot(u, u) != 0.0 && k != 0.0
    ensures Triangulate(a, u, b, Scale(u, k), root) == Err(NoConvergence)
  {
    MultipleIsParallel(u, k);
    TriangulateFailsOnParallel(a, u, b, Scale(u, k), root);
  }

  /** Orthogonality to a non-zero multiple of a direction is orthogonality to the direction. */
  lemma OrthogonalToMultiple(d: seq<real>, u: seq<real>, p: real)
    requires p != 0.0 && Dot(d, Scale(u, p)) == 0.0
    ensures Dot(d, u) == 0.0
  {
    DotSymmetric(d, Scale(u, p));
    DotScaleLeft(u, d, p);
    ProductIsZero(p, Dot(u, d));
    DotSymmetric(u, d);
  }

  /** Closest points found along non-zero multiples of the directions are closest points of the lines along the directions. */
  lemma ClosestPairRescaled(a: seq<real>, u: seq<real>, b: seq<real>, v: seq<real>, p: real, q: real,
                            p1: seq<real>, p2: seq<real>)
    requires p != 0.0 && q != 0.0 && ClosestPair(a, Scale(u, p), b, Scale(v, q), p1, p2)
    ensures ClosestPair(a, u, b, v, p1, p2)
  {
    var ka :| p1 == Add(a, Scale(Scale(u, p), ka));
    var kb :| p2 == Add(b, Scale(Scale(v, q), kb));
    ScaleScale(u, p, ka);
    ScaleScale(v, q, kb);
    assert p1 == Add(a, Scale(u, p * ka));
    assert p2 == Add(b, Scale(v, q * kb));
    OrthogonalToMultiple(Sub(p1, p2), u, p);
    OrthogonalToMultiple(Sub(p1, p2), v, q);
  }

  /**
    * The two points `triangulate` fuses are the closest points of the two
    * lines: each lies on its line, and the segment joining them is orthogonal
    * to both directions.
    */
  lemma ClosestApproach(a: Point, u: seq<real>, b: Point, v: seq<real>, root: real -> real)
    requires IsSqrt(root)
    requires |a.coords| == 3 && |b.coords| == 3 && |u| == 3 && |v| == 3
    ensures ClosestPoints(a, u, b, v, root).Ok? ==>
      ClosestPair(a.coords, u, b.coords, v,
                  ClosestPoints(a, u, b, v, root).value.0.coords, ClosestPoints(a, u, b, v, root).value.1.coords)
  {
    if ClosestPoints(a, u, b, v, root).Ok? {
      AcceptedDirection(u, root);
      AcceptedDirection(v, root);
      var x, p := UnitDirection(u, root);
      var y, q := UnitDirection(v, root);
      var nu, nv := Scale(u, p), Scale(v, q);
      assert ClosestPoints(a, u, b, v, root) == Solve(a, nu, b, nv);
      SolveOrthogonal(a, nu, b, nv);
      ClosestPairRescaled(a.coords, u, b.coords, v, p, q,
                          Solve(a, nu, b, nv).value.0.coords, Solve(a, nu, b, nv).value.1.coords);
    }
  }

  /** An offset `s` along a direction is an offset along the direction scaled to unit length. */
  lemma UnitOffset(u: seq<real>, n: real, p: real, s: real, origin: seq<real>, target: seq<real>) returns (k: real)
    requires p * n == 1.0 && Add(origin, Scale(u, s)) == target
    ensures Add(origin, Scale(Scale(u, p), k)) == target
  {
    k := s * n;
    Rescale(u, n, p, s);
  }

  /** Closest points that coincide at `p`, with non-negative uncertainties, fuse to `p`. */
  lemma FuseCoincident(a: Point, b: Point, e1: Point, e2: Point, p: seq<real>)
    requires |p| == 3 && e1.coords == p && e2.coords == p
    requires 0.0 <= e1.dx && 0.0 <= e1.dy && 0.0 <= e1.dz && 0.0 <= e2.dx && 0.0 <= e2.dy && 0.0 <= e2.dz
    ensures FusePair(a, b, (e1, e2)) == Ok(Point(p, (a.dx + b.dx) / 2.0, (a.dy + b.dy) / 2.0, (a.dz + b.dz) / 2.0))
  {
    FuseCoincidentPair(e1, e2, p);
  }

  /**
    * Two non-parallel lines that meet at `p` triangulate to `p`, with the mean
    * of the two observations' uncertainties.
    */
  lemma TriangulateMeetingLines(a: Point, u: seq<real>, b: Point, v: seq<real>, root: real -> real,
                                p: seq<real>, s: real, t: real)
    requires IsSqrt(root)
    requires |a.coords| == 3 && |b.coords| == 3 && |u| == 3 && |v| == 3
    requires 0.0 <= a.dx && 0.0 <= a.dy && 0.0 <= a.dz && 0.0 <= b.dx && 0.0 <= b.dy && 0.0 <= b.dz
    requires !Parallel(u, v)
    requires Add(a.coords, Scale(u, s)) == p && Add(b.coords, Scale(v, t)) == p
    ensures Triangulate(a, u, b, v, root) == Ok(Point(p, (a.dx + b.dx) / 2.0, (a.dy + b.dy) / 2.0, (a.dz + b.dz) / 2.0))
  {
    NotParallelNonZero(u, v);
    var x, px := UnitDirection(u, root);
    var y, py := UnitDirection(v, root);
    UnitCosine(u, v, x, y, px, py);
    var sa := UnitOffset(u, x, px, s, a.coords, p);
    var tb := UnitOffset(v, y, py, t, b.coords, p);
    SolveMeeting(a, Scale(u, px), b, Scale(v, py), sa, tb);
    var ends := Solve(a, Scale(u, px), b, Scale(v, py)).value;
    assert ClosestPoints(a, u, b, v, root) == Ok(ends);
    FuseCoincident(a, b, ends.0, ends.1, p);
  }

  /**
    * Any two non-parallel lines triangulate: the result has the mean of the
    * two observations' uncertainties, and each coordinate lies between those
    * of the two closest points it fuses.
    */
  lemma TriangulateSkew(a: Point, u: seq<real>, b: Point, v: seq<real>, root: real -> real)
    requires IsSqrt(root)
    requires |a.coords| == 3 && |b.coords| == 3 && |u| == 3 && |v| == 3
    requires 0.0 <= a.dx && 0.0 <= a.dy && 0.0 <= a.dz && 0.0 <= b.dx && 0.0 <= b.dy && 0.0 <= b.dz
    requires !Parallel(u, v)
    ensures ClosestPoints(a, u, b, v, root).Ok? && Triangulate(a, u, b, v, root).Ok?
    ensures var e, r := ClosestPoints(a, u, b, v, root).value, Triangulate(a, u, b, v, root).value;
      |e.0.coords| == 3 && |e.1.coords| == 3 && |r.coords| == 3 &&
      r.dx == (a.dx + b.dx) / 2.0 && r.dy == (a.dy + b.dy) / 2.0 && r.dz == (a.dz + b.dz) / 2.0 &&
      forall axis :: 0 <= axis < 3 ==>
        Between(r.coords[axis], e.0.coords[axis], e.1.coords[axis])
  {
    var e := SkewEnds(a, u, b, v, root);
    FuseEnds(a, b, e);
  }

  /** Non-parallel lines have two closest points, with three coordinates and non-negative uncertainties. */
  lemma SkewEnds(a: Point, u: seq<real>, b: Point, v: seq<real>, root: real -> real) returns (e: (Point, Point))
    requires IsSqrt(root)
    requires |a.coords| == 3 && |b.coords| == 3 && |u| == 3 && |v| == 3
    requires 0.0 <= a.dx && 0.0 <= a.dy && 0.0 <= a.dz && 0.0 <= b.dx && 0.0 <= b.dy && 0.0 <= b.dz
    requires !Parallel(u, v)
    ensures ClosestPoints(a, u, b, v, root) == Ok(e) && WellFormedBatch([e.0, e.1])
    ensures |e.0.coords| == 3 && |e.1.coords| == 3
  {
    NotParallelNonZero(u, v);
    var nu, nv := CosineOfDirections(u, v, root);
    e := Solve(a, nu, b, nv).value;
    assert ClosestPoints(a, u, b, v, root) == Ok(e);
  }

  /** The last step of `triangulate` on two well-formed closest points: the mean uncertainties, and each coordinate between the two. */
  lemma FuseEnds(a: Point, b: Point, e: (Point, Point))
    requires WellFormedBatch([e.0, e.1]) && |e.0.coords| == 3 && |e.1.coords| == 3
    ensures FusePair(a, b, e).Ok?
    ensures var r := FusePair(a, b, e).value;
      |r.coords| == 3 &&
      r.dx == (a.dx + b.dx) / 2.0 && r.dy == (a.dy + b.dy) / 2.0 && r.dz == (a.dz + b.dz) / 2.0 &&
      forall axis :: 0 <= axis < 3 ==> Between(r.coords[axis], e.0.coords[axis], e.1.coords[axis])
  {
    var pair := [e.0, e.1];
    BarycentreWithinRange(pair);
    var m := BarycentreOf(pair).value;
    forall axis | 0 <= axis < 3 ensures Between(m.coords[axis], e.0.coords[axis], e.1.coords[axis]) {
      var xs := Coordinates(pair, axis);
      assert xs == [e.0.coords[axis], e.1.coords[axis]];
      BetweenPair(m.coords[axis], xs);
    }
  }

  lemma BetweenPair(x: real, xs: seq<real>)
    requires |xs| == 2 && Min(xs) <= x <= Max(xs)
    ensures Between(x, xs[0], xs[1])
  {
    assert xs[1..] == [xs[1]];
  }

  /** `x` lies between `p` and `q`, whichever is smaller. */
  predicate Between(x: real, p: real, q: real)
  {
    (p <= x <= q) || (q <= x <= p)
  }

  /** Lines along the x axis and down through (5, 5, 0) meet at (5, 0, 0). */
  lemma TriangulateExample(root: real -> real)
    requires IsSqrt(root)
    ensures Triangulate(Point([0.0, 0.0, 0.0], 0.0, 0.0, 0.0), [1.0, 0.0, 0.0],
                        Point([5.0, 5.0, 0.0], 0.0, 0.0, 0.0), [0.0, -1.0, 0.0], root)
            == Ok(Point([5.0, 0.0, 0.0], 0.0, 0.0, 0.0))
  {
    var u, v := [1.0, 0.0, 0.0], [0.0, -1.0, 0.0];
    Dot3(u, v);
    Dot3(u, u);
    Dot3(v, v);
    var a, b := Point([0.0, 0.0, 0.0], 0.0, 0.0, 0.0), Point([5.0, 5.0, 0.0], 0.0, 0.0, 0.0);
    assert Add(a.coords, Scale(u, 5.0)) == [5.0, 0.0, 0.0];
    assert Add(b.coords, Scale(v, 5.0)) == [5.0, 0.0, 0.0];
    TriangulateMeetingLines(a, u, b, v, root, [5.0, 0.0, 0.0], 5.0, 5.0);
  }
}
