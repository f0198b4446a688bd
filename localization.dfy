/**
  * `localize`: triangulate every pair of observations, in the order of two
  * nested loops over their indices, and fuse the triangulated points. The
  * first pair that cannot be triangulated ends the computation with its error.
  */
module Localization {
  import opened Results
  import opened Vectors
  import opened Points
  import opened Fusion
  import opened Triangulation

  /**
    * The index pairs the loops of `localize` visit from `(i, j)` on, over `n`
    * observations: the rest of row `i`, then every later row `i'` from
    * `(i', i' + 1)`; the last row, which has no pair, ends the walk.
    */
  function PairsFrom(i: nat, j: nat, n: nat): seq<(nat, nat)>
    decreases n - i, n - j
  {
    if i + 1 >= n then []
    else if j >= n then PairsFrom(i + 1, i + 2, n)
    else [(i, j)] + PairsFrom(i, j + 1, n)
  }

  /** Every pair `localize` visits for `n` observations, in visiting order. */
  function Pairs(n: nat): (r: seq<(nat, nat)>)
    ensures PairsWithin(r, n)
  {
    PairsBounded(0, 1, n);
    PairsFrom(0, 1, n)
  }

  /**
    * What `localize` does with one pair of observations. The loops are proved
    * for any such function; `localize` itself uses `TriangulationOf`.
    */
  type Triangulator = (Observation, Observation) -> Result<Point>

  /** `triangulate(*items[i], *items[j])`: each observation unpacks into a point and a direction. */
  function TriangulationOf(root: real -> real): Triangulator
  {
    (o1: Observation, o2: Observation) => Triangulate(o1.origin, o1.direction, o2.origin, o2.direction, root)
  }

  /** The triangulation of one pair of observations. */
  function TriangulatePair(items: seq<Observation>, tri: Triangulator, pair: (nat, nat)): Result<Point>
    requires pair.0 < |items| && pair.1 < |items|
  {
    tri(items[pair.0], items[pair.1])
  }

  predicate PairsWithin(pairs: seq<(nat, nat)>, n: nat)
  {
    forall k :: 0 <= k < |pairs| ==> pairs[k].0 < n && pairs[k].1 < n
  }

  /** The triangulations of `pairs` in order, or the error of the first pair that fails. */
  function TriangulateAll(items: seq<Observation>, tri: Triangulator, pairs: seq<(nat, nat)>): Result<seq<Point>>
    requires PairsWithin(pairs, |items|)
  {
    if |pairs| == 0 then Ok([])
    else
      var first := TriangulatePair(items, tri, pairs[0]);
      if first.Err? then Err(first.error)
      else
        var rest := TriangulateAll(items, tri, pairs[1..]);
        if rest.Err? then rest else Ok([first.value] + rest.value)
  }

  /** The barycentre of the triangulations of every pair, each made by `tri`. */
  function LocalizeWith(items: seq<Observation>, tri: Triangulator): Result<Point>
  {
    var points := TriangulateAll(items, tri, Pairs(|items|));
    if points.Err? then Err(points.error) else BarycentreOf(points.value)
  }

  /** `localize(*items)`: the barycentre of the triangulations of every pair. */
  function LocalizeOf(items: seq<Observation>, root: real -> real): Result<Point>
  {
    LocalizeWith(items, TriangulationOf(root))
  }

  /** Points already triangulated, followed by the outcome for the pairs still to visit. */
  function Then(done: seq<Point>, rest: Result<seq<Point>>): Result<seq<Point>>
  {
    if rest.Err? then rest else Ok(done + rest.value)
  }

  /**
    * The inner loop of `localize` for observation `i`: appends to `points` the
    * triangulation of `(i, j)` for every later `j`, or stops at the first
    * error. Either way it agrees with the triangulation of all pairs still to
    * visit.
    */
  method TriangulateRow(items: seq<Observation>, tri: Triangulator, i: nat, points: seq<Point>)
      returns (r: Result<seq<Point>>)
    requires i + 1 < |items|
    ensures PairsWithin(PairsFrom(i, i + 1, |items|), |items|)
    ensures PairsWithin(PairsFrom(i + 1, i + 2, |items|), |items|)
    ensures r.Err? ==> Then(points, TriangulateAll(items, tri, PairsFrom(i, i + 1, |items|))) == Err(r.error)
    ensures r.Ok? ==> Then(points, TriangulateAll(items, tri, PairsFrom(i, i + 1, |items|))) ==
                      Then(r.value, TriangulateAll(items, tri, PairsFrom(i + 1, i + 2, |items|)))
  {
    var n := |items|;
    PairsBounded(i, i + 1, n);
    PairsBounded(i + 1, i + 2, n);
    ghost var outcome := Then(points, TriangulateAll(items, tri, PairsFrom(i, i + 1, n)));
    var row := points;
    var j := i + 1;
    while j < n
      invariant i + 1 <= j <= n
      invariant PairsWithin(PairsFrom(i, j, n), n)
      invariant Then(row, TriangulateAll(items, tri, PairsFrom(i, j, n))) == outcome
    {
      PairsBounded(i, j + 1, n);
      assert PairsFrom(i, j, n) == [(i, j)] + PairsFrom(i, j + 1, n);
      var p := tri(items[i], items[j]);
      ThenStep(items, tri, row, (i, j), PairsFrom(i, j + 1, n));
      if p.Err? {
        return Err(p.error);
      }
      row := row + [p.value];
      j := j + 1;
    }
    assert PairsFrom(i, n, n) == PairsFrom(i + 1, i + 2, n);
    r := Ok(row);
  }

  /** The two nested loops of `localize` over the pairs, then the barycentre, for any pair function `tri`. */
  method LocalizeBy(items: seq<Observation>, tri: Triangulator) returns (r: Result<Point>)
    ensures r == LocalizeWith(items, tri)
  {
    var n := |items|;
    PairsBounded(0, 1, n);
    ghost var outcome := TriangulateAll(items, tri, Pairs(n));
    var points: seq<Point> := [];
    var i := 0;
    assert Then(points, outcome) == outcome by {
      if outcome.Ok? {
        assert [] + outcome.value == outcome.value;
      }
    }
    while i + 1 < n
      invariant 0 <= i && (n == 0 || i < n)
      invariant PairsWithin(PairsFrom(i, i + 1, n), n)
      invariant Then(points, TriangulateAll(items, tri, PairsFrom(i, i + 1, n))) == outcome
      decreases n - i
    {
      var row := TriangulateRow(items, tri, i, points);
      if row.Err? {
        return Err(row.error);
      }
      points := row.value;
      i := i + 1;
    }
    assert PairsFrom(i, i + 1, n) == [];
    ThenNothing(items, tri, points);
    r := Barycentre(points);
  }

  /** `localize(*items)`: the loops above with `triangulate` on each pair. */
  method Localize(items: seq<Observation>, root: real -> real) returns (r: Result<Point>)
    ensures r == LocalizeOf(items, root)
  {
    r := LocalizeBy(items, TriangulationOf(root));
  }

  // ---------------------------------------------------------------------------
  // The pairs visited

  /** The walk from `(i, j)` only visits pairs of distinct indices below `n`, the smaller one first. */
  lemma {:induction false} PairsBounded(i: nat, j: nat, n: nat)
    requires i < j
    ensures PairsWithin(PairsFrom(i, j, n), n)
    ensures forall k :: 0 <= k < |PairsFrom(i, j, n)| ==> i <= PairsFrom(i, j, n)[k].0 < PairsFrom(i, j, n)[k].1
    decreases n - i, n - j
  {
    if i + 1 >= n {
    } else if j >= n {
      PairsBounded(i + 1, i + 2, n);
    } else {
      PairsBounded(i, j + 1, n);
    }
  }

  /** Lexicographic order on index pairs. */
  predicate Before(p: (nat, nat), q: (nat, nat))
  {
    p.0 < q.0 || (p.0 == q.0 && p.1 < q.1)
  }

  /**
    * The walk from `(i, j)` visits exactly the pairs `(p, q)` with `p < q < n`
    * that do not come before `(i, j)`.
    */
  lemma {:induction false} PairsFromExactly(i: nat, j: nat, n: nat, p: nat, q: nat)
    requires i < j
    ensures (p, q) in PairsFrom(i, j, n) <==> p < q < n && !Before((p, q), (i, j))
    decreases n - i, n - j
  {
    if i + 1 >= n {
    } else if j >= n {
      PairsFromExactly(i + 1, i + 2, n, p, q);
    } else {
      var rest := PairsFrom(i, j + 1, n);
      PairsFromExactly(i, j + 1, n, p, q);
      assert PairsFrom(i, j, n) == [(i, j)] + rest;
      if (p, q) == (i, j) {
        assert ([(i, j)] + rest)[0] == (p, q);
      } else {
        assert (p, q) in [(i, j)] + rest <==> (p, q) in rest;
      }
    }
  }

  /** `localize` triangulates exactly the pairs of distinct observations, the earlier one first. */
  lemma PairsExactly(n: nat, p: nat, q: nat)
    ensures (p, q) in Pairs(n) <==> p < q < n
  {
    PairsFromExactly(0, 1, n, p, q);
  }

  /** The walk from `(i, j)` visits its pairs in strictly increasing lexicographic order, so none twice. */
  lemma {:induction false} PairsFromIncreasing(i: nat, j: nat, n: nat)
    requires i < j
    ensures forall k :: 0 <= k < |PairsFrom(i, j, n)| ==> !Before(PairsFrom(i, j, n)[k], (i, j))
    ensures forall k, l :: 0 <= k < l < |PairsFrom(i, j, n)| ==> Before(PairsFrom(i, j, n)[k], PairsFrom(i, j, n)[l])
    decreases n - i, n - j
  {
    if i + 1 >= n {
    } else if j >= n {
      PairsFromIncreasing(i + 1, i + 2, n);
    } else {
      PairsFromIncreasing(i, j + 1, n);
      var s := PairsFrom(i, j, n);
      assert s == [(i, j)] + PairsFrom(i, j + 1, n);
      forall k, l | 0 <= k < l < |s| ensures Before(s[k], s[l]) {
        if k > 0 {
          assert s[k] == PairsFrom(i, j + 1, n)[k - 1];
        }
        assert s[l] == PairsFrom(i, j + 1, n)[l - 1];
      }
    }
  }

  /** `localize` visits the pairs in lexicographic order, each once. */
  lemma PairsIncreasing(n: nat)
    ensures forall k, l :: 0 <= k < l < |Pairs(n)| ==> Before(Pairs(n)[k], Pairs(n)[l])
  {
    PairsFromIncreasing(0, 1, n);
  }

  /** Twice the number of pairs still to visit from `(i, j)`. */
  lemma {:induction false} PairsFromCount(i: nat, j: nat, n: nat)
    requires i < j <= n
    ensures 2 * |PairsFrom(i, j, n)| == 2 * (n - j) + (n - 1 - i) * (n - 2 - i)
    decreases n - i, n - j
  {
    if i + 1 >= n {
      assert n - 1 - i == 0;
    } else if j >= n {
      PairsFromCount(i + 1, i + 2, n);
      assert (n - 1 - i) * (n - 2 - i) == 2 * (n - (i + 2)) + (n - 2 - i) * (n - 3 - i);
    } else {
      PairsFromCount(i, j + 1, n);
    }
  }

  /** `n` observations give `n (n - 1) / 2` triangulations. */
  lemma PairsCount(n: nat)
    ensures 2 * |Pairs(n)| == n * (n - 1)
  {
    if n == 0 {
    } else {
      PairsFromCount(0, 1, n);
    }
  }

  // ---------------------------------------------------------------------------
  // Triangulating the pairs

  /** One more pair: its triangulation joins the points done, or its error ends everything. */
  lemma ThenStep(items: seq<Observation>, tri: Triangulator, done: seq<Point>, pair: (nat, nat), rest: seq<(nat, nat)>)
    requires PairsWithin([pair] + rest, |items|)
    ensures pair.0 < |items| && pair.1 < |items| && PairsWithin(rest, |items|)
    ensures var p := TriangulatePair(items, tri, pair);
      Then(done, TriangulateAll(items, tri, [pair] + rest)) ==
      if p.Err? then Err(p.error) else Then(done + [p.value], TriangulateAll(items, tri, rest))
  {
    assert ([pair] + rest)[0] == pair;
    assert ([pair] + rest)[1..] == rest;
    assert PairsWithin(rest, |items|) by {
      forall k | 0 <= k < |rest| ensures rest[k].0 < |items| && rest[k].1 < |items| {
        assert rest[k] == ([pair] + rest)[k + 1];
      }
    }
    var p := TriangulatePair(items, tri, pair);
    var r := TriangulateAll(items, tri, rest);
    if p.Ok? && r.Ok? {
      assert done + ([p.value] + r.value) == (done + [p.value]) + r.value;
    }
  }

  /** No pair left: the points done are the outcome. */
  lemma ThenNothing(items: seq<Observation>, tri: Triangulator, done: seq<Point>)
    ensures Then(done, TriangulateAll(items, tri, [])) == Ok(done)
  {
    assert done + [] == done;
  }

  /** A single pair: its triangulation alone, or its error. */
  lemma TriangulateOne(items: seq<Observation>, tri: Triangulator, pair: (nat, nat))
    requires pair.0 < |items| && pair.1 < |items|
    ensures var p := TriangulatePair(items, tri, pair);
      TriangulateAll(items, tri, [pair]) == if p.Err? then Err(p.error) else Ok([p.value])
  {
    assert [pair][1..] == [];
    assert TriangulateAll(items, tri, []) == Ok([]);
    var p := TriangulatePair(items, tri, pair);
    if p.Ok? {
      assert [p.value] + [] == [p.value];
    }
  }

  /**
    * When every pair triangulates, the result holds the triangulation of each
    * pair at its position; otherwise the error is that of the first pair that
    * fails, and every pair before it triangulates.
    */
  lemma {:induction false} TriangulateAllOutcome(items: seq<Observation>, tri: Triangulator, pairs: seq<(nat, nat)>)
      returns (first: nat)
    requires PairsWithin(pairs, |items|)
    ensures TriangulateAll(items, tri, pairs).Ok? ==>
      var ps := TriangulateAll(items, tri, pairs).value;
      |ps| == |pairs| && forall k :: 0 <= k < |pairs| ==> TriangulatePair(items, tri, pairs[k]) == Ok(ps[k])
    ensures TriangulateAll(items, tri, pairs).Err? ==>
      first < |pairs| && TriangulatePair(items, tri, pairs[first]) == Err(TriangulateAll(items, tri, pairs).error) &&
      forall k :: 0 <= k < first ==> TriangulatePair(items, tri, pairs[k]).Ok?
  {
    if |pairs| == 0 {
      first := 0;
    } else {
      assert PairsWithin(pairs[1..], |items|) by {
        forall k | 0 <= k < |pairs| - 1 ensures pairs[1..][k].0 < |items| && pairs[1..][k].1 < |items| {
          assert pairs[1..][k] == pairs[k + 1];
        }
      }
      var rest := TriangulateAllOutcome(items, tri, pairs[1..]);
      if TriangulatePair(items, tri, pairs[0]).Err? {
        first := 0;
      } else {
        first := rest + 1;
        if TriangulateAll(items, tri, pairs).Ok? {
          var ps := TriangulateAll(items, tri, pairs).value;
          forall k | 0 <= k < |pairs| ensures TriangulatePair(items, tri, pairs[k]) == Ok(ps[k]) {
            if k > 0 {
              assert pairs[k] == pairs[1..][k - 1];
            }
          }
        } else {
          forall k | 0 <= k < first ensures TriangulatePair(items, tri, pairs[k]).Ok? {
            if k > 0 {
              assert pairs[k] == pairs[1..][k - 1];
            }
          }
        }
      }
    }
  }

  // ---------------------------------------------------------------------------
  // Properties of `localize`

  /** With fewer than two observations there is nothing to fuse, and the barycentre of nothing fails. */
  lemma LocalizeTooFew(items: seq<Observation>, tri: Triangulator)
    requires |items| < 2
    ensures LocalizeWith(items, tri) == Err(EmptyArgument)
  {
  }

  /** A triangulated point has three coordinates. */
  lemma TriangulatedSpatial(a: Point, u: seq<real>, b: Point, v: seq<real>, root: real -> real)
    ensures Triangulate(a, u, b, v, root).Ok? ==> |Triangulate(a, u, b, v, root).value.coords| == 3
  {
  }

  /** Two observations localize exactly where they triangulate, and fail exactly as triangulation fails. */
  lemma LocalizeTwo(a: Observation, b: Observation, root: real -> real)
    ensures LocalizeOf([a, b], root) == Triangulate(a.origin, a.direction, b.origin, b.direction, root)
  {
    var items := [a, b];
    assert Pairs(2) == [(0, 1)];
    var t := Triangulate(a.origin, a.direction, b.origin, b.direction, root);
    var tri := TriangulationOf(root);
    assert TriangulatePair(items, tri, (0, 1)) == t;
    TriangulateOne(items, tri, (0, 1));
    if t.Ok? {
      TriangulatedSpatial(a.origin, a.direction, b.origin, b.direction, root);
      BarycentreOfOne(t.value);
      assert t.value.coords[..3] == t.value.coords;
    }
  }

  /**
    * If some pair cannot be triangulated, `localize` fails with the error of
    * the first such pair in visiting order.
    */
  lemma LocalizeFailsFirst(items: seq<Observation>, tri: Triangulator) returns (first: nat)
    requires exists k :: 0 <= k < |Pairs(|items|)| && TriangulatePair(items, tri, Pairs(|items|)[k]).Err?
    ensures first < |Pairs(|items|)| &&
      TriangulatePair(items, tri, Pairs(|items|)[first]).Err? &&
      (forall k :: 0 <= k < first ==> TriangulatePair(items, tri, Pairs(|items|)[k]).Ok?) &&
      LocalizeWith(items, tri) == Err(TriangulatePair(items, tri, Pairs(|items|)[first]).error)
  {
    first := TriangulateAllOutcome(items, tri, Pairs(|items|));
  }

  /** An observation whose line passes through `p`. */
  ghost predicate Through(o: Observation, p: seq<real>)
  {
    exists s :: Add(o.origin.coords, Scale(o.direction, s)) == p
  }

  /** Three-dimensional observations with non-negative uncertainties. */
  predicate Spatial3(o: Observation)
  {
    |o.origin.coords| == 3 && |o.direction| == 3 &&
    0.0 <= o.origin.dx && 0.0 <= o.origin.dy && 0.0 <= o.origin.dz
  }

  /** Two observations whose lines pass through `p` and are not parallel triangulate to `p`. */
  lemma TriangulateThrough(a: Observation, b: Observation, root: real -> real, p: seq<real>)
    requires IsSqrt(root) && Spatial3(a) && Spatial3(b) && Through(a, p) && Through(b, p)
    requires !Parallel(a.direction, b.direction)
    ensures Triangulate(a.origin, a.direction, b.origin, b.direction, root) ==
      Ok(Point(p, (a.origin.dx + b.origin.dx) / 2.0, (a.origin.dy + b.origin.dy) / 2.0, (a.origin.dz + b.origin.dz) / 2.0))
  {
    var s :| Add(a.origin.coords, Scale(a.direction, s)) == p;
    var t :| Add(b.origin.coords, Scale(b.direction, t)) == p;
    TriangulateMeetingLines(a.origin, a.direction, b.origin, b.direction, root, p, s, t);
  }

  /**
    * Observations whose lines all pass through one point `p`, no two of them
    * parallel, localize to `p`.
    */
  lemma LocalizeCommonPoint(items: seq<Observation>, root: real -> real, p: seq<real>)
    requires IsSqrt(root) && |items| >= 2
    requires forall k :: 0 <= k < |items| ==> Spatial3(items[k]) && Through(items[k], p)
    requires forall k, l :: 0 <= k < l < |items| ==> !Parallel(items[k].direction, items[l].direction)
    ensures LocalizeOf(items, root).Ok? && LocalizeOf(items, root).value.coords == p
  {
    var n := |items|;
    var tri := TriangulationOf(root);
    PairsBounded(0, 1, n);
    var pairs := Pairs(n);
    var _ := TriangulateAllOutcome(items, tri, pairs);
    var o0, o1 := items[0], items[1];
    forall k | 0 <= k < |pairs|
      ensures TriangulatePair(items, tri, pairs[k]).Ok?
      ensures TriangulatePair(items, tri, pairs[k]).value.coords == p
      ensures 0.0 <= TriangulatePair(items, tri, pairs[k]).value.dx
      ensures 0.0 <= TriangulatePair(items, tri, pairs[k]).value.dy
      ensures 0.0 <= TriangulatePair(items, tri, pairs[k]).value.dz
    {
      var a, b := items[pairs[k].0], items[pairs[k].1];
      TriangulateThrough(a, b, root, p);
    }
    TriangulateThrough(o0, o1, root, p);
    assert pairs[0] == (0, 1);
    assert TriangulateAll(items, tri, pairs).Ok?;
    var ps := TriangulateAll(items, tri, pairs).value;
    forall k | 0 <= k < |ps| ensures ps[k].coords[..3] == p {
      assert ps[k].coords == p;
    }
    assert WellFormedBatch(ps);
    BarycentreWithinRange(ps);
    BarycentreOfCoincident(ps, p);
  }
}
