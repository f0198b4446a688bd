/**
  * The matrix of the geometry engine: a list of vectors, all padded to the
  * length of the longest one. `zip(*m)` reads the matrix across its stored
  * vectors, so the stored vectors act as its columns: `m @ x` combines them
  * with the coefficients `x`, and `transpose` turns the rows into stored
  * vectors. Matrix values are `seq<seq<real>>`; the class `Matrix` stands for
  * the constructor, which pads the caller's vector objects in place.
  */
module Matrices {
  import opened Results
  import opened Vectors

  /** The right operand of `@`: a vector, another matrix, or a number. */
  datatype MatOperand = VectorOperand(x: seq<real>) | MatrixOperand(n: seq<seq<real>>) | NumberOperand(k: real)

  /** What `@` returns: a vector for a vector operand, a matrix otherwise. */
  datatype MatProduct = VectorProduct(v: seq<real>) | MatrixProduct(m: seq<seq<real>>)

  /** `max(len(v) for v in vectors)`, taken as zero when there is no vector. */
  function Longest(vs: seq<seq<real>>): (r: nat)
    ensures forall k :: 0 <= k < |vs| ==> |vs[k]| <= r
    ensures |vs| > 0 ==> exists k :: 0 <= k < |vs| && |vs[k]| == r
  {
    if |vs| == 0 then 0
    else
      var rest := Longest(vs[1..]);
      assert forall k :: 1 <= k < |vs| ==> vs[k] == vs[1..][k - 1];
      if |vs[0]| >= rest then |vs[0]| else rest
  }

  /** The number of rows `zip(*m)` forms: the length of the shortest stored vector, and none without a vector. */
  function Shortest(m: seq<seq<real>>): (r: nat)
    ensures forall j :: 0 <= j < |m| ==> r <= |m[j]|
    ensures |m| > 0 ==> exists j :: 0 <= j < |m| && |m[j]| == r
    ensures |m| == 0 ==> r == 0
  {
    if |m| == 0 then 0
    else if |m| == 1 then |m[0]|
    else
      var rest := Shortest(m[1..]);
      assert forall j :: 1 <= j < |m| ==> m[j] == m[1..][j - 1];
      if |m[0]| <= rest then |m[0]| else rest
  }

  /** `v` extended with zeros to `row` components; a vector that is long enough is kept as it is. */
  function Pad(v: seq<real>, row: nat): seq<real>
  {
    if |v| < row then v + Zeros(row - |v|) else v
  }

  /** `Matrix(*vectors)` on values: every vector padded to the longest; no vector at all is `max()` of nothing. */
  function Padded(vs: seq<seq<real>>): Result<seq<seq<real>>>
  {
    if |vs| == 0 then Err(EmptyArgument)
    else Ok(seq(|vs|, k requires 0 <= k < |vs| => Pad(vs[k], Longest(vs))))
  }

  /** Every stored vector of `m` has `r` components. */
  predicate Rectangular(m: seq<seq<real>>, r: nat)
  {
    forall j :: 0 <= j < |m| ==> |m[j]| == r
  }

  /** Row `i`: component `i` of every stored vector. */
  function Row(m: seq<seq<real>>, i: nat): seq<real>
    requires i < Shortest(m)
  {
    seq(|m|, j requires 0 <= j < |m| => m[j][i])
  }

  /** `zip(*m)`: the rows of `m`, as many as its shortest stored vector has components. */
  function Rows(m: seq<seq<real>>): seq<seq<real>>
  {
    seq(Shortest(m), i requires 0 <= i < Shortest(m) => Row(m, i))
  }

  /** The dot product of every row with `x`, without the size check of `@`. */
  function MatVec(m: seq<seq<real>>, x: seq<real>): seq<real>
  {
    seq(Shortest(m), i requires 0 <= i < Shortest(m) => Dot(Row(m, i), x))
  }

  /**
    * `m @ w`. A vector must have one coefficient per stored vector; a matrix
    * operand is read at its first stored vector, which must have one
    * component per stored vector of `m`, and each of its stored vectors is
    * multiplied in turn; a number scales every stored vector. Matrix results
    * go through `Matrix(*vectors)` and so are padded.
    */
  function MatMul(m: seq<seq<real>>, w: MatOperand): Result<MatProduct>
  {
    match w
    case VectorOperand(x) =>
      if |m| != |x| then Err(SizeMismatch) else Ok(VectorProduct(MatVec(m, x)))
    case MatrixOperand(n) =>
      if |n| == 0 then Err(IndexOutOfRange)
      else if |m| != |n[0]| then Err(SizeMismatch)
      else
        var r := Padded(seq(|n|, k requires 0 <= k < |n| => MatVec(m, n[k])));
        if r.Err? then Err(r.error) else Ok(MatrixProduct(r.value))
    case NumberOperand(k) =>
      var r := Padded(seq(|m|, j requires 0 <= j < |m| => Scale(m[j], k)));
      if r.Err? then Err(r.error) else Ok(MatrixProduct(r.value))
  }

  /** `m.transpose()`: the rows of `m` made into a matrix, which fails when there is no row. */
  function Transpose(m: seq<seq<real>>): Result<seq<seq<real>>>
  {
    Padded(Rows(m))
  }

  /**
    * `Matrix.ned2efec(lon, lat)` from the cosines and sines `cl`, `sl` of the
    * longitude and `cp`, `sp` of the latitude: the stored vectors are the
    * north, east and down directions in earth-centred coordinates.
    */
  function Ned2Ecef(cl: real, sl: real, cp: real, sp: real): seq<seq<real>>
  {
    [[-sp * cl, -sp * sl, cp], [-sl, cl, 0.0], [-cp * cl, -cp * sl, -sp]]
  }

  /** The `n` by `n` identity. */
  function Identity(n: nat): seq<seq<real>>
  {
    seq(n, i requires 0 <= i < n => seq(n, j requires 0 <= j < n => if i == j then 1.0 else 0.0))
  }

  /**
    * The stored vectors of `m` combined with the coefficients `x`: the sum of
    * each vector scaled by its coefficient.
    */
  function Combination(m: seq<seq<real>>, x: seq<real>, r: nat): (c: seq<real>)
    requires |m| == |x| && Rectangular(m, r)
    ensures |c| == r
  {
    if |m| == 0 then Zeros(r)
    else Add(Scale(m[0], x[0]), Combination(m[1..], x[1..], r))
  }

  // ---------------------------------------------------------------------------
  // Padding

  /**
    * Padding fails only without vectors; otherwise it keeps the order and the
    * components of every vector and fills each with zeros up to the longest.
    */
  lemma PaddedShape(vs: seq<seq<real>>)
    ensures Padded(vs).Err? <==> |vs| == 0
    ensures Padded(vs).Err? ==> Padded(vs).error == EmptyArgument
    ensures Padded(vs).Ok? ==>
      var p := Padded(vs).value;
      |p| == |vs| && Rectangular(p, Longest(vs)) &&
      (forall k :: 0 <= k < |vs| ==> p[k][..|vs[k]|] == vs[k]) &&
      (forall k, i :: 0 <= k < |vs| && |vs[k]| <= i < Longest(vs) ==> p[k][i] == 0.0)
  {
  }

  /** A non-empty list of vectors that are all of one length is padded to itself. */
  lemma PaddedRectangular(vs: seq<seq<real>>, r: nat)
    requires |vs| > 0 && Rectangular(vs, r)
    ensures Longest(vs) == r && Padded(vs) == Ok(vs)
  {
    var w :| 0 <= w < |vs| && |vs[w]| == Longest(vs);
    var p := Padded(vs).value;
    forall k | 0 <= k < |vs| ensures p[k] == vs[k] {
    }
    assert p == vs;
  }

  /** Padding twice pads no further. */
  lemma PaddedIdempotent(vs: seq<seq<real>>)
    requires |vs| > 0
    ensures Padded(Padded(vs).value) == Padded(vs)
  {
    PaddedRectangular(Padded(vs).value, Longest(vs));
  }

  // ---------------------------------------------------------------------------
  // Products

  /** A row of a matrix with all stored vectors of length `r` times `x` is that component of the combination. */
  lemma {:induction false} RowCombination(m: seq<seq<real>>, x: seq<real>, r: nat, i: nat)
    requires |m| == |x| && Rectangular(m, r) && i < r
    ensures i < Shortest(m) || |m| == 0
    ensures |m| > 0 ==> Dot(Row(m, i), x) == Combination(m, x, r)[i]
    decreases |m|
  {
    if |m| > 0 {
      var j :| 0 <= j < |m| && |m[j]| == Shortest(m);
      var row, rest := Row(m, i), Combination(m[1..], x[1..], r);
      assert Combination(m, x, r)[i] == m[0][i] * x[0] + rest[i];
      assert Dot(row, x) == m[0][i] * x[0] + Dot(row[1..], x[1..]);
      if |m| > 1 {
        RowCombination(m[1..], x[1..], r, i);
        assert row[1..] == Row(m[1..], i);
      } else {
        assert m[1..] == [];
        assert rest[i] == 0.0;
      }
    }
  }

  /**
    * `m @ x` refuses a vector whose length is not the number of stored
    * vectors; otherwise, for stored vectors of one length, it is the
    * combination of the stored vectors with the coefficients `x`.
    */
  lemma MatVecCombination(m: seq<seq<real>>, x: seq<real>, r: nat)
    requires |m| > 0 && Rectangular(m, r)
    ensures MatMul(m, VectorOperand(x)).Err? <==> |m| != |x|
    ensures MatMul(m, VectorOperand(x)).Err? ==> MatMul(m, VectorOperand(x)).error == SizeMismatch
    ensures |m| == |x| ==> MatMul(m, VectorOperand(x)) == Ok(VectorProduct(Combination(m, x, r)))
  {
    if |m| == |x| {
      var j :| 0 <= j < |m| && |m[j]| == Shortest(m);
      var v := MatVec(m, x);
      forall i | 0 <= i < r ensures v[i] == Combination(m, x, r)[i] {
        RowCombination(m, x, r, i);
      }
      assert v == Combination(m, x, r);
    }
  }

  /**
    * `m @ n` refuses a matrix operand without vectors or whose first vector
    * does not have one component per stored vector of `m`; otherwise stored
    * vector `k` of the result is `m @ n[k]`.
    */
  lemma MatMatColumns(m: seq<seq<real>>, n: seq<seq<real>>)
    ensures MatMul(m, MatrixOperand(n)).Err? <==> |n| == 0 || |m| != |n[0]|
    ensures |n| == 0 ==> MatMul(m, MatrixOperand(n)) == Err(IndexOutOfRange)
    ensures |n| > 0 && |m| != |n[0]| ==> MatMul(m, MatrixOperand(n)) == Err(SizeMismatch)
    ensures MatMul(m, MatrixOperand(n)).Ok? ==>
      var p := MatMul(m, MatrixOperand(n));
      p.value.MatrixProduct? && |p.value.m| == |n| &&
      forall k :: 0 <= k < |n| ==>
        p.value.m[k] == MatVec(m, n[k]) &&
        (|n[k]| == |m| ==> MatMul(m, VectorOperand(n[k])) == Ok(VectorProduct(p.value.m[k])))
  {
    if |n| > 0 && |m| == |n[0]| {
      var cols := seq(|n|, k requires 0 <= k < |n| => MatVec(m, n[k]));
      PaddedRectangular(cols, Shortest(m));
    }
  }

  /** `m @ k` for a number `k` fails without stored vectors and otherwise scales each one, padded to the longest. */
  lemma MatScale(m: seq<seq<real>>, k: real)
    ensures MatMul(m, NumberOperand(k)).Err? <==> |m| == 0
    ensures |m| == 0 ==> MatMul(m, NumberOperand(k)) == Err(EmptyArgument)
    ensures forall r :: |m| > 0 && Rectangular(m, r) ==>
      MatMul(m, NumberOperand(k)) == Ok(MatrixProduct(seq(|m|, j requires 0 <= j < |m| => Scale(m[j], k))))
  {
    forall r | |m| > 0 && Rectangular(m, r)
      ensures MatMul(m, NumberOperand(k)) == Ok(MatrixProduct(seq(|m|, j requires 0 <= j < |m| => Scale(m[j], k))))
    {
      PaddedRectangular(seq(|m|, j requires 0 <= j < |m| => Scale(m[j], k)), r);
    }
  }

  // ---------------------------------------------------------------------------
  // Transposition

  /**
    * Transposition fails exactly when there is no row (no stored vector, or
    * an empty one); otherwise it swaps the two indices.
    */
  lemma TransposeEntries(m: seq<seq<real>>)
    ensures Transpose(m).Err? <==> Shortest(m) == 0
    ensures Transpose(m).Err? ==> Transpose(m).error == EmptyArgument
    ensures Transpose(m).Ok? ==>
      var t := Transpose(m).value;
      |t| == Shortest(m) && Rectangular(t, |m|) &&
      forall i, j :: 0 <= i < |t| && 0 <= j < |m| ==> t[i][j] == m[j][i]
  {
    if Shortest(m) > 0 {
      PaddedRectangular(Rows(m), |m|);
    }
  }

  /** Transposing a non-empty matrix whose stored vectors all have `r > 0` components twice gives it back. */
  lemma TransposeTwice(m: seq<seq<real>>, r: nat)
    requires |m| > 0 && r > 0 && Rectangular(m, r)
    ensures Transpose(m).Ok? && Transpose(Transpose(m).value) == Ok(m)
  {
    var j :| 0 <= j < |m| && |m[j]| == Shortest(m);
    TransposeEntries(m);
    var t := Transpose(m).value;
    var k :| 0 <= k < |t| && |t[k]| == Shortest(t);
    TransposeEntries(t);
    var back := Transpose(t).value;
    assert |t| == r && |back| == |m|;
    forall j, i | 0 <= j < |m| && 0 <= i < r ensures back[j][i] == m[j][i] {
      assert back[j][i] == t[i][j];
    }
    SameMatrix(back, m, r);
  }

  /** Two matrices of one shape with the same entries are equal. */
  lemma SameMatrix(a: seq<seq<real>>, b: seq<seq<real>>, r: nat)
    requires |a| == |b| && Rectangular(a, r) && Rectangular(b, r)
    requires forall j, i :: 0 <= j < |a| && 0 <= i < r ==> a[j][i] == b[j][i]
    ensures a == b
  {
    forall j | 0 <= j < |a| ensures a[j] == b[j] {
    }
  }

  // ---------------------------------------------------------------------------
  // The NED to ECEF rotation

  // Each entry of the two Gram matrices, one lemma apiece so that the
  // nonlinear arithmetic stays small.

  lemma NorthNorth(cl: real, sl: real, cp: real, sp: real)
    requires cl * cl + sl * sl == 1.0 && cp * cp + sp * sp == 1.0
    ensures Dot(Ned2Ecef(cl, sl, cp, sp)[0], Ned2Ecef(cl, sl, cp, sp)[0]) == 1.0
  {
    Dot3(Ned2Ecef(cl, sl, cp, sp)[0], Ned2Ecef(cl, sl, cp, sp)[0]);
    assert (-sp * cl) * (-sp * cl) + (-sp * sl) * (-sp * sl) == (sp * sp) * (cl * cl + sl * sl);
  }

  lemma NorthEast(cl: real, sl: real, cp: real, sp: real)
    ensures Dot(Ned2Ecef(cl, sl, cp, sp)[0], Ned2Ecef(cl, sl, cp, sp)[1]) == 0.0
  {
    Dot3(Ned2Ecef(cl, sl, cp, sp)[0], Ned2Ecef(cl, sl, cp, sp)[1]);
  }

  lemma NorthDown(cl: real, sl: real, cp: real, sp: real)
    requires cl * cl + sl * sl == 1.0
    ensures Dot(Ned2Ecef(cl, sl, cp, sp)[0], Ned2Ecef(cl, sl, cp, sp)[2]) == 0.0
  {
    Dot3(Ned2Ecef(cl, sl, cp, sp)[0], Ned2Ecef(cl, sl, cp, sp)[2]);
    assert (-sp * cl) * (-cp * cl) + (-sp * sl) * (-cp * sl) == (sp * cp) * (cl * cl + sl * sl);
  }

  lemma EastEast(cl: real, sl: real, cp: real, sp: real)
    requires cl * cl + sl * sl == 1.0
    ensures Dot(Ned2Ecef(cl, sl, cp, sp)[1], Ned2Ecef(cl, sl, cp, sp)[1]) == 1.0
  {
    Dot3(Ned2Ecef(cl, sl, cp, sp)[1], Ned2Ecef(cl, sl, cp, sp)[1]);
  }

  lemma EastDown(cl: real, sl: real, cp: real, sp: real)
    ensures Dot(Ned2Ecef(cl, sl, cp, sp)[1], Ned2Ecef(cl, sl, cp, sp)[2]) == 0.0
  {
    Dot3(Ned2Ecef(cl, sl, cp, sp)[1], Ned2Ecef(cl, sl, cp, sp)[2]);
  }

  lemma DownDown(cl: real, sl: real, cp: real, sp: real)
    requires cl * cl + sl * sl == 1.0 && cp * cp + sp * sp == 1.0
    ensures Dot(Ned2Ecef(cl, sl, cp, sp)[2], Ned2Ecef(cl, sl, cp, sp)[2]) == 1.0
  {
    Dot3(Ned2Ecef(cl, sl, cp, sp)[2], Ned2Ecef(cl, sl, cp, sp)[2]);
    assert (-cp * cl) * (-cp * cl) + (-cp * sl) * (-cp * sl) == (cp * cp) * (cl * cl + sl * sl);
  }

  /** The rows of the rotation, written out. */
  lemma Ned2EcefRows(cl: real, sl: real, cp: real, sp: real)
    ensures Shortest(Ned2Ecef(cl, sl, cp, sp)) == 3
    ensures Row(Ned2Ecef(cl, sl, cp, sp), 0) == [-sp * cl, -sl, -cp * cl]
    ensures Row(Ned2Ecef(cl, sl, cp, sp), 1) == [-sp * sl, cl, -cp * sl]
    ensures Row(Ned2Ecef(cl, sl, cp, sp), 2) == [cp, 0.0, -sp]
  {
    var m := Ned2Ecef(cl, sl, cp, sp);
    var w :| 0 <= w < 3 && |m[w]| == Shortest(m);
  }

  lemma RowUnit(k: real, c: real, s: real, e: real)
    requires c * c + s * s == 1.0 && k * k + e * e == 1.0
    ensures Dot([-k * c, s, -e * c], [-k * c, s, -e * c]) == 1.0
  {
    Dot3([-k * c, s, -e * c], [-k * c, s, -e * c]);
    assert (-k * c) * (-k * c) + (-e * c) * (-e * c) == (c * c) * (k * k + e * e);
  }

  lemma RowsNorthEast(cl: real, sl: real, cp: real, sp: real)
    requires cp * cp + sp * sp == 1.0
    ensures Dot([-sp * cl, -sl, -cp * cl], [-sp * sl, cl, -cp * sl]) == 0.0
  {
    Dot3([-sp * cl, -sl, -cp * cl], [-sp * sl, cl, -cp * sl]);
    assert (-sp * cl) * (-sp * sl) + (-cp * cl) * (-cp * sl) == (cl * sl) * (sp * sp + cp * cp);
  }

  lemma RowsNorthDown(cl: real, sl: real, cp: real, sp: real)
    ensures Dot([-sp * cl, -sl, -cp * cl], [cp, 0.0, -sp]) == 0.0
  {
    Dot3([-sp * cl, -sl, -cp * cl], [cp, 0.0, -sp]);
  }

  lemma RowsEastDown(cl: real, sl: real, cp: real, sp: real)
    ensures Dot([-sp * sl, cl, -cp * sl], [cp, 0.0, -sp]) == 0.0
  {
    Dot3([-sp * sl, cl, -cp * sl], [cp, 0.0, -sp]);
  }

  lemma RowsDownDown(cp: real, sp: real)
    requires cp * cp + sp * sp == 1.0
    ensures Dot([cp, 0.0, -sp], [cp, 0.0, -sp]) == 1.0
  {
    Dot3([cp, 0.0, -sp], [cp, 0.0, -sp]);
  }

  /**
    * For cosines and sines of two angles, the stored vectors of the rotation
    * are orthonormal: unit length, and orthogonal to one another.
    */
  lemma Ned2EcefOrthonormal(cl: real, sl: real, cp: real, sp: real)
    requires cl * cl + sl * sl == 1.0 && cp * cp + sp * sp == 1.0
    ensures var m := Ned2Ecef(cl, sl, cp, sp);
      forall i, j :: 0 <= i < 3 && 0 <= j < 3 ==> Dot(m[i], m[j]) == if i == j then 1.0 else 0.0
  {
    var m := Ned2Ecef(cl, sl, cp, sp);
    NorthNorth(cl, sl, cp, sp);
    NorthEast(cl, sl, cp, sp);
    NorthDown(cl, sl, cp, sp);
    EastEast(cl, sl, cp, sp);
    EastDown(cl, sl, cp, sp);
    DownDown(cl, sl, cp, sp);
    DotSymmetric(m[0], m[1]);
    DotSymmetric(m[0], m[2]);
    DotSymmetric(m[1], m[2]);
  }

  /** The rows of the rotation are orthonormal too. */
  lemma Ned2EcefRowsOrthonormal(cl: real, sl: real, cp: real, sp: real)
    requires cl * cl + sl * sl == 1.0 && cp * cp + sp * sp == 1.0
    ensures var m := Ned2Ecef(cl, sl, cp, sp);
      Shortest(m) == 3 &&
      forall i, j :: 0 <= i < 3 && 0 <= j < 3 ==> Dot(Row(m, i), Row(m, j)) == if i == j then 1.0 else 0.0
  {
    var m := Ned2Ecef(cl, sl, cp, sp);
    Ned2EcefRows(cl, sl, cp, sp);
    RowUnit(sp, cl, -sl, cp);
    RowUnit(sp, sl, cl, cp);
    RowsNorthEast(cl, sl, cp, sp);
    RowsNorthDown(cl, sl, cp, sp);
    RowsEastDown(cl, sl, cp, sp);
    RowsDownDown(cp, sp);
    DotSymmetric(Row(m, 0), Row(m, 1));
    DotSymmetric(Row(m, 0), Row(m, 2));
    DotSymmetric(Row(m, 1), Row(m, 2));
  }

  /** North cross east is down: the cross product of the first two stored vectors is the third. */
  lemma Ned2EcefCross(cl: real, sl: real, cp: real, sp: real)
    requires cl * cl + sl * sl == 1.0
    ensures var m := Ned2Ecef(cl, sl, cp, sp); CrossProduct(m[0], m[1]) == Ok(m[2])
  {
    var m := Ned2Ecef(cl, sl, cp, sp);
    assert Pad3(m[0]) == m[0];
    assert Pad3(m[1]) == m[1];
    var c := Cross3(m[0], m[1]);
    assert c[0] == m[2][0];
    assert c[1] == m[2][1];
    assert c[2] == m[2][2] by {
      assert c[2] == (-sp * cl) * cl - (-sp * sl) * -sl;
      assert c[2] == -sp * (cl * cl + sl * sl);
    }
    assert c == m[2];
  }

  /** Building the rotation through `Matrix(*vectors)` pads nothing. */
  lemma Ned2EcefPadded(cl: real, sl: real, cp: real, sp: real)
    ensures Padded(Ned2Ecef(cl, sl, cp, sp)) == Ok(Ned2Ecef(cl, sl, cp, sp))
  {
    PaddedRectangular(Ned2Ecef(cl, sl, cp, sp), 3);
  }

  /** The transpose of a square matrix is its list of rows. */
  lemma TransposeSquare(m: seq<seq<real>>, n: nat)
    requires n > 0 && |m| == n && Rectangular(m, n)
    ensures Shortest(m) == n && Transpose(m) == Ok(Rows(m)) && Rectangular(Rows(m), n)
  {
    var w :| 0 <= w < n && |m[w]| == Shortest(m);
    PaddedRectangular(Rows(m), n);
  }

  /** Entry `(k, i)` of a square matrix times its transpose is the dot product of rows `i` and `k`. */
  lemma TimesTransposeEntries(m: seq<seq<real>>, n: nat) returns (p: seq<seq<real>>)
    requires n > 0 && |m| == n && Rectangular(m, n)
    ensures Shortest(m) == n && Transpose(m) == Ok(Rows(m))
    ensures MatMul(m, MatrixOperand(Rows(m))) == Ok(MatrixProduct(p))
    ensures |p| == n && forall k :: 0 <= k < n ==> |p[k]| == n
    ensures forall k, i :: 0 <= k < n && 0 <= i < n ==> p[k][i] == Dot(Row(m, i), Row(m, k))
  {
    TransposeSquare(m, n);
    MatMatColumns(m, Rows(m));
    p := MatMul(m, MatrixOperand(Rows(m))).value.m;
  }

  /** An `n` by `n` matrix with ones on the diagonal and zeros elsewhere is the identity. */
  lemma IsIdentity(p: seq<seq<real>>, n: nat)
    requires |p| == n && forall k :: 0 <= k < n ==> |p[k]| == n
    requires forall k, i :: 0 <= k < n && 0 <= i < n ==> p[k][i] == if k == i then 1.0 else 0.0
    ensures p == Identity(n)
  {
    var id := Identity(n);
    forall k | 0 <= k < n ensures p[k] == id[k] {
      assert |p[k]| == |id[k]|;
      forall i | 0 <= i < n ensures p[k][i] == id[k][i] {
      }
    }
    assert |p| == |id|;
  }

  /** A square matrix with orthonormal rows times its transpose is the identity. */
  lemma TimesTransposeIdentity(m: seq<seq<real>>, n: nat)
    requires n > 0 && |m| == n && Rectangular(m, n)
    requires forall i, j :: 0 <= i < n && 0 <= j < n && i < Shortest(m) && j < Shortest(m) ==>
      Dot(Row(m, i), Row(m, j)) == if i == j then 1.0 else 0.0
    ensures Transpose(m).Ok? && MatMul(m, MatrixOperand(Transpose(m).value)) == Ok(MatrixProduct(Identity(n)))
  {
    var p := TimesTransposeEntries(m, n);
    forall k, i | 0 <= k < n && 0 <= i < n ensures p[k][i] == if k == i then 1.0 else 0.0 {
      assert p[k][i] == Dot(Row(m, i), Row(m, k));
    }
    IsIdentity(p, n);
  }

  /** The rotation times its transpose is the identity. */
  lemma Ned2EcefTimesTranspose(cl: real, sl: real, cp: real, sp: real)
    requires cl * cl + sl * sl == 1.0 && cp * cp + sp * sp == 1.0
    ensures var m := Ned2Ecef(cl, sl, cp, sp);
      Transpose(m).Ok? && MatMul(m, MatrixOperand(Transpose(m).value)) == Ok(MatrixProduct(Identity(3)))
  {
    Ned2EcefRowsOrthonormal(cl, sl, cp, sp);
    TimesTransposeIdentity(Ned2Ecef(cl, sl, cp, sp), 3);
  }

  // ---------------------------------------------------------------------------
  // The matrix object

  /** The components of a list of vector objects. */
  function Values(vs: seq<Vector>): seq<seq<real>>
    reads vs
  {
    seq(|vs|, k requires 0 <= k < |vs| reads vs => vs[k].elems)
  }

  /** The prefix of `s` one longer than `s[..i]`. */
  lemma PrefixStep<T>(s: seq<T>, i: nat)
    requires i < |s|
    ensures s[..i + 1] == s[..i] + [s[i]]
  {
  }

  /** A matrix object: the list of the vector objects it was built from. */
  class Matrix {
    var vectors: seq<Vector>

    constructor Empty()
      ensures vectors == []
    {
      vectors := [];
    }

    /**
      * One step of `Matrix(*vectors)`: `vector += [0.] * (row - n)` on the
      * `i`-th vector object when it is short of `row` components. `before`
      * holds the components every object had when the construction began and
      * `target` their padded form; an object met again (given twice) is
      * already padded and stays as it is.
      */
    static method PadAt(vs: seq<Vector>, i: nat, row: nat, ghost before: seq<seq<real>>, ghost target: seq<seq<real>>)
      requires i < |vs| == |before| == |target|
      requires |before[i]| <= row && target[i] == Pad(before[i], row)
      requires forall k :: 0 <= k < |vs| && vs[k] == vs[i] ==> before[k] == before[i] && target[k] == target[i]
      requires forall k :: 0 <= k < |vs| ==> vs[k].elems == before[k] || vs[k].elems == target[k]
      requires forall k :: 0 <= k < i ==> vs[k].elems == target[k]
      modifies vs[i]
      ensures forall k :: 0 <= k < |vs| ==> vs[k].elems == before[k] || vs[k].elems == target[k]
      ensures forall k :: 0 <= k <= i ==> vs[k].elems == target[k]
    {
      var v := vs[i];
      var n := |v.elems|;
      if n < row {
        v.elems := v.elems + Zeros(row - n);
      }
      assert v.elems == target[i];
      forall k | 0 <= k < |vs|
        ensures vs[k].elems == before[k] || vs[k].elems == target[k]
        ensures k <= i ==> vs[k].elems == target[k]
      {
        if vs[k] == v {
          assert target[k] == target[i];
        }
      }
    }

    /**
      * `Matrix(*vectors)`: pads every vector object shorter than the longest
      * with zeros, in place, and stores the objects themselves, in order. A
      * vector object given twice is padded once. Without vectors `max()`
      * fails.
      */
    static method Create(vs: seq<Vector>) returns (r: Result<Matrix>)
      modifies vs
      ensures r.Err? <==> |vs| == 0
      ensures r.Err? ==> r.error == EmptyArgument
      ensures r.Ok? ==> fresh(r.value) && r.value.vectors == vs && Padded(old(Values(vs))) == Ok(Values(vs))
    {
      if |vs| == 0 {
        return Err(EmptyArgument);
      }
      ghost var before := Values(vs);
      var row := Longest(Values(vs));
      ghost var target := Padded(before).value;
      assert forall k :: 0 <= k < |vs| ==> target[k] == Pad(before[k], row);
      var m := new Matrix.Empty();
      for i := 0 to |vs|
        invariant m.vectors == vs[..i]
        invariant forall k :: 0 <= k < |vs| ==> vs[k].elems == before[k] || vs[k].elems == target[k]
        invariant forall k :: 0 <= k < i ==> vs[k].elems == target[k]
      {
        PrefixStep(vs, i);
        m.vectors := m.vectors + [vs[i]];
        PadAt(vs, i, row, before, target);
      }
      ghost var after := Values(vs);
      forall k | 0 <= k < |vs| ensures after[k] == target[k] {
      }
      assert after == target;
      r := Ok(m);
    }
  }
}
