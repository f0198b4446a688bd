/**
  * The vector of the geometry engine: a list of real components with
  * component-wise arithmetic, the dot product, the cross product and
  * normalisation. Vector values are `seq<real>`; the class `Vector` stands for
  * the list object itself, whose identity matters for the cross product, which
  * pads its operands in place.
  */
module Vectors {
  import opened Results

  /** The right operand of `*`, `/` and `//`: a number, or anything iterable. */
  datatype Operand = Scalar(k: real) | Sequence(s: seq<real>)

  /** What `*` returns: a number for a dot product, components for a scaling. */
  datatype Product = Number(x: real) | Components(v: seq<real>)

  /** The number of pairs `zip` forms from operands of lengths `m` and `n`. */
  function Shorter(m: nat, n: nat): nat
  {
    if m <= n then m else n
  }

  function Zeros(n: nat): seq<real>
  {
    seq(n, _ => 0.0)
  }

  /** `a + b`: component-wise sum over the pairs `zip` forms. */
  function Add(a: seq<real>, b: seq<real>): seq<real>
  {
    seq(Shorter(|a|, |b|), i requires 0 <= i < Shorter(|a|, |b|) => a[i] + b[i])
  }

  /** `a - b`: component-wise difference over the pairs `zip` forms. */
  function Sub(a: seq<real>, b: seq<real>): seq<real>
  {
    seq(Shorter(|a|, |b|), i requires 0 <= i < Shorter(|a|, |b|) => a[i] - b[i])
  }

  /** `a * k` (and `k * a`) for a number `k`. */
  function Scale(a: seq<real>, k: real): seq<real>
  {
    seq(|a|, i requires 0 <= i < |a| => a[i] * k)
  }

  /** `-a`, which the source computes as `-1 * a`. */
  function Neg(a: seq<real>): seq<real>
  {
    Scale(a, -1.0)
  }

  /**
    * `x * y`: plain multiplication. Contracts write a product as `Times`
    * when a lemma's caller must match it as one whole term, since the
    * solver does not carry facts reliably across products written with
    * `*` between different terms.
    */
  function Times(x: real, y: real): real
  {
    x * y
  }

  /** `a * b` for an iterable `b`: the sum of the products of the pairs `zip` forms. */
  function Dot(a: seq<real>, b: seq<real>): real
    decreases |a|
  {
    if |a| == 0 || |b| == 0 then 0.0 else a[0] * b[0] + Dot(a[1..], b[1..])
  }

  /** `a * w`: a dot product when `w` is iterable, a scaling otherwise. */
  function Mul(a: seq<real>, w: Operand): Product
  {
    match w
    case Scalar(k) => Components(Scale(a, k))
    case Sequence(s) => Number(Dot(a, s))
  }

  /** `a / w`: refuses an iterable divisor; divides each component by a number. */
  function Div(a: seq<real>, w: Operand): Result<seq<real>>
  {
    match w
    case Sequence(_) => Err(ScalarExpected)
    case Scalar(k) =>
      if k == 0.0 && |a| > 0 then Err(ZeroDivision)
      else Ok(seq(|a|, i requires 0 <= i < |a| => a[i] / k))
  }

  /** `a // w`: refuses an iterable divisor; floor-divides each component by a number. */
  function FloorDiv(a: seq<real>, w: Operand): Result<seq<real>>
  {
    match w
    case Sequence(_) => Err(ScalarExpected)
    case Scalar(k) =>
      if k == 0.0 && |a| > 0 then Err(ZeroDivision)
      else Ok(seq(|a|, i requires 0 <= i < |a| => (a[i] / k).Floor as real))
  }

  /** A vector of at most three components, extended with zeros to three. */
  function Pad3(a: seq<real>): seq<real>
    requires |a| <= 3
  {
    a + Zeros(3 - |a|)
  }

  function Cross3(a: seq<real>, b: seq<real>): seq<real>
    requires |a| == 3 && |b| == 3
  {
    [a[1] * b[2] - a[2] * b[1],
     a[2] * b[0] - a[0] * b[2],
     a[0] * b[1] - a[1] * b[0]]
  }

  /** The value `a @ b` returns: the cross product of the zero-padded operands. */
  function CrossProduct(a: seq<real>, b: seq<real>): Result<seq<real>>
  {
    if |b| > 3 || |a| > 3 then Err(DimensionTooLarge) else Ok(Cross3(Pad3(a), Pad3(b)))
  }

  /** `root` is the non-negative square root on the non-negative reals. */
  ghost predicate IsSqrt(root: real -> real)
  {
    forall x :: 0.0 <= x ==> 0.0 <= root(x) && root(x) * root(x) == x
  }

  /** The `norm` property: the square root of the sum of squares. */
  function Norm(a: seq<real>, root: real -> real): real
  {
    root(Dot(a, a))
  }

  /** `a.normalize()`: `a` divided by its norm. */
  function Normalize(a: seq<real>, root: real -> real): Result<seq<real>>
  {
    Div(a, Scalar(Norm(a, root)))
  }

  // ---------------------------------------------------------------------------
  // Addition, subtraction and negation

  lemma AddCommutes(a: seq<real>, b: seq<real>)
    ensures Add(a, b) == Add(b, a)
    ensures |Add(a, b)| == Shorter(|a|, |b|)
  {
  }

  /** Subtracting `b` undoes adding it, and the other way round, as long as `b` is not shorter. */
  lemma SubUndoesAdd(a: seq<real>, b: seq<real>)
    requires |a| <= |b|
    ensures Sub(Add(a, b), b) == a
    ensures Add(Sub(a, b), b) == a
  {
  }

  /** Negation is an involution, and adding a negated vector subtracts it. */
  lemma NegProperties(a: seq<real>, b: seq<real>)
    ensures Neg(Neg(a)) == a
    ensures Add(a, Neg(b)) == Sub(a, b)
    ensures Add(a, Neg(a)) == Zeros(|a|)
  {
  }

  // ---------------------------------------------------------------------------
  // Dot product and scaling

  /** Only the pairs `zip` forms take part in the dot product. */
  lemma {:induction false} DotOfPairs(a: seq<real>, b: seq<real>)
    ensures Dot(a, b) == Dot(a[..Shorter(|a|, |b|)], b[..Shorter(|a|, |b|)])
    decreases |a|
  {
    if |a| > 0 && |b| > 0 {
      var m := Shorter(|a|, |b|);
      DotOfPairs(a[1..], b[1..]);
      assert a[..m][1..] == a[1..][..m - 1];
      assert b[..m][1..] == b[1..][..m - 1];
    }
  }

  lemma {:induction false} DotSymmetric(a: seq<real>, b: seq<real>)
    ensures Dot(a, b) == Dot(b, a)
    decreases |a|
  {
    if |a| > 0 && |b| > 0 {
      DotSymmetric(a[1..], b[1..]);
    }
  }

  /** `a * b` for iterable `b` sums the products of the pairs `zip` forms, whichever operand comes first. */
  lemma MulSequenceSymmetric(a: seq<real>, b: seq<real>)
    ensures Mul(a, Sequence(b)) == Mul(b, Sequence(a))
    ensures Mul(a, Sequence(b)) == Number(Dot(a[..Shorter(|a|, |b|)], b[..Shorter(|a|, |b|)]))
  {
    DotSymmetric(a, b);
    DotOfPairs(a, b);
  }

  lemma ScaleTail(a: seq<real>, p: real)
    requires |a| > 0
    ensures Scale(a, p)[1..] == Scale(a[1..], p)
  {
    forall i | 0 <= i < |a| - 1 ensures Scale(a, p)[1..][i] == Scale(a[1..], p)[i] {
      assert Scale(a, p)[i + 1] == a[i + 1] * p;
    }
  }

  /** Scaling either operand scales the dot product. */
  lemma DotScaleBoth(a: seq<real>, b: seq<real>, p: real, q: real)
    ensures Dot(Scale(a, p), Scale(b, q)) == Times(p, Times(q, Dot(a, b)))
  {
    var sb := Scale(b, q);
    DotScaleLeft(a, sb, p);
    DotSymmetric(a, sb);
    DotScaleLeft(b, a, q);
    DotSymmetric(b, a);
  }

  lemma {:induction false} DotScaleLeft(a: seq<real>, b: seq<real>, p: real)
    ensures Dot(Scale(a, p), b) == Times(p, Dot(a, b))
    decreases |a|
  {
    if |a| > 0 && |b| > 0 {
      ScaleTail(a, p);
      DotScaleLeft(a[1..], b[1..], p);
    }
  }

  /** The dot product distributes over the sum of two operands of equal length. */
  lemma {:induction false} DotAddLeft(a: seq<real>, b: seq<real>, c: seq<real>)
    requires |a| == |b|
    ensures Dot(Add(a, b), c) == Dot(a, c) + Dot(b, c)
    decreases |a|
  {
    if |a| > 0 && |c| > 0 {
      assert Add(a, b)[1..] == Add(a[1..], b[1..]);
      DotAddLeft(a[1..], b[1..], c[1..]);
    }
  }

  /** The dot product distributes over the difference of two operands of equal length. */
  lemma {:induction false} DotSubLeft(a: seq<real>, b: seq<real>, c: seq<real>)
    requires |a| == |b|
    ensures Dot(Sub(a, b), c) == Dot(a, c) - Dot(b, c)
    decreases |a|
  {
    if |a| > 0 && |c| > 0 {
      assert Sub(a, b)[1..] == Sub(a[1..], b[1..]);
      DotSubLeft(a[1..], b[1..], c[1..]);
    }
  }

  /** Scaling twice scales by the product. */
  lemma ScaleScale(a: seq<real>, p: real, q: real)
    ensures Scale(Scale(a, p), q) == Scale(a, p * q)
  {
    forall i | 0 <= i < |a| ensures Scale(Scale(a, p), q)[i] == Scale(a, p * q)[i] {
      assert a[i] * p * q == a[i] * (p * q);
    }
  }

  /** `a * k` for a number scales every component, so it scales every dot product with `a` by `k`. */
  lemma MulScalarScales(a: seq<real>, k: real, b: seq<real>)
    ensures Mul(a, Scalar(k)).Components? && |Mul(a, Scalar(k)).v| == |a|
    ensures Dot(Mul(a, Scalar(k)).v, b) == k * Dot(a, b)
  {
    DotScaleLeft(a, b, k);
  }

  /** Zero components contribute nothing to a dot product. */
  lemma {:induction false} DotZeros(z: seq<real>, b: seq<real>)
    requires forall i :: 0 <= i < |z| ==> z[i] == 0.0
    ensures Dot(z, b) == 0.0
    decreases |z|
  {
    if |z| > 0 && |b| > 0 {
      DotZeros(z[1..], b[1..]);
    }
  }

  /** Appending zeros to `a` leaves its dot products unchanged. */
  lemma {:induction false} DotZeroExtension(a: seq<real>, z: seq<real>, b: seq<real>)
    requires forall i :: 0 <= i < |z| ==> z[i] == 0.0
    ensures Dot(a + z, b) == Dot(a, b)
    decreases |a|
  {
    if |a| == 0 {
      assert a + z == z;
      DotZeros(z, b);
    } else if |b| > 0 {
      assert (a + z)[1..] == a[1..] + z;
      DotZeroExtension(a[1..], z, b[1..]);
    }
  }

  /** The dot product of two three-component vectors, written out. */
  lemma Dot3(a: seq<real>, b: seq<real>)
    requires |a| == 3 && |b| == 3
    ensures Dot(a, b) == a[0] * b[0] + a[1] * b[1] + a[2] * b[2]
  {
    assert a[1..][1..][1..] == [];
    assert Dot(a[1..][1..], b[1..][1..]) == a[2] * b[2] + Dot(a[1..][1..][1..], b[1..][1..][1..]);
  }

  lemma ProductIsZero(x: real, y: real)
    requires x * y == 0.0
    ensures x == 0.0 || y == 0.0
  {
  }

  lemma SquareIsZero(x: real)
    requires x * x == 0.0
    ensures x == 0.0
  {
    ProductIsZero(x, x);
  }

  /** A sum of squares is non-negative, and zero exactly when every component is. */
  lemma {:induction false} DotSelf(a: seq<real>)
    ensures Dot(a, a) >= 0.0
    ensures Dot(a, a) == 0.0 <==> forall i :: 0 <= i < |a| ==> a[i] == 0.0
    decreases |a|
  {
    if |a| > 0 {
      DotSelf(a[1..]);
      assert a[0] * a[0] >= 0.0;
      if Dot(a, a) == 0.0 {
        assert a[0] * a[0] == 0.0 && Dot(a[1..], a[1..]) == 0.0;
        SquareIsZero(a[0]);
        assert forall i :: 0 <= i < |a[1..]| ==> a[1..][i] == 0.0;
        forall i | 0 <= i < |a| ensures a[i] == 0.0 {
          if i > 0 { assert a[i] == a[1..][i - 1]; }
        }
      }
      if forall i :: 0 <= i < |a| ==> a[i] == 0.0 {
        assert forall i :: 0 <= i < |a[1..]| ==> a[1..][i] == a[i + 1];
      }
    }
  }

  // ---------------------------------------------------------------------------
  // Division

  /** `/` refuses an iterable divisor and a zero divisor of a non-empty vector; otherwise scaling back by the divisor gives the vector again. */
  lemma DivisionRoundTrip(a: seq<real>, w: Operand)
    ensures w.Sequence? ==> Div(a, w) == Err(ScalarExpected)
    ensures w.Scalar? ==> (Div(a, w).Err? <==> w.k == 0.0 && |a| > 0)
    ensures Div(a, w).Err? ==> Div(a, w).error in {ScalarExpected, ZeroDivision}
    ensures Div(a, w).Ok? ==> |Div(a, w).value| == |a| && Scale(Div(a, w).value, w.k) == a
  {
    if Div(a, w).Ok? {
      var r := Div(a, w).value;
      var back := Scale(r, w.k);
      assert |back| == |a|;
      forall i | 0 <= i < |a| ensures back[i] == a[i] {
        assert r[i] == a[i] / w.k;
      }
      assert back == a;
    }
  }

  /** Dividing by a non-zero number is scaling by its inverse. */
  lemma DivIsScale(a: seq<real>, k: real)
    requires k != 0.0
    ensures Div(a, Scalar(k)) == Ok(Scale(a, 1.0 / k))
  {
    var r := Div(a, Scalar(k)).value;
    assert |r| == |a|;
    forall i | 0 <= i < |a| ensures r[i] == Scale(a, 1.0 / k)[i] {
      assert r[i] == a[i] / k;
    }
    assert r == Scale(a, 1.0 / k);
  }

  /** `//` fails exactly as `/` does; otherwise each component is the integer just below or at the true quotient. */
  lemma FloorDivisionBounds(a: seq<real>, w: Operand)
    ensures FloorDiv(a, w).Err? <==> Div(a, w).Err?
    ensures FloorDiv(a, w).Err? ==> FloorDiv(a, w).error == Div(a, w).error
    ensures FloorDiv(a, w).Ok? ==>
      var r, q := FloorDiv(a, w).value, Div(a, w).value;
      |r| == |q| == |a| &&
      forall i :: 0 <= i < |a| ==> r[i] == r[i].Floor as real && r[i] <= q[i] < r[i] + 1.0
  {
    if FloorDiv(a, w).Ok? {
      var r, q := FloorDiv(a, w).value, Div(a, w).value;
      forall i | 0 <= i < |a| ensures r[i] == r[i].Floor as real && r[i] <= q[i] < r[i] + 1.0 {
        var f := q[i].Floor;
        assert r[i] == f as real;
        assert (f as real).Floor == f;
      }
    }
  }

  // ---------------------------------------------------------------------------
  // Cross product

  /** The cross product exists up to three components, has three, and is orthogonal to both operands. */
  lemma CrossOrthogonal(a: seq<real>, b: seq<real>)
    ensures CrossProduct(a, b).Err? <==> |a| > 3 || |b| > 3
    ensures CrossProduct(a, b).Err? ==> CrossProduct(a, b).error == DimensionTooLarge
    ensures CrossProduct(a, b).Ok? ==>
      var r := CrossProduct(a, b).value;
      |r| == 3 && Dot(a, r) == 0.0 && Dot(b, r) == 0.0
  {
    if |a| <= 3 && |b| <= 3 {
      var pa, pb := Pad3(a), Pad3(b);
      var r := Cross3(pa, pb);
      DotZeroExtension(a, Zeros(3 - |a|), r);
      DotZeroExtension(b, Zeros(3 - |b|), r);
      Dot3(pa, r);
      Dot3(pb, r);
    }
  }

  /** `v @ v` is the zero vector. */
  lemma CrossSelfIsZero(a: seq<real>)
    requires |a| <= 3
    ensures CrossProduct(a, a) == Ok([0.0, 0.0, 0.0])
  {
  }

  /** Swapping the operands negates the cross product. */
  lemma CrossAnticommutes(a: seq<real>, b: seq<real>)
    ensures CrossProduct(b, a).Ok? <==> CrossProduct(a, b).Ok?
    ensures CrossProduct(a, b).Ok? ==> CrossProduct(b, a) == Ok(Neg(CrossProduct(a, b).value))
  {
    if CrossProduct(a, b).Ok? {
      var r, s := CrossProduct(a, b).value, CrossProduct(b, a).value;
      assert |Neg(r)| == 3;
      forall i | 0 <= i < 3 ensures s[i] == Neg(r)[i] {
      }
      assert s == Neg(r);
    }
  }

  /** Lagrange's identity: the squared length of `a @ b` is `|a|^2 |b|^2 - (a . b)^2`, so it is zero only for parallel operands. */
  lemma CrossLagrange(a: seq<real>, b: seq<real>)
    requires |a| <= 3 && |b| <= 3
    ensures var c := CrossProduct(a, b).value;
      Dot(c, c) == Times(Dot(a, a), Dot(b, b)) - Times(Dot(a, b), Dot(a, b))
  {
    var pa, pb := Pad3(a), Pad3(b);
    PaddedDot(a, b);
    PaddedDot(a, a);
    PaddedDot(b, b);
    CrossLagrange3(pa, pb);
  }

  lemma CrossLagrange3(a: seq<real>, b: seq<real>)
    requires |a| == 3 && |b| == 3
    ensures Dot(Cross3(a, b), Cross3(a, b)) == Times(Dot(a, a), Dot(b, b)) - Times(Dot(a, b), Dot(a, b))
  {
    var c := Cross3(a, b);
    Dot3(c, c);
    Dot3(a, a);
    Dot3(b, b);
    Dot3(a, b);
    Lagrange3(a[0], a[1], a[2], b[0], b[1], b[2]);
  }

  /** Padding both operands with zeros leaves their dot product unchanged. */
  lemma PaddedDot(a: seq<real>, b: seq<real>)
    requires |a| <= 3 && |b| <= 3
    ensures Dot(Pad3(a), Pad3(b)) == Dot(a, b)
  {
    DotZeroExtension(a, Zeros(3 - |a|), Pad3(b));
    DotSymmetric(a, Pad3(b));
    DotZeroExtension(b, Zeros(3 - |b|), a);
    DotSymmetric(b, a);
  }

  lemma Lagrange3(x0: real, x1: real, x2: real, y0: real, y1: real, y2: real)
    ensures (x1 * y2 - x2 * y1) * (x1 * y2 - x2 * y1) + (x2 * y0 - x0 * y2) * (x2 * y0 - x0 * y2)
      + (x0 * y1 - x1 * y0) * (x0 * y1 - x1 * y0)
      == Times(x0 * x0 + x1 * x1 + x2 * x2, y0 * y0 + y1 * y1 + y2 * y2)
      - Times(x0 * y0 + x1 * y1 + x2 * y2, x0 * y0 + x1 * y1 + x2 * y2)
  {
  }

  // ---------------------------------------------------------------------------
  // Normalisation

  /** The non-negative square root is unique. */
  lemma SqrtUnique(x: real, y: real)
    requires 0.0 <= x && 0.0 <= y && x * x == y * y
    ensures x == y
  {
    assert (x - y) * (x + y) == 0.0;
    ProductIsZero(x - y, x + y);
  }

  /**
    * Normalising fails (division by a zero norm) exactly on a non-empty zero
    * vector; otherwise the result has as many components, and unless it is
    * empty its norm is one.
    */
  lemma NormalizeIsUnit(a: seq<real>, root: real -> real)
    requires IsSqrt(root)
    ensures Normalize(a, root).Err? <==> |a| > 0 && forall i :: 0 <= i < |a| ==> a[i] == 0.0
    ensures Normalize(a, root).Err? ==> Normalize(a, root).error == ZeroDivision
    ensures Normalize(a, root).Ok? ==>
      var r := Normalize(a, root).value;
      |r| == |a| && (|a| > 0 ==> Dot(r, r) == 1.0 && Norm(r, root) == 1.0)
  {
    DotSelf(a);
    var n := Norm(a, root);
    assert 0.0 <= n && n * n == Dot(a, a);
    if n != 0.0 {
      DivIsScale(a, n);
      var r := Scale(a, 1.0 / n);
      DotScaleBoth(a, a, 1.0 / n, 1.0 / n);
      assert Dot(r, r) == (1.0 / n) * (1.0 / n) * (n * n);
      if |a| > 0 {
        assert Dot(r, r) == 1.0;
        assert 0.0 <= root(1.0) && root(1.0) * root(1.0) == 1.0;
        SqrtUnique(root(1.0), 1.0);
      }
    } else {
      assert Dot(a, a) == 0.0;
    }
  }

  // ---------------------------------------------------------------------------
  // The list object

  /** A vector object: a list whose identity the caller keeps. */
  class Vector {
    var elems: seq<real>

    constructor (elems: seq<real>)
      ensures this.elems == elems
    {
      this.elems := elems;
    }

    /**
      * `self @ v`: refuses operands longer than three; otherwise extends `v`
      * and then `self` in place with zeros to three components (once, when both
      * are the same object) and returns their cross product.
      */
    method Cross(v: Vector) returns (r: Result<seq<real>>)
      modifies this, v
      ensures r == CrossProduct(old(elems), old(v.elems))
      ensures r.Err? ==> elems == old(elems) && v.elems == old(v.elems)
      ensures r.Ok? ==>
        |old(elems)| <= 3 && |old(v.elems)| <= 3 &&
        elems == Pad3(old(elems)) && v.elems == Pad3(old(v.elems))
    {
      if |v.elems| > 3 || |elems| > 3 {
        return Err(DimensionTooLarge);
      }
      if |v.elems| < 3 {
        v.elems := v.elems + Zeros(3 - |v.elems|);
      } else {
        assert v.elems == Pad3(v.elems);
      }
      if |elems| < 3 {
        elems := elems + Zeros(3 - |elems|);
      } else {
        assert elems == Pad3(elems);
      }
      r := Ok(Cross3(elems, v.elems));
    }
  }
}
