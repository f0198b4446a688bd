/**
  * A point: a vector that also carries an uncertainty per axis. Adding or
  * subtracting moves the position component-wise and grows the uncertainty.
  */
module Points {
  import opened Vectors

  /** A position with its uncertainties `dx`, `dy`, `dz` on the three axes. */
  datatype Point = Point(coords: seq<real>, dx: real, dy: real, dz: real)

  /** The right operand of a point's `+` and `-`: another point, or a plain vector without uncertainties. */
  datatype Addend = PointAddend(p: Point) | VectorAddend(v: seq<real>)

  function AddendCoords(w: Addend): seq<real>
  {
    match w
    case PointAddend(q) => q.coords
    case VectorAddend(v) => v
  }

  /**
    * The point at `coords` whose uncertainty on each axis is `p`'s own plus
    * half the operand's, where a plain vector lends `p`'s own value.
    */
  function CombinedUncertainty(p: Point, w: Addend, coords: seq<real>): Point
  {
    var q := if w.PointAddend? then w.p else p;
    Point(coords, p.dx + q.dx / 2.0, p.dy + q.dy / 2.0, p.dz + q.dz / 2.0)
  }

  /** `p + w` */
  function PointAdd(p: Point, w: Addend): Point
  {
    CombinedUncertainty(p, w, Add(p.coords, AddendCoords(w)))
  }

  /** `p - w` */
  function PointSub(p: Point, w: Addend): Point
  {
    CombinedUncertainty(p, w, Sub(p.coords, AddendCoords(w)))
  }

  /**
    * Adding or subtracting a point adds half of its uncertainty to the left
    * operand's; adding or subtracting a plain vector adds half of the left
    * operand's own. Neither operation shrinks a non-negative uncertainty.
    */
  lemma UncertaintyGrowth(p: Point, w: Addend)
    ensures var q := PointAdd(p, w);
      var half := if w.PointAddend? then w.p else p;
      q.dx == p.dx + half.dx / 2.0 && q.dy == p.dy + half.dy / 2.0 && q.dz == p.dz + half.dz / 2.0
    ensures PointSub(p, w).dx == PointAdd(p, w).dx
    ensures PointSub(p, w).dy == PointAdd(p, w).dy
    ensures PointSub(p, w).dz == PointAdd(p, w).dz
    ensures w.VectorAddend? ==> PointAdd(p, w).dx == 1.5 * p.dx
    ensures (w.PointAddend? ==> w.p.dx >= 0.0) && p.dx >= 0.0 ==> PointAdd(p, w).dx >= p.dx
  {
  }

  /**
    * Moving a point by a vector and back restores its position but not its
    * uncertainty, which has grown by half twice.
    */
  lemma MoveAndBack(p: Point, v: seq<real>)
    requires |p.coords| <= |v|
    ensures var back := PointSub(PointAdd(p, VectorAddend(v)), VectorAddend(v));
      back.coords == p.coords &&
      back.dx == 2.25 * p.dx && back.dy == 2.25 * p.dy && back.dz == 2.25 * p.dz
  {
    SubUndoesAdd(p.coords, v);
  }
}
