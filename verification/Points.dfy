/** Program points `(block, position)` in linear block order. */
module Points {
  datatype Point = Point(block: nat, pos: nat)

  predicate Lt(a: Point, b: Point) {
    a.block < b.block || (a.block == b.block && a.pos < b.pos)
  }

  predicate Le(a: Point, b: Point) {
    a == b || Lt(a, b)
  }

  function MinP(a: Point, b: Point): Point {
    if Lt(a, b) then a else b
  }

  function MaxP(a: Point, b: Point): Point {
    if Lt(a, b) then b else a
  }

  /** A closed range of points. */
  datatype Range = Range(lo: Point, hi: Point)

  predicate Contains(r: Range, p: Point) {
    Le(r.lo, p) && Le(p, r.hi)
  }

  predicate Disjoint(a: Range, b: Range) {
    Lt(a.hi, b.lo) || Lt(b.hi, a.lo)
  }

  function Hull(a: Range, b: Range): Range {
    Range(MinP(a.lo, b.lo), MaxP(a.hi, b.hi))
  }
}
