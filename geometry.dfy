/**
 * Axis-aligned overlap tests shared by every `touching` method of the game:
 * the half-open test of items, the player and doors, the closed test with a
 * tolerance used by monsters and chests, and the side a monster reports a
 * contact on.
 */
module Geometry {
  import opened Common

  /** A rectangle given by its top-left corner and its size. */
  datatype Box = Box(x: int, y: int, w: int, h: int)

  /** The four directions a character faces or a monster moves in. */
  datatype Dir = Left | Right | Up | Down

  /** One axis of the half-open test: either start lies inside the other span. */
  predicate SpanMeets(a: int, la: int, b: int, lb: int)
  {
    (b >= a && b < a + la) || (a >= b && a < b + lb)
  }

  /** The half-open overlap test written out in every `touching`/`detect_collision` that has no tolerance. */
  predicate Touch(p: Box, q: Box)
  {
    SpanMeets(p.x, p.w, q.x, q.w) && SpanMeets(p.y, p.h, q.y, q.h)
  }

  /** Pixel (px, py) lies in the half-open box. */
  predicate Inside(px: int, py: int, b: Box)
  {
    b.x <= px < b.x + b.w && b.y <= py < b.y + b.h
  }

  /**
   * For boxes of positive size the corner test is exactly "the two boxes
   * share a pixel"; in particular it is symmetric in its two arguments.
   */
  lemma TouchIsSharedPixel(p: Box, q: Box)
    requires p.w > 0 && p.h > 0 && q.w > 0 && q.h > 0
    ensures Touch(p, q) <==> exists px, py :: Inside(px, py, p) && Inside(px, py, q)
  {
    if Touch(p, q) {
      var px := if p.x >= q.x then p.x else q.x;
      var py := if p.y >= q.y then p.y else q.y;
      assert Inside(px, py, p) && Inside(px, py, q);
    }
    if exists px, py :: Inside(px, py, p) && Inside(px, py, q) {
      var px, py :| Inside(px, py, p) && Inside(px, py, q);
      assert SpanMeets(p.x, p.w, q.x, q.w);
      assert SpanMeets(p.y, p.h, q.y, q.h);
    }
  }

  /** One axis of the closed test shrunk by `tol` (a negative tolerance widens it). */
  predicate SpanMeetsWithin(a: int, la: int, b: int, lb: int, tol: int)
  {
    (b >= a + tol && b <= a + la - tol) || (a >= b + tol && a <= b + lb - tol)
  }

  /** The closed overlap test with a tolerance used by monsters and chests. */
  predicate TouchWithin(p: Box, q: Box, tol: int)
  {
    SpanMeetsWithin(p.x, p.w, q.x, q.w, tol) && SpanMeetsWithin(p.y, p.h, q.y, q.h, tol)
  }

  function Abs(n: int): (r: nat)
    ensures r == n || r == -n
  {
    if n < 0 then -n else n
  }

  /**
   * The side of monster box `m` that meets box `o`, checked in the order
   * left, right, up, down, each edge within |tol| of the opposite edge.
   */
  function ContactSide(m: Box, o: Box, tol: int): Option<Dir>
  {
    var t := Abs(tol);
    if m.x >= o.x + o.w - t && m.x <= o.x + o.w + t then Some(Left)
    else if m.x + m.w >= o.x - t && m.x + m.w <= o.x + t then Some(Right)
    else if m.y >= o.y + o.h - t && m.y <= o.y + o.h + t then Some(Up)
    else if m.y + m.h >= o.y - t && m.y + m.h <= o.y + t then Some(Down)
    else None
  }

  /**
   * A reported side is always an edge contact: the two facing edges are at
   * most |tol| apart, and a side is reported only when no earlier side in
   * the order left, right, up, down qualifies.
   */
  lemma ContactSideMeaning(m: Box, o: Box, tol: int)
    ensures ContactSide(m, o, tol) == Some(Left) <==> Abs(m.x - (o.x + o.w)) <= Abs(tol)
    ensures ContactSide(m, o, tol) == Some(Right) <==>
      Abs(m.x - (o.x + o.w)) > Abs(tol) && Abs(m.x + m.w - o.x) <= Abs(tol)
    ensures ContactSide(m, o, tol) == Some(Up) <==>
      Abs(m.x - (o.x + o.w)) > Abs(tol) && Abs(m.x + m.w - o.x) > Abs(tol) &&
      Abs(m.y - (o.y + o.h)) <= Abs(tol)
    ensures ContactSide(m, o, tol) == Some(Down) <==>
      Abs(m.x - (o.x + o.w)) > Abs(tol) && Abs(m.x + m.w - o.x) > Abs(tol) &&
      Abs(m.y - (o.y + o.h)) > Abs(tol) && Abs(m.y + m.h - o.y) <= Abs(tol)
    ensures ContactSide(m, o, tol) == None <==>
      Abs(m.x - (o.x + o.w)) > Abs(tol) && Abs(m.x + m.w - o.x) > Abs(tol) &&
      Abs(m.y - (o.y + o.h)) > Abs(tol) && Abs(m.y + m.h - o.y) > Abs(tol)
  {
  }

  /** A larger tolerance is a stricter test: touching at `tol` implies touching at any smaller one. */
  lemma TouchWithinMonotone(p: Box, q: Box, tol: int, looser: int)
    requires looser <= tol
    ensures TouchWithin(p, q, tol) ==> TouchWithin(p, q, looser)
  {
  }
}
