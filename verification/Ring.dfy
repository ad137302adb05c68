/** Point in polygon by counting the sides a ray to the right crosses. */
module Ring {
  import opened Sequences

  datatype Point = Point(x: real, y: real)

  predicate Straddles(a: Point, b: Point, y: real) {
    (a.y > y) != (b.y > y)
  }

  /** Where the line through the two points is at height `y`. */
  function At(a: Point, b: Point, y: real): real
    requires a.y != b.y
  {
    (b.x - a.x) * (y - a.y) / (b.y - a.y) + a.x
  }

  predicate Crosses(a: Point, b: Point, p: Point) {
    Straddles(a, b, p.y) && p.x < At(a, b, p.y)
  }

  /** Whether an odd number of the sides along the points is crossed. */
  function Odd(points: seq<Point>, p: Point): bool {
    if |points| < 2 then false else Crosses(points[0], points[1], p) != Odd(points[1..], p)
  }

  /** Whether the closed ring has the point inside. */
  function Inside(ring: seq<Point>, p: Point): bool {
    if ring == [] then false else Odd(ring + [ring[0]], p)
  }

  method PointInRing(ring: seq<Point>, p: Point) returns (inside: bool)
    ensures inside == Inside(ring, p)
  {
    inside := false;
    ghost var closed := if ring == [] then [] else ring + [ring[0]];
    for i := 0 to |ring|
      invariant inside == Odd(closed[..if ring == [] then 0 else i + 1], p)
    {
      var (left, right) := (ring[i], if i + 1 < |ring| then ring[i + 1] else ring[0]);
      assert closed[i] == left && closed[i + 1] == right;
      OddSnoc(closed[..i + 1], right, p);
      assert closed[..i + 2] == closed[..i + 1] + [right];
      if Straddles(left, right, p.y) {
        if p.x < At(left, right, p.y) {
          inside := !inside;
        }
      }
    }
    assert closed == closed[..|closed|];
  }

  /** Two runs of sides that share a point cross as often together as each for itself. */
  lemma {:induction false} OddJoins(first: seq<Point>, second: seq<Point>, p: Point)
    requires first != [] && second != [] && first[|first| - 1] == second[0]
    ensures Odd(first + second[1..], p) == (Odd(first, p) != Odd(second, p))
  {
    var all := first + second[1..];
    if |first| == 1 {
      assert all == second;
    } else {
      assert all[1..] == first[1..] + second[1..];
      OddJoins(first[1..], second, p);
    }
  }

  lemma {:induction false} OddSnoc(points: seq<Point>, next: Point, p: Point)
    requires points != []
    ensures Odd(points + [next], p) == (Odd(points, p) != Crosses(points[|points| - 1], next, p))
  {
    var last := [points[|points| - 1], next];
    assert last[1..] == [next] && Odd([next], p) == false;
    OddJoins(points, last, p);
  }

  /** The height line meets a side at the same place whichever end it is measured from. */
  lemma {:induction false} AtEitherWay(a: Point, b: Point, y: real)
    requires a.y != b.y
    ensures At(a, b, y) == At(b, a, y)
  {
    var d := b.y - a.y;
    Scaled(a, b, y);
    Scaled(b, a, y);
    assert At(b, a, y) * d == -(At(b, a, y) * (a.y - b.y));
    assert (a.x - b.x) * (y - b.y) + b.x * (a.y - b.y) == -((b.x - a.x) * (y - a.y) + a.x * d) by {
      assert (b.x - a.x) * (y - a.y) == (b.x - a.x) * (y - b.y) + (b.x - a.x) * d;
    }
    Cancel(At(a, b, y), At(b, a, y), d);
  }

  lemma {:induction false} Scaled(a: Point, b: Point, y: real)
    requires a.y != b.y
    ensures At(a, b, y) * (b.y - a.y) == (b.x - a.x) * (y - a.y) + a.x * (b.y - a.y)
  {
    Quotient((b.x - a.x) * (y - a.y), b.y - a.y);
  }

  lemma Quotient(n: real, d: real)
    requires d != 0.0
    ensures n / d * d == n
  {
  }

  lemma {:induction false} Cancel(x: real, z: real, d: real)
    requires d != 0.0 && x * d == z * d
    ensures x == z
  {
    assert (x - z) * d == 0.0;
  }

  lemma {:induction false} CrossesEitherWay(a: Point, b: Point, p: Point)
    ensures Crosses(a, b, p) == Crosses(b, a, p)
  {
    if Straddles(a, b, p.y) { AtEitherWay(a, b, p.y); }
  }

  /** The point a fraction `t` of the way from `a` to `b`. */
  function Between(a: Point, b: Point, t: real): Point {
    Point(a.x + t * (b.x - a.x), a.y + t * (b.y - a.y))
  }

  /** Part of a side lies on the same line as the whole side. */
  lemma {:induction false} AtPart(a: Point, b: Point, t: real, y: real)
    requires a.y != b.y && Between(a, b, t).y != a.y
    ensures At(a, Between(a, b, t), y) == At(a, b, y)
  {
    var m := Between(a, b, t);
    var (d, e) := (b.y - a.y, m.y - a.y);
    assert e == t * d;
    Scaled(a, b, y);
    Scaled(a, m, y);
    assert m.x - a.x == t * (b.x - a.x);
    calc {
      At(a, b, y) * e;
    ==
      t * (At(a, b, y) * d);
    ==
      t * ((b.x - a.x) * (y - a.y) + a.x * d);
    ==
      t * (b.x - a.x) * (y - a.y) + a.x * (t * d);
    ==
      At(a, m, y) * e;
    }
    Cancel(At(a, m, y), At(a, b, y), e);
  }

  /** A vertex put on a side splits its crossing: exactly one of the two parts has it. */
  lemma {:induction false} SplitSide(a: Point, b: Point, t: real, p: Point)
    requires 0.0 <= t <= 1.0
    ensures Crosses(a, b, p) == (Crosses(a, Between(a, b, t), p) != Crosses(Between(a, b, t), b, p))
  {
    var m := Between(a, b, t);
    Ordered(a.y, b.y, t);
    if Straddles(a, m, p.y) {
      AtPart(a, b, t, p.y);
    }
    if Straddles(m, b, p.y) {
      BetweenBack(a, b, t);
      assert Between(b, a, 1.0 - t) == m;
      AtPart(b, a, 1.0 - t, p.y);
      AtEitherWay(m, b, p.y);
      AtEitherWay(a, b, p.y);
    }
  }

  lemma {:induction false} Ordered(a: real, b: real, t: real)
    requires 0.0 <= t <= 1.0
    ensures a <= b ==> a <= a + t * (b - a) <= b
    ensures b <= a ==> b <= a + t * (b - a) <= a
  {
    var d := if a <= b then b - a else a - b;
    ProductNotNegative(t, d);
    ProductNotNegative(1.0 - t, d);
  }

  lemma ProductNotNegative(x: real, y: real)
    requires 0.0 <= x && 0.0 <= y
    ensures 0.0 <= x * y
  {
  }

  lemma {:induction false} BetweenBack(a: Point, b: Point, t: real)
    ensures Between(b, a, 1.0 - t) == Between(a, b, t)
  {
    assert b.x + (1.0 - t) * (a.x - b.x) == a.x + t * (b.x - a.x);
    assert b.y + (1.0 - t) * (a.y - b.y) == a.y + t * (b.y - a.y);
  }

  lemma {:induction false} OddReversed(points: seq<Point>, p: Point)
    ensures Odd(Reversed(points), p) == Odd(points, p)
  {
    if |points| >= 2 {
      var back := Reversed(points[1..]);
      OddReversed(points[1..], p);
      assert back[|back| - 1] == points[1];
      OddSnoc(back, points[0], p);
      CrossesEitherWay(points[0], points[1], p);
    }
  }

  lemma {:induction false} ReversedConcat(a: seq<Point>, b: seq<Point>)
    ensures Reversed(a + b) == Reversed(b) + Reversed(a)
  {
    if a == [] {
      assert a + b == b;
    } else {
      assert (a + b)[1..] == a[1..] + b;
      ReversedConcat(a[1..], b);
    }
  }

  /** The two stretches of a ring cut at a vertex, joined either way round. */
  lemma {:induction false} TurnedSides(ring: seq<Point>, k: nat)
    requires 0 < k < |ring|
    ensures ring[..k + 1] + (ring[k..] + [ring[0]])[1..] == ring + [ring[0]]
    ensures ring[k..] + [ring[0]] + ring[..k + 1][1..] == ring[k..] + ring[..k] + [ring[k]]
  {
    assert (ring[k..] + [ring[0]])[1..] == ring[k + 1..] + [ring[0]];
    assert ring[..k + 1] + ring[k + 1..] == ring;
    assert [ring[0]] + ring[..k + 1][1..] == ring[..k + 1] == ring[..k] + [ring[k]];
  }

  /** Starting the ring at another vertex changes nothing. */
  lemma {:induction false} RotationInvariant(ring: seq<Point>, k: nat, p: Point)
    requires k <= |ring|
    ensures Inside(ring[k..] + ring[..k], p) == Inside(ring, p)
  {
    var turned := ring[k..] + ring[..k];
    if 0 < k < |ring| {
      var first, second := ring[..k + 1], ring[k..] + [ring[0]];
      TurnedSides(ring, k);
      OddJoins(first, second, p);
      OddJoins(second, first, p);
    } else {
      assert turned == ring;
    }
  }

  /** Walking the ring the other way round changes nothing. */
  lemma {:induction false} ReversalInvariant(ring: seq<Point>, p: Point)
    ensures Inside(Reversed(ring), p) == Inside(ring, p)
  {
    if ring != [] {
      var closed := ring + [ring[0]];
      OddReversed(closed, p);
      ReversedConcat(ring, [ring[0]]);
      assert Reversed([ring[0]]) == [ring[0]];
      var back := Reversed(ring);
      assert back == Reversed(ring[1..]) + [ring[0]];
      assert Reversed(closed) == [ring[0]] + back;
      RotationInvariant(back, |back| - 1, p);
      var turned := back[|back| - 1..] + back[..|back| - 1];
      assert turned + [turned[0]] == [ring[0]] + back;
    }
  }

  /** A closing vertex that repeats the first may be there or not. */
  lemma {:induction false} ClosingVertexInvariant(ring: seq<Point>, p: Point)
    requires ring != []
    ensures Inside(ring + [ring[0]], p) == Inside(ring, p)
  {
    OddSnoc(ring + [ring[0]], ring[0], p);
  }

  /** A vertex that splits one crossing leaves the whole count as odd or even as it was. */
  lemma {:induction false} OddSplit(before: seq<Point>, m: Point, after: seq<Point>, p: Point)
    requires before != [] && after != []
    requires var (a, b) := (before[|before| - 1], after[0]); Crosses(a, b, p) == (Crosses(a, m, p) != Crosses(m, b, p))
    ensures Odd(before + [m] + after, p) == Odd(before + after, p)
  {
    hide Crosses;
    var b := after[0];
    OddSnoc(before, b, p);
    OddJoins(before + [b], after, p);
    assert before + [b] + after[1..] == before + after;
    OddSnoc(before, m, p);
    OddSnoc(before + [m], b, p);
    OddJoins(before + [m] + [b], after, p);
    assert before + [m] + [b] + after[1..] == before + [m] + after;
  }

  /** The vertex after `i`, the first one after the last. */
  function Next(ring: seq<Point>, i: nat): Point
    requires i < |ring|
  {
    if i + 1 == |ring| then ring[0] else ring[i + 1]
  }

  /** A vertex put anywhere on a side changes nothing. */
  lemma {:induction false} InsertedVertexInvariant(ring: seq<Point>, i: nat, t: real, p: Point)
    requires i < |ring| && 0.0 <= t <= 1.0
    ensures Inside(ring[..i + 1] + [Between(ring[i], Next(ring, i), t)] + ring[i + 1..], p) == Inside(ring, p)
  {
    hide Between, Crosses;
    var m := Between(ring[i], Next(ring, i), t);
    SplitSide(ring[i], Next(ring, i), t, p);
    var (before, after) := (ring[..i + 1], ring[i + 1..] + [ring[0]]);
    assert after[0] == Next(ring, i);
    OddSplit(before, m, after, p);
    assert before + after == ring + [ring[0]];
    var longer := ring[..i + 1] + [m] + ring[i + 1..];
    assert longer[0] == ring[0] && before + [m] + after == longer + [longer[0]];
  }
}
