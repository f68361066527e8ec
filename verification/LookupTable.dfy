/** Characteristic curves: integer interpolation between knots, and back. */
module LookupTable {
  import opened Arithmetic

  // A knot of the curve.
  datatype Point = Point(x: int, y: int)

  // One turn of the loop of get_y that returns.
  function Interpolate(p: Point, q: Point, x: int): int {
    if q.x - p.x != 0 then p.y + Quot((q.y - p.y) * (x - p.x), q.x - p.x) else p.y
  }

  function ScanY(points: seq<Point>, x: int, i: nat): int
    requires i < |points|
    decreases |points| - i
  {
    if i == |points| - 1 then points[i].y
    else if x < points[i + 1].x then Interpolate(points[i], points[i + 1], x)
    else ScanY(points, x, i + 1)
  }

  // get_y
  function YAt(points: seq<Point>, x: int): int {
    if points == [] then 0
    else if x < points[0].x then points[0].y
    else ScanY(points, x, 0)
  }

  // The segment behind knot i has the value y, its upper end excluded.
  predicate Covers(points: seq<Point>, i: nat, y: int) {
    i + 1 < |points| && Min(points[i].y, points[i + 1].y) <= y < Max(points[i].y, points[i + 1].y)
  }

  function InverseIn(p: Point, q: Point, y: int): int {
    if q.y - p.y != 0 then p.x + Quot((y - p.y) * (q.x - p.x), q.y - p.y) else p.x
  }

  function ScanX(points: seq<Point>, y: int, i: nat): int
    requires i < |points|
    decreases |points| - i
  {
    if i == |points| - 1 then 0
    else if Covers(points, i, y) then InverseIn(points[i], points[i + 1], y)
    else ScanX(points, y, i + 1)
  }

  // get_x
  function XAt(points: seq<Point>, y: int): int {
    if points == [] then 0 else ScanX(points, y, 0)
  }

  // ----- the same in the int32_t of the dataset, in which an operation can overflow

  predicate Is32(n: int) {
    -0x8000_0000 <= n < 0x8000_0000
  }

  // The value of an int32_t expression, as long as every value on the way is one.
  datatype Checked = Exact(value: int) | Overflow {
    predicate IsFailure() {
      Overflow?
    }

    function PropagateFailure(): Checked {
      Overflow
    }

    function Extract(): int
      requires Exact?
    {
      value
    }
  }

  function Fit(n: int): Checked {
    if Is32(n) then Exact(n) else Overflow
  }

  function Interpolate32(p: Point, q: Point, x: int): Checked {
    var width :- Fit(q.x - p.x);
    if width == 0 then Exact(p.y)
    else
      var rise :- Fit(q.y - p.y);
      var step :- Fit(x - p.x);
      var product :- Fit(rise * step);
      var quotient :- Fit(Quot(product, width));
      Fit(p.y + quotient)
  }

  function ScanY32(points: seq<Point>, x: int, i: nat): Checked
    requires i < |points|
    decreases |points| - i
  {
    if i == |points| - 1 then Exact(points[i].y)
    else if x < points[i + 1].x then Interpolate32(points[i], points[i + 1], x)
    else ScanY32(points, x, i + 1)
  }

  // get_y
  function Y32(points: seq<Point>, x: int): Checked {
    if points == [] then Exact(0)
    else if x < points[0].x then Exact(points[0].y)
    else ScanY32(points, x, 0)
  }

  function InverseIn32(p: Point, q: Point, y: int): Checked {
    var ySpan :- Fit(q.y - p.y);
    var xSpan :- Fit(q.x - p.x);
    if ySpan == 0 then Exact(p.x)
    else
      var rise :- Fit(y - p.y);
      var product :- Fit(rise * xSpan);
      var quotient :- Fit(Quot(product, ySpan));
      Fit(p.x + quotient)
  }

  function ScanX32(points: seq<Point>, y: int, i: nat): Checked
    requires i < |points|
    decreases |points| - i
  {
    if i == |points| - 1 then Exact(0)
    else if Covers(points, i, y) then InverseIn32(points[i], points[i + 1], y)
    else ScanX32(points, y, i + 1)
  }

  // get_x
  function X32(points: seq<Point>, y: int): Checked {
    if points == [] then Exact(0) else ScanX32(points, y, 0)
  }

  // CharacteristicCurve<int32_t, int32_t>
  class CharacteristicCurve {
    var points: seq<Point>

    constructor (dataPoints: seq<Point>)
      ensures points == dataPoints
    {
      points := dataPoints;
    }

    method GetY(x: int) returns (y: Checked)
      ensures y == Y32(points, x)
    {
      if |points| == 0 {
        return Exact(0);
      }
      if x < points[0].x {
        return Exact(points[0].y);
      }
      var i := 0;
      while i < |points| - 1
        invariant i <= |points| - 1 && Y32(points, x) == ScanY32(points, x, i)
      {
        var currentX, nextX, currentY, nextY := points[i].x, points[i + 1].x, points[i].y, points[i + 1].y;
        if x < nextX {
          var width :- Fit(nextX - currentX);
          if width != 0 {
            var rise :- Fit(nextY - currentY);
            var step :- Fit(x - currentX);
            var product :- Fit(rise * step);
            var quotient :- Fit(Quot(product, width));
            return Fit(currentY + quotient);
          }
          return Exact(currentY);
        }
        i := i + 1;
      }
      return Exact(points[|points| - 1].y);
    }

    method GetX(y: int) returns (x: Checked)
      ensures x == X32(points, y)
    {
      if |points| == 0 {
        return Exact(0);
      }
      var i := 0;
      while i < |points| - 1
        invariant i <= |points| - 1 && X32(points, y) == ScanX32(points, y, i)
      {
        var currentY, nextY := points[i].y, points[i + 1].y;
        if Min(currentY, nextY) <= y && Max(currentY, nextY) > y {
          var ySpan :- Fit(nextY - currentY);
          var xSpan :- Fit(points[i + 1].x - points[i].x);
          if ySpan != 0 {
            var rise :- Fit(y - currentY);
            var product :- Fit(rise * xSpan);
            var quotient :- Fit(Quot(product, ySpan));
            return Fit(points[i].x + quotient);
          }
          return Exact(points[i].x);
        }
        i := i + 1;
      }
      return Exact(0);
    }
  }

  // ----- what get_y computes

  ghost predicate StrictX(points: seq<Point>) {
    forall i, j :: 0 <= i < j < |points| ==> points[i].x < points[j].x
  }

  lemma PositiveFactor(k: int, d: int)
    requires k * d > 0 && d > 0
    ensures k > 0
  {
  }

  lemma DivBelow(n: int, a: int, d: int)
    requires 0 <= n < (a + 1) * d && d > 0
    ensures 0 <= n / d <= a
  {
    var q := n / d;
    assert q * d <= n;
    assert (a + 1 - q) * d == (a + 1) * d - q * d;
    PositiveFactor(a + 1 - q, d);
  }

  lemma DivAtMost(n: int, a: int, d: int)
    requires 0 <= n <= a * d && d > 0
    ensures 0 <= n / d <= a
  {
    assert (a + 1) * d == a * d + d;
    DivBelow(n, a, d);
  }

  // A truncating quotient only sees the sizes, and then the sign.
  lemma QuotOfProduct(a: int, b: nat, d: int)
    requires d > 0
    ensures Quot(a * b, d) == if a >= 0 then Abs(a) * b / d else -(Abs(a) * b / d)
  {
    assert 0 <= Abs(a) * b;
    assert a < 0 ==> a * b == -(Abs(a) * b);
  }

  lemma ProductAtMost(a: nat, b: nat, d: nat)
    requires b <= d
    ensures 0 <= a * b <= a * d
  {
  }

  // A product divided by one of its factors, or by more.
  lemma QuotBetween(a: int, b: nat, d: int)
    requires b <= d && d > 0
    ensures a >= 0 ==> 0 <= Quot(a * b, d) <= a
    ensures a <= 0 ==> a <= Quot(a * b, d) <= 0
  {
    ProductAtMost(Abs(a), b, d);
    DivAtMost(Abs(a) * b, Abs(a), d);
    QuotOfProduct(a, b, d);
  }

  lemma DivMonotone(n: int, m: int, d: int)
    requires 0 <= n <= m && d > 0
    ensures 0 <= n / d <= m / d
  {
    assert m < (m / d + 1) * d;
    DivBelow(n, m / d, d);
  }

  lemma {:induction false} ScanFinds(points: seq<Point>, x: int, i: nat, k: nat)
    requires StrictX(points) && i <= k < |points|
    requires points[k].x <= x && (k + 1 < |points| ==> x < points[k + 1].x)
    ensures ScanY(points, x, i) == if k + 1 < |points| then Interpolate(points[k], points[k + 1], x) else points[k].y
    decreases k - i
  {
    if i < k {
      ScanFinds(points, x, i + 1, k);
    }
  }

  // Which knot a value of x lies behind.
  lemma {:induction false} KnotBelow(points: seq<Point>, x: int, n: nat) returns (k: nat)
    requires 0 < n <= |points| && points[0].x <= x
    ensures k < n && points[k].x <= x && (k + 1 < n ==> x < points[k + 1].x)
  {
    if n == 1 || points[n - 1].x <= x {
      k := n - 1;
    } else {
      k := KnotBelow(points, x, n - 1);
    }
  }

  // Left of the first knot the curve is flat, right of the last one too; between two knots it interpolates.
  lemma YInSegment(points: seq<Point>, x: int, k: nat)
    requires StrictX(points) && k + 1 < |points| && points[k].x <= x < points[k + 1].x
    ensures YAt(points, x) == points[k].y + Quot((points[k + 1].y - points[k].y) * (x - points[k].x),
                                                 points[k + 1].x - points[k].x)
  {
    assert points[0].x <= points[k].x;
    ScanFinds(points, x, 0, k);
  }

  // The curve goes through its knots.
  lemma ExactAtKnots(points: seq<Point>, k: nat)
    requires StrictX(points) && k < |points|
    ensures YAt(points, points[k].x) == points[k].y
  {
    assert points[0].x <= points[k].x;
    ScanFinds(points, points[k].x, 0, k);
    if k + 1 < |points| {
      assert (points[k + 1].y - points[k].y) * 0 == 0;
    }
  }

  // Between two knots it stays between their values, in spite of the truncation.
  lemma StaysBetween(points: seq<Point>, x: int, k: nat)
    requires StrictX(points) && k + 1 < |points| && points[k].x <= x <= points[k + 1].x
    ensures Min(points[k].y, points[k + 1].y) <= YAt(points, x) <= Max(points[k].y, points[k + 1].y)
  {
    if x == points[k + 1].x {
      ExactAtKnots(points, k + 1);
    } else {
      YInSegment(points, x, k);
      QuotBetween(points[k + 1].y - points[k].y, x - points[k].x, points[k + 1].x - points[k].x);
    }
  }

  lemma WholePart(n: int, d: int)
    requires n >= 0 && d > 0
    ensures n / d >= 0 && n / d * d <= n < (n / d + 1) * d
  {
    assert n == n / d * d + n % d;
    assert (n / d + 1) * d == n / d * d + d;
  }

  lemma Negated(k: int, d: int)
    ensures (-k) * d == -(k * d) && (-k - 1) * d == -((k + 1) * d)
  {
  }

  lemma SignedProduct(a: int, b: nat)
    ensures a * b == if a >= 0 then Abs(a) * b else -(Abs(a) * b)
  {
  }

  // Between two knots it is on the straight line through them, cut off to a whole number towards the first.
  lemma YOnTheLine(points: seq<Point>, x: int, k: nat)
    requires StrictX(points) && k + 1 < |points| && points[k].x <= x < points[k + 1].x
    ensures var p, q := points[k], points[k + 1];
            var rise, width, exact := YAt(points, x) - p.y, q.x - p.x, (q.y - p.y) * (x - p.x);
            if q.y >= p.y then rise * width <= exact < (rise + 1) * width
            else (rise - 1) * width < exact <= rise * width
  {
    var p, q := points[k], points[k + 1];
    ForwardSteps(points, k, x - p.x);
    OnTheLine(YAt(points, x) - p.y, q.y - p.y, x - p.x, q.x - p.x);
  }

  lemma OnTheLine(rise: int, height: int, t: nat, width: int)
    requires width > 0
    requires rise == if height >= 0 then Abs(height) * t / width else -(Abs(height) * t / width)
    ensures if height >= 0 then rise * width <= height * t < (rise + 1) * width
            else (rise - 1) * width < height * t <= rise * width
  {
    SignedProduct(height, t);
    NoLess(Abs(height), t);
    WholePart(Abs(height) * t, width);
    Negated(Abs(height) * t / width, width);
  }

  lemma NoLess(a: nat, b: nat)
    ensures a * b >= 0
  {
  }

  ghost predicate RisingY(points: seq<Point>) {
    forall i, j :: 0 <= i < j < |points| ==> points[i].y <= points[j].y
  }

  ghost predicate FallingY(points: seq<Point>) {
    forall i, j :: 0 <= i < j < |points| ==> points[i].y >= points[j].y
  }

  lemma QuotMonotone(a: int, b: nat, c: nat, d: int)
    requires b <= c && d > 0
    ensures a >= 0 ==> Quot(a * b, d) <= Quot(a * c, d)
    ensures a <= 0 ==> Quot(a * b, d) >= Quot(a * c, d)
  {
    ProductAtMost(Abs(a), b, c);
    DivMonotone(Abs(a) * b, Abs(a) * c, d);
    QuotOfProduct(a, b, d);
    QuotOfProduct(a, c, d);
  }

  lemma SegmentMonotone(points: seq<Point>, x: int, z: int, k: nat)
    requires StrictX(points) && k + 1 < |points| && points[k].x <= x <= z <= points[k + 1].x
    ensures points[k].y <= points[k + 1].y ==> YAt(points, x) <= YAt(points, z)
    ensures points[k].y >= points[k + 1].y ==> YAt(points, x) >= YAt(points, z)
  {
    StaysBetween(points, x, k);
    if z == points[k + 1].x {
      ExactAtKnots(points, k + 1);
    } else {
      YInSegment(points, x, k);
      YInSegment(points, z, k);
      QuotMonotone(points[k + 1].y - points[k].y, x - points[k].x, z - points[k].x, points[k + 1].x - points[k].x);
    }
  }

  // Where the curve stands relative to the value at knot k.
  lemma KnotBounds(points: seq<Point>, x: int, k: nat)
    requires StrictX(points) && k < |points|
    ensures RisingY(points) && x <= points[k].x ==> YAt(points, x) <= points[k].y
    ensures RisingY(points) && x >= points[k].x ==> YAt(points, x) >= points[k].y
    ensures FallingY(points) && x <= points[k].x ==> YAt(points, x) >= points[k].y
    ensures FallingY(points) && x >= points[k].x ==> YAt(points, x) <= points[k].y
  {
    if x >= points[0].x {
      var j := KnotBelow(points, x, |points|);
      if x == points[k].x {
        ExactAtKnots(points, k);
      } else if j + 1 < |points| {
        StaysBetween(points, x, j);
        assert x < points[k].x ==> j < k;
        assert x > points[k].x ==> k <= j;
      } else {
        ScanFinds(points, x, 0, j);
      }
    }
  }

  // A rising table gives a rising curve, a falling table a falling one.
  lemma CurveMonotone(points: seq<Point>, x: int, z: int)
    requires StrictX(points) && x <= z
    ensures RisingY(points) ==> YAt(points, x) <= YAt(points, z)
    ensures FallingY(points) ==> YAt(points, x) >= YAt(points, z)
  {
    if points != [] && points[0].x <= x {
      var k := KnotBelow(points, x, |points|);
      if k + 1 < |points| && z <= points[k + 1].x {
        SegmentMonotone(points, x, z, k);
      } else if k + 1 < |points| {
        KnotBounds(points, x, k + 1);
        KnotBounds(points, z, k + 1);
      } else {
        ScanFinds(points, x, 0, k);
        ScanFinds(points, z, 0, k);
      }
    } else if points != [] && points[0].x <= z {
      KnotBounds(points, z, 0);
    }
  }

  // ----- get_x, and what get_y makes of it

  function CeilDiv(a: nat, d: int): int
    requires d > 0
  {
    (a + d - 1) / d
  }

  lemma FirstTruncation(m: nat, height: int, width: int)
    requires m <= height && height > 0 && width > 0
    ensures var t := m * width / height; 0 <= t <= width && 0 <= height * t <= m * width <= height * t + height - 1
  {
    var n := m * width;
    assert 0 <= n <= width * height;
    DivAtMost(n, width, height);
  }

  lemma SecondTruncation(m: nat, n: int, h: int, height: int, width: int)
    requires height > 0 && width > 0 && n == m * width && 0 <= h <= n <= h + height - 1
    ensures 0 <= h / width <= m && m - h / width <= CeilDiv(height - 1, width)
  {
    DivAtMost(h, m, width);
    var r := h / width;
    assert width * r >= h - (width - 1);
    assert (m - r) * width == n - r * width <= (height - 1) + (width - 1);
    QuotientAtLeast(m - r, (height - 1) + (width - 1), width);
  }

  // Out and back with two truncating divisions.
  lemma TwoTruncations(m: nat, height: int, width: int)
    requires m <= height && height > 0 && width > 0
    ensures var t := m * width / height;
            && 0 <= t <= width
            && 0 <= height * t / width <= m
            && m - height * t / width <= CeilDiv(height - 1, width)
  {
    FirstTruncation(m, height, width);
    SecondTruncation(m, m * width, height * (m * width / height), height, width);
  }

  lemma QuotientAtLeast(k: int, n: int, d: int)
    requires 0 <= k && k * d <= n && d > 0
    ensures k <= n / d
  {
    assert n < (n / d + 1) * d;
    assert (n / d + 1 - k) * d == (n / d + 1) * d - k * d;
    PositiveFactor(n / d + 1 - k, d);
  }

  lemma {:induction false} ScanXFinds(points: seq<Point>, y: int, i: nat, j: nat) returns (k: nat)
    requires i <= j && Covers(points, j, y)
    ensures i <= k <= j && Covers(points, k, y) && ScanX(points, y, i) == InverseIn(points[k], points[k + 1], y)
    decreases j - i
  {
    if Covers(points, i, y) {
      k := i;
    } else {
      k := ScanXFinds(points, y, i + 1, j);
    }
  }

  // On the way from a value not above y to one above it some segment crosses y.
  lemma {:induction false} Crossing(points: seq<Point>, y: int, a: nat, b: nat) returns (k: nat)
    requires a < |points| && b < |points| && points[a].y <= y < points[b].y
    ensures Covers(points, k, y)
    decreases if a < b then b - a else a - b
  {
    var c := if a < b then a + 1 else a - 1;
    if points[c].y > y {
      k := if a < b then a else c;
    } else {
      k := Crossing(points, y, c, b);
    }
  }

  lemma QuotOfFall(a: int, b: nat, d: int)
    requires d < 0 && a <= 0
    ensures Quot(a * b, d) == Abs(a) * b / Abs(d)
  {
    assert 0 <= Abs(a) * b;
    assert a * b == -(Abs(a) * b);
  }

  // What get_x finds in the segment, measured from its start.
  lemma InverseSteps(p: Point, q: Point, y: int)
    requires p.x < q.x && Min(p.y, q.y) <= y < Max(p.y, q.y)
    ensures InverseIn(p, q, y) == p.x + Abs(y - p.y) * (q.x - p.x) / Abs(q.y - p.y)
  {
    if q.y > p.y {
      QuotOfProduct(y - p.y, q.x - p.x, q.y - p.y);
    } else {
      QuotOfFall(y - p.y, q.x - p.x, q.y - p.y);
    }
  }

  lemma TimesDiv(a: nat, d: int)
    requires d > 0
    ensures a * d / d == a
  {
    assert 0 <= a * d;
    DivAtMost(a * d, a, d);
    QuotientAtLeast(a, a * d, d);
  }

  // And what get_y makes of a step into the segment.
  lemma ForwardSteps(points: seq<Point>, k: nat, t: nat)
    requires StrictX(points) && k + 1 < |points| && t <= points[k + 1].x - points[k].x
    ensures var p, q := points[k], points[k + 1];
            var r := Abs(q.y - p.y) * t / (q.x - p.x);
            YAt(points, p.x + t) == if q.y >= p.y then p.y + r else p.y - r
  {
    var p, q := points[k], points[k + 1];
    if t == q.x - p.x {
      ExactAtKnots(points, k + 1);
      TimesDiv(Abs(q.y - p.y), t);
    } else {
      YInSegment(points, p.x + t, k);
      QuotOfProduct(q.y - p.y, t, q.x - p.x);
    }
  }

  // For every y between the smallest value of the table and the largest, that one excluded, get_y(get_x(y)) lies
  // between the value at the start of a segment that crosses y and y itself, at most the bound away from y.
  lemma InverseErrorBound(points: seq<Point>, y: int, a: nat, b: nat) returns (k: nat)
    requires StrictX(points) && a < |points| && b < |points| && points[a].y <= y < points[b].y
    ensures Covers(points, k, y)
    ensures var back, start := YAt(points, XAt(points, y)), points[k].y;
            && Min(start, y) <= back <= Max(start, y)
            && Abs(y - back) <= CeilDiv(Abs(points[k + 1].y - start) - 1, points[k + 1].x - points[k].x)
  {
    var j := Crossing(points, y, a, b);
    k := ScanXFinds(points, y, 0, j);
    var p, q := points[k], points[k + 1];
    var m, height, width := Abs(y - p.y), Abs(q.y - p.y), q.x - p.x;
    InverseSteps(p, q, y);
    TwoTruncations(m, height, width);
    ForwardSteps(points, k, m * width / height);
  }

  // Outside that range get_x answers zero.
  lemma {:induction false} OutsideIsZero(points: seq<Point>, y: int, i: nat)
    requires i < |points|
    requires (forall j :: 0 <= j < |points| ==> points[j].y <= y) || (forall j :: 0 <= j < |points| ==> points[j].y > y)
    ensures ScanX(points, y, i) == 0
    decreases |points| - i
  {
    if i + 1 < |points| {
      OutsideIsZero(points, y, i + 1);
    }
  }

  // ----- when int32_t is wide enough

  // The table of a CharacteristicCurve<int32_t, int32_t> with ascending knots.
  ghost predicate Table32(points: seq<Point>) {
    StrictX(points) && forall k :: 0 <= k < |points| ==> Is32(points[k].x) && Is32(points[k].y)
  }

  // In the segment from p to q nothing overflows in get_y: neither the two spans nor the largest product.
  predicate FitsY(p: Point, q: Point) {
    && Is32(q.x - p.x) && Is32(q.y - p.y)
    && Is32((q.y - p.y) * (q.x - p.x - 1))
  }

  // The same for get_x. It excludes the upper value of the segment, so a fall has the longer way to go.
  predicate FitsX(p: Point, q: Point) {
    p.y != q.y ==>
      && Is32(q.x - p.x) && Is32(q.y - p.y)
      && Is32((if q.y > p.y then q.y - p.y - 1 else q.y - p.y) * (q.x - p.x))
  }

  ghost predicate AllFitY(points: seq<Point>) {
    forall k :: 0 <= k < |points| - 1 ==> FitsY(points[k], points[k + 1])
  }

  ghost predicate AllFitX(points: seq<Point>) {
    forall k :: 0 <= k < |points| - 1 ==> FitsX(points[k], points[k + 1])
  }

  lemma ProductFits(a: int, b: nat, c: int, d: nat)
    requires b <= d && (0 <= a <= c || c <= a <= 0) && Is32(c * d)
    ensures Is32(a * b)
  {
    ProductAtMost(Abs(a), b, d);
    ProductAtMost(d, Abs(a), Abs(c));
    assert a * b == if a >= 0 then Abs(a) * b else -(Abs(a) * b);
    assert c * d == if c >= 0 then d * Abs(c) else -(d * Abs(c));
  }

  lemma Interpolate32Exact(p: Point, q: Point, x: int)
    requires FitsY(p, q) && p.x <= x < q.x && Is32(p.y) && Is32(q.y)
    ensures Interpolate32(p, q, x) == Exact(Interpolate(p, q, x))
  {
    ProductFits(q.y - p.y, x - p.x, q.y - p.y, q.x - p.x - 1);
    QuotBetween(q.y - p.y, x - p.x, q.x - p.x);
  }

  lemma {:induction false} ScanY32Finds(points: seq<Point>, x: int, i: nat, k: nat)
    requires StrictX(points) && i <= k < |points|
    requires points[k].x <= x && (k + 1 < |points| ==> x < points[k + 1].x)
    ensures ScanY32(points, x, i)
         == if k + 1 < |points| then Interpolate32(points[k], points[k + 1], x) else Exact(points[k].y)
    decreases k - i
  {
    if i < k {
      ScanY32Finds(points, x, i + 1, k);
    }
  }

  // On a table whose segments fit, get_y in int32_t is the curve.
  lemma Y32Exact(points: seq<Point>, x: int)
    requires Table32(points) && AllFitY(points)
    ensures Y32(points, x) == Exact(YAt(points, x))
  {
    if points != [] && points[0].x <= x {
      var k := KnotBelow(points, x, |points|);
      ScanFinds(points, x, 0, k);
      ScanY32Finds(points, x, 0, k);
      if k + 1 < |points| {
        Interpolate32Exact(points[k], points[k + 1], x);
      }
    }
  }

  // The last x of a segment has the largest product.
  lemma SegmentFitsY(points: seq<Point>, k: nat)
    requires Table32(points) && k + 1 < |points| && Y32(points, points[k + 1].x - 1).Exact?
    ensures FitsY(points[k], points[k + 1])
  {
    var x := points[k + 1].x - 1;
    assert points[0].x <= points[k].x <= x;
    ScanY32Finds(points, x, 0, k);
  }

  // get_y in int32_t is right for every x exactly when every segment fits.
  lemma FitsYExactly(points: seq<Point>)
    requires Table32(points)
    ensures (forall x :: Is32(x) ==> Y32(points, x) == Exact(YAt(points, x))) <==> AllFitY(points)
  {
    if AllFitY(points) {
      forall x | Is32(x) ensures Y32(points, x) == Exact(YAt(points, x)) {
        Y32Exact(points, x);
      }
    }
    if forall x :: Is32(x) ==> Y32(points, x) == Exact(YAt(points, x)) {
      forall k | 0 <= k < |points| - 1 ensures FitsY(points[k], points[k + 1]) {
        assert Is32(points[k + 1].x - 1);
        SegmentFitsY(points, k);
      }
    }
  }

  lemma InverseIn32Exact(p: Point, q: Point, y: int)
    requires FitsX(p, q) && p.x < q.x && Is32(p.x) && Is32(q.x) && Min(p.y, q.y) <= y < Max(p.y, q.y)
    ensures InverseIn32(p, q, y) == Exact(InverseIn(p, q, y))
    ensures p.x <= InverseIn(p, q, y) <= q.x
  {
    var m, height, width := Abs(y - p.y), Abs(q.y - p.y), q.x - p.x;
    ProductFits(y - p.y, width, if q.y > p.y then q.y - p.y - 1 else q.y - p.y, width);
    InverseSteps(p, q, y);
    FirstTruncation(m, height, width);
  }

  lemma {:induction false} ScanX32Exact(points: seq<Point>, y: int, i: nat)
    requires Table32(points) && AllFitX(points) && i < |points|
    ensures ScanX32(points, y, i) == Exact(ScanX(points, y, i)) && Is32(ScanX(points, y, i))
    decreases |points| - i
  {
    if i + 1 < |points| {
      if Covers(points, i, y) {
        assert FitsX(points[i], points[i + 1]);
        InverseIn32Exact(points[i], points[i + 1], y);
      } else {
        ScanX32Exact(points, y, i + 1);
      }
    }
  }

  // On a table whose segments fit, get_x in int32_t is the inverse.
  lemma X32Exact(points: seq<Point>, y: int)
    requires Table32(points) && AllFitX(points)
    ensures X32(points, y) == Exact(XAt(points, y)) && Is32(XAt(points, y))
  {
    if points != [] {
      ScanX32Exact(points, y, 0);
    }
  }

  // In a rising or falling table at most one segment has the value y.
  lemma {:induction false} ScanX32Finds(points: seq<Point>, y: int, i: nat, k: nat)
    requires RisingY(points) || FallingY(points)
    requires i <= k && Covers(points, k, y)
    ensures ScanX32(points, y, i) == InverseIn32(points[k], points[k + 1], y)
    decreases k - i
  {
    if i < k {
      assert !Covers(points, i, y) by {
        assert RisingY(points) ==> points[i].y <= points[i + 1].y <= points[k].y <= points[k + 1].y;
        assert FallingY(points) ==> points[i].y >= points[i + 1].y >= points[k].y >= points[k + 1].y;
      }
      ScanX32Finds(points, y, i + 1, k);
    }
  }

  // The value furthest from the start of a segment, among those that get_x looks for there.
  function Furthest(p: Point, q: Point): int {
    if q.y > p.y then q.y - 1 else q.y
  }

  lemma SegmentFitsX(points: seq<Point>, k: nat)
    requires Table32(points) && (RisingY(points) || FallingY(points)) && k + 1 < |points|
    requires X32(points, Furthest(points[k], points[k + 1])).Exact?
    ensures FitsX(points[k], points[k + 1])
  {
    var p, q := points[k], points[k + 1];
    if p.y != q.y {
      ScanX32Finds(points, Furthest(p, q), 0, k);
    }
  }

  // In a rising or falling table get_x in int32_t is right for every y exactly when every segment fits.
  lemma FitsXExactly(points: seq<Point>)
    requires Table32(points) && (RisingY(points) || FallingY(points))
    ensures (forall y :: Is32(y) ==> X32(points, y) == Exact(XAt(points, y))) <==> AllFitX(points)
  {
    if AllFitX(points) {
      forall y | Is32(y) ensures X32(points, y) == Exact(XAt(points, y)) {
        X32Exact(points, y);
      }
    }
    if forall y :: Is32(y) ==> X32(points, y) == Exact(XAt(points, y)) {
      forall k | 0 <= k < |points| - 1 ensures FitsX(points[k], points[k + 1]) {
        if points[k].y != points[k + 1].y {
          assert Is32(Furthest(points[k], points[k + 1]));
          SegmentFitsX(points, k);
        }
      }
    }
  }

  // In any table: get_x looks for y in the first segment that has the value.
  ghost predicate FirstCovers(points: seq<Point>, k: nat, y: int) {
    Covers(points, k, y) && forall j :: 0 <= j < k ==> !Covers(points, j, y)
  }

  predicate FitsXAt(p: Point, q: Point, y: int) {
    Is32(q.y - p.y) && Is32(q.x - p.x) && Is32((y - p.y) * (q.x - p.x))
  }

  lemma {:induction false} FirstFound(points: seq<Point>, y: int, i: nat, k: nat)
    requires FirstCovers(points, k, y) && i <= k
    ensures ScanX32(points, y, i) == InverseIn32(points[k], points[k + 1], y)
    ensures ScanX(points, y, i) == InverseIn(points[k], points[k + 1], y)
    decreases k - i
  {
    if i < k {
      FirstFound(points, y, i + 1, k);
    }
  }

  // What get_x answers is on the line through the two knots, cut off to a whole number towards the first.
  lemma XOnTheLine(points: seq<Point>, y: int, k: nat)
    requires StrictX(points) && FirstCovers(points, k, y)
    ensures var p, q := points[k], points[k + 1];
            var step, height, exact := XAt(points, y) - p.x, Abs(q.y - p.y), Abs(y - p.y) * (q.x - p.x);
            0 <= step && step * height <= exact < (step + 1) * height
  {
    var p, q := points[k], points[k + 1];
    FirstFound(points, y, 0, k);
    InverseSteps(p, q, y);
    NoLess(Abs(y - p.y), q.x - p.x);
    WholeStep(XAt(points, y) - p.x, Abs(y - p.y) * (q.x - p.x), Abs(q.y - p.y));
  }

  lemma WholeStep(step: int, n: int, height: int)
    requires n >= 0 && height > 0 && step == n / height
    ensures 0 <= step && step * height <= n < (step + 1) * height
  {
    WholePart(n, height);
  }

  lemma {:induction false} NoneFound(points: seq<Point>, y: int, i: nat)
    requires i < |points| && forall j :: i <= j < |points| ==> !Covers(points, j, y)
    ensures ScanX32(points, y, i) == Exact(0) && ScanX(points, y, i) == 0
    decreases |points| - i
  {
    if i + 1 < |points| {
      NoneFound(points, y, i + 1);
    }
  }

  lemma InverseIn32ExactlyAt(p: Point, q: Point, y: int)
    requires p.x < q.x && Is32(p.x) && Is32(q.x) && Is32(p.y) && Is32(q.y) && Min(p.y, q.y) <= y < Max(p.y, q.y)
    ensures InverseIn32(p, q, y) == Exact(InverseIn(p, q, y)) <==> FitsXAt(p, q, y)
  {
    InverseSteps(p, q, y);
    FirstTruncation(Abs(y - p.y), Abs(q.y - p.y), q.x - p.x);
  }

  lemma {:induction false} FirstCover(points: seq<Point>, y: int, n: nat) returns (k: nat)
    requires exists j :: 0 <= j < n && Covers(points, j, y)
    ensures k < n && FirstCovers(points, k, y)
  {
    if exists j :: 0 <= j < n - 1 && Covers(points, j, y) {
      k := FirstCover(points, y, n - 1);
    } else {
      k := n - 1;
    }
  }

  lemma X32ExactlyAt(points: seq<Point>, y: int)
    requires Table32(points)
    ensures X32(points, y) == Exact(XAt(points, y)) <==>
      forall k: nat :: FirstCovers(points, k, y) ==> FitsXAt(points[k], points[k + 1], y)
  {
    if exists j :: 0 <= j < |points| && Covers(points, j, y) {
      var k := FirstCover(points, y, |points|);
      FirstFound(points, y, 0, k);
      InverseIn32ExactlyAt(points[k], points[k + 1], y);
      assert forall i: nat :: FirstCovers(points, i, y) ==> i == k;
    } else if points != [] {
      NoneFound(points, y, 0);
    }
  }

  // Of the values that a segment is the first to have, the one furthest from its start.
  ghost predicate FurthestFirst(points: seq<Point>, k: nat, y: int) {
    && FirstCovers(points, k, y)
    && forall z :: FirstCovers(points, k, z) ==> Abs(z - points[k].y) <= Abs(y - points[k].y)
  }

  lemma {:induction false} HasFurthest(points: seq<Point>, k: nat, y: int) returns (far: int)
    requires FirstCovers(points, k, y)
    ensures FurthestFirst(points, k, far)
    decreases Abs(points[k + 1].y - points[k].y) - Abs(y - points[k].y)
  {
    if FurthestFirst(points, k, y) {
      far := y;
    } else {
      var z :| FirstCovers(points, k, z) && Abs(z - points[k].y) > Abs(y - points[k].y);
      far := HasFurthest(points, k, z);
    }
  }

  // Its product is the largest.
  lemma FurthestFits(points: seq<Point>, k: nat, y: int, far: int)
    requires Table32(points) && FirstCovers(points, k, y) && FurthestFirst(points, k, far)
    requires FitsXAt(points[k], points[k + 1], far)
    ensures FitsXAt(points[k], points[k + 1], y)
  {
    var p, q := points[k], points[k + 1];
    ProductFits(y - p.y, q.x - p.x, far - p.y, q.x - p.x);
  }

  // get_x in int32_t is right for every y exactly when each segment fits at the furthest of its values that no earlier
  // segment has: one product for each segment, in any table.
  lemma FitsXOnAnyTable(points: seq<Point>)
    requires Table32(points)
    ensures (forall y :: Is32(y) ==> X32(points, y) == Exact(XAt(points, y))) <==>
      forall k: nat, y :: FurthestFirst(points, k, y) ==> FitsXAt(points[k], points[k + 1], y)
  {
    forall y ensures X32(points, y) == Exact(XAt(points, y)) <==>
      forall k: nat :: FirstCovers(points, k, y) ==> FitsXAt(points[k], points[k + 1], y)
    {
      X32ExactlyAt(points, y);
    }
    assert forall k: nat, y :: FirstCovers(points, k, y) ==> Is32(y);
    if forall k: nat, y :: FurthestFirst(points, k, y) ==> FitsXAt(points[k], points[k + 1], y) {
      forall k: nat, y | FirstCovers(points, k, y) ensures FitsXAt(points[k], points[k + 1], y) {
        var far := HasFurthest(points, k, y);
        FurthestFits(points, k, y, far);
      }
    }
  }

  // The way out and back in int32_t, on a table that fits both ways.
  lemma InverseErrorBound32(points: seq<Point>, y: int, a: nat, b: nat) returns (k: nat)
    requires Table32(points) && AllFitY(points) && AllFitX(points)
    requires a < |points| && b < |points| && points[a].y <= y < points[b].y
    ensures Covers(points, k, y) && X32(points, y).Exact? && Y32(points, X32(points, y).value).Exact?
    ensures var back, start := Y32(points, X32(points, y).value).value, points[k].y;
            && Min(start, y) <= back <= Max(start, y)
            && Abs(y - back) <= CeilDiv(Abs(points[k + 1].y - start) - 1, points[k + 1].x - points[k].x)
  {
    k := InverseErrorBound(points, y, a, b);
    X32Exact(points, y);
    Y32Exact(points, XAt(points, y));
  }

  // Whatever get_x answers is zero or among the knots.
  lemma XWithin(points: seq<Point>, y: int, i: nat, low: int, high: int)
    requires StrictX(points) && i < |points| && low <= 0 <= high
    requires forall k :: 0 <= k < |points| ==> low <= points[k].x <= high
    ensures low <= ScanX(points, y, i) <= high
    decreases |points| - i
  {
    if i + 1 < |points| {
      if Covers(points, i, y) {
        var p, q := points[i], points[i + 1];
        InverseSteps(p, q, y);
        FirstTruncation(Abs(y - p.y), Abs(q.y - p.y), q.x - p.x);
      } else {
        XWithin(points, y, i + 1, low, high);
      }
    }
  }

  // The default curve of the fuel sensor: from hundredths of a percent to its resistance in milliohms.
  const DEFAULT_INPUT: seq<Point> :=
    [Point(-1000, 120000), Point(-100, 87000), Point(500, 80600), Point(2500, 61800), Point(4800, 35700),
     Point(7700, 21000), Point(10000, 11800), Point(11000, 2400), Point(11500, 0)]

  // And that of the display, to millivolts.
  const DEFAULT_OUTPUT: seq<Point> :=
    [Point(-1000, 5000), Point(0, 5000), Point(100, 4800), Point(714, 4500), Point(2143, 4100), Point(4286, 3300),
     Point(6429, 2240), Point(9286, 1100), Point(10000, 700), Point(11000, 700)]

  // Ascending knots and steps from one to the next that are small enough for any product, checked knot by knot.
  predicate GoodTable(points: seq<Point>) {
    |points| > 0 ==>
      var p := points[0];
      && Is32(p.x) && Is32(p.y)
      && (|points| > 1 ==> 0 < points[1].x - p.x <= 46340 && -46340 <= points[1].y - p.y <= 46340)
      && GoodTable(points[1..])
  }

  lemma SmallProduct(a: int, b: nat)
    requires -46340 <= a <= 46340 && b <= 46340
    ensures Is32(a * b)
  {
    ProductAtMost(Abs(a), b, 46340);
    SignedProduct(a, b);
  }

  lemma SmallStepsFit(p: Point, q: Point)
    requires 0 < q.x - p.x <= 46340 && -46340 <= q.y - p.y <= 46340
    ensures FitsY(p, q) && FitsX(p, q)
  {
    SmallProduct(q.y - p.y, q.x - p.x - 1);
    SmallProduct(if q.y > p.y then q.y - p.y - 1 else q.y - p.y, q.x - p.x);
  }

  lemma {:induction false} GoodTableFits(points: seq<Point>)
    requires GoodTable(points)
    ensures Table32(points) && AllFitY(points) && AllFitX(points)
  {
    if |points| > 1 {
      var rest := points[1..];
      GoodTableFits(rest);
      assert points == [points[0]] + rest;
      forall j | 0 < j < |points| ensures points[0].x < points[j].x {
        assert rest[j - 1] == points[j] && (j > 1 ==> rest[0].x < rest[j - 1].x);
      }
      forall k | 0 <= k < |points| - 1 ensures FitsY(points[k], points[k + 1]) && FitsX(points[k], points[k + 1]) {
        if k > 0 { assert FitsY(rest[k - 1], rest[k]) && FitsX(rest[k - 1], rest[k]); }
        else { SmallStepsFit(points[0], points[1]); }
      }
    }
  }

  lemma DefaultInputFits()
    ensures GoodTable(DEFAULT_INPUT)
  {
  }

  lemma DefaultOutputFits()
    ensures GoodTable(DEFAULT_OUTPUT)
  {
  }

  // Both are computed in int32_t without overflow, whatever is looked up.
  lemma DefaultCurvesExact(x: int, y: int)
    ensures Y32(DEFAULT_INPUT, x) == Exact(YAt(DEFAULT_INPUT, x))
    ensures X32(DEFAULT_INPUT, y) == Exact(XAt(DEFAULT_INPUT, y))
    ensures Y32(DEFAULT_OUTPUT, x) == Exact(YAt(DEFAULT_OUTPUT, x))
    ensures X32(DEFAULT_OUTPUT, y) == Exact(XAt(DEFAULT_OUTPUT, y))
  {
    DefaultInputFits();
    DefaultOutputFits();
    GoodTableFits(DEFAULT_INPUT);
    GoodTableFits(DEFAULT_OUTPUT);
    Y32Exact(DEFAULT_INPUT, x);
    X32Exact(DEFAULT_INPUT, y);
    Y32Exact(DEFAULT_OUTPUT, x);
    X32Exact(DEFAULT_OUTPUT, y);
  }

  lemma DefaultPercentages(y: int)
    ensures -1000 <= XAt(DEFAULT_INPUT, y) <= 11500
  {
    DefaultInputFits();
    GoodTableFits(DEFAULT_INPUT);
    XWithin(DEFAULT_INPUT, y, 0, -1000, 11500);
  }

  // A flat segment can be too wide for get_y, which forms its width before anything else.
  lemma WideFlatOverflows()
    ensures var points := [Point(-0x8000_0000, 0), Point(0x7fff_ffff, 0)];
            Table32(points) && AllFitX(points) && Y32(points, 0) == Overflow && YAt(points, 0) == 0
  {
  }
}
