/** The averages of the fuel gauge: outliers removed one by one, and the weighted mean. */
module Averaging {
  import opened Arithmetic

  const MINIMUM_READINGS := 3
  const READINGS_MAX_DISTANCE := 300

  // An average goes with its weight.
  datatype Average = Average(value: int, weight: int)

  // An average and the spread of the values it was taken of.
  datatype Filtered = Filtered(average: int, spread: int)

  function Sum(s: seq<int>): int {
    if s == [] then 0 else Sum(s[..|s| - 1]) + s[|s| - 1]
  }

  // get_average
  function Mean(s: seq<int>): int {
    if s == [] then 0 else Quot(Sum(s), |s|)
  }

  function Highest(s: seq<int>): int
    requires s != []
  {
    if |s| == 1 then s[0] else Max(Highest(s[..|s| - 1]), s[|s| - 1])
  }

  // The first index whose value is furthest from the average.
  function Outlier(s: seq<int>, average: int): (k: nat)
    ensures s != [] ==> k < |s|
  {
    if |s| <= 1 then 0
    else
      var k := Outlier(s[..|s| - 1], average);
      if Abs(average - s[|s| - 1]) > Abs(average - s[k]) then |s| - 1 else k
  }

  // The gap of filter_outliers_by_max_deviation. Its minimum is taken of the maximum so far and the current value, so
  // after the pass it is the last value.
  function Gap(s: seq<int>): int
    requires s != []
  {
    Highest(s) - s[|s| - 1]
  }

  // The last value takes the place of the k-th.
  function Without(s: seq<int>, k: nat): (r: seq<int>)
    requires k < |s|
    ensures |r| == |s| - 1
  {
    s[k := s[|s| - 1]][..|s| - 1]
  }

  // What filter_outliers_by_max_deviation goes on to do with the values it has left and the gap of its last pass.
  function FilterFrom(s: seq<int>, gap: int): Filtered
    decreases |s|
  {
    if |s| <= MINIMUM_READINGS then Filtered(Mean(s), gap)
    else if Gap(s) < READINGS_MAX_DISTANCE then Filtered(Mean(s), Gap(s))
    else FilterFrom(Without(s, Outlier(s, Mean(s))), Gap(s))
  }

  function Filter(s: seq<int>): Filtered {
    FilterFrom(s, 0)
  }

  function WeightedSum(s: seq<Average>): int {
    if s == [] then 0 else WeightedSum(s[..|s| - 1]) + s[|s| - 1].weight * s[|s| - 1].value
  }

  function Weights(s: seq<Average>): int {
    if s == [] then 0 else Weights(s[..|s| - 1]) + s[|s| - 1].weight
  }

  // get_weighted_average
  function Weighted(s: seq<Average>): int {
    if Weights(s) == 0 then WeightedSum(s) else Quot(WeightedSum(s), Weights(s))
  }

  // ----- the loops

  lemma Prefixes<T>(s: seq<T>, i: nat)
    requires i < |s|
    ensures s[..i + 1][..i] == s[..i] && s[..i + 1][i] == s[i]
  {
  }

  method GetAverage(data: seq<int>) returns (average: int)
    ensures average == Mean(data)
  {
    average := 0;
    for i := 0 to |data|
      invariant average == Sum(data[..i])
    {
      Prefixes(data, i);
      average := average + data[i];
    }
    assert data[..|data|] == data;
    if |data| != 0 {
      average := Quot(average, |data|);
    }
  }

  // One pass over the values: the gap, and the value furthest from the average.
  method Pass(data: seq<int>, average: int) returns (gap: int, index: nat)
    requires data != []
    ensures gap == Gap(data) && index == Outlier(data, average)
  {
    var min, max, maxDeviation := data[0], data[0], 0;
    index := 0;
    for i := 0 to |data|
      invariant i == 0 ==> index == 0 && max == data[0] && maxDeviation == 0
      invariant i > 0 ==> max == Highest(data[..i]) && min == data[i - 1] && index == Outlier(data[..i], average)
      invariant i > 0 ==> maxDeviation == Abs(average - data[index])
    {
      Prefixes(data, i);
      max := Max(max, data[i]);
      min := Min(max, data[i]);
      var deviation := Abs(average - data[i]);
      if deviation > maxDeviation {
        maxDeviation, index := deviation, i;
      }
    }
    assert data[..|data|] == data;
    gap := max - min;
  }

  method FilterOutliers(input: seq<int>) returns (average: int, gap: int)
    ensures Filtered(average, gap) == Filter(input)
  {
    var data := input;
    average := GetAverage(data);
    gap := 0;
    while |data| > MINIMUM_READINGS
      invariant average == Mean(data) && FilterFrom(data, gap) == Filter(input)
      decreases |data|
    {
      var index;
      gap, index := Pass(data, average);
      if gap < READINGS_MAX_DISTANCE {
        break;
      }
      data := data[index := data[|data| - 1]];
      data := data[..|data| - 1];
      average := GetAverage(data);
    }
  }

  method GetWeightedAverage(data: seq<Average>) returns (average: int)
    ensures average == Weighted(data)
  {
    var sumOfWeightedValues, sumOfWeights := 0, 0;
    for i := 0 to |data|
      invariant sumOfWeightedValues == WeightedSum(data[..i]) && sumOfWeights == Weights(data[..i])
    {
      Prefixes(data, i);
      sumOfWeightedValues := sumOfWeightedValues + data[i].weight * data[i].value;
      sumOfWeights := sumOfWeights + data[i].weight;
    }
    assert data[..|data|] == data;
    if sumOfWeights == 0 {
      return sumOfWeightedValues;
    }
    return Quot(sumOfWeightedValues, sumOfWeights);
  }

  // ----- averages lie between what they are taken of

  ghost predicate Within(s: seq<int>, low: int, high: int) {
    forall i :: 0 <= i < |s| ==> low <= s[i] <= high
  }

  lemma Factor(k: int, d: int)
    requires k * d > -d && d > 0
    ensures k >= 0
  {
  }

  lemma QuotWithin(n: int, d: int, low: int, high: int)
    requires d > 0 && low * d <= n <= high * d
    ensures low <= Quot(n, d) <= high
  {
    var q := Quot(n, d);
    assert -d < n - q * d < d && (n >= 0 ==> q * d <= n) && (n <= 0 ==> q * d >= n);
    assert (high - q) * d == high * d - q * d && (q - low) * d == q * d - low * d;
    Factor(high - q, d);
    Factor(q - low, d);
  }

  lemma {:induction false} SumWithin(s: seq<int>, low: int, high: int)
    requires Within(s, low, high)
    ensures low * |s| <= Sum(s) <= high * |s|
  {
    if s != [] {
      var n := |s| - 1;
      SumWithin(s[..n], low, high);
      assert low * |s| == low * n + low && high * |s| == high * n + high;
    }
  }

  lemma MeanWithin(s: seq<int>, low: int, high: int)
    requires s != [] && Within(s, low, high)
    ensures low <= Mean(s) <= high
  {
    SumWithin(s, low, high);
    QuotWithin(Sum(s), |s|, low, high);
  }

  lemma {:induction false} HighestSays(s: seq<int>)
    requires s != []
    ensures forall i :: 0 <= i < |s| ==> s[i] <= Highest(s)
    ensures exists i :: 0 <= i < |s| && s[i] == Highest(s)
  {
    if |s| == 1 {
      assert s[0] == Highest(s);
    } else {
      var n := |s| - 1;
      HighestSays(s[..n]);
      var k :| 0 <= k < n && s[..n][k] == Highest(s[..n]);
      assert s[if s[n] > s[k] then n else k] == Highest(s);
      forall i | 0 <= i < |s| ensures s[i] <= Highest(s) {
        if i < n { assert s[i] == s[..n][i]; }
      }
    }
  }

  // The average lies between the readings, its gap is no more than their spread, and it is never negative.
  lemma {:induction false} FilterWithin(s: seq<int>, gap: int, low: int, high: int)
    requires s != [] && Within(s, low, high) && 0 <= gap <= high - low
    ensures low <= FilterFrom(s, gap).average <= high && 0 <= FilterFrom(s, gap).spread <= high - low
    decreases |s|
  {
    MeanWithin(s, low, high);
    HighestSays(s);
    if |s| > MINIMUM_READINGS && Gap(s) >= READINGS_MAX_DISTANCE {
      FilterWithin(Without(s, Outlier(s, Mean(s))), Gap(s), low, high);
    }
  }

  ghost predicate WeightedWithin(s: seq<Average>, low: int, high: int) {
    forall i :: 0 <= i < |s| ==> low <= s[i].value <= high && s[i].weight > 0
  }

  lemma ProductWithin(weight: int, value: int, low: int, high: int)
    requires weight > 0 && low <= value <= high
    ensures low * weight <= weight * value <= high * weight
  {
    assert weight * (value - low) >= 0 && weight * (high - value) >= 0;
    assert weight * (value - low) == weight * value - low * weight;
    assert weight * (high - value) == high * weight - weight * value;
  }

  lemma Distributes(k: int, a: int, b: int)
    ensures k * (a + b) == k * a + k * b
  {
  }

  lemma {:induction false} WeightedSumWithin(s: seq<Average>, low: int, high: int)
    requires WeightedWithin(s, low, high)
    ensures low * Weights(s) <= WeightedSum(s) <= high * Weights(s)
    ensures if s == [] then Weights(s) == 0 else Weights(s) > 0
  {
    if s != [] {
      var n := |s| - 1;
      WeightedSumWithin(s[..n], low, high);
      ProductWithin(s[n].weight, s[n].value, low, high);
      Distributes(low, Weights(s[..n]), s[n].weight);
      Distributes(high, Weights(s[..n]), s[n].weight);
    }
  }

  // The weighted average lies between the averages.
  lemma WeightedBetween(s: seq<Average>, low: int, high: int)
    requires s != [] && WeightedWithin(s, low, high)
    ensures low <= Weighted(s) <= high
  {
    WeightedSumWithin(s, low, high);
    QuotWithin(WeightedSum(s), Weights(s), low, high);
  }

  // ----- what the filter keeps, and whether its gap is the spread of that

  function Kept(s: seq<int>): (r: seq<int>)
    ensures s != [] ==> r != []
    decreases |s|
  {
    if |s| <= MINIMUM_READINGS || Gap(s) < READINGS_MAX_DISTANCE then s
    else Kept(Without(s, Outlier(s, Mean(s))))
  }

  lemma WithoutIsRemoval(s: seq<int>, k: nat)
    requires k < |s|
    ensures multiset(Without(s, k)) == multiset(s) - multiset{s[k]}
  {
    var n := |s| - 1;
    if k < n {
      WithoutMiddle(s, k);
      SameValues(s[..k], s[k], s[k + 1..n], s[n]);
    } else {
      assert Without(s, k) == s[..n] && s == s[..n] + [s[n]];
    }
  }

  lemma WithoutMiddle(s: seq<int>, k: nat)
    requires k < |s| - 1
    ensures var n := |s| - 1;
            Without(s, k) == s[..k] + [s[n]] + s[k + 1..n] && s == s[..k] + [s[k]] + s[k + 1..n] + [s[n]]
  {
  }

  lemma SameValues(front: seq<int>, x: int, middle: seq<int>, last: int)
    ensures multiset(front + [last] + middle) == multiset(front + [x] + middle + [last]) - multiset{x}
  {
  }

  // The filter answers the mean of some of the readings, all but the outliers. When more than the minimum are left the
  // gap is below the limit.
  lemma {:induction false} KeptSays(s: seq<int>, gap: int)
    ensures FilterFrom(s, gap).average == Mean(Kept(s))
    ensures multiset(Kept(s)) <= multiset(s)
    ensures |Kept(s)| >= if |s| < MINIMUM_READINGS then |s| else MINIMUM_READINGS
    ensures |Kept(s)| > MINIMUM_READINGS ==>
      FilterFrom(s, gap).spread == Gap(Kept(s)) < READINGS_MAX_DISTANCE
    decreases |s|
  {
    if |s| > MINIMUM_READINGS && Gap(s) >= READINGS_MAX_DISTANCE {
      var k := Outlier(s, Mean(s));
      WithoutIsRemoval(s, k);
      KeptSays(Without(s, k), Gap(s));
    }
  }

  // What is removed is a reading furthest from the average, the first of them.
  lemma {:induction false} OutlierSays(s: seq<int>, average: int)
    requires s != []
    ensures var k := Outlier(s, average);
            && (forall i :: 0 <= i < |s| ==> Abs(average - s[i]) <= Abs(average - s[k]))
            && (forall i :: 0 <= i < k ==> Abs(average - s[i]) < Abs(average - s[k]))
  {
    if |s| > 1 {
      var n := |s| - 1;
      OutlierSays(s[..n], average);
      assert forall i :: 0 <= i < n ==> s[i] == s[..n][i];
    }
  }

  function Lowest(s: seq<int>): int
    requires s != []
  {
    if |s| == 1 then s[0] else Min(Lowest(s[..|s| - 1]), s[|s| - 1])
  }

  function Spread(s: seq<int>): int
    requires s != []
  {
    Highest(s) - Lowest(s)
  }

  lemma {:induction false} LowestSays(s: seq<int>)
    requires s != []
    ensures forall i :: 0 <= i < |s| ==> Lowest(s) <= s[i]
  {
    if |s| > 1 {
      var n := |s| - 1;
      LowestSays(s[..n]);
      forall i | 0 <= i < |s| ensures Lowest(s) <= s[i] {
        if i < n { assert s[i] == s[..n][i]; }
      }
    }
  }

  // Whether the gap will be the spread of the readings that are averaged, as far as one can tell before the call. Up
  // to three readings it is zero; a pass that removes nothing measures from the last of them; and a pass that leaves
  // three is the last one, so its gap is still that of the four.
  ghost predicate SpreadRight(s: seq<int>)
    requires s != []
    decreases |s|
  {
    if |s| <= MINIMUM_READINGS then Lowest(s) == Highest(s)
    else if Gap(s) < READINGS_MAX_DISTANCE then s[|s| - 1] == Lowest(s)
    else
      var rest := Without(s, Outlier(s, Mean(s)));
      if |rest| == MINIMUM_READINGS then Gap(s) == Spread(rest) else SpreadRight(rest)
  }

  // For any readings, the filter answers the spread of those it averages exactly then.
  lemma {:induction false} SpreadExactlyFrom(s: seq<int>, gap: int)
    requires s != [] && (|s| > MINIMUM_READINGS || gap == 0)
    ensures FilterFrom(s, gap).spread == Spread(Kept(s)) <==> SpreadRight(s)
    decreases |s|
  {
    LowestSays(s);
    HighestSays(s);
    if |s| > MINIMUM_READINGS && Gap(s) >= READINGS_MAX_DISTANCE {
      var rest := Without(s, Outlier(s, Mean(s)));
      if |rest| > MINIMUM_READINGS {
        SpreadExactlyFrom(rest, Gap(s));
      }
    }
  }

  lemma SpreadExactly(s: seq<int>)
    requires s != []
    ensures Filter(s).spread == Spread(Kept(s)) <==> SpreadRight(s)
  {
    SpreadExactlyFrom(s, 0);
  }

  // It answers less in the first two cases only: with three readings or fewer, or with more than three left.
  lemma SpreadNotMore(s: seq<int>)
    requires s != [] && (|s| <= MINIMUM_READINGS || |Kept(s)| > MINIMUM_READINGS)
    ensures Filter(s).spread <= Spread(Kept(s))
  {
    KeptSays(s, 0);
    LowestSays(Kept(s));
    HighestSays(Kept(s));
  }

  // With three left of more the gap is that of four readings, one of them thrown away since, and at the limit or above.
  lemma {:induction false} StaleGap(s: seq<int>, gap: int) returns (four: seq<int>)
    requires |s| > MINIMUM_READINGS == |Kept(s)|
    ensures |four| == MINIMUM_READINGS + 1 && multiset(four) <= multiset(s)
    ensures Kept(s) == Without(four, Outlier(four, Mean(four)))
    ensures FilterFrom(s, gap).spread == Gap(four) >= READINGS_MAX_DISTANCE
    decreases |s|
  {
    var k := Outlier(s, Mean(s));
    if |s| == MINIMUM_READINGS + 1 {
      four := s;
    } else {
      WithoutIsRemoval(s, k);
      four := StaleGap(Without(s, k), Gap(s));
    }
  }

  // Readings of which the last is the highest pass as if they were all the same, however far apart they are.
  lemma HighestLastPasses(s: seq<int>)
    requires |s| > MINIMUM_READINGS
    ensures Kept(s) == s && Filter(s).spread == 0 <==> s[|s| - 1] == Highest(s)
  {
    KeptSays(s, 0);
    if Gap(s) == 0 {
      assert Kept(s) == s;
    }
  }

  // Four readings from 0 to 90 percent, the last the highest.
  lemma RisingLooksEqual()
    ensures var s := [0, 3000, 6000, 9000]; Kept(s) == s && Filter(s) == Filtered(4500, 0) && Spread(s) == 9000
  {
    FourReadings(0, 3000, 6000, 9000);
  }

  // Three equal readings are left and their gap is a thousand.
  lemma StaleGapTooLarge()
    ensures var s := [1000, 0, 0, 0]; Kept(s) == [0, 0, 0] && Filter(s) == Filtered(0, 1000) && Spread(Kept(s)) == 0
  {
    var s := [1000, 0, 0, 0];
    FourReadings(1000, 0, 0, 0);
    FirstIsOutlier(1000, 0, 0, 0, 250);
    assert Without(s, 0) == [0, 0, 0];
    ThreeReadings(0, 0, 0);
  }

  // Three readings far apart are left and their gap is small.
  lemma StaleGapTooSmall()
    ensures var s := [0, 3000, 6400, 6000];
            Kept(s) == [6000, 3000, 6400] && Filter(s) == Filtered(5133, 400) && Spread(Kept(s)) == 3400
  {
    var s := [0, 3000, 6400, 6000];
    FourReadings(0, 3000, 6400, 6000);
    FirstIsOutlier(0, 3000, 6400, 6000, 3850);
    assert Without(s, 0) == [6000, 3000, 6400];
    ThreeReadings(6000, 3000, 6400);
  }

  lemma ThreeReadings(a: int, b: int, c: int)
    ensures var s := [a, b, c];
            && Sum(s) == a + b + c && Highest(s) == Max(Max(a, b), c) && Lowest(s) == Min(Min(a, b), c)
  {
    var s := [a, b, c];
    assert s[..2] == [a, b] && [a, b][..1] == [a] && [a][..0] == [];
    assert Sum([a]) == a && Sum([a, b]) == a + b;
    assert Highest([a, b]) == Max(a, b) && Lowest([a, b]) == Min(a, b);
  }

  lemma FourReadings(a: int, b: int, c: int, d: int)
    ensures var s := [a, b, c, d];
            && Sum(s) == a + b + c + d && Highest(s) == Max(Max(Max(a, b), c), d)
            && Lowest(s) == Min(Min(Min(a, b), c), d)
  {
    assert [a, b, c, d][..3] == [a, b, c];
    ThreeReadings(a, b, c);
  }

  lemma FirstIsOutlier(a: int, b: int, c: int, d: int, average: int)
    requires Abs(average - a) >= Max(Max(Abs(average - b), Abs(average - c)), Abs(average - d))
    ensures Outlier([a, b, c, d], average) == 0
  {
    assert [a, b, c, d][..3] == [a, b, c] && [a, b, c][..2] == [a, b] && [a, b][..1] == [a];
    assert Outlier([a, b], average) == 0 && Outlier([a, b, c], average) == 0;
  }

  function ValuesOf(s: seq<Average>): seq<int> {
    seq(|s|, i requires 0 <= i < |s| => s[i].value)
  }

  ghost predicate AllWeigh(s: seq<Average>, weight: int) {
    forall i :: 0 <= i < |s| ==> s[i].weight == weight
  }

  lemma {:induction false} EqualWeightedSum(s: seq<Average>, weight: int)
    requires AllWeigh(s, weight)
    ensures WeightedSum(s) == weight * Sum(ValuesOf(s)) && Weights(s) == weight * |s|
  {
    if s != [] {
      var n := |s| - 1;
      EqualWeightedSum(s[..n], weight);
      assert ValuesOf(s)[..n] == ValuesOf(s[..n]);
      Distributes(weight, Sum(ValuesOf(s[..n])), s[n].value);
      Distributes(weight, n, 1);
    }
  }

  lemma QuotScaled(n: int, d: int, w: int)
    requires d > 0 && w > 0
    ensures w * d > 0 && Quot(w * n, w * d) == Quot(n, d)
  {
    var q, rest := QuotParts(n, d);
    ScaledRest(rest, d, w);
    ScaledParts(q, d, rest, w);
    QuotUnique(w * n, w * d, q, w * rest);
  }

  lemma QuotParts(n: int, d: int) returns (q: int, rest: int)
    requires d > 0
    ensures q == Quot(n, d) && n == q * d + rest && -d < rest < d
    ensures (n >= 0 ==> rest >= 0) && (n <= 0 ==> rest <= 0)
  {
    q := Quot(n, d);
    rest := n - q * d;
  }

  lemma ScaledParts(q: int, d: int, rest: int, w: int)
    requires w > 0
    ensures w * (q * d + rest) == q * (w * d) + w * rest
    ensures d > 0 ==> w * d > 0
  {
    Distributes(w, q * d, rest);
    assert w * (q * d) == q * (w * d);
  }

  lemma ScaledRest(rest: int, d: int, w: int)
    requires w > 0 && -d < rest < d
    ensures -(w * d) < w * rest < w * d && (rest >= 0 ==> w * rest >= 0) && (rest <= 0 ==> w * rest <= 0)
  {
    assert w * (d - rest) > 0 && w * (rest + d) > 0;
    assert w * (d - rest) == w * d - w * rest && w * (rest + d) == w * rest + w * d;
  }

  lemma QuotUnique(n: int, d: int, q: int, rest: int)
    requires d > 0 && n == q * d + rest && -d < rest < d
    requires (n > 0 ==> rest >= 0) && (n < 0 ==> rest <= 0) && (n == 0 ==> rest == 0)
    ensures Quot(n, d) == q
  {
    var p, left := QuotParts(n, d);
    assert (p - q) * d == rest - left && (q - p) * d == left - rest;
    Factor(p - q, d);
    Factor(q - p, d);
  }

  // n averages of weight one.
  function Copies(value: int, n: nat): seq<Average> {
    if n == 0 then [] else Copies(value, n - 1) + [Average(value, 1)]
  }

  lemma {:induction false} CopiesWeigh(s: seq<Average>, value: int, n: nat)
    ensures WeightedSum(s + Copies(value, n)) == WeightedSum(s) + Times(n, value)
    ensures Weights(s + Copies(value, n)) == Weights(s) + n
  {
    if n == 0 {
      assert s + [] == s;
    } else {
      var r := s + Copies(value, n - 1);
      CopiesWeigh(s, value, n - 1);
      assert s + Copies(value, n) == r + [Average(value, 1)];
      OneCopy(r, value);
    }
  }

  lemma OneCopy(s: seq<Average>, value: int)
    ensures WeightedSum(s + [Average(value, 1)]) == WeightedSum(s) + value
    ensures Weights(s + [Average(value, 1)]) == Weights(s) + 1
  {
    OneMore(s, Average(value, 1));
  }

  // n * value, as a sum.
  function Times(n: nat, value: int): int {
    if n == 0 then 0 else Times(n - 1, value) + value
  }

  lemma {:induction false} TimesIsProduct(n: nat, value: int)
    ensures Times(n, value) == n * value
  {
    if n > 0 {
      TimesIsProduct(n - 1, value);
      Distributes(value, n - 1, 1);
    }
  }

  lemma OneMore(s: seq<Average>, a: Average)
    ensures WeightedSum(s + [a]) == WeightedSum(s) + a.weight * a.value && Weights(s + [a]) == Weights(s) + a.weight
  {
    assert (s + [a])[..|s|] == s;
  }

  // An average counts as often as its weight says: replacing it by so many of weight one changes nothing.
  lemma WeightIsRepetition(s: seq<Average>, a: Average)
    requires a.weight >= 0
    ensures Weighted(s + [a]) == Weighted(s + Copies(a.value, a.weight))
  {
    OneMore(s, a);
    CopiesWeigh(s, a.value, a.weight);
    TimesIsProduct(a.weight, a.value);
  }

  // With equal weights the weighted average is the mean.
  lemma EqualWeightsMean(s: seq<Average>, weight: int)
    requires weight > 0 && s != [] && AllWeigh(s, weight)
    ensures Weighted(s) == Quot(Sum(ValuesOf(s)), |s|)
  {
    EqualWeightedSum(s, weight);
    QuotScaled(Sum(ValuesOf(s)), |s|, weight);
  }
}
