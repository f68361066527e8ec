/**
 What runs of the fuel gauge do with its buffers and counters: which readings and averages it works with, when it
 reports a loss, how it forgets, and that after an error it shows what it reads.
 */
module FuelGaugeRuns {
  import opened Arithmetic
  import opened Averaging
  import opened FuelGauge

  // ----- which readings and averages it works with

  // The percentages among the readings, in order.
  function PercentageOf(reading: Reading): seq<int> {
    if reading.Percentage? then [reading.value] else []
  }

  function Percentages(readings: seq<Reading>): seq<int> {
    if readings == [] then [] else PercentageOf(readings[0]) + Percentages(readings[1..])
  }

  // The averages made in a run, each of ten readings and with the square of what its gap leaves of a hundred percent
  // as its weight.
  function MadeBy(g: Gauge, reading: Reading, a: Algorithms): seq<Average> {
    var taken := TakeReading(g, reading);
    var f := a.filter(taken.raw);
    if HasNewAverage(taken, a) then [Average(f.average, (10000 - f.spread) * (10000 - f.spread))] else []
  }

  function Made(g: Gauge, readings: seq<Reading>, a: Algorithms): seq<Average>
    decreases |readings|
  {
    if readings == [] then [] else MadeBy(g, readings[0], a) + Made(Cycle(g, readings[0], a), readings[1..], a)
  }

  function Last<T>(s: seq<T>, n: nat): seq<T> {
    if |s| <= n then s else s[|s| - n..]
  }

  ghost predicate Newest<T>(part: seq<T>, all: seq<T>) {
    |part| <= |all| && part == all[|all| - |part|..]
  }

  lemma NewestAgain<T>(part: seq<T>, all: seq<T>, more: seq<T>)
    requires Newest(part, all)
    ensures Newest(part + more, all + more) && Newest([], all + more)
    ensures part + more != [] ==> Newest((part + more)[1..], all + more)
  {
  }

  lemma LastAgain<T>(all: seq<T>, n: nat, x: T)
    requires n > 0
    ensures Last(all + [x], n) == Last(Last(all, n) + [x], n)
  {
  }

  // What one cycle does to the two buffers.
  lemma CycleBuffers(g: Gauge, reading: Reading, a: Algorithms)
    requires |g.averages| < NUM_OF_AVERAGES
    ensures var r, taken := Cycle(g, reading, a), g.raw + PercentageOf(reading);
            && (r.raw == taken || r.raw == [] || (taken != [] && r.raw == taken[1..]))
            && r.averages == Last(g.averages + MadeBy(g, reading, a), NUM_OF_AVERAGES - 1)
  {
    var taken := TakeReading(g, reading);
    var averaged := Averaged(taken, a);
    assert taken.raw == g.raw + PercentageOf(reading);
    SwitchedBuffers(averaged, HasNewAverage(taken, a), Shown(averaged, a), a.weighted(averaged.averages));
    if HasNewAverage(taken, a) {
      assert averaged == PushAverage(taken, a.filter(taken.raw));
    } else {
      assert averaged.averages == g.averages && g.averages + [] == g.averages;
    }
  }

  lemma {:induction false} ReadingsOfRun(g: Gauge, readings: seq<Reading>, a: Algorithms, all: seq<int>)
    requires Newest(g.raw, all) && |g.averages| < NUM_OF_AVERAGES
    ensures Newest(Run(g, readings, a).raw, all + Percentages(readings))
    decreases |readings|
  {
    if readings == [] {
      assert all + [] == all;
    } else {
      var first, rest := PercentageOf(readings[0]), Percentages(readings[1..]);
      ReadingsStep(g, readings[0], a, all);
      ReadingsOfRun(Cycle(g, readings[0], a), readings[1..], a, all + first);
      Regrouped(all, first, rest);
    }
  }

  lemma ReadingsStep(g: Gauge, reading: Reading, a: Algorithms, all: seq<int>)
    requires Newest(g.raw, all) && |g.averages| < NUM_OF_AVERAGES
    ensures Newest(Cycle(g, reading, a).raw, all + PercentageOf(reading))
    ensures |Cycle(g, reading, a).averages| < NUM_OF_AVERAGES
  {
    CycleBuffers(g, reading, a);
    NewestAgain(g.raw, all, PercentageOf(reading));
  }

  lemma Regrouped<T>(x: seq<T>, y: seq<T>, z: seq<T>)
    ensures x + (y + z) == x + y + z
  {
  }

  lemma {:induction false} AveragesOfRun(g: Gauge, readings: seq<Reading>, a: Algorithms, made: seq<Average>)
    requires g.averages == Last(made, NUM_OF_AVERAGES - 1)
    ensures Run(g, readings, a).averages == Last(made + Made(g, readings, a), NUM_OF_AVERAGES - 1)
    decreases |readings|
  {
    if readings == [] {
      assert made + [] == made;
    } else {
      var next := Cycle(g, readings[0], a);
      var first, rest := MadeBy(g, readings[0], a), Made(next, readings[1..], a);
      AveragesStep(g, readings[0], a, made);
      AveragesOfRun(next, readings[1..], a, made + first);
      Regrouped(made, first, rest);
    }
  }

  lemma AveragesStep(g: Gauge, reading: Reading, a: Algorithms, made: seq<Average>)
    requires g.averages == Last(made, NUM_OF_AVERAGES - 1)
    ensures Cycle(g, reading, a).averages == Last(made + MadeBy(g, reading, a), NUM_OF_AVERAGES - 1)
  {
    CycleBuffers(g, reading, a);
    LastOnce(made, g.averages, MadeBy(g, reading, a));
  }

  lemma LastOnce(made: seq<Average>, kept: seq<Average>, more: seq<Average>)
    requires kept == Last(made, NUM_OF_AVERAGES - 1) && |more| <= 1
    ensures Last(kept + more, NUM_OF_AVERAGES - 1) == Last(made + more, NUM_OF_AVERAGES - 1)
  {
    if more == [] {
      assert made + more == made && kept + more == kept;
    } else {
      LastAgain(made, NUM_OF_AVERAGES - 1, more[0]);
      assert more == [more[0]];
    }
  }

  // In every run from the start: the averages are the last nine made, and the readings kept are the newest.
  lemma NewestAreKept(readings: seq<Reading>, a: Algorithms)
    ensures Run(Created(), readings, a).averages == Last(Made(Created(), readings, a), 9)
    ensures Newest(Run(Created(), readings, a).raw, Percentages(readings))
  {
    ReadingsOfRun(Created(), readings, a, []);
    AveragesOfRun(Created(), readings, a, []);
    assert [] + Percentages(readings) == Percentages(readings);
    assert [] + Made(Created(), readings, a) == Made(Created(), readings, a);
  }

  // ----- losses, and forgetting

  // What a new average does to the counters: one of the two is counted up, or both are counted down by two.
  predicate Counts(g: Gauge, r: Gauge, high: bool, low: bool) {
    && r.higher == (if high then g.higher + 1 else if low then g.higher else Max(0, g.higher - 2))
    && r.lower == (if high then g.lower else if low then g.lower + 1 else Max(0, g.lower - 2))
  }

  predicate BelowThresholds(g: Gauge) {
    g.state == NormalOperation && g.higher <= ERROR_COUNTER_THRESHOLD && g.lower <= ERROR_COUNTER_THRESHOLD
  }

  lemma SwitchedCounts(g: Gauge, isNew: bool, shown: int, average: int)
    requires BelowThresholds(g)
    ensures var r := Switched(g, isNew, shown, average);
            if isNew then
              && Counts(g, r, High(g, average), Low(g, average))
              && r.state == (if r.lower > ERROR_COUNTER_THRESHOLD then ErrorRecovery
                             else if r.higher > ERROR_COUNTER_THRESHOLD then RefillDetected else NormalOperation)
              && (High(g, average) || Low(g, average) ==> r.display == g.display && r.slightlyLower == g.slightlyLower)
            else r == g
  {
  }

  // In normal operation every cycle counts as its new average says, and an error is reported in just the cycle in
  // which a counter passes the threshold.
  lemma CycleCounts(g: Gauge, reading: Reading, a: Algorithms)
    requires BelowThresholds(g)
    ensures var r, judged, average := Cycle(g, reading, a), Judged(g, reading, a), JudgedAverage(g, reading, a);
            if HasNewAverage(TakeReading(g, reading), a) then
              && Counts(g, r, High(judged, average), Low(judged, average))
              && r.state == (if r.lower > ERROR_COUNTER_THRESHOLD then ErrorRecovery
                             else if r.higher > ERROR_COUNTER_THRESHOLD then RefillDetected else NormalOperation)
              && (High(judged, average) || Low(judged, average) ==>
                    r.display == g.display && r.slightlyLower == g.slightlyLower)
            else r.higher == g.higher && r.lower == g.lower && r.state == g.state && r.display == g.display
  {
    AveragingSays(g, reading, a);
    var averaged := Averaged(TakeReading(g, reading), a);
    SwitchedCounts(averaged, HasNewAverage(TakeReading(g, reading), a), Shown(averaged, a),
                   a.weighted(averaged.averages));
  }

  // Every average that is judged in a run is low, or is near.
  ghost predicate AllLow(g: Gauge, readings: seq<Reading>, a: Algorithms)
    decreases |readings|
  {
    readings != [] ==>
      && (Judges(g, readings[0], a) ==> Low(Judged(g, readings[0], a), JudgedAverage(g, readings[0], a)))
      && AllLow(Cycle(g, readings[0], a), readings[1..], a)
  }

  ghost predicate AllNear(g: Gauge, readings: seq<Reading>, a: Algorithms)
    decreases |readings|
  {
    readings != [] ==>
      && (Judges(g, readings[0], a) ==>
            var judged, average := Judged(g, readings[0], a), JudgedAverage(g, readings[0], a);
            !High(judged, average) && !Low(judged, average))
      && AllNear(Cycle(g, readings[0], a), readings[1..], a)
  }

  lemma NormalJudges(g: Gauge, reading: Reading, a: Algorithms)
    requires g.state == NormalOperation
    ensures Judges(g, reading, a) <==> HasNewAverage(TakeReading(g, reading), a)
  {
    AveragingSays(g, reading, a);
  }

  // Normal operation, or the loss just reported.
  predicate LossCounted(g: Gauge) {
    && g.state == (if g.lower > ERROR_COUNTER_THRESHOLD then ErrorRecovery else NormalOperation)
    && g.higher <= ERROR_COUNTER_THRESHOLD
  }

  lemma NothingNew(g: Gauge, reading: Reading, a: Algorithms)
    requires g.state != Starting && !HasNewAverage(TakeReading(g, reading), a)
    ensures var r := Cycle(g, reading, a);
            r == g.(raw := r.raw, averages := r.averages)
  {
    AveragingSays(g, reading, a);
  }

  // A run whose averages are all low reports a loss with the thirty-first of them and not before, and shows what it has
  // shown before.
  lemma {:induction false} LowsReportLoss(g: Gauge, readings: seq<Reading>, a: Algorithms)
    requires LossCounted(g) && AllLow(g, readings, a)
    requires g.lower + NewAverages(g, readings, a) <= ERROR_COUNTER_THRESHOLD + 1
    ensures var r := Run(g, readings, a);
            && LossCounted(r) && r.lower == g.lower + NewAverages(g, readings, a)
            && r.higher == g.higher && r.display == g.display && r.slightlyLower == g.slightlyLower
    decreases |readings|
  {
    if readings != [] {
      if HasNewAverage(TakeReading(g, readings[0]), a) {
        NormalJudges(g, readings[0], a);
        CycleCounts(g, readings[0], a);
      } else {
        NothingNew(g, readings[0], a);
      }
      LowsReportLoss(Cycle(g, readings[0], a), readings[1..], a);
    }
  }

  // Near averages make the gauge forget: each takes two off both counters, as far as there are two, and never leads to
  // an error.
  lemma {:induction false} NearsForget(g: Gauge, readings: seq<Reading>, a: Algorithms)
    requires BelowThresholds(g) && AllNear(g, readings, a)
    ensures var r, n := Run(g, readings, a), NewAverages(g, readings, a);
            && BelowThresholds(r)
            && r.higher == Max(0, g.higher - 2 * n) && r.lower == Max(0, g.lower - 2 * n)
    decreases |readings|
  {
    if readings != [] {
      NormalJudges(g, readings[0], a);
      CycleCounts(g, readings[0], a);
      NearsForget(Cycle(g, readings[0], a), readings[1..], a);
    }
  }

  // ----- after an error

  // Outside calibration there are averages to show; an error is left with the next new average.
  predicate HasShown(g: Gauge) {
    g.state != Starting ==> |g.averages| >= 3
  }

  lemma CycleHasShown(g: Gauge, reading: Reading, a: Algorithms)
    requires HasShown(g) && |g.averages| < NUM_OF_AVERAGES
    ensures HasShown(Cycle(g, reading, a)) && |g.averages| <= |Cycle(g, reading, a).averages| < NUM_OF_AVERAGES
  {
    AveragingSays(g, reading, a);
    CycleBuffers(g, reading, a);
    var averaged := Averaged(TakeReading(g, reading), a);
    SwitchedBuffers(averaged, HasNewAverage(TakeReading(g, reading), a), Shown(averaged, a),
                    a.weighted(averaged.averages));
  }

  lemma {:induction false} RunHasShown(g: Gauge, readings: seq<Reading>, a: Algorithms)
    requires HasShown(g) && |g.averages| < NUM_OF_AVERAGES
    ensures HasShown(Run(g, readings, a)) && |Run(g, readings, a).averages| < NUM_OF_AVERAGES
    decreases |readings|
  {
    if readings != [] {
      CycleHasShown(g, readings[0], a);
      RunHasShown(Cycle(g, readings[0], a), readings[1..], a);
    }
  }

  // An error state lasts until the next new average and is then left for calibration, showing what it has shown.
  lemma ErrorLeft(g: Gauge, reading: Reading, a: Algorithms)
    requires g.state == RefillDetected || g.state == ErrorRecovery
    ensures var r := Cycle(g, reading, a);
            && r.display == g.display && r.higher == g.higher
            && (if HasNewAverage(TakeReading(g, reading), a)
                then r.state == Starting && r.lower == 0 && r.slightlyLower == 0
                else r.state == g.state && r.lower == g.lower && r.slightlyLower == g.slightlyLower)
  {
    AveragingSays(g, reading, a);
    var averaged := Averaged(TakeReading(g, reading), a);
    SwitchedError(averaged, HasNewAverage(TakeReading(g, reading), a), Shown(averaged, a),
                  a.weighted(averaged.averages));
  }

  lemma SwitchedError(g: Gauge, isNew: bool, shown: int, average: int)
    requires g.state == RefillDetected || g.state == ErrorRecovery
    ensures Switched(g, isNew, shown, average)
         == if isNew then g.(lower := 0, slightlyLower := 0, state := Starting) else g
  {
  }

  // The cycle after that calibrates: whatever is read, the display is the weighted average of what the gauge has, and
  // it is in normal operation again with nothing counted.
  lemma Recalibrates(g: Gauge, reading: Reading, a: Algorithms)
    requires g.state == Starting && g.lower == g.slightlyLower == 0 && 3 <= |g.averages| < NUM_OF_AVERAGES
    ensures var r := Cycle(g, reading, a);
            && r.state == NormalOperation && r.display == a.weighted(r.averages)
            && r.higher == r.lower == r.slightlyLower == 0
  {
    AveragingSays(g, reading, a);
    CycleBuffers(g, reading, a);
    var averaged := Averaged(TakeReading(g, reading), a);
    var average := a.weighted(averaged.averages);
    SwitchedBuffers(averaged, HasNewAverage(TakeReading(g, reading), a), Shown(averaged, a), average);
    assert Shown(averaged, a) == average;
    SwitchedAgain(averaged, HasNewAverage(TakeReading(g, reading), a), average);
  }

  lemma SwitchedAgain(g: Gauge, isNew: bool, average: int)
    requires g.state == Starting && g.lower == g.slightlyLower == 0 && |g.averages| >= 3
    ensures Switched(g, isNew, average, average)
         == g.(display := average, state := NormalOperation, higher := 0, lower := 0)
  {
  }

  // In every run: when a refill or a loss is reported, the new average that ends it and the cycle behind it bring the
  // display to what is read, however far that is from what was shown.
  lemma ShowsAfterError(readings: seq<Reading>, first: Reading, second: Reading, a: Algorithms)
    requires var g := Run(Created(), readings, a);
             (g.state == RefillDetected || g.state == ErrorRecovery) && HasNewAverage(TakeReading(g, first), a)
    ensures var g := Run(Created(), readings, a);
            var r := Cycle(Cycle(g, first, a), second, a);
            && Cycle(g, first, a).state == Starting && r.state == NormalOperation
            && r.display == a.weighted(r.averages) && r.higher == r.lower == r.slightlyLower == 0
  {
    var g := Run(Created(), readings, a);
    RunHasShown(Created(), readings, a);
    ErrorLeft(g, first, a);
    CycleHasShown(g, first, a);
    Recalibrates(Cycle(g, first, a), second, a);
  }
}
