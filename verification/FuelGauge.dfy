/** The fuel gauge input: readings averaged, and a state machine that lets the display fall but not rise. */
module FuelGauge {
  import opened Arithmetic
  import opened Averaging

  const AVERAGING_SIZE := 10
  const NUM_OF_AVERAGES := 10
  const INVALID_DATA_DISTANCE := 700
  const THRESHOLD_UP := 1000
  const THRESHOLD_DOWN := 1000
  const ERROR_COUNTER_THRESHOLD := 30
  const UPDATE_THRESHOLD := 50
  const FUEL_LOWER_COUNTER_THRESHOLD := 5

  type Counter = n: nat | n < 0x1_0000_0000

  datatype State = Starting | NormalOperation | RefillDetected | ErrorRecovery

  // The averages in use: filter_outliers_by_max_deviation and get_weighted_average.
  datatype Algorithms = Algorithms(filter: seq<int> -> Filtered, weighted: seq<Average> -> int)

  function Util(): Algorithms {
    Algorithms(s => Filter(s), s => Weighted(s))
  }

  // What get_x made of the ADC value, in hundredths of a percent; none when the ADC has no value.
  datatype Reading = NoReading | Percentage(value: int)

  datatype Gauge = Gauge(
    state: State,
    raw: seq<int>,            // m_ai32_raw_last_read_fuel_percentages
    averages: seq<Average>,   // m_ai32_averaged_fuel_readings_buffer
    higher: Counter,          // m_u32_input_unexpected_higher_error_counter
    lower: Counter,           // m_u32_input_unexpected_lower_error_counter
    slightlyLower: Counter,   // m_u32_input_slightly_lower_counter
    display: int)             // m_i32_current_fuel_value

  function Created(): Gauge {
    Gauge(Starting, [], [], 0, 0, 0, 0)
  }

  function Increment(c: Counter): Counter {
    (c + 1) % 0x1_0000_0000
  }

  // An unsigned decrement: zero becomes the largest value.
  function Decrement(c: Counter): Counter {
    (c - 1) % 0x1_0000_0000
  }

  function Reduce(c: Counter): Counter {
    if c >= 2 then c - 2 else 0
  }

  // The readings, and the new average when there are enough of them and they make sense.
  function TakeReading(g: Gauge, reading: Reading): Gauge {
    match reading
    case NoReading => g
    case Percentage(value) => g.(raw := g.raw + [value])
  }

  predicate AverageDue(g: Gauge) {
    |g.raw| >= AVERAGING_SIZE
  }

  predicate MakesSense(f: Filtered) {
    f.spread <= INVALID_DATA_DISTANCE
  }

  function PushAverage(g: Gauge, f: Filtered): Gauge {
    var averages := g.averages + [Average(f.average, (10000 - f.spread) * (10000 - f.spread))];
    g.(raw := [], averages := if |averages| >= NUM_OF_AVERAGES then averages[1..] else averages)
  }

  function AverageWith(g: Gauge, f: Filtered): Gauge
    requires AverageDue(g)
  {
    if MakesSense(f) then PushAverage(g, f) else g.(raw := g.raw[1..])
  }

  // The averaging: when the readings make no sense the oldest is thrown away.
  function Averaged(g: Gauge, a: Algorithms): Gauge {
    if AverageDue(g) then AverageWith(g, a.filter(g.raw)) else g
  }

  // Whether it makes a new average.
  predicate HasNewAverage(g: Gauge, a: Algorithms) {
    AverageDue(g) && MakesSense(a.filter(g.raw))
  }

  // What calibration shows.
  function Shown(g: Gauge, a: Algorithms): int {
    if g.averages == [] then a.filter(g.raw).average else a.weighted(g.averages)
  }

  // The first switch: calibration.
  function Calibrate(g: Gauge, shown: int): Gauge {
    if g.state != Starting then g
    else if |g.averages| >= 3 then g.(display := shown, state := NormalOperation, higher := 0, lower := 0)
    else g.(display := shown)
  }

  // An average far above, far below or near the displayed value.
  predicate High(g: Gauge, average: int) {
    g.display + THRESHOLD_UP < average
  }

  predicate Low(g: Gauge, average: int) {
    !High(g, average) && g.display > average + THRESHOLD_DOWN
  }

  function NearCounters(g: Gauge, average: int): Gauge {
    var r := g.(higher := Reduce(g.higher), lower := Reduce(g.lower));
    if g.display > average + UPDATE_THRESHOLD then r.(slightlyLower := Increment(r.slightlyLower))
    else if r.lower > 0 then r.(slightlyLower := Decrement(r.slightlyLower))
    else r
  }

  function StepDown(g: Gauge): Gauge {
    if g.slightlyLower > FUEL_LOWER_COUNTER_THRESHOLD
    then g.(slightlyLower := 0, display := Max(0, g.display - UPDATE_THRESHOLD))
    else g
  }

  function Judge(g: Gauge, average: int): Gauge {
    if High(g, average) then g.(higher := Increment(g.higher))
    else if Low(g, average) then g.(lower := Increment(g.lower))
    else StepDown(NearCounters(g, average))
  }

  function CheckErrors(g: Gauge): Gauge {
    var refilled := if g.higher > ERROR_COUNTER_THRESHOLD then g.(state := RefillDetected) else g;
    if g.lower > ERROR_COUNTER_THRESHOLD then refilled.(state := ErrorRecovery) else refilled
  }

  // The second switch, on a new average only. Leaving the error states clears the lower counter, not the higher.
  function Operate(g: Gauge, average: int): Gauge {
    match g.state
    case Starting => g
    case NormalOperation => CheckErrors(Judge(g, average))
    case RefillDetected => g.(lower := 0, slightlyLower := 0, state := Starting)
    case ErrorRecovery => g.(lower := 0, slightlyLower := 0, state := Starting)
  }

  // Both switches.
  function Switched(g: Gauge, isNew: bool, shown: int, average: int): Gauge {
    if isNew then Operate(Calibrate(g, shown), average) else Calibrate(g, shown)
  }

  // cycle_100ms
  function Cycle(g: Gauge, reading: Reading, a: Algorithms): Gauge {
    var taken := TakeReading(g, reading);
    var averaged := Averaged(taken, a);
    Switched(averaged, HasNewAverage(taken, a), Shown(averaged, a), a.weighted(averaged.averages))
  }

  // ----- what the display does

  // The gauge for which the second switch judges an average in this cycle.
  function Judged(g: Gauge, reading: Reading, a: Algorithms): Gauge {
    var averaged := Averaged(TakeReading(g, reading), a);
    Calibrate(averaged, Shown(averaged, a))
  }

  // The average that it judges.
  function JudgedAverage(g: Gauge, reading: Reading, a: Algorithms): int {
    a.weighted(Averaged(TakeReading(g, reading), a).averages)
  }

  predicate Judges(g: Gauge, reading: Reading, a: Algorithms) {
    HasNewAverage(TakeReading(g, reading), a) && Judged(g, reading, a).state == NormalOperation
  }

  // The display steps down on the sixth slightly lower average that counts, or, as an unsigned counter below zero is
  // a large one, on an average that is not lower at all while low averages are being forgotten.
  predicate StepsDown(g: Gauge, average: int) {
    && !High(g, average) && !Low(g, average)
    && (if g.display > average + UPDATE_THRESHOLD then g.slightlyLower == FUEL_LOWER_COUNTER_THRESHOLD
        else g.slightlyLower == 0 && g.lower > 2)
  }

  lemma StepsDownExactly(g: Gauge, average: int)
    requires g.slightlyLower <= FUEL_LOWER_COUNTER_THRESHOLD
    ensures Judge(g, average).display ==
            if StepsDown(g, average) then Max(0, g.display - UPDATE_THRESHOLD) else g.display
  {
  }

  // The averaging touches the two buffers only.
  lemma AveragingSays(g: Gauge, reading: Reading, a: Algorithms)
    ensures var r := Averaged(TakeReading(g, reading), a); r == g.(raw := r.raw, averages := r.averages)
  {
  }

  lemma SwitchedDisplay(g: Gauge, isNew: bool, shown: int, average: int)
    requires g.state == NormalOperation
    ensures var r := Switched(g, isNew, shown, average);
            && (g.display >= 0 ==> 0 <= r.display <= g.display)
            && (g.slightlyLower <= FUEL_LOWER_COUNTER_THRESHOLD ==>
                  (r.display > g.display <==> g.display < 0 && isNew && StepsDown(g, average)))
  {
  }

  // In normal operation a display that is not negative does not rise.
  lemma NormalCycleNeverRises(g: Gauge, reading: Reading, a: Algorithms)
    requires g.state == NormalOperation && g.display >= 0
    ensures 0 <= Cycle(g, reading, a).display <= g.display
  {
    var averaged := Averaged(TakeReading(g, reading), a);
    AveragingSays(g, reading, a);
    var isNew := HasNewAverage(TakeReading(g, reading), a);
    SwitchedDisplay(averaged, isNew, Shown(averaged, a), a.weighted(averaged.averages));
  }

  // It rises exactly when a negative display steps down: the step ends at zero.
  lemma DisplayRisesExactly(g: Gauge, reading: Reading, a: Algorithms)
    requires g.state == NormalOperation && g.slightlyLower <= FUEL_LOWER_COUNTER_THRESHOLD
    ensures var judged := Judged(g, reading, a);
            Cycle(g, reading, a).display > g.display <==>
              g.display < 0 && Judges(g, reading, a) && StepsDown(judged, JudgedAverage(g, reading, a))
  {
    var averaged := Averaged(TakeReading(g, reading), a);
    AveragingSays(g, reading, a);
    var isNew := HasNewAverage(TakeReading(g, reading), a);
    SwitchedDisplay(averaged, isNew, Shown(averaged, a), a.weighted(averaged.averages));
  }

  function Run(g: Gauge, readings: seq<Reading>, a: Algorithms): Gauge
    decreases |readings|
  {
    if readings == [] then g else Run(Cycle(g, readings[0], a), readings[1..], a)
  }

  ghost predicate StaysNormal(g: Gauge, readings: seq<Reading>, a: Algorithms)
    decreases |readings|
  {
    && g.state == NormalOperation
    && (readings != [] ==> StaysNormal(Cycle(g, readings[0], a), readings[1..], a))
  }

  // For as long as the gauge stays in normal operation the display only falls.
  lemma {:induction false} DisplayNeverRises(g: Gauge, readings: seq<Reading>, a: Algorithms)
    requires StaysNormal(g, readings, a) && g.display >= 0
    ensures 0 <= Run(g, readings, a).display <= g.display
    decreases |readings|
  {
    if readings != [] {
      NormalCycleNeverRises(g, readings[0], a);
      DisplayNeverRises(Cycle(g, readings[0], a), readings[1..], a);
    }
  }

  // ----- what the counters count

  // The gauge with the high and the low averages it has judged since it entered normal operation.
  datatype Counted = Counted(gauge: Gauge, highs: nat, lows: nat)

  function CountedCycle(c: Counted, reading: Reading, a: Algorithms): Counted {
    var g := c.gauge;
    var judged := Judged(g, reading, a);
    var average := JudgedAverage(g, reading, a);
    var judges := Judges(g, reading, a);
    Counted(Cycle(g, reading, a),
            (if g.state == Starting then 0 else c.highs) + (if judges && High(judged, average) then 1 else 0),
            (if g.state == Starting then 0 else c.lows) + (if judges && Low(judged, average) then 1 else 0))
  }

  function CountedRun(c: Counted, readings: seq<Reading>, a: Algorithms): Counted
    decreases |readings|
  {
    if readings == [] then c else CountedRun(CountedCycle(c, readings[0], a), readings[1..], a)
  }

  // The counters never run ahead of the averages, nor past the threshold in normal operation.
  predicate CountsOk(c: Counted) {
    && c.gauge.slightlyLower <= FUEL_LOWER_COUNTER_THRESHOLD
    && (c.gauge.state == NormalOperation ==>
          && c.gauge.higher <= c.highs && c.gauge.higher <= ERROR_COUNTER_THRESHOLD
          && c.gauge.lower <= c.lows && c.gauge.lower <= ERROR_COUNTER_THRESHOLD)
    && (c.gauge.state == RefillDetected ==> c.highs > ERROR_COUNTER_THRESHOLD)
    && (c.gauge.state == ErrorRecovery ==> c.lows > ERROR_COUNTER_THRESHOLD)
  }

  lemma CycleKeepsCounts(c: Counted, reading: Reading, a: Algorithms)
    requires CountsOk(c)
    ensures CountsOk(CountedCycle(c, reading, a))
  {
    AveragingSays(c.gauge, reading, a);
    var averaged := Averaged(TakeReading(c.gauge, reading), a);
    SwitchedKeepsCounts(c, averaged, HasNewAverage(TakeReading(c.gauge, reading), a), Shown(averaged, a),
                        a.weighted(averaged.averages));
  }

  lemma SwitchedKeepsCounts(c: Counted, g: Gauge, isNew: bool, shown: int, average: int)
    requires CountsOk(c) && g == c.gauge.(raw := g.raw, averages := g.averages)
    ensures var judged := Calibrate(g, shown);
            var judges := isNew && judged.state == NormalOperation;
            CountsOk(Counted(
              Switched(g, isNew, shown, average),
              (if g.state == Starting then 0 else c.highs) + (if judges && High(judged, average) then 1 else 0),
              (if g.state == Starting then 0 else c.lows) + (if judges && Low(judged, average) then 1 else 0)))
  {
    var judged := Calibrate(g, shown);
    if isNew && judged.state == NormalOperation {
      JudgeKeepsCounts(judged, average);
    }
  }

  lemma JudgeKeepsCounts(g: Gauge, average: int)
    requires g.slightlyLower <= FUEL_LOWER_COUNTER_THRESHOLD
    requires g.higher <= ERROR_COUNTER_THRESHOLD && g.lower <= ERROR_COUNTER_THRESHOLD
    ensures var r := Judge(g, average);
            && r.slightlyLower <= FUEL_LOWER_COUNTER_THRESHOLD
            && r.higher <= g.higher + (if High(g, average) then 1 else 0)
            && r.lower <= g.lower + (if Low(g, average) then 1 else 0)
            && r.state == g.state
  {
  }

  lemma {:induction false} RunKeepsCounts(c: Counted, readings: seq<Reading>, a: Algorithms)
    requires CountsOk(c)
    ensures CountsOk(CountedRun(c, readings, a)) && CountedRun(c, readings, a).gauge == Run(c.gauge, readings, a)
    decreases |readings|
  {
    if readings != [] {
      CycleKeepsCounts(c, readings[0], a);
      RunKeepsCounts(CountedCycle(c, readings[0], a), readings[1..], a);
    }
  }

  lemma BuffersStep(g: Gauge, reading: Reading, a: Algorithms)
    requires |g.raw| < AVERAGING_SIZE && |g.averages| < NUM_OF_AVERAGES
    ensures |Cycle(g, reading, a).raw| < AVERAGING_SIZE && |Cycle(g, reading, a).averages| < NUM_OF_AVERAGES
  {
    var averaged := Averaged(TakeReading(g, reading), a);
    var isNew := HasNewAverage(TakeReading(g, reading), a);
    SwitchedBuffers(averaged, isNew, Shown(averaged, a), a.weighted(averaged.averages));
  }

  lemma SwitchedBuffers(g: Gauge, isNew: bool, shown: int, average: int)
    ensures var r := Switched(g, isNew, shown, average); r.raw == g.raw && r.averages == g.averages
  {
  }

  // The buffers stay short: at most nine averages, and fewer readings than make one.
  lemma {:induction false} BuffersBounded(g: Gauge, readings: seq<Reading>, a: Algorithms)
    requires |g.raw| < AVERAGING_SIZE && |g.averages| < NUM_OF_AVERAGES
    ensures |Run(g, readings, a).raw| < AVERAGING_SIZE && |Run(g, readings, a).averages| < NUM_OF_AVERAGES
    decreases |readings|
  {
    if readings != [] {
      BuffersStep(g, readings[0], a);
      BuffersBounded(Cycle(g, readings[0], a), readings[1..], a);
    }
  }

  // In any run a refill is only reported after more high averages than the threshold since the gauge entered normal
  // operation, and a loss after more low ones, whatever else was read in between.
  lemma RefillNeedsHighs(readings: seq<Reading>, a: Algorithms)
    ensures var c := CountedRun(Counted(Created(), 0, 0), readings, a);
            && c.gauge == Run(Created(), readings, a)
            && (c.gauge.state == RefillDetected ==> c.highs > ERROR_COUNTER_THRESHOLD)
            && (c.gauge.state == ErrorRecovery ==> c.lows > ERROR_COUNTER_THRESHOLD)
  {
    RunKeepsCounts(Counted(Created(), 0, 0), readings, a);
  }

  // How many cycles of a run end with a new average.
  function NewAverages(g: Gauge, readings: seq<Reading>, a: Algorithms): nat
    decreases |readings|
  {
    if readings == [] then 0
    else
      (if HasNewAverage(TakeReading(g, readings[0]), a) then 1 else 0)
      + NewAverages(Cycle(g, readings[0], a), readings[1..], a)
  }

  // Every average that is judged in a run is high.
  ghost predicate AllHigh(g: Gauge, readings: seq<Reading>, a: Algorithms)
    decreases |readings|
  {
    readings != [] ==>
      && (Judges(g, readings[0], a) ==> High(Judged(g, readings[0], a), JudgedAverage(g, readings[0], a)))
      && AllHigh(Cycle(g, readings[0], a), readings[1..], a)
  }

  lemma HighStep(g: Gauge, reading: Reading, a: Algorithms)
    requires g.state == if g.higher > ERROR_COUNTER_THRESHOLD then RefillDetected else NormalOperation
    requires g.lower <= ERROR_COUNTER_THRESHOLD
    requires Judges(g, reading, a) ==> High(Judged(g, reading, a), JudgedAverage(g, reading, a))
    requires HasNewAverage(TakeReading(g, reading), a) ==> g.higher <= ERROR_COUNTER_THRESHOLD
    ensures var r := Cycle(g, reading, a);
            && r.higher == g.higher + (if HasNewAverage(TakeReading(g, reading), a) then 1 else 0)
            && r.state == (if r.higher > ERROR_COUNTER_THRESHOLD then RefillDetected else NormalOperation)
            && r.lower == g.lower && r.slightlyLower == g.slightlyLower && r.display == g.display
  {
    AveragingSays(g, reading, a);
    var averaged := Averaged(TakeReading(g, reading), a);
    var isNew := HasNewAverage(TakeReading(g, reading), a);
    SwitchedHigh(averaged, isNew, Shown(averaged, a), a.weighted(averaged.averages));
  }

  lemma SwitchedHigh(g: Gauge, isNew: bool, shown: int, average: int)
    requires g.state == if g.higher > ERROR_COUNTER_THRESHOLD then RefillDetected else NormalOperation
    requires g.lower <= ERROR_COUNTER_THRESHOLD
    requires isNew ==> g.higher <= ERROR_COUNTER_THRESHOLD && High(g, average)
    ensures var r := Switched(g, isNew, shown, average);
            && r.higher == g.higher + (if isNew then 1 else 0)
            && r.state == (if r.higher > ERROR_COUNTER_THRESHOLD then RefillDetected else NormalOperation)
            && r.lower == g.lower && r.slightlyLower == g.slightlyLower && r.display == g.display
  {
  }

  // A run whose averages are all high reports a refill with the thirty-first of them and not before, and shows what
  // it has shown before.
  lemma {:induction false} HighsReportRefill(g: Gauge, readings: seq<Reading>, a: Algorithms)
    requires g.state == if g.higher > ERROR_COUNTER_THRESHOLD then RefillDetected else NormalOperation
    requires g.lower <= ERROR_COUNTER_THRESHOLD && AllHigh(g, readings, a)
    requires g.higher + NewAverages(g, readings, a) <= ERROR_COUNTER_THRESHOLD + 1
    ensures var r := Run(g, readings, a);
            && r.higher == g.higher + NewAverages(g, readings, a)
            && r.state == (if r.higher > ERROR_COUNTER_THRESHOLD then RefillDetected else NormalOperation)
            && r.lower == g.lower && r.slightlyLower == g.slightlyLower && r.display == g.display
    decreases |readings|
  {
    if readings != [] {
      HighStep(g, readings[0], a);
      HighsReportRefill(Cycle(g, readings[0], a), readings[1..], a);
    }
  }

  // ----- the display stays among the readings

  // Averages lie between what they are taken of, and the filter answers a spread no larger than theirs.
  ghost predicate Sound(a: Algorithms) {
    && (forall s, low, high :: s != [] && Within(s, low, high) ==>
          low <= a.filter(s).average <= high && 0 <= a.filter(s).spread <= high - low)
    && (forall s, low, high :: s != [] && WeightedWithin(s, low, high) ==> low <= a.weighted(s) <= high)
    && a.filter([]).average == 0 && a.weighted([]) == 0
  }

  lemma UtilSound()
    ensures Sound(Util())
  {
    forall s, low, high | s != [] && Within(s, low, high)
      ensures low <= Filter(s).average <= high && 0 <= Filter(s).spread <= high - low
    {
      assert low <= s[0] <= high;
      FilterWithin(s, 0, low, high);
    }
    forall s, low, high | s != [] && WeightedWithin(s, low, high) ensures low <= Weighted(s) <= high {
      WeightedBetween(s, low, high);
    }
  }

  ghost predicate InRange(g: Gauge, low: int, high: int) {
    Within(g.raw, low, high) && WeightedWithin(g.averages, low, high) && low <= g.display <= high
  }

  lemma AveragingKeepsRange(g: Gauge, f: Filtered, low: int, high: int)
    requires InRange(g, low, high) && AverageDue(g) && low <= f.average <= high && f.spread >= 0
    ensures InRange(AverageWith(g, f), low, high)
  {
    var w := 10000 - f.spread;
    assert MakesSense(f) ==> w * w > 0;
  }

  lemma ShownInRange(g: Gauge, low: int, high: int, a: Algorithms)
    requires Sound(a) && InRange(g, low, high) && low <= 0 <= high
    ensures low <= Shown(g, a) <= high
  {
    assert g.raw == [] || g.raw != [];
    assert g.averages == [] || g.averages != [];
  }

  lemma CycleKeepsRange(g: Gauge, reading: Reading, low: int, high: int, a: Algorithms)
    requires Sound(a) && InRange(g, low, high) && low <= 0 <= high
    requires reading.Percentage? ==> low <= reading.value <= high
    ensures InRange(Cycle(g, reading, a), low, high)
  {
    var taken := TakeReading(g, reading);
    var averaged := Averaged(taken, a);
    assert Within(taken.raw, low, high);
    if AverageDue(taken) {
      AveragingKeepsRange(taken, a.filter(taken.raw), low, high);
    }
    ShownInRange(averaged, low, high, a);
    SwitchedKeepsRange(averaged, HasNewAverage(taken, a), Shown(averaged, a), a.weighted(averaged.averages), low, high);
  }

  lemma SwitchedKeepsRange(g: Gauge, isNew: bool, shown: int, average: int, low: int, high: int)
    requires InRange(g, low, high) && low <= 0 <= high && low <= shown <= high
    ensures InRange(Switched(g, isNew, shown, average), low, high)
  {
  }

  // In every run the display lies between the lowest and the highest reading, zero among them.
  lemma {:induction false} DisplayInRange(g: Gauge, readings: seq<Reading>, low: int, high: int, a: Algorithms)
    requires Sound(a) && InRange(g, low, high) && low <= 0 <= high
    requires forall i :: 0 <= i < |readings| && readings[i].Percentage? ==> low <= readings[i].value <= high
    ensures InRange(Run(g, readings, a), low, high)
    decreases |readings|
  {
    if readings != [] {
      CycleKeepsRange(g, readings[0], low, high, a);
      DisplayInRange(Cycle(g, readings[0], a), readings[1..], low, high, a);
    }
  }

  lemma DisplayInRangeFromStart(readings: seq<Reading>, low: int, high: int)
    requires low <= 0 <= high
    requires forall i :: 0 <= i < |readings| && readings[i].Percentage? ==> low <= readings[i].value <= high
    ensures low <= Run(Created(), readings, Util()).display <= high
  {
    UtilSound();
    DisplayInRange(Created(), readings, low, high, Util());
  }

  // ----- runs of equal readings, ten at a time

  // Averages of equal weight are averaged to their mean.
  ghost predicate Fair(a: Algorithms) {
    forall s :: s != [] && AllWeigh(s, FULL_WEIGHT) ==> a.weighted(s) == Quot(Sum(ValuesOf(s)), |s|)
  }

  lemma UtilFair()
    ensures Fair(Util())
  {
    forall s | s != [] && AllWeigh(s, FULL_WEIGHT) ensures Weighted(s) == Quot(Sum(ValuesOf(s)), |s|) {
      EqualWeightsMean(s, FULL_WEIGHT);
    }
  }

  const FULL_WEIGHT := 10000 * 10000

  function Same(value: int, n: nat): seq<Reading> {
    seq(n, _ => Percentage(value))
  }

  lemma {:induction false} RunSplits(g: Gauge, first: seq<Reading>, second: seq<Reading>, a: Algorithms)
    ensures Run(g, first + second, a) == Run(Run(g, first, a), second, a)
    decreases |first|
  {
    if first == [] {
      assert [] + second == second;
    } else {
      var both, next := first + second, Cycle(g, first[0], a);
      assert both[0] == first[0] && both[1..] == first[1..] + second;
      assert Run(g, both, a) == Run(next, both[1..], a);
      assert Run(g, first, a) == Run(next, first[1..], a);
      RunSplits(next, first[1..], second, a);
    }
  }

  lemma RunOne(g: Gauge, reading: Reading, a: Algorithms)
    ensures Run(g, [reading], a) == Cycle(g, reading, a)
  {
    assert [reading][1..] == [];
  }

  // A gauge between two averages, with room for another one.
  ghost predicate Between(g: Gauge) {
    g.raw == [] && |g.averages| < NUM_OF_AVERAGES - 1 && (g.state == Starting ==> |g.averages| < 3)
  }

  // The first readings of a new average change nothing but the display, and that during calibration only.
  ghost predicate Gathered(g: Gauge, r: Gauge, value: int, n: nat) {
    && |r.raw| == n && Within(r.raw, value, value)
    && r == g.(raw := r.raw, display := r.display)
    && (g.state != Starting ==> r.display == g.display)
  }

  lemma GatheringStep(g: Gauge, r: Gauge, value: int, n: nat, a: Algorithms)
    requires Between(g) && Gathered(g, r, value, n) && n < AVERAGING_SIZE - 1
    ensures Gathered(g, Cycle(r, Percentage(value), a), value, n + 1)
  {
    var taken := TakeReading(r, Percentage(value));
    assert !AverageDue(taken) && Averaged(taken, a) == taken;
  }

  lemma SameStep(g: Gauge, value: int, n: nat, a: Algorithms)
    ensures Run(g, Same(value, n + 1), a) == Cycle(Run(g, Same(value, n), a), Percentage(value), a)
  {
    assert Same(value, n + 1) == Same(value, n) + [Percentage(value)];
    RunSplits(g, Same(value, n), [Percentage(value)], a);
    RunOne(Run(g, Same(value, n), a), Percentage(value), a);
  }

  lemma {:induction false} Gathering(g: Gauge, value: int, n: nat, a: Algorithms)
    requires Between(g) && n < AVERAGING_SIZE
    ensures Gathered(g, Run(g, Same(value, n), a), value, n)
  {
    if n == 0 {
      assert Same(value, 0) == [];
    } else {
      Gathering(g, value, n - 1, a);
      SameStep(g, value, n - 1, a);
      GatheringStep(g, Run(g, Same(value, n - 1), a), value, n - 1, a);
    }
  }

  // With the tenth the value is an average of full weight.
  function Pushed(g: Gauge, value: int): Gauge {
    g.(averages := g.averages + [Average(value, FULL_WEIGHT)])
  }

  lemma LastReading(g: Gauge, r: Gauge, value: int, a: Algorithms)
    requires Sound(a) && Between(g) && Gathered(g, r, value, AVERAGING_SIZE - 1)
    ensures var p := Pushed(g, value); var average := a.weighted(p.averages);
            Cycle(r, Percentage(value), a) == Switched(p, true, average, average)
  {
    var taken := TakeReading(r, Percentage(value));
    assert Within(taken.raw, value, value);
    var averaged := Averaged(taken, a);
    assert averaged == PushAverage(taken, Filtered(value, 0));
    assert averaged == Pushed(g, value).(display := r.display);
    SwitchedForgetsDisplay(averaged, g.display, Shown(averaged, a), a.weighted(averaged.averages));
  }

  lemma SwitchedForgetsDisplay(g: Gauge, display: int, shown: int, average: int)
    requires g.state != Starting ==> g.display == display
    ensures Switched(g, true, shown, average) == Switched(g.(display := display), true, shown, average)
  {
  }

  lemma TenReadings(g: Gauge, value: int, a: Algorithms)
    requires Sound(a) && Between(g)
    ensures var p := Pushed(g, value); var average := a.weighted(p.averages);
            Run(g, Same(value, AVERAGING_SIZE), a) == Switched(p, true, average, average)
  {
    SameStep(g, value, AVERAGING_SIZE - 1, a);
    Gathering(g, value, AVERAGING_SIZE - 1, a);
    LastReading(g, Run(g, Same(value, AVERAGING_SIZE - 1), a), value, a);
  }

  // The averages of a gauge so far: their number and sum, all of full weight.
  ghost predicate Holds(g: Gauge, count: nat, sum: int) {
    && |g.averages| == count && Sum(ValuesOf(g.averages)) == sum
    && AllWeigh(g.averages, FULL_WEIGHT)
  }

  lemma PushedMean(g: Gauge, value: int, count: nat, sum: int, a: Algorithms)
    requires Fair(a) && Holds(g, count, sum)
    ensures Holds(Pushed(g, value), count + 1, sum + value)
    ensures a.weighted(Pushed(g, value).averages) == Quot(sum + value, count + 1)
  {
    assert ValuesOf(Pushed(g, value).averages)[..count] == ValuesOf(g.averages);
  }

  ghost predicate Reachable(g: Gauge, a: Algorithms) {
    exists readings :: Run(Created(), readings, a) == g
  }

  // Ten equal readings on: the mean takes in one more value.
  lemma Continues(g: Gauge, value: int, count: nat, sum: int, a: Algorithms) returns (r: Gauge)
    requires Sound(a) && Fair(a) && Reachable(g, a) && Between(g) && Holds(g, count, sum)
    ensures Reachable(r, a) && r == Run(g, Same(value, AVERAGING_SIZE), a)
    ensures var mean := Quot(sum + value, count + 1);
            r == Switched(Pushed(g, value), true, mean, mean) && r.raw == [] && Holds(r, count + 1, sum + value)
  {
    r := Run(g, Same(value, AVERAGING_SIZE), a);
    var readings :| Run(Created(), readings, a) == g;
    RunSplits(Created(), readings, Same(value, AVERAGING_SIZE), a);
    TenReadings(g, value, a);
    PushedMean(g, value, count, sum, a);
    SwitchedBuffers(Pushed(g, value), true, Quot(sum + value, count + 1), Quot(sum + value, count + 1));
  }

  // A reachable gauge between two averages as far as the next one depends on it, no high average counted.
  ghost predicate At(
    g: Gauge, state: State, lower: nat, slightly: nat, display: int, count: nat, sum: int, a: Algorithms)
  {
    && Reachable(g, a) && g.raw == [] && Holds(g, count, sum) && g.higher == 0
    && g.state == state && g.lower == lower && g.slightlyLower == slightly && g.display == display
  }

  lemma Calibrates(g: Gauge, value: int, display: int, count: nat, sum: int, a: Algorithms) returns (r: Gauge)
    requires Sound(a) && Fair(a) && At(g, Starting, 0, 0, display, count, sum, a) && count < 3
    ensures At(r, if count == 2 then NormalOperation else Starting, 0, 0, Quot(sum + value, count + 1),
               count + 1, sum + value, a)
  {
    r := Continues(g, value, count, sum, a);
    SwitchedCalibrates(Pushed(g, value), Quot(sum + value, count + 1));
  }

  lemma SwitchedCalibrates(g: Gauge, mean: int)
    requires g.state == Starting && g.higher == g.lower == g.slightlyLower == 0
    ensures Switched(g, true, mean, mean)
         == g.(state := if |g.averages| >= 3 then NormalOperation else Starting, display := mean)
  {
  }

  // What a new average does in normal operation, of which the buffers are no part.
  function Judgement(lower: Counter, slightly: Counter, display: int, average: int): Gauge {
    CheckErrors(Judge(Gauge(NormalOperation, [], [], 0, lower, slightly, display), average))
  }

  lemma Operates(
    g: Gauge, value: int, lower: Counter, slightly: Counter, display: int, count: nat, sum: int, a: Algorithms)
      returns (r: Gauge)
    requires Sound(a) && Fair(a) && At(g, NormalOperation, lower, slightly, display, count, sum, a)
    requires count < NUM_OF_AVERAGES - 1
    requires Judgement(lower, slightly, display, Quot(sum + value, count + 1)).higher == 0
    ensures r == Run(g, Same(value, AVERAGING_SIZE), a)
    ensures var j := Judgement(lower, slightly, display, Quot(sum + value, count + 1));
            At(r, j.state, j.lower, j.slightlyLower, j.display, count + 1, sum + value, a)
  {
    r := Continues(g, value, count, sum, a);
    SwitchedOperates(Pushed(g, value), Quot(sum + value, count + 1));
  }

  lemma SwitchedOperates(g: Gauge, mean: int)
    requires g.state == NormalOperation && g.higher == 0 && g.raw == []
    ensures Switched(g, true, mean, mean)
         == Judgement(g.lower, g.slightlyLower, g.display, mean).(averages := g.averages)
  {
  }

  // An average that counts as low.
  lemma OneLow(g: Gauge, value: int, lower: nat, display: int, count: nat, sum: int, a: Algorithms) returns (r: Gauge)
    requires Sound(a) && Fair(a) && At(g, NormalOperation, lower, 0, display, count, sum, a)
    requires count < NUM_OF_AVERAGES - 1 && lower < ERROR_COUNTER_THRESHOLD
    requires display > Quot(sum + value, count + 1) + THRESHOLD_DOWN
    ensures At(r, NormalOperation, lower + 1, 0, display, count + 1, sum + value, a)
  {
    assert Judgement(lower, 0, display, Quot(sum + value, count + 1))
        == Gauge(NormalOperation, [], [], 0, lower + 1, 0, display);
    r := Operates(g, value, lower, 0, display, count, sum, a);
  }

  // One that counts as slightly lower.
  lemma OneSlightlyLower(g: Gauge, value: int, slightly: nat, display: int, count: nat, sum: int, a: Algorithms)
      returns (r: Gauge)
    requires Sound(a) && Fair(a) && At(g, NormalOperation, 0, slightly, display, count, sum, a)
    requires count < NUM_OF_AVERAGES - 1 && slightly < FUEL_LOWER_COUNTER_THRESHOLD
    requires UPDATE_THRESHOLD < display - Quot(sum + value, count + 1) <= THRESHOLD_DOWN
    ensures At(r, NormalOperation, 0, slightly + 1, display, count + 1, sum + value, a)
  {
    assert Judgement(0, slightly, display, Quot(sum + value, count + 1))
        == Gauge(NormalOperation, [], [], 0, 0, slightly + 1, display);
    r := Operates(g, value, 0, slightly, display, count, sum, a);
  }

  // Three averages of the same value end the calibration.
  lemma Calibrated(value: int, a: Algorithms) returns (g: Gauge)
    requires Sound(a) && Fair(a)
    ensures At(g, NormalOperation, 0, 0, value, 3, 3 * value, a)
  {
    assert Run(Created(), [], a) == Created();
    g := Calibrates(Created(), value, 0, 0, 0, a);
    g := Calibrates(g, value, value, 1, value, a);
    g := Calibrates(g, value, value, 2, 2 * value, a);
  }

  // Then an average of 0 and one of 30 percent count as low where 42 percent is displayed, and so does one of 35.
  lemma ThreeLow(a: Algorithms) returns (g: Gauge)
    requires Sound(a) && Fair(a)
    ensures At(g, NormalOperation, 3, 0, 4200, 6, 19100, a)
  {
    g := Calibrated(4200, a);
    g := OneLow(g, 0, 0, 4200, 3, 12600, a);
    g := OneLow(g, 3000, 1, 4200, 4, 12600, a);
    g := OneLow(g, 3500, 2, 4200, 5, 15600, a);
  }

  // An average that brings the mean back to the displayed value takes the counter of slightly lower averages below
  // zero: the display steps down.
  lemma OneBelowZero(g: Gauge, a: Algorithms) returns (r: Gauge)
    requires Sound(a) && Fair(a) && At(g, NormalOperation, 3, 0, 4200, 6, 19100, a)
    ensures r == Run(g, Same(10000, AVERAGING_SIZE), a) && At(r, NormalOperation, 1, 0, 4150, 7, 29100, a)
    ensures a.weighted(r.averages) == 4157
  {
    assert Judgement(3, 0, 4200, 4157) == Gauge(NormalOperation, [], [], 0, 1, 0, 4150);
    r := Operates(g, 10000, 3, 0, 4200, 6, 19100, a);
  }

  lemma CounterBelowZero() returns (g: Gauge, r: Gauge)
    ensures Reachable(g, Util()) && r == Run(g, Same(10000, AVERAGING_SIZE), Util())
    ensures g.state == NormalOperation && g.slightlyLower == 0 && g.lower == 3 && g.display == 4200
    ensures Util().weighted(r.averages) == 4157 && r.display == 4150
  {
    UtilSound();
    UtilFair();
    g := ThreeLow(Util());
    r := OneBelowZero(g, Util());
  }

  // The default curve goes down to minus ten percent. Three averages of minus one percent are shown as they are, and
  // those of minus four percent then count as slightly lower.
  lemma FiveSlightlyLower(a: Algorithms) returns (g: Gauge)
    requires Sound(a) && Fair(a)
    ensures At(g, NormalOperation, 0, 5, -100, 8, -2300, a)
  {
    g := Calibrated(-100, a);
    g := OneSlightlyLower(g, -400, 0, -100, 3, -300, a);
    g := OneSlightlyLower(g, -400, 1, -100, 4, -700, a);
    g := OneSlightlyLower(g, -400, 2, -100, 5, -1100, a);
    g := OneSlightlyLower(g, -400, 3, -100, 6, -1500, a);
    g := OneSlightlyLower(g, -400, 4, -100, 7, -1900, a);
  }

  // At the sixth the display steps down, to zero.
  lemma OneToZero(g: Gauge, a: Algorithms) returns (r: Gauge)
    requires Sound(a) && Fair(a) && At(g, NormalOperation, 0, 5, -100, 8, -2300, a)
    ensures r == Run(g, Same(-400, AVERAGING_SIZE), a) && At(r, NormalOperation, 0, 0, 0, 9, -2700, a)
  {
    assert Judgement(0, 5, -100, -300) == Gauge(NormalOperation, [], [], 0, 0, 0, 0);
    r := Operates(g, -400, 0, 5, -100, 8, -2300, a);
  }

  lemma NegativeDisplayRises() returns (g: Gauge, r: Gauge)
    ensures Reachable(g, Util()) && r == Run(g, Same(-400, AVERAGING_SIZE), Util())
    ensures g.state == r.state == NormalOperation && g.display == -100 && r.display == 0
  {
    UtilSound();
    UtilFair();
    g := FiveSlightlyLower(Util());
    r := OneToZero(g, Util());
  }

  // ----- the object

  class FuelGaugeInput {
    var state: State
    var raw: seq<int>
    var averages: seq<Average>
    var higher: Counter
    var lower: Counter
    var slightlyLower: Counter
    var display: int

    ghost function Value(): Gauge
      reads this
    {
      Gauge(state, raw, averages, higher, lower, slightlyLower, display)
    }

    constructor ()
      ensures Value() == Created()
    {
      state, raw, averages, higher, lower, slightlyLower, display := Starting, [], [], 0, 0, 0, 0;
    }

    // The averaging part of cycle_100ms.
    method UpdateAverages() returns (isNew: bool)
      modifies this`raw, this`averages
      ensures Value() == Averaged(old(Value()), Util()) && isNew == HasNewAverage(old(Value()), Util())
    {
      isNew := false;
      if |raw| >= AVERAGING_SIZE {
        var value, spread := FilterOutliers(raw);
        if spread <= INVALID_DATA_DISTANCE {
          var weight := 10000 - spread;
          weight := weight * weight;
          averages := averages + [Average(value, weight)];
          if |averages| >= NUM_OF_AVERAGES {
            averages := averages[1..];
          }
          isNew := true;
          raw := [];
        } else {
          raw := raw[1..];
        }
      }
    }

    // The branch of the second switch for normal operation.
    method Operate()
      requires state == NormalOperation
      modifies this`state, this`higher, this`lower, this`slightlyLower, this`display
      ensures Value() == CheckErrors(Judge(old(Value()), Weighted(old(averages))))
    {
      var average := GetWeightedAverage(averages);
      JudgeAverage(average);
      if higher > ERROR_COUNTER_THRESHOLD {
        state := RefillDetected;
      }
      if lower > ERROR_COUNTER_THRESHOLD {
        state := ErrorRecovery;
      }
    }

    method JudgeAverage(average: int)
      modifies this`higher, this`lower, this`slightlyLower, this`display
      ensures Value() == Judge(old(Value()), average)
    {
      if display + THRESHOLD_UP < average {
        higher := Increment(higher);
      } else if display > average + THRESHOLD_DOWN {
        lower := Increment(lower);
      } else {
        higher := if higher >= 2 then higher - 2 else 0;
        lower := if lower >= 2 then lower - 2 else 0;
        if display > average + UPDATE_THRESHOLD {
          slightlyLower := Increment(slightlyLower);
        } else if lower > 0 {
          slightlyLower := Decrement(slightlyLower);
        }
        if slightlyLower > FUEL_LOWER_COUNTER_THRESHOLD {
          slightlyLower := 0;
          display := Max(0, display - UPDATE_THRESHOLD);
        }
      }
    }

    // The first switch.
    method UpdateCalibration()
      modifies this`state, this`higher, this`lower, this`display
      ensures Value() == Calibrate(old(Value()), Shown(old(Value()), Util()))
    {
      if state == Starting {
        if |averages| == 0 {
          var value, _ := FilterOutliers(raw);
          display := value;
        } else {
          display := GetWeightedAverage(averages);
        }
        if |averages| >= 3 {
          state := NormalOperation;
          higher, lower := 0, 0;
        }
      }
    }

    method Cycle100ms(reading: Reading)
      modifies this
      ensures Value() == Cycle(old(Value()), reading, Util())
    {
      if reading.Percentage? {
        raw := raw + [reading.value];
      }
      var isNew := UpdateAverages();
      UpdateCalibration();
      if isNew {
        match state
        case NormalOperation => Operate();
        case RefillDetected => lower, slightlyLower, state := 0, 0, Starting;
        case ErrorRecovery => lower, slightlyLower, state := 0, 0, Starting;
        case Starting =>
      }
    }
  }
}
