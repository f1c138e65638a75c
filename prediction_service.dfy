/**
 * The forecasting service: the guards of its three entry points, the lazy training of
 * the two forecasters, the historical metrics and the 7/14/30-day rollups of the
 * forecast.
 *
 * The database reads arrive as parameters (the stock history rows, the stock
 * snapshot's `unreservedStock` values, the order timestamps); the time-series
 * forecaster is seen only through the forecast it returns for a number of days; the
 * regression forecaster is `MLPredictor.Predictor`.
 */
module PredictionService {
  import opened Outcomes
  import opened Seqs
  import opened DataProcessor
  import opened MLPredictor

  // ---------------------------------------------------------------------------
  // Forecast windows and rollups

  /** Rows dated before `bound`. */
  function Before(bound: int): ForecastRow -> bool
  {
    (p: ForecastRow) => p.ds < bound
  }

  /** The forecast rows dated less than `k` days after the first row. */
  function Window(forecast: seq<ForecastRow>, k: nat): (r: seq<ForecastRow>)
    requires forecast != []
    ensures forall i :: 0 <= i < |r| ==> r[i] in forecast && r[i].ds < forecast[0].ds + k
    ensures forall i :: 0 <= i < |forecast| && forecast[i].ds < forecast[0].ds + k ==> forecast[i] in r
    ensures k > 0 ==> r != []
  {
    var r := Filter(forecast, Before(forecast[0].ds + k));
    assert k > 0 ==> forecast[0] in r;
    assert forall i :: 0 <= i < |r| ==> r[i] in r;
    r
  }

  /** A shorter window is contained in a longer one, so the 7-day rows are among the 14-day rows and those among the 30-day rows. */
  lemma WindowsNested(forecast: seq<ForecastRow>, k1: nat, k2: nat)
    requires forecast != [] && k1 <= k2
    ensures forall p :: p in Window(forecast, k1) ==> p in Window(forecast, k2)
  {
    var w1, w2 := Window(forecast, k1), Window(forecast, k2);
    forall p | p in w1 ensures p in w2 {
      var i :| 0 <= i < |w1| && w1[i] == p;
      var j :| 0 <= j < |forecast| && forecast[j] == p;
      assert forecast[j].ds < forecast[0].ds + k2;
    }
  }

  /** Rows one day apart starting at day `base`. */
  ghost predicate Daily(s: seq<ForecastRow>, base: int)
  {
    forall i :: 0 <= i < |s| ==> s[i].ds == base + i
  }

  /** `x` limited to `0..n`. */
  function Clamp(x: int, n: nat): (r: nat)
    ensures r <= n
    ensures 0 <= x <= n ==> r == x
  {
    if x < 0 then 0 else if x > n then n else x
  }

  /** On one-day-apart rows, keeping the rows before a bound keeps a prefix. */
  lemma {:induction false} DailyPrefix(s: seq<ForecastRow>, base: int, bound: int)
    requires Daily(s, base)
    ensures Filter(s, Before(bound)) == s[..Clamp(bound - base, |s|)]
  {
    if s != [] {
      DailyTail(s, base);
      DailyPrefix(s[1..], base + 1, bound);
      if bound - base > 0 {
        DailyPrefixKeep(s, base, bound);
      } else {
        assert !Before(bound)(s[0]);
      }
    }
  }

  lemma DailyTail(s: seq<ForecastRow>, base: int)
    requires s != [] && Daily(s, base)
    ensures Daily(s[1..], base + 1)
  {
    forall i | 0 <= i < |s[1..]| ensures s[1..][i].ds == base + 1 + i {
      assert s[1..][i] == s[i + 1];
    }
  }

  lemma DailyPrefixKeep(s: seq<ForecastRow>, base: int, bound: int)
    requires s != [] && s[0].ds == base && bound - base > 0
    requires Filter(s[1..], Before(bound)) == s[1..][..Clamp(bound - base - 1, |s| - 1)]
    ensures Filter(s, Before(bound)) == s[..Clamp(bound - base, |s|)]
  {
    assert Before(bound)(s[0]);
    assert Filter(s, Before(bound)) == [s[0]] + Filter(s[1..], Before(bound));
    var m := Clamp(bound - base, |s|);
    assert Clamp(bound - base - 1, |s| - 1) == m - 1;
    ConsPrefix(s, m);
  }

  lemma ConsPrefix<T>(s: seq<T>, m: nat)
    requires 1 <= m <= |s|
    ensures [s[0]] + s[1..][..m - 1] == s[..m]
  {
  }

  /** For a daily forecast the k-day window is its first min(k, length) rows. */
  lemma DailyWindow(forecast: seq<ForecastRow>, k: nat)
    requires forecast != []
    requires forall i :: 0 <= i < |forecast| ==> forecast[i].ds == forecast[0].ds + i
    ensures Window(forecast, k) == forecast[..Clamp(k, |forecast|)]
  {
    DailyPrefix(forecast, forecast[0].ds, forecast[0].ds + k);
  }

  /** The total, mean, largest and smallest prediction of a window. */
  datatype Rollup = Rollup(total: real, mean: real, max: real, min: real)

  function Predictions(rows: seq<ForecastRow>): (r: seq<real>)
    ensures |r| == |rows| && forall i :: 0 <= i < |rows| ==> r[i] == rows[i].yhat
  {
    seq(|rows|, i requires 0 <= i < |rows| => rows[i].yhat)
  }

  /** `sum()`, `mean()`, `max()` and `min()` of `yhat`: the extremes bracket the mean. */
  function Summarize(rows: seq<ForecastRow>): (r: Rollup)
    requires rows != []
    ensures r.min <= r.mean <= r.max
    ensures forall i :: 0 <= i < |rows| ==> r.min <= rows[i].yhat <= r.max
    ensures r.max in Predictions(rows) && r.min in Predictions(rows)
  {
    var ys := Predictions(rows);
    MeanBetween(ys);
    Rollup(Sum(ys), Mean(ys), MaxOf(ys), MinOf(ys))
  }

  /** The three rollups of the forecast summary. */
  datatype ForecastSummary = ForecastSummary(next7: Rollup, next14: Rollup, next30: Rollup)

  function Summary(forecast: seq<ForecastRow>): ForecastSummary
    requires forecast != []
  {
    ForecastSummary(Summarize(Window(forecast, 7)), Summarize(Window(forecast, 14)), Summarize(Window(forecast, 30)))
  }

  /** The largest prediction of a window is no more than that of any longer window, and its smallest no less. */
  lemma SummaryMonotone(forecast: seq<ForecastRow>)
    requires forecast != []
    ensures Summary(forecast).next7.max <= Summary(forecast).next14.max <= Summary(forecast).next30.max
    ensures Summary(forecast).next7.min >= Summary(forecast).next14.min >= Summary(forecast).next30.min
  {
    WindowsNested(forecast, 7, 14);
    WindowsNested(forecast, 14, 30);
    RollupOfSubset(Window(forecast, 7), Window(forecast, 14));
    RollupOfSubset(Window(forecast, 14), Window(forecast, 30));
  }

  lemma RollupOfSubset(a: seq<ForecastRow>, b: seq<ForecastRow>)
    requires a != [] && b != []
    requires forall p :: p in a ==> p in b
    ensures Summarize(a).max <= Summarize(b).max && Summarize(a).min >= Summarize(b).min
  {
    var ra, rb := Summarize(a), Summarize(b);
    var ya := Predictions(a);
    var i :| 0 <= i < |ya| && ya[i] == ra.max;
    var j :| 0 <= j < |ya| && ya[j] == ra.min;
    assert a[i] in b && a[j] in b;
  }

  // ---------------------------------------------------------------------------
  // Historical metrics

  /** The historical part of a prediction. */
  datatype HistoricalAnalysis = HistoricalAnalysis(avgDailyUsage: real, daysUntilEmpty: Days, totalUsage: real)

  /**
   * The trailing 30-day average, the days until the first snapshot's unreserved stock
   * runs out at that rate, and the usage summed over the whole fetched series.
   */
  function Historical(daily: seq<DailyRow>, unreservedStock: real): (r: HistoricalAnalysis)
    ensures r.daysUntilEmpty.Infinite? <==> r.avgDailyUsage <= 0.0
    ensures r.daysUntilEmpty.Finite? ==> r.daysUntilEmpty.days == unreservedStock / r.avgDailyUsage
    ensures daily == [] ==> r.avgDailyUsage == 0.0 && r.totalUsage == 0.0 && r.daysUntilEmpty.Infinite?
  {
    var avg := AverageDailyUsage(daily, 30);
    HistoricalAnalysis(avg, DaysUntilEmpty(unreservedStock, avg), if daily == [] then 0.0 else Sum(Usages(daily)))
  }

  /**
   * The reported "last 30 days" total is the whole fetched history's usage: the sum of
   * every sold or removed quantity, however many days the history spans.
   */
  lemma TotalUsageIsWholeHistory(history: seq<HistoryRow>, unreservedStock: real)
    requires Depletions(history) != []
    ensures Historical(CalculateDailyUsage(history).value, unreservedStock).totalUsage ==
      Sum(Quantities(Depletions(history)))
  {
    UsageConserved(history);
  }

  // ---------------------------------------------------------------------------
  // The service

  datatype ServiceError =
    | NoHistoryForTraining        // train_models on an empty history
    | InsufficientData            // predict_stock_usage with no history or no stock snapshot
    | NoHistoryForPatterns        // analyze_patterns on an empty history
    | NoUsageRows                 // the history holds no sale or removal, so the daily series cannot be built
    | EmptyForecast               // a forecast without rows has no first date to anchor the windows
    | TooFewDays                  // fitting a forecaster raises on a daily series of fewer than two days

  /** What `train_models` reports on success. */
  datatype TrainReport = TrainReport(dataPoints: nat, start: int, end: int)

  /**
   * What `predict_stock_usage` reports on success. The regression forecast is only
   * drawn as a plot, so it is not part of the report.
   */
  datatype Prediction = Prediction(
    currentStock: real, historical: HistoricalAnalysis, summary: ForecastSummary,
    fullForecast: seq<ForecastRow>)

  /** What `analyze_patterns` reports on success. */
  datatype PatternReport = PatternReport(
    hourly: DistributionReport<int>, weekly: DistributionReport<string>, monthly: DistributionReport<string>)

  /** A fitted time-series forecaster, seen as the forecast it returns for a number of days. */
  datatype ProphetModel = ProphetModel(forecast: nat -> seq<ForecastRow>)

  function Timestamps(history: seq<HistoryRow>): (r: seq<int>)
    ensures |r| == |history| && forall i :: 0 <= i < |r| ==> r[i] == history[i].createdAt
  {
    seq(|history|, i requires 0 <= i < |history| => history[i].createdAt)
  }

  /**
   * `analyze_patterns`: fails on an empty history; otherwise the hourly, weekly and
   * monthly distributions of the orders and the stock operations.
   */
  function AnalyzePatterns(history: seq<HistoryRow>, orderTimes: seq<int>): (r: Result<PatternReport, ServiceError>)
    ensures r.Err? <==> history == []
    ensures r.Err? ==> r.error == NoHistoryForPatterns
    ensures r.Ok? ==>
      r.value.hourly == HourlyDistribution(orderTimes, Timestamps(history)) &&
      r.value.weekly == WeeklyDistribution(orderTimes, Timestamps(history)) &&
      r.value.monthly == MonthlyDistribution(orderTimes, Timestamps(history))
  {
    if history == [] then Err(NoHistoryForPatterns)
    else
      var times := Timestamps(history);
      Ok(PatternReport(HourlyDistribution(orderTimes, times), WeeklyDistribution(orderTimes, times),
                       MonthlyDistribution(orderTimes, times)))
  }

  /** Every stock operation of the history is counted once in each of the three reports. */
  lemma PatternsCountEveryOperation(history: seq<HistoryRow>, orderTimes: seq<int>)
    requires history != []
    ensures CountSum(multiset(Hours(Timestamps(history))), HourDomain()) == |history|
    ensures CountSum(multiset(WeekdayNames(Timestamps(history))), DayNames) == |history|
    ensures CountSum(multiset(MonthNamesOf(Timestamps(history))), MonthNames) == |history|
  {
    HourlyCountsCoverRows(Timestamps(history));
    WeeklyCountsCoverRows(Timestamps(history));
    MonthlyCountsCoverRows(Timestamps(history));
  }

  class Service {
    /** The regression forecaster. */
    const ml: Predictor
    /** The time-series model in memory and the one saved on disk. */
    var prophetModel: Option<ProphetModel>
    var savedProphet: Option<ProphetModel>

    predicate Valid()
      reads this, ml
    {
      ml.Valid()
    }

    constructor(savedMl: Option<Regressor>, savedScaler: bool, savedProphet: Option<ProphetModel>)
      ensures Valid() && fresh(ml)
      ensures ml.model.None? && ml.savedModel == savedMl && ml.savedScaler == savedScaler
      ensures prophetModel.None? && this.savedProphet == savedProphet
    {
      ml := new Predictor(savedMl, savedScaler);
      prophetModel := None;
      this.savedProphet := savedProphet;
    }

    /**
     * `train_models`: fails without training on an empty history or one without
     * usage. A daily series of a single day makes the time-series fit raise before
     * anything is trained. Otherwise both forecasters are trained and saved, and the
     * report gives the size and date range of the daily series.
     */
    method TrainModels(history: seq<HistoryRow>, prophetFit: ProphetModel, mlFit: Regressor)
      returns (r: Result<TrainReport, ServiceError>)
      requires Valid()
      modifies this, ml
      ensures Valid()
      ensures history == [] ==> r == Err(NoHistoryForTraining)
      ensures history != [] && Depletions(history) == [] ==> r == Err(NoUsageRows)
      ensures history != [] && Depletions(history) != [] ==>
        (r.Ok? <==> |CalculateDailyUsage(history).value| >= 2) &&
        (r.Err? ==> r.error == TooFewDays)
      ensures r.Err? ==> unchanged(this, ml)
      ensures r.Ok? ==>
        var daily := CalculateDailyUsage(history).value;
        r.value.dataPoints == |daily| &&
        (forall i :: 0 <= i < |daily| ==> r.value.start <= daily[i].date <= r.value.end) &&
        r.value.end - r.value.start + 1 == |daily|
      ensures r.Ok? ==> prophetModel == savedProphet == Some(prophetFit)
      ensures r.Ok? ==> ml.model == ml.savedModel == Some(mlFit) && ml.savedScaler
    {
      if history == [] {
        return Err(NoHistoryForTraining);
      }
      var usage := CalculateDailyUsage(history);
      if usage.Err? {
        return Err(NoUsageRows);
      }
      var daily := usage.value;
      if |daily| < 2 {
        return Err(TooFewDays);
      }
      prophetModel := Some(prophetFit);
      savedProphet := Some(prophetFit);
      var _ := ml.Train(mlFit, |daily|);
      var start, end := daily[0].date, daily[|daily| - 1].date;
      forall i | 0 <= i < |daily| ensures start <= daily[i].date <= end {
        ConsecutiveDates(daily, 0, i);
        ConsecutiveDates(daily, i, |daily| - 1);
      }
      ConsecutiveDates(daily, 0, |daily| - 1);
      r := Ok(TrainReport(|daily|, start, end));
    }

    /**
     * The loading step of `predict_stock_usage` on a daily series of `rows` days:
     * each forecaster is loaded from what is saved, or trained and saved when
     * nothing usable is saved. Training on fewer than two days raises; `ready` is
     * false then, and a time-series model that had to be trained leaves everything
     * as it was.
     */
    method LoadOrTrain(prophetFit: ProphetModel, mlFit: Regressor, rows: nat) returns (ready: bool)
      requires Valid()
      modifies this, ml
      ensures Valid()
      ensures ready <==> rows >= 2 || (old(savedProphet).Some? && old(ml.savedModel).Some? && old(ml.savedScaler))
      ensures old(savedProphet).None? && rows < 2 ==> unchanged(this, ml)
      ensures old(savedProphet).Some? ==> prophetModel == savedProphet == old(savedProphet)
      ensures old(savedProphet).None? && rows >= 2 ==> prophetModel == savedProphet == Some(prophetFit)
      ensures old(ml.savedModel).Some? && old(ml.savedScaler) && (old(savedProphet).Some? || rows >= 2) ==>
        ml.model == ml.savedModel == old(ml.savedModel)
      ensures !(old(ml.savedModel).Some? && old(ml.savedScaler)) && rows >= 2 ==>
        ml.model == ml.savedModel == Some(mlFit)
      ensures !(old(ml.savedModel).Some? && old(ml.savedScaler)) && rows < 2 ==>
        ml.model == old(ml.model) && ml.savedModel == old(ml.savedModel) && ml.savedScaler == old(ml.savedScaler)
    {
      if savedProphet.Some? {
        prophetModel := savedProphet;
      } else if rows < 2 {
        return false;
      } else {
        prophetModel := Some(prophetFit);
        savedProphet := Some(prophetFit);
      }
      var loaded := ml.LoadModel();
      if loaded.None? {
        var trained := ml.Train(mlFit, rows);
        if trained.Err? {
          return false;
        }
      }
      ready := true;
    }

    /**
     * `predict_stock_usage`: fails when the history or the stock snapshot is empty.
     * Otherwise loads each forecaster, training it only when nothing is saved (which
     * raises on a single-day series), takes both forecasts, and reports the first
     * snapshot's stock, the historical metrics, the rollups of the time-series
     * forecast and that forecast itself.
     */
    method PredictStockUsage(history: seq<HistoryRow>, unreservedStock: seq<real>, today: int, days: nat,
                             prophetFit: ProphetModel, mlFit: Regressor)
      returns (r: Result<Prediction, ServiceError>)
      requires Valid()
      modifies this, ml
      ensures Valid()
      ensures history == [] || unreservedStock == [] ==> r == Err(InsufficientData) && unchanged(this, ml)
      ensures history != [] && unreservedStock != [] && Depletions(history) == [] ==> r == Err(NoUsageRows)
      ensures history != [] && unreservedStock != [] && Depletions(history) != [] ==>
        var saved := old(savedProphet).Some? && old(ml.savedModel).Some? && old(ml.savedScaler);
        var ready := |CalculateDailyUsage(history).value| >= 2 || saved;
        (r == Err(TooFewDays) <==> !ready) &&
        (ready ==>
          (old(savedProphet).Some? ==> prophetModel == old(savedProphet)) &&
          (old(savedProphet).None? ==> prophetModel == savedProphet == Some(prophetFit)) &&
          (old(ml.savedModel).Some? && old(ml.savedScaler) ==> ml.model == old(ml.savedModel)) &&
          (!(old(ml.savedModel).Some? && old(ml.savedScaler)) ==> ml.model == ml.savedModel == Some(mlFit)) &&
          (r.Err? <==> prophetModel.value.forecast(days) == []))
      ensures r.Ok? ==>
        var daily := CalculateDailyUsage(history).value;
        var forecast := prophetModel.value.forecast(days);
        forecast != [] &&
        r.value.currentStock == unreservedStock[0] &&
        r.value.historical == Historical(daily, unreservedStock[0]) &&
        r.value.summary == Summary(forecast) &&
        r.value.fullForecast == forecast
    {
      if history == [] || unreservedStock == [] {
        return Err(InsufficientData);
      }
      var current := unreservedStock[0];
      var usage := CalculateDailyUsage(history);
      if usage.Err? {
        return Err(NoUsageRows);
      }
      var daily := usage.value;
      var ready := LoadOrTrain(prophetFit, mlFit, |daily|);
      if !ready {
        return Err(TooFewDays);
      }
      var forecast := prophetModel.value.forecast(days);
      // The regression forecast is taken, but only its plot reaches the report.
      var _ := ml.Predict(today, days);
      if forecast == [] {
        return Err(EmptyForecast);
      }
      r := Ok(Prediction(current, Historical(daily, current), Summary(forecast), forecast));
    }
  }
}
