/**
 * The regression forecaster: the calendar features it derives from a date, their
 * one-hot encoding, the forecast rows with their uncertainty band, the model/scaler
 * state and its persistence, and the choice of the features shown by importance.
 *
 * Dates are day numbers (`Calendar`). The fitted forest and the fitted scaler are
 * library objects; the model sees a fitted regressor only as the value it gives
 * for a row of features.
 */
module MLPredictor {
  import opened Outcomes
  import opened Sorting
  import opened Calendar

  // ---------------------------------------------------------------------------
  // Calendar features

  /** The raw features of one date, before encoding. */
  datatype DateFeatures = DateFeatures(
    dayOfWeek: int, dayOfMonth: int, month: int, year: int, quarter: int,
    isWeekend: bool, isMonthStart: bool, isMonthEnd: bool)

  /** The quarter of a month: months 1-3 are quarter 1, ..., months 10-12 quarter 4. */
  function Quarter(month: int): (q: int)
    requires 1 <= month <= 12
    ensures 1 <= q <= 4
    ensures 3 * (q - 1) < month <= 3 * q
  {
    (month - 1) / 3 + 1
  }

  /** The features of day number `d`. */
  function Features(d: int): (f: DateFeatures)
    ensures 0 <= f.dayOfWeek < 7 && 1 <= f.month <= 12 && 1 <= f.quarter <= 4
    ensures 1 <= f.dayOfMonth <= DaysInMonth(f.year, f.month)
    ensures 3 * (f.quarter - 1) < f.month <= 3 * f.quarter
    ensures f.isWeekend <==> f.dayOfWeek == 5 || f.dayOfWeek == 6
    ensures f.isMonthStart <==> f.dayOfMonth == 1
    ensures f.isMonthEnd <==> f.dayOfMonth == DaysInMonth(f.year, f.month)
  {
    var c := ToCivil(d);
    var wd := Weekday(d);
    LastDayOfMonthIsMonthLength(c);
    DateFeatures(wd, c.day, c.month, c.year, Quarter(c.month),
                 wd >= 5, c.day == 1, c.day == LastDayOfMonth(c))
  }

  /** A date is flagged as a month end exactly when the next date is flagged as a month start. */
  lemma MonthEndBeforeMonthStart(d: int)
    ensures Features(d).isMonthEnd <==> Features(d + 1).isMonthStart
  {
    ToCivilSucc(d);
  }

  /** The weekend flag repeats every seven days and is set on two consecutive days of each week. */
  lemma WeekendPattern(d: int)
    ensures Features(d + 7).isWeekend == Features(d).isWeekend
    ensures Features(d).dayOfWeek == 5 ==> Features(d + 1).isWeekend && !Features(d + 2).isWeekend
  {
    WeekdaySucc(d);
    WeekdaySucc(d + 1);
  }

  // ---------------------------------------------------------------------------
  // One-hot encoding

  /** The least of a non-empty sequence of integers. */
  function Least(values: seq<int>): (r: int)
    requires values != []
    ensures r in values
    ensures forall i :: 0 <= i < |values| ==> r <= values[i]
  {
    if |values| == 1 then values[0]
    else
      var m := Least(values[1..]);
      assert forall i :: 1 <= i < |values| ==> values[i] == values[1..][i - 1];
      if values[0] <= m then values[0] else m
  }

  /**
   * The dummy columns `get_dummies(..., drop_first=True)` creates for one categorical
   * feature: one per distinct value present except the smallest. A value gets a
   * column exactly when some smaller value is present too.
   */
  function DummyColumns(values: seq<int>): (r: set<int>)
    ensures forall v :: v in r <==> v in values && exists w :: w in values && w < v
  {
    if values == [] then {}
    else
      var m := Least(values);
      (set v | v in values) - {m}
  }

  /** A window whose dates all share one value of a feature has no column for it. */
  lemma {:induction false} ConstantFeatureHasNoColumn(values: seq<int>)
    requires forall i :: 0 <= i < |values| ==> values[i] == values[0]
    ensures DummyColumns(values) == {}
  {
    assert forall w :: w in values ==> w == values[0];
  }

  /** The 0/1 entries of value `v` under the given columns. */
  function OneHot(columns: set<int>, v: int): (r: map<int, int>)
    ensures r.Keys == columns
    ensures forall c :: c in r ==> r[c] == 0 || r[c] == 1
    ensures forall c, c' :: c in r && c' in r && r[c] == 1 && r[c'] == 1 ==> c == c'
    ensures (forall c :: c in r ==> r[c] == 0) <==> v !in columns
  {
    var r := map c | c in columns :: if c == v then 1 else 0;
    assert v in columns ==> r[v] == 1;
    r
  }

  /** A row of the feature matrix: the numeric and boolean features and the three encodings. */
  datatype FeatureRow = FeatureRow(
    dayOfMonth: int, year: int, isWeekend: bool, isMonthStart: bool, isMonthEnd: bool,
    dayOfWeek: map<int, int>, month: map<int, int>, quarter: map<int, int>)

  /** The columns of the three encoded features. */
  datatype Columns = Columns(dayOfWeek: set<int>, month: set<int>, quarter: set<int>)

  function Weekdays(dates: seq<int>): (r: seq<int>)
    ensures |r| == |dates| && forall i :: 0 <= i < |r| ==> r[i] == Features(dates[i]).dayOfWeek
  {
    seq(|dates|, i requires 0 <= i < |dates| => Features(dates[i]).dayOfWeek)
  }

  function Months(dates: seq<int>): (r: seq<int>)
    ensures |r| == |dates| && forall i :: 0 <= i < |r| ==> r[i] == Features(dates[i]).month
  {
    seq(|dates|, i requires 0 <= i < |dates| => Features(dates[i]).month)
  }

  function Quarters(dates: seq<int>): (r: seq<int>)
    ensures |r| == |dates| && forall i :: 0 <= i < |r| ==> r[i] == Features(dates[i]).quarter
  {
    seq(|dates|, i requires 0 <= i < |dates| => Features(dates[i]).quarter)
  }

  /** The columns `_prepare_features` produces: they depend on the values the window holds. */
  function ObservedColumns(dates: seq<int>): Columns
  {
    Columns(DummyColumns(Weekdays(dates)), DummyColumns(Months(dates)), DummyColumns(Quarters(dates)))
  }

  /**
   * The columns a fixed category list produces: every weekday but Monday, every month
   * but January, every quarter but the first, whatever dates are encoded.
   */
  const FixedColumns: Columns :=
    Columns(set v | 1 <= v <= 6, set v | 2 <= v <= 12, set v | 2 <= v <= 4)

  /** The encoded row of date `d` under the given columns. */
  function EncodeRow(cols: Columns, d: int): (r: FeatureRow)
    ensures r.dayOfWeek.Keys == cols.dayOfWeek && r.month.Keys == cols.month && r.quarter.Keys == cols.quarter
  {
    var f := Features(d);
    FeatureRow(f.dayOfMonth, f.year, f.isWeekend, f.isMonthStart, f.isMonthEnd,
               OneHot(cols.dayOfWeek, f.dayOfWeek), OneHot(cols.month, f.month), OneHot(cols.quarter, f.quarter))
  }

  /**
   * The feature matrix of a list of dates, with the encoding fixed to `FixedColumns`
   * (the corrected encoding; `ObservedColumns` gives the columns of the encoding as
   * written):
   * the weekday, month and quarter of each date each set at most one column, and set
   * none exactly for the dropped baseline (Monday, January, first quarter).
   */
  function PrepareFeatures(dates: seq<int>): (rows: seq<FeatureRow>)
    ensures |rows| == |dates|
    ensures forall i :: 0 <= i < |rows| ==> rows[i] == EncodeRow(FixedColumns, dates[i])
    ensures forall i :: 0 <= i < |rows| ==>
      ((forall c :: c in rows[i].dayOfWeek ==> rows[i].dayOfWeek[c] == 0) <==> Features(dates[i]).dayOfWeek == 0) &&
      ((forall c :: c in rows[i].month ==> rows[i].month[c] == 0) <==> Features(dates[i]).month == 1) &&
      ((forall c :: c in rows[i].quarter ==> rows[i].quarter[c] == 0) <==> Features(dates[i]).quarter == 1)
  {
    seq(|dates|, i requires 0 <= i < |dates| => EncodeRow(FixedColumns, dates[i]))
  }

  /** A feature whose values cover exactly `lo..hi` gets one column for each of `lo+1..hi`. */
  lemma DummyColumnsOfRange(values: seq<int>, lo: int, hi: int)
    requires lo <= hi
    requires forall v :: lo <= v <= hi ==> v in values
    requires forall i :: 0 <= i < |values| ==> lo <= values[i] <= hi
    ensures forall v :: v in DummyColumns(values) <==> lo < v <= hi
  {
    assert lo in values;
  }

  /** Every quarter is present when every month is. */
  lemma QuartersFromMonths(dates: seq<int>)
    requires forall v :: 1 <= v <= 12 ==> v in Months(dates)
    ensures forall q :: 1 <= q <= 4 ==> q in Quarters(dates)
  {
    var ms, qs := Months(dates), Quarters(dates);
    forall q | 1 <= q <= 4 ensures q in qs {
      assert 3 * q in ms;
      var k :| 0 <= k < |ms| && ms[k] == 3 * q;
      assert qs[k] == q;
    }
  }

  lemma WeekdayColumnsWhenAllPresent(dates: seq<int>)
    requires forall v :: 0 <= v <= 6 ==> v in Weekdays(dates)
    ensures DummyColumns(Weekdays(dates)) == FixedColumns.dayOfWeek
  {
    DummyColumnsOfRange(Weekdays(dates), 0, 6);
  }

  lemma MonthColumnsWhenAllPresent(dates: seq<int>)
    requires forall v :: 1 <= v <= 12 ==> v in Months(dates)
    ensures DummyColumns(Months(dates)) == FixedColumns.month
  {
    DummyColumnsOfRange(Months(dates), 1, 12);
  }

  lemma QuarterColumnsWhenAllPresent(dates: seq<int>)
    requires forall v :: 1 <= v <= 12 ==> v in Months(dates)
    ensures DummyColumns(Quarters(dates)) == FixedColumns.quarter
  {
    QuartersFromMonths(dates);
    DummyColumnsOfRange(Quarters(dates), 1, 4);
  }

  /** The columns observed in a window with every category present are the fixed columns. */
  lemma ObservedColumnsWhenAllPresent(dates: seq<int>)
    requires forall v :: 0 <= v <= 6 ==> v in Weekdays(dates)
    requires forall v :: 1 <= v <= 12 ==> v in Months(dates)
    ensures ObservedColumns(dates) == FixedColumns
  {
    WeekdayColumnsWhenAllPresent(dates);
    MonthColumnsWhenAllPresent(dates);
    QuarterColumnsWhenAllPresent(dates);
  }

  /** The month of each date of a run of consecutive dates. */
  lemma MonthsOfFutureDates(start: int, days: nat)
    ensures forall i :: 0 <= i < days ==> Months(FutureDates(start, days))[i] == ToCivil(start + i).month
  {
  }

  /**
   * A window of at most 30 days that does not start on the last day of a month lies
   * within that month and the next.
   */
  lemma WindowWithinTwoMonths(start: int, days: nat)
    requires days <= 30
    requires ToCivil(start).day < DaysInMonth(ToCivil(start).year, ToCivil(start).month)
    ensures forall i :: 0 <= i < days ==>
      Months(FutureDates(start, days))[i] == ToCivil(start).month ||
      Months(FutureDates(start, days))[i] == NextMonth(ToCivil(start).month)
  {
    var window := Months(FutureDates(start, days));
    var m := ToCivil(start).month;
    MonthsOfFutureDates(start, days);
    forall i | 0 <= i < days ensures window[i] == m || window[i] == NextMonth(m) {
      WithinTwoMonths(start, i);
      assert window[i] == ToCivil(start + i).month;
    }
  }

  /** Any 63 consecutive dates or more cover three distinct months. */
  lemma ThreeMonthsInNineWeeks(first: int, n: nat) returns (i: nat, j: nat, k: nat)
    requires n >= 63
    ensures i < n && j < n && k < n
    ensures Months(FutureDates(first, n))[i] != Months(FutureDates(first, n))[j]
    ensures Months(FutureDates(first, n))[j] != Months(FutureDates(first, n))[k]
    ensures Months(FutureDates(first, n))[i] != Months(FutureDates(first, n))[k]
  {
    MonthsOfFutureDates(first, n);
    i := 0;
    j, k := NextTwoMonths(first);
    assert first + 0 == first;
  }

  /**
   * The encoding as written, for any two windows: when the training dates hold three
   * distinct months, a prediction window within two consecutive months gets other
   * month columns, so the fitted scaler is handed a matrix with other columns than it
   * was fitted on.
   */
  lemma ObservedColumnsDependOnWindow(training: seq<int>, start: int, days: nat, x: int, y: int, z: int)
    requires 1 <= days <= 30
    requires ToCivil(start).day < DaysInMonth(ToCivil(start).year, ToCivil(start).month)
    requires x in Months(training) && y in Months(training) && z in Months(training)
    requires x != y && y != z && x != z
    ensures ObservedColumns(training).month != ObservedColumns(FutureDates(start, days)).month
  {
    var window := Months(FutureDates(start, days));
    WindowWithinTwoMonths(start, days);
    AtMostOneColumn(window, ToCivil(start).month, NextMonth(ToCivil(start).month));
    var u, v := if x < y && x < z then y else x, if x < y && x < z then z else if y < z then z else y;
    assert u != v && u in DummyColumns(Months(training)) && v in DummyColumns(Months(training));
  }

  /** A feature that takes at most two values gets at most one column. */
  lemma AtMostOneColumn(values: seq<int>, a: int, b: int)
    requires forall i :: 0 <= i < |values| ==> values[i] == a || values[i] == b
    ensures forall u, v :: u in DummyColumns(values) && v in DummyColumns(values) ==> u == v
  {
    forall u | u in DummyColumns(values) ensures u == if a < b then b else a {
      var w :| w in values && w < u;
    }
  }

  /**
   * As written, training on 63 consecutive days or more (a 90-day history spans at
   * least that many) never yields the columns of a prediction of up to 30 days that
   * does not start on the last day of a month.
   */
  lemma TrainingColumnsNeverFitPrediction(first: int, n: nat, start: int, days: nat)
    requires n >= 63 && 1 <= days <= 30
    requires ToCivil(start).day < DaysInMonth(ToCivil(start).year, ToCivil(start).month)
    ensures ObservedColumns(FutureDates(first, n)) != ObservedColumns(FutureDates(start, days))
  {
    var training := FutureDates(first, n);
    var i, j, k := ThreeMonthsInNineWeeks(first, n);
    ObservedColumnsDependOnWindow(training, start, days, Months(training)[i], Months(training)[j], Months(training)[k]);
  }

  /** With the fixed encoding, any two windows produce rows with the same columns. */
  lemma FixedColumnsAgree(a: seq<int>, b: seq<int>, i: nat, j: nat)
    requires i < |a| && j < |b|
    ensures PrepareFeatures(a)[i].dayOfWeek.Keys == PrepareFeatures(b)[j].dayOfWeek.Keys
    ensures PrepareFeatures(a)[i].month.Keys == PrepareFeatures(b)[j].month.Keys
    ensures PrepareFeatures(a)[i].quarter.Keys == PrepareFeatures(b)[j].quarter.Keys
  {
  }

  // ---------------------------------------------------------------------------
  // Forecast rows

  /** One forecast row: the date, the prediction and its band. */
  datatype ForecastRow = ForecastRow(ds: int, yhat: real, lower: real, upper: real)

  /** `np.maximum(0, p * 0.8)` and `p * 1.2`. */
  function Band(ds: int, p: real): (r: ForecastRow)
    ensures r.ds == ds && r.yhat == p && r.lower >= 0.0
    ensures p >= 0.0 ==> r.lower <= p <= r.upper
    ensures p < 0.0 ==> r.upper < p < r.lower
  {
    ForecastRow(ds, p, if p * 0.8 > 0.0 then p * 0.8 else 0.0, p * 1.2)
  }

  /** A fitted model with its scaler, seen as the value it predicts for an encoded row. */
  datatype Regressor = Regressor(estimate: FeatureRow -> real)

  /** The `days` dates from `start` on. */
  function FutureDates(start: int, days: nat): (r: seq<int>)
    ensures |r| == days
    ensures forall i :: 0 <= i < days ==> r[i] == start + i
  {
    seq(days, i requires 0 <= i < days => start + i)
  }

  /** The forecast of `model` for `days` dates from `start`. */
  function Forecast(model: Regressor, start: int, days: nat): (r: seq<ForecastRow>)
    ensures |r| == days
    ensures forall i :: 0 <= i < days ==>
      r[i].ds == start + i &&
      r[i].yhat == model.estimate(EncodeRow(FixedColumns, start + i)) &&
      r[i].lower >= 0.0 &&
      (r[i].yhat >= 0.0 ==> r[i].lower <= r[i].yhat <= r[i].upper)
  {
    var dates := FutureDates(start, days);
    var rows := PrepareFeatures(dates);
    FutureRows(start, days);
    var r := seq(days, i requires 0 <= i < days => Band(dates[i], model.estimate(rows[i])));
    assert forall i :: 0 <= i < days ==> r[i] == Band(start + i, model.estimate(EncodeRow(FixedColumns, start + i)));
    r
  }

  lemma FutureRows(start: int, days: nat)
    ensures forall i :: 0 <= i < days ==>
      FutureDates(start, days)[i] == start + i &&
      PrepareFeatures(FutureDates(start, days))[i] == EncodeRow(FixedColumns, start + i)
  {
  }

  /** The dates of a forecast are strictly increasing, one day apart. */
  lemma ForecastDatesConsecutive(model: Regressor, start: int, days: nat, i: nat, j: nat)
    requires i < j < days
    ensures Forecast(model, start, days)[j].ds - Forecast(model, start, days)[i].ds == j - i
  {
  }

  // ---------------------------------------------------------------------------
  // Model state and persistence

  datatype PredictError =
    | NoTrainedModel   // `predict` with no model in memory or on disk
    | TooFewRows       // `train` on fewer than two rows: the 80/20 split leaves no training row

  class Predictor {
    /** The model in memory, if one was trained or loaded. */
    var model: Option<Regressor>
    /** Whether the scaler in memory has been fitted. */
    var scalerFitted: bool
    /** The model file on disk. */
    var savedModel: Option<Regressor>
    /** Whether the scaler file exists on disk. */
    var savedScaler: bool

    /** A model in memory always comes with a fitted scaler. */
    predicate Valid()
      reads this
    {
      model.Some? ==> scalerFitted
    }

    /** A fresh predictor: nothing in memory, whatever files a previous run saved. */
    constructor(savedModel: Option<Regressor>, savedScaler: bool)
      ensures Valid()
      ensures model.None? && !scalerFitted
      ensures this.savedModel == savedModel && this.savedScaler == savedScaler
    {
      model := None;
      scalerFitted := false;
      this.savedModel := savedModel;
      this.savedScaler := savedScaler;
    }

    /**
     * `train` on a series of `rows` rows. The scaler is fitted to the features first
     * (which needs at least one row); the 80/20 split then raises unless there are
     * at least two rows, since one row leaves the training part empty. Otherwise
     * `fitted`, the forest fitted to the scaled features, is kept and both objects
     * are saved.
     */
    method Train(fitted: Regressor, rows: nat) returns (r: Result<Regressor, PredictError>)
      requires Valid()
      modifies this
      ensures Valid()
      ensures r.Err? <==> rows < 2
      ensures r.Ok? ==> r.value == fitted && model == Some(fitted) && scalerFitted
      ensures r.Ok? ==> savedModel == Some(fitted) && savedScaler
      ensures r.Err? ==> r.error == TooFewRows && model == old(model)
      ensures r.Err? ==> savedModel == old(savedModel) && savedScaler == old(savedScaler)
      ensures r.Err? ==> scalerFitted == (old(scalerFitted) || rows == 1)
    {
      if rows == 0 {
        return Err(TooFewRows);
      }
      scalerFitted := true;
      if rows < 2 {
        return Err(TooFewRows);
      }
      model := Some(fitted);
      savedModel := Some(fitted);
      savedScaler := true;
      r := Ok(fitted);
    }

    /** `load_model`: loads both files when both exist and reports None otherwise. */
    method LoadModel() returns (r: Option<Regressor>)
      requires Valid()
      modifies this
      ensures Valid()
      ensures r.Some? <==> savedModel.Some? && savedScaler
      ensures r.Some? ==> model == r == savedModel && scalerFitted
      ensures r.None? ==> model == old(model) && scalerFitted == old(scalerFitted)
      ensures savedModel == old(savedModel) && savedScaler == old(savedScaler)
    {
      if savedModel.Some? && savedScaler {
        model := savedModel;
        scalerFitted := true;
        r := model;
      } else {
        r := None;
      }
    }

    /**
     * `predict`: loads a saved model when none is in memory and fails when there is
     * still none; otherwise forecasts `days` dates from `start`.
     */
    method Predict(start: int, days: nat) returns (r: Result<seq<ForecastRow>, PredictError>)
      requires Valid()
      modifies this
      ensures Valid()
      ensures savedModel == old(savedModel) && savedScaler == old(savedScaler)
      ensures old(model).Some? ==> model == old(model)
      ensures old(model).None? && savedModel.Some? && savedScaler ==> model == savedModel
      ensures old(model).None? && !(savedModel.Some? && savedScaler) ==> model.None?
      ensures r.Err? <==> model.None?
      ensures r.Ok? ==> r.value == Forecast(model.value, start, days)
    {
      if model.None? {
        var _ := LoadModel();
      }
      if model.None? {
        return Err(NoTrainedModel);
      }
      r := Ok(Forecast(model.value, start, days));
    }
  }

  // ---------------------------------------------------------------------------
  // Feature importance

  /** The importances paired with their column indices. */
  function Indexed(importances: seq<real>): (r: seq<(real, nat)>)
    ensures |r| == |importances|
    ensures forall i :: 0 <= i < |r| ==> r[i] == (importances[i], i)
  {
    seq(|importances|, i requires 0 <= i < |importances| => (importances[i], i))
  }

  function ByImportance(a: (real, nat), b: (real, nat)): bool
  {
    a.0 <= b.0
  }

  /** The importances sorted ascending, each with its index. */
  function SortedByImportance(importances: seq<real>): (r: seq<(real, nat)>)
    ensures |r| == |importances|
  {
    SortBy(Indexed(importances), ByImportance)
  }

  /** The sorted pairs are exactly the (importance, index) pairs, in ascending order of importance. */
  lemma SortedByImportanceFacts(importances: seq<real>)
    ensures forall p :: p in SortedByImportance(importances) ==> p.1 < |importances| && p.0 == importances[p.1]
    ensures forall j :: 0 <= j < |importances| ==> (importances[j], j) in SortedByImportance(importances)
    ensures SortedBy(SortedByImportance(importances), ByImportance)
  {
    var pairs := Indexed(importances);
    var sorted := SortedByImportance(importances);
    SortBySorted(pairs, ByImportance);
    forall p | p in sorted ensures p.1 < |importances| && p.0 == importances[p.1] {
      assert p in multiset(pairs);
    }
    forall j | 0 <= j < |importances| ensures (importances[j], j) in sorted {
      assert pairs[j] == (importances[j], j);
      assert pairs[j] in multiset(sorted);
    }
  }

  /**
   * `np.argsort(importances)[-20:]`: the indices of the last (at most) 20 entries of the
   * ascending order. Equal importances keep their index order here; `np.argsort`'s
   * default sort is not stable, so the source may order them otherwise.
   */
  function TopIndices(importances: seq<real>): (r: seq<nat>)
    ensures |r| == if |importances| < 20 then |importances| else 20
    ensures forall x :: 0 <= x < |r| ==> r[x] == SortedByImportance(importances)[|importances| - |r| + x].1
  {
    var n := |importances|;
    var sorted := SortedByImportance(importances);
    var k := if n < 20 then n else 20;
    seq(k, x requires 0 <= x < k => sorted[n - k + x].1)
  }

  /**
   * The features shown are valid columns in ascending order of importance, and no
   * column left out is more important than any column shown.
   */
  lemma TopIndicesAreTheLargest(importances: seq<real>)
    ensures forall x :: 0 <= x < |TopIndices(importances)| ==> TopIndices(importances)[x] < |importances|
    ensures forall x, y :: 0 <= x < y < |TopIndices(importances)| ==>
      importances[TopIndices(importances)[x]] <= importances[TopIndices(importances)[y]]
    ensures forall j, x :: 0 <= j < |importances| && j !in TopIndices(importances) && 0 <= x < |TopIndices(importances)| ==>
      importances[j] <= importances[TopIndices(importances)[x]]
  {
    SortedByImportanceFacts(importances);
    TopOfSorted(importances, SortedByImportance(importances), TopIndices(importances));
  }

  /**
   * The last `|r|` entries of an ascending order of (importance, index) pairs are
   * valid indices, ascending in importance, and no index outside them is larger.
   */
  lemma TopOfSorted(importances: seq<real>, sorted: seq<(real, nat)>, r: seq<nat>)
    requires |r| <= |sorted| && forall y :: 0 <= y < |r| ==> r[y] == sorted[|sorted| - |r| + y].1
    requires SortedBy(sorted, ByImportance)
    requires forall p :: p in sorted ==> p.1 < |importances| && p.0 == importances[p.1]
    requires forall j :: 0 <= j < |importances| ==> (importances[j], j) in sorted
    ensures forall x :: 0 <= x < |r| ==> r[x] < |importances|
    ensures forall x, y :: 0 <= x < y < |r| ==> importances[r[x]] <= importances[r[y]]
    ensures forall j, x :: 0 <= j < |importances| && j !in r && 0 <= x < |r| ==> importances[j] <= importances[r[x]]
  {
    var n, k := |sorted|, |r|;
    forall x | 0 <= x < k ensures r[x] < |importances| {
      assert sorted[n - k + x] in sorted;
    }
    forall x, y | 0 <= x < y < k ensures importances[r[x]] <= importances[r[y]] {
      assert sorted[n - k + x] in sorted && sorted[n - k + y] in sorted;
      assert ByImportance(sorted[n - k + x], sorted[n - k + y]);
    }
    forall j, x | 0 <= j < |importances| && j !in r && 0 <= x < k ensures importances[j] <= importances[r[x]] {
      LeftOutOfSorted(importances, sorted, r, j, x);
    }
  }

  /** An index outside the last `|r|` entries of an ascending order is not larger than those entries. */
  lemma LeftOutOfSorted(importances: seq<real>, sorted: seq<(real, nat)>, r: seq<nat>, j: nat, x: nat)
    requires |r| <= |sorted| && forall y :: 0 <= y < |r| ==> r[y] == sorted[|sorted| - |r| + y].1
    requires SortedBy(sorted, ByImportance)
    requires forall p :: p in sorted ==> p.1 < |importances| && p.0 == importances[p.1]
    requires j < |importances| && (importances[j], j) in sorted
    requires j !in r && x < |r|
    ensures r[x] < |importances| && importances[j] <= importances[r[x]]
  {
    var n, k := |sorted|, |r|;
    assert sorted[n - k + x] in sorted;
    var p :| 0 <= p < n && sorted[p] == (importances[j], j);
    assert forall q :: n - k <= q < n ==> sorted[q].1 == r[q - (n - k)];
    assert p < n - k;
    assert ByImportance(sorted[p], sorted[n - k + x]);
  }
}
