/**
 * The database browser's table: the columns and cell texts of the rows of one
 * page, the "Mostrando a … de …" range and the previous/next page buttons.
 *
 * JavaScript values are reduced to what the cell text depends on: the decimal
 * text of a number, and for a date its ISO text and its local text.
 */
module DataTable {
  import opened Outcomes
  import opened RouteHelpers

  datatype JsValue =
    | Null
    | Undefined
    | Bool(b: bool)
    | Number(text: string)
    | Str(s: string)
    /** A `Date`: `toISOString()` and `toLocaleString()`. */
    | DateValue(iso: string, local: string)
    /** Any other object or array, with its `JSON.stringify` text. */
    | Object(json: string)

  /** `typeof value === 'object'`, which is also true of a date. */
  predicate IsObject(v: JsValue)
  {
    v.DateValue? || v.Object?
  }

  /** `JSON.stringify`: a date is written as its ISO text in double quotes. */
  function Json(v: JsValue): string
    requires IsObject(v)
  {
    if v.DateValue? then "\"" + v.iso + "\"" else v.json
  }

  /** `String(value)` for the values the earlier tests let through. */
  function StringOf(v: JsValue): string
  {
    match v
    case Null => "null"
    case Undefined => "undefined"
    case Bool(b) => if b then "true" else "false"
    case Number(text) => text
    case Str(s) => s
    case DateValue(_, local) => local
    case Object(json) => json
  }

  /**
   * `formatValue` as written: the object test comes before the date test, so a date
   * is shown as its quoted ISO text and the `toLocaleString()` branch is never taken.
   */
  function FormatValueAsWritten(v: JsValue): (r: string)
    ensures v.Null? ==> r == "NULL"
    ensures IsObject(v) ==> r == Json(v)
    ensures v.Bool? ==> r == (if v.b then "true" else "false")
    ensures !v.Null? && !IsObject(v) ==> r == StringOf(v)
  {
    if v.Null? then "NULL"
    else if IsObject(v) then Json(v)
    else if v.Bool? then (if v.b then "true" else "false")
    else if v.DateValue? then LocaleText(v)
    else StringOf(v)
  }

  /** `toLocaleString()` of a date. */
  function LocaleText(v: JsValue): string
  {
    match v
    case DateValue(_, local) => local
    case _ => StringOf(v)
  }

  /** A date cell as written starts with a double quote, whatever its local text is. */
  lemma DateShownAsJson(iso: string, local: string)
    ensures FormatValueAsWritten(DateValue(iso, local)) == "\"" + iso + "\""
    ensures FormatValueAsWritten(DateValue(iso, local))[0] == '"'
  {
  }

  /** The date the browser would show as "15/10/2026, 13:30:00" comes out as its quoted ISO text. */
  lemma DateBranchNeverTaken()
    ensures var d := DateValue("2026-10-15T11:30:00.000Z", "15/10/2026, 13:30:00");
      FormatValueAsWritten(d) == "\"" + d.iso + "\"" && FormatValueAsWritten(d) != d.local
  {
    var iso, local := "2026-10-15T11:30:00.000Z", "15/10/2026, 13:30:00";
    DateShownAsJson(iso, local);
    assert local[0] == '1';
  }

  /**
   * `formatValue` with the date test before the object test, as its date branch
   * intends: "NULL" for null, the local text of a date, JSON for other objects,
   * "true"/"false" for booleans and `String(value)` for the rest.
   */
  function FormatValue(v: JsValue): (r: string)
    ensures v.Null? ==> r == "NULL"
    ensures v.DateValue? ==> r == v.local
    ensures !v.DateValue? ==> r == FormatValueAsWritten(v)
  {
    if v.Null? then "NULL"
    else if v.DateValue? then v.local
    else if IsObject(v) then Json(v)
    else if v.Bool? then (if v.b then "true" else "false")
    else StringOf(v)
  }

  /** A row: its keys in `Object.keys` order and its values. */
  datatype Row = Row(keys: seq<string>, values: map<string, JsValue>)

  /** `row[column]`: a key the row does not have reads as `undefined`. */
  function Cell(row: Row, column: string): JsValue
  {
    if column in row.values then row.values[column] else Undefined
  }

  /** The columns and the cell texts of a non-empty page. */
  datatype TableView = TableView(columns: seq<string>, cells: seq<seq<string>>)

  /**
   * The table: none for missing or empty data (only the "no data" message);
   * otherwise the keys of the first row as columns and one line of texts per row.
   * The cells use the corrected `FormatValue`, under which a date shows its local text.
   */
  function Table(data: Option<seq<Row>>): (r: Option<TableView>)
    ensures r.None? <==> data.None? || |data.value| == 0
    ensures r.Some? ==> r.value.columns == data.value[0].keys
    ensures r.Some? ==> |r.value.cells| == |data.value|
    ensures r.Some? ==> forall i :: 0 <= i < |data.value| ==> |r.value.cells[i]| == |r.value.columns|
    ensures r.Some? ==> forall i, j :: 0 <= i < |data.value| && 0 <= j < |r.value.columns| ==>
      r.value.cells[i][j] == FormatValue(Cell(data.value[i], r.value.columns[j]))
  {
    if data.None? || |data.value| == 0 then None
    else
      var rows := data.value;
      var columns := rows[0].keys;
      Some(TableView(columns, seq(|rows|, i requires 0 <= i < |rows| =>
        seq(|columns|, j requires 0 <= j < |columns| => FormatValue(Cell(rows[i], columns[j]))))))
  }

  /** A row without one of the first row's keys shows "undefined" in that column. */
  lemma MissingKeyShowsUndefined(data: seq<Row>, i: nat, j: nat)
    requires 0 <= i < |data| && |data| > 0 && j < |data[0].keys|
    requires data[0].keys[j] !in data[i].values
    ensures Table(Some(data)).value.cells[i][j] == "undefined"
  {
  }

  datatype Pagination = Pagination(total: int, page: int, limit: int, totalPages: int)

  /** The first and the last row number of "Mostrando … a … de …". */
  function FirstShown(p: Pagination): int
  {
    (p.page - 1) * p.limit + 1
  }

  function LastShown(p: Pagination): int
  {
    if p.page * p.limit < p.total then p.page * p.limit else p.total
  }

  /**
   * For the pagination the server sends with a page that has rows, the range starts
   * after the skipped rows and counts exactly the rows of the page.
   */
  lemma RangeCountsThePage(total: nat, page: int, limit: int)
    requires limit > 0 && 1 <= page <= TotalPages(total, limit)
    ensures var p := Pagination(total, page, limit, TotalPages(total, limit));
      FirstShown(p) == Offset(page, limit) + 1 &&
      1 <= FirstShown(p) <= LastShown(p) <= total &&
      LastShown(p) - FirstShown(p) + 1 == (if limit < total - Offset(page, limit) then limit else total - Offset(page, limit))
  {
    PagesCoverRows(total, limit, page);
    assert page * limit == Offset(page, limit) + limit;
    assert Offset(page, limit) >= 0 by {
      ProductSign(page - 1, limit);
    }
  }

  /** `Math.max(1, page - 1)`. */
  function PrevTarget(page: int): int
  {
    if page - 1 > 1 then page - 1 else 1
  }

  /** `Math.min(totalPages, page + 1)`. */
  function NextTarget(page: int, totalPages: int): int
  {
    if page + 1 < totalPages then page + 1 else totalPages
  }

  predicate PrevDisabled(p: Pagination)
  {
    p.page == 1
  }

  predicate NextDisabled(p: Pagination)
  {
    p.page == p.totalPages
  }

  /**
   * On a page between 1 and the last, both buttons lead to a page in that range; a
   * button is disabled exactly when it would stay on the current page, and an
   * enabled one moves by one page.
   */
  lemma ButtonsStayOnPages(p: Pagination)
    requires 1 <= p.page <= p.totalPages
    ensures 1 <= PrevTarget(p.page) <= p.page
    ensures p.page <= NextTarget(p.page, p.totalPages) <= p.totalPages
    ensures PrevDisabled(p) <==> PrevTarget(p.page) == p.page
    ensures NextDisabled(p) <==> NextTarget(p.page, p.totalPages) == p.page
    ensures !PrevDisabled(p) ==> PrevTarget(p.page) == p.page - 1
    ensures !NextDisabled(p) ==> NextTarget(p.page, p.totalPages) == p.page + 1
  {
  }
}
