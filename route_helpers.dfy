/**
 * Small pieces of arithmetic and text handling in the server's route table: the
 * pagination of the database browser, the path clean-up of the file-exists check, and
 * the featured-menu settings created by the settings initializer.
 */
module RouteHelpers {
  import opened Outcomes

  // ---------------------------------------------------------------------------
  // Pagination

  /**
   * `parseInt(query) || fallback`: a missing or unparsable parameter (NaN) and 0 both
   * give the fallback; any other value, negative ones included, is kept.
   */
  function ParamOr(parsed: Option<int>, fallback: int): (r: int)
    ensures parsed.None? || parsed.value == 0 ==> r == fallback
    ensures parsed.Some? && parsed.value != 0 ==> r == parsed.value
  {
    if parsed.None? || parsed.value == 0 then fallback else parsed.value
  }

  function PageParam(parsed: Option<int>): (r: int)
    ensures r != 0
  {
    ParamOr(parsed, 1)
  }

  function LimitParam(parsed: Option<int>): (r: int)
    ensures r != 0
  {
    ParamOr(parsed, 10)
  }

  /** The number of rows skipped before page `page`. */
  function Offset(page: int, limit: int): int
  {
    (page - 1) * limit
  }

  /** `Math.ceil(total / limit)` for a non-zero limit: the least integer not below the quotient. */
  function TotalPages(total: nat, limit: int): (r: int)
    requires limit != 0
    ensures limit > 0 ==> (r - 1) * limit < total <= r * limit
    ensures limit < 0 ==> r * limit <= total < (r - 1) * limit
  {
    if limit > 0 then (total + limit - 1) / limit
    else -(total / -limit)
  }

  /** With a positive limit there is no page when there are no rows, and at least one otherwise. */
  lemma TotalPagesBounds(total: nat, limit: int)
    requires limit > 0
    ensures total == 0 <==> TotalPages(total, limit) == 0
    ensures 0 <= TotalPages(total, limit) <= total
  {
    var r := TotalPages(total, limit);
    ProductSign(r, limit);
    ProductSign(r - 1, limit);
    if r >= 1 {
      ProductAtLeast(r - 1, limit);
    }
  }

  lemma ProductSign(a: int, b: int)
    requires b > 0
    ensures a < 0 <==> a * b < 0
    ensures a == 0 <==> a * b == 0
  {
    if a < 0 {
      assert a * b == -((-a) * b);
    }
  }

  lemma ProductAtLeast(a: nat, b: int)
    requires b >= 1
    ensures a * b >= a
  {
    assert a * b == a + a * (b - 1);
  }

  /**
   * Pages 1 to `TotalPages` start inside the table and the page after the last one
   * starts past its end, so the pages shown are exactly the non-empty ones.
   */
  lemma PagesCoverRows(total: nat, limit: int, page: int)
    requires limit > 0 && page >= 1
    ensures page <= TotalPages(total, limit) <==> Offset(page, limit) < total
  {
    var r := TotalPages(total, limit);
    if page <= r {
      assert (page - 1) * limit <= (r - 1) * limit;
    } else {
      assert (page - 1) * limit >= r * limit;
    }
  }

  // ---------------------------------------------------------------------------
  // Path normalisation of the file-exists check

  /** No two consecutive dots. */
  predicate NoDotDot(s: string)
  {
    forall i :: 0 <= i < |s| - 1 ==> !(s[i] == '.' && s[i + 1] == '.')
  }

  /** The characters other than '.', in order. */
  function NonDots(s: string): (r: string)
    ensures forall i :: 0 <= i < |r| ==> r[i] != '.'
  {
    if s == [] then []
    else if s[0] == '.' then NonDots(s[1..])
    else [s[0]] + NonDots(s[1..])
  }

  /**
   * `replace(/\.\./g, '')`: scanning left to right, every non-overlapping ".." is
   * removed in a single pass. Each run of dots shrinks to one dot when its length is
   * odd and vanishes when it is even, so no ".." survives and every other character
   * keeps its place in the order.
   */
  function StripDotDot(s: string): (r: string)
    ensures NoDotDot(r)
    ensures NonDots(r) == NonDots(s)
    ensures |r| <= |s|
    ensures s != [] && s[0] != '.' ==> r != [] && r[0] == s[0]
  {
    if |s| >= 2 && s[0] == '.' && s[1] == '.' then
      StripDotDot(s[2..])
    else if s == [] then []
    else
      var rest := StripDotDot(s[1..]);
      var r := [s[0]] + rest;
      assert forall i :: 1 <= i < |r| ==> r[i] == rest[i - 1];
      assert s[0] == '.' ==> rest == [] || rest[0] != '.';
      r
  }

  /** A path that already has no ".." is left as it is. */
  lemma {:induction false} StripDotDotKeepsClean(s: string)
    requires NoDotDot(s)
    ensures StripDotDot(s) == s
  {
    if s != [] {
      assert NoDotDot(s[1..]) by {
        forall i | 0 <= i < |s[1..]| - 1 ensures !(s[1..][i] == '.' && s[1..][i + 1] == '.') {
          assert s[1..][i] == s[i + 1] && s[1..][i + 1] == s[i + 2];
        }
      }
      StripDotDotKeepsClean(s[1..]);
      assert [s[0]] + s[1..] == s;
    }
  }

  /** Normalising twice is the same as normalising once. */
  lemma StripDotDotIdempotent(s: string)
    ensures StripDotDot(StripDotDot(s)) == StripDotDot(s)
  {
    StripDotDotKeepsClean(StripDotDot(s));
  }

  // ---------------------------------------------------------------------------
  // Settings initializer

  /** A row of the settings table. */
  datatype Setting = Setting(key: string, value: string)

  /** Whether some row of `table` is stored under `key`. */
  predicate HasKey(table: seq<Setting>, key: string)
  {
    exists i :: 0 <= i < |table| && table[i].key == key
  }

  /** The value of the first row stored under `key`, in table order. */
  function Lookup(table: seq<Setting>, key: string): (r: Option<string>)
    ensures r.None? <==> !HasKey(table, key)
    ensures r.Some? ==> exists i :: 0 <= i < |table| && table[i] == Setting(key, r.value)
  {
    if table == [] then None
    else if table[0].key == key then Some(table[0].value)
    else
      var r := Lookup(table[1..], key);
      assert forall i :: 1 <= i < |table| ==> table[i] == table[1..][i - 1];
      r
  }

  /** `getSetting`: the first row's value under `key`, or null when there is no row or its value is empty (`value || null`). */
  function GetSetting(table: seq<Setting>, key: string): (r: Option<string>)
    ensures r.Some? <==> HasKey(table, key) && Lookup(table, key).value != ""
    ensures r.Some? ==> r == Lookup(table, key)
  {
    var v := Lookup(table, key);
    if v.Some? && v.value != "" then v else None
  }

  /** Rows appended after the table are read only for keys the table does not hold. */
  lemma {:induction false} LookupAppend(table: seq<Setting>, extra: seq<Setting>, key: string)
    ensures HasKey(table, key) ==> Lookup(table + extra, key) == Lookup(table, key)
    ensures !HasKey(table, key) ==> Lookup(table + extra, key) == Lookup(extra, key)
  {
    if table != [] {
      assert (table + extra)[1..] == table[1..] + extra;
      LookupAppend(table[1..], extra, key);
      if table[0].key != key && HasKey(table, key) {
        var i :| 0 <= i < |table| && table[i].key == key;
        assert table[1..][i - 1].key == key;
      }
    } else {
      assert table + extra == extra;
    }
  }

  /** Appending rows under other keys does not change what a key reads. */
  lemma LookupPastRows(table: seq<Setting>, extra: seq<Setting>, key: string)
    requires forall s :: s in extra ==> s.key != key
    ensures Lookup(table + extra, key) == Lookup(table, key)
    ensures GetSetting(table + extra, key) == GetSetting(table, key)
  {
    LookupAppend(table, extra, key);
  }

  const FeaturedMenuKeys: seq<string> := ["featured_menu_1", "featured_menu_2", "featured_menu_3"]

  /** The featured-menu keys that have no row in the table, in declaration order. */
  function MissingKeys(table: seq<Setting>): (r: seq<string>)
    ensures |r| <= |FeaturedMenuKeys|
    ensures forall k :: k in r <==> k in FeaturedMenuKeys && !HasKey(table, k)
  {
    MissingFrom(FeaturedMenuKeys, table)
  }

  function MissingFrom(keys: seq<string>, table: seq<Setting>): (r: seq<string>)
    ensures |r| <= |keys|
    ensures forall k :: k in r <==> k in keys && !HasKey(table, k)
  {
    if keys == [] then []
    else if HasKey(table, keys[0]) then MissingFrom(keys[1..], table)
    else [keys[0]] + MissingFrom(keys[1..], table)
  }

  /** The rows `key = k, value = "0"` for the given keys, in order. */
  function ZeroRows(keys: seq<string>): (r: seq<Setting>)
    ensures |r| == |keys| && forall i :: 0 <= i < |r| ==> r[i] == Setting(keys[i], "0")
  {
    seq(|keys|, i requires 0 <= i < |keys| => Setting(keys[i], "0"))
  }

  /**
   * The featured-menu part of the settings initializer: a key is missing when no row
   * is stored under it, whatever its value, and each missing key gets a row with the
   * value "0" (no menu selected), one after the other.
   */
  method InitializeFeaturedMenus(table: seq<Setting>) returns (result: seq<Setting>, inserted: seq<string>)
    ensures inserted == MissingKeys(table)
    ensures result == table + ZeroRows(inserted)
    ensures forall k :: k in FeaturedMenuKeys ==> HasKey(result, k)
    ensures MissingKeys(result) == []
  {
    result, inserted := InsertMissing(FeaturedMenuKeys, table);
  }

  /**
   * Appends a row with the value "0" for each of `keys` that has no row yet, in
   * order: the stored rows stay as they are, and afterwards every key has a row.
   */
  method InsertMissing(keys: seq<string>, table: seq<Setting>) returns (result: seq<Setting>, inserted: seq<string>)
    ensures inserted == MissingFrom(keys, table)
    ensures result == table + ZeroRows(inserted)
    ensures forall k :: k in keys ==> HasKey(result, k)
    ensures MissingFrom(keys, result) == []
  {
    inserted := MissingFrom(keys, table);
    result := table;
    var i := 0;
    while i < |inserted|
      invariant 0 <= i <= |inserted|
      invariant result == table + ZeroRows(inserted[..i])
    {
      assert ZeroRows(inserted[..i + 1]) == ZeroRows(inserted[..i]) + [Setting(inserted[i], "0")];
      result := result + [Setting(inserted[i], "0")];
      i := i + 1;
    }
    assert inserted[..i] == inserted;
    forall k | k in keys ensures HasKey(result, k) {
      if HasKey(table, k) {
        var j :| 0 <= j < |table| && table[j].key == k;
        assert result[j] == table[j];
      } else {
        var j :| 0 <= j < |inserted| && inserted[j] == k;
        assert result[|table| + j] == Setting(k, "0");
      }
    }
    NoneMissing(keys, result);
  }

  /** With a row stored under every key, none is missing. */
  lemma NoneMissing(keys: seq<string>, table: seq<Setting>)
    requires forall k :: k in keys ==> HasKey(table, k)
    ensures MissingFrom(keys, table) == []
  {
    if MissingFrom(keys, table) != [] {
      assert MissingFrom(keys, table)[0] in MissingFrom(keys, table);
    }
  }

  /** The basic system settings the initializer adds when absent, as key and default value. */
  const DefaultSettings: seq<(string, string)> := [
    ("smtp_host", "smtp.gmail.com"),
    ("smtp_port", "587"),
    ("smtp_user", "your-email@gmail.com"),
    ("smtp_pass", "your-app-password"),
    ("smtp_from", "Your Restaurant <your-email@gmail.com>"),
    ("dias_abierto", "[\"V\",\"S\",\"D\"]"),
    ("horario_abertura", "10:00"),
    ("horario_cerrar", "16:00"),
    ("minimo_pedido", "1"),
    ("maximo_pedido", "10"),
    ("tiempo_preparacion", "30"),
    ("intervalo_recogida", "15")]

  /** No key occurs twice among `defaults`. */
  predicate DistinctKeys(defaults: seq<(string, string)>)
  {
    forall i, j :: 0 <= i < j < |defaults| ==> defaults[i].0 != defaults[j].0
  }

  /**
   * The rows the basic-settings loop appends to `table`: one per default whose key
   * reads as null, in order. A key whose first row holds "" reads as null too.
   */
  function DefaultRows(defaults: seq<(string, string)>, table: seq<Setting>): (r: seq<Setting>)
    ensures |r| <= |defaults|
    decreases |defaults|
  {
    if defaults == [] then []
    else
      var n := |defaults| - 1;
      DefaultRows(defaults[..n], table) +
      (if GetSetting(table, defaults[n].0).None? then [Setting(defaults[n].0, defaults[n].1)] else [])
  }

  /** A row is appended exactly for a default whose key reads as null. */
  lemma {:induction false} DefaultRowsMembers(defaults: seq<(string, string)>, table: seq<Setting>)
    ensures forall s :: s in DefaultRows(defaults, table) <==> (s.key, s.value) in defaults && GetSetting(table, s.key).None?
    decreases |defaults|
  {
    if defaults != [] {
      var n := |defaults| - 1;
      DefaultRowsMembers(defaults[..n], table);
      assert defaults == defaults[..n] + [defaults[n]];
    }
  }

  /** `DefaultRows` grows by the last default's row, if any. */
  lemma DefaultRowsSnoc(defaults: seq<(string, string)>, i: nat, table: seq<Setting>)
    requires i < |defaults|
    ensures DefaultRows(defaults[..i + 1], table) ==
      DefaultRows(defaults[..i], table) +
      (if GetSetting(table, defaults[i].0).None? then [Setting(defaults[i].0, defaults[i].1)] else [])
  {
    assert defaults[..i + 1][..i] == defaults[..i];
  }

  /** One turn of the basic-settings loop: the key reads as in the table, and its row, if any, comes next. */
  lemma DefaultsStep(defaults: seq<(string, string)>, i: nat, table: seq<Setting>)
    requires DistinctKeys(defaults) && i < |defaults|
    ensures GetSetting(table + DefaultRows(defaults[..i], table), defaults[i].0) == GetSetting(table, defaults[i].0)
    ensures table + DefaultRows(defaults[..i + 1], table) ==
      table + DefaultRows(defaults[..i], table) +
      (if GetSetting(table, defaults[i].0).None? then [Setting(defaults[i].0, defaults[i].1)] else [])
  {
    var key := defaults[i].0;
    var rows := DefaultRows(defaults[..i], table);
    DefaultRowsMembers(defaults[..i], table);
    forall s | s in rows ensures s.key != key {
      var j :| 0 <= j < i && defaults[..i][j] == (s.key, s.value);
      assert defaults[j].0 == s.key;
    }
    LookupPastRows(table, rows, key);
    DefaultRowsSnoc(defaults, i, table);
  }

  /**
   * The basic-settings loop: for each default whose key reads as null, `updateSetting`
   * reads null again and inserts a new row, so exactly the rows of `DefaultRows` are
   * appended and no stored row changes.
   */
  method InsertDefaults(defaults: seq<(string, string)>, table: seq<Setting>) returns (result: seq<Setting>)
    requires DistinctKeys(defaults)
    ensures result == table + DefaultRows(defaults, table)
  {
    result := table;
    var i := 0;
    while i < |defaults|
      invariant 0 <= i <= |defaults|
      invariant result == table + DefaultRows(defaults[..i], table)
    {
      DefaultsStep(defaults, i, table);
      if GetSetting(result, defaults[i].0).None? {
        result := result + [Setting(defaults[i].0, defaults[i].1)];
      }
      i := i + 1;
    }
    assert defaults[..i] == defaults;
  }

  /**
   * What a basic setting reads after the loop: its default when no row was stored,
   * the stored value when it was non-empty, and still null when the first stored row
   * is empty, although a row with the default was appended, so every later run
   * appends one more.
   */
  lemma ReadAfterDefaults(defaults: seq<(string, string)>, table: seq<Setting>, i: nat)
    requires DistinctKeys(defaults) && i < |defaults| && defaults[i].1 != ""
    ensures var result := table + DefaultRows(defaults, table);
      var key := defaults[i].0;
      (!HasKey(table, key) ==> GetSetting(result, key) == Some(defaults[i].1)) &&
      (GetSetting(table, key).Some? ==> GetSetting(result, key) == GetSetting(table, key)) &&
      (Lookup(table, key) == Some("") ==>
        GetSetting(result, key).None? && Setting(key, defaults[i].1) in DefaultRows(defaults, table))
  {
    var rows := DefaultRows(defaults, table);
    var key := defaults[i].0;
    DefaultRowsMembers(defaults, table);
    LookupAppend(table, rows, key);
    if !HasKey(table, key) {
      assert defaults[i] in defaults;
      assert Setting(key, defaults[i].1) in rows;
      var v := Lookup(rows, key).value;
      var j :| 0 <= j < |rows| && rows[j] == Setting(key, v);
      assert rows[j] in rows;
      var m :| 0 <= m < |defaults| && defaults[m] == (key, v);
      assert m == i;
    }
    if Lookup(table, key) == Some("") {
      assert defaults[i] in defaults;
    }
  }

  /** Rows under keys that are not defaults do not change which defaults are appended. */
  lemma {:induction false} DefaultRowsPastOtherKeys(defaults: seq<(string, string)>, table: seq<Setting>, extra: seq<Setting>)
    requires forall s, i :: s in extra && 0 <= i < |defaults| ==> s.key != defaults[i].0
    ensures DefaultRows(defaults, table + extra) == DefaultRows(defaults, table)
    decreases |defaults|
  {
    if defaults != [] {
      var n := |defaults| - 1;
      DefaultRowsPastOtherKeys(defaults[..n], table, extra);
      LookupPastRows(table, extra, defaults[n].0);
    }
  }

  /** The twelve basic settings have distinct keys, none a featured-menu key, and non-empty defaults. */
  lemma DefaultSettingsFacts()
    ensures DistinctKeys(DefaultSettings)
    ensures forall i :: 0 <= i < |DefaultSettings| ==> DefaultSettings[i].0 !in FeaturedMenuKeys
    ensures forall i :: 0 <= i < |DefaultSettings| ==> DefaultSettings[i].1 != ""
  {
    DefaultKeysDistinct();
  }

  lemma DefaultKeysDistinct()
    ensures DistinctKeys(DefaultSettings)
  {
  }

  /**
   * The whole settings initializer: a row with "0" for each featured-menu key without
   * a row, then a row with its default for each basic setting that reads as null. No
   * stored row changes; afterwards every featured-menu key has a row, and a basic
   * setting reads its default when it had no row, keeps a non-empty stored value, and
   * still reads as null when its first row is empty. Only the featured-menu keys are
   * reported as initialized.
   */
  method InitializeSettings(table: seq<Setting>) returns (result: seq<Setting>, inserted: seq<string>)
    ensures inserted == MissingKeys(table)
    ensures result == table + ZeroRows(inserted) + DefaultRows(DefaultSettings, table)
    ensures forall k :: k in FeaturedMenuKeys ==> HasKey(result, k)
    ensures forall i :: 0 <= i < |DefaultSettings| ==>
      (!HasKey(table, DefaultSettings[i].0) ==> GetSetting(result, DefaultSettings[i].0) == Some(DefaultSettings[i].1)) &&
      (GetSetting(table, DefaultSettings[i].0).Some? ==>
        GetSetting(result, DefaultSettings[i].0) == GetSetting(table, DefaultSettings[i].0)) &&
      (Lookup(table, DefaultSettings[i].0) == Some("") ==> GetSetting(result, DefaultSettings[i].0).None?)
  {
    var featured;
    featured, inserted := InitializeFeaturedMenus(table);
    DefaultSettingsFacts();
    result := InsertDefaults(DefaultSettings, featured);
    SettingsPastFeatured(DefaultSettings, table, ZeroRows(inserted));
    forall k | k in FeaturedMenuKeys ensures HasKey(result, k) {
      var j :| 0 <= j < |featured| && featured[j].key == k;
      assert result[j] == featured[j];
    }
  }

  /**
   * The basic-settings step run after rows under other keys were appended: the same
   * rows are appended, and each default reads as it would have without those rows.
   */
  lemma SettingsPastFeatured(defaults: seq<(string, string)>, table: seq<Setting>, extra: seq<Setting>)
    requires DistinctKeys(defaults)
    requires forall i :: 0 <= i < |defaults| ==> defaults[i].1 != ""
    requires forall s, i :: s in extra && 0 <= i < |defaults| ==> s.key != defaults[i].0
    ensures DefaultRows(defaults, table + extra) == DefaultRows(defaults, table)
    ensures forall i :: 0 <= i < |defaults| ==>
      var result := table + extra + DefaultRows(defaults, table);
      (!HasKey(table, defaults[i].0) ==> GetSetting(result, defaults[i].0) == Some(defaults[i].1)) &&
      (GetSetting(table, defaults[i].0).Some? ==> GetSetting(result, defaults[i].0) == GetSetting(table, defaults[i].0)) &&
      (Lookup(table, defaults[i].0) == Some("") ==> GetSetting(result, defaults[i].0).None?)
  {
    DefaultRowsPastOtherKeys(defaults, table, extra);
    forall i | 0 <= i < |defaults|
      ensures var result := table + extra + DefaultRows(defaults, table);
        (!HasKey(table, defaults[i].0) ==> GetSetting(result, defaults[i].0) == Some(defaults[i].1)) &&
        (GetSetting(table, defaults[i].0).Some? ==> GetSetting(result, defaults[i].0) == GetSetting(table, defaults[i].0)) &&
        (Lookup(table, defaults[i].0) == Some("") ==> GetSetting(result, defaults[i].0).None?)
    {
      LookupPastRows(table, extra, defaults[i].0);
      ReadAfterDefaults(defaults, table + extra, i);
    }
  }
}
