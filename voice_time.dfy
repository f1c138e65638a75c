/**
 * The pickup-time half of `processVoiceCommand`: `convertSpanishTimeToNumber`, the
 * `HH:MM` validation applied to its result, and the default of one hour from now.
 */
module VoiceTime {
  import opened Outcomes
  import opened Text

  datatype DayPart = Tarde | Manana | Noche

  /**
   * What a usable time match hands to the converter: for the "N de la tarde/mañana/noche"
   * patterns, the part of the day and the value of the one- or two-digit hour; for the
   * other patterns, the captured text.
   */
  datatype TimeCapture = DayPartTime(part: DayPart, hour: nat) | TimeWords(text: string)

  predicate UsableTime(c: Option<TimeCapture>)
  {
    c.Some? && (c.value.TimeWords? ==> c.value.text != "")
  }

  /**
   * The spelled-out times as hour and minute: "tres y media" is 15:30, "diez" is 10:00.
   * Hours one to nine are read as afternoon hours, ten to twelve as they are.
   */
  function TimeMap(): map<string, (nat, nat)>
  {
    map[
      "una y media" := (13, 30), "dos y media" := (14, 30), "tres y media" := (15, 30),
      "cuatro y media" := (16, 30), "cinco y media" := (17, 30), "seis y media" := (18, 30),
      "siete y media" := (19, 30), "ocho y media" := (20, 30), "nueve y media" := (21, 30),
      "diez y media" := (10, 30), "once y media" := (11, 30), "doce y media" := (12, 30),
      "una" := (13, 0), "dos" := (14, 0), "tres" := (15, 0), "cuatro" := (16, 0),
      "cinco" := (17, 0), "seis" := (18, 0), "siete" := (19, 0), "ocho" := (20, 0),
      "nueve" := (21, 0), "diez" := (10, 0), "once" := (11, 0), "doce" := (12, 0)]
  }

  /** The hour a part-of-day phrase names on the 24-hour clock. */
  function DayPartHour(part: DayPart, hour: nat): nat
  {
    match part
    case Tarde => if hour == 12 then 12 else hour + 12
    case Manana => if hour == 12 then 0 else hour
    case Noche => hour + 12
  }

  /** `convertSpanishTimeToNumber`. */
  function ConvertSpanishTime(c: TimeCapture): string
  {
    match c
    case DayPartTime(part, hour) => Pad2(DayPartHour(part, hour)) + ":00"
    case TimeWords(text) =>
      var key := Trim(LowerString(text));
      if key in TimeMap() then ClockText(TimeMap()[key].0, TimeMap()[key].1) else text
  }

  /** `HH:MM` with an hour below 24 and a minute below 60. */
  predicate IsClockTime(s: string)
  {
    |s| == 5 && s[2] == ':' && AllDigits(s[..2]) && AllDigits(s[3..]) &&
    DigitsValue(s[..2]) <= 23 && DigitsValue(s[3..]) <= 59
  }

  function ClockText(h: nat, m: nat): string
  {
    Pad2(h) + ":" + Pad2(m)
  }

  /** A bare number gets ':00'; any other text is kept. */
  function WithMinutes(time: string): string
  {
    if !Has(time, ':') && time != "" && AllDigits(time) then time + ":00" else time
  }

  /**
   * The check of the text split at ':': exactly two parts whose `parseInt` values are
   * an hour 0–23 and a minute 0–59, re-emitted as zero-padded `HH:MM`.
   */
  function ValidateParts(parts: seq<string>): (r: Option<string>)
    ensures r.Some? ==> IsClockTime(r.value)
  {
    if |parts| != 2 then None
    else
      var h := ParseInt(parts[0]);
      var m := ParseInt(parts[1]);
      if h.Some? && m.Some? && 0 <= h.value <= 23 && 0 <= m.value <= 59 then
        var s := ClockText(h.value, m.value);
        assert s[..2] == Pad2(h.value) && s[3..] == Pad2(m.value);
        Some(s)
      else None
  }

  /**
   * The validation of a converted time: a bare number gets ':00'; the text must split
   * into exactly two parts at ':' whose `parseInt` values are an hour 0–23 and a minute
   * 0–59; the result is re-emitted as zero-padded `HH:MM`. `None` stands for rejection.
   */
  function ValidateTime(time: string): (r: Option<string>)
    ensures r.Some? ==> IsClockTime(r.value)
  {
    ValidateParts(Split(WithMinutes(time), ':'))
  }

  lemma ClockTextSplits(h: nat, m: nat)
    ensures Split(ClockText(h, m), ':') == [Pad2(h), Pad2(m)]
  {
    assert !Has(Pad2(h), ':') by { NoColonInDigits(Pad2(h)); }
    assert !Has(Pad2(m), ':') by { NoColonInDigits(Pad2(m)); }
    SplitOne(Pad2(h), Pad2(m), ':');
    assert ClockText(h, m) == Pad2(h) + [':'] + Pad2(m);
  }

  lemma NoColonInDigits(s: string)
    requires AllDigits(s)
    ensures !Has(s, ':')
  {
  }

  /** A validated time validates to itself: the check accepts exactly what it emits. */
  lemma ValidateClockText(h: nat, m: nat)
    ensures ValidateTime(ClockText(h, m)) == if h <= 23 && m <= 59 then Some(ClockText(h, m)) else None
  {
    var t := ClockText(h, m);
    assert Has(t, ':') by {
      assert t[|Pad2(h)|] == ':';
    }
    assert WithMinutes(t) == t;
    ClockTextSplits(h, m);
    ParsePad2(h);
    ParsePad2(m);
    PartsRead(Pad2(h), Pad2(m), h, m);
  }

  /** Two parts that read as an hour and a minute are accepted exactly when those are in range. */
  lemma PartsRead(a: string, b: string, h: nat, m: nat)
    requires ParseInt(a) == Some(h) && ParseInt(b) == Some(m)
    ensures ValidateParts([a, b]) == if h <= 23 && m <= 59 then Some(ClockText(h, m)) else None
  {
  }

  /**
   * Which part-of-day phrases survive validation: "N de la tarde" for N up to 11 or
   * N = 12, "N de la mañana" for N up to 23, "N de la noche" only for N up to 11 — so
   * "12 de la noche", converted to 24:00, is rejected.
   */
  lemma DayPartAccepted(part: DayPart, hour: nat)
    ensures ValidateTime(ConvertSpanishTime(DayPartTime(part, hour))).Some? <==>
      match part
      case Tarde => hour <= 12
      case Manana => hour <= 23
      case Noche => hour <= 11
    ensures ValidateTime(ConvertSpanishTime(DayPartTime(part, hour))).Some? ==>
      ValidateTime(ConvertSpanishTime(DayPartTime(part, hour))) == Some(ClockText(DayPartHour(part, hour), 0))
  {
    assert Pad2(0) == "00";
    assert ConvertSpanishTime(DayPartTime(part, hour)) == ClockText(DayPartHour(part, hour), 0);
    ValidateClockText(DayPartHour(part, hour), 0);
  }

  /** Every spelled-out time lies between 10:00 and 21:30, on the hour or at half past. */
  lemma TimeMapWithinOpeningHours()
    ensures forall key | key in TimeMap() ::
      10 <= TimeMap()[key].0 <= 21 && (TimeMap()[key].1 == 0 || TimeMap()[key].1 == 30)
  {
  }

  /** A spelled-out time found in the table passes validation as the table's hour and minute. */
  lemma SpelledTimeAccepted(text: string)
    requires Trim(LowerString(text)) in TimeMap()
    ensures var (h, m) := TimeMap()[Trim(LowerString(text))];
      ValidateTime(ConvertSpanishTime(TimeWords(text))) == Some(ClockText(h, m)) && 10 <= h <= 21
  {
    TimeMapWithinOpeningHours();
    var (h, m) := TimeMap()[Trim(LowerString(text))];
    ValidateClockText(h, m);
  }

  /**
   * A bare number is not in the table, so it is read as an hour of the 24-hour clock:
   * "a las 3" becomes 03:00 while "a las tres" becomes 15:00.
   */
  lemma BareHourAccepted(h: nat)
    requires h <= 23
    ensures ValidateTime(ConvertSpanishTime(TimeWords(NatToString(h)))) == Some(ClockText(h, 0))
  {
    DigitsConvertToThemselves(NatToString(h));
    BareDigitsValidate(NatToString(h));
  }

  lemma DigitsConvertToThemselves(s: string)
    requires s != [] && AllDigits(s)
    ensures ConvertSpanishTime(TimeWords(s)) == s
  {
    DigitsNormalized(s);
    DigitsNotAKey(s);
  }

  lemma DigitsNormalized(s: string)
    requires s != [] && AllDigits(s)
    ensures Trim(LowerString(s)) == s
  {
    DigitsLower(s);
    DigitsUnpadded(s);
  }

  lemma DigitsLower(s: string)
    requires AllDigits(s)
    ensures LowerString(s) == s
  {
  }

  lemma DigitsUnpadded(s: string)
    requires s != [] && AllDigits(s)
    ensures DropLeadingSpace(s) == s && DropTrailingSpace(s) == s
  {
    DigitNotSpace(s[0]);
    DigitNotSpace(s[|s| - 1]);
  }

  lemma BareDigitsValidate(s: string)
    requires s != [] && AllDigits(s) && DigitsValue(s) <= 23
    ensures ValidateTime(s) == Some(ClockText(DigitsValue(s), 0))
  {
    NoColonInDigits(s);
    ZeroMinutes();
    var t := s + ":00";
    assert WithMinutes(s) == t;
    assert t == s + [':'] + "00";
    SplitOne(s, "00", ':');
    ParseDigits(s);
    ParsePad2(0);
    PartsRead(s, "00", DigitsValue(s), 0);
  }

  lemma DigitsNotAKey(s: string)
    requires s != [] && IsDigit(s[0])
    ensures s !in TimeMap()
  {
  }

  /** The minutes appended to a bare hour. */
  lemma ZeroMinutes()
    ensures Pad2(0) == "00" && !Has("00", ':')
    ensures forall s: string :: s + ":00" == s + [':'] + "00"
  {
  }

  /** The outcome of one usable time match: the validated `HH:MM`, or "" when validation rejects it. */
  function ResolveTime(c: TimeCapture): (r: string)
    ensures r == "" || IsClockTime(r)
    ensures r == "" <==> ValidateTime(ConvertSpanishTime(c)).None?
  {
    var v := ValidateTime(ConvertSpanishTime(c));
    if v.Some? then v.value else ""
  }

  /** The fallback pickup time: one hour after the current local time, wrapping at midnight. */
  function DefaultPickupTime(nowHour: nat, nowMinute: nat): (r: string)
    requires nowHour < 24 && nowMinute < 60
    ensures IsClockTime(r)
    ensures ValidateTime(r) == Some(r)
  {
    ValidateClockText((nowHour + 1) % 24, nowMinute);
    ClockText((nowHour + 1) % 24, nowMinute)
  }
}
