/**
 * The pick-up time picker: four preset times, a suggestion that depends on the
 * time of day, and the selection with the values reported through `onChange`.
 * The clock reading is a parameter.
 */
module TimeSelector {
  import opened Outcomes
  import opened Text

  const PresetTimes: seq<string> := ["13:00", "13:30", "14:00", "14:30"]

  /** The preset times as minutes after midnight. */
  const PresetMinutes: seq<int> := [780, 810, 840, 870]

  /** The minute of the day an "HH:MM" text names. */
  function ClockMinutes(t: string): nat
    requires |t| == 5 && AllDigits(t[..2]) && AllDigits(t[3..])
  {
    DigitsValue(t[..2]) * 60 + DigitsValue(t[3..])
  }

  lemma TwoDigits(t: string)
    requires |t| == 2 && AllDigits(t)
    ensures DigitsValue(t) == 10 * DigitValue(t[0]) + DigitValue(t[1])
  {
    assert t[..|t| - 1] == t[..1];
    assert t[..1][..|t[..1]| - 1] == [];
    assert DigitsValue(t[..1]) == DigitValue(t[0]);
  }

  /** Each preset names the minute of the day listed beside it. */
  lemma PresetTimesSpellTheirMinutes(i: int)
    requires 0 <= i < 4
    ensures |PresetTimes| == |PresetMinutes| == 4
    ensures |PresetTimes[i]| == 5 && PresetTimes[i][2] == ':'
    ensures AllDigits(PresetTimes[i][..2]) && AllDigits(PresetTimes[i][3..])
    ensures ClockMinutes(PresetTimes[i]) == PresetMinutes[i]
  {
    var t := PresetTimes[i];
    assert AllDigits(t[..2]) && AllDigits(t[3..]);
    TwoDigits(t[..2]);
    TwoDigits(t[3..]);
  }

  /**
   * The preset `getSuggestedTime` picks at `hour`:`minute`: before 12:45 the
   * first, until 13:10 the second, until 13:40 the third, afterwards the last.
   */
  function SuggestedSlot(hour: int, minute: int): (r: nat)
    requires 0 <= hour < 24 && 0 <= minute < 60
    ensures r < 4
    ensures var t := hour * 60 + minute;
      r == if t < 765 then 0 else if t < 790 then 1 else if t < 820 then 2 else 3
  {
    if hour < 12 || (hour == 12 && minute < 45) then 0
    else if hour == 12 || (hour == 13 && minute < 10) then 1
    else if hour == 13 && minute < 40 then 2
    else 3
  }

  /** `getSuggestedTime`: always one of the presets. */
  function SuggestedTime(hour: int, minute: int): (r: string)
    requires 0 <= hour < 24 && 0 <= minute < 60
    ensures r in PresetTimes
    ensures r == PresetTimes[SuggestedSlot(hour, minute)]
  {
    PresetTimes[SuggestedSlot(hour, minute)]
  }

  /** A later time of day never suggests an earlier preset. */
  lemma SuggestionMonotone(h1: int, m1: int, h2: int, m2: int)
    requires 0 <= h1 < 24 && 0 <= m1 < 60 && 0 <= h2 < 24 && 0 <= m2 < 60
    requires h1 * 60 + m1 <= h2 * 60 + m2
    ensures SuggestedSlot(h1, m1) <= SuggestedSlot(h2, m2)
    ensures PresetMinutes[SuggestedSlot(h1, m1)] <= PresetMinutes[SuggestedSlot(h2, m2)]
  {
  }

  /** Until 14:15 the suggestion leaves at least a quarter of an hour to get there. */
  lemma SuggestionLeavesTime(hour: int, minute: int)
    requires 0 <= hour < 24 && 0 <= minute < 60
    requires hour * 60 + minute < 855
    ensures PresetMinutes[SuggestedSlot(hour, minute)] - (hour * 60 + minute) >= 15
  {
  }

  /** The selected time and the times reported through `onChange`, oldest first. */
  class Picker {
    var selectedTime: string
    var reported: seq<string>

    /** The mount effect: without a value, select and report the suggestion; otherwise adopt the value. */
    constructor(value: Option<string>, hour: int, minute: int)
      requires 0 <= hour < 24 && 0 <= minute < 60
      ensures !Truthy(value) ==> selectedTime == SuggestedTime(hour, minute) && reported == [selectedTime]
      ensures Truthy(value) ==> selectedTime == value.value && reported == []
    {
      if !Truthy(value) {
        var suggested := SuggestedTime(hour, minute);
        selectedTime := suggested;
        reported := [suggested];
      } else {
        selectedTime := value.value;
        reported := [];
      }
    }

    /** The effect on a new `value` prop: adopt a non-empty value without reporting it. */
    method ValueChanged(value: Option<string>)
      modifies this
      ensures selectedTime == if Truthy(value) then value.value else old(selectedTime)
      ensures reported == old(reported)
    {
      if Truthy(value) && value.value != selectedTime {
        selectedTime := value.value;
      }
    }

    /** A preset button or an edit of the time field: select the time and report it. */
    method Pick(time: string)
      modifies this
      ensures selectedTime == time
      ensures reported == old(reported) + [time]
    {
      selectedTime := time;
      reported := reported + [time];
    }
  }
}
