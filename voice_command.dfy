/**
 * `processVoiceCommand`: the post-processing that turns the regular-expression
 * matches found in a transcribed order into a customer name, a quantity, a pickup
 * time and a phone number. Each pattern list is tried in order and the first
 * usable match wins. Matching itself is not modelled: the caller supplies, for
 * every pattern of a list, what that pattern's match produced.
 */
module VoiceCommand {
  import opened Outcomes
  import opened Text
  import opened VoiceTime

  // ---------------------------------------------------------------------------
  // capitalizeName

  predicate NoSpace(w: string)
  {
    forall i :: 0 <= i < |w| ==> !IsSpace(w[i])
  }

  /** The run of non-space characters at the start of `s`. */
  function TakeWord(s: string): (r: string)
    ensures |r| <= |s| && r == s[..|r|] && NoSpace(r)
    ensures |r| < |s| ==> IsSpace(s[|r|])
    ensures s != [] && !IsSpace(s[0]) ==> |r| >= 1
  {
    if s != [] && !IsSpace(s[0]) then [s[0]] + TakeWord(s[1..]) else []
  }

  /**
   * The maximal runs of non-space characters, in order. For a trimmed, non-empty
   * string these are exactly the pieces of `split(/\s+/)`; for a blank string both
   * lead to the empty name.
   */
  function Words(s: string): (r: seq<string>)
    ensures forall k :: 0 <= k < |r| ==> r[k] != [] && NoSpace(r[k])
    decreases |s|
  {
    if s == [] then []
    else if IsSpace(s[0]) then Words(s[1..])
    else
      var w := TakeWord(s);
      [w] + Words(s[|w|..])
  }

  /** Upper-cases the first character and lower-cases the rest. */
  function CapitalizeWord(w: string): (r: string)
    ensures |r| == |w|
    ensures w != [] ==> r[0] == ToUpper(w[0])
    ensures forall i :: 1 <= i < |w| ==> r[i] == ToLower(w[i])
  {
    if w == [] then [] else [ToUpper(w[0])] + LowerString(w[1..])
  }

  function CapitalizeAll(ws: seq<string>): (r: seq<string>)
    ensures |r| == |ws|
    ensures forall k :: 0 <= k < |ws| ==> r[k] == CapitalizeWord(ws[k])
  {
    if ws == [] then [] else [CapitalizeWord(ws[0])] + CapitalizeAll(ws[1..])
  }

  /** `capitalizeName`: trim, split on runs of spaces, capitalize each word, join with one space. */
  function CapitalizeName(name: string): string
  {
    Join(CapitalizeAll(Words(name)), " ")
  }

  lemma {:induction false} TakeWordConcat(w: string, t: string)
    requires w != [] && NoSpace(w)
    requires t == [] || IsSpace(t[0])
    ensures TakeWord(w + t) == w
  {
    assert (w + t)[1..] == w[1..] + t;
    if |w| > 1 {
      TakeWordConcat(w[1..], t);
    } else {
      assert w[1..] + t == t;
    }
  }

  /** A word followed by a space (or by nothing) is read as that word and then the rest. */
  lemma WordsConcat(w: string, t: string)
    requires w != [] && NoSpace(w)
    requires t == [] || IsSpace(t[0])
    ensures Words(w + t) == [w] + Words(t)
  {
    TakeWordConcat(w, t);
    assert (w + t)[|w|..] == t;
  }

  /** Joining non-empty words without spaces by single spaces and reading the words back is the identity. */
  lemma {:induction false} WordsOfJoin(ws: seq<string>)
    requires forall k :: 0 <= k < |ws| ==> ws[k] != [] && NoSpace(ws[k])
    ensures Words(Join(ws, " ")) == ws
  {
    if |ws| == 1 {
      WordsConcat(ws[0], []);
      assert ws[0] + [] == ws[0];
    } else if |ws| > 1 {
      var rest := Join(ws[1..], " ");
      assert Join(ws, " ") == ws[0] + (" " + rest);
      WordsConcat(ws[0], " " + rest);
      assert (" " + rest)[1..] == rest;
      WordsOfJoin(ws[1..]);
      assert ws == [ws[0]] + ws[1..];
    }
  }

  lemma CapitalizeWordShape(w: string)
    requires w != [] && NoSpace(w)
    ensures CapitalizeWord(w) != [] && NoSpace(CapitalizeWord(w))
    ensures CapitalizeWord(CapitalizeWord(w)) == CapitalizeWord(w)
  {
    var r := CapitalizeWord(w);
    forall i | 0 <= i < |w|
      ensures !IsSpace(r[i]) && CapitalizeWord(r)[i] == r[i]
    {
      CaseMapping(w[i]);
    }
  }

  /** The words of the capitalized name are the input's words, each capitalized. */
  lemma WordsOfCapitalizeName(name: string)
    ensures Words(CapitalizeName(name)) == CapitalizeAll(Words(name))
  {
    var ws := CapitalizeAll(Words(name));
    forall k | 0 <= k < |ws|
      ensures ws[k] != [] && NoSpace(ws[k])
    {
      CapitalizeWordShape(Words(name)[k]);
    }
    WordsOfJoin(ws);
  }

  /** Capitalizing a name that is already capitalized changes nothing. */
  lemma CapitalizeNameIdempotent(name: string)
    ensures CapitalizeName(CapitalizeName(name)) == CapitalizeName(name)
  {
    WordsOfCapitalizeName(name);
    var ws := Words(name);
    forall k | 0 <= k < |ws|
      ensures CapitalizeWord(CapitalizeWord(ws[k])) == CapitalizeWord(ws[k])
    {
      CapitalizeWordShape(ws[k]);
    }
    assert CapitalizeAll(CapitalizeAll(ws)) == CapitalizeAll(ws);
  }

  /** A name made only of spaces is empty after capitalization, so the command is rejected. */
  lemma BlankNameIsEmpty(name: string)
    requires forall i :: 0 <= i < |name| ==> IsSpace(name[i])
    ensures CapitalizeName(name) == ""
  {
    if name != [] {
      BlankNameIsEmpty(name[1..]);
    }
  }

  // ---------------------------------------------------------------------------
  // First-match extraction

  /** The first index whose group is truthy. */
  function FirstTruthy(groups: seq<Option<string>>): (r: Option<nat>)
    ensures r.Some? ==> r.value < |groups| && Truthy(groups[r.value])
    ensures r.Some? ==> forall j :: 0 <= j < r.value ==> !Truthy(groups[j])
    ensures r.None? ==> forall j :: 0 <= j < |groups| ==> !Truthy(groups[j])
  {
    if groups == [] then None
    else if Truthy(groups[0]) then Some(0)
    else
      var rest := FirstTruthy(groups[1..]);
      if rest.Some? then Some(rest.value + 1) else None
  }

  /** The customer name the pattern list yields: the first truthy capture, capitalized. */
  function NameFor(groups: seq<Option<string>>): string
  {
    var i := FirstTruthy(groups);
    if i.Some? then CapitalizeName(groups[i.value].value) else ""
  }

  /** The name loop: stops at the first pattern whose capture group is truthy. */
  method ExtractName(groups: seq<Option<string>>) returns (name: string)
    ensures name == NameFor(groups)
  {
    name := "";
    var i := 0;
    while i < |groups|
      invariant 0 <= i <= |groups|
      invariant forall j :: 0 <= j < i ==> !Truthy(groups[j])
    {
      if Truthy(groups[i]) {
        FirstTruthyAt(groups, i);
        name := CapitalizeName(groups[i].value);
        return;
      }
      i := i + 1;
    }
  }

  /** A truthy group with no truthy group before it is the first one. */
  lemma FirstTruthyAt(groups: seq<Option<string>>, i: nat)
    requires i < |groups| && Truthy(groups[i])
    requires forall j :: 0 <= j < i ==> !Truthy(groups[j])
    ensures FirstTruthy(groups) == Some(i)
  {
  }

  /** What one quantity pattern produced: no match, or a match with its optional group. */
  datatype Match = NoMatch | Matched(group: Option<string>)

  /** The quantity patterns, in order: digits, un/uno/1, dos, tres, cuatro, cinco, medio, y medio. */
  const QuantityPatternCount: nat := 8

  function FirstMatched(ms: seq<Match>): (r: Option<nat>)
    ensures r.Some? ==> r.value < |ms| && ms[r.value].Matched?
    ensures r.Some? ==> forall j :: 0 <= j < r.value ==> ms[j].NoMatch?
    ensures r.None? ==> forall j :: 0 <= j < |ms| ==> ms[j].NoMatch?
  {
    if ms == [] then None
    else if ms[0].Matched? then Some(0)
    else
      var rest := FirstMatched(ms[1..]);
      if rest.Some? then Some(rest.value + 1) else None
  }

  /**
   * The quantity set by the matching pattern at `index`: the half and one-and-a-half
   * patterns are recognised first, then a truthy digits group is parsed (a NaN keeps
   * `current`), then the word patterns give 1 to 5.
   */
  function PatternQuantity(index: nat, group: Option<string>, current: real): real
  {
    if index == 6 then 0.5
    else if index == 7 then 1.5
    else if Truthy(group) then
      var n := ParseInt(group.value);
      if n.Some? then n.value as real else current
    else if index == 1 then 1.0
    else if index == 2 then 2.0
    else if index == 3 then 3.0
    else if index == 4 then 4.0
    else if index == 5 then 5.0
    else current
  }

  /** The quantity the pattern list yields; 1 when nothing matches. */
  function QuantityFor(ms: seq<Match>): real
  {
    var i := FirstMatched(ms);
    if i.Some? then PatternQuantity(i.value, ms[i.value].group, 1.0) else 1.0
  }

  /** The quantity loop: stops at the first pattern that matches at all. */
  method ExtractQuantity(ms: seq<Match>) returns (quantity: real)
    requires |ms| == QuantityPatternCount
    ensures quantity == QuantityFor(ms)
  {
    quantity := 1.0;
    var i := 0;
    while i < |ms|
      invariant 0 <= i <= |ms|
      invariant forall j :: 0 <= j < i ==> ms[j].NoMatch?
      invariant quantity == 1.0
    {
      if ms[i].Matched? {
        quantity := PatternQuantity(i, ms[i].group, quantity);
        return;
      }
      i := i + 1;
    }
  }

  /**
   * Earlier patterns shadow later ones: when "un pollo" matches, the quantity is 1 even
   * if the one-and-a-half pattern matches too ("un pollo y medio").
   */
  lemma UnPolloShadowsYMedio(ms: seq<Match>)
    requires |ms| == QuantityPatternCount
    requires ms[0] == NoMatch && ms[1] == Matched(None)
    ensures QuantityFor(ms) == 1.0
  {
    assert FirstMatched(ms) == Some(1) by {
      assert FirstMatched(ms[1..]) == Some(0);
    }
  }

  // ---------------------------------------------------------------------------
  // The time loop

  function FirstUsableTime(cs: seq<Option<TimeCapture>>): (r: Option<nat>)
    ensures r.Some? ==> r.value < |cs| && UsableTime(cs[r.value])
    ensures r.Some? ==> forall j :: 0 <= j < r.value ==> !UsableTime(cs[j])
    ensures r.None? ==> forall j :: 0 <= j < |cs| ==> !UsableTime(cs[j])
  {
    if cs == [] then None
    else if UsableTime(cs[0]) then Some(0)
    else
      var rest := FirstUsableTime(cs[1..]);
      if rest.Some? then Some(rest.value + 1) else None
  }

  /** The pickup time the pattern list yields, or "" when the first usable match is rejected or none exists. */
  function TimeFor(cs: seq<Option<TimeCapture>>): string
  {
    var i := FirstUsableTime(cs);
    if i.None? then "" else ResolveTime(cs[i.value].value)
  }

  /** The time loop: stops at the first usable match even when its time is rejected. */
  method ExtractTime(cs: seq<Option<TimeCapture>>) returns (pickupTime: string)
    ensures pickupTime == TimeFor(cs)
    ensures pickupTime == "" || IsClockTime(pickupTime)
  {
    pickupTime := "";
    var i := 0;
    while i < |cs|
      invariant 0 <= i <= |cs|
      invariant forall j :: 0 <= j < i ==> !UsableTime(cs[j])
    {
      if UsableTime(cs[i]) {
        assert FirstUsableTime(cs) == Some(i);
        pickupTime := ResolveTime(cs[i].value);
        return;
      }
      i := i + 1;
    }
  }

  /** A rejected first match is not rescued by a later, valid one. */
  lemma RejectedTimeStopsSearch(part: DayPart, rest: seq<Option<TimeCapture>>)
    requires part == Noche
    ensures TimeFor([Some(DayPartTime(part, 12))] + rest) == ""
  {
    DayPartAccepted(part, 12);
    assert FirstUsableTime([Some(DayPartTime(part, 12))] + rest) == Some(0);
  }

  function FirstPhone(groups: seq<Option<string>>): (r: Option<nat>)
    ensures r.Some? ==> r.value < |groups| && groups[r.value].Some? && |groups[r.value].value| == 9
    ensures r.Some? ==> forall j :: 0 <= j < r.value ==> !(groups[j].Some? && |groups[j].value| == 9)
    ensures r.None? ==> forall j :: 0 <= j < |groups| ==> !(groups[j].Some? && |groups[j].value| == 9)
  {
    if groups == [] then None
    else if groups[0].Some? && |groups[0].value| == 9 then Some(0)
    else
      var rest := FirstPhone(groups[1..]);
      if rest.Some? then Some(rest.value + 1) else None
  }

  function PhoneFor(groups: seq<Option<string>>): string
  {
    var i := FirstPhone(groups);
    if i.Some? then groups[i.value].value else ""
  }

  /** The phone loop: only a capture of exactly nine characters is taken. */
  method ExtractPhone(groups: seq<Option<string>>) returns (phone: string)
    ensures phone == PhoneFor(groups)
    ensures phone == "" || |phone| == 9
  {
    phone := "";
    var i := 0;
    while i < |groups|
      invariant 0 <= i <= |groups|
      invariant forall j :: 0 <= j < i ==> !(groups[j].Some? && |groups[j].value| == 9)
    {
      if Truthy(groups[i]) && |groups[i].value| == 9 {
        phone := groups[i].value;
        return;
      }
      i := i + 1;
    }
  }

  /** What a recognised voice command yields. */
  datatype VoiceOrder = VoiceOrder(customerName: string, quantity: real, pickupTime: string, phone: string)

  /**
   * `processVoiceCommand`: runs the four loops, falls back to the default pickup time,
   * and returns an order only when the name is not empty and the quantity is positive.
   */
  method ProcessVoiceCommand(
    nameGroups: seq<Option<string>>, quantityMatches: seq<Match>,
    timeCaptures: seq<Option<TimeCapture>>, phoneGroups: seq<Option<string>>,
    nowHour: nat, nowMinute: nat)
    returns (r: Option<VoiceOrder>)
    requires |quantityMatches| == QuantityPatternCount
    requires nowHour < 24 && nowMinute < 60
    ensures r.Some? <==> NameFor(nameGroups) != "" && QuantityFor(quantityMatches) > 0.0
    ensures r.Some? ==>
      r.value.customerName == NameFor(nameGroups) &&
      r.value.quantity == QuantityFor(quantityMatches) &&
      r.value.phone == PhoneFor(phoneGroups) &&
      r.value.pickupTime == (if TimeFor(timeCaptures) != "" then TimeFor(timeCaptures)
                             else DefaultPickupTime(nowHour, nowMinute))
    ensures r.Some? ==> IsClockTime(r.value.pickupTime) && r.value.quantity > 0.0
  {
    var customerName := ExtractName(nameGroups);
    var quantity := ExtractQuantity(quantityMatches);
    var pickupTime := ExtractTime(timeCaptures);
    var phone := ExtractPhone(phoneGroups);
    if pickupTime == "" {
      pickupTime := DefaultPickupTime(nowHour, nowMinute);
    }
    if customerName != "" && quantity > 0.0 {
      return Some(VoiceOrder(customerName, quantity, pickupTime, phone));
    }
    return None;
  }
}
