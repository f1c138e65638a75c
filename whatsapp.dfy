/**
 * The WhatsApp link for an order: which phone it goes to, how that phone is
 * cleaned, the pieces the message is made of, the `wa.me` URL, and the check
 * that a phone number is usable.
 *
 * The long Spanish date (`toLocaleDateString('es-ES', …)`) and
 * `encodeURIComponent` of the rendered message are inputs.
 */
module WhatsApp {
  import opened Outcomes
  import opened Text
  import opened Calendar
  import opened HalfSteps

  /** The order fields the message reads; the quantity and total are integer columns. */
  datatype Order = Order(
    id: int, customerName: string, customerPhone: Option<string>,
    quantity: int, totalAmount: int, pickupTime: int, details: Option<string>)

  datatype MessageType = Confirmation | Reminder | Custom

  /** What each kind of message says, without its fixed wording. */
  datatype Message =
    | ConfirmationMessage(customerName: string, quantityText: string, date: string, time: string,
                          total: string, details: Option<string>)
    | ReminderMessage(customerName: string, quantityText: string, time: string, total: string)
    | CustomMessage(orderId: int, customerName: string, quantityText: string, date: string, time: string)

  /** The restaurant's number, used when neither the caller nor the order gives one. */
  const DefaultPhone: string := "34123456789"

  const UrlPrefix: string := "https://wa.me/"

  /** `phoneNumber || order.customerPhone || defaultPhone`. */
  function TargetPhone(phoneNumber: Option<string>, customerPhone: Option<string>): (r: string)
    ensures r != ""
    ensures Truthy(phoneNumber) ==> r == phoneNumber.value
    ensures !Truthy(phoneNumber) && Truthy(customerPhone) ==> r == customerPhone.value
    ensures !Truthy(phoneNumber) && !Truthy(customerPhone) ==> r == DefaultPhone
  {
    if Truthy(phoneNumber) then phoneNumber.value
    else if Truthy(customerPhone) then customerPhone.value
    else DefaultPhone
  }

  /** The characters `/[^\d+]/g` does not remove. */
  predicate PhoneChar(c: char)
  {
    IsDigit(c) || c == '+'
  }

  /** `replace(/[^\d+]/g, '')`: the digits and plus signs, in their order. */
  function CleanPhone(s: string): (r: string)
    ensures |r| <= |s|
    ensures forall i :: 0 <= i < |r| ==> PhoneChar(r[i])
  {
    if s == [] then []
    else if PhoneChar(s[0]) then [s[0]] + CleanPhone(s[1..])
    else CleanPhone(s[1..])
  }

  /** Cleaning works piece by piece, so the kept characters stay in their order. */
  lemma {:induction false} CleanPhoneAppend(a: string, b: string)
    ensures CleanPhone(a + b) == CleanPhone(a) + CleanPhone(b)
  {
    if a != [] {
      assert (a + b)[1..] == a[1..] + b;
      CleanPhoneAppend(a[1..], b);
    } else {
      assert a + b == b;
    }
  }

  /** Every digit and plus sign is kept, as often as it occurs; nothing else is. */
  lemma {:induction false} CleanPhoneKeeps(s: string)
    ensures forall c :: multiset(CleanPhone(s))[c] == if PhoneChar(c) then multiset(s)[c] else 0
  {
    if s != [] {
      CleanPhoneKeeps(s[1..]);
      assert s == [s[0]] + s[1..];
    }
  }

  /** A phone made only of digits and plus signs is already clean. */
  lemma {:induction false} CleanPhoneOfClean(s: string)
    requires forall i :: 0 <= i < |s| ==> PhoneChar(s[i])
    ensures CleanPhone(s) == s
  {
    if s != [] {
      CleanPhoneOfClean(s[1..]);
    }
  }

  lemma CleanPhoneIdempotent(s: string)
    ensures CleanPhone(CleanPhone(s)) == CleanPhone(s)
  {
    CleanPhoneOfClean(CleanPhone(s));
  }

  /**
   * `isValidWhatsAppNumber`: false for an empty string; otherwise the cleaned number
   * must have at least 9 characters and either start with '+' or have at least 10.
   */
  function IsValidWhatsAppNumber(phone: string): (r: bool)
    ensures phone == "" ==> !r
    ensures r <==> phone != "" && |CleanPhone(phone)| >= 9 &&
                   (CleanPhone(phone)[0] == '+' || |CleanPhone(phone)| >= 10)
  {
    if phone == "" then false
    else
      var cleaned := CleanPhone(phone);
      |cleaned| >= 9 && (cleaned[0] == '+' || |cleaned| >= 10)
  }

  /** Validity depends only on the cleaned number. */
  lemma ValidityOfCleanedNumber(phone: string)
    ensures IsValidWhatsAppNumber(CleanPhone(phone)) == IsValidWhatsAppNumber(phone)
  {
    CleanPhoneIdempotent(phone);
  }

  /** A nine-digit national number without a prefix is rejected. */
  lemma NineDigitsRejected()
    ensures !IsValidWhatsAppNumber("612345678")
  {
    var nine := "612345678";
    assert forall i :: 0 <= i < |nine| ==> PhoneChar(nine[i]);
    ShortCleanNumberRejected(nine);
  }

  /** A clean number of nine characters that does not start with '+' is rejected. */
  lemma ShortCleanNumberRejected(s: string)
    requires |s| == 9 && s[0] != '+'
    requires forall i :: 0 <= i < |s| ==> PhoneChar(s[i])
    ensures !IsValidWhatsAppNumber(s)
  {
    CleanPhoneOfClean(s);
  }

  /** Nine characters are enough when the number starts with '+'. */
  lemma PlusNineAccepted()
    ensures IsValidWhatsAppNumber("+34612345")
  {
    var plus := "+34612345";
    assert forall i :: 0 <= i < |plus| ==> PhoneChar(plus[i]);
    CleanNumberAccepted(plus);
  }

  /** Ten digits are enough without a '+'. */
  lemma TenDigitsAccepted()
    ensures IsValidWhatsAppNumber("6123456789")
  {
    var ten := "6123456789";
    assert forall i :: 0 <= i < |ten| ==> PhoneChar(ten[i]);
    CleanNumberAccepted(ten);
  }

  /** A clean number of at least nine characters is accepted when it starts with '+' or has ten. */
  lemma CleanNumberAccepted(s: string)
    requires |s| >= 9 && (s[0] == '+' || |s| >= 10)
    requires forall i :: 0 <= i < |s| ==> PhoneChar(s[i])
    ensures IsValidWhatsAppNumber(s)
  {
    CleanPhoneOfClean(s);
  }

  /** The zero-padded "HH:MM" clock reading of the instant `u`. */
  function ClockText(u: int): (r: string)
    ensures |r| == 5 && r[2] == ':'
    ensures ParseInt(r[..2]) == Some(HourOf(u)) && ParseInt(r[3..]) == Some(MinuteOf(u))
  {
    var r := Pad2(HourOf(u)) + ":" + Pad2(MinuteOf(u));
    assert r[..2] == Pad2(HourOf(u)) && r[3..] == Pad2(MinuteOf(u));
    ParsePad2(HourOf(u));
    ParsePad2(MinuteOf(u));
    r
  }

  /**
   * `toISOString().substring(11, 16)`: the UTC "HH:MM" of the pick-up time. Times
   * are counted in the application's zone, which is `utcOffset` seconds ahead of
   * UTC at that instant, so the UTC clock reading is that of `t - utcOffset`.
   */
  function IsoTime(t: int, utcOffset: int): (r: string)
    ensures |r| == 5 && r[2] == ':'
    ensures ParseInt(r[..2]) == Some(HourOf(t - utcOffset)) && ParseInt(r[3..]) == Some(MinuteOf(t - utcOffset))
  {
    ClockText(t - utcOffset)
  }

  /** The total line: `toFixed(2)` and '€' for a non-zero total, "Por confirmar" for 0. */
  function TotalText(totalAmount: int): (r: string)
    ensures totalAmount == 0 <==> r == "Por confirmar"
  {
    if totalAmount != 0 then
      var r := IntToString(totalAmount) + ".00€";
      assert r[|r| - 1] == '€';
      r
    else "Por confirmar"
  }

  /** Different totals are shown differently. */
  lemma TotalTextInjective(a: int, b: int)
    requires a != b
    ensures TotalText(a) != TotalText(b)
  {
    if a != 0 && b != 0 {
      var sa, sb := IntToString(a), IntToString(b);
      IntToStringInjective(a, b);
      if |sa| == |sb| {
        assert TotalText(a)[..|sa|] == sa && TotalText(b)[..|sb|] == sb;
      } else {
        assert |TotalText(a)| != |TotalText(b)|;
      }
    }
  }

  /** The quantity phrase of an order; the integer column always holds a half step. */
  function OrderQuantityText(o: Order): (r: string)
    ensures |r| >= 7
    ensures r[|r| - 1] == 's' <==> o.quantity != 1
  {
    WholeIsHalfStep(o.quantity);
    QuantityText(o.quantity as real)
  }

  /** The pieces of the message of each type; details appear only when not empty. */
  function Compose(o: Order, kind: MessageType, date: string, utcOffset: int): (m: Message)
    ensures m.customerName == o.customerName && m.quantityText == OrderQuantityText(o)
    ensures kind == Confirmation <==> m.ConfirmationMessage?
    ensures kind == Reminder <==> m.ReminderMessage?
    ensures !m.ReminderMessage? ==> m.date == date && m.time == IsoTime(o.pickupTime, utcOffset)
    ensures m.ConfirmationMessage? ==> m.total == TotalText(o.totalAmount) && (m.details.Some? <==> Truthy(o.details))
  {
    var quantityText := OrderQuantityText(o);
    var time := IsoTime(o.pickupTime, utcOffset);
    var total := TotalText(o.totalAmount);
    match kind
    case Confirmation =>
      ConfirmationMessage(o.customerName, quantityText, date, time, total, if Truthy(o.details) then o.details else None)
    case Reminder => ReminderMessage(o.customerName, quantityText, time, total)
    case Custom => CustomMessage(o.id, o.customerName, quantityText, date, time)
  }

  /** The text before the first `c`, or all of `s`. */
  function TakeUntil(s: string, c: char): (r: string)
    ensures |r| <= |s| && r == s[..|r|] && !Has(r, c)
    ensures |r| < |s| ==> s[|r|] == c
  {
    if s == [] || s[0] == c then []
    else
      var r := [s[0]] + TakeUntil(s[1..], c);
      assert !Has(r, c) by {
        forall i | 0 <= i < |r| ensures r[i] != c {
          if i > 0 {
            assert r[i] == TakeUntil(s[1..], c)[i - 1];
          }
        }
      }
      r
  }

  /**
   * `generateWhatsAppMessage`: the `wa.me` link to the cleaned target phone whose
   * text is the encoded message. The phone is everything between the prefix and
   * the first '?', and the encoded message is everything after "?text=".
   */
  function GenerateWhatsAppMessage(o: Order, phoneNumber: Option<string>, kind: MessageType,
                                   date: string, utcOffset: int, encode: Message -> string): (url: string)
    ensures |url| >= |UrlPrefix| && url[..|UrlPrefix|] == UrlPrefix
    ensures TakeUntil(url[|UrlPrefix|..], '?') == CleanPhone(TargetPhone(phoneNumber, o.customerPhone))
    ensures |url| >= |encode(Compose(o, kind, date, utcOffset))| &&
      url[|url| - |encode(Compose(o, kind, date, utcOffset))|..] == encode(Compose(o, kind, date, utcOffset))
  {
    var phone := CleanPhone(TargetPhone(phoneNumber, o.customerPhone));
    var text := encode(Compose(o, kind, date, utcOffset));
    CleanPhoneHasNoQuery(TargetPhone(phoneNumber, o.customerPhone));
    UrlParts(phone, text);
    UrlPrefix + phone + "?text=" + text
  }

  lemma CleanPhoneHasNoQuery(s: string)
    ensures !Has(CleanPhone(s), '?')
  {
    var phone := CleanPhone(s);
    forall i | 0 <= i < |phone| ensures phone[i] != '?' {
      assert PhoneChar(phone[i]);
    }
  }

  /** The prefix, the phone and the text can be read back from the link. */
  lemma UrlParts(phone: string, text: string)
    requires !Has(phone, '?')
    ensures var url := UrlPrefix + phone + "?text=" + text;
      |url| >= |UrlPrefix| && url[..|UrlPrefix|] == UrlPrefix &&
      TakeUntil(url[|UrlPrefix|..], '?') == phone &&
      |url| >= |text| && url[|url| - |text|..] == text
  {
    var url := UrlPrefix + phone + "?text=" + text;
    assert url == UrlPrefix + (phone + ("?text=" + text));
    assert url[|UrlPrefix|..] == phone + ("?text=" + text);
    TakeUntilStops(phone, "?text=" + text, '?');
  }

  /** Reading up to `c` stops at the end of a prefix without `c` that is followed by `c`. */
  lemma {:induction false} TakeUntilStops(a: string, b: string, c: char)
    requires !Has(a, c) && b != [] && b[0] == c
    ensures TakeUntil(a + b, c) == a
  {
    if a != [] {
      assert (a + b)[1..] == a[1..] + b;
      assert a[0] != c;
      assert !Has(a[1..], c) by {
        forall i | 0 <= i < |a[1..]| ensures a[1..][i] != c {
          assert a[1..][i] == a[i + 1];
        }
      }
      TakeUntilStops(a[1..], b, c);
    } else {
      assert a + b == b;
    }
  }
}
