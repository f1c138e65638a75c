/**
 * String helpers with JavaScript's meaning: character classes, case mapping for the
 * Spanish alphabet, `split`, `join`, `parseInt`, `toString` and `padStart(2, '0')`.
 */
module Text {
  import opened Outcomes

  predicate IsDigit(c: char)
  {
    '0' <= c <= '9'
  }

  /**
   * The characters of the regular-expression class `\s`, which are also the ones
   * `trim()` removes: JavaScript's white space and line terminators.
   */
  predicate IsSpace(c: char)
  {
    c == ' ' || c == '\t' || c == '\n' || c == '\r' || c == '\U{000B}' || c == '\U{000C}' ||
    c == '\U{00A0}' || c == '\U{1680}' || '\U{2000}' <= c <= '\U{200A}' ||
    c == '\U{2028}' || c == '\U{2029}' || c == '\U{202F}' || c == '\U{205F}' ||
    c == '\U{3000}' || c == '\U{FEFF}'
  }

  lemma DigitNotSpace(c: char)
    requires IsDigit(c)
    ensures !IsSpace(c)
  {
  }

  predicate AllDigits(s: string)
  {
    forall i :: 0 <= i < |s| ==> IsDigit(s[i])
  }

  /** `toUpperCase` on the letters of Spanish text; every other character is kept. */
  function ToUpper(c: char): (r: char)
  {
    if 'a' <= c <= 'z' then (c as int - 32) as char
    else if c == 'á' then 'Á'
    else if c == 'é' then 'É'
    else if c == 'í' then 'Í'
    else if c == 'ó' then 'Ó'
    else if c == 'ú' then 'Ú'
    else if c == 'ñ' then 'Ñ'
    else if c == 'ü' then 'Ü'
    else c
  }

  /** `toLowerCase` on the letters of Spanish text; every other character is kept. */
  function ToLower(c: char): (r: char)
  {
    if 'A' <= c <= 'Z' then (c as int + 32) as char
    else if c == 'Á' then 'á'
    else if c == 'É' then 'é'
    else if c == 'Í' then 'í'
    else if c == 'Ó' then 'ó'
    else if c == 'Ú' then 'ú'
    else if c == 'Ñ' then 'ñ'
    else if c == 'Ü' then 'ü'
    else c
  }

  /** Case mapping never turns a non-space into a space or back, and each mapping is idempotent. */
  lemma CaseMapping(c: char)
    ensures IsSpace(ToUpper(c)) <==> IsSpace(c)
    ensures IsSpace(ToLower(c)) <==> IsSpace(c)
    ensures ToUpper(ToUpper(c)) == ToUpper(c)
    ensures ToLower(ToLower(c)) == ToLower(c)
    ensures ToUpper(ToLower(c)) == ToUpper(c)
    ensures ToLower(ToUpper(c)) == ToLower(c)
  {
  }

  function LowerString(s: string): (r: string)
    ensures |r| == |s|
    ensures forall i :: 0 <= i < |s| ==> r[i] == ToLower(s[i])
  {
    if s == [] then [] else [ToLower(s[0])] + LowerString(s[1..])
  }

  function DropLeadingSpace(s: string): (r: string)
    ensures |r| <= |s| && r == s[|s| - |r|..]
    ensures r == [] || !IsSpace(r[0])
    ensures forall i :: 0 <= i < |s| - |r| ==> IsSpace(s[i])
  {
    if s != [] && IsSpace(s[0]) then DropLeadingSpace(s[1..]) else s
  }

  function DropTrailingSpace(s: string): (r: string)
    ensures |r| <= |s| && r == s[..|r|]
    ensures r == [] || !IsSpace(r[|r| - 1])
    ensures forall i :: |r| <= i < |s| ==> IsSpace(s[i])
  {
    if s != [] && IsSpace(s[|s| - 1]) then DropTrailingSpace(s[..|s| - 1]) else s
  }

  /** `String.prototype.trim` for the spaces of `IsSpace`. */
  function Trim(s: string): (r: string)
    ensures r == [] || (!IsSpace(r[0]) && !IsSpace(r[|r| - 1]))
  {
    DropTrailingSpace(DropLeadingSpace(s))
  }

  /**
   * JavaScript truthiness of an optional string: present and not empty. A missing
   * field, a capture group that did not match and `""` are all falsy.
   */
  predicate Truthy(s: Option<string>)
  {
    s.Some? && s.value != ""
  }

  /** Whether `c` occurs in `s` (`includes` of a one-character string). */
  predicate Has(s: string, c: char)
  {
    exists i :: 0 <= i < |s| && s[i] == c
  }

  function Count(s: string, c: char): (r: nat)
    ensures r <= |s|
    ensures r == 0 <==> !Has(s, c)
  {
    if s == [] then 0
    else
      assert forall i :: 0 <= i < |s[1..]| ==> s[1..][i] == s[i + 1];
      (if s[0] == c then 1 else 0) + Count(s[1..], c)
  }

  /** `s.split(c)` for a one-character separator: one more piece than separators. */
  function Split(s: string, c: char): (r: seq<string>)
    ensures |r| == Count(s, c) + 1
    ensures forall k :: 0 <= k < |r| ==> !Has(r[k], c)
  {
    if s == [] then [""]
    else
      var rest := Split(s[1..], c);
      if s[0] == c then [""] + rest
      else [[s[0]] + rest[0]] + rest[1..]
  }

  /** A string without `c` splits into itself alone. */
  lemma {:induction false} SplitNoSeparator(s: string, c: char)
    requires !Has(s, c)
    ensures Split(s, c) == [s]
  {
    if s != [] {
      assert s[0] != c by { if s[0] == c { assert Has(s, c); } }
      assert [s[0]] + s[1..] == s;
      assert !Has(s[1..], c) by {
        forall i | 0 <= i < |s[1..]| ensures s[1..][i] != c { assert s[1..][i] == s[i + 1]; }
      }
      SplitNoSeparator(s[1..], c);
    }
  }

  /** Splitting `a + [c] + b` where neither side holds `c` gives the two sides. */
  lemma {:induction false} SplitOne(a: string, b: string, c: char)
    requires !Has(a, c) && !Has(b, c)
    ensures Split(a + [c] + b, c) == [a, b]
  {
    if a == [] {
      assert a + [c] + b == [c] + b;
      assert ([c] + b)[1..] == b;
      SplitNoSeparator(b, c);
    } else {
      assert (a + [c] + b)[1..] == a[1..] + [c] + b;
      assert !Has(a[1..], c) by {
        forall i | 0 <= i < |a[1..]| ensures a[1..][i] != c { assert a[1..][i] == a[i + 1]; }
      }
      SplitOne(a[1..], b, c);
      assert [a[0]] + a[1..] == a;
    }
  }

  /** `parts.join(sep)`. */
  function Join(parts: seq<string>, sep: string): string
  {
    if parts == [] then ""
    else if |parts| == 1 then parts[0]
    else parts[0] + sep + Join(parts[1..], sep)
  }

  function DigitValue(c: char): (r: nat)
    requires IsDigit(c)
    ensures r < 10
  {
    c as int - '0' as int
  }

  function DigitChar(d: nat): (c: char)
    requires d < 10
    ensures IsDigit(c) && DigitValue(c) == d
  {
    ('0' as int + d) as char
  }

  /** The value of a string of decimal digits. */
  function DigitsValue(s: string): nat
    requires AllDigits(s)
  {
    if s == [] then 0 else 10 * DigitsValue(s[..|s| - 1]) + DigitValue(s[|s| - 1])
  }

  /** The longest prefix of digits. */
  function LeadingDigits(s: string): (r: string)
    ensures AllDigits(r) && |r| <= |s| && r == s[..|r|]
    ensures |r| < |s| ==> !IsDigit(s[|r|])
  {
    if s != [] && IsDigit(s[0]) then [s[0]] + LeadingDigits(s[1..]) else []
  }

  /**
   * `parseInt(s)` in base 10: leading spaces, an optional sign, then the longest run of
   * digits; `None` stands for NaN when there is no digit.
   */
  function ParseInt(s: string): (r: Option<int>)
    ensures r.None? <==> LeadingDigits(Unsigned(DropLeadingSpace(s))) == []
  {
    var t := DropLeadingSpace(s);
    var negative := t != [] && t[0] == '-';
    var digits := LeadingDigits(Unsigned(t));
    if digits == [] then None
    else Some(if negative then -(DigitsValue(digits) as int) else DigitsValue(digits))
  }

  /** `t` without its leading sign character, if any. */
  function Unsigned(t: string): string
  {
    if t != [] && (t[0] == '-' || t[0] == '+') then t[1..] else t
  }

  /**
   * Code-point lexicographic order: how `localeCompare` orders labels made of
   * digits, a sign, spaces and one fixed word.
   */
  predicate LexLe(a: string, b: string)
    decreases |a|
  {
    a == [] || (b != [] && (a[0] < b[0] || (a[0] == b[0] && LexLe(a[1..], b[1..]))))
  }

  lemma {:induction false} LexLeTotal(a: string, b: string)
    ensures LexLe(a, b) || LexLe(b, a)
    decreases |a|
  {
    if a != [] && b != [] && a[0] == b[0] {
      LexLeTotal(a[1..], b[1..]);
    }
  }

  lemma {:induction false} LexLeTransitive(a: string, b: string, c: string)
    requires LexLe(a, b) && LexLe(b, c)
    ensures LexLe(a, c)
    decreases |a|
  {
    if a != [] && a[0] == b[0] && b[0] == c[0] {
      LexLeTransitive(a[1..], b[1..], c[1..]);
    }
  }

  lemma {:induction false} LexLeAntisymmetric(a: string, b: string)
    requires LexLe(a, b) && LexLe(b, a)
    ensures a == b
    decreases |a|
  {
    if a != [] {
      LexLeAntisymmetric(a[1..], b[1..]);
      assert a == [a[0]] + a[1..] && b == [b[0]] + b[1..];
    }
  }

  /** `n.toString()` for an integer. */
  function IntToString(n: int): (r: string)
    ensures |r| >= 1
    ensures n >= 0 ==> r == NatToString(n)
    ensures n < 0 ==> r == "-" + NatToString(-n)
  {
    if n >= 0 then NatToString(n) else "-" + NatToString(-n)
  }

  /** Different numbers are written differently. */
  lemma IntToStringInjective(m: int, n: int)
    requires m != n
    ensures IntToString(m) != IntToString(n)
  {
    var sm, sn := IntToString(m), IntToString(n);
    if m >= 0 && n >= 0 {
      assert DigitsValue(sm) != DigitsValue(sn);
    } else if m < 0 && n < 0 {
      assert sm[1..] == NatToString(-m) && sn[1..] == NatToString(-n);
      assert DigitsValue(sm[1..]) != DigitsValue(sn[1..]);
    } else if m >= 0 {
      assert IsDigit(sm[0]) && sn[0] == '-';
    } else {
      assert sm[0] == '-' && IsDigit(sn[0]);
    }
  }

  /** `n.toString()` for a natural number. */
  function NatToString(n: nat): (r: string)
    ensures |r| >= 1 && AllDigits(r)
    ensures DigitsValue(r) == n
    ensures n < 10 <==> |r| == 1
  {
    if n < 10 then [DigitChar(n)]
    else
      var r := NatToString(n / 10) + [DigitChar(n % 10)];
      assert r[..|r| - 1] == NatToString(n / 10);
      r
  }

  /** `n.toString().padStart(2, '0')`. */
  function Pad2(n: nat): (r: string)
    ensures AllDigits(r) && |r| >= 2
    ensures n < 100 ==> |r| == 2
    ensures DigitsValue(r) == n
  {
    if n < 10 then
      var r := "0" + NatToString(n);
      assert r[..1] == "0";
      r
    else NatToString(n)
  }

  /** A non-empty run of digits parses to its value. */
  lemma ParseDigits(s: string)
    requires s != [] && AllDigits(s)
    ensures ParseInt(s) == Some(DigitsValue(s))
  {
    assert DropLeadingSpace(s) == s;
    assert Unsigned(s) == s;
    LeadingDigitsAll(s);
  }

  /** The two-digit padding reads back as the number it was made from. */
  lemma ParsePad2(n: nat)
    ensures ParseInt(Pad2(n)) == Some(n)
  {
    ParseDigits(Pad2(n));
  }

  lemma {:induction false} LeadingDigitsAll(s: string)
    requires AllDigits(s)
    ensures LeadingDigits(s) == s
  {
    if s != [] {
      LeadingDigitsAll(s[1..]);
    }
  }
}
