/**
 * components/project-card.tsx, getProjectDuration: a whole number of days
 * shown as days below a month, otherwise as 30-day months and the days left
 * over, with the plural "s" only on a count above one.
 *
 * The day count is the input: turning two date strings into that count is
 * Date parsing and stays outside the model. `ParseDuration` is the grammar
 * of the three label forms, written independently; `LabelIffParse` proves that
 * the labels are exactly the texts it accepts, each read back as its count.
 */
module Duration {
  import opened Wrappers

  /** The decimal digit of `d`. */
  function DigitChar(d: nat): char
    requires d < 10
  {
    "0123456789"[d]
  }

  predicate IsDigit(c: char) {
    '0' <= c <= '9'
  }

  /** `${n}` for a non-negative integer: its decimal digits, with no leading zero. */
  function NatToString(n: nat): (r: string)
    ensures |r| > 0 && forall i :: 0 <= i < |r| ==> IsDigit(r[i])
    ensures r[0] == '0' ==> n == 0
    decreases n
  {
    if n < 10 then [DigitChar(n)] else NatToString(n / 10) + [DigitChar(n % 10)]
  }

  function DigitValue(c: char): nat
    requires IsDigit(c)
  {
    c as int - '0' as int
  }

  /** The number a string of decimal digits denotes. */
  function DigitsValue(s: string): nat
    requires forall i :: 0 <= i < |s| ==> IsDigit(s[i])
  {
    if |s| == 0 then 0 else 10 * DigitsValue(s[..|s| - 1]) + DigitValue(s[|s| - 1])
  }

  /** Reading the digits back gives the number. */
  lemma {:induction false} NatToStringValue(n: nat)
    ensures DigitsValue(NatToString(n)) == n
    decreases n
  {
    if n >= 10 {
      NatToStringValue(n / 10);
      var s := NatToString(n);
      assert s[..|s| - 1] == NatToString(n / 10);
    }
  }

  /** How many digits `s` starts with. */
  function LeadingDigits(s: string): (k: nat)
    ensures k <= |s|
    ensures forall i :: 0 <= i < k ==> IsDigit(s[i])
    ensures k < |s| ==> !IsDigit(s[k])
  {
    if |s| == 0 || !IsDigit(s[0]) then 0 else 1 + LeadingDigits(s[1..])
  }

  /** A number followed by a non-digit is read exactly up to the non-digit. */
  lemma LeadingDigitsOfNumber(n: nat, rest: string)
    requires |rest| > 0 ==> !IsDigit(rest[0])
    ensures LeadingDigits(NatToString(n) + rest) == |NatToString(n)|
  {
    var s := NatToString(n) + rest;
    assert forall i :: 0 <= i < |NatToString(n)| ==> s[i] == NatToString(n)[i];
    if |rest| > 0 {
      assert s[|NatToString(n)|] == rest[0];
    }
  }

  /** `${n} jour${n > 1 ? 's' : ''}` and its months counterpart: the plural suffix. */
  function Plural(n: int): (r: string)
    ensures r == "s" <==> n > 1
    ensures r == "" <==> n <= 1
  {
    if n > 1 then "s" else ""
  }

  /** getProjectDuration, from the whole number of days onwards. */
  function DurationLabel(days: nat): string {
    var months := days / 30;
    if months < 1 then NatToString(days) + (" jour" + Plural(days))
    else
      var remaining := days % 30;
      if remaining == 0 then NatToString(months) + " mois"
      else NatToString(months) + (" mois et " + (NatToString(remaining) + (" jour" + Plural(remaining))))
  }

  /**
   * Reads a count written as `${n}` writes it, and what follows it: None when
   * the text does not start with a digit or starts with a zero followed by
   * more digits.
   */
  function ReadCount(s: string): (r: Option<(nat, string)>)
    ensures r.Some? ==> |r.value.1| < |s|
  {
    var k := LeadingDigits(s);
    if k == 0 || (k > 1 && s[0] == '0') then None else Some((DigitsValue(s[..k]), s[k..]))
  }

  /** The day unit after a count of `n`: " jour", or " jours" above one. */
  function DayUnit(n: nat): string {
    " jour" + Plural(n)
  }

  /**
   * The number of days a label stands for, or None for text that is not a
   * label: "d jour(s)" with d below 30, "m mois" with m at least 1, or
   * "m mois et r jour(s)" with m at least 1 and r from 1 to 29, each unit
   * plural exactly when its count is above one.
   */
  function ParseDuration(text: string): Option<nat> {
    match ReadCount(text)
    case None => None
    case Some((n, rest)) => ParseUnit(n, rest)
  }

  /** What follows the first count: a day unit, " mois", or " mois et " and a second count of days. */
  function ParseUnit(n: nat, rest: string): Option<nat> {
    if rest == DayUnit(n) && n < 30 then Some(n)
    else if rest == " mois" && n >= 1 then Some(30 * n)
    else if n >= 1 && |rest| > 9 && rest[..9] == " mois et " then ParseRemainder(n, rest[9..])
    else None
  }

  /** The days after `n` months. */
  function ParseRemainder(months: nat, rest: string): Option<nat> {
    match ReadCount(rest)
    case None => None
    case Some((r, unit)) => if 1 <= r < 30 && unit == DayUnit(r) then Some(30 * months + r) else None
  }

  /** A count written out and then followed by a non-digit is read back as that count. */
  lemma ReadNumber(n: nat, rest: string)
    requires |rest| > 0 && !IsDigit(rest[0])
    ensures ReadCount(NatToString(n) + rest) == Some((n, rest))
  {
    var s := NatToString(n) + rest;
    LeadingDigitsOfNumber(n, rest);
    assert s[..|NatToString(n)|] == NatToString(n);
    assert s[|NatToString(n)|..] == rest;
    assert n == 0 ==> NatToString(n) == "0";
    NatToStringValue(n);
  }

  lemma ParseDays(days: nat)
    requires days < 30
    ensures ParseDuration(DurationLabel(days)) == Some(days)
  {
    ReadNumber(days, DayUnit(days));
  }

  lemma ParseMonths(days: nat)
    requires days >= 30 && days % 30 == 0
    ensures ParseDuration(DurationLabel(days)) == Some(days)
  {
    ReadNumber(days / 30, " mois");
    assert DayUnit(days / 30)[1] == 'j';
  }

  lemma ParseRemainderOf(months: nat, remaining: nat)
    requires 1 <= remaining < 30
    ensures ParseRemainder(months, NatToString(remaining) + DayUnit(remaining)) == Some(30 * months + remaining)
  {
    ReadNumber(remaining, DayUnit(remaining));
  }

  lemma ParseUnitAnd(months: nat, x: string)
    requires months >= 1 && |x| > 0
    ensures ParseUnit(months, " mois et " + x) == ParseRemainder(months, x)
  {
    var rest := " mois et " + x;
    assert rest[..9] == " mois et " && rest[9..] == x;
    assert rest[1] == 'm' && DayUnit(months)[1] == 'j';
    assert |rest| > 9 && rest != DayUnit(months) && rest != " mois";
  }

  lemma ParseMonthsAndDays(months: nat, remaining: nat)
    requires months >= 1 && 0 < remaining < 30
    ensures ParseDuration(NatToString(months) + (" mois et " + (NatToString(remaining) + DayUnit(remaining))))
         == Some(30 * months + remaining)
  {
    var x := NatToString(remaining) + DayUnit(remaining);
    ReadNumber(months, " mois et " + x);
    ParseUnitAnd(months, x);
    ParseRemainderOf(months, remaining);
  }

  /** Every label reads back as the day count it was made from. */
  lemma ParseLabel(days: nat)
    ensures ParseDuration(DurationLabel(days)) == Some(days)
  {
    if days < 30 {
      ParseDays(days);
    } else if days % 30 == 0 {
      ParseMonths(days);
    } else {
      var months, remaining := days / 30, days % 30;
      assert days == 30 * months + remaining;
      assert DurationLabel(days)
          == NatToString(months) + (" mois et " + (NatToString(remaining) + DayUnit(remaining)));
      ParseMonthsAndDays(months, remaining);
    }
  }

  /** The digit character of a digit's value is that digit. */
  lemma DigitCharValue(c: char)
    requires IsDigit(c)
    ensures DigitChar(DigitValue(c)) == c
  {
  }

  /** Digits that do not start with 0 denote a positive number. */
  lemma {:induction false} PositiveDigits(s: string)
    requires |s| > 0 && s[0] != '0'
    requires forall i :: 0 <= i < |s| ==> IsDigit(s[i])
    ensures DigitsValue(s) >= 1
    decreases |s|
  {
    if |s| > 1 {
      PositiveDigits(s[..|s| - 1]);
    }
  }

  /** Digits without a leading zero are exactly how `${n}` writes the number they denote. */
  lemma {:induction false} DigitsRoundTrip(s: string)
    requires |s| > 0 && (|s| > 1 ==> s[0] != '0')
    requires forall i :: 0 <= i < |s| ==> IsDigit(s[i])
    ensures NatToString(DigitsValue(s)) == s
    decreases |s|
  {
    var last := s[|s| - 1];
    DigitCharValue(last);
    if |s| > 1 {
      var front := s[..|s| - 1];
      PositiveDigits(front);
      DigitsRoundTrip(front);
      var n := DigitsValue(s);
      assert n / 10 == DigitsValue(front) && n % 10 == DigitValue(last);
      assert s == front + [last];
    }
  }

  /** A count read from the text is written there as `${n}` writes it. */
  lemma ReadCountCanonical(s: string)
    ensures var r := ReadCount(s);
      r.Some? ==> s == NatToString(r.value.0) + r.value.1
  {
    var k := LeadingDigits(s);
    if ReadCount(s).Some? {
      DigitsRoundTrip(s[..k]);
      assert s == s[..k] + s[k..];
    }
  }

  /** The label below a month. */
  lemma DaysForm(n: nat)
    requires n < 30
    ensures DurationLabel(n) == NatToString(n) + DayUnit(n)
  {
  }

  /** The label of a whole number of months. */
  lemma MonthsForm(m: nat)
    requires m >= 1
    ensures DurationLabel(30 * m) == NatToString(m) + " mois"
  {
    assert (30 * m) / 30 == m && (30 * m) % 30 == 0;
  }

  /** The label of months and days. */
  lemma MonthsAndDaysForm(m: nat, r: nat, d: nat)
    requires m >= 1 && 1 <= r < 30 && d == 30 * m + r
    ensures DurationLabel(d) == NatToString(m) + (" mois et " + (NatToString(r) + DayUnit(r)))
  {
    assert d / 30 == m && d % 30 == r;
  }

  /** Text after " mois et " that parses is a count of 1 to 29 written out and its day unit. */
  lemma RemainderCanonical(months: nat, x: string, d: nat)
    requires ParseRemainder(months, x) == Some(d)
    ensures ReadCount(x).Some?
    ensures var r := ReadCount(x).value.0;
      1 <= r < 30 && d == 30 * months + r && x == NatToString(r) + DayUnit(r)
  {
    ReadCountCanonical(x);
  }

  /** "m mois et " followed by text that parses is the label of the days it stands for. */
  lemma MonthsAndDaysCanonical(m: nat, x: string, d: nat)
    requires m >= 1 && ParseRemainder(m, x) == Some(d)
    ensures NatToString(m) + (" mois et " + x) == DurationLabel(d)
  {
    RemainderCanonical(m, x, d);
    var r := ReadCount(x).value.0;
    MonthsAndDaysForm(m, r, d);
  }

  /** What follows a count that parses completes that count to the label of the days it stands for. */
  lemma UnitCanonical(n: nat, rest: string, d: nat)
    requires ParseUnit(n, rest) == Some(d)
    ensures NatToString(n) + rest == DurationLabel(d)
  {
    if rest == DayUnit(n) && n < 30 {
      DaysForm(n);
    } else if rest == " mois" && n >= 1 {
      MonthsForm(n);
    } else {
      assert rest == " mois et " + rest[9..];
      MonthsAndDaysCanonical(n, rest[9..], d);
    }
  }

  /** Only a label reads back: text that parses to `d` days is the label of `d`. */
  lemma OnlyLabelsParse(l: string, d: nat)
    requires ParseDuration(l) == Some(d)
    ensures l == DurationLabel(d)
  {
    ReadCountCanonical(l);
    var p := ReadCount(l).value;
    UnitCanonical(p.0, p.1, d);
  }

  /**
   * The labels are exactly the texts the parser accepts: "d jour(s)" below a
   * month, "m mois" on whole months, "m mois et r jour(s)" otherwise.
   */
  lemma LabelIffParse(l: string, d: nat)
    ensures ParseDuration(l) == Some(d) <==> l == DurationLabel(d)
  {
    if ParseDuration(l) == Some(d) {
      OnlyLabelsParse(l, d);
    }
    if l == DurationLabel(d) {
      ParseLabel(d);
    }
  }

  /** The days shown: all of them below a month, otherwise what is left after the whole months. */
  function ShownDays(days: nat): nat {
    if days < 30 then days else days % 30
  }

  /** What a text ending in `tail` ends with. */
  lemma LastFive(x: string, tail: string)
    requires |tail| >= 5
    ensures |x + tail| >= 5 && (x + tail)[|x + tail| - 5..] == tail[|tail| - 5..]
  {
    var l := x + tail;
    assert l[|x|..] == tail;
    assert l[|l| - 5..] == l[|x|..][|tail| - 5..];
  }

  /** A count followed by the day unit ends in "jours" exactly when the count is above one. */
  lemma DayUnitEnding(head: string, n: int)
    ensures var l := head + (" jour" + Plural(n));
      (|l| >= 5 && l[|l| - 5..] == "jours") <==> n > 1
  {
    var tail := " jour" + Plural(n);
    LastFive(head, tail);
    assert tail[|tail| - 5..] == (if n > 1 then "jours" else " jour");
  }

  /** The label ends in "jours" exactly when the days it shows are more than one. */
  lemma PluralOnlyAboveOne(days: nat)
    ensures var l := DurationLabel(days);
      (|l| >= 5 && l[|l| - 5..] == "jours") <==> ShownDays(days) > 1
  {
    var months := days / 30;
    if months < 1 {
      DayUnitEnding(NatToString(days), days);
    } else if days % 30 == 0 {
      LastFive(NatToString(months), " mois");
    } else {
      var remaining := days % 30;
      var head := NatToString(months) + " mois et " + NatToString(remaining);
      assert DurationLabel(days) == head + (" jour" + Plural(remaining));
      DayUnitEnding(head, remaining);
    }
  }

  /** Labels of different day counts differ. */
  lemma LabelsDiffer(a: nat, b: nat)
    requires a != b
    ensures DurationLabel(a) != DurationLabel(b)
  {
    ParseLabel(a);
    ParseLabel(b);
  }
}
