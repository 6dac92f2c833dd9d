/** The timestamps of the activity feed and the date headings built from them:
    parsing "YYYY-MM-DDTHH:MM:SSZ" as datetime.strptime does and rendering
    "<Month> DD, YYYY" as strftime("%B %d, %Y") does in an English locale. */
module Dates {
  import opened Outcomes
  import opened Text

  /** A calendar day of the proleptic Gregorian calendar. */
  datatype Day = Day(year: nat, month: nat, day: nat)

  const MonthNames: seq<string> := [
    "January", "February", "March", "April", "May", "June",
    "July", "August", "September", "October", "November", "December"]

  predicate IsLeapYear(y: nat)
  {
    y % 4 == 0 && (y % 100 != 0 || y % 400 == 0)
  }

  function DaysInMonth(y: nat, m: nat): nat
    requires 1 <= m <= 12
  {
    if m == 2 then (if IsLeapYear(y) then 29 else 28)
    else if m == 4 || m == 6 || m == 9 || m == 11 then 30
    else 31
  }

  /** The days a datetime can hold: years 1 to 9999 are the four-digit ones. */
  predicate ValidDay(d: Day)
  {
    1 <= d.year && 1 <= d.month <= 12 && 1 <= d.day <= DaysInMonth(d.year, d.month)
  }

  /** The fixed-width layout: four, two and two digits for the date, two each
      for the time, and the literal separators. The pattern is matched without
      regard to case, so 't' and 'z' are accepted as well. */
  predicate Shaped(s: string)
  {
    |s| == 20 &&
    AllDigits(s[0..4]) && s[4] == '-' && AllDigits(s[5..7]) && s[7] == '-' && AllDigits(s[8..10]) &&
    (s[10] == 'T' || s[10] == 't') &&
    AllDigits(s[11..13]) && s[13] == ':' && AllDigits(s[14..16]) && s[16] == ':' && AllDigits(s[17..19]) &&
    (s[19] == 'Z' || s[19] == 'z')
  }

  /** The day a timestamp falls on, or None where strptime raises ValueError
      (wrong layout, month or day out of range, year 0, hour above 23, minute
      or second above 59). */
  function ParseTimestamp(s: string): (r: Option<Day>)
    ensures r.Some? ==> Shaped(s) && ValidDay(r.value)
  {
    if !Shaped(s) then None
    else
      var d := Day(DigitsValue(s[0..4]), DigitsValue(s[5..7]), DigitsValue(s[8..10]));
      if ValidDay(d) && DigitsValue(s[11..13]) < 24 && DigitsValue(s[14..16]) < 60 && DigitsValue(s[17..19]) < 60
      then Some(d) else None
  }

  /** Zero-padded two-digit rendering (%d). */
  function TwoDigits(n: nat): (r: string)
    requires n < 100
    ensures |r| == 2 && AllDigits(r)
  {
    [DigitChar(n / 10), DigitChar(n % 10)]
  }

  /** Zero-padded four-digit rendering, the layout of the feed's years. */
  function FourDigits(n: nat): (r: string)
    requires n < 10000
    ensures |r| == 4 && AllDigits(r)
  {
    TwoDigits(n / 100) + TwoDigits(n % 100)
  }

  /** The heading of a day: month name, zero-padded day, and the year in
      decimal without padding. */
  function FormatDay(d: Day): string
    requires ValidDay(d)
  {
    MonthNames[d.month - 1] + DayAndYear(d)
  }

  /** What follows the month name in a heading. */
  function DayAndYear(d: Day): string
    requires ValidDay(d)
  {
    " " + TwoDigits(d.day) + ", " + NatToString(d.year)
  }

  /** strftime("%B %d, %Y") of strptime(s, "%Y-%m-%dT%H:%M:%SZ"), or None where
      strptime fails. */
  function FormatDate(s: string): Option<string>
  {
    match ParseTimestamp(s)
    case None => None
    case Some(d) => Some(FormatDay(d))
  }

  /** A canonical timestamp of a day at a time of day. */
  function Stamp(d: Day, hh: nat, mm: nat, ss: nat): string
    requires ValidDay(d) && d.year < 10000 && hh < 24 && mm < 60 && ss < 60
  {
    FourDigits(d.year) + "-" + TwoDigits(d.month) + "-" + TwoDigits(d.day) + "T" +
    TwoDigits(hh) + ":" + TwoDigits(mm) + ":" + TwoDigits(ss) + "Z"
  }

  lemma TwoDigitsValue(n: nat)
    requires n < 100
    ensures DigitsValue(TwoDigits(n)) == n
  {
    var s := TwoDigits(n);
    assert s[..1][..0] == [];
    assert s[..1] == [DigitChar(n / 10)];
    assert DigitsValue(s[..1]) == n / 10;
    assert DigitsValue(s) == 10 * (n / 10) + n % 10;
  }

  lemma {:induction false} DigitsValueAppend(a: string, b: string)
    requires AllDigits(a) && AllDigits(b)
    ensures AllDigits(a + b)
    ensures DigitsValue(a + b) == DigitsValue(a) * Pow10(|b|) + DigitsValue(b)
    decreases |b|
  {
    if b != [] {
      var b' := b[..|b| - 1];
      var last := b[|b| - 1] as int - '0' as int;
      assert (a + b)[..|a + b| - 1] == a + b';
      DigitsValueAppend(a, b');
      assert DigitsValue(a + b) == 10 * DigitsValue(a + b') + last;
      assert DigitsValue(b) == 10 * DigitsValue(b') + last;
      ShiftDecimal(DigitsValue(a), Pow10(|b'|), DigitsValue(b'), last);
    } else {
      assert a + b == a;
    }
  }

  /** Appending a digit to the low part of a * p + b shifts both parts. */
  lemma ShiftDecimal(a: int, p: int, b: int, d: int)
    ensures 10 * (a * p + b) + d == a * (10 * p) + (10 * b + d)
  {
  }

  function Pow10(k: nat): nat
  {
    if k == 0 then 1 else 10 * Pow10(k - 1)
  }

  lemma FourDigitsValue(n: nat)
    requires n < 10000
    ensures DigitsValue(FourDigits(n)) == n
  {
    DigitsValueAppend(TwoDigits(n / 100), TwoDigits(n % 100));
    TwoDigitsValue(n / 100);
    TwoDigitsValue(n % 100);
  }

  /** Parsing a canonical timestamp gives back its day: the parser accepts every
      valid four-digit-year date at every time of day. */
  lemma ParseStamp(d: Day, hh: nat, mm: nat, ss: nat)
    requires ValidDay(d) && d.year < 10000 && hh < 24 && mm < 60 && ss < 60
    ensures ParseTimestamp(Stamp(d, hh, mm, ss)) == Some(d)
  {
    var s := Stamp(d, hh, mm, ss);
    assert s[0..4] == FourDigits(d.year);
    assert s[5..7] == TwoDigits(d.month);
    assert s[8..10] == TwoDigits(d.day);
    assert s[11..13] == TwoDigits(hh);
    assert s[14..16] == TwoDigits(mm);
    assert s[17..19] == TwoDigits(ss);
    FourDigitsValue(d.year);
    TwoDigitsValue(d.month);
    TwoDigitsValue(d.day);
    TwoDigitsValue(hh);
    TwoDigitsValue(mm);
    TwoDigitsValue(ss);
  }

  /** A timestamp with its 'T' and 'Z' upper-cased; the parser reads both
      cases alike. */
  function Canonical(s: string): (c: string)
    requires |s| == 20
    ensures |c| == 20 && c[10] == 'T' && c[19] == 'Z'
    ensures forall i :: 0 <= i < 20 && i != 10 && i != 19 ==> c[i] == s[i]
  {
    s[..10] + "T" + s[11..19] + "Z"
  }

  lemma TwoDigitsOfValue(x: string)
    requires |x| == 2 && AllDigits(x)
    ensures DigitsValue(x) < 100 && TwoDigits(DigitsValue(x)) == x
  {
    assert x[..1][..0] == [];
    var a, b := x[0] as int - '0' as int, x[1] as int - '0' as int;
    assert DigitsValue(x[..1]) == a;
    assert DigitsValue(x) == 10 * a + b;
  }

  lemma FourDigitsOfValue(x: string)
    requires |x| == 4 && AllDigits(x)
    ensures DigitsValue(x) < 10000 && FourDigits(DigitsValue(x)) == x
  {
    var hi, lo := x[..2], x[2..];
    assert x == hi + lo;
    DigitsValueAppend(hi, lo);
    TwoDigitsOfValue(hi);
    TwoDigitsOfValue(lo);
    assert Pow10(2) == 100;
    var a, b := DigitsValue(hi), DigitsValue(lo);
    assert DigitsValue(x) == a * 100 + b;
    SplitHundreds(a, b);
  }

  lemma SplitHundreds(a: nat, b: nat)
    requires a < 100 && b < 100
    ensures (a * 100 + b) / 100 == a && (a * 100 + b) % 100 == b && a * 100 + b < 10000
  {
  }

  /** Every accepted timestamp is, apart from the case of its 'T' and 'Z',
      the canonical timestamp of the day returned at a valid time of day:
      the day is the one its digits name, and an hour above 23 or a minute
      or second above 59 is never accepted. */
  lemma ParseTimestampInverse(s: string)
    requires ParseTimestamp(s).Some?
    ensures var d := ParseTimestamp(s).value;
      d.year < 10000 &&
      exists hh: nat, mm: nat, ss: nat :: hh < 24 && mm < 60 && ss < 60 && Canonical(s) == Stamp(d, hh, mm, ss)
  {
    var d := ParseTimestamp(s).value;
    var hh, mm, ss := DigitsValue(s[11..13]), DigitsValue(s[14..16]), DigitsValue(s[17..19]);
    FourDigitsOfValue(s[0..4]);
    TwoDigitsOfValue(s[5..7]);
    TwoDigitsOfValue(s[8..10]);
    TwoDigitsOfValue(s[11..13]);
    TwoDigitsOfValue(s[14..16]);
    TwoDigitsOfValue(s[17..19]);
    CanonicalPieces(s);
    assert Canonical(s) == Stamp(d, hh, mm, ss);
  }

  /** The canonical form of a shaped timestamp, cut at its separators. */
  lemma CanonicalPieces(s: string)
    requires Shaped(s)
    ensures Canonical(s) ==
      s[0..4] + "-" + s[5..7] + "-" + s[8..10] + "T" + s[11..13] + ":" + s[14..16] + ":" + s[17..19] + "Z"
  {
    var c := s[0..4] + "-" + s[5..7] + "-" + s[8..10] + "T" + s[11..13] + ":" + s[14..16] + ":" + s[17..19] + "Z";
    assert |c| == 20;
    forall i | 0 <= i < 20 ensures c[i] == Canonical(s)[i] {
    }
  }

  lemma MonthNamesHaveNoSpace(m: nat, k: nat)
    requires m < 12 && k < |MonthNames[m]|
    ensures MonthNames[m][k] != ' ' && MonthNames[m][k] != '-'
  {
  }

  lemma MonthNamesDistinct(i: nat, j: nat)
    requires i < 12 && j < 12 && MonthNames[i] == MonthNames[j]
    ensures i == j
  {
  }

  lemma MonthNameIsWord(m: nat)
    requires m < 12
    ensures forall k :: 0 <= k < |MonthNames[m]| ==> MonthNames[m][k] != ' '
  {
    forall k | 0 <= k < |MonthNames[m]| ensures MonthNames[m][k] != ' ' {
      MonthNamesHaveNoSpace(m, k);
    }
  }

  /** Two days share a heading exactly when they are the same day. */
  lemma FormatDayInjective(a: Day, b: Day)
    requires ValidDay(a) && ValidDay(b)
    ensures FormatDay(a) == FormatDay(b) <==> a == b
  {
    if FormatDay(a) == FormatDay(b) {
      MonthNameIsWord(a.month - 1);
      MonthNameIsWord(b.month - 1);
      SplitAtSpace(MonthNames[a.month - 1], DayAndYear(a), MonthNames[b.month - 1], DayAndYear(b));
      MonthNamesDistinct(a.month - 1, b.month - 1);
      DayAndYearInjective(a, b);
    }
  }

  lemma DayAndYearInjective(a: Day, b: Day)
    requires ValidDay(a) && ValidDay(b) && DayAndYear(a) == DayAndYear(b)
    ensures a.day == b.day && a.year == b.year
  {
    var ra, rb := DayAndYear(a), DayAndYear(b);
    assert TwoDigits(a.day) == ra[1..3] == TwoDigits(b.day);
    TwoDigitsValue(a.day);
    TwoDigitsValue(b.day);
    assert NatToString(a.year) == ra[5..] == NatToString(b.year);
    NatToStringInjective(a.year, b.year);
  }

  /** Timestamps get the same heading exactly when they fall on the same day,
      whatever their times of day: grouping by heading is grouping by day. */
  lemma SameHeadingSameDay(s1: string, s2: string)
    requires FormatDate(s1).Some? && FormatDate(s2).Some?
    ensures FormatDate(s1) == FormatDate(s2) <==> ParseTimestamp(s1) == ParseTimestamp(s2)
  {
    FormatDayInjective(ParseTimestamp(s1).value, ParseTimestamp(s2).value);
  }

  /** A heading is never empty and never starts with '-', the mark the pager
      uses to tell an activity line from a heading. */
  lemma HeadingIsNotBullet(d: Day)
    requires ValidDay(d)
    ensures |FormatDay(d)| > 0 && FormatDay(d)[0] != '-'
  {
    MonthNamesHaveNoSpace(d.month - 1, 0);
  }
}
