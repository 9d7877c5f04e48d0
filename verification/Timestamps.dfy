/** Timestamps as fixed-width text: "2006-01-02T15:04:05.000000000Z", in UTC. */
module Timestamps {
  import opened TextOrder
  import opened Domain

  // --- The calendar -----------------------------------------------------------------------

  datatype Utc = Utc(year: nat, month: nat, day: nat, hour: nat, minute: nat, second: nat, nano: nat)

  predicate Leap(year: nat) {
    year % 4 == 0 && (year % 100 != 0 || year % 400 == 0)
  }

  function DaysIn(year: nat, month: nat): nat {
    if month == 2 then (if Leap(year) then 29 else 28)
    else if month in {4, 6, 9, 11} then 30
    else 31
  }

  predicate ValidUtc(t: Utc) {
    && 1 <= t.month <= 12 && 1 <= t.day <= DaysIn(t.year, t.month)
    && t.hour < 24 && t.minute < 60 && t.second < 60 && t.nano < 1_000_000_000
  }

  /** Days before the first of a month of a year. */
  function MonthStart(year: nat, month: nat): nat {
    if month <= 1 then 0 else MonthStart(year, month - 1) + DaysIn(year, month - 1)
  }

  /** Days before the first day of a year, counted from year 0. */
  function YearStart(year: nat): nat {
    if year == 0 then 0 else YearStart(year - 1) + MonthStart(year - 1, 13)
  }

  function Day(t: Utc): int {
    YearStart(t.year) + MonthStart(t.year, t.month) + t.day
  }

  /** The instant, in nanoseconds. */
  function Instant(t: Utc): int {
    (((Day(t) * 24 + t.hour) * 60 + t.minute) * 60 + t.second) * 1_000_000_000 + t.nano
  }

  lemma {:induction false} MonthsPass(year: nat, m: nat, n: nat)
    requires 1 <= m < n
    ensures MonthStart(year, m) + DaysIn(year, m) <= MonthStart(year, n)
  {
    if m + 1 < n { MonthsPass(year, m, n - 1); }
  }

  lemma {:induction false} YearsPass(y: nat, z: nat)
    requires y < z
    ensures YearStart(y) + MonthStart(y, 13) <= YearStart(z)
  {
    if y + 1 < z { YearsPass(y, z - 1); }
  }

  /** An earlier date is an earlier day. */
  lemma DaysInOrder(t: Utc, u: Utc)
    requires ValidUtc(t) && ValidUtc(u)
    requires t.year < u.year || (t.year == u.year && (t.month < u.month || (t.month == u.month && t.day < u.day)))
    ensures Day(t) < Day(u)
  {
    if t.year < u.year {
      MonthsPass(t.year, t.month, 13);
      YearsPass(t.year, u.year);
    } else if t.month < u.month {
      MonthsPass(t.year, t.month, u.month);
    }
  }

  /** Field by field, from the year down. */
  predicate Earlier(t: Utc, u: Utc) {
    if t.year != u.year then t.year < u.year
    else if t.month != u.month then t.month < u.month
    else if t.day != u.day then t.day < u.day
    else if t.hour != u.hour then t.hour < u.hour
    else if t.minute != u.minute then t.minute < u.minute
    else if t.second != u.second then t.second < u.second
    else t.nano < u.nano
  }

  lemma EarlierIsSooner(t: Utc, u: Utc)
    requires ValidUtc(t) && ValidUtc(u) && Earlier(t, u)
    ensures Instant(t) < Instant(u)
  {
    if t.year == u.year && t.month == u.month && t.day == u.day {
    } else {
      DaysInOrder(t, u);
      assert Day(t) * 24 + t.hour < Day(u) * 24 + u.hour;
    }
  }

  lemma EarlierIffSooner(t: Utc, u: Utc)
    requires ValidUtc(t) && ValidUtc(u)
    ensures Earlier(t, u) <==> Instant(t) < Instant(u)
  {
    if Earlier(t, u) { EarlierIsSooner(t, u); }
    else if t != u { EarlierIsSooner(u, t); }
  }

  // --- Digits ---------------------------------------------------------------------------------

  function Pow10(w: nat): nat
    ensures Pow10(w) > 0
  {
    if w == 0 then 1 else 10 * Pow10(w - 1)
  }

  function Digit(n: nat): char
    requires n < 10
  {
    '0' + n as char
  }

  /** The last `w` decimal digits of `n`. */
  function Digits(n: nat, w: nat): (s: string)
    ensures |s| == w
  {
    if w == 0 then "" else Digits(n / 10, w - 1) + [Digit(n % 10)]
  }

  /** Numbers of one width order as their digits do. */
  lemma {:induction false} DigitsInOrder(n: nat, m: nat, w: nat)
    requires n < Pow10(w) && m < Pow10(w)
    ensures Less(Digits(n, w), Digits(m, w)) <==> n < m
    ensures Digits(n, w) == Digits(m, w) <==> n == m
  {
    if w > 0 {
      DigitsInOrder(n / 10, m / 10, w - 1);
      var x, y := [Digit(n % 10)], [Digit(m % 10)];
      ByParts(Digits(n / 10, w - 1), Digits(m / 10, w - 1), x, y);
      assert Less(x, y) <==> n % 10 < m % 10;
      assert Digits(n, w)[..w - 1] == Digits(n / 10, w - 1) && Digits(m, w)[..w - 1] == Digits(m / 10, w - 1);
      assert Digits(n, w)[w - 1] == x[0] && Digits(m, w)[w - 1] == y[0];
    }
  }

  // --- The text -----------------------------------------------------------------------------------

  /** Years take four digits, and more only when they need more. */
  function YearText(year: nat): string {
    if year < 10000 then Digits(year, 4) else YearText(year / 10) + [Digit(year % 10)]
  }

  /** The text after the year. */
  function Rest(t: Utc): string {
    "-" + Digits(t.month, 2) + "-" + Digits(t.day, 2) + "T" + Digits(t.hour, 2) + ":" + Digits(t.minute, 2)
    + ":" + Digits(t.second, 2) + "." + Digits(t.nano, 9) + "Z"
  }

  function FormatTime(t: Utc): string {
    YearText(t.year) + Rest(t)
  }

  /** One field and its separator compare before whatever follows. */
  lemma FieldFirst(sep: string, n: nat, m: nat, w: nat, x: string, y: string)
    requires n < Pow10(w) && m < Pow10(w)
    ensures Less(sep + Digits(n, w) + x, sep + Digits(m, w) + y) <==> n < m || (n == m && Less(x, y))
  {
    var a, b := Digits(n, w) + x, Digits(m, w) + y;
    assert sep + Digits(n, w) + x == sep + a && sep + Digits(m, w) + y == sep + b;
    ByParts(sep, sep, a, b);
    Irreflexive(sep);
    ByParts(Digits(n, w), Digits(m, w), x, y);
    DigitsInOrder(n, m, w);
  }

  function FromNano(t: Utc): string { "." + Digits(t.nano, 9) + "Z" }
  function FromSecond(t: Utc): string { ":" + Digits(t.second, 2) + FromNano(t) }
  function FromMinute(t: Utc): string { ":" + Digits(t.minute, 2) + FromSecond(t) }
  function FromHour(t: Utc): string { "T" + Digits(t.hour, 2) + FromMinute(t) }
  function FromDay(t: Utc): string { "-" + Digits(t.day, 2) + FromHour(t) }
  function FromMonth(t: Utc): string { "-" + Digits(t.month, 2) + FromDay(t) }

  lemma RestByFields(t: Utc)
    ensures Rest(t) == FromMonth(t)
  {
  }

  lemma Powers()
    ensures Pow10(2) == 100 && Pow10(4) == 10000 && Pow10(9) == 1_000_000_000
  {
  }

  // --- Text order and time ------------------------------------------------------------------

  /** Within one day. */
  lemma ClockOrder(t: Utc, u: Utc)
    requires ValidUtc(t) && ValidUtc(u)
    ensures Less(FromHour(t), FromHour(u)) <==>
      if t.hour != u.hour then t.hour < u.hour
      else if t.minute != u.minute then t.minute < u.minute
      else if t.second != u.second then t.second < u.second
      else t.nano < u.nano
  {
    Powers();
    FieldFirst("T", t.hour, u.hour, 2, FromMinute(t), FromMinute(u));
    FieldFirst(":", t.minute, u.minute, 2, FromSecond(t), FromSecond(u));
    FieldFirst(":", t.second, u.second, 2, FromNano(t), FromNano(u));
    FieldFirst(".", t.nano, u.nano, 9, "Z", "Z");
    Irreflexive("Z");
  }

  /** The digits a year takes. */
  function YearWidth(year: nat): nat {
    if year < 10000 then 4 else YearWidth(year / 10) + 1
  }

  lemma {:induction false} YearDigits(year: nat)
    ensures YearText(year) == Digits(year, YearWidth(year)) && year < Pow10(YearWidth(year))
    ensures YearWidth(year) > 4 ==> Pow10(YearWidth(year) - 1) <= year
  {
    Powers();
    if year >= 10000 { YearDigits(year / 10); }
  }

  /** What is left of `n` without its last `k` digits. */
  function Leading(n: nat, k: nat): nat {
    if k == 0 then n else Leading(n / 10, k - 1)
  }

  lemma {:induction false} LeadingDigits(n: nat, w: nat, k: nat)
    ensures Digits(n, w + k) == Digits(Leading(n, k), w) + Digits(n, k)
    ensures n < Pow10(w + k) ==> Leading(n, k) < Pow10(w)
  {
    if k > 0 {
      LeadingDigits(n / 10, w, k - 1);
      assert Digits(n, w + k) == Digits(n / 10, w + k - 1) + [Digit(n % 10)];
    } else {
      assert Digits(n, w) + Digits(n, 0) == Digits(n, w);
    }
  }

  lemma {:induction false} PowersGrow(v: nat, w: nat)
    requires v <= w
    ensures Pow10(v) <= Pow10(w)
  {
    if v < w { PowersGrow(v, w - 1); }
  }

  /** Years of one width order field by field. */
  lemma SameWidth(t: Utc, u: Utc)
    requires ValidUtc(t) && ValidUtc(u) && YearWidth(t.year) == YearWidth(u.year)
    ensures Less(FormatTime(t), FormatTime(u)) <==> Earlier(t, u)
  {
    var w := YearWidth(t.year);
    Powers();
    YearDigits(t.year);
    YearDigits(u.year);
    RestByFields(t);
    RestByFields(u);
    ByParts(Digits(t.year, w), Digits(u.year, w), FromMonth(t), FromMonth(u));
    DigitsInOrder(t.year, u.year, w);
    FieldFirst("-", t.month, u.month, 2, FromDay(t), FromDay(u));
    FieldFirst("-", t.day, u.day, 2, FromHour(t), FromHour(u));
    ClockOrder(t, u);
  }

  /** A narrower year is the earlier one. */
  lemma NarrowerIsEarlier(t: Utc, u: Utc)
    requires ValidUtc(t) && ValidUtc(u) && YearWidth(t.year) < YearWidth(u.year)
    ensures Instant(t) < Instant(u)
  {
    YearDigits(t.year);
    YearDigits(u.year);
    PowersGrow(YearWidth(t.year), YearWidth(u.year) - 1);
    EarlierIsSooner(t, u);
  }

  /** Its text comes first exactly when it does not exceed the leading digits of
      the wider. */
  lemma NarrowerText(n: nat, w: nat, x: string, m: nat, k: nat, y: string)
    requires n < Pow10(w) && m < Pow10(w + k) && k > 0 && x != "" && x[0] < '0'
    ensures Less(Digits(n, w) + x, Digits(m, w + k) + y) <==> n <= Leading(m, k)
  {
    LeadingDigits(m, w, k);
    var rest := Digits(m, k) + y;
    assert Digits(m, w + k) + y == Digits(Leading(m, k), w) + rest;
    ByParts(Digits(n, w), Digits(Leading(m, k), w), x, rest);
    DigitsInOrder(n, Leading(m, k), w);
    DigitFirst(m, k);
    FirstDecides(x, rest);
  }

  lemma NarrowerYear(t: Utc, u: Utc)
    requires YearWidth(t.year) < YearWidth(u.year)
    ensures Less(FormatTime(t), FormatTime(u)) <==> t.year <= Leading(u.year, YearWidth(u.year) - YearWidth(t.year))
  {
    var w, k := YearWidth(t.year), YearWidth(u.year) - YearWidth(t.year);
    YearDigits(t.year);
    YearDigits(u.year);
    RestByFields(t);
    NarrowerText(t.year, w, Rest(t), u.year, k, Rest(u));
  }

  lemma TextLength(t: Utc)
    ensures |FormatTime(t)| == YearWidth(t.year) + 26
  {
    YearDigits(t.year);
  }

  lemma {:induction false} DigitFirst(n: nat, k: nat)
    requires k > 0
    ensures Digits(n, k)[0] >= '0'
  {
    if k > 1 { DigitFirst(n / 10, k - 1); }
  }

  lemma FirstDecides(x: string, y: string)
    requires x != "" && y != "" && x[0] < y[0]
    ensures Less(x, y)
  {
  }

  /** Can texts of these two years be compared as times? */
  predicate Comparable(y: nat, z: nat) {
    var v, w := YearWidth(y), YearWidth(z);
    if v <= w then v == w || y <= Leading(z, w - v) else z <= Leading(y, v - w)
  }

  /** The texts of two times order as the times do. */
  ghost predicate Agree(t: Utc, u: Utc) {
    Less(FormatTime(t), FormatTime(u)) <==> Instant(t) < Instant(u)
  }

  lemma SameWidthAgrees(t: Utc, u: Utc)
    requires ValidUtc(t) && ValidUtc(u) && YearWidth(t.year) == YearWidth(u.year)
    ensures Agree(t, u) && Comparable(t.year, u.year)
  {
    SameWidth(t, u);
    EarlierIffSooner(t, u);
  }

  lemma NarrowerComparable(y: nat, z: nat)
    requires YearWidth(y) < YearWidth(z)
    ensures Comparable(y, z) <==> y <= Leading(z, YearWidth(z) - YearWidth(y))
    ensures Comparable(z, y) <==> Comparable(y, z)
  {
  }

  lemma NarrowerAgrees(t: Utc, u: Utc)
    requires ValidUtc(t) && ValidUtc(u) && YearWidth(t.year) < YearWidth(u.year)
    ensures Agree(t, u) <==> Comparable(t.year, u.year)
    ensures Agree(u, t) <==> Comparable(u.year, t.year)
  {
    NarrowerComparable(t.year, u.year);
    NarrowerIsEarlier(t, u);
    NarrowerYear(t, u);
    TextLength(t);
    TextLength(u);
    EitherWay(FormatTime(t), FormatTime(u));
  }

  /** Two texts order as the instants they name if and only if their years have
      the same width or the narrower does not exceed the leading digits of the
      wider. */
  lemma TextOrdersAsTimeIff(t: Utc, u: Utc)
    requires ValidUtc(t) && ValidUtc(u)
    ensures Agree(t, u) <==> Comparable(t.year, u.year)
  {
    if YearWidth(t.year) == YearWidth(u.year) {
      SameWidthAgrees(t, u);
    } else if YearWidth(t.year) < YearWidth(u.year) {
      NarrowerAgrees(t, u);
    } else {
      NarrowerAgrees(u, t);
    }
  }

  /** Different times have different texts. */
  lemma TextNamesTime(t: Utc, u: Utc)
    requires ValidUtc(t) && ValidUtc(u)
    ensures FormatTime(t) == FormatTime(u) ==> t == u
  {
    if FormatTime(t) == FormatTime(u) {
      TextLength(t);
      TextLength(u);
      SameWidth(t, u);
      SameWidth(u, t);
      Irreflexive(FormatTime(t));
    }
  }

  lemma EitherWay(x: string, y: string)
    requires x != y
    ensures Less(x, y) <==> !Less(y, x)
  {
    Total(x, y);
    if Less(x, y) && Less(y, x) { Transitive(x, y, x); }
    Irreflexive(x);
  }

  /** Up to the year 9999 all texts order as the instants they name. */
  lemma TextOrdersAsTime(t: Utc, u: Utc)
    requires ValidUtc(t) && ValidUtc(u) && t.year < 10000 && u.year < 10000
    ensures Less(FormatTime(t), FormatTime(u)) <==> Instant(t) < Instant(u)
    ensures FormatTime(t) == FormatTime(u) <==> t == u
  {
    SameWidthAgrees(t, u);
    TextNamesTime(t, u);
  }

  /** The turn of the year 10000 is where it goes wrong. */
  lemma TurnOfYearTenThousand() returns (t: Utc, u: Utc)
    ensures ValidUtc(t) && ValidUtc(u) && t.year < u.year <= 10000 && !Comparable(t.year, u.year)
  {
    t, u := Utc(9999, 12, 31, 23, 59, 59, 0), Utc(10000, 1, 1, 0, 0, 0, 0);
    assert YearWidth(10000) == YearWidth(1000) + 1 && Leading(10000, 1) == Leading(1000, 0);
  }

  /** All times up to the end of a year order as text if and only if the year is
      not past 9999. */
  lemma OrderedUntilIff(last: nat)
    ensures (forall t, u :: ValidUtc(t) && ValidUtc(u) && t.year <= last && u.year <= last ==> Agree(t, u)) <==> last < 10000
  {
    if last < 10000 {
      forall t, u | ValidUtc(t) && ValidUtc(u) && t.year <= last && u.year <= last ensures Agree(t, u) { SameWidthAgrees(t, u); }
    } else {
      var t, u := TurnOfYearTenThousand();
      TextOrdersAsTimeIff(t, u);
    }
  }

  // --- Reading it back --------------------------------------------------------------------------------

  predicate IsDigit(c: char) {
    '0' <= c <= '9'
  }

  function Number(s: string): nat
    requires forall i :: 0 <= i < |s| ==> IsDigit(s[i])
  {
    if s == "" then 0 else
      assert IsDigit(s[|s| - 1]);
      Number(s[..|s| - 1]) * 10 + (s[|s| - 1] as int - '0' as int)
  }

  lemma {:induction false} NumberOfDigits(n: nat, w: nat)
    requires n < Pow10(w)
    ensures forall i :: 0 <= i < w ==> IsDigit(Digits(n, w)[i])
    ensures Number(Digits(n, w)) == n
  {
    if w > 0 {
      NumberOfDigits(n / 10, w - 1);
      assert Digits(n, w)[..w - 1] == Digits(n / 10, w - 1);
      assert forall i :: 0 <= i < w - 1 ==> Digits(n, w)[i] == Digits(n / 10, w - 1)[i];
    }
  }

  predicate AllDigits(s: string, lo: nat, hi: nat)
    requires lo <= hi <= |s|
  {
    forall i :: lo <= i < hi ==> IsDigit(s[i])
  }

  function Field(s: string, lo: nat, hi: nat): nat
    requires lo <= hi <= |s| && AllDigits(s, lo, hi)
  {
    Number(s[lo..hi])
  }

  predicate Laid(s: string) {
    && |s| == 30 && s[4] == '-' && s[7] == '-' && s[10] == 'T' && s[13] == ':' && s[16] == ':' && s[19] == '.' && s[29] == 'Z'
    && AllDigits(s, 0, 4) && AllDigits(s, 5, 7) && AllDigits(s, 8, 10) && AllDigits(s, 11, 13)
    && AllDigits(s, 14, 16) && AllDigits(s, 17, 19) && AllDigits(s, 20, 29)
  }

  /** The fixed-width layout, read back; nothing for any other text. */
  function ParseTime(s: string): Option<Utc> {
    if !Laid(s) then None
    else
      var t := Utc(Field(s, 0, 4), Field(s, 5, 7), Field(s, 8, 10), Field(s, 11, 13), Field(s, 14, 16), Field(s, 17, 19), Field(s, 20, 29));
      if ValidUtc(t) then Some(t) else None
  }

  /** `n` stands in `s` with `w` digits from position `p` on, after the separator. */
  ghost predicate Stands(s: string, p: nat, w: nat, n: nat) {
    p + w <= |s| && AllDigits(s, p, p + w) && Field(s, p, p + w) == n
  }

  /** A field written into a text is found at its place, and so is its separator. */
  lemma FieldAt(s: string, before: string, sep: char, n: nat, w: nat, rest: string)
    requires n < Pow10(w) && s == before + ([sep] + Digits(n, w) + rest)
    ensures |before| < |s| && s[|before|] == sep && Stands(s, |before| + 1, w, n)
    ensures s == (before + [sep] + Digits(n, w)) + rest
  {
    NumberOfDigits(n, w);
    var p := |before| + 1;
    assert s[p..p + w] == Digits(n, w);
    assert forall i :: p <= i < p + w ==> s[i] == Digits(n, w)[i - p];
  }

  lemma DateFields(t: Utc, s: string)
    requires ValidUtc(t) && t.year < 10000 && s == FormatTime(t)
    ensures |s| > 10 && s[4] == '-' && s[7] == '-'
    ensures Stands(s, 0, 4, t.year) && Stands(s, 5, 2, t.month) && Stands(s, 8, 2, t.day)
    ensures s[10..] == FromHour(t)
  {
    Powers();
    RestByFields(t);
    var y := Digits(t.year, 4);
    assert [' '] + s == "" + ([' '] + y + FromMonth(t));
    FieldAt([' '] + s, "", ' ', t.year, 4, FromMonth(t));
    assert s[0..4] == ([' '] + s)[1..5] && forall i :: 0 <= i < 4 ==> s[i] == ([' '] + s)[i + 1];
    FieldAt(s, y, '-', t.month, 2, FromDay(t));
    var m := y + ['-'] + Digits(t.month, 2);
    FieldAt(s, m, '-', t.day, 2, FromHour(t));
  }

  lemma ClockFields(t: Utc, s: string)
    requires ValidUtc(t) && |s| >= 10 && s[10..] == FromHour(t)
    ensures |s| == 30 && s[10] == 'T' && s[13] == ':' && s[16] == ':' && s[19] == '.' && s[29] == 'Z'
    ensures Stands(s, 11, 2, t.hour) && Stands(s, 14, 2, t.minute) && Stands(s, 17, 2, t.second) && Stands(s, 20, 9, t.nano)
  {
    Powers();
    var d := s[..10];
    assert s == d + FromHour(t);
    FieldAt(s, d, 'T', t.hour, 2, FromMinute(t));
    var h := d + ['T'] + Digits(t.hour, 2);
    FieldAt(s, h, ':', t.minute, 2, FromSecond(t));
    var n := h + [':'] + Digits(t.minute, 2);
    FieldAt(s, n, ':', t.second, 2, FromNano(t));
    var z := n + [':'] + Digits(t.second, 2);
    FieldAt(s, z, '.', t.nano, 9, "Z");
  }

  /** Every time the store writes reads back as itself. */
  lemma ParseFormat(t: Utc)
    requires ValidUtc(t) && t.year < 10000
    ensures ParseTime(FormatTime(t)) == Some(t)
  {
    DateFields(t, FormatTime(t));
    ClockFields(t, FormatTime(t));
  }
}
