/** Timestamps as text: `formatTime` and `parseTime` of server/internal/database/db.go, for the
    years 0000 to 9999 that section 5.1 of RFC 3339 orders.  An instant is a number of
    nanoseconds since the start of year 0 in the Gregorian calendar, UTC. */
module Times {
  import opened Options
  import opened Text
  import Decimal

  const SECOND := 1_000_000_000

  datatype Civil = Civil(year: nat, month: nat, day: nat, hour: nat, minute: nat, second: nat)

  predicate IsLeap(y: nat) { (y % 4 == 0 && y % 100 != 0) || y % 400 == 0 }

  function YearLength(y: nat): nat { if IsLeap(y) then 366 else 365 }

  function MonthLength(y: nat, m: nat): nat {
    if m in {4, 6, 9, 11} then 30 else if m == 2 then (if IsLeap(y) then 29 else 28) else 31
  }

  /** Days before the first of January of year `y`. */
  function YearStart(y: nat): nat { if y == 0 then 0 else YearStart(y - 1) + YearLength(y - 1) }

  /** Days of year `y` before the first of month `m`. */
  function MonthStart(y: nat, m: nat): nat
    requires 1 <= m <= 13
  {
    if m == 1 then 0 else MonthStart(y, m - 1) + MonthLength(y, m - 1)
  }

  lemma MonthStarts(y: nat)
    ensures MonthStart(y, 13) == YearLength(y)
  {
    assert MonthStart(y, 3) == MonthStart(y, 2) + MonthLength(y, 2);
    assert MonthStart(y, 5) == MonthStart(y, 4) + MonthLength(y, 4);
    assert MonthStart(y, 7) == MonthStart(y, 6) + MonthLength(y, 6);
    assert MonthStart(y, 9) == MonthStart(y, 8) + MonthLength(y, 8);
    assert MonthStart(y, 11) == MonthStart(y, 10) + MonthLength(y, 10);
    assert MonthStart(y, 13) == MonthStart(y, 12) + MonthLength(y, 12);
  }

  lemma Fours(n: nat)
    ensures (n + 4) / 4 == (n + 3) / 4 + if n % 4 == 0 then 1 else 0
  {
  }

  lemma Hundreds(n: nat)
    ensures (n + 100) / 100 == (n + 99) / 100 + if n % 100 == 0 then 1 else 0
    ensures n % 100 == 0 ==> n % 4 == 0
  {
    assert n % 100 == 0 ==> n == 4 * (25 * (n / 100));
  }

  lemma FourHundreds(n: nat)
    ensures (n + 400) / 400 == (n + 399) / 400 + if n % 400 == 0 then 1 else 0
    ensures n % 400 == 0 ==> n % 100 == 0
  {
    assert n % 400 == 0 ==> n == 100 * (4 * (n / 400));
  }

  /** The days of the years before year `n`, as a formula. */
  function DaysBefore(n: nat): int { 365 * n + (n + 3) / 4 - (n + 99) / 100 + (n + 399) / 400 }

  lemma OneYear(n: nat)
    ensures DaysBefore(n + 1) == DaysBefore(n) + YearLength(n)
  {
    Fours(n);
    Hundreds(n);
    FourHundreds(n);
  }

  /** The Gregorian calendar as a formula: 365 days a year, one more every fourth year, but not every
      hundredth, but every four-hundredth. */
  lemma {:induction false} YearStartFormula(y: nat)
    ensures YearStart(y) == DaysBefore(y)
  {
    if y > 0 {
      YearStartFormula(y - 1);
      OneYear(y - 1);
    }
  }

  /** Months as a formula: counted from March they have 30.6 days on the average, rounded; and the months
      before are January of 31 days and February of what is left. */
  lemma MonthStartFormula(y: nat, m: nat)
    requires 1 <= m <= 13
    ensures MonthStart(y, m) ==
            if m == 1 then 0 else if m == 2 then 31
            else YearLength(y) - 306 + (153 * (m - 3) + 2) / 5
    decreases m
  {
    if m > 1 { MonthStartFormula(y, m - 1); }
  }

  predicate Valid(c: Civil) {
    && 1 <= c.month <= 12 && 1 <= c.day <= MonthLength(c.year, c.month)
    && c.hour < 24 && c.minute < 60 && c.second < 60
  }

  function Days(c: Civil): nat
    requires Valid(c)
  {
    YearStart(c.year) + MonthStart(c.year, c.month) + c.day - 1
  }

  function DaySeconds(c: Civil): nat { (c.hour * 60 + c.minute) * 60 + c.second }

  function Seconds(c: Civil): nat
    requires Valid(c)
  {
    Days(c) * 86400 + DaySeconds(c)
  }

  // From a number of seconds to the calendar.

  function YearFrom(d: nat, y: nat): (r: nat)
    requires YearStart(y) <= d
    ensures YearStart(r) <= d < YearStart(r + 1)
    decreases d - YearStart(y)
  {
    if d < YearStart(y + 1) then y else YearFrom(d, y + 1)
  }

  function MonthFrom(y: nat, d: nat, m: nat): (r: nat)
    requires 1 <= m <= 12 && MonthStart(y, m) <= d < MonthStart(y, 13)
    ensures 1 <= r <= 12 && MonthStart(y, r) <= d < MonthStart(y, r + 1)
    decreases 12 - m
  {
    if m == 12 || d < MonthStart(y, m + 1) then m else MonthFrom(y, d, m + 1)
  }

  /** The calendar reading of a number of seconds; `Seconds` is its inverse. */
  function Calendar(n: nat): (c: Civil)
    ensures Valid(c) && Seconds(c) == n
  {
    var d := n / 86400;
    var t := n % 86400;
    var y := YearFrom(d, 0);
    MonthStarts(y);
    var m := MonthFrom(y, d - YearStart(y), 1);
    Civil(y, m, d - YearStart(y) - MonthStart(y, m) + 1, t / 3600, t / 60 % 60, t % 60)
  }

  lemma {:induction false} YearStartGrows(y: nat, z: nat)
    requires y <= z
    ensures YearStart(y) <= YearStart(z)
    decreases z - y
  {
    if y < z { YearStartGrows(y, z - 1); }
  }

  lemma {:induction false} MonthStartGrows(y: nat, m: nat, n: nat)
    requires 1 <= m <= n <= 13
    ensures MonthStart(y, m) <= MonthStart(y, n)
    decreases n - m
  {
    if m < n { MonthStartGrows(y, m, n - 1); }
  }

  /** Fields in order of weight. */
  predicate Before(a: Civil, b: Civil) {
    || a.year < b.year
    || (a.year == b.year && a.month < b.month)
    || (a.year == b.year && a.month == b.month && a.day < b.day)
    || (a.year == b.year && a.month == b.month && a.day == b.day && DaySeconds(a) < DaySeconds(b))
  }

  lemma DateBefore(a: Civil, b: Civil)
    requires Valid(a) && Valid(b)
    requires a.year < b.year || (a.year == b.year && a.month < b.month)
             || (a.year == b.year && a.month == b.month && a.day < b.day)
    ensures Days(a) < Days(b)
  {
    MonthStarts(a.year);
    MonthStartGrows(a.year, a.month + 1, 13);
    if a.year < b.year {
      YearStartGrows(a.year + 1, b.year);
    } else if a.month < b.month {
      MonthStartGrows(a.year, a.month + 1, b.month);
    }
  }

  /** Calendar readings are ordered field by field as the times they name. */
  lemma SecondsOrder(a: Civil, b: Civil)
    requires Valid(a) && Valid(b)
    ensures Seconds(a) < Seconds(b) <==> Before(a, b)
  {
    if a.year == b.year && a.month == b.month && a.day == b.day {
    } else if a.year < b.year || (a.year == b.year && (a.month < b.month || (a.month == b.month && a.day < b.day))) {
      DateBefore(a, b);
    } else {
      DateBefore(b, a);
    }
  }

  // Text.

  function Pow10(w: nat): nat { if w == 0 then 1 else 10 * Pow10(w - 1) }

  /** `n` in exactly `w` digits. */
  function Pad(n: nat, w: nat): (s: string)
    requires n < Pow10(w)
    ensures |s| == w && All(s, IsDigit)
    ensures Decimal.Value(s) == n
  {
    if w == 0 then ""
    else
      var front := Pad(n / 10, w - 1);
      var s := front + [Decimal.DigitChar(n % 10)];
      assert s[..|s| - 1] == front && s[|s| - 1] == Decimal.DigitChar(n % 10);
      s
  }

  lemma LessLast(a: string, x: char, b: string, y: char)
    requires |a| == |b|
    ensures Less(a + [x], b + [y]) <==> Less(a, b) || (a == b && x < y)
  {
    LessConcat(a, [x], b, [y]);
  }

  lemma PadLast(n: nat, w: nat)
    requires w > 0 && n < Pow10(w)
    ensures n / 10 < Pow10(w - 1) && Pad(n, w) == Pad(n / 10, w - 1) + [Decimal.DigitChar(n % 10)]
  {
  }

  lemma TenOrder(n: nat, m: nat)
    ensures n < m <==> n / 10 < m / 10 || (n / 10 == m / 10 && n % 10 < m % 10)
  {
  }

  lemma PadInjective(n: nat, m: nat, w: nat)
    requires n < Pow10(w) && m < Pow10(w)
    ensures Pad(n, w) == Pad(m, w) <==> n == m
  {
    assert Decimal.Value(Pad(n, w)) == n && Decimal.Value(Pad(m, w)) == m;
  }

  lemma {:induction false} PadOrder(n: nat, m: nat, w: nat)
    requires n < Pow10(w) && m < Pow10(w)
    ensures Less(Pad(n, w), Pad(m, w)) <==> n < m
    ensures Pad(n, w) == Pad(m, w) <==> n == m
    decreases w, 1
  {
    PadInjective(n, m, w);
    if w > 0 {
      PadLast(n, w);
      PadLast(m, w);
      PadStep(n, m, w, Pad(n, w), Pad(m, w));
    }
  }

  lemma {:induction false} PadStep(n: nat, m: nat, w: nat, s: string, t: string)
    requires w > 0 && n / 10 < Pow10(w - 1) && m / 10 < Pow10(w - 1)
    requires s == Pad(n / 10, w - 1) + [Decimal.DigitChar(n % 10)]
    requires t == Pad(m / 10, w - 1) + [Decimal.DigitChar(m % 10)]
    ensures Less(s, t) <==> n < m
    decreases w, 0
  {
    PadOrder(n / 10, m / 10, w - 1);
    LessLast(Pad(n / 10, w - 1), Decimal.DigitChar(n % 10), Pad(m / 10, w - 1), Decimal.DigitChar(m % 10));
    TenOrder(n, m);
  }

  function Clock(c: Civil): string
    requires Valid(c)
  {
    Pad(c.hour, 2) + (":" + (Pad(c.minute, 2) + (":" + (Pad(c.second, 2) + "Z"))))
  }

  /** The text after the year. */
  function MonthText(c: Civil): string
    requires Valid(c)
  {
    Pad(c.month, 2) + ("-" + (Pad(c.day, 2) + ("T" + Clock(c))))
  }

  /** The layout `2006-01-02T15:04:05Z07:00` in UTC. */
  function Format(c: Civil): string
    requires Valid(c) && c.year < 10000
  {
    Pad(c.year, 4) + ("-" + MonthText(c))
  }

  /** Years 0000 to 9999. */
  predicate InRange(t: nat) { t / SECOND < YearStart(10000) * 86400 }

  lemma YearInRange(t: nat)
    requires InRange(t)
    ensures Calendar(t / SECOND).year < 10000
  {
    var c := Calendar(t / SECOND);
    if c.year >= 10000 { YearStartGrows(10000, c.year); }
  }

  /** `formatTime`. */
  function FormatTime(t: nat): string
    requires InRange(t)
  {
    YearInRange(t);
    Format(Calendar(t / SECOND))
  }

  lemma SepConcat(sep: string, x: string, y: string)
    ensures Less(sep + x, sep + y) <==> Less(x, y)
    ensures sep + x == sep + y <==> x == y
  {
    LessConcat(sep, x, sep, y);
    LessIrreflexive(sep);
    if sep + x == sep + y { assert x == (sep + x)[|sep|..] && y == (sep + y)[|sep|..]; }
  }

  /** A padded field before a separator and the rest. */
  lemma FieldOrder(n: nat, m: nat, w: nat, sep: string, x: string, y: string)
    requires n < Pow10(w) && m < Pow10(w)
    ensures Less(Pad(n, w) + (sep + x), Pad(m, w) + (sep + y)) <==> n < m || (n == m && Less(x, y))
  {
    PadOrder(n, m, w);
    LessConcat(Pad(n, w), sep + x, Pad(m, w), sep + y);
    SepConcat(sep, x, y);
  }

  lemma ClockOrder(a: Civil, b: Civil)
    requires Valid(a) && Valid(b)
    ensures Less(Clock(a), Clock(b)) <==> DaySeconds(a) < DaySeconds(b)
  {
    FieldOrder(a.hour, b.hour, 2, ":", Pad(a.minute, 2) + (":" + (Pad(a.second, 2) + "Z")),
               Pad(b.minute, 2) + (":" + (Pad(b.second, 2) + "Z")));
    FieldOrder(a.minute, b.minute, 2, ":", Pad(a.second, 2) + "Z", Pad(b.second, 2) + "Z");
    PadOrder(a.second, b.second, 2);
    LessConcat(Pad(a.second, 2), "Z", Pad(b.second, 2), "Z");
    LessIrreflexive("Z");
  }

  lemma MonthOrder(a: Civil, b: Civil)
    requires Valid(a) && Valid(b)
    ensures Less(MonthText(a), MonthText(b)) <==>
            || a.month < b.month
            || (a.month == b.month && (a.day < b.day || (a.day == b.day && DaySeconds(a) < DaySeconds(b))))
  {
    FieldOrder(a.month, b.month, 2, "-", Pad(a.day, 2) + ("T" + Clock(a)), Pad(b.day, 2) + ("T" + Clock(b)));
    FieldOrder(a.day, b.day, 2, "T", Clock(a), Clock(b));
    ClockOrder(a, b);
  }

  lemma FormatOrder(a: Civil, b: Civil)
    requires Valid(a) && Valid(b) && a.year < 10000 && b.year < 10000
    ensures Less(Format(a), Format(b)) <==> Before(a, b)
  {
    FieldOrder(a.year, b.year, 4, "-", MonthText(a), MonthText(b));
    MonthOrder(a, b);
  }

  /** The order of stored texts is the order of times cut to whole seconds. */
  lemma TextOrder(t: nat, u: nat)
    requires InRange(t) && InRange(u)
    ensures Less(FormatTime(t), FormatTime(u)) <==> t / SECOND < u / SECOND
  {
    YearInRange(t);
    YearInRange(u);
    FormatOrder(Calendar(t / SECOND), Calendar(u / SECOND));
    SecondsOrder(Calendar(t / SECOND), Calendar(u / SECOND));
  }

  // Reading back.

  predicate Digits(s: string, i: nat, w: nat) {
    i + w <= |s| && All(s[i..i + w], IsDigit)
  }

  function Number(s: string, i: nat, w: nat): nat
    requires Digits(s, i, w)
  {
    Decimal.Value(s[i..i + w])
  }

  /** `time.Parse(time.RFC3339, s)` on texts in UTC without a fraction, in seconds. */
  function Parse(s: string): Option<nat> {
    if && |s| == 20
       && Digits(s, 0, 4) && s[4] == '-' && Digits(s, 5, 2) && s[7] == '-' && Digits(s, 8, 2) && s[10] == 'T'
       && Digits(s, 11, 2) && s[13] == ':' && Digits(s, 14, 2) && s[16] == ':' && Digits(s, 17, 2) && s[19] == 'Z'
    then
      var c := Civil(Number(s, 0, 4), Number(s, 5, 2), Number(s, 8, 2),
                     Number(s, 11, 2), Number(s, 14, 2), Number(s, 17, 2));
      if Valid(c) then Some(Seconds(c)) else None
    else None
  }

  /** A field at position `k`, its one-character separator, and what follows. */
  lemma Peel(s: string, k: nat, x: string, sep: string, rest: string)
    requires k <= |s| && s[k..] == x + (sep + rest) && |sep| == 1
    ensures k + |x| + 1 <= |s| && s[k..k + |x|] == x && s[k + |x|] == sep[0] && s[k + |x| + 1..] == rest
  {
    assert s[k..][..|x|] == x;
    assert s[k..][|x|..] == sep + rest;
    assert s[k..][|x|] == (sep + rest)[0];
  }

  /** The text of a reading, field by field. */
  predicate Spells(s: string, c: Civil)
    requires Valid(c) && c.year < 10000
  {
    && |s| == 20
    && s[0..4] == Pad(c.year, 4) && s[4] == '-' && s[5..7] == Pad(c.month, 2) && s[7] == '-'
    && s[8..10] == Pad(c.day, 2) && s[10] == 'T' && s[11..13] == Pad(c.hour, 2) && s[13] == ':'
    && s[14..16] == Pad(c.minute, 2) && s[16] == ':' && s[17..19] == Pad(c.second, 2) && s[19] == 'Z'
  }

  lemma FormatSpells(c: Civil)
    requires Valid(c) && c.year < 10000
    ensures Spells(Format(c), c)
  {
    PeelFields(Format(c), Pad(c.year, 4), Pad(c.month, 2), Pad(c.day, 2),
               Pad(c.hour, 2), Pad(c.minute, 2), Pad(c.second, 2));
  }

  lemma PeelFields(s: string, y: string, mo: string, d: string, h: string, mi: string, se: string)
    requires |y| == 4 && |mo| == 2 && |d| == 2 && |h| == 2 && |mi| == 2 && |se| == 2
    requires s == y + ("-" + (mo + ("-" + (d + ("T" + (h + (":" + (mi + (":" + (se + "Z"))))))))))
    ensures |s| == 20
    ensures s[0..4] == y && s[4] == '-' && s[5..7] == mo && s[7] == '-' && s[8..10] == d && s[10] == 'T'
    ensures s[11..13] == h && s[13] == ':' && s[14..16] == mi && s[16] == ':' && s[17..19] == se && s[19] == 'Z'
  {
    PeelDate(s, y, mo, d, h + (":" + (mi + (":" + (se + "Z")))));
    PeelClock(s, h, mi, se);
  }

  lemma PeelDate(s: string, y: string, mo: string, d: string, clock: string)
    requires |y| == 4 && |mo| == 2 && |d| == 2
    requires s == y + ("-" + (mo + ("-" + (d + ("T" + clock)))))
    ensures |s| >= 11 && s[11..] == clock
    ensures s[0..4] == y && s[4] == '-' && s[5..7] == mo && s[7] == '-' && s[8..10] == d && s[10] == 'T'
  {
    assert s[0..] == s;
    Peel(s, 0, y, "-", mo + ("-" + (d + ("T" + clock))));
    Peel(s, 5, mo, "-", d + ("T" + clock));
    Peel(s, 8, d, "T", clock);
  }

  lemma PeelClock(s: string, h: string, mi: string, se: string)
    requires |h| == 2 && |mi| == 2 && |se| == 2
    requires |s| >= 11 && s[11..] == h + (":" + (mi + (":" + (se + "Z"))))
    ensures |s| == 20
    ensures s[11..13] == h && s[13] == ':' && s[14..16] == mi && s[16] == ':' && s[17..19] == se && s[19] == 'Z'
  {
    Peel(s, 11, h, ":", mi + (":" + (se + "Z")));
    Peel(s, 14, mi, ":", se + "Z");
    assert se + "Z" == se + ("Z" + "");
    Peel(s, 17, se, "Z", "");
  }

  lemma ParseSpelled(s: string, c: Civil)
    requires Valid(c) && c.year < 10000 && Spells(s, c)
    ensures Parse(s) == Some(Seconds(c))
  {
    assert Digits(s, 0, 4) && Number(s, 0, 4) == c.year;
    assert Digits(s, 5, 2) && Number(s, 5, 2) == c.month;
    assert Digits(s, 8, 2) && Number(s, 8, 2) == c.day;
    assert Digits(s, 11, 2) && Number(s, 11, 2) == c.hour;
    assert Digits(s, 14, 2) && Number(s, 14, 2) == c.minute;
    assert Digits(s, 17, 2) && Number(s, 17, 2) == c.second;
  }

  /** Parsing a formatted time gives it back, cut to whole seconds. */
  lemma ParseFormat(t: nat)
    requires InRange(t)
    ensures Parse(FormatTime(t)) == Some(t / SECOND)
  {
    YearInRange(t);
    var c := Calendar(t / SECOND);
    FormatSpells(c);
    ParseSpelled(Format(c), c);
  }

  /** Digits are the padded text of their value. */
  lemma {:induction false} PadValue(s: string, w: nat)
    requires |s| == w && All(s, IsDigit)
    ensures Decimal.Value(s) < Pow10(w) && Pad(Decimal.Value(s), w) == s
  {
    if w > 0 {
      var front := s[..w - 1];
      PadValue(front, w - 1);
      DigitOf(s[w - 1]);
      assert s == front + [s[w - 1]];
      PadLast(Decimal.Value(s), w);
    }
  }

  lemma DigitOf(c: char)
    requires IsDigit(c)
    ensures Decimal.DigitChar(Decimal.DigitValue(c)) == c
  {
  }

  /** A time has one calendar reading. */
  lemma SecondsInjective(a: Civil, b: Civil)
    requires Valid(a) && Valid(b) && Seconds(a) == Seconds(b)
    ensures a == b
  {
    SecondsOrder(a, b);
    SecondsOrder(b, a);
    assert DaySeconds(a) == DaySeconds(b);
  }

  lemma OneSpelling(s: string, t: string, c: Civil)
    requires Valid(c) && c.year < 10000 && Spells(s, c) && Spells(t, c)
    ensures s == t
  {
    Glue(s);
    Glue(t);
  }

  /** A text of 20 characters from its slices. */
  lemma Glue(s: string)
    requires |s| == 20
    ensures s == s[0..4] + [s[4]] + s[5..7] + [s[7]] + s[8..10] + [s[10]] + s[11..13] + [s[13]] + s[14..16] + [s[16]]
                 + s[17..19] + [s[19]]
  {
  }

  lemma ParsedSpells(s: string) returns (c: Civil)
    requires Parse(s).Some?
    ensures Valid(c) && c.year < 10000 && Spells(s, c) && Parse(s) == Some(Seconds(c))
  {
    c := Civil(Number(s, 0, 4), Number(s, 5, 2), Number(s, 8, 2), Number(s, 11, 2), Number(s, 14, 2), Number(s, 17, 2));
    assert Pow10(4) == 10000;
    PadValue(s[0..4], 4);
    PadValue(s[5..7], 2);
    PadValue(s[8..10], 2);
    PadValue(s[11..13], 2);
    PadValue(s[14..16], 2);
    PadValue(s[17..19], 2);
  }

  /** Formatting undoes parsing: a text that is read as a time is the text of that time, so no other text,
      of a day that does not exist for instance, is read at all. */
  lemma FormatParse(s: string)
    requires Parse(s).Some?
    ensures Calendar(Parse(s).value).year < 10000 && Format(Calendar(Parse(s).value)) == s
  {
    var c := ParsedSpells(s);
    SecondsInjective(c, Calendar(Seconds(c)));
    FormatSpells(c);
    OneSpelling(s, Format(c), c);
  }

  lemma FormatNonEmpty(t: nat)
    requires InRange(t)
    ensures |FormatTime(t)| == 20
  {
    YearInRange(t);
    FormatSpells(Calendar(t / SECOND));
  }

  /** Which expiries a sweep at `now` catches: those not after `now` in whole seconds; so every
      one at or before `now`, and none a full second or more later. */
  lemma FilterSound(expiry: nat, now: nat)
    requires InRange(expiry) && InRange(now)
    ensures !Less(FormatTime(now), FormatTime(expiry)) <==> expiry / SECOND <= now / SECOND
    ensures expiry <= now ==> !Less(FormatTime(now), FormatTime(expiry))
    ensures expiry >= now + SECOND ==> Less(FormatTime(now), FormatTime(expiry))
  {
    TextOrder(now, expiry);
  }

  // The times that occur.

  /** A `time.Duration` is a signed 64-bit number of nanoseconds: less than 293 years. */
  const MAX_DURATION := 0x7FFF_FFFF_FFFF_FFFF

  lemma {:induction false} YearsPass(y: nat, n: nat)
    ensures YearStart(y + n) >= YearStart(y) + 365 * n
  {
    if n > 0 { YearsPass(y, n - 1); }
  }

  /** Up to the year 9700 no expiry leaves the four-digit years: publishing adds one duration to the
      present, so what it stores is a text whose order is the order of times. */
  lemma ExpiryInRange(now: nat, ttl: nat)
    requires now / SECOND < YearStart(9700) * 86400 && ttl <= MAX_DURATION
    ensures InRange(now) && InRange(now + ttl)
  {
    YearsPass(9700, 300);
    assert ttl / SECOND < 300 * 365 * 86400 - 1;
    assert (now + ttl) / SECOND <= now / SECOND + ttl / SECOND + 1;
  }
}
