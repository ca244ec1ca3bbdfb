/** The name a flush window is contested under, in the seconds-resolution date-time of section 5.6 of RFC 3339, in
    UTC: no two windows of a second or more share one, and shorter ones do. */
module ClaimKeys {
  import opened Buffering
  import opened Texts

  const SECOND: int := 1_000_000_000

  datatype Date = Date(year: nat, month: nat, day: nat)

  predicate IsLeap(y: int) { y % 4 == 0 && (y % 100 != 0 || y % 400 == 0) }

  function DaysIn(y: int, m: int): int {
    if m == 2 then (if IsLeap(y) then 29 else 28)
    else if m == 4 || m == 6 || m == 9 || m == 11 then 30
    else 31
  }

  function NextDay(d: Date): Date {
    if d.day < DaysIn(d.year, d.month) then d.(day := d.day + 1)
    else if d.month < 12 then Date(d.year, d.month + 1, 1)
    else Date(d.year + 1, 1, 1)
  }

  /** The date `n` days after the zero time's, January 1 of year 1. */
  function Civil(n: nat): Date {
    if n == 0 then Date(1, 1, 1) else NextDay(Civil(n - 1))
  }

  predicate Before(a: Date, b: Date) {
    a.year < b.year || (a.year == b.year && (a.month < b.month || (a.month == b.month && a.day < b.day)))
  }

  lemma {:induction false} CivilBounds(n: nat)
    ensures 1 <= Civil(n).month <= 12 && 1 <= Civil(n).day <= 31
  {
    if n > 0 { CivilBounds(n - 1); }
  }

  lemma {:induction false} CivilAscends(a: nat, b: nat)
    requires a < b
    ensures Before(Civil(a), Civil(b))
  {
    if a < b - 1 { CivilAscends(a, b - 1); }
    CivilBounds(b - 1);
  }

  lemma CivilInjective(a: nat, b: nat)
    requires Civil(a) == Civil(b)
    ensures a == b
  {
    if a < b {
      CivilAscends(a, b);
    } else if b < a {
      CivilAscends(b, a);
    }
  }

  /** How many days come before a date, by the rule of four, a hundred and four hundred years. */
  function DaysBeforeYear(y: int): int { 365 * (y - 1) + (y - 1) / 4 - (y - 1) / 100 + (y - 1) / 400 }

  function DaysBeforeMonth(y: int, m: int): int {
    [0, 31, 59, 90, 120, 151, 181, 212, 243, 273, 304, 334][if 1 <= m <= 12 then m - 1 else 0] +
    (if m > 2 && y % 4 == 0 && (y % 100 != 0 || y % 400 == 0) then 1 else 0)
  }

  function DayNumber(d: Date): int { DaysBeforeYear(d.year) + DaysBeforeMonth(d.year, d.month) + d.day - 1 }

  lemma MultiplesUpTo(y: int)
    ensures y / 4 - (y - 1) / 4 == if y % 4 == 0 then 1 else 0
    ensures y / 100 - (y - 1) / 100 == if y % 100 == 0 then 1 else 0
    ensures y / 400 - (y - 1) / 400 == if y % 400 == 0 then 1 else 0
  {
  }

  lemma MultiplesNest(y: int)
    ensures y % 100 == 0 ==> y % 4 == 0
    ensures y % 400 == 0 ==> y % 100 == 0
  {
  }

  lemma YearLength(y: int)
    ensures DaysBeforeYear(y + 1) - DaysBeforeYear(y) == if IsLeap(y) then 366 else 365
  {
    MultiplesUpTo(y);
    MultiplesNest(y);
  }

  lemma NextDayIsNext(d: Date)
    requires 1 <= d.month <= 12 && 1 <= d.day <= DaysIn(d.year, d.month)
    ensures DayNumber(NextDay(d)) == DayNumber(d) + 1
    ensures 1 <= NextDay(d).month <= 12 && 1 <= NextDay(d).day <= DaysIn(NextDay(d).year, NextDay(d).month)
  {
    YearLength(d.year);
  }

  /** The calendar is the Gregorian one: the date `n` days on is the one that many days come before. */
  lemma {:induction false} CivilIsThatDay(n: nat)
    ensures DayNumber(Civil(n)) == n
    ensures 1 <= Civil(n).month <= 12 && 1 <= Civil(n).day <= DaysIn(Civil(n).year, Civil(n).month)
  {
    if n > 0 {
      CivilIsThatDay(n - 1);
      NextDayIsNext(Civil(n - 1));
    }
  }

  function Digit(n: nat): char
    requires n < 10
  {
    (n + 48) as char
  }

  /** `n` in `width` decimal digits. */
  function Decimal(n: nat, width: nat): (s: string)
    ensures |s| == width
  {
    if width == 0 then "" else Decimal(n / 10, width - 1) + [Digit(n % 10)]
  }

  function Pow10(k: nat): nat { if k == 0 then 1 else 10 * Pow10(k - 1) }

  lemma {:induction false} DecimalInjective(a: nat, b: nat, width: nat)
    requires a < Pow10(width) && b < Pow10(width) && Decimal(a, width) == Decimal(b, width)
    ensures a == b
  {
    if width > 0 {
      var x, y := Decimal(a / 10, width - 1), Decimal(b / 10, width - 1);
      assert Decimal(a, width)[..width - 1] == x && Decimal(b, width)[..width - 1] == y;
      assert Decimal(a, width)[width - 1] == Digit(a % 10) && Decimal(b, width)[width - 1] == Digit(b % 10);
      DecimalInjective(a / 10, b / 10, width - 1);
    }
  }

  /** What some decimal digits say. */
  function Said(s: string): int {
    if s == "" then 0 else 10 * Said(s[..|s| - 1]) + (s[|s| - 1] as int - '0' as int)
  }

  predicate AllDigits(s: string) { forall i | 0 <= i < |s| :: '0' <= s[i] <= '9' }

  lemma {:induction false} DecimalSays(n: nat, width: nat)
    requires n < Pow10(width)
    ensures AllDigits(Decimal(n, width)) && Said(Decimal(n, width)) == n
  {
    if width > 0 {
      var front := Decimal(n / 10, width - 1);
      DecimalSays(n / 10, width - 1);
      assert Decimal(n, width)[..width - 1] == front;
    }
  }

  function DateText(d: Date): (s: string)
    ensures |s| == 10
  {
    Decimal(d.year, 4) + "-" + Decimal(d.month, 2) + "-" + Decimal(d.day, 2)
  }

  function ClockText(s: nat): (r: string)
    ensures |r| == 8
  {
    Decimal(s / 3600, 2) + ":" + Decimal(s / 60 % 60, 2) + ":" + Decimal(s % 60, 2)
  }

  /** The date-time of an instant given in whole seconds since the zero time. */
  function Rfc3339(seconds: nat): (s: string)
    ensures |s| == 20
  {
    DateText(Civil(seconds / 86400)) + "T" + ClockText(seconds % 86400) + "Z"
  }

  /** A text of this shape says this date and this time of day, in UTC. */
  predicate SaysInstant(s: string, d: Date, hour: int, minute: int, second: int) {
    && |s| == 20 && s[4] == '-' && s[7] == '-' && s[10] == 'T' && s[13] == ':' && s[16] == ':' && s[19] == 'Z'
    && AllDigits(s[..4]) && AllDigits(s[5..7]) && AllDigits(s[8..10])
    && AllDigits(s[11..13]) && AllDigits(s[14..16]) && AllDigits(s[17..19])
    && Said(s[..4]) == d.year && Said(s[5..7]) == d.month && Said(s[8..10]) == d.day
    && Said(s[11..13]) == hour && Said(s[14..16]) == minute && Said(s[17..19]) == second
  }

  lemma DateTextSays(d: Date)
    requires d.year < 10000 && d.month < 100 && d.day < 100
    ensures var s := DateText(d);
      && s[4] == '-' && s[7] == '-' && AllDigits(s[..4]) && AllDigits(s[5..7]) && AllDigits(s[8..])
      && Said(s[..4]) == d.year && Said(s[5..7]) == d.month && Said(s[8..]) == d.day
  {
    var s := DateText(d);
    assert Pow10(4) == 10000 && Pow10(2) == 100;
    assert s[..4] == Decimal(d.year, 4) && s[5..7] == Decimal(d.month, 2) && s[8..] == Decimal(d.day, 2);
    DecimalSays(d.year, 4);
    DecimalSays(d.month, 2);
    DecimalSays(d.day, 2);
  }

  lemma ClockTextSays(n: nat)
    requires n < 86400
    ensures var s := ClockText(n);
      && s[2] == ':' && s[5] == ':' && AllDigits(s[..2]) && AllDigits(s[3..5]) && AllDigits(s[6..])
      && Said(s[..2]) == n / 3600 && Said(s[3..5]) == n / 60 % 60 && Said(s[6..]) == n % 60
  {
    var s := ClockText(n);
    assert Pow10(2) == 100;
    assert s[..2] == Decimal(n / 3600, 2) && s[3..5] == Decimal(n / 60 % 60, 2) && s[6..] == Decimal(n % 60, 2);
    DecimalSays(n / 3600, 2);
    DecimalSays(n / 60 % 60, 2);
    DecimalSays(n % 60, 2);
  }

  lemma TextParts(day: string, clock: string)
    requires |day| == 10 && |clock| == 8
    ensures var s := day + "T" + clock + "Z";
      && |s| == 20 && s[10] == 'T' && s[19] == 'Z' && s[4] == day[4] && s[7] == day[7]
      && s[13] == clock[2] && s[16] == clock[5]
      && s[..4] == day[..4] && s[5..7] == day[5..7] && s[8..10] == day[8..]
      && s[11..13] == clock[..2] && s[14..16] == clock[3..5] && s[17..19] == clock[6..]
  {
  }

  lemma TimeOfDay(n: nat)
    requires n < 86400
    ensures n == 3600 * (n / 3600) + 60 * (n / 60 % 60) + n % 60
    ensures n / 3600 < 24
  {
  }

  /** The text is that of the instant, as section 5.6 of RFC 3339 has it: of the day that many days after the first,
      and of the hour, the minute and the second of it. */
  lemma Rfc3339Says(seconds: nat) returns (d: Date, hour: nat, minute: nat, second: nat)
    requires Civil(seconds / 86400).year < 10000
    ensures SaysInstant(Rfc3339(seconds), d, hour, minute, second)
    ensures 1 <= d.month <= 12 && 1 <= d.day <= DaysIn(d.year, d.month) && hour < 24 && minute < 60 && second < 60
    ensures seconds == 86400 * DayNumber(d) + 3600 * hour + 60 * minute + second
  {
    var n := seconds % 86400;
    d, hour, minute, second := Civil(seconds / 86400), n / 3600, n / 60 % 60, n % 60;
    CivilIsThatDay(seconds / 86400);
    CivilBounds(seconds / 86400);
    TimeOfDay(n);
    DateTextSays(d);
    ClockTextSays(n);
    TextParts(DateText(d), ClockText(n));
  }

  lemma DateTextInjective(a: Date, b: Date)
    requires a.year < 10000 && b.year < 10000 && a.month < 100 && b.month < 100 && a.day < 100 && b.day < 100
    requires DateText(a) == DateText(b)
    ensures a == b
  {
    var s, t := DateText(a), DateText(b);
    assert Pow10(4) == 10000 && Pow10(2) == 100;
    assert s[..4] == Decimal(a.year, 4) && t[..4] == Decimal(b.year, 4);
    assert s[5..7] == Decimal(a.month, 2) && t[5..7] == Decimal(b.month, 2);
    assert s[8..] == Decimal(a.day, 2) && t[8..] == Decimal(b.day, 2);
    DecimalInjective(a.year, b.year, 4);
    DecimalInjective(a.month, b.month, 2);
    DecimalInjective(a.day, b.day, 2);
  }

  lemma ClockTextInjective(a: nat, b: nat)
    requires a < 86400 && b < 86400 && ClockText(a) == ClockText(b)
    ensures a == b
  {
    ClockTextSays(a);
    ClockTextSays(b);
    TimeOfDay(a);
    TimeOfDay(b);
  }

  /** Up to the four-digit years the standard has, two seconds never print the same. */
  lemma {:induction false} Rfc3339Injective(a: nat, b: nat)
    requires Civil(a / 86400).year < 10000 && Civil(b / 86400).year < 10000 && Rfc3339(a) == Rfc3339(b)
    ensures a == b
  {
    var s, t := Rfc3339(a), Rfc3339(b);
    assert s[..10] == DateText(Civil(a / 86400)) && t[..10] == DateText(Civil(b / 86400));
    assert s[11..19] == ClockText(a % 86400) && t[11..19] == ClockText(b % 86400);
    CivilBounds(a / 86400);
    CivilBounds(b / 86400);
    DateTextInjective(Civil(a / 86400), Civil(b / 86400));
    ClockTextInjective(a % 86400, b % 86400);
    CivilInjective(a / 86400, b / 86400);
  }

  /** `claimKey`: a stream with no routing key keeps the name it had. */
  function ClaimKey(gateway: string, stream: string, key: string, window: string): string {
    "brevis:gw:" + gateway + ":" + stream + (if key == "" then "" else ":" + key) + ":flush:" + window
  }

  lemma TruncateBounds(now: Time, every: int)
    requires every > 0
    ensures now - every < Truncate(now, every) <= now
    ensures now >= 0 ==> Truncate(now, every) >= 0
    ensures Truncate(now, every) == now / every * every
  {
  }

  /** The whole second a window starts in. */
  function WindowSecond(now: Time, every: int): int
    requires every > 0
  {
    Truncate(now, every) / SECOND
  }

  /** A window whose start the standard can print. */
  predicate Printable(now: Time, every: int) {
    every > 0 && WindowSecond(now, every) >= 0 && Civil(WindowSecond(now, every) / 86400).year < 10000
  }

  /** The name of the window an instant falls in. */
  function Window(now: Time, every: int): string
    requires Printable(now, every)
  {
    Rfc3339(WindowSecond(now, every))
  }

  lemma {:induction false} AtLeastOne(d: int, every: int)
    requires d >= 1 && every > 0
    ensures d * every >= every
    decreases d
  {
  }

  lemma NearMultiples(i: int, j: int, every: int)
    requires every > 0 && -every < i * every - j * every < every
    ensures i == j
  {
    assert (i - j) * every == i * every - j * every && (j - i) * every == j * every - i * every;
    if i > j {
      AtLeastOne(i - j, every);
    } else if j > i {
      AtLeastOne(j - i, every);
    }
  }

  lemma WindowsApart(t1: Time, t2: Time, every: int)
    requires every >= SECOND && WindowSecond(t1, every) == WindowSecond(t2, every)
    ensures Truncate(t1, every) == Truncate(t2, every)
  {
    TruncateBounds(t1, every);
    TruncateBounds(t2, every);
    NearMultiples(t1 / every, t2 / every, every);
  }

  /** The end of a name is its window, and what is between the stream and that is the routing key. */
  lemma ClaimKeyParts(gateway: string, stream: string, k1: string, w1: string, k2: string, w2: string)
    requires |w1| == |w2| && ClaimKey(gateway, stream, k1, w1) == ClaimKey(gateway, stream, k2, w2)
    ensures k1 == k2 && w1 == w2
  {
    var base := "brevis:gw:" + gateway + ":" + stream;
    var m1, m2 := if k1 == "" then "" else ":" + k1, if k2 == "" then "" else ":" + k2;
    var n1, n2 := base + m1 + ":flush:" + w1, base + m2 + ":flush:" + w2;
    assert n1 == n2;
    assert |n1| == |base| + |m1| + 7 + |w1| && |n2| == |base| + |m2| + 7 + |w2|;
    assert n1[|n1| - |w1|..] == w1 && n2[|n2| - |w2|..] == w2;
    assert n1[|base|..|base| + |m1|] == m1 && n2[|base|..|base| + |m2|] == m2;
    if k1 != "" { assert m1[1..] == k1; }
    if k2 != "" { assert m2[1..] == k2; }
  }

  lemma ClaimKeyIs(gateway: string, stream: string, key: string, window: string)
    ensures ClaimKey(gateway, stream, key, window) ==
      "brevis:gw:" + (gateway + ":" + (stream + ":" + ((if key == "" then "" else key + ":") + "flush:" + window)))
  {
    if key == "" {
      assert "" + ":flush:" == ":" + ("" + "flush:");
    } else {
      assert ":" + key + ":flush:" == ":" + (key + ":" + "flush:");
    }
  }

  /** With no colon in their names, neither does a gateway or a stream share a name with another. */
  lemma NamesApart(g1: string, s1: string, k1: string, w1: string, g2: string, s2: string, k2: string, w2: string)
    requires ':' !in g1 && ':' !in g2 && ':' !in s1 && ':' !in s2 && |w1| == |w2|
    ensures ClaimKey(g1, s1, k1, w1) == ClaimKey(g2, s2, k2, w2) <==> g1 == g2 && s1 == s2 && k1 == k2 && w1 == w2
  {
    if ClaimKey(g1, s1, k1, w1) == ClaimKey(g2, s2, k2, w2) {
      var x1 := (if k1 == "" then "" else k1 + ":") + "flush:" + w1;
      var x2 := (if k2 == "" then "" else k2 + ":") + "flush:" + w2;
      ClaimKeyIs(g1, s1, k1, w1);
      ClaimKeyIs(g2, s2, k2, w2);
      Prefixed("brevis:gw:", g1 + ":" + (s1 + ":" + x1), g2 + ":" + (s2 + ":" + x2));
      FirstMark(':', g1, g2, s1 + ":" + x1, s2 + ":" + x2);
      FirstMark(':', s1, s2, x1, x2);
      ClaimKeyParts(g1, s1, k1, w1, k2, w2);
    }
  }

  /** On one stream, with windows of a second or more, a name says which routing key and which window. */
  lemma ClaimKeyInjective(gateway: string, stream: string, k1: string, t1: Time, k2: string, t2: Time, every: int)
    requires every >= SECOND && Printable(t1, every) && Printable(t2, every)
    requires ClaimKey(gateway, stream, k1, Window(t1, every)) == ClaimKey(gateway, stream, k2, Window(t2, every))
    ensures k1 == k2 && Truncate(t1, every) == Truncate(t2, every)
  {
    ClaimKeyParts(gateway, stream, k1, Window(t1, every), k2, Window(t2, every));
    Rfc3339Injective(WindowSecond(t1, every), WindowSecond(t2, every));
    WindowsApart(t1, t2, every);
  }

  /** Whatever the window's length, two names agree exactly when the keys do and the windows start in one second. */
  lemma NamesAgree(gateway: string, stream: string, k1: string, t1: Time, k2: string, t2: Time, every: int)
    requires Printable(t1, every) && Printable(t2, every)
    ensures ClaimKey(gateway, stream, k1, Window(t1, every)) == ClaimKey(gateway, stream, k2, Window(t2, every)) <==>
              k1 == k2 && WindowSecond(t1, every) == WindowSecond(t2, every)
  {
    if ClaimKey(gateway, stream, k1, Window(t1, every)) == ClaimKey(gateway, stream, k2, Window(t2, every)) {
      ClaimKeyParts(gateway, stream, k1, Window(t1, every), k2, Window(t2, every));
      Rfc3339Injective(WindowSecond(t1, every), WindowSecond(t2, every));
    }
  }

  /** A multiple of the window's length starts a window. */
  lemma StartsWindow(n: int, every: int)
    requires every > 0
    ensures Truncate(n * every, every) == n * every
  {
    TruncateBounds(n * every, every);
    NearMultiples(n * every / every, n, every);
  }

  /** Below a second windows do share names, again and again: every second that is a multiple of the length starts two
      windows at least, in whatever year. */
  lemma ShortWindowsCollide(gateway: string, stream: string, key: string, every: int, k: nat)
    requires 0 < every < SECOND && Printable(k * SECOND * every, every)
    ensures var t := k * SECOND * every;
      && Truncate(t, every) == t && Truncate(t + every, every) == t + every
      && Printable(t + every, every)
      && ClaimKey(gateway, stream, key, Window(t, every)) == ClaimKey(gateway, stream, key, Window(t + every, every))
  {
    var t := k * SECOND * every;
    StartsWindow(k * SECOND, every);
    assert t + every == (k * SECOND + 1) * every;
    StartsWindow(k * SECOND + 1, every);
    assert t == (k * every) * SECOND;
    assert t / SECOND == k * every && (t + every) / SECOND == k * every;
  }
}
