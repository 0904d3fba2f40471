// Weekly leaderboard keys. Days count from Monday, 1 January of year 1, in the
// Gregorian calendar.
module IsoWeek {
  // The day number of 1 January.
  function YearStart(y: int): int {
    365 * (y - 1) + (y - 1) / 4 - (y - 1) / 100 + (y - 1) / 400
  }

  predicate Leap(y: int) {
    y % 4 == 0 && (y % 100 != 0 || y % 400 == 0)
  }

  lemma Quotients(y: int)
    ensures y / 4 - (y - 1) / 4 == if y % 4 == 0 then 1 else 0
    ensures y / 100 - (y - 1) / 100 == if y % 100 == 0 then 1 else 0
    ensures y / 400 - (y - 1) / 400 == if y % 400 == 0 then 1 else 0
  {
  }

  lemma Multiples(y: int)
    ensures (y % 400 == 0 ==> y % 100 == 0) && (y % 100 == 0 ==> y % 4 == 0)
  {
  }

  lemma YearLength(y: int)
    ensures YearStart(y + 1) - YearStart(y) == if Leap(y) then 366 else 365
  {
    Quotients(y);
    Multiples(y);
    var q4, q100, q400, p4, p100, p400 := y / 4, y / 100, y / 400, (y - 1) / 4, (y - 1) / 100, (y - 1) / 400;
    var by4, by100, by400 := y % 4 == 0, y % 100 == 0, y % 400 == 0;
    assert YearStart(y + 1) == 365 * y + q4 - q100 + q400;
    assert YearStart(y) == 365 * (y - 1) + p4 - p100 + p400;
    assert Leap(y) == (by4 && (!by100 || by400));
    hide YearStart, Leap;
  }

  function YearFrom(day: int, y: int): (year: int)
    requires YearStart(y) <= day
    ensures YearStart(year) <= day < YearStart(year + 1)
    decreases day - YearStart(y)
  {
    YearLength(y);
    if day < YearStart(y + 1) then y else YearFrom(day, y + 1)
  }

  lemma EarlyYear(day: int)
    requires day < 0
    ensures YearStart(day + 1) <= day
  {
  }

  function YearOf(day: int): (year: int)
    ensures YearStart(year) <= day < YearStart(year + 1)
  {
    if day >= 0 then YearFrom(day, 1) else EarlyYear(day); YearFrom(day, day + 1)
  }

  lemma {:induction false} YearsOrdered(a: int, b: int)
    requires a <= b
    ensures YearStart(a) + 365 * (b - a) <= YearStart(b)
    decreases b - a
  {
    if a < b {
      YearsOrdered(a, b - 1);
      YearLength(b - 1);
    }
  }

  lemma YearUnique(day: int, y: int)
    requires YearStart(y) <= day < YearStart(y + 1)
    ensures YearOf(day) == y
  {
    if YearOf(day) < y { YearsOrdered(YearOf(day) + 1, y); }
    if y < YearOf(day) { YearsOrdered(y + 1, YearOf(day)); }
  }

  // ---- The key -------------------------------------------------------------

  // Sunday is 0.
  function UtcDay(day: int): int { (day + 1) % 7 }

  function Thursday(day: int): int {
    var weekday := if UtcDay(day) == 0 then 7 else UtcDay(day);
    day + 4 - weekday
  }

  function Monday(day: int): int { day - day % 7 }

  datatype Key = Key(year: int, week: int)

  function CeilDiv7(n: int): int { (n + 6) / 7 }

  function WeeklyKey(day: int): Key {
    var t := Thursday(day);
    Key(YearOf(t), CeilDiv7(t - YearStart(YearOf(t)) + 1))
  }

  lemma ThursdayOfWeek(day: int)
    ensures Thursday(day) == Monday(day) + 3 && Thursday(day) % 7 == 3
    ensures Monday(day) % 7 == 0 && Monday(day) <= day <= Monday(day) + 6
  {
  }

  // One key per Monday-to-Sunday week, and one week per key.
  lemma SameKeyIffSameWeek(a: int, b: int)
    ensures WeeklyKey(a) == WeeklyKey(b) <==> Monday(a) == Monday(b)
  {
    ThursdayOfWeek(a);
    ThursdayOfWeek(b);
    hide YearOf, YearStart;
    if WeeklyKey(a) == WeeklyKey(b) {
      var start := YearStart(YearOf(Thursday(a)));
      assert (Thursday(a) - start) / 7 == (Thursday(b) - start) / 7;
    }
  }

  // The first Thursday of a year.
  function FirstThursday(y: int): int { YearStart(y) + (3 - YearStart(y)) % 7 }

  // Section 2.2.10 of ISO 8601:2004: week 1 holds the year's first Thursday, and
  // a week belongs to the year that its Thursday is in.
  lemma KeyIsIsoWeek(day: int)
    ensures var k := WeeklyKey(day);
            && Thursday(day) == FirstThursday(k.year) + 7 * (k.week - 1)
            && YearStart(k.year) <= Thursday(day) < YearStart(k.year + 1) && 1 <= k.week <= 53
  {
    ThursdayOfWeek(day);
    var t := Thursday(day);
    YearLength(YearOf(t));
    hide YearOf, YearStart;
  }

  // A year has a week 53 exactly when it starts on a Thursday, or on a Wednesday
  // in a leap year.
  lemma LongYearIff(y: int)
    ensures (exists day :: WeeklyKey(day) == Key(y, 53)) <==> YearStart(y) % 7 == 3 || (Leap(y) && YearStart(y) % 7 == 2)
  {
    YearLength(y);
    var last := FirstThursday(y) + 7 * 52;
    FirstIsThursday(y);
    hide *;
    if last < YearStart(y + 1) {
      KeyOfThursday(last, y, 53);
      assert WeeklyKey(last) == Key(y, 53);
    } else {
      forall day ensures WeeklyKey(day) != Key(y, 53) { KeyIsIsoWeek(day); }
    }
  }

  lemma KeyOfThursday(t: int, y: int, week: int)
    requires t % 7 == 3 && YearStart(y) <= t < YearStart(y + 1) && t == FirstThursday(y) + 7 * (week - 1)
    ensures WeeklyKey(t) == Key(y, week)
  {
    YearUnique(t, y);
    ThursdayOfWeek(t);
    KeyIsIsoWeek(t);
    hide YearOf, YearStart;
  }

  lemma FirstIsThursday(y: int)
    ensures FirstThursday(y) % 7 == 3 && YearStart(y) <= FirstThursday(y) < YearStart(y) + 7
    ensures FirstThursday(y) + 7 * 52 < YearStart(y) + (if Leap(y) then 366 else 365) <==>
              YearStart(y) % 7 == 3 || (Leap(y) && YearStart(y) % 7 == 2)
  {
    hide YearStart, Leap;
  }
}
