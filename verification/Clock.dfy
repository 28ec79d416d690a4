/** Timestamps as the tables store them, "YYYY-MM-DD HH:MM:SS", and the order SQLite gives them. */
module Clock {
  import opened Common
  import opened Lifecycle

  datatype Stamp = Stamp(year: nat, month: nat, day: nat, hour: nat, minute: nat, second: nat)

  predicate Leap(y: nat) {
    y % 4 == 0 && (y % 100 != 0 || y % 400 == 0)
  }

  function MonthLength(y: nat, m: nat): nat {
    if m in {4, 6, 9, 11} then 30 else if m == 2 then (if Leap(y) then 29 else 28) else 31
  }

  predicate Proper(s: Stamp) {
    && s.year <= 9999 && 1 <= s.month <= 12 && 1 <= s.day <= MonthLength(s.year, s.month)
    && s.hour < 24 && s.minute < 60 && s.second < 60
  }

  // ---------- the instant a stamp names ----------

  function YearStart(y: nat): nat {
    if y == 0 then 0 else YearStart(y - 1) + if Leap(y - 1) then 366 else 365
  }

  function MonthStart(y: nat, m: nat): nat
    requires 1 <= m
  {
    if m == 1 then 0 else MonthStart(y, m - 1) + MonthLength(y, m - 1)
  }

  function Day(s: Stamp): nat
    requires Proper(s)
  {
    YearStart(s.year) + MonthStart(s.year, s.month) + s.day - 1
  }

  /** Seconds since the start of year 0 of the Gregorian calendar. */
  function Seconds(s: Stamp): nat
    requires Proper(s)
  {
    Day(s) * 86400 + s.hour * 3600 + s.minute * 60 + s.second
  }

  lemma {:induction false} MonthStartAscends(y: nat, m: nat, n: nat)
    requires 1 <= m < n
    ensures MonthStart(y, m) + MonthLength(y, m) <= MonthStart(y, n)
  {
    if m < n - 1 { MonthStartAscends(y, m, n - 1); }
  }

  lemma {:induction false} YearStartAscends(y: nat, z: nat)
    requires y < z
    ensures YearStart(y) + (if Leap(y) then 366 else 365) <= YearStart(z)
  {
    if y < z - 1 { YearStartAscends(y, z - 1); }
  }

  lemma YearLength(y: nat)
    ensures MonthStart(y, 12) + 31 == if Leap(y) then 366 else 365
  {
    assert MonthStart(y, 2) == 31;
    assert MonthStart(y, 3) == 31 + MonthLength(y, 2);
    assert MonthStart(y, 5) == MonthStart(y, 3) + 61;
    assert MonthStart(y, 7) == MonthStart(y, 5) + 61;
    assert MonthStart(y, 9) == MonthStart(y, 7) + 62;
    assert MonthStart(y, 11) == MonthStart(y, 9) + 61;
  }

  /** Earlier field by field, from the year down. */
  predicate Earlier(a: Stamp, b: Stamp) {
    a.year < b.year || (a.year == b.year && (
    a.month < b.month || (a.month == b.month && (
    a.day < b.day || (a.day == b.day && (
    a.hour < b.hour || (a.hour == b.hour && (
    a.minute < b.minute || (a.minute == b.minute && a.second < b.second)))))))))
  }

  predicate EarlierDate(a: Stamp, b: Stamp) {
    a.year < b.year || (a.year == b.year && (a.month < b.month || (a.month == b.month && a.day < b.day)))
  }

  lemma DateOrder(a: Stamp, b: Stamp)
    requires Proper(a) && Proper(b) && EarlierDate(a, b)
    ensures Day(a) < Day(b)
  {
    if a.year < b.year {
      YearStartAscends(a.year, b.year);
      YearLength(a.year);
      if a.month < 12 { MonthStartAscends(a.year, a.month, 12); }
    } else if a.month < b.month {
      MonthStartAscends(a.year, a.month, b.month);
    }
  }

  lemma TimeOrder(a: Stamp, b: Stamp)
    requires Proper(a) && Proper(b)
    ensures Earlier(a, b) <==> Seconds(a) < Seconds(b)
  {
    if EarlierDate(a, b) {
      DateOrder(a, b);
    } else if EarlierDate(b, a) {
      DateOrder(b, a);
    }
  }

  // ---------- the text of a stamp ----------

  function Two(n: nat): string
    requires n < 100
  {
    [Digit(n / 10), Digit(n % 10)]
  }

  function Tail(s: Stamp): string
    requires Proper(s)
  {
    ":" + (Two(s.minute) + (":" + Two(s.second)))
  }

  function Format(s: Stamp): string
    requires Proper(s)
  {
    Two(s.year / 100) + (Two(s.year % 100) + ("-" + (Two(s.month) + ("-" + (Two(s.day)
    + (" " + (Two(s.hour) + Tail(s))))))))
  }

  lemma SharedChar(c: char, x: string, y: string)
    ensures Before([c] + x, [c] + y) <==> Before(x, y)
  {
    assert ([c] + x)[1..] == x && ([c] + y)[1..] == y;
  }

  lemma TwoDigits(a: nat, b: nat, x: string, y: string)
    requires a < 100 && b < 100
    ensures Before(Two(a) + x, Two(b) + y) <==> a < b || (a == b && Before(x, y))
  {
    var p, q := [Digit(a % 10)] + x, [Digit(b % 10)] + y;
    assert Two(a) + x == [Digit(a / 10)] + p && Two(b) + y == [Digit(b / 10)] + q;
    assert p[1..] == x && q[1..] == y;
    assert ([Digit(a / 10)] + p)[1..] == p && ([Digit(b / 10)] + q)[1..] == q;
  }

  lemma TailOrder(a: Stamp, b: Stamp)
    requires Proper(a) && Proper(b)
    ensures Before(Tail(a), Tail(b)) <==> a.minute < b.minute || (a.minute == b.minute && a.second < b.second)
  {
    SharedChar(':', Two(a.minute) + (":" + Two(a.second)), Two(b.minute) + (":" + Two(b.second)));
    TwoDigits(a.minute, b.minute, ":" + Two(a.second), ":" + Two(b.second));
    SharedChar(':', Two(a.second), Two(b.second));
    assert Two(a.second) == Two(a.second) + "" && Two(b.second) == Two(b.second) + "";
    TwoDigits(a.second, b.second, "", "");
  }

  lemma FormatOrder(a: Stamp, b: Stamp)
    requires Proper(a) && Proper(b)
    ensures Before(Format(a), Format(b)) <==> Earlier(a, b)
  {
    var a5, b5 := Two(a.hour) + Tail(a), Two(b.hour) + Tail(b);
    var a4, b4 := Two(a.day) + (" " + a5), Two(b.day) + (" " + b5);
    var a3, b3 := Two(a.month) + ("-" + a4), Two(b.month) + ("-" + b4);
    var a2, b2 := Two(a.year % 100) + ("-" + a3), Two(b.year % 100) + ("-" + b3);
    TailOrder(a, b);
    TwoDigits(a.hour, b.hour, Tail(a), Tail(b));
    SharedChar(' ', a5, b5);
    TwoDigits(a.day, b.day, " " + a5, " " + b5);
    SharedChar('-', a4, b4);
    TwoDigits(a.month, b.month, "-" + a4, "-" + b4);
    SharedChar('-', a3, b3);
    TwoDigits(a.year % 100, b.year % 100, "-" + a3, "-" + b3);
    TwoDigits(a.year / 100, b.year / 100, a2, b2);
  }

  /** Nineteen characters, with the separators of "YYYY-MM-DD HH:MM:SS". */
  lemma FormatShape(s: Stamp)
    requires Proper(s)
    ensures var t := Format(s);
      |t| == 19 && t[4] == t[7] == '-' && t[10] == ' ' && t[13] == t[16] == ':'
    ensures Format(s)[..10] == Two(s.year / 100) + Two(s.year % 100) + "-" + Two(s.month) + "-" + Two(s.day)
    ensures Format(s)[11..] == Two(s.hour) + ":" + Two(s.minute) + ":" + Two(s.second)
  {
  }

  /** Two digits, tens first. */
  lemma TwoMeans(n: nat)
    requires n < 100
    ensures |Two(n)| == 2 && 10 * (Two(n)[0] as int - '0' as int) + (Two(n)[1] as int - '0' as int) == n
  {
  }

  /** An RFC 3339 text: the same date, then a 'T' and whatever follows. */
  function Iso(s: Stamp, rest: string): string
    requires Proper(s)
  {
    Two(s.year / 100) + (Two(s.year % 100) + ("-" + (Two(s.month) + ("-" + (Two(s.day) + ("T" + rest))))))
  }

  /** As text, a stamp comes after an RFC 3339 one only from the next day on. */
  lemma IsoOrder(a: Stamp, b: Stamp, rest: string)
    requires Proper(a) && Proper(b)
    ensures Before(Format(b), Iso(a, rest)) <==> !EarlierDate(a, b)
  {
    var a4, b4 := Two(a.day) + ("T" + rest), Two(b.day) + (" " + (Two(b.hour) + Tail(b)));
    var a3, b3 := Two(a.month) + ("-" + a4), Two(b.month) + ("-" + b4);
    var a2, b2 := Two(a.year % 100) + ("-" + a3), Two(b.year % 100) + ("-" + b3);
    assert Before(" " + (Two(b.hour) + Tail(b)), "T" + rest);
    TwoDigits(b.day, a.day, " " + (Two(b.hour) + Tail(b)), "T" + rest);
    SharedChar('-', b4, a4);
    TwoDigits(b.month, a.month, "-" + b4, "-" + a4);
    SharedChar('-', b3, a3);
    TwoDigits(b.year % 100, a.year % 100, "-" + b3, "-" + a3);
    TwoDigits(b.year / 100, a.year / 100, b2, a2);
  }

  /** Comparing the stored text is comparing the instants. */
  lemma TextOrderIsTimeOrder(a: Stamp, b: Stamp)
    requires Proper(a) && Proper(b)
    ensures Before(Format(a), Format(b)) <==> Seconds(a) < Seconds(b)
  {
    FormatOrder(a, b);
    TimeOrder(a, b);
  }

  // ---------- the text order is a total order ----------

  lemma {:induction false} BeforeIsTotal(a: string, b: string)
    ensures Before(a, b) || Before(b, a) || a == b
    ensures !(Before(a, b) && Before(b, a)) && !Before(a, a)
  {
    if a != [] && b != [] {
      BeforeIsTotal(a[1..], b[1..]);
      assert a == [a[0]] + a[1..] && b == [b[0]] + b[1..];
    }
    if a != [] { BeforeIsTotal(a[1..], a[1..]); }
  }

  lemma {:induction false} BeforeIsTransitive(a: string, b: string, c: string)
    ensures Before(a, b) && Before(b, c) ==> Before(a, c)
    ensures !Before(b, a) && !Before(c, b) ==> !Before(c, a)
  {
    if a != [] && b != [] && c != [] {
      BeforeIsTransitive(a[1..], b[1..], c[1..]);
    }
  }
}
