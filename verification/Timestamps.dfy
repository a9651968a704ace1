/**
 Times as the RFC3339Nano texts the tables store and compare: section 5.6 of RFC 3339 with the fraction's trailing
 zeros dropped, in UTC. How far the order of the texts is the order of time (section 5.1).
 */
module Timestamps {
  import opened Text

  datatype Instant = Instant(year: int, month: int, day: int, hour: int, minute: int, second: int, nano: int)

  predicate IsLeap(year: int) {
    year % 4 == 0 && (year % 100 != 0 || year % 400 == 0)
  }

  function DaysIn(year: int, month: int): int {
    if month == 2 then (if IsLeap(year) then 29 else 28)
    else if month == 4 || month == 6 || month == 9 || month == 11 then 30
    else 31
  }

  /** A UTC time with a four-digit year. */
  predicate Valid(t: Instant) {
    && 0 <= t.year <= 9999 && 1 <= t.month <= 12 && 1 <= t.day <= DaysIn(t.year, t.month)
    && 0 <= t.hour < 24 && 0 <= t.minute < 60 && 0 <= t.second < 60 && 0 <= t.nano < 1_000_000_000
  }

  function DaysBeforeYear(year: nat): int {
    if year == 0 then 0 else DaysBeforeYear(year - 1) + if IsLeap(year - 1) then 366 else 365
  }

  function DaysBeforeMonth(year: int, month: nat): int {
    if month <= 1 then 0 else DaysBeforeMonth(year, month - 1) + DaysIn(year, month - 1)
  }

  function DayNumber(t: Instant): int
    requires Valid(t)
  {
    DaysBeforeYear(t.year) + DaysBeforeMonth(t.year, t.month) + t.day
  }

  /** Whole seconds since the start of year 0. */
  function Seconds(t: Instant): int
    requires Valid(t)
  {
    DayNumber(t) * 86400 + t.hour * 3600 + t.minute * 60 + t.second
  }

  // ---------------------------------------------------------------- texts

  function Digit(d: int): char
    requires 0 <= d < 10
  {
    (('0' as int) + d) as char
  }

  function Pow10(w: nat): (p: int)
    ensures p >= 1
  {
    if w == 0 then 1 else 10 * Pow10(w - 1)
  }

  /** The last w decimal digits of n. */
  function Pad(n: nat, w: nat): (s: string)
    ensures |s| == w
    ensures forall i :: 0 <= i < w ==> '0' <= s[i] <= '9'
  {
    if w == 0 then "" else Pad(n / 10, w - 1) + [Digit(n % 10)]
  }

  /** The digits without the zeros at their end. */
  function DropZeros(s: string): (r: string)
    ensures r <= s && (r != "" ==> r[|r| - 1] != '0')
    ensures forall i :: |r| <= i < |s| ==> s[i] == '0'
  {
    if s != "" && s[|s| - 1] == '0' then DropZeros(s[..|s| - 1]) else s
  }

  /** The point and the fraction; nothing on a whole second. */
  function Fraction(nano: nat): string {
    if nano == 0 then "" else "." + DropZeros(Pad(nano, 9))
  }

  datatype Field = Field(value: nat, width: nat, sep: string)

  function Fields(t: Instant): seq<Field>
    requires Valid(t)
  {
    [Field(t.year, 4, "-"), Field(t.month, 2, "-"), Field(t.day, 2, "T"),
     Field(t.hour, 2, ":"), Field(t.minute, 2, ":"), Field(t.second, 2, "")]
  }

  function Render(fs: seq<Field>): string {
    if fs == [] then "" else Pad(fs[0].value, fs[0].width) + fs[0].sep + Render(fs[1..])
  }

  /** Format(time.RFC3339Nano) */
  function Stamp(t: Instant): string
    requires Valid(t)
  {
    Render(Fields(t)) + (Fraction(t.nano) + "Z")
  }

  // ---------------------------------------------------------------- the calendar and the layout

  lemma {:induction false} EveryFourth(year: nat)
    ensures (year + 4) / 4 == (year + 3) / 4 + if year % 4 == 0 then 1 else 0
  {
  }

  lemma {:induction false} EveryHundredth(year: nat)
    ensures (year + 100) / 100 == (year + 99) / 100 + if year % 100 == 0 then 1 else 0
  {
  }

  lemma {:induction false} EveryFourHundredth(year: nat)
    ensures (year + 400) / 400 == (year + 399) / 400 + if year % 400 == 0 then 1 else 0
  {
  }

  lemma {:induction false} LeapsAreFourths(year: nat)
    ensures year % 400 == 0 ==> year % 100 == 0
    ensures year % 100 == 0 ==> year % 4 == 0
  {
    var q, c := year / 400, year / 100;
    assert year % 400 == 0 ==> year == 100 * (4 * q);
    assert year % 100 == 0 ==> year == 4 * (25 * c);
  }

  /** Every fourth year is a leap year, but of the whole centuries only every fourth. */
  lemma {:induction false} DaysOfYears(year: nat)
    ensures DaysBeforeYear(year) == 365 * year + (year + 3) / 4 - (year + 99) / 100 + (year + 399) / 400
  {
    if year > 0 {
      DaysOfYears(year - 1);
      EveryFourth(year - 1);
      EveryHundredth(year - 1);
      EveryFourHundredth(year - 1);
      LeapsAreFourths(year - 1);
    }
  }

  /** The next day of the calendar. */
  function Tomorrow(t: Instant): Instant {
    var february := if t.year % 400 == 0 || (t.year % 4 == 0 && t.year % 100 != 0) then 29 else 28;
    var days := [31, february, 31, 30, 31, 30, 31, 31, 30, 31, 30, 31];
    if 1 <= t.month <= 12 && t.day < days[t.month - 1] then t.(day := t.day + 1)
    else if t.month < 12 then t.(month := t.month + 1, day := 1)
    else t.(year := t.year + 1, month := 1, day := 1)
  }

  /** The same time on the next day is 24 hours of 60 minutes of 60 seconds later. */
  lemma {:induction false} DaysAreEven(t: Instant)
    requires Valid(t) && Tomorrow(t).year <= 9999
    ensures Valid(Tomorrow(t)) && Seconds(Tomorrow(t)) == Seconds(t) + 24 * 60 * 60
  {
    LeapsAreFourths(t.year);
    DaysBefore(t.year);
    var next := Tomorrow(t);
    assert DayNumber(next) == DayNumber(t) + 1;
  }

  /** Midnight is the day's first second. */
  lemma {:induction false} ClockOfDay(t: Instant)
    requires Valid(t)
    ensures Seconds(t) == Seconds(t.(hour := 0, minute := 0, second := 0)) + (t.hour * 60 + t.minute) * 60 + t.second
    ensures 0 <= (t.hour * 60 + t.minute) * 60 + t.second < 24 * 60 * 60
  {
  }

  /** The value of a text of digits. */
  function Number(digits: string): int {
    if digits == "" then 0 else
      var n := |digits| - 1;
      10 * Number(digits[..n]) + (digits[n] as int - '0' as int)
  }

  lemma {:induction false} PadIsRead(n: nat, w: nat)
    requires n < Pow10(w)
    ensures Number(Pad(n, w)) == n
  {
    if w > 0 {
      PadIsRead(n / 10, w - 1);
      assert Pad(n, w)[..w - 1] == Pad(n / 10, w - 1);
    }
  }

  lemma {:induction false} ZerosScale(digits: string)
    ensures Number(digits) == Number(DropZeros(digits)) * Pow10(|digits| - |DropZeros(digits)|)
  {
    var kept := DropZeros(digits);
    if digits != "" && digits[|digits| - 1] == '0' {
      var n := |digits| - 1;
      ZerosScale(digits[..n]);
      assert kept == DropZeros(digits[..n]);
      assert Pow10(|digits| - |kept|) == 10 * Pow10(n - |kept|);
      Tenfold(Number(digits[..n]), Number(kept), Pow10(n - |kept|));
    } else {
      assert kept == digits && Pow10(0) == 1;
    }
  }

  lemma {:induction false} Tenfold(n: int, k: int, p: int)
    requires n == k * p
    ensures 10 * n == k * (10 * p)
  {
  }

  /** The parts of the layout one after the other. */
  lemma {:induction false} Parts(t: Instant)
    requires Valid(t)
    ensures Render(Fields(t)) == Pad(t.year, 4) + ("-" + (Pad(t.month, 2) + ("-" + (Pad(t.day, 2) + ("T" + Clock(t))))))
  {
    hide Pad, Render, IsLeap;
    var fs := Fields(t);
    RenderFirst(fs, 0);
    RenderFirst(fs, 1);
    RenderFirst(fs, 2);
    RenderClock(t);
    hide *;
  }

  function Clock(t: Instant): string
    requires Valid(t)
  {
    Pad(t.hour, 2) + (":" + (Pad(t.minute, 2) + (":" + Pad(t.second, 2))))
  }

  lemma {:induction false} RenderClock(t: Instant)
    requires Valid(t)
    ensures Render(Fields(t)[3..]) == Clock(t)
  {
    hide Pad, Render, IsLeap;
    var fs := Fields(t);
    RenderFirst(fs, 3);
    RenderFirst(fs, 4);
    RenderFirst(fs, 5);
    RenderNone(fs[6..]);
  }

  lemma {:induction false} RenderFirst(fs: seq<Field>, i: nat)
    requires i < |fs|
    ensures Render(fs[i..]) == Pad(fs[i].value, fs[i].width) + (fs[i].sep + Render(fs[i + 1..]))
    ensures i == 0 ==> Render(fs) == Pad(fs[i].value, fs[i].width) + (fs[i].sep + Render(fs[i + 1..]))
  {
    hide Pad;
    assert fs[i..][1..] == fs[i + 1..];
    assert fs[0..] == fs;
  }

  lemma {:induction false} RenderNone(fs: seq<Field>)
    requires fs == []
    ensures Render(fs) == ""
  {
  }

  lemma {:induction false} Peel(s: string, k: nat, part: string, rest: string)
    requires k <= |s| && s[k..] == part + rest
    ensures k + |part| <= |s| && s[k..k + |part|] == part && s[k + |part|..] == rest
    ensures |part| == 1 ==> s[k] == part[0]
  {
    assert forall i :: 0 <= i < |s| - k ==> s[k..][i] == s[k + i];
    assert s[k..k + |part|] == s[k..][..|part|] && s[k + |part|..] == s[k..][|part|..];
  }

  lemma {:induction false} ReadField(s: string, k: nat, n: nat, w: nat, rest: string)
    requires k <= |s| && s[k..] == Pad(n, w) + rest && n < Pow10(w)
    ensures k + w <= |s| && Number(s[k..k + w]) == n && s[k + w..] == rest
  {
    Peel(s, k, Pad(n, w), rest);
    PadIsRead(n, w);
  }

  /** "15:04:05" at position k. */
  lemma {:induction false} ClockIsRead(t: Instant, s: string, k: nat, rest: string)
    requires Valid(t) && k <= |s| && s[k..] == Clock(t) + rest
    ensures k + 8 <= |s| && s[k + 2] == s[k + 5] == ':' && s[k + 8..] == rest
    ensures Number(s[k..k + 2]) == t.hour && Number(s[k + 3..k + 5]) == t.minute && Number(s[k + 6..k + 8]) == t.second
  {
    assert Pow10(1) == 10 && Pow10(2) == 100;
    hide Pow10, Number, Pad, IsLeap;
    var h, m, x := Pad(t.hour, 2), Pad(t.minute, 2), Pad(t.second, 2);
    assert s[k..] == h + (":" + (m + (":" + (x + rest))));
    ReadField(s, k, t.hour, 2, ":" + (m + (":" + (x + rest))));
    Peel(s, k + 2, ":", m + (":" + (x + rest)));
    ReadField(s, k + 3, t.minute, 2, ":" + (x + rest));
    Peel(s, k + 5, ":", x + rest);
    ReadField(s, k + 6, t.second, 2, rest);
  }

  lemma {:induction false} StampParts(t: Instant)
    requires Valid(t)
    ensures Stamp(t) == Pad(t.year, 4) + ("-" + (Pad(t.month, 2) + ("-" + (Pad(t.day, 2) + ("T" + (Clock(t) + (Fraction(t.nano) + "Z")))))))
  {
    Parts(t);
    hide Fraction, Render, Fields, Pad, Clock, Valid;
    Append("T", Clock(t), Fraction(t.nano) + "Z");
    Append(Pad(t.day, 2), "T" + Clock(t), Fraction(t.nano) + "Z");
    Append("-", Pad(t.day, 2) + ("T" + Clock(t)), Fraction(t.nano) + "Z");
    Append(Pad(t.month, 2), "-" + (Pad(t.day, 2) + ("T" + Clock(t))), Fraction(t.nano) + "Z");
    Append("-", Pad(t.month, 2) + ("-" + (Pad(t.day, 2) + ("T" + Clock(t)))), Fraction(t.nano) + "Z");
    Append(Pad(t.year, 4), "-" + (Pad(t.month, 2) + ("-" + (Pad(t.day, 2) + ("T" + Clock(t))))), Fraction(t.nano) + "Z");
    hide *;
  }

  lemma {:induction false} Append(a: string, b: string, c: string)
    ensures (a + b) + c == a + (b + c)
  {
  }

  /** "2006-01-02T" at the start. */
  lemma {:induction false} DateIsRead(t: Instant, s: string, rest: string)
    requires Valid(t) && s == Pad(t.year, 4) + ("-" + (Pad(t.month, 2) + ("-" + (Pad(t.day, 2) + ("T" + rest)))))
    ensures |s| >= 11 && s[4] == s[7] == '-' && s[10] == 'T' && s[11..] == rest
    ensures Number(s[..4]) == t.year && Number(s[5..7]) == t.month && Number(s[8..10]) == t.day
  {
    assert Pow10(1) == 10 && Pow10(2) == 100 && Pow10(3) == 1000 && Pow10(4) == 10000;
    hide Pow10, Number, Pad, IsLeap;
    var d := "-" + (Pad(t.day, 2) + ("T" + rest));
    var m := "-" + (Pad(t.month, 2) + d);
    assert s[0..] == s && s[0..4] == s[..4];
    ReadField(s, 0, t.year, 4, m);
    Peel(s, 4, "-", Pad(t.month, 2) + d);
    ReadField(s, 5, t.month, 2, d);
    Peel(s, 7, "-", Pad(t.day, 2) + ("T" + rest));
    ReadField(s, 8, t.day, 2, "T" + rest);
    Peel(s, 10, "T", rest);
  }

  /** "2006-01-02T15:04:05", read back field by field. */
  lemma {:induction false} StampIsRead(t: Instant)
    requires Valid(t)
    ensures var s := Stamp(t);
            && |s| >= 19 && s[4] == s[7] == '-' && s[10] == 'T' && s[13] == s[16] == ':'
            && Number(s[..4]) == t.year && Number(s[5..7]) == t.month && Number(s[8..10]) == t.day
            && Number(s[11..13]) == t.hour && Number(s[14..16]) == t.minute && Number(s[17..19]) == t.second
            && s[19..] == Fraction(t.nano) + "Z"
  {
    var s, rest := Stamp(t), Fraction(t.nano) + "Z";
    StampParts(t);
    hide Number, Fraction, Stamp, Pad, Clock, Valid;
    DateIsRead(t, s, Clock(t) + rest);
    ClockIsRead(t, s, 11, rest);
  }

  /** ".999999999": up to nine digits that end in no zero, and no point on a whole second. */
  lemma {:induction false} FractionIsRead(nano: nat)
    requires nano < 1_000_000_000
    ensures var f := Fraction(nano);
            if nano == 0 then f == ""
            else 2 <= |f| <= 10 && f[0] == '.' && f[|f| - 1] != '0' && Number(f[1..]) * Pow10(10 - |f|) == nano
  {
    if nano > 0 {
      NinthPower();
      PadIsRead(nano, 9);
      var digits := Pad(nano, 9);
      ZerosScale(digits);
      var kept := DropZeros(digits);
      assert Fraction(nano)[1..] == kept;
      assert Number("") == 0;
      hide Pad, Number, Pow10, DropZeros;
      assert kept != "";
    }
  }

  // ---------------------------------------------------------------- comparing texts

  /** Both texts have a byte at k, where `a`'s is the smaller one. */
  predicate DifferAt(a: string, b: string, k: nat) {
    k < |a| && k < |b| && a[..k] == b[..k] && a[k] < b[k]
  }

  lemma {:induction false} DifferBefore(a: string, b: string, x: string, y: string, k: nat)
    requires DifferAt(a, b, k)
    ensures DifferAt(a + x, b + y, k)
  {
    assert (a + x)[..k] == a[..k] && (b + y)[..k] == b[..k];
  }

  lemma {:induction false} DifferAfter(p: string, a: string, b: string, k: nat)
    requires DifferAt(a, b, k)
    ensures DifferAt(p + a, p + b, |p| + k)
  {
    assert (p + a)[..|p| + k] == p + a[..k] && (p + b)[..|p| + k] == p + b[..k];
  }

  lemma {:induction false} DifferIsLess(a: string, b: string, k: nat)
    requires DifferAt(a, b, k)
    ensures Less(a, b)
  {
    assert PartAt(a, b, k);
  }

  lemma {:induction false} PadOrder(m: nat, n: nat, w: nat) returns (k: nat)
    requires m < n < Pow10(w)
    ensures DifferAt(Pad(m, w), Pad(n, w), k)
  {
    var p, q, x, y := Pad(m / 10, w - 1), Pad(n / 10, w - 1), Digit(m % 10), Digit(n % 10);
    assert Pad(m, w) == p + [x] && Pad(n, w) == q + [y];
    if m / 10 < n / 10 {
      assert n / 10 < Pow10(w - 1);
      k := PadOrder(m / 10, n / 10, w - 1);
      hide *;
      DifferBefore(p, q, [x], [y], k);
    } else {
      k := w - 1;
      assert x < y;
      hide Pad, Pow10, Digit;
      assert (p + [x])[..k] == p && (q + [y])[..k] == q;
    }
  }

  // ---------------------------------------------------------------- whole seconds

  /** Same widths and separators, and values that fit. */
  ghost predicate SameShape(a: seq<Field>, b: seq<Field>) {
    |a| == |b| && forall i :: 0 <= i < |a| ==> Alike(a[i], b[i])
  }

  predicate Alike(x: Field, y: Field) {
    x.width == y.width && x.sep == y.sep && x.value < Pow10(x.width) && y.value < Pow10(y.width)
  }

  lemma {:induction false} FirstFieldOrders(a: Field, b: Field, x: string, y: string) returns (k: nat)
    requires Alike(a, b) && a.value < b.value
    ensures DifferAt(Pad(a.value, a.width) + a.sep + x, Pad(b.value, b.width) + b.sep + y, k)
  {
    var p, q := Pad(a.value, a.width), Pad(b.value, b.width);
    k := PadOrder(a.value, b.value, a.width);
    hide Pad, DifferAt, Pow10;
    DifferBefore(p, q, a.sep + x, b.sep + y, k);
    assert p + a.sep + x == p + (a.sep + x) && q + b.sep + y == q + (b.sep + y);
  }

  lemma {:induction false} RenderOrder(a: seq<Field>, b: seq<Field>, j: nat) returns (k: nat)
    requires SameShape(a, b) && j < |a| && a[j].value < b[j].value && forall i :: 0 <= i < j ==> a[i].value == b[i].value
    ensures DifferAt(Render(a), Render(b), k)
  {
    hide Pad, DifferAt, Pow10;
    assert Alike(a[0], b[0]);
    if j == 0 {
      k := FirstFieldOrders(a[0], b[0], Render(a[1..]), Render(b[1..]));
    } else {
      k := RenderOrder(a[1..], b[1..], j - 1);
      var p := Pad(a[0].value, a[0].width) + a[0].sep;
      DifferAfter(p, Render(a[1..]), Render(b[1..]), k);
      k := |p| + k;
    }
  }

  lemma {:induction false} YearsGrow(a: nat, b: nat)
    requires a < b
    ensures DaysBeforeYear(a) + (if IsLeap(a) then 366 else 365) <= DaysBeforeYear(b)
  {
    if a < b - 1 {
      YearsGrow(a, b - 1);
    }
  }

  lemma {:induction false} MonthsGrow(year: int, a: nat, b: nat)
    requires 1 <= a < b
    ensures DaysBeforeMonth(year, a) + DaysIn(year, a) <= DaysBeforeMonth(year, b)
  {
    if a < b - 1 {
      MonthsGrow(year, a, b - 1);
    }
  }

  lemma {:induction false} MonthFitsYear(year: int, month: nat)
    requires 1 <= month <= 12
    ensures 0 <= DaysBeforeMonth(year, month) && DaysBeforeMonth(year, month) + DaysIn(year, month) <= if IsLeap(year) then 366 else 365
  {
    DaysBefore(year);
    if month < 12 {
      MonthsGrow(year, month, 12);
    }
    if month > 1 {
      MonthsGrow(year, 1, month);
    }
  }

  /** The days before month n when February has `feb` days. */
  function Elapsed(n: int, feb: int): int {
    if n <= 1 then 0 else if n == 2 then 31
    else feb + if n == 3 then 31 else if n == 4 then 62 else if n == 5 then 92 else if n == 6 then 123 else if n == 7 then 153
               else if n == 8 then 184 else if n == 9 then 215 else if n == 10 then 245 else if n == 11 then 276 else 306
  }

  lemma {:induction false} DaysBefore(year: int)
    ensures DaysBeforeMonth(year, 12) + 31 == if IsLeap(year) then 366 else 365
  {
    var n := 1;
    var sum := 0;
    while n < 12
      invariant 1 <= n <= 12 && sum == DaysBeforeMonth(year, n)
      invariant sum == Elapsed(n, if IsLeap(year) then 29 else 28)
    {
      sum := sum + DaysIn(year, n);
      n := n + 1;
    }
  }

  predicate DateBefore(a: Instant, b: Instant) {
    a.year < b.year || (a.year == b.year && (a.month < b.month || (a.month == b.month && a.day < b.day)))
  }

  predicate ClockBefore(a: Instant, b: Instant) {
    a.hour < b.hour || (a.hour == b.hour && (a.minute < b.minute || (a.minute == b.minute && a.second < b.second)))
  }

  predicate SameDate(a: Instant, b: Instant) {
    a.year == b.year && a.month == b.month && a.day == b.day
  }

  lemma {:induction false} DatesCount(a: Instant, b: Instant)
    requires Valid(a) && Valid(b) && DateBefore(a, b)
    ensures DayNumber(a) < DayNumber(b)
  {
    MonthFitsYear(a.year, a.month);
    MonthFitsYear(b.year, b.month);
    if a.year < b.year {
      YearsGrow(a.year, b.year);
    } else if a.month < b.month {
      MonthsGrow(a.year, a.month, b.month);
    }
    hide DaysIn, IsLeap, DaysBeforeYear, DaysBeforeMonth;
  }

  /** The calendar fields of an earlier second are earlier. */
  lemma {:induction false} SecondsOrderFields(a: Instant, b: Instant)
    requires Valid(a) && Valid(b) && Seconds(a) < Seconds(b)
    ensures DateBefore(a, b) || (SameDate(a, b) && ClockBefore(a, b))
  {
    hide DayNumber;
    if DateBefore(b, a) {
      DatesCount(b, a);
    }
    assert SameDate(a, b) ==> DayNumber(a) == DayNumber(b) by {
      hide *;
      SameDayNumber(a, b);
    }
  }

  lemma {:induction false} SameDayNumber(a: Instant, b: Instant)
    requires Valid(a) && Valid(b)
    ensures SameDate(a, b) ==> DayNumber(a) == DayNumber(b)
  {
  }

  lemma {:induction false} FieldsInOrder(a: Instant, b: Instant) returns (j: nat)
    requires Valid(a) && Valid(b) && Seconds(a) < Seconds(b)
    ensures j < 6 && Fields(a)[j].value < Fields(b)[j].value
    ensures forall i :: 0 <= i < j ==> Fields(a)[i].value == Fields(b)[i].value
    ensures SameShape(Fields(a), Fields(b))
  {
    SecondsOrderFields(a, b);
    assert Pow10(1) == 10 && Pow10(2) == 100 && Pow10(3) == 1000 && Pow10(4) == 10000;
    hide Seconds, Pow10, IsLeap;
    j := if a.year < b.year then 0 else if a.month < b.month then 1 else if a.day < b.day then 2
         else if a.hour < b.hour then 3 else if a.minute < b.minute then 4 else 5;
  }

  /** An earlier whole second gives a smaller text, whatever the fractions. */
  lemma {:induction false} EarlierSecondIsLess(a: Instant, b: Instant)
    requires Valid(a) && Valid(b) && Seconds(a) < Seconds(b)
    ensures Less(Stamp(a), Stamp(b))
  {
    var j := FieldsInOrder(a, b);
    hide Fields, SameShape, Seconds, Fraction, Render, DifferAt, Less, Valid;
    var k := RenderOrder(Fields(a), Fields(b), j);
    DifferBefore(Render(Fields(a)), Render(Fields(b)), Fraction(a.nano) + "Z", Fraction(b.nano) + "Z", k);
    DifferIsLess(Stamp(a), Stamp(b), k);
  }

  // ---------------------------------------------------------------- within one second

  lemma {:induction false} NinthPower()
    ensures Pow10(9) == 1_000_000_000
  {
    assert Pow10(2) == 100 && Pow10(4) == 10_000 && Pow10(6) == 1_000_000 && Pow10(8) == 100_000_000;
  }

  /** Where the nine digits of two fractions part, the greater one's are not yet all dropped. */
  lemma {:induction false} DigitsPart(m: nat, n: nat) returns (p: string, q: string, k: nat)
    requires m < n < 1_000_000_000
    ensures p == Pad(m, 9) && q == Pad(n, 9) && |p| == |q| == 9
    ensures DifferAt(p, q, k) && k < |DropZeros(q)| && DropZeros(q)[k] == q[k]
  {
    NinthPower();
    hide Pow10;
    k := PadOrder(m, n, 9);
    hide Pad, DropZeros;
    p, q := Pad(m, 9), Pad(n, 9);
  }

  lemma {:induction false} DroppedIsPrefix(p: string, q: string, k: nat)
    requires DifferAt(p, q, k) && k < |DropZeros(q)| && k >= |DropZeros(p)|
    ensures "." + DropZeros(p) <= "." + DropZeros(q)
  {
    var f, g := DropZeros(p), DropZeros(q);
    hide DropZeros;
    assert f == p[..k][..|f|] && g[..|f|] == q[..k][..|f|];
    assert ("." + g)[..1 + |f|] == "." + f;
  }

  lemma {:induction false} KeptDigitsDiffer(p: string, q: string, f: string, g: string, k: nat)
    requires DifferAt(p, q, k) && f <= p && g <= q && k < |f| && k < |g|
    ensures DifferAt(f, g, k)
  {
    assert f[..k] == p[..k] && g[..k] == q[..k];
  }

  lemma {:induction false} DiffersInside(a: string, b: string, k: nat)
    requires DifferAt(a, b, k)
    ensures k < |a| && k < |b|
  {
  }

  lemma {:induction false} FractionsDiffer(m: nat, n: nat) returns (k: nat)
    requires m < n < 1_000_000_000 && !(Fraction(m) <= Fraction(n))
    ensures DifferAt(Fraction(m), Fraction(n), k)
  {
    hide Pad, DropZeros, DifferAt;
    var p, q, j := DigitsPart(m, n);
    var f, g := DropZeros(p), DropZeros(q);
    assert m > 0 && Fraction(m) == "." + f && Fraction(n) == "." + g;
    hide Fraction;
    assert j < |p| && j < |q| by { DiffersInside(p, q, j); }
    if j >= |f| {
      DroppedIsPrefix(p, q, j);
    }
    KeptDigitsDiffer(p, q, f, g, j);
    DifferAfter(".", f, g, j);
    k := 1 + j;
  }

  lemma {:induction false} PrefixComesLater(f: string, g: string)
    requires f < g && g[|f|] < 'Z'
    ensures DifferAt(g + "Z", f + "Z", |f|)
  {
  }

  lemma {:induction false} FractionGrows(m: nat, n: nat)
    requires m < n < 1_000_000_000
    ensures !(Fraction(n) <= Fraction(m)) && forall i :: 0 <= i < |Fraction(n)| ==> Fraction(n)[i] < 'Z'
  {
    hide Pad, DropZeros;
    var p, q, j := DigitsPart(m, n);
    var g := DropZeros(q);
    assert Fraction(n) == "." + g && Fraction(n)[1 + j] == q[j];
    assert m > 0 && 1 + j < |Fraction(m)| ==> Fraction(m)[1 + j] == p[j];
  }

  /** Inside one second the later time has the greater text exactly if the earlier's fraction is no prefix of its own. */
  lemma {:induction false} FractionOrder(m: nat, n: nat)
    requires m < n < 1_000_000_000
    ensures Less(Fraction(m) + "Z", Fraction(n) + "Z") <==> !(Fraction(m) <= Fraction(n))
    ensures Less(Fraction(n) + "Z", Fraction(m) + "Z") <==> Fraction(m) <= Fraction(n)
  {
    var f, g := Fraction(m), Fraction(n);
    FractionGrows(m, n);
    if f <= g {
      hide Fraction;
      PrefixComesLater(f, g);
      DifferIsLess(g + "Z", f + "Z", |f|);
      LessIsStrict(g + "Z", f + "Z");
    } else {
      var k := FractionsDiffer(m, n);
      hide Fraction;
      DifferBefore(f, g, "Z", "Z", k);
      DifferIsLess(f + "Z", g + "Z", k);
      LessIsStrict(f + "Z", g + "Z");
    }
  }

  lemma {:induction false} LessAfterPrefix(p: string, a: string, b: string)
    ensures Less(p + a, p + b) <==> Less(a, b)
  {
    if Less(a, b) {
      var k: nat :| k < |b| && PartAt(a, b, k);
      assert (p + a)[..|p| + k] == p + a[..k] && (p + b)[..|p| + k] == p + b[..k];
      assert PartAt(p + a, p + b, |p| + k);
    }
    assert forall i :: 0 <= i < |p| ==> (p + a)[i] == (p + b)[i];
    if Less(p + a, p + b) {
      var k: nat :| k < |p + b| && PartAt(p + a, p + b, k);
      if k >= |p| {
        var j := k - |p|;
        assert a[..j] == (p + a)[..k][|p|..] && b[..j] == (p + b)[..k][|p|..];
        assert PartAt(a, b, j);
      }
    }
  }

  /** The same second, whatever the fraction. */
  predicate SameSecond(a: Instant, b: Instant) {
    SameDate(a, b) && a.hour == b.hour && a.minute == b.minute && a.second == b.second
  }

  lemma {:induction false} SecondsAreFields(a: Instant, b: Instant)
    requires Valid(a) && Valid(b)
    ensures Seconds(a) == Seconds(b) <==> SameSecond(a, b)
  {
    hide DayNumber;
    SameDayNumber(a, b);
    if DateBefore(a, b) {
      DatesCount(a, b);
    } else if DateBefore(b, a) {
      DatesCount(b, a);
    }
  }

  /** When one stored text is below another: the exact order that the purge and the reports use. */
  lemma {:induction false} StampOrder(a: Instant, b: Instant)
    requires Valid(a) && Valid(b)
    ensures Less(Stamp(a), Stamp(b)) <==>
            || Seconds(a) < Seconds(b)
            || (Seconds(a) == Seconds(b) && a.nano < b.nano && !(Fraction(a.nano) <= Fraction(b.nano)))
            || (Seconds(a) == Seconds(b) && b.nano < a.nano && Fraction(b.nano) <= Fraction(a.nano))
  {
    if Seconds(a) < Seconds(b) {
      EarlierSecondIsLess(a, b);
    } else if Seconds(b) < Seconds(a) {
      EarlierSecondIsLess(b, a);
      LessIsStrict(Stamp(b), Stamp(a));
    } else {
      SecondsAreFields(a, b);
      assert Fields(a) == Fields(b);
      hide Seconds, Fraction, Fields, Less;
      LessAfterPrefix(Render(Fields(a)), Fraction(a.nano) + "Z", Fraction(b.nano) + "Z");
      if a.nano < b.nano {
        FractionOrder(a.nano, b.nano);
      } else if b.nano < a.nano {
        FractionOrder(b.nano, a.nano);
      } else {
        NotLessThanItself(Fraction(a.nano) + "Z");
      }
    }
  }

  lemma {:induction false} NotLessThanItself(s: string)
    ensures !Less(s, s)
  {
  }

  /** Different times have different texts. */
  lemma {:induction false} StampIsInjective(a: Instant, b: Instant)
    requires Valid(a) && Valid(b) && Stamp(a) == Stamp(b)
    ensures a == b
  {
    hide Less, Fraction, Stamp, Seconds;
    StampOrder(a, b);
    StampOrder(b, a);
    NotLessThanItself(Stamp(a));
    SecondsAreFields(a, b);
  }
}
