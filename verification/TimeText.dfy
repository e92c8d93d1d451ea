/** Instants as the table stores them: UTC text with milliseconds. The SQL
    guards compare that text byte by byte, so its order must be the order of
    time. Years 0000 to 9999 are the ones written with four digits. */
module TimeText {
  import opened Bytes
  import opened Text
  import Sessions

  const DAY := 86_400_000

  // ----- the calendar -----

  function Leap(y: nat): nat { if y % 4 == 0 && (y % 100 != 0 || y % 400 == 0) then 1 else 0 }

  /** Days from the start of year 0 to the start of year `y`. */
  function DaysBefore(y: nat): nat { if y == 0 then 0 else DaysBefore(y - 1) + 365 + Leap(y - 1) }

  function MonthDays(y: nat, m: nat): nat {
    if m == 2 then 28 + Leap(y) else if m == 4 || m == 6 || m == 9 || m == 11 then 30 else 31
  }

  /** Days of year `y` before month `m`; month 13 stands for the next year. */
  function MonthStart(y: nat, m: nat): nat
    requires 1 <= m <= 13
    decreases m
  {
    if m == 1 then 0 else MonthStart(y, m - 1) + MonthDays(y, m - 1)
  }

  lemma YearHasItsMonths(y: nat)
    ensures MonthStart(y, 13) == 365 + Leap(y)
  {
    assert MonthStart(y, 4) == 90 + Leap(y);
    assert MonthStart(y, 7) == 181 + Leap(y);
    assert MonthStart(y, 10) == 273 + Leap(y);
  }

  lemma Rounds4(y: nat)
    ensures (y + 4) / 4 == (y + 3) / 4 + if y % 4 == 0 then 1 else 0
  {
  }

  lemma Rounds100(y: nat)
    ensures (y + 100) / 100 == (y + 99) / 100 + if y % 100 == 0 then 1 else 0
  {
  }

  lemma Rounds400(y: nat)
    ensures (y + 400) / 400 == (y + 399) / 400 + if y % 400 == 0 then 1 else 0
  {
  }

  lemma Centuries(y: nat)
    ensures y % 400 == 0 ==> y % 100 == 0
    ensures y % 100 == 0 ==> y % 4 == 0
  {
    if y % 400 == 0 { assert y == 100 * (4 * (y / 400)); }
    if y % 100 == 0 { assert y == 4 * (25 * (y / 100)); }
  }

  lemma {:induction false} DaysBeforeFormula(y: nat)
    ensures DaysBefore(y) == 365 * y + (y + 3) / 4 - (y + 99) / 100 + (y + 399) / 400
  {
    if y > 0 {
      DaysBeforeFormula(y - 1);
      Rounds4(y - 1);
      Rounds100(y - 1);
      Rounds400(y - 1);
      Centuries(y - 1);
    }
  }

  datatype Civil = Civil(year: nat, month: nat, day: nat, hour: nat, minute: nat, second: nat, milli: nat)
  {
    predicate Valid() {
      && 1 <= month <= 12 && 1 <= day <= MonthDays(year, month)
      && hour < 24 && minute < 60 && second < 60 && milli < 1000
    }

    function InYear(): nat
      requires Valid()
    {
      MonthStart(year, month) + day - 1
    }

    function InDay(): nat { ((hour * 60 + minute) * 60 + second) * 1000 + milli }

    /** Milliseconds since the start of year 0. */
    function Count(): nat
      requires Valid()
    {
      (DaysBefore(year) + InYear()) * DAY + InDay()
    }

    predicate Before(c: Civil) {
      || year < c.year || (year == c.year && (month < c.month || (month == c.month && (day < c.day || (day == c.day
      && (hour < c.hour || (hour == c.hour && (minute < c.minute || (minute == c.minute && (second < c.second
      || (second == c.second && milli < c.milli)))))))))))
    }
  }

  lemma {:induction false} MonthsGrow(y: nat, m: nat, n: nat)
    requires 1 <= m <= n <= 13
    ensures MonthStart(y, m) <= MonthStart(y, n)
    decreases n
  {
    if m < n { MonthsGrow(y, m, n - 1); }
  }

  lemma {:induction false} YearsGrow(y: nat, z: nat)
    requires y <= z
    ensures DaysBefore(y) <= DaysBefore(z)
    decreases z
  {
    if y < z { YearsGrow(y, z - 1); }
  }

  lemma DayFits(c: Civil)
    requires c.Valid()
    ensures c.InYear() < 365 + Leap(c.year) && c.InDay() < DAY
  {
    MonthsGrow(c.year, c.month + 1, 13);
    YearHasItsMonths(c.year);
  }

  lemma DayOrder(a: Civil, b: Civil)
    requires a.Valid() && b.Valid()
    requires a.year < b.year || (a.year == b.year && (a.month < b.month || (a.month == b.month && a.day < b.day)))
    ensures DaysBefore(a.year) + a.InYear() < DaysBefore(b.year) + b.InYear()
  {
    DayFits(a);
    if a.year < b.year {
      YearsGrow(a.year + 1, b.year);
    } else if a.month < b.month {
      MonthsGrow(a.year, a.month + 1, b.month);
    }
  }

  /** Calendar order is the order of time. */
  lemma CountOrder(a: Civil, b: Civil)
    requires a.Valid() && b.Valid() && a.Before(b)
    ensures a.Count() < b.Count()
  {
    DayFits(a);
    DayFits(b);
    if a.year == b.year && a.month == b.month && a.day == b.day {
      assert a.InDay() < b.InDay();
    } else {
      DayOrder(a, b);
    }
  }

  // ----- from an instant to the calendar -----

  function YearFrom(days: nat, y: nat): (r: nat)
    requires DaysBefore(y) <= days
    ensures DaysBefore(r) <= days < DaysBefore(r + 1)
    decreases days - DaysBefore(y)
  {
    if days < DaysBefore(y + 1) then y else YearFrom(days, y + 1)
  }

  function MonthFrom(y: nat, days: nat, m: nat): (r: nat)
    requires 1 <= m <= 12 && MonthStart(y, m) <= days < MonthStart(y, 13)
    ensures m <= r <= 12 && MonthStart(y, r) <= days < MonthStart(y, r + 1)
    decreases 12 - m
  {
    if days < MonthStart(y, m + 1) then m else MonthFrom(y, days, m + 1)
  }

  lemma ClockParts(rest: nat)
    requires rest < DAY
    ensures var h, m, s := rest / 3_600_000, rest / 60_000 % 60, rest / 1000 % 60;
            h < 24 && ((h * 60 + m) * 60 + s) * 1000 + rest % 1000 == rest
  {
    var seconds, minutes := rest / 1000, rest / 60_000;
    assert rest == seconds * 1000 + rest % 1000;
    assert minutes == seconds / 60 && seconds == minutes * 60 + seconds % 60;
    assert rest / 3_600_000 == minutes / 60 && minutes == minutes / 60 * 60 + minutes % 60;
  }

  function CivilOf(count: nat): (c: Civil)
    ensures c.Valid() && c.Count() == count
  {
    var days, rest := count / DAY, count % DAY;
    var y := YearFrom(days, 0);
    var inYear := days - DaysBefore(y);
    YearHasItsMonths(y);
    ClockParts(rest);
    var m := MonthFrom(y, inYear, 1);
    Civil(y, m, inYear - MonthStart(y, m) + 1, rest / 3_600_000, rest / 60_000 % 60, rest / 1000 % 60, rest % 1000)
  }

  // ----- text -----

  function Decimal(v: nat, width: nat): seq<byte> {
    if width == 0 then [] else Decimal(v / 10, width - 1) + [0x30 + v % 10]
  }

  function Pow10(n: nat): nat { if n == 0 then 1 else 10 * Pow10(n - 1) }

  /** The text of numbers of fixed width, each followed by its separator. */
  function Fields(values: seq<nat>, widths: seq<nat>, separators: seq<byte>): seq<byte>
    requires |values| == |widths| == |separators|
    decreases |values|
  {
    if values == [] then [] else
    Decimal(values[0], widths[0]) + ([separators[0]] + Fields(values[1..], widths[1..], separators[1..]))
  }

  function Widths(): seq<nat> { [4, 2, 2, 2, 2, 2, 3] }

  function Separators(): seq<byte> { [0x2d, 0x2d, 0x54, 0x3a, 0x3a, 0x2e, 0x5a] }

  function Values(c: Civil): seq<nat> { [c.year, c.month, c.day, c.hour, c.minute, c.second, c.milli] }

  /** `YYYY-MM-DDTHH:MM:SS.mmmZ`. */
  function Printed(c: Civil): seq<byte> { Fields(Values(c), Widths(), Separators()) }

  /** Fixed-width numbers compare as text the way they compare as numbers. */
  lemma {:induction false} DecimalOrder(u: nat, v: nat, width: nat, s: seq<byte>, t: seq<byte>)
    requires u < Pow10(width) && v < Pow10(width)
    ensures Less(Decimal(u, width) + s, Decimal(v, width) + t) <==> u < v || (u == v && Less(s, t))
    decreases width
  {
    if width == 0 {
      assert Decimal(u, 0) + s == s && Decimal(v, 0) + t == t;
    } else {
      var a, b := [0x30 + u % 10] + s, [0x30 + v % 10] + t;
      DecimalOrder(u / 10, v / 10, width - 1, a, b);
      assert Decimal(u, width) + s == Decimal(u / 10, width - 1) + a;
      assert Decimal(v, width) + t == Decimal(v / 10, width - 1) + b;
      assert a[1..] == s && b[1..] == t;
    }
  }

  lemma SameFirst(b: byte, s: seq<byte>, t: seq<byte>)
    ensures Less([b] + s, [b] + t) <==> Less(s, t)
  {
    assert ([b] + s)[1..] == s && ([b] + t)[1..] == t;
  }

  predicate LexLess(u: seq<nat>, v: seq<nat>)
    requires |u| == |v|
  {
    u != [] && (u[0] < v[0] || (u[0] == v[0] && LexLess(u[1..], v[1..])))
  }

  /** So do lists of them with the same separators. */
  lemma {:induction false} FieldsOrder(u: seq<nat>, v: seq<nat>, widths: seq<nat>, separators: seq<byte>)
    requires |u| == |v| == |widths| == |separators|
    requires forall i :: 0 <= i < |u| ==> u[i] < Pow10(widths[i]) && v[i] < Pow10(widths[i])
    ensures Less(Fields(u, widths, separators), Fields(v, widths, separators)) <==> LexLess(u, v)
    decreases |u|
  {
    if u != [] {
      hide Decimal, Less, Pow10;
      var s, t := Fields(u[1..], widths[1..], separators[1..]), Fields(v[1..], widths[1..], separators[1..]);
      FieldsOrder(u[1..], v[1..], widths[1..], separators[1..]);
      SameFirst(separators[0], s, t);
      DecimalOrder(u[0], v[0], widths[0], [separators[0]] + s, [separators[0]] + t);
    }
  }

  lemma FieldsFit(c: Civil)
    requires c.Valid() && c.year < 10000
    ensures forall i :: 0 <= i < 7 ==> Values(c)[i] < Pow10(Widths()[i])
  {
    assert Pow10(2) == 100 && Pow10(3) == 1000 && Pow10(4) == 10000;
  }

  lemma LexFrom(u: seq<nat>, v: seq<nat>, i: nat)
    requires |u| == |v| && i < |u|
    ensures LexLess(u[i..], v[i..]) <==> u[i] < v[i] || (u[i] == v[i] && LexLess(u[i + 1..], v[i + 1..]))
  {
    assert u[i..][1..] == u[i + 1..] && v[i..][1..] == v[i + 1..];
  }

  lemma LexIsBefore(a: Civil, b: Civil)
    ensures LexLess(Values(a), Values(b)) <==> a.Before(b)
  {
    var u, v := Values(a), Values(b);
    assert u[0..] == u && v[0..] == v && !LexLess(u[7..], v[7..]);
    hide LexLess;
    LexFrom(u, v, 0);
    LexFrom(u, v, 1);
    LexFrom(u, v, 2);
    LexFrom(u, v, 3);
    LexFrom(u, v, 4);
    LexFrom(u, v, 5);
    LexFrom(u, v, 6);
  }

  lemma PrintedOrder(a: Civil, b: Civil)
    requires a.Valid() && b.Valid() && a.year < 10000 && b.year < 10000
    ensures Less(Printed(a), Printed(b)) <==> a.Before(b)
  {
    hide Fields, Less, Pow10;
    FieldsFit(a);
    FieldsFit(b);
    FieldsOrder(Values(a), Values(b), Widths(), Separators());
    LexIsBefore(a, b);
  }

  // ----- instants -----

  /** Days from the start of year 0 to the Unix epoch, and to the end of year 9999. */
  const EPOCH := 719_528
  const END := 3_652_425

  /** Milliseconds since the start of year 0 of an instant in nanoseconds since the epoch. */
  function Millis(t: Sessions.Time): int { t / Sessions.MILLI + EPOCH * DAY }

  /** The instant falls in the years 0000 to 9999. */
  predicate Printable(t: Sessions.Time) { 0 <= Millis(t) < END * DAY }

  /** `format_time`. */
  function FormatTime(t: Sessions.Time): seq<byte>
    requires Printable(t)
  {
    Printed(CivilOf(Millis(t)))
  }

  /** The epoch is the start of 1970, and the end is the start of year 10000. */
  lemma YearStarts(y: nat)
    ensures y == 1970 ==> DaysBefore(y) == EPOCH
    ensures y == 10000 ==> DaysBefore(y) == END
  {
    hide DaysBefore;
    DaysBeforeFormula(y);
  }

  lemma FourDigits(count: nat, end: nat)
    requires end == 10000 && count < END * DAY
    ensures CivilOf(count).year < end
  {
    hide CivilOf, DaysBefore;
    var c := CivilOf(count);
    YearStarts(end);
    if c.year >= end { YearsGrow(end, c.year); }
  }

  /** Text order is time order, to the millisecond. */
  lemma TextOrderIsTimeOrder(t: Sessions.Time, u: Sessions.Time)
    requires Printable(t) && Printable(u)
    ensures Less(FormatTime(t), FormatTime(u)) <==> Sessions.Stored(t) < Sessions.Stored(u)
    ensures FormatTime(t) == FormatTime(u) <==> Sessions.Stored(t) == Sessions.Stored(u)
  {
    hide CivilOf, Printed, Less;
    var a, b := CivilOf(Millis(t)), CivilOf(Millis(u));
    FourDigits(Millis(t), 10000);
    FourDigits(Millis(u), 10000);
    PrintedOrder(a, b);
    PrintedOrder(b, a);
    if a.Before(b) { CountOrder(a, b); }
    if b.Before(a) { CountOrder(b, a); }
    assert a.Before(b) || b.Before(a) || a == b;
    LessTotal(FormatTime(t), FormatTime(u));
    StoredOrder(t, u);
  }

  lemma StoredOrder(t: Sessions.Time, u: Sessions.Time)
    ensures Sessions.Stored(t) < Sessions.Stored(u) <==> Millis(t) < Millis(u)
    ensures Sessions.Stored(t) == Sessions.Stored(u) <==> Millis(t) == Millis(u)
  {
  }

  /** The guards as SQL runs them, on text, decide as the reads do at full precision. */
  lemma TextGuardAgreesWithActive(r: Sessions.Row, now: Sessions.Time)
    requires r.OnTheMilli() && Printable(now) && Printable(r.idle) && Printable(r.absolute)
    ensures r.Active(now) <==>
      r.revokedAt.None? && Less(FormatTime(now), FormatTime(r.idle)) && Less(FormatTime(now), FormatTime(r.absolute))
  {
    hide FormatTime, Less, Printable;
    TextOrderIsTimeOrder(now, r.idle);
    TextOrderIsTimeOrder(now, r.absolute);
    Sessions.GuardAgreesWithActive(r, now);
  }

  // ----- reading the text back -----

  predicate IsDigit(b: byte) { 0x30 <= b <= 0x39 }

  function NumberOf(digits: seq<byte>): nat
    requires forall i :: 0 <= i < |digits| ==> IsDigit(digits[i])
  {
    if digits == [] then 0 else
    var last := digits[|digits| - 1];
    assert IsDigit(last);
    10 * NumberOf(digits[..|digits| - 1]) + last - 0x30
  }

  datatype Field = Field(value: nat, rest: seq<byte>)

  /** A number of fixed width and the separator after it. */
  function TakeField(s: seq<byte>, width: nat, separator: byte): Option<Field> {
    if |s| <= width || s[width] != separator || exists i :: 0 <= i < width && !IsDigit(s[i]) then None
    else Some(Field(NumberOf(s[..width]), s[width + 1..]))
  }

  /** The fields of a text in turn. */
  function TakeFields(s: seq<byte>, widths: seq<nat>, separators: seq<byte>): Option<seq<nat>>
    requires |widths| == |separators|
    decreases |widths|
  {
    if widths == [] then (if s == [] then Some([]) else None) else
    match TakeField(s, widths[0], separators[0])
    case None => None
    case Some(f) =>
      match TakeFields(f.rest, widths[1..], separators[1..]) case None => None case Some(rest) => Some([f.value] + rest)
  }

  lemma {:induction false} DecimalBack(v: nat, width: nat)
    requires v < Pow10(width)
    ensures var d := Decimal(v, width);
            |d| == width && (forall i :: 0 <= i < width ==> IsDigit(d[i])) && NumberOf(d) == v
    decreases width
  {
    if width > 0 {
      DecimalBack(v / 10, width - 1);
      var d := Decimal(v, width);
      assert d[..|d| - 1] == Decimal(v / 10, width - 1);
    }
  }

  lemma FieldBack(v: nat, width: nat, separator: byte, rest: seq<byte>)
    requires v < Pow10(width)
    ensures TakeField(Decimal(v, width) + ([separator] + rest), width, separator) == Some(Field(v, rest))
  {
    DecimalBack(v, width);
    var d := Decimal(v, width);
    var s := d + ([separator] + rest);
    assert s[..width] == d && s[width + 1..] == rest;
  }

  lemma {:induction false} FieldsBack(values: seq<nat>, widths: seq<nat>, separators: seq<byte>)
    requires |values| == |widths| == |separators|
    requires forall i :: 0 <= i < |values| ==> values[i] < Pow10(widths[i])
    ensures TakeFields(Fields(values, widths, separators), widths, separators) == Some(values)
    decreases |values|
  {
    hide Pow10, Decimal, TakeField;
    if values != [] {
      FieldBack(values[0], widths[0], separators[0], Fields(values[1..], widths[1..], separators[1..]));
      FieldsBack(values[1..], widths[1..], separators[1..]);
      assert [values[0]] + values[1..] == values;
    }
  }

  function ParseTime(s: seq<byte>): Option<Sessions.Time> {
    match TakeFields(s, Widths(), Separators())
    case None => None
    case Some(v) =>
      if |v| != 7 then None else
      var c := Civil(v[0], v[1], v[2], v[3], v[4], v[5], v[6]);
      if c.Valid() then Some((c.Count() - EPOCH * DAY) * Sessions.MILLI) else None
  }

  /** Reading the stored text back gives the instant to the millisecond. */
  lemma ParseFormat(t: Sessions.Time)
    requires Printable(t)
    ensures ParseTime(FormatTime(t)) == Some(Sessions.Stored(t))
  {
    hide CivilOf, Fields, TakeFields, Pow10;
    var c := CivilOf(Millis(t));
    FourDigits(Millis(t), 10000);
    FieldsFit(c);
    FieldsBack(Values(c), Widths(), Separators());
    assert Civil(Values(c)[0], Values(c)[1], Values(c)[2], Values(c)[3], Values(c)[4], Values(c)[5], Values(c)[6]) == c;
    assert Sessions.Stored(t) == t / Sessions.MILLI * Sessions.MILLI;
  }

  // ----- the calendar and the text, spelled out -----

  lemma MonthLengths(y: nat)
    ensures MonthDays(y, 1) == 31 && MonthDays(y, 3) == 31 && MonthDays(y, 5) == 31 && MonthDays(y, 7) == 31
    ensures MonthDays(y, 8) == 31 && MonthDays(y, 10) == 31 && MonthDays(y, 12) == 31
    ensures MonthDays(y, 4) == 30 && MonthDays(y, 6) == 30 && MonthDays(y, 9) == 30 && MonthDays(y, 11) == 30
    ensures MonthDays(y, 2) == if y % 400 == 0 || (y % 4 == 0 && y % 100 != 0) then 29 else 28
  {
    Centuries(y);
  }

  /** An instant is printed as the one valid calendar date and time of day that
      lies as many milliseconds after the start of year 0. */
  lemma {:induction false} FormatIs(t: Sessions.Time, c: Civil)
    requires Printable(t) && c.Valid() && c.Count() == Millis(t)
    ensures FormatTime(t) == Printed(c)
  {
    hide CivilOf, Printed;
    var d := CivilOf(Millis(t));
    assert d.Valid() && d.Count() == Millis(t) by { CivilCounts(Millis(t)); }
    if c.Before(d) { CountOrder(c, d); }
    if d.Before(c) { CountOrder(d, c); }
    assert c.Before(d) || d.Before(c) || c == d;
  }

  lemma CivilCounts(count: nat)
    ensures CivilOf(count).Valid() && CivilOf(count).Count() == count
  {
  }

  predicate IsText(s: seq<byte>, text: string) { |s| == |text| && forall i :: 0 <= i < |s| ==> s[i] == text[i] as int }

  lemma Digit2(v: nat, a: nat, b: nat)
    requires a < 10 && b < 10 && v == 10 * a + b
    ensures Decimal(v, 2) == [0x30 + a, 0x30 + b]
  {
    assert v / 10 == a && v % 10 == b && a / 10 == 0 && a % 10 == a;
    assert Decimal(0, 0) == [] && Decimal(a, 1) == Decimal(0, 0) + [0x30 + a];
  }

  lemma Digit3(v: nat, a: nat, b: nat, c: nat)
    requires a < 10 && b < 10 && c < 10 && v == 100 * a + 10 * b + c
    ensures Decimal(v, 3) == [0x30 + a, 0x30 + b, 0x30 + c]
  {
    assert v / 10 == 10 * a + b && v % 10 == c;
    Digit2(10 * a + b, a, b);
  }

  lemma Digit4(v: nat, a: nat, b: nat, c: nat, d: nat)
    requires a < 10 && b < 10 && c < 10 && d < 10 && v == 1000 * a + 100 * b + 10 * c + d
    ensures Decimal(v, 4) == [0x30 + a, 0x30 + b, 0x30 + c, 0x30 + d]
  {
    assert v / 10 == 100 * a + 10 * b + c && v % 10 == d;
    Digit3(100 * a + 10 * b + c, a, b, c);
  }

  lemma FieldsFrom(values: seq<nat>, i: nat)
    requires |values| == 7 && i < 7
    ensures Fields(values[i..], Widths()[i..], Separators()[i..]) ==
      Decimal(values[i], Widths()[i]) + ([Separators()[i]] + Fields(values[i + 1..], Widths()[i + 1..], Separators()[i + 1..]))
  {
    hide Decimal;
    assert values[i..][1..] == values[i + 1..] && Widths()[i..][1..] == Widths()[i + 1..] && Separators()[i..][1..] == Separators()[i + 1..];
  }

  /** The text of a date: year, month, day, hour, minute, second and millisecond
      with the separators of RFC 3339. */
  lemma PrintedIs(c: Civil)
    ensures Printed(c) ==
      Decimal(c.year, 4) + (['-' as int] + (Decimal(c.month, 2) + (['-' as int] + (Decimal(c.day, 2) + (['T' as int] +
      (Decimal(c.hour, 2) + ([':' as int] + (Decimal(c.minute, 2) + ([':' as int] + (Decimal(c.second, 2) + (['.' as int] +
      (Decimal(c.milli, 3) + (['Z' as int] + [])))))))))))))
  {
    hide Decimal, Fields;
    var v := Values(c);
    assert v[0..] == v && Widths()[0..] == Widths() && Separators()[0..] == Separators();
    FieldsFrom(v, 0);
    FieldsFrom(v, 1);
    FieldsFrom(v, 2);
    FieldsFrom(v, 3);
    FieldsFrom(v, 4);
    FieldsFrom(v, 5);
    FieldsFrom(v, 6);
    NoFields(v[7..], Widths()[7..], Separators()[7..]);
  }

  lemma NoFields(values: seq<nat>, widths: seq<nat>, separators: seq<byte>)
    requires |values| == |widths| == |separators| == 0
    ensures Fields(values, widths, separators) == []
  {
  }

  /** The epoch is printed as the start of 1970. */
  lemma EpochText(c: Civil)
    requires c == Civil(1970, 1, 1, 0, 0, 0, 0)
    ensures Printable(0) && IsText(FormatTime(0), "1970-01-01T00:00:00.000Z")
  {
    hide Decimal, DaysBefore, Printed;
    assert MonthStart(c.year, c.month) == 0;
    YearStarts(c.year);
    assert c.Count() == Millis(0);
    FormatIs(0, c);
    EpochPrinted(c);
  }

  lemma EpochPrinted(c: Civil)
    requires c == Civil(1970, 1, 1, 0, 0, 0, 0)
    ensures IsText(Printed(c), "1970-01-01T00:00:00.000Z")
  {
    hide Decimal, Printed;
    PrintedIs(c);
    Digit4(1970, 1, 9, 7, 0);
    Digit2(1, 0, 1);
    Digit2(0, 0, 0);
    Digit3(0, 0, 0, 0);
    var clock: seq<byte> := [0x30, 0x30] + ([0x3a] + ([0x30, 0x30] + ([0x3a] + ([0x30, 0x30] + ([0x2e] + ([0x30, 0x30, 0x30] + ([0x5a] + [])))))));
    assert clock == [0x30, 0x30, 0x3a, 0x30, 0x30, 0x3a, 0x30, 0x30, 0x2e, 0x30, 0x30, 0x30, 0x5a];
    assert Printed(c) == [0x31, 0x39, 0x37, 0x30] + ([0x2d] + ([0x30, 0x31] + ([0x2d] + ([0x30, 0x31] + ([0x54] + clock)))));
  }

  // ----- nothing else is read -----

  lemma {:induction false} NumberBack(digits: seq<byte>)
    requires forall i :: 0 <= i < |digits| ==> IsDigit(digits[i])
    ensures NumberOf(digits) < Pow10(|digits|) && Decimal(NumberOf(digits), |digits|) == digits
    decreases |digits|
  {
    if digits != [] {
      var n := |digits| - 1;
      assert IsDigit(digits[n]);
      NumberBack(digits[..n]);
      assert digits == digits[..n] + [digits[n]];
      var v, d := NumberOf(digits[..n]), digits[n] - 0x30;
      assert (10 * v + d) / 10 == v && (10 * v + d) % 10 == d;
    }
  }

  lemma {:induction false} TakenIsFields(s: seq<byte>, widths: seq<nat>, separators: seq<byte>)
    requires |widths| == |separators| && TakeFields(s, widths, separators).Some?
    ensures var v := TakeFields(s, widths, separators).value;
            |v| == |widths| && (forall i :: 0 <= i < |v| ==> v[i] < Pow10(widths[i])) && Fields(v, widths, separators) == s
    decreases |widths|
  {
    hide Pow10, Decimal, NumberOf;
    if widths != [] {
      var w := widths[0];
      var f := TakeField(s, w, separators[0]).value;
      NumberBack(s[..w]);
      TakenIsFields(f.rest, widths[1..], separators[1..]);
      var v := TakeFields(s, widths, separators).value;
      assert v[1..] == TakeFields(f.rest, widths[1..], separators[1..]).value;
      assert s == s[..w] + ([s[w]] + s[w + 1..]);
    }
  }

  lemma YearIsPrintable(c: Civil)
    requires c.Valid() && c.year < 10000
    ensures c.Count() < END * DAY
  {
    hide DaysBefore;
    DayFits(c);
    YearsGrow(c.year + 1, 10000);
    YearStarts(10000);
    YearLength(c.year);
  }

  lemma YearLength(y: nat)
    ensures DaysBefore(y + 1) == DaysBefore(y) + 365 + Leap(y)
  {
  }

  /** Main result: the parser reads exactly the texts of instants on the
      millisecond in the years 0000 to 9999, and gives the instant. */
  lemma ParseExactly(s: seq<byte>, t: Sessions.Time)
    ensures ParseTime(s) == Some(t) <==> Sessions.Aligned(t) && Printable(t) && FormatTime(t) == s
  {
    if Sessions.Aligned(t) && Printable(t) && FormatTime(t) == s {
      ParseFormat(t);
      Sessions.StoredFixes(t);
    }
    if ParseTime(s) == Some(t) { ParsedIsFormat(s, t); }
  }

  lemma ParsedIsFormat(s: seq<byte>, t: Sessions.Time)
    requires ParseTime(s) == Some(t)
    ensures Sessions.Aligned(t) && Printable(t) && FormatTime(t) == s
  {
    hide Fields, TakeFields, FormatTime, DaysBefore;
    TakenIsFields(s, Widths(), Separators());
    var v := TakeFields(s, Widths(), Separators()).value;
    var c := Civil(v[0], v[1], v[2], v[3], v[4], v[5], v[6]);
    assert Values(c) == v;
    assert c.year < 10000 by { assert v[0] < Pow10(Widths()[0]); assert Pow10(4) == 10000; }
    YearIsPrintable(c);
    var m := c.Count() - EPOCH * DAY;
    assert t == m * Sessions.MILLI && t / Sessions.MILLI == m;
    FormatIs(t, c);
  }
}
