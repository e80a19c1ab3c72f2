/** Dates as the dashboard reads them: the feed's ISO-like date strings
    (`YYYY-MM-DD`, `YYYY/MM/DD` or `YYYY-MM`), `getQuarter`
    (src/App.tsx:40-46), the year, month and quarter texts the filters compare
    (src/App.tsx:318-323), and the month key and sort key of the monthly
    series (src/App.tsx:148-156). */
module Dates {
  import opened Optional
  import opened Text

  /** A calendar date as `new Date(...)` reads it. */
  datatype Date = Date(year: nat, month: nat, day: nat)

  predicate Valid(x: Date) {
    1 <= x.month <= 12 && 1 <= x.day <= 31
  }

  predicate IsNumeral(s: string) {
    forall k :: 0 <= k < |s| ==> IsDigit(s[k])
  }

  /** `new Date(d)` for a date string: four year digits, a `-` or `/`, two
      month digits, then optionally the same separator and two day digits;
      anything after the day (a time of day) is ignored. `None` stands for an
      Invalid Date. */
  function ParseDate(d: string): (r: Option<Date>)
    ensures r.Some? ==> Valid(r.value)
    ensures r.Some? ==> |d| >= 7 && IsNumeral(d[..4]) && IsNumeral(d[5..7])
    ensures r.Some? ==> r.value.year == DigitsValue(d[..4]) && r.value.month == DigitsValue(d[5..7])
  {
    if |d| < 7 || !IsNumeral(d[..4]) || !(d[4] == '-' || d[4] == '/') || !IsNumeral(d[5..7]) then None
    else
      var month := DigitsValue(d[5..7]);
      if !(1 <= month <= 12) then None
      else if |d| == 7 then Some(Date(DigitsValue(d[..4]), month, 1))
      else if |d| >= 10 && d[7] == d[4] && IsNumeral(d[8..10]) && 1 <= DigitsValue(d[8..10]) <= 31 then
        Some(Date(DigitsValue(d[..4]), month, DigitsValue(d[8..10])))
      else None
  }

  /** `Math.ceil(month / 3)`. */
  function QuarterOf(month: nat): (q: nat)
    requires 1 <= month <= 12
    ensures 1 <= q <= 4
    ensures 3 * q - 2 <= month <= 3 * q
  {
    (month + 2) / 3
  }

  /** `getQuarter`: `None` (the source's `''`) for an empty or unparseable
      date, otherwise the quarter the date's month falls in. */
  function GetQuarter(d: string): (q: Option<nat>)
    ensures q.Some? <==> ParseDate(d).Some?
    ensures q.Some? ==> 1 <= q.value <= 4 && 3 * q.value - 2 <= ParseDate(d).value.month <= 3 * q.value
  {
    if d == "" then None
    else match ParseDate(d)
      case None => None
      case Some(x) => Some(QuarterOf(x.month))
  }

  /** `d.slice(0, 4)`. */
  function YearText(d: string): (r: string)
    ensures r == d[..if |d| < 4 then |d| else 4]
  {
    if |d| < 4 then d else d[..4]
  }

  /** `String(getQuarter(d))`: the quarter's numeral, or `''`. */
  function QuarterText(d: string): string {
    match GetQuarter(d)
    case None => ""
    case Some(q) => Decimal(q)
  }

  /** `String(new Date(d).getMonth() + 1)`: the month's numeral, or `"NaN"`. */
  function MonthText(d: string): string {
    match ParseDate(d)
    case None => "NaN"
    case Some(x) => Decimal(x.month)
  }

  /** The monthly series' bucket key `${year}年${month}月`. */
  function MonthKey(x: Date): string {
    Decimal(x.year) + "年" + Decimal(x.month) + "月"
  }

  /** The bucket's `sortKey`: a number that orders dates as `getTime()`
      orders them (days after the year and month, for date-only strings). */
  function Stamp(x: Date): int {
    (x.year * 100 + x.month) * 100 + x.day
  }

  /** A date in an earlier month has a smaller stamp whatever the days are,
      so sorting buckets by the stamp of any of their dates sorts the months. */
  lemma StampOrdersMonths(a: Date, b: Date)
    requires Valid(a) && Valid(b)
    requires a.year < b.year || (a.year == b.year && a.month < b.month)
    ensures Stamp(a) < Stamp(b)
  {
    if a.year < b.year {
      assert a.year * 100 + a.month < b.year * 100 + b.month;
    }
    assert a.year * 100 + a.month + 1 <= b.year * 100 + b.month;
    calc {
      Stamp(a);
    <
      (a.year * 100 + a.month) * 100 + 100;
    ==
      (a.year * 100 + a.month + 1) * 100;
    <=
      (b.year * 100 + b.month) * 100;
    <
      Stamp(b);
    }
  }

  /** Two dates share a month key exactly when they share year and month. */
  lemma MonthKeyInjective(a: Date, b: Date)
    ensures MonthKey(a) == MonthKey(b) <==> a.year == b.year && a.month == b.month
  {
    if MonthKey(a) == MonthKey(b) {
      var ya, yb := Decimal(a.year), Decimal(b.year);
      var ma, mb := Decimal(a.month), Decimal(b.month);
      assert MonthKey(a) == ya + ("年" + ma + "月");
      assert MonthKey(b) == yb + ("年" + mb + "月");
      DigitsPrefix(ya, "年" + ma + "月", yb, "年" + mb + "月");
      assert "年" + ma + "月" == "年" + mb + "月";
      assert ma == ("年" + ma + "月")[1..|ma| + 1];
      assert mb == ("年" + mb + "月")[1..|mb| + 1];
      assert |ma| == |mb|;
    }
  }

  /** A digit run followed by a non-digit is determined by the string. */
  lemma DigitsPrefix(p1: string, q1: string, p2: string, q2: string)
    requires forall k :: 0 <= k < |p1| ==> IsDigit(p1[k])
    requires forall k :: 0 <= k < |p2| ==> IsDigit(p2[k])
    requires q1 != [] && !IsDigit(q1[0]) && q2 != [] && !IsDigit(q2[0])
    requires p1 + q1 == p2 + q2
    ensures p1 == p2 && q1 == q2
  {
    FirstNonDigit(p1, q1);
    FirstNonDigit(p2, q2);
    assert |p1| == |p2|;
    assert p1 == (p1 + q1)[..|p1|];
    assert p2 == (p2 + q2)[..|p2|];
    assert q1 == (p1 + q1)[|p1|..];
    assert q2 == (p2 + q2)[|p2|..];
  }

  lemma FirstNonDigit(p: string, q: string)
    requires forall k :: 0 <= k < |p| ==> IsDigit(p[k])
    requires q != [] && !IsDigit(q[0])
    ensures forall k :: 0 <= k < |p| ==> IsDigit((p + q)[k])
    ensures !IsDigit((p + q)[|p|])
  {
  }

  /** A stamp divided by 100 is the date's year and month, `year * 100 + month`. */
  lemma StampMonth(x: Date)
    requires Valid(x)
    ensures Stamp(x) / 100 == x.year * 100 + x.month
  {
  }

  /** Of two stamps of different months, the smaller belongs to the earlier
      month. */
  lemma StampsOrderMonths(a: Date, b: Date)
    requires Valid(a) && Valid(b)
    requires MonthKey(a) != MonthKey(b) && Stamp(a) <= Stamp(b)
    ensures Stamp(a) / 100 < Stamp(b) / 100
  {
    MonthKeyInjective(a, b);
    StampMonth(a);
    StampMonth(b);
    if b.year < a.year || (b.year == a.year && b.month < a.month) {
      StampOrdersMonths(b, a);
      assert false;
    }
    assert a.year < b.year || (a.year == b.year && a.month < b.month);
    if a.year < b.year {
      assert a.year * 100 + a.month < b.year * 100 + b.month;
    }
  }
}
