/** The calendar model: leap years, days per month token, and the day count
    of each season from its list of month tokens. Two lookups exist in the
    engine and they disagree on tokens that are not month names: the season
    day count reads a record and counts such a token as 0 days, while the
    per-month occupancy reads an array by index and counts it as 30 days. */
module Calendar {
  import opened Seqs

  const MonthNames: seq<string> := ["Jan", "Feb", "Mar", "Apr", "May", "Jun", "Jul", "Aug", "Sep", "Oct", "Nov", "Dec"]

  /** isLeap: the Gregorian rule. */
  predicate IsLeap(y: int) {
    (y % 4 == 0 && y % 100 != 0) || y % 400 == 0
  }

  /** The days of the month at index i (0 = January) in year y. */
  function DaysAt(y: int, i: int): (d: int)
    requires 0 <= i < 12
    ensures 28 <= d <= 31
    ensures i == 1 ==> d == if IsLeap(y) then 29 else 28
    ensures i != 1 ==> d == [31, 28, 31, 30, 31, 30, 31, 31, 30, 31, 30, 31][i]
  {
    [31, if IsLeap(y) then 29 else 28, 31, 30, 31, 30, 31, 31, 30, 31, 30, 31][i]
  }

  /** `MonthNames.indexOf(token)`: -1 for a token that is not a month name. */
  function MonthIndex(token: string): (i: int)
    ensures -1 <= i < 12
    ensures i >= 0 ==> MonthNames[i] == token
    ensures i == -1 ==> token !in MonthNames
  {
    if token == "Jan" then 0 else if token == "Feb" then 1 else if token == "Mar" then 2
    else if token == "Apr" then 3 else if token == "May" then 4 else if token == "Jun" then 5
    else if token == "Jul" then 6 else if token == "Aug" then 7 else if token == "Sep" then 8
    else if token == "Oct" then 9 else if token == "Nov" then 10 else if token == "Dec" then 11
    else -1
  }

  /** daysOfMonth: the array lookup with `?? 30` for an unknown token. */
  function DaysOfMonth(y: int, token: string): (d: int)
    ensures token !in MonthNames ==> d == 30
    ensures token in MonthNames ==> 28 <= d <= 31
  {
    var i := MonthIndex(token);
    if i >= 0 then DaysAt(y, i) else 30
  }

  /** `daysPerMonth[m] || 0`: the record lookup of the season day count, 0 for an unknown token. */
  function TableDays(y: int, token: string): (d: int)
    ensures token !in MonthNames ==> d == 0
    ensures token in MonthNames ==> d == DaysOfMonth(y, token)
  {
    var i := MonthIndex(token);
    if i >= 0 then DaysAt(y, i) else 0
  }

  /** The reduce of one season: the sum of its month tokens' table days. */
  function SeasonDayCount(months: seq<string>, y: int): int {
    if months == [] then 0 else SeasonDayCount(months[..|months| - 1], y) + TableDays(y, months[|months| - 1])
  }

  /** `monthsMap[t] || []` */
  function MonthsOf(monthsMap: map<string, seq<string>>, season: string): seq<string> {
    GetOr(monthsMap, season, [])
  }

  /** The seasonDays memo: one entry per configured season, its day count for the year. */
  method SeasonDays(types: seq<string>, monthsMap: map<string, seq<string>>, year: int) returns (result: map<string, int>)
    ensures forall s :: s in result <==> s in types
    ensures forall s :: s in result ==> result[s] == SeasonDayCount(MonthsOf(monthsMap, s), year)
  {
    result := map[];
    var i := 0;
    while i < |types|
      invariant 0 <= i <= |types|
      invariant forall s :: s in result <==> s in types[..i]
      invariant forall s :: s in result ==> result[s] == SeasonDayCount(MonthsOf(monthsMap, s), year)
    {
      var t := types[i];
      var total := SeasonTotal(MonthsOf(monthsMap, t), year);
      result := result[t := total];
      assert types[..i + 1] == types[..i] + [t];
      i := i + 1;
    }
    assert types[..|types|] == types;
  }

  /** The reduce over one season's month tokens. */
  method SeasonTotal(months: seq<string>, year: int) returns (total: int)
    ensures total == SeasonDayCount(months, year)
  {
    total := 0;
    var j := 0;
    while j < |months|
      invariant 0 <= j <= |months|
      invariant total == SeasonDayCount(months[..j], year)
    {
      assert months[..j + 1][..j] == months[..j];
      total := total + TableDays(year, months[j]);
      j := j + 1;
    }
    assert months[..|months|] == months;
  }

  /** A season's day count is additive over its month list. */
  lemma {:induction false} SeasonDayCountAppend(a: seq<string>, b: seq<string>, y: int)
    ensures SeasonDayCount(a + b, y) == SeasonDayCount(a, y) + SeasonDayCount(b, y)
  {
    if b == [] {
      assert a + b == a;
    } else {
      var b' := b[..|b| - 1];
      SeasonDayCountAppend(a, b', y);
      assert (a + b)[..|a + b| - 1] == a + b';
      assert (a + b)[|a + b| - 1] == b[|b| - 1];
      assert SeasonDayCount(b, y) == SeasonDayCount(b', y) + TableDays(y, b[|b| - 1]);
    }
  }

  /** Each month token adds between 0 and 31 days. */
  lemma {:induction false} SeasonDayCountBounds(months: seq<string>, y: int)
    ensures 0 <= SeasonDayCount(months, y) <= 31 * |months|
  {
    if months != [] {
      SeasonDayCountBounds(months[..|months| - 1], y);
    }
  }

  /** A season mapped to February alone has 29 days in a leap year and 28 otherwise. */
  lemma FebruarySeason(y: int)
    ensures SeasonDayCount(["Feb"], y) == if IsLeap(y) then 29 else 28
  {
    assert ["Feb"][..0] == [];
  }

  /** January to June: 181 days, 182 in a leap year. */
  lemma FirstHalfLength(y: int)
    ensures SeasonDayCount(MonthNames[..6], y) == if IsLeap(y) then 182 else 181
  {
    FirstHalfByFebruary(y);
  }

  /** January to March: 62 days plus February's. */
  lemma FirstQuarterLength(y: int)
    ensures SeasonDayCount(["Jan", "Feb", "Mar"], y) == 62 + DaysAt(y, 1)
  {
    assert ["Jan"][..0] == [];
    assert SeasonDayCount(["Jan"], y) == 31;
    assert ["Jan", "Feb"][..1] == ["Jan"];
    assert TableDays(y, "Feb") == DaysAt(y, 1);
    assert SeasonDayCount(["Jan", "Feb"], y) == 31 + DaysAt(y, 1);
    assert ["Jan", "Feb", "Mar"][..2] == ["Jan", "Feb"];
  }

  /** April to June: 91 days. */
  lemma SecondQuarterLength(y: int)
    ensures SeasonDayCount(["Apr", "May", "Jun"], y) == 91
  {
    assert ["Apr"][..0] == [];
    assert SeasonDayCount(["Apr"], y) == 30;
    assert ["Apr", "May"][..1] == ["Apr"];
    assert SeasonDayCount(["Apr", "May"], y) == 61;
    assert ["Apr", "May", "Jun"][..2] == ["Apr", "May"];
  }

  /** January to June: 153 days plus February's. */
  lemma FirstHalfByFebruary(y: int)
    ensures SeasonDayCount(MonthNames[..6], y) == 153 + DaysAt(y, 1)
  {
    var q1, q2 := ["Jan", "Feb", "Mar"], ["Apr", "May", "Jun"];
    assert MonthNames[..6] == q1 + q2;
    FirstQuarterLength(y);
    SecondQuarterLength(y);
    SeasonDayCountAppend(q1, q2, y);
  }

  /** July to September: 92 days. */
  lemma ThirdQuarterLength(y: int)
    ensures SeasonDayCount(["Jul", "Aug", "Sep"], y) == 92
  {
    assert ["Jul"][..0] == [];
    assert SeasonDayCount(["Jul"], y) == 31;
    assert ["Jul", "Aug"][..1] == ["Jul"];
    assert SeasonDayCount(["Jul", "Aug"], y) == 62;
    assert ["Jul", "Aug", "Sep"][..2] == ["Jul", "Aug"];
  }

  /** October to December: 92 days. */
  lemma FourthQuarterLength(y: int)
    ensures SeasonDayCount(["Oct", "Nov", "Dec"], y) == 92
  {
    assert ["Oct"][..0] == [];
    assert SeasonDayCount(["Oct"], y) == 31;
    assert ["Oct", "Nov"][..1] == ["Oct"];
    assert SeasonDayCount(["Oct", "Nov"], y) == 61;
    assert ["Oct", "Nov", "Dec"][..2] == ["Oct", "Nov"];
  }

  /** July to December: 184 days. */
  lemma SecondHalfLength(y: int)
    ensures SeasonDayCount(MonthNames[6..], y) == 184
  {
    var q3, q4 := ["Jul", "Aug", "Sep"], ["Oct", "Nov", "Dec"];
    assert MonthNames[6..] == q3 + q4;
    ThirdQuarterLength(y);
    FourthQuarterLength(y);
    SeasonDayCountAppend(q3, q4, y);
  }

  /** A whole year's month list gives 366 days in a leap year and 365 otherwise. */
  lemma YearLength(y: int)
    ensures SeasonDayCount(MonthNames, y) == if IsLeap(y) then 366 else 365
  {
    FirstHalfLength(y);
    SecondHalfLength(y);
    SeasonDayCountAppend(MonthNames[..6], MonthNames[6..], y);
    assert MonthNames[..6] + MonthNames[6..] == MonthNames;
  }

  /** The two lookups disagree on a token that is not a month name: the season day count sees 0
      days, the per-month occupancy sees 30. */
  lemma UnknownTokenCountedTwoWays(y: int, token: string)
    requires token !in MonthNames
    ensures SeasonDayCount([token], y) == 0
    ensures DaysOfMonth(y, token) == 30
  {
    assert [token][..0] == [];
  }
}
