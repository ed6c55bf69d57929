/** Booked nights per season under the three occupancy modes, and the split of
    each season's nights into weekday, weekend and holiday nights. */
module Occupancy {
  import opened Rounding
  import opened Seqs
  import opened Calendar
  import opened Domain

  /** `occupancy.mode`: any mode other than perYear and perSeason is handled as perMonth. */
  datatype OccupancyMode = PerYear | PerSeason | PerMonth

  datatype Occupancy = Occupancy(
    mode: OccupancyMode,
    perYearPct: real,
    perSeasonPct: map<string, real>,
    perMonthPct: map<string, real>)

  /** The occupancy percentage of a season or month that has none configured. */
  const DefaultPct: real := 60.0

  /** perYear: the booked nights of the whole (365-day) year. */
  function YearNights(pct: real): (r: int)
    ensures 365.0 * pct / 100.0 - 0.5 < r as real <= 365.0 * pct / 100.0 + 0.5
    ensures 0.0 <= pct <= 100.0 ==> 0 <= r <= 365
  {
    var x := 365.0 * pct / 100.0;
    assert 0.0 <= pct <= 100.0 ==> 0.0 <= x <= 365.0;
    Round(x)
  }

  /** perYear: a season's share of the year's nights, weighted by its share of the season days. */
  function YearShare(yearNights: int, days: int, totalDays: int): (r: int)
    ensures r >= 1
    ensures yearNights as real * (days as real / Max(totalDays, 1) as real) - 0.5 < r as real
    ensures yearNights as real * (days as real / Max(totalDays, 1) as real) >= 0.5
        ==> r as real <= yearNights as real * (days as real / Max(totalDays, 1) as real) + 0.5
    ensures yearNights as real * (days as real / Max(totalDays, 1) as real) < 0.5 ==> r == 1
    ensures days == totalDays && totalDays >= 1 ==> r == Max(1, yearNights)
  {
    var weight := days as real / Max(totalDays, 1) as real;
    assert days == totalDays && totalDays >= 1 ==> weight == 1.0 by {
      if days == totalDays && totalDays >= 1 {
        DivSelf(days);
      }
    }
    Max(1, Round(yearNights as real * weight))
  }

  /** perSeason: the season's days times its occupancy percentage. */
  function SeasonPctNights(days: int, pct: real): (r: int)
    ensures r >= 1
    ensures days as real * pct / 100.0 - 0.5 < r as real
    ensures days as real * pct / 100.0 >= 0.5 ==> r as real <= days as real * pct / 100.0 + 0.5
    ensures days as real * pct / 100.0 < 0.5 ==> r == 1
    ensures days >= 0 && 0.0 <= pct <= 100.0 ==> r <= Max(1, days)
  {
    var x := days as real * pct / 100.0;
    assert days >= 0 && 0.0 <= pct <= 100.0 ==> x <= days as real by {
      if days >= 0 && 0.0 <= pct <= 100.0 {
        MulMonoReal(days as real, pct, 100.0);
      }
    }
    Max(1, Round(x))
  }

  lemma DivSelf(n: int)
    requires n >= 1
    ensures n as real / n as real == 1.0
  {
  }

  lemma MulMonoReal(a: real, b: real, c: real)
    requires a >= 0.0 && b <= c
    ensures a * b <= a * c
  {
  }

  /** perMonth: one month's booked nights, with the default percentage for an unconfigured month. */
  function MonthNights(year: int, month: string, perMonthPct: map<string, real>): (r: int)
    ensures month in perMonthPct ==>
      DaysOfMonth(year, month) as real * perMonthPct[month] / 100.0 - 0.5 < r as real
        <= DaysOfMonth(year, month) as real * perMonthPct[month] / 100.0 + 0.5
    ensures month !in perMonthPct ==>
      DaysOfMonth(year, month) as real * 0.6 - 0.5 < r as real <= DaysOfMonth(year, month) as real * 0.6 + 0.5
  {
    Round(DaysOfMonth(year, month) as real * GetOr(perMonthPct, month, DefaultPct) / 100.0)
  }

  /** perMonth: the reduce over a season's months. */
  function MonthsNights(year: int, months: seq<string>, perMonthPct: map<string, real>): int {
    if months == [] then 0
    else MonthsNights(year, months[..|months| - 1], perMonthPct) + MonthNights(year, months[|months| - 1], perMonthPct)
  }

  /** The booked nights of season s; totalDays is the sum of all season day counts. */
  function SeasonNights(occ: Occupancy, seasonDays: map<string, int>, totalDays: int,
                        monthsMap: map<string, seq<string>>, year: int, s: string): (r: int)
    ensures r >= 1
  {
    match occ.mode
    case PerYear => YearShare(YearNights(occ.perYearPct), IntOr(seasonDays, s, 0), totalDays)
    case PerSeason => SeasonPctNights(IntOr(seasonDays, s, 0), GetOr(occ.perSeasonPct, s, DefaultPct))
    case PerMonth => Max(1, MonthsNights(year, MonthsOf(monthsMap, s), occ.perMonthPct))
  }

  /** The booked nights of one season, as the body of the memo's loop computes them. */
  method NightsOfSeason(occ: Occupancy, seasonDays: map<string, int>, totalDays: int,
                        monthsMap: map<string, seq<string>>, year: int, s: string) returns (n: int)
    ensures n == SeasonNights(occ, seasonDays, totalDays, monthsMap, year, s)
  {
    match occ.mode {
      case PerYear =>
        n := YearShare(YearNights(occ.perYearPct), IntOr(seasonDays, s, 0), totalDays);
      case PerSeason =>
        n := SeasonPctNights(IntOr(seasonDays, s, 0), GetOr(occ.perSeasonPct, s, DefaultPct));
      case PerMonth =>
        var nights := SumMonthNights(year, MonthsOf(monthsMap, s), occ.perMonthPct);
        n := Max(1, nights);
    }
  }

  /** The perMonth reduce: the month nights summed in list order. */
  method SumMonthNights(year: int, months: seq<string>, perMonthPct: map<string, real>) returns (nights: int)
    ensures nights == MonthsNights(year, months, perMonthPct)
  {
    nights := 0;
    var j := 0;
    while j < |months|
      invariant 0 <= j <= |months|
      invariant nights == MonthsNights(year, months[..j], perMonthPct)
    {
      assert months[..j + 1][..j] == months[..j];
      nights := nights + MonthNights(year, months[j], perMonthPct);
      j := j + 1;
    }
    assert months[..|months|] == months;
  }

  /** The bookedNightsBySeason memo: the season-day total is the sum of all values of the
      seasonDays record. */
  method BookedNightsBySeason(occ: Occupancy, types: seq<string>, seasonDays: map<string, int>,
                              monthsMap: map<string, seq<string>>, year: int)
    returns (total: map<string, int>)
    ensures forall s :: s in total <==> s in types
    ensures forall s :: s in total ==>
      total[s] == SeasonNights(occ, seasonDays, SumValues(seasonDays), monthsMap, year, s)
    ensures forall s :: s in total ==> total[s] >= 1
  {
    var totalDays := SumRecord(seasonDays);
    total := map[];
    var i := 0;
    while i < |types|
      invariant 0 <= i <= |types|
      invariant forall s :: s in total <==> s in types[..i]
      invariant forall s :: s in total ==> total[s] == SeasonNights(occ, seasonDays, totalDays, monthsMap, year, s)
    {
      var s := types[i];
      var n := NightsOfSeason(occ, seasonDays, totalDays, monthsMap, year, s);
      total := total[s := n];
      assert types[..i + 1] == types[..i] + [s];
      i := i + 1;
    }
    assert types[..|types|] == types;
  }

  /** A perSeason season without a configured percentage books 60% of its days (at least one night). */
  lemma PerSeasonDefault(occ: Occupancy, seasonDays: map<string, int>, totalDays: int,
                         monthsMap: map<string, seq<string>>, year: int, s: string)
    requires occ.mode == PerSeason && s !in occ.perSeasonPct && s in seasonDays
    ensures SeasonNights(occ, seasonDays, totalDays, monthsMap, year, s)
         == Max(1, Round(seasonDays[s] as real * 60.0 / 100.0))
  {
  }

  /** A perMonth month without a configured percentage books 60% of its days. */
  lemma PerMonthDefault(year: int, month: string, perMonthPct: map<string, real>)
    requires month !in perMonthPct
    ensures MonthNights(year, month, perMonthPct) == Round(DaysOfMonth(year, month) as real * 0.6)
  {
    assert DaysOfMonth(year, month) as real * 60.0 / 100.0 == DaysOfMonth(year, month) as real * 0.6;
  }

  /** perMonth nights are additive over a season's month list. */
  lemma {:induction false} MonthsNightsAppend(year: int, a: seq<string>, b: seq<string>, pcts: map<string, real>)
    ensures MonthsNights(year, a + b, pcts) == MonthsNights(year, a, pcts) + MonthsNights(year, b, pcts)
  {
    if b == [] {
      assert a + b == a;
    } else {
      var b' := b[..|b| - 1];
      MonthsNightsAppend(year, a, b', pcts);
      assert (a + b)[..|a + b| - 1] == a + b';
      assert (a + b)[|a + b| - 1] == b[|b| - 1];
    }
  }

  /** Each perMonth month books between 0 and all of its days when its percentage is in [0, 100]. */
  lemma {:induction false} MonthsNightsBounds(year: int, months: seq<string>, pcts: map<string, real>)
    requires forall m :: m in pcts ==> 0.0 <= pcts[m] <= 100.0
    ensures 0 <= MonthsNights(year, months, pcts) <= 31 * |months|
  {
    if months != [] {
      MonthsNightsBounds(year, months[..|months| - 1], pcts);
      MonthNightsBounds(year, months[|months| - 1], pcts);
    }
  }

  /** One month books between 0 and 31 nights when its percentage is in [0, 100]. */
  lemma MonthNightsBounds(year: int, m: string, pcts: map<string, real>)
    requires forall m :: m in pcts ==> 0.0 <= pcts[m] <= 100.0
    ensures 0 <= MonthNights(year, m, pcts) <= 31
  {
    var d := DaysOfMonth(year, m) as real;
    var p := GetOr(pcts, m, DefaultPct);
    assert 0.0 <= d <= 31.0 && 0.0 <= p <= 100.0;
    ProductBound(d, p);
  }

  lemma ProductBound(d: real, p: real)
    requires 0.0 <= d <= 31.0 && 0.0 <= p <= 100.0
    ensures 0 <= Round(d * p / 100.0) <= 31
  {
    MulMonoReal(d, p, 100.0);
    MulMonoReal(100.0, d, 31.0);
    assert 0.0 <= d * p;
    assert d * p / 100.0 <= d;
  }

  /** `{weekday, weekend, holiday}` fractions, applied as given. */
  datatype BookingSplit = BookingSplit(weekday: real, weekend: real, holiday: real)

  /** A season's nights by day type: the holiday bucket takes the remainder, clamped at zero. */
  function SplitNights(total: int, split: BookingSplit): (r: DayCounts)
    ensures r.weekday >= 0 && r.weekend >= 0 && r.holiday >= 0
    ensures total as real * split.weekday >= 0.5
        ==> total as real * split.weekday - 0.5 < r.weekday as real <= total as real * split.weekday + 0.5
    ensures total as real * split.weekday < 0.5 ==> r.weekday == 0
    ensures total as real * split.weekend >= 0.5
        ==> total as real * split.weekend - 0.5 < r.weekend as real <= total as real * split.weekend + 0.5
    ensures total as real * split.weekend < 0.5 ==> r.weekend == 0
    ensures r.weekday + r.weekend <= total ==> r.weekday + r.weekend + r.holiday == total
    ensures r.weekday + r.weekend > total ==> r.holiday == 0
    ensures r.Total() >= total
  {
    var wkd := Max(0, Round(total as real * split.weekday));
    var wke := Max(0, Round(total as real * split.weekend));
    DayCounts(wkd, wke, Max(0, total - wkd - wke))
  }

  /** The three buckets add up to the season total exactly when the weekday and weekend buckets
      fit in it; otherwise the holiday bucket is 0 and the buckets exceed the total. */
  lemma SplitConservesIff(total: int, split: BookingSplit)
    ensures SplitNights(total, split).Total() == total
        <==> SplitNights(total, split).weekday + SplitNights(total, split).weekend <= total
    ensures SplitNights(total, split).weekday + SplitNights(total, split).weekend > total
        ==> SplitNights(total, split).holiday == 0
  {
  }

  /** One night split one half weekday, one half weekend: both round up and two nights come out. */
  lemma SplitOverCounts()
    ensures SplitNights(1, BookingSplit(0.5, 0.5, 0.0)) == DayCounts(1, 1, 0)
    ensures SplitNights(1, BookingSplit(0.5, 0.5, 0.0)).Total() == 2
  {
    assert Round(0.5) == 1;
  }

  /** Non-negative fractions whose sum leaves at least one night of slack conserve the total. */
  lemma SplitConservesWithSlack(total: int, split: BookingSplit)
    requires total >= 0 && split.weekday >= 0.0 && split.weekend >= 0.0
    requires (split.weekday + split.weekend) * total as real + 1.0 <= total as real
    ensures SplitNights(total, split).Total() == total
  {
    var t := total as real;
    var a := t * split.weekday;
    var b := t * split.weekend;
    assert a + b == (split.weekday + split.weekend) * t;
    assert Round(a) as real <= a + 0.5;
    assert Round(b) as real <= b + 0.5;
    MulMonoReal(t, 0.0, split.weekday);
    MulMonoReal(t, 0.0, split.weekend);
    assert a >= 0.0 && b >= 0.0;
  }

  /** The default split 0.7 / 0.25 / 0.05 conserves every season total of at least 20 nights. */
  lemma DefaultSplitConservesLarge(total: int)
    requires total >= 20
    ensures SplitNights(total, BookingSplit(0.7, 0.25, 0.05)).Total() == total
  {
    SplitConservesWithSlack(total, BookingSplit(0.7, 0.25, 0.05));
  }

  /** nightsBySeasonDay: each configured season's booked nights (1 when missing or 0), split by day type. */
  method NightsBySeasonDay(types: seq<string>, booked: map<string, int>, split: BookingSplit)
    returns (res: map<string, DayCounts>)
    ensures forall s :: s in res <==> s in types
    ensures forall s :: s in res ==> res[s] == SplitNights(IntOr(booked, s, 1), split)
  {
    res := map[];
    var i := 0;
    while i < |types|
      invariant 0 <= i <= |types|
      invariant forall s :: s in res <==> s in types[..i]
      invariant forall s :: s in res ==> res[s] == SplitNights(IntOr(booked, s, 1), split)
    {
      var s := types[i];
      var seasonTotal := IntOr(booked, s, 1);
      res := res[s := SplitNights(seasonTotal, split)];
      assert types[..i + 1] == types[..i] + [s];
      i := i + 1;
    }
    assert types[..|types|] == types;
  }
}
