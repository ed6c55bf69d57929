/** Allocation of the net-income goal: first to seasons, in proportion to their
    booked nights, then to a per-night target for each day type of a season. */
module NetTargets {
  import opened Rounding
  import opened Seqs
  import opened Domain

  /** The goal selector: a yearly net, a monthly net, or a net per season. */
  datatype GoalMode = Year | Month | PerSeasonGoal

  datatype NetGoal = NetGoal(
    mode: GoalMode,
    perYearNet: real,
    perMonthNet: real,
    perSeasonNet: map<string, real>)

  /** The yearly amount being allocated: 0 in per-season mode (reached only with an empty map). */
  function AnnualBase(goal: NetGoal): (r: real)
    ensures goal.mode == Year ==> r == goal.perYearNet
    ensures goal.mode == Month ==> r == 12.0 * goal.perMonthNet
    ensures goal.mode == PerSeasonGoal ==> r == 0.0
  {
    match goal.mode
    case Year => goal.perYearNet
    case Month => goal.perMonthNet * 12.0
    case PerSeasonGoal => 0.0
  }

  /** A season's weight: its booked nights over all booked nights (at least 1). */
  function Weight(nights: int, totalBooked: int): real {
    nights as real / Max(totalBooked, 1) as real
  }

  /** A season's target: the base, weighted by the season's share of the booked nights. */
  function WeightedTarget(base: real, nights: int, totalBooked: int): (r: int)
    ensures base * Weight(nights, totalBooked) - 0.5 < r as real <= base * Weight(nights, totalBooked) + 0.5
  {
    Round(base * Weight(nights, totalBooked))
  }

  /** In per-season mode a non-empty map is used as the targets as it is. */
  predicate UsesSeasonMap(goal: NetGoal) {
    goal.mode == PerSeasonGoal && |goal.perSeasonNet| > 0
  }

  /** The seasonNetTarget memo: the booked total is the sum of all values of the booked record,
      which bookedNightsBySeason keys by the configured seasons (BookedTotalOverSeasons). */
  method SeasonNetTarget(goal: NetGoal, types: seq<string>, booked: map<string, int>)
    returns (out: map<string, real>)
    ensures UsesSeasonMap(goal) ==> out == goal.perSeasonNet
    ensures !UsesSeasonMap(goal) ==> forall s :: s in out <==> s in types
    ensures !UsesSeasonMap(goal) ==> forall s :: s in out ==>
      out[s] == WeightedTarget(AnnualBase(goal), IntOr(booked, s, 0), SumValues(booked)) as real
  {
    if UsesSeasonMap(goal) {
      return goal.perSeasonNet;
    }
    out := map[];
    var totalBooked := SumRecord(booked);
    var base := AnnualBase(goal);
    var i := 0;
    while i < |types|
      invariant 0 <= i <= |types|
      invariant forall s :: s in out <==> s in types[..i]
      invariant forall s :: s in out ==> out[s] == WeightedTarget(base, IntOr(booked, s, 0), totalBooked) as real
    {
      var s := types[i];
      out := out[s := WeightedTarget(base, IntOr(booked, s, 0), totalBooked) as real];
      assert types[..i + 1] == types[..i] + [s];
      i := i + 1;
    }
    assert types[..|types|] == types;
  }

  /** When the record's keys are exactly the seasons, as bookedNightsBySeason builds it, the sum
      of its values is its sum over the distinct seasons. */
  lemma BookedTotalOverSeasons(types: seq<string>, booked: map<string, int>)
    requires forall s :: s in booked <==> s in types
    ensures SumValues(booked) == SumOver(Distinct(types), booked)
  {
    SumOverAllKeys(Distinct(types), booked);
  }

  /** Per-season mode with an empty map allocates nothing: every season's target is 0. */
  lemma EmptySeasonMapGivesZero(goal: NetGoal, nights: int, totalBooked: int)
    requires goal.mode == PerSeasonGoal && goal.perSeasonNet == map[]
    ensures !UsesSeasonMap(goal)
    ensures WeightedTarget(AnnualBase(goal), nights, totalBooked) == 0
  {
    assert 0.0 * Weight(nights, totalBooked) == 0.0;
    RoundOfInt(0);
  }

  /** The sum of the season targets over the keys ks. */
  function SumTargets(ks: seq<string>, base: real, booked: map<string, int>, totalBooked: int): int {
    if ks == [] then 0
    else SumTargets(ks[..|ks| - 1], base, booked, totalBooked) + WeightedTarget(base, IntOr(booked, ks[|ks| - 1], 0), totalBooked)
  }

  lemma WeightAdd(a: int, b: int, t: int)
    ensures Weight(a + b, t) == Weight(a, t) + Weight(b, t)
  {
  }

  lemma ScaleAdd(base: real, x: real, y: real)
    ensures base * (x + y) == base * x + base * y
  {
  }

  /** The exact (unrounded) shares of the keys ks, added up. */
  function SumExact(ks: seq<string>, base: real, booked: map<string, int>, totalBooked: int): real {
    if ks == [] then 0.0
    else SumExact(ks[..|ks| - 1], base, booked, totalBooked) + base * Weight(IntOr(booked, ks[|ks| - 1], 0), totalBooked)
  }

  /** Each target is off its exact share by at most half a unit. */
  lemma {:induction false} SumTargetsNearExact(ks: seq<string>, base: real, booked: map<string, int>, totalBooked: int)
    ensures SumExact(ks, base, booked, totalBooked) - 0.5 * |ks| as real <= SumTargets(ks, base, booked, totalBooked) as real
    ensures SumTargets(ks, base, booked, totalBooked) as real <= SumExact(ks, base, booked, totalBooked) + 0.5 * |ks| as real
  {
    if ks != [] {
      var init := ks[..|ks| - 1];
      var b := IntOr(booked, ks[|ks| - 1], 0);
      SumTargetsNearExact(init, base, booked, totalBooked);
      var e0 := SumExact(init, base, booked, totalBooked);
      var e1 := base * Weight(b, totalBooked);
      var t0 := SumTargets(init, base, booked, totalBooked);
      var w := WeightedTarget(base, b, totalBooked);
      assert SumTargets(ks, base, booked, totalBooked) == t0 + w;
      assert SumExact(ks, base, booked, totalBooked) == e0 + e1;
      assert |ks| as real == |init| as real + 1.0;
      NearStep(e0, e1, t0 as real, w as real, |init| as real);
    }
  }

  /** The exact shares add up to the base scaled by the share of all of ks. */
  lemma {:induction false} SumExactIsShare(ks: seq<string>, base: real, booked: map<string, int>, totalBooked: int)
    ensures SumExact(ks, base, booked, totalBooked) == base * Weight(SumOver(ks, booked), totalBooked)
  {
    if ks != [] {
      var init := ks[..|ks| - 1];
      var b := IntOr(booked, ks[|ks| - 1], 0);
      SumExactIsShare(init, base, booked, totalBooked);
      var s0 := SumOver(init, booked);
      assert SumOver(ks, booked) == s0 + b;
      WeightAdd(s0, b, totalBooked);
      ScaleAdd(base, Weight(s0, totalBooked), Weight(b, totalBooked));
    } else {
      assert Weight(0, totalBooked) == 0.0;
    }
  }

  /** So the targets of ks add up to the base scaled by the share of ks, within |ks| / 2. */
  lemma SumTargetsNearShare(ks: seq<string>, base: real, booked: map<string, int>, totalBooked: int)
    ensures var exact := base * Weight(SumOver(ks, booked), totalBooked);
      exact - 0.5 * |ks| as real <= SumTargets(ks, base, booked, totalBooked) as real <= exact + 0.5 * |ks| as real
  {
    SumTargetsNearExact(ks, base, booked, totalBooked);
    SumExactIsShare(ks, base, booked, totalBooked);
  }

  lemma NearStep(e0: real, e1: real, t0: real, w: real, k: real)
    requires e0 - 0.5 * k <= t0 <= e0 + 0.5 * k
    requires e1 - 0.5 < w <= e1 + 0.5
    ensures (e0 + e1) - 0.5 * (k + 1.0) <= t0 + w <= (e0 + e1) + 0.5 * (k + 1.0)
  {
  }

  /** Allocation keeps the goal: over the season keys ks (the configured seasons, once each) the
      targets add up to the yearly base within half a unit per season. */
  lemma TargetsAddUpToBase(ks: seq<string>, base: real, booked: map<string, int>)
    requires SumOver(ks, booked) >= 1
    ensures base - 0.5 * |ks| as real <= SumTargets(ks, base, booked, SumOver(ks, booked)) as real <= base + 0.5 * |ks| as real
  {
    var t := SumOver(ks, booked);
    SumTargetsNearShare(ks, base, booked, t);
    WeightOfWhole(t);
  }

  lemma WeightOfWhole(t: int)
    requires t >= 1
    ensures Weight(t, t) == 1.0
  {
  }

  /** `Object.values(totals).reduce(+) || 1`: the season's nights, 1 when they add up to 0. */
  function TotalNights(c: DayCounts): (r: int)
    ensures r != 0
    ensures c.Total() != 0 ==> r == c.Total()
  {
    if c.Total() != 0 then c.Total() else 1
  }

  /** The per-night target of one bucket: 0 for a bucket without nights, otherwise its share
      of the season net spread over its nights, at least 1. */
  function PerNight(seasonNet: real, nights: int, totalNights: int): (r: int)
    requires totalNights != 0
    ensures nights > 0 ==> r >= 1
    ensures nights <= 0 ==> r == 0
  {
    if nights > 0 then Max(1, Floor(NightShare(seasonNet, nights, totalNights) / nights as real)) else 0
  }

  /** `seasonNet * (nights / totalNights)`: the bucket's share of the season net. */
  function NightShare(seasonNet: real, nights: int, totalNights: int): real
    requires totalNights != 0
  {
    seasonNet * (nights as real / totalNights as real)
  }

  /** Every bucket with nights gets the same per-night target: the season net over all the
      season's nights, floored, at least 1. */
  lemma PerNightUniform(seasonNet: real, nights: int, totalNights: int)
    requires totalNights != 0 && nights > 0
    ensures PerNight(seasonNet, nights, totalNights) == Max(1, Floor(seasonNet / totalNights as real))
  {
    ShareOverNights(seasonNet, nights as real, totalNights as real);
    assert NightShare(seasonNet, nights, totalNights) / nights as real == seasonNet / totalNights as real;
  }

  lemma ShareOverNights(x: real, n: real, t: real)
    requires n != 0.0 && t != 0.0
    ensures x * (n / t) / n == x / t
  {
    assert x * (n / t) == (x / t) * n;
  }

  /** Unless the floor of 1 applies, a bucket's per-night target times its nights never exceeds
      the bucket's share of the season net. */
  lemma PerNightUndershoots(seasonNet: real, nights: int, totalNights: int)
    requires totalNights > 0 && nights > 0
    requires seasonNet / totalNights as real >= 1.0
    ensures (PerNight(seasonNet, nights, totalNights) * nights) as real <= NightShare(seasonNet, nights, totalNights)
  {
    PerNightUniform(seasonNet, nights, totalNights);
    var q := seasonNet / totalNights as real;
    var f := Floor(q);
    assert f >= 1;
    assert PerNight(seasonNet, nights, totalNights) == f;
    UndershootStep(f as real, q, nights as real);
    assert NightShare(seasonNet, nights, totalNights) == q * nights as real;
  }

  lemma UndershootStep(f: real, q: real, n: real)
    requires f <= q && n > 0.0
    ensures f * n <= q * n
  {
  }

  /** The per-night targets of one season, by day type. */
  function SeasonPerNight(seasonNet: real, c: DayCounts): (r: DayCounts)
    ensures forall d :: c.Get(d) > 0 ==> r.Get(d) >= 1
    ensures forall d :: c.Get(d) <= 0 ==> r.Get(d) == 0
  {
    var t := TotalNights(c);
    DayCounts(PerNight(seasonNet, c.weekday, t), PerNight(seasonNet, c.weekend, t), PerNight(seasonNet, c.holiday, t))
  }

  /** The perNightNetTarget memo. Every configured season has its split nights (the
      nightsBySeasonDay record), and its net target is `seasonNetTarget[s] || 0`. */
  method PerNightNetTarget(types: seq<string>, nightsBySeasonDay: map<string, DayCounts>, targets: map<string, real>)
    returns (out: map<string, DayCounts>)
    requires forall s :: s in types ==> s in nightsBySeasonDay
    ensures forall s :: s in out <==> s in types
    ensures forall s :: s in out ==> out[s] == SeasonPerNight(RealOr(targets, s, 0.0), nightsBySeasonDay[s])
  {
    out := map[];
    var i := 0;
    while i < |types|
      invariant 0 <= i <= |types|
      invariant forall s :: s in out <==> s in types[..i]
      invariant forall s :: s in out ==> out[s] == SeasonPerNight(RealOr(targets, s, 0.0), nightsBySeasonDay[s])
    {
      var s := types[i];
      var totals := nightsBySeasonDay[s];
      var seasonNet := RealOr(targets, s, 0.0);
      var totalNights := TotalNights(totals);
      var row := DayCounts(0, 0, 0);
      var j := 0;
      while j < |DayTypes|
        invariant 0 <= j <= |DayTypes|
        invariant forall k :: 0 <= k < j ==> row.Get(DayTypes[k]) == PerNight(seasonNet, totals.Get(DayTypes[k]), totalNights)
        invariant forall k :: j <= k < |DayTypes| ==> row.Get(DayTypes[k]) == 0
      {
        var d := DayTypes[j];
        row := row.With(d, PerNight(seasonNet, totals.Get(d), totalNights));
        j := j + 1;
      }
      assert row.Get(DayTypes[0]) == row.weekday && row.Get(DayTypes[1]) == row.weekend && row.Get(DayTypes[2]) == row.holiday;
      out := out[s := row];
      assert types[..i + 1] == types[..i] + [s];
      i := i + 1;
    }
    assert types[..|types|] == types;
  }
}
