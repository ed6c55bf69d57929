/** The totals of the review step: the rows of one platform, and per-season and
    grand totals of nights and of gross, guest and net revenue over them. */
module Totals {
  import opened Seqs
  import opened Domain

  /** `scopedRows`: the rows of one platform, in table order. */
  function ScopedRows(rows: seq<PriceRow>, pk: PlatformKey): (out: seq<PriceRow>)
    ensures |out| <= |rows|
    ensures forall r :: r in out ==> r in rows && r.platform == pk
    ensures forall r :: r in rows && r.platform == pk ==> r in out
  {
    if rows == [] then []
    else
      var init := ScopedRows(rows[..|rows| - 1], pk);
      var last := rows[|rows| - 1];
      assert forall r :: r in rows ==> r in rows[..|rows| - 1] || r == last;
      if last.platform == pk then init + [last] else init
  }

  /** Scoping distributes over concatenation: the rows of one platform in a + b are its rows
      in a followed by its rows in b. */
  lemma {:induction false} ScopedRowsAppend(a: seq<PriceRow>, b: seq<PriceRow>, pk: PlatformKey)
    ensures ScopedRows(a + b, pk) == ScopedRows(a, pk) + ScopedRows(b, pk)
  {
    if b == [] {
      assert a + b == a;
    } else {
      var init := b[..|b| - 1];
      var last := b[|b| - 1];
      var tail: seq<PriceRow> := if last.platform == pk then [last] else [];
      assert b == init + [last];
      assert a + b == (a + init) + [last];
      calc {
        ScopedRows(a + b, pk);
        { ScopedRowsSnoc(a + init, last, pk); }
        ScopedRows(a + init, pk) + tail;
        { ScopedRowsAppend(a, init, pk); }
        (ScopedRows(a, pk) + ScopedRows(init, pk)) + tail;
        ScopedRows(a, pk) + (ScopedRows(init, pk) + tail);
        { ScopedRowsSnoc(init, last, pk); }
        ScopedRows(a, pk) + ScopedRows(b, pk);
      }
    }
  }

  lemma ScopedRowsSnoc(rows: seq<PriceRow>, x: PriceRow, pk: PlatformKey)
    ensures ScopedRows(rows + [x], pk) == ScopedRows(rows, pk) + (if x.platform == pk then [x] else [])
  {
    assert (rows + [x])[..|rows|] == rows;
  }

  /** One row is kept exactly when it is of the platform. */
  lemma ScopedRowsSingle(x: PriceRow, pk: PlatformKey)
    ensures ScopedRows([x], pk) == if x.platform == pk then [x] else []
  {
    assert [x][..0] == [];
  }

  datatype Sums = Sums(nights: int, gross: int, guest: int, net: int) {
    function Plus(o: Sums): (r: Sums)
      ensures r.nights == nights + o.nights && r.gross == gross + o.gross
      ensures r.guest == guest + o.guest && r.net == net + o.net
    {
      Sums(nights + o.nights, gross + o.gross, guest + o.guest, net + o.net)
    }
  }

  const Zero := Sums(0, 0, 0, 0)

  /** `nightsBySeasonDay[r.season]?.[r.dayType] ?? 0` */
  function NightsFor(nbsd: map<string, DayCounts>, r: PriceRow): (n: int)
    ensures r.season !in nbsd ==> n == 0
    ensures r.season in nbsd ==> n == nbsd[r.season].Get(r.dayType)
  {
    if r.season in nbsd then nbsd[r.season].Get(r.dayType) else 0
  }

  /** What one row adds: its nights, and each per-night price times the nights. */
  function Contribution(nbsd: map<string, DayCounts>, r: PriceRow): Sums {
    var n := NightsFor(nbsd, r);
    Sums(n, r.gross * n, r.guestPrice * n, r.net * n)
  }

  /** The grand total over the rows. */
  function GrandSum(rows: seq<PriceRow>, nbsd: map<string, DayCounts>): Sums {
    if rows == [] then Zero
    else GrandSum(rows[..|rows| - 1], nbsd).Plus(Contribution(nbsd, rows[|rows| - 1]))
  }

  /** The total of season s over the rows. */
  function SeasonSum(rows: seq<PriceRow>, nbsd: map<string, DayCounts>, s: string): Sums {
    if rows == [] then Zero
    else
      var init := SeasonSum(rows[..|rows| - 1], nbsd, s);
      if rows[|rows| - 1].season == s then init.Plus(Contribution(nbsd, rows[|rows| - 1])) else init
  }

  /** The starting record: every configured season at zero. */
  method ZeroTotals(types: seq<string>) returns (bySeason: map<string, Sums>)
    ensures forall s :: s in bySeason <==> s in types
    ensures forall s :: s in bySeason ==> bySeason[s] == Zero
  {
    bySeason := map[];
    var i := 0;
    while i < |types|
      invariant 0 <= i <= |types|
      invariant forall s :: s in bySeason <==> s in types[..i]
      invariant forall s :: s in bySeason ==> bySeason[s] == Zero
    {
      bySeason := bySeason[types[i] := Zero];
      assert types[..i + 1] == types[..i] + [types[i]];
      i := i + 1;
    }
    assert types[..|types|] == types;
  }

  /** The scopedTotals memo. Every row's season is a configured one (a row of an unknown season
      has no entry to add to). */
  method ScopedTotals(types: seq<string>, scoped: seq<PriceRow>, nbsd: map<string, DayCounts>)
    returns (bySeason: map<string, Sums>, grand: Sums)
    requires forall r :: r in scoped ==> r.season in types
    ensures forall s :: s in bySeason <==> s in types
    ensures forall s :: s in bySeason ==> bySeason[s] == SeasonSum(scoped, nbsd, s)
    ensures grand == GrandSum(scoped, nbsd)
  {
    bySeason := ZeroTotals(types);
    grand := Zero;
    var j := 0;
    while j < |scoped|
      invariant 0 <= j <= |scoped|
      invariant forall s :: s in bySeason <==> s in types
      invariant forall s :: s in bySeason ==> bySeason[s] == SeasonSum(scoped[..j], nbsd, s)
      invariant grand == GrandSum(scoped[..j], nbsd)
    {
      var r := scoped[j];
      var add := Contribution(nbsd, r);
      assert r in scoped;
      bySeason := bySeason[r.season := bySeason[r.season].Plus(add)];
      grand := grand.Plus(add);
      assert scoped[..j + 1] == scoped[..j] + [r];
      forall s | s in bySeason
        ensures bySeason[s] == SeasonSum(scoped[..j + 1], nbsd, s)
      {
        SeasonSumStep(scoped[..j], r, nbsd, s);
      }
      GrandSumStep(scoped[..j], r, nbsd);
      j := j + 1;
    }
    assert scoped[..|scoped|] == scoped;
  }

  lemma GrandSumStep(rows: seq<PriceRow>, r: PriceRow, nbsd: map<string, DayCounts>)
    ensures GrandSum(rows + [r], nbsd) == GrandSum(rows, nbsd).Plus(Contribution(nbsd, r))
  {
    assert (rows + [r])[..|rows + [r]| - 1] == rows;
  }

  /** A season without rows stays at zero. */
  lemma {:induction false} SeasonWithoutRowsIsZero(rows: seq<PriceRow>, nbsd: map<string, DayCounts>, s: string)
    requires forall r :: r in rows ==> r.season != s
    ensures SeasonSum(rows, nbsd, s) == Zero
  {
    if rows != [] {
      SeasonWithoutRowsIsZero(rows[..|rows| - 1], nbsd, s);
    }
  }

  /** A row without a night count adds nothing. */
  lemma UncountedRowAddsNothing(nbsd: map<string, DayCounts>, r: PriceRow)
    requires r.season !in nbsd
    ensures Contribution(nbsd, r) == Zero
  {
  }

  /** The season totals over the keys ks, added up. */
  function SumSeasons(ks: seq<string>, rows: seq<PriceRow>, nbsd: map<string, DayCounts>): Sums {
    if ks == [] then Zero
    else SumSeasons(ks[..|ks| - 1], rows, nbsd).Plus(SeasonSum(rows, nbsd, ks[|ks| - 1]))
  }

  /** One more row adds its contribution to the sum of the season totals exactly once when its
      season is among the (distinct) keys, and not at all otherwise. */
  lemma {:induction false} SumSeasonsStep(ks: seq<string>, rows: seq<PriceRow>, r: PriceRow, nbsd: map<string, DayCounts>)
    requires NoDuplicates(ks)
    ensures SumSeasons(ks, rows + [r], nbsd)
         == SumSeasons(ks, rows, nbsd).Plus(if r.season in ks then Contribution(nbsd, r) else Zero)
  {
    var rows' := rows + [r];
    if ks == [] {
      SumSeasonsOfNoKeys(rows, r, nbsd);
    } else {
      var init := ks[..|ks| - 1];
      var k := ks[|ks| - 1];
      assert NoDuplicates(init);
      SumSeasonsStep(init, rows, r, nbsd);
      OnceAmongKeys(ks, r.season);
      SeasonSumStep(rows, r, nbsd, k);
      var c := Contribution(nbsd, r);
      var ci := if r.season in init then c else Zero;
      var ck := if r.season == k then c else Zero;
      var cks := if r.season in ks then c else Zero;
      var a := SumSeasons(init, rows, nbsd);
      var b := SeasonSum(rows, nbsd, k);
      assert SumSeasons(init, rows', nbsd) == a.Plus(ci);
      assert SeasonSum(rows', nbsd, k) == b.Plus(ck);
      assert SumSeasons(ks, rows', nbsd) == a.Plus(ci).Plus(b.Plus(ck));
      assert SumSeasons(ks, rows, nbsd) == a.Plus(b);
      SumsRearrange(a, b, c, r.season in init, r.season == k);
      assert a.Plus(ci).Plus(b.Plus(ck)) == a.Plus(b).Plus(cks);
    }
  }

  lemma SumSeasonsOfNoKeys(rows: seq<PriceRow>, r: PriceRow, nbsd: map<string, DayCounts>)
    ensures SumSeasons([], rows + [r], nbsd) == SumSeasons([], rows, nbsd).Plus(Zero)
  {
  }

  /** A season is among distinct keys at most once: in the init or as the last key. */
  lemma OnceAmongKeys(ks: seq<string>, s: string)
    requires NoDuplicates(ks) && ks != []
    ensures s in ks <==> s in ks[..|ks| - 1] || s == ks[|ks| - 1]
    ensures !(s in ks[..|ks| - 1] && s == ks[|ks| - 1])
  {
    assert ks == ks[..|ks| - 1] + [ks[|ks| - 1]];
  }

  lemma SeasonSumStep(rows: seq<PriceRow>, r: PriceRow, nbsd: map<string, DayCounts>, k: string)
    ensures SeasonSum(rows + [r], nbsd, k)
         == SeasonSum(rows, nbsd, k).Plus(if r.season == k then Contribution(nbsd, r) else Zero)
  {
    assert (rows + [r])[..|rows + [r]| - 1] == rows;
  }

  lemma SumsRearrange(a: Sums, b: Sums, c: Sums, inInit: bool, isLast: bool)
    requires !(inInit && isLast)
    ensures a.Plus(if inInit then c else Zero).Plus(b.Plus(if isLast then c else Zero))
         == a.Plus(b).Plus(if inInit || isLast then c else Zero)
  {
  }

  /** The grand total is the sum of the season totals. */
  lemma {:induction false} GrandIsSumOfSeasons(ks: seq<string>, rows: seq<PriceRow>, nbsd: map<string, DayCounts>)
    requires NoDuplicates(ks)
    requires forall r :: r in rows ==> r.season in ks
    ensures GrandSum(rows, nbsd) == SumSeasons(ks, rows, nbsd)
  {
    if rows == [] {
      SumSeasonsOfNoRows(ks, nbsd);
    } else {
      var init := rows[..|rows| - 1];
      var r := rows[|rows| - 1];
      GrandIsSumOfSeasons(ks, init, nbsd);
      assert init + [r] == rows;
      SumSeasonsStep(ks, init, r, nbsd);
    }
  }

  lemma {:induction false} SumSeasonsOfNoRows(ks: seq<string>, nbsd: map<string, DayCounts>)
    ensures SumSeasons(ks, [], nbsd) == Zero
  {
    if ks != [] {
      SumSeasonsOfNoRows(ks[..|ks| - 1], nbsd);
    }
  }

  /** With the configured seasons (each counted once) the grand total of the method is the sum of
      its season totals. */
  lemma GrandOfConfiguredSeasons(types: seq<string>, rows: seq<PriceRow>, nbsd: map<string, DayCounts>)
    requires forall r :: r in rows ==> r.season in types
    ensures GrandSum(rows, nbsd) == SumSeasons(Distinct(types), rows, nbsd)
  {
    var ks := Distinct(types);
    forall r | r in rows
      ensures r.season in ks
    {
      var i :| 0 <= i < |types| && types[i] == r.season;
    }
    GrandIsSumOfSeasons(ks, rows, nbsd);
  }
}
