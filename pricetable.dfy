/** The price table: one row per season, day type and platform, each derived
    from the season's per-night net target for that day type, and the lookup
    the preview card makes into it. */
module PriceTable {
  import opened Rounding
  import opened Seqs
  import opened Domain
  import opened Pricing

  /** `holidays?.settings?.multiplier ?? 1.4` when the holiday settings are absent. */
  const DefaultHolidayMultiplier: real := 1.4

  /** What the table is derived from: the configured seasons, the seasonality multipliers, the
      holiday settings' multiplier (None without holiday settings), the platforms and the
      perNightNetTarget record. */
  datatype TableConfig = TableConfig(
    types: seq<string>,
    mults: Multipliers,
    holidayMult: Option<real>,
    platforms: Platforms,
    perNight: map<string, DayCounts>)

  /** Every configured season has its per-night targets, as the perNightNetTarget memo builds them. */
  predicate Configured(cfg: TableConfig) {
    forall s :: s in cfg.types ==> s in cfg.perNight
  }

  /** The day-type multiplier: the holiday one comes from the holiday settings, not from the
      seasonality multipliers. */
  function MultiplierFor(cfg: TableConfig, d: DayType): (m: real)
    ensures d == Weekday ==> m == cfg.mults.weekday
    ensures d == Weekend ==> m == cfg.mults.weekend
    ensures d == Holiday ==> m == GetOrDefault(cfg.holidayMult, DefaultHolidayMultiplier)
  {
    match d
    case Weekday => cfg.mults.weekday
    case Weekend => cfg.mults.weekend
    case Holiday => GetOrDefault(cfg.holidayMult, DefaultHolidayMultiplier)
  }

  function GetOrDefault(o: Option<real>, d: real): real {
    match o
    case Some(v) => v
    case None => d
  }

  /** A season's per-night target for a day type; a season without targets is not reached
      (see Configured). */
  function NetTarget(cfg: TableConfig, s: string, d: DayType): int {
    if s in cfg.perNight then cfg.perNight[s].Get(d) else 0
  }

  /** The unrounded DP of a cell. */
  function RawDP(cfg: TableConfig, s: string, d: DayType, pk: PlatformKey): real {
    var f := FractionsOf(Profile(cfg.platforms, pk));
    DeriveDP(NetTarget(cfg, s, d) as real, f.host, f.vat, f.tax, f.pad, MultiplierFor(cfg, d))
  }

  /** One cell: the displayed DP is the rounded DP (at least 1), while gross, guest price and net
      are computed forward from the unrounded DP. */
  function RowFor(cfg: TableConfig, s: string, d: DayType, pk: PlatformKey): (r: PriceRow)
    ensures r.season == s && r.dayType == d && r.platform == pk
  {
    var f := FractionsOf(Profile(cfg.platforms, pk));
    var dpRaw := RawDP(cfg, s, d, pk);
    var pr := ForwardPrices(dpRaw, f.guest, f.host, f.vat, f.tax, f.pad, MultiplierFor(cfg, d));
    PriceRow(s, d, pk, Max(1, Round(dpRaw)), pr.gross, pr.guestPrice, pr.net)
  }

  /** A cell's DP is at least 1 and at least the rounded DP, its gross is even, and its guest
      price and net are those of its gross under the platform's fees. */
  lemma RowForValid(cfg: TableConfig, s: string, d: DayType, pk: PlatformKey)
    ensures var r := RowFor(cfg, s, d, pk);
      r.dp >= 1 && r.dp >= Round(RawDP(cfg, s, d, pk)) && IsEven(r.gross)
    ensures var r := RowFor(cfg, s, d, pk);
      var f := FractionsOf(Profile(cfg.platforms, pk));
      Prices(r.gross, r.guestPrice, r.net) == FromGross(r.gross, f.guest, f.host, f.vat, f.tax)
  {
  }

  /** The rows of one season in loop order, day types outside and platforms inside, for any way
      of computing a cell. */
  function SeasonRows(cell: (string, DayType, PlatformKey) -> PriceRow, s: string): (rows: seq<PriceRow>)
    ensures |rows| == 15
    ensures forall i :: 0 <= i < 15 ==> rows[i] == cell(s, DayTypes[i / 5], AllPlatforms[i % 5])
  {
    seq(15, i requires 0 <= i < 15 => cell(s, DayTypes[i / 5], AllPlatforms[i % 5]))
  }

  /** The rows of the seasons ts, in order. */
  function Rows(cell: (string, DayType, PlatformKey) -> PriceRow, ts: seq<string>): seq<PriceRow> {
    if ts == [] then [] else Rows(cell, ts[..|ts| - 1]) + SeasonRows(cell, ts[|ts| - 1])
  }

  /** The cells of a configuration. */
  function Cells(cfg: TableConfig): (string, DayType, PlatformKey) -> PriceRow {
    (s, d, pk) => RowFor(cfg, s, d, pk)
  }

  /** The table of a configuration. */
  function Table(cfg: TableConfig): seq<PriceRow> {
    Rows(Cells(cfg), cfg.types)
  }

  /** The priceTable memo. */
  method BuildPriceTable(cfg: TableConfig) returns (out: seq<PriceRow>)
    requires Configured(cfg)
    ensures out == Table(cfg)
  {
    out := [];
    var i := 0;
    while i < |cfg.types|
      invariant 0 <= i <= |cfg.types|
      invariant out == Rows(Cells(cfg), cfg.types[..i])
    {
      var s := cfg.types[i];
      var block := PriceSeason(cfg, s);
      out := out + block;
      assert cfg.types[..i + 1][..i] == cfg.types[..i];
      i := i + 1;
    }
    assert cfg.types[..|cfg.types|] == cfg.types;
  }

  /** The body of the season loop: the rows of one season, day types outside, platforms inside. */
  method PriceSeason(cfg: TableConfig, s: string) returns (out: seq<PriceRow>)
    requires s in cfg.perNight
    ensures out == SeasonRows(Cells(cfg), s)
  {
    ghost var all := SeasonRows(Cells(cfg), s);
    out := [];
    var j := 0;
    while j < |DayTypes|
      invariant 0 <= j <= |DayTypes|
      invariant out == all[..5 * j]
    {
      var d := DayTypes[j];
      var mult := MultiplierFor(cfg, d);
      var k := 0;
      while k < |AllPlatforms|
        invariant 0 <= k <= |AllPlatforms|
        invariant out == all[..5 * j + k]
      {
        var pk := AllPlatforms[k];
        var row := PriceCell(cfg, s, d, pk, mult);
        Div5(j, k);
        assert row == all[5 * j + k];
        assert all[..5 * j + k + 1] == all[..5 * j + k] + [row];
        out := out + [row];
        k := k + 1;
      }
      j := j + 1;
    }
    assert all[..15] == all;
  }

  /** The body of the innermost loop: one platform's row for a season and day type. */
  method PriceCell(cfg: TableConfig, s: string, d: DayType, pk: PlatformKey, mult: real) returns (row: PriceRow)
    requires s in cfg.perNight && mult == MultiplierFor(cfg, d)
    ensures row == RowFor(cfg, s, d, pk)
  {
    var p := Profile(cfg.platforms, pk);
    var pad := 1.0 + p.discountPaddingPct / 100.0;
    var guest := p.guestFeePct / 100.0;
    var host := p.hostCommissionPct / 100.0;
    var vat := p.vatPct / 100.0;
    var tax := p.incomeTaxPct / 100.0;
    var netTarget := cfg.perNight[s].Get(d);
    var dpRaw := DeriveDP(netTarget as real, host, vat, tax, pad, mult);
    var pr := ForwardPrices(dpRaw, guest, host, vat, tax, pad, mult);
    row := PriceRow(s, d, pk, Max(1, Round(dpRaw)), pr.gross, pr.guestPrice, pr.net);
  }

  /** The table has 15 rows per season, and row n is the cell of season n / 15, day type
      (n % 15) / 5 and platform n % 5. */
  lemma {:induction false} RowsShape(cell: (string, DayType, PlatformKey) -> PriceRow, ts: seq<string>)
    ensures |Rows(cell, ts)| == 15 * |ts|
    ensures forall n :: 0 <= n < |Rows(cell, ts)| ==>
      Rows(cell, ts)[n] == cell(ts[n / 15], DayTypes[(n % 15) / 5], AllPlatforms[n % 5])
  {
    if ts != [] {
      var init := ts[..|ts| - 1];
      RowsShape(cell, init);
      var t := Rows(cell, ts);
      forall n | 0 <= n < |t|
        ensures t[n] == cell(ts[n / 15], DayTypes[(n % 15) / 5], AllPlatforms[n % 5])
      {
        if n < 15 * |init| {
          assert t[n] == Rows(cell, init)[n];
          DivBelow(n, |init|);
          assert init[n / 15] == ts[n / 15];
        } else {
          var m := n - 15 * |init|;
          assert t[n] == SeasonRows(cell, ts[|ts| - 1])[m];
          DivMod15(n, |init|);
        }
      }
    }
  }

  function DayIndex(d: DayType): (i: int)
    ensures 0 <= i < 3 && DayTypes[i] == d
  {
    match d
    case Weekday => 0
    case Weekend => 1
    case Holiday => 2
  }

  function PlatformIndex(pk: PlatformKey): (i: int)
    ensures 0 <= i < 5 && AllPlatforms[i] == pk
  {
    match pk
    case Airbnb => 0
    case Booking => 1
    case Vrbo => 2
    case Website => 3
    case DTravel => 4
  }

  lemma Div5(j: int, k: int)
    requires 0 <= k < 5
    ensures (5 * j + k) / 5 == j && (5 * j + k) % 5 == k
  {
  }

  lemma CellIndex(i: int, di: int, pi: int, k: int, n: int)
    requires 0 <= i < k && 0 <= di < 3 && 0 <= pi < 5
    requires n == 15 * i + 5 * di + pi
    ensures 0 <= n < 15 * k && n / 15 == i && (n % 15) / 5 == di && n % 5 == pi
  {
    DivMod15(n, i);
    Div5(di, pi);
  }

  lemma DivBelow(n: int, k: int)
    requires 0 <= n < 15 * k
    ensures n / 15 < k
  {
  }

  /** Row n of a block of 15 starting at 15 * q has offset n % 15, and its platform index is the
      offset's own remainder by 5. */
  lemma DivMod15(n: int, q: int)
    requires 15 * q <= n < 15 * q + 15
    ensures n / 15 == q && n % 15 == n - 15 * q && (n % 15) % 5 == n % 5
  {
    var m := n - 15 * q;
    assert n == 15 * q + m;
    assert n == 5 * (3 * q) + m;
  }

  /** The price table has one row per season, day type and platform, in that nesting order. */
  lemma TableShape(cfg: TableConfig)
    ensures |Table(cfg)| == 15 * |cfg.types|
    ensures forall n :: 0 <= n < |Table(cfg)| ==>
      Table(cfg)[n] == RowFor(cfg, cfg.types[n / 15], DayTypes[(n % 15) / 5], AllPlatforms[n % 5])
  {
    RowsShape(Cells(cfg), cfg.types);
  }

  /** Every row's DP is at least 1 and its gross is even. */
  lemma TableRowsValid(cfg: TableConfig)
    ensures forall r :: r in Table(cfg) ==> r.dp >= 1 && IsEven(r.gross)
  {
    TableShape(cfg);
    var t := Table(cfg);
    forall r | r in t
      ensures r.dp >= 1 && IsEven(r.gross)
    {
      var n :| 0 <= n < |t| && t[n] == r;
      assert r == RowFor(cfg, cfg.types[n / 15], DayTypes[(n % 15) / 5], AllPlatforms[n % 5]);
      RowForValid(cfg, cfg.types[n / 15], DayTypes[(n % 15) / 5], AllPlatforms[n % 5]);
    }
  }

  /** Whenever the fee stack and the multiplier are not degenerate, a row's gross is the net target
      grossed up by the host's kept share and rounded up to even. */
  lemma RowGrossFromTarget(cfg: TableConfig, s: string, d: DayType, pk: PlatformKey)
    requires s in cfg.perNight
    requires var f := FractionsOf(Profile(cfg.platforms, pk));
      KeptShare(f.host, f.vat, f.tax) >= Epsilon && f.pad * MultiplierFor(cfg, d) >= Epsilon
    ensures var f := FractionsOf(Profile(cfg.platforms, pk));
      RowFor(cfg, s, d, pk).gross == ToEven(cfg.perNight[s].Get(d) as real / KeptShare(f.host, f.vat, f.tax))
  {
    var f := FractionsOf(Profile(cfg.platforms, pk));
    DeriveThenForward(cfg.perNight[s].Get(d) as real, f.guest, f.host, f.vat, f.tax, f.pad, MultiplierFor(cfg, d));
  }

  /** The forward step uses the unrounded DP: with no fees, 20% padding, a 1.4 multiplier and a
      per-night target of 100, the table shows DP 60 and gross 100, while 60 priced forward gives
      a gross of 102. */
  lemma DisplayedDPDoesNotReproduceGross()
    ensures var dpRaw := DeriveDP(100.0, 0.0, 0.0, 0.0, 1.2, 1.4);
      Max(1, Round(dpRaw)) == 60
      && ForwardPrices(dpRaw, 0.0, 0.0, 0.0, 0.0, 1.2, 1.4).gross == 100
      && ForwardPrices(60.0, 0.0, 0.0, 0.0, 0.0, 1.2, 1.4).gross == 102
  {
    var dpRaw := DeriveDP(100.0, 0.0, 0.0, 0.0, 1.2, 1.4);
    assert KeptShare(0.0, 0.0, 0.0) == 1.0;
    assert dpRaw == 100.0 / 1.68;
    assert 59.5 <= dpRaw < 60.5;
    assert Round(dpRaw) == 60;
    ForwardGross(dpRaw, 0.0, 0.0, 0.0, 0.0, 1.2, 1.4);
    assert dpRaw * 1.2 * 1.4 == 100.0;
    assert Round(100.0) == 100;
    ForwardGross(60.0, 0.0, 0.0, 0.0, 0.0, 1.2, 1.4);
    assert Round(60.0 * 1.2 * 1.4) == 101;
  }

  /** The row is the cell of the platform, season and day type. */
  predicate IsCell(x: PriceRow, pk: PlatformKey, s: string, d: DayType) {
    x.platform == pk && x.season == s && x.dayType == d
  }

  /** No row before position i is that cell. */
  predicate NoCellBefore(table: seq<PriceRow>, i: int, pk: PlatformKey, s: string, d: DayType)
    requires 0 <= i <= |table|
  {
    forall j :: 0 <= j < i ==> !IsCell(table[j], pk, s, d)
  }

  /** `priceTable.find(...)`: the first row of the platform, season and day type. */
  function FindRow(table: seq<PriceRow>, pk: PlatformKey, s: string, d: DayType): (r: Option<PriceRow>)
    ensures r.Some? ==> r.value in table && IsCell(r.value, pk, s, d)
    ensures r.None? <==> forall x :: x in table ==> !IsCell(x, pk, s, d)
    ensures r.Some? ==> exists i :: 0 <= i < |table| && table[i] == r.value && NoCellBefore(table, i, pk, s, d)
  {
    if table == [] then None
    else if IsCell(table[0], pk, s, d) then
      assert NoCellBefore(table, 0, pk, s, d);
      Some(table[0])
    else
      var rest := FindRow(table[1..], pk, s, d);
      if rest.None? then None
      else
        var i :| 0 <= i < |table[1..]| && table[1..][i] == rest.value && NoCellBefore(table[1..], i, pk, s, d);
        assert table[i + 1] == rest.value;
        assert NoCellBefore(table, i + 1, pk, s, d) by {
          forall j | 0 <= j < i + 1
            ensures !IsCell(table[j], pk, s, d)
          {
            if j > 0 {
              assert table[j] == table[1..][j - 1];
            }
          }
        }
        rest
  }

  /** A cell function that labels each row with its own season, day type and platform. */
  ghost predicate Labelled(cell: (string, DayType, PlatformKey) -> PriceRow) {
    forall s, d, pk :: cell(s, d, pk).season == s && cell(s, d, pk).dayType == d && cell(s, d, pk).platform == pk
  }

  /** Every row is the cell of its own season, day type and platform, for one of the seasons. */
  lemma RowIsItsCell(cell: (string, DayType, PlatformKey) -> PriceRow, ts: seq<string>, x: PriceRow)
    requires Labelled(cell) && x in Rows(cell, ts)
    ensures x.season in ts && x == cell(x.season, x.dayType, x.platform)
  {
    RowsShape(cell, ts);
    var t := Rows(cell, ts);
    var n :| 0 <= n < |t| && t[n] == x;
    assert x == cell(ts[n / 15], DayTypes[(n % 15) / 5], AllPlatforms[n % 5]);
  }

  /** Every cell of one of the seasons is among the rows. */
  lemma CellInRows(cell: (string, DayType, PlatformKey) -> PriceRow, ts: seq<string>, s: string, d: DayType, pk: PlatformKey)
    requires s in ts
    ensures cell(s, d, pk) in Rows(cell, ts)
  {
    RowsShape(cell, ts);
    var i :| 0 <= i < |ts| && ts[i] == s;
    var di := DayIndex(d);
    var pi := PlatformIndex(pk);
    var n := 15 * i + 5 * di + pi;
    CellIndex(i, di, pi, |ts|, n);
    var rows := Rows(cell, ts);
    assert rows[n] == cell(ts[i], DayTypes[di], AllPlatforms[pi]);
  }

  /** The preview lookup finds exactly the cell of a configured season and nothing for any other
      season. */
  lemma FindRowInTable(cfg: TableConfig, pk: PlatformKey, s: string, d: DayType)
    ensures s in cfg.types ==> FindRow(Table(cfg), pk, s, d) == Some(RowFor(cfg, s, d, pk))
    ensures s !in cfg.types ==> FindRow(Table(cfg), pk, s, d) == None
  {
    var cell := Cells(cfg);
    assert Labelled(cell);
    var found := FindRow(Table(cfg), pk, s, d);
    if found.Some? {
      RowIsItsCell(cell, cfg.types, found.value);
    }
    if s in cfg.types {
      CellInRows(cell, cfg.types, s, d, pk);
      assert found.Some?;
    }
  }
}
