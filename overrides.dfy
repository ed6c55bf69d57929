/** The override layer of the review step: a map from cell keys to a gross
    override and a lock flag, the three edits the user makes to it, and the
    substitution of locked gross values into the price table with guest price
    and net recomputed from them. */
module Overrides {
  import opened Rounding
  import opened Seqs
  import opened Domain
  import opened Pricing

  /** `keyFor`: platform, season and day type joined by '|'. */
  function KeyFor(pk: PlatformKey, season: string, d: DayType): string {
    PlatformName(pk) + "|" + (season + "|" + DayName(d))
  }

  function KeyOf(r: PriceRow): string {
    KeyFor(r.platform, r.season, r.dayType)
  }

  lemma PlatformNameNoBar(pk: PlatformKey)
    ensures '|' !in PlatformName(pk)
  {
  }

  lemma DayNameNoBar(d: DayType)
    ensures '|' !in DayName(d)
  {
  }

  lemma PlatformNameInjective(a: PlatformKey, b: PlatformKey)
    requires PlatformName(a) == PlatformName(b)
    ensures a == b
  {
  }

  lemma DayNameInjective(a: DayType, b: DayType)
    requires DayName(a) == DayName(b)
    ensures a == b
  {
  }

  lemma CharOfHead(a: string, r: string, i: int)
    requires 0 <= i <= |a|
    ensures (a + "|" + r)[i] == if i == |a| then '|' else a[i]
  {
  }

  lemma CharOfTail(r: string, a: string, i: int)
    requires 0 <= i <= |a|
    ensures (r + "|" + a)[|r| + 1 + |a| - 1 - i] == if i == |a| then '|' else a[|a| - 1 - i]
  {
  }

  /** A '|'-free head is recovered from `head + "|" + rest`. */
  lemma HeadUnique(a: string, b: string, r1: string, r2: string)
    requires '|' !in a && '|' !in b
    requires a + "|" + r1 == b + "|" + r2
    ensures a == b && r1 == r2
  {
    var k := a + "|" + r1;
    if |a| < |b| {
      CharOfHead(a, r1, |a|);
      CharOfHead(b, r2, |a|);
      assert false;
    } else if |b| < |a| {
      CharOfHead(a, r1, |b|);
      CharOfHead(b, r2, |b|);
      assert false;
    } else {
      assert a == k[..|a|] == b;
      assert r1 == k[|a| + 1..] == r2;
    }
  }

  /** A '|'-free tail is recovered from `rest + "|" + tail`. */
  lemma TailUnique(r1: string, r2: string, a: string, b: string)
    requires '|' !in a && '|' !in b
    requires r1 + "|" + a == r2 + "|" + b
    ensures a == b && r1 == r2
  {
    var k := r1 + "|" + a;
    var n := |k|;
    if |a| < |b| {
      CharOfTail(r1, a, |a|);
      CharOfTail(r2, b, |a|);
      assert false;
    } else if |b| < |a| {
      CharOfTail(r1, a, |b|);
      CharOfTail(r2, b, |b|);
      assert false;
    } else {
      assert a == k[n - |a|..] == b;
      assert r1 == k[..n - |a| - 1] == r2;
    }
  }

  /** Different cells have different keys: no season name can make two keys collide. */
  lemma KeyForInjective(pk1: PlatformKey, s1: string, d1: DayType, pk2: PlatformKey, s2: string, d2: DayType)
    requires KeyFor(pk1, s1, d1) == KeyFor(pk2, s2, d2)
    ensures pk1 == pk2 && s1 == s2 && d1 == d2
  {
    PlatformNameNoBar(pk1);
    PlatformNameNoBar(pk2);
    DayNameNoBar(d1);
    DayNameNoBar(d2);
    HeadUnique(PlatformName(pk1), PlatformName(pk2), s1 + "|" + DayName(d1), s2 + "|" + DayName(d2));
    TailUnique(s1, s2, DayName(d1), DayName(d2));
    PlatformNameInjective(pk1, pk2);
    DayNameInjective(d1, d2);
  }

  /** A user override of one cell's gross. */
  datatype Override = Override(gross: real, locked: bool)

  type OverrideMap = map<string, Override>

  /** Everything except key k is as it was. */
  ghost predicate SameElsewhere(m1: OverrideMap, m2: OverrideMap, k: string) {
    forall k' :: k' != k ==> (k' in m1 <==> k' in m2) && (k' in m1 ==> m1[k'] == m2[k'])
  }

  /** setOverride: `Number(text)` is given as None when it is NaN. A NaN or non-positive entry
      changes nothing; otherwise the gross is stored and the lock flag kept, or set for a new key. */
  function WithGross(m: OverrideMap, k: string, g: Option<real>): (r: OverrideMap)
    ensures (g.None? || g.value <= 0.0) ==> r == m
    ensures g.Some? && g.value > 0.0 ==> k in r && r[k].gross == g.value
    ensures g.Some? && g.value > 0.0 ==> (r[k].locked <==> k !in m || m[k].locked)
    ensures SameElsewhere(m, r, k)
  {
    match g
    case None => m
    case Some(v) =>
      if v <= 0.0 then m
      else m[k := Override(v, if k in m then m[k].locked else true)]
  }

  /** toggleLock: the stored gross (or the row's own gross for a new key) with the given flag, or
      the negation of the stored flag (a missing flag counts as unlocked). */
  function WithLock(m: OverrideMap, k: string, rowGross: int, on: Option<bool>): (r: OverrideMap)
    ensures k in r
    ensures r[k].gross == if k in m then m[k].gross else rowGross as real
    ensures on.Some? ==> r[k].locked == on.value
    ensures on.None? ==> (r[k].locked <==> !(k in m && m[k].locked))
    ensures SameElsewhere(m, r, k)
  {
    var gross := if k in m then m[k].gross else rowGross as real;
    var locked := match on case Some(b) => b case None => !(k in m && m[k].locked);
    m[k := Override(gross, locked)]
  }

  /** clearOverride: the key is removed. */
  function Without(m: OverrideMap, k: string): (r: OverrideMap)
    ensures k !in r
    ensures SameElsewhere(m, r, k)
  {
    m - {k}
  }

  /** Toggling twice without a flag restores a stored override. */
  lemma ToggleTwice(m: OverrideMap, k: string, rowGross: int)
    requires k in m
    ensures WithLock(WithLock(m, k, rowGross, None), k, rowGross, None) == m
  {
    var m2 := WithLock(WithLock(m, k, rowGross, None), k, rowGross, None);
    assert m2[k] == m[k];
    assert m2.Keys == m.Keys;
  }

  /** A first toggle on an untouched cell locks it at the row's gross. */
  lemma FirstToggleLocks(m: OverrideMap, k: string, rowGross: int)
    requires k !in m
    ensures WithLock(m, k, rowGross, None)[k] == Override(rowGross as real, true)
  {
  }

  /** One row of the `rows` memo: a row without a locked override is as computed; a locked
      override replaces the gross by its even rounding and recomputes guest price and net with
      the row platform's fees, keeping the rest of the row. */
  function ApplyOverride(ps: Platforms, m: OverrideMap, r: PriceRow): (o: PriceRow)
    ensures KeyOf(r) !in m || !m[KeyOf(r)].locked ==> o == r
    ensures o.season == r.season && o.dayType == r.dayType && o.platform == r.platform && o.dp == r.dp
    ensures KeyOf(r) in m && m[KeyOf(r)].locked ==>
      var f := FractionsOf(Profile(ps, r.platform));
      o.gross == ToEven(m[KeyOf(r)].gross)
      && Prices(o.gross, o.guestPrice, o.net) == FromGross(o.gross, f.guest, f.host, f.vat, f.tax)
  {
    var k := KeyOf(r);
    if k !in m || !m[k].locked then r
    else
      var f := FractionsOf(Profile(ps, r.platform));
      var pr := FromGross(ToEven(m[k].gross), f.guest, f.host, f.vat, f.tax);
      r.(gross := pr.gross, guestPrice := pr.guestPrice, net := pr.net)
  }

  /** The `rows` memo: the price table with the overrides applied, row by row. */
  function ApplyOverrides(ps: Platforms, m: OverrideMap, rows: seq<PriceRow>): (out: seq<PriceRow>)
    ensures |out| == |rows|
    ensures forall i :: 0 <= i < |rows| ==> out[i] == ApplyOverride(ps, m, rows[i])
  {
    if rows == [] then [] else [ApplyOverride(ps, m, rows[0])] + ApplyOverrides(ps, m, rows[1..])
  }

  /** Every applied row has an even gross when the table's rows do. */
  lemma AppliedGrossEven(ps: Platforms, m: OverrideMap, rows: seq<PriceRow>)
    requires forall r :: r in rows ==> IsEven(r.gross)
    ensures forall r :: r in ApplyOverrides(ps, m, rows) ==> IsEven(r.gross)
  {
    var out := ApplyOverrides(ps, m, rows);
    forall r | r in out
      ensures IsEven(r.gross)
    {
      var i :| 0 <= i < |out| && out[i] == r;
      assert r == ApplyOverride(ps, m, rows[i]);
    }
  }

  /** Locking an even gross keeps it exactly (150 stays 150). */
  lemma LockedEvenGrossKept(ps: Platforms, m: OverrideMap, r: PriceRow, g: int)
    requires IsEven(g) && KeyOf(r) in m && m[KeyOf(r)] == Override(g as real, true)
    ensures ApplyOverride(ps, m, r).gross == g
  {
    ToEvenFixesEven(g);
  }

  /** An override of one cell leaves every other cell's row as it was. */
  lemma EditTouchesOnlyItsCell(ps: Platforms, m: OverrideMap, m': OverrideMap, edited: PriceRow, r: PriceRow)
    requires SameElsewhere(m, m', KeyOf(edited))
    requires !(r.platform == edited.platform && r.season == edited.season && r.dayType == edited.dayType)
    ensures ApplyOverride(ps, m', r) == ApplyOverride(ps, m, r)
  {
    if KeyOf(r) == KeyOf(edited) {
      KeyForInjective(r.platform, r.season, r.dayType, edited.platform, edited.season, edited.dayType);
    }
  }

  /** After clearing a cell its row reverts to the computed row. */
  lemma ClearedCellReverts(ps: Platforms, m: OverrideMap, r: PriceRow)
    ensures ApplyOverride(ps, Without(m, KeyOf(r)), r) == r
  {
  }

  /** A valid gross typed into an untouched cell takes effect at once, rounded up to even. */
  lemma NewOverrideTakesEffect(ps: Platforms, m: OverrideMap, r: PriceRow, g: real)
    requires KeyOf(r) !in m && g > 0.0
    ensures ApplyOverride(ps, WithGross(m, KeyOf(r), Some(g)), r).gross == ToEven(g)
  {
  }

  /** The override state of the review step. */
  class OverrideStore {
    var overrides: OverrideMap

    constructor()
      ensures overrides == map[]
    {
      overrides := map[];
    }

    method SetOverride(row: PriceRow, g: Option<real>)
      modifies this
      ensures overrides == WithGross(old(overrides), KeyOf(row), g)
    {
      overrides := WithGross(overrides, KeyOf(row), g);
    }

    method ToggleLock(row: PriceRow, on: Option<bool>)
      modifies this
      ensures overrides == WithLock(old(overrides), KeyOf(row), row.gross, on)
    {
      overrides := WithLock(overrides, KeyOf(row), row.gross, on);
    }

    method ClearOverride(row: PriceRow)
      modifies this
      ensures overrides == Without(old(overrides), KeyOf(row))
    {
      overrides := Without(overrides, KeyOf(row));
    }
  }
}
