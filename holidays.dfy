/** The holiday block: the raw holidays of the active countries are filtered by the
    observed-day setting, grouped by date into one merged entry per date (a chosen
    name, the distinct countries, the largest suggested buffer), sorted by date, and
    then given their per-date buffer (capped) and enabled flag. */
module Holidays {
  import opened Rounding
  import opened Seqs
  import opened Text

  datatype Country = US | UK | DE | NL | SE

  datatype Holiday = Holiday(
    id: string,
    name: string,
    date: string,
    country: Country,
    isObserved: bool,
    suggestBufferDays: int)

  datatype HolidaySettings = HolidaySettings(
    multiplier: real,
    applyToObserved: bool,
    maxBufferDays: int,
    activeCountries: seq<Country>,
    year: int)

  /** The settings the block starts with; the year is read from the clock and is a parameter. */
  function DefaultSettings(year: int): (s: HolidaySettings)
    ensures s.multiplier == 1.4 && s.applyToObserved && s.maxBufferDays == 2 && s.year == year
    ensures NoDuplicates(s.activeCountries)
  {
    HolidaySettings(1.4, true, 2, [US, UK, DE, NL, SE], year)
  }

  /** Every country starts active. */
  lemma DefaultsCoverAllCountries(year: int)
    ensures forall c: Country :: c in DefaultSettings(year).activeCountries
  {
    var cs := DefaultSettings(year).activeCountries;
    forall c: Country
      ensures c in cs
    {
      match c
      case US => assert cs[0] == US;
      case UK => assert cs[1] == UK;
      case DE => assert cs[2] == DE;
      case NL => assert cs[3] == NL;
      case SE => assert cs[4] == SE;
    }
  }

  datatype Merged = Merged(
    date: string,
    name: string,
    countries: seq<Country>,
    enabled: bool,
    buffer: int)

  /** An observed holiday is dropped unless observed days apply. */
  predicate KeptBy(h: Holiday, applyObserved: bool) {
    applyObserved || !h.isObserved
  }

  /** The holidays the grouping keeps, in input order. */
  function Kept(hols: seq<Holiday>, applyObserved: bool): (r: seq<Holiday>)
    ensures |r| <= |hols|
  {
    if hols == [] then []
    else
      var init := hols[..|hols| - 1];
      var h := hols[|hols| - 1];
      assert hols == init + [h];
      if KeptBy(h, applyObserved) then Kept(init, applyObserved) + [h] else Kept(init, applyObserved)
  }

  /** The holidays of one date, in input order. */
  function OnDate(hs: seq<Holiday>, d: string): (r: seq<Holiday>)
    ensures |r| <= |hs|
  {
    if hs == [] then []
    else
      var init := hs[..|hs| - 1];
      var h := hs[|hs| - 1];
      assert hs == init + [h];
      if h.date == d then OnDate(init, d) + [h] else OnDate(init, d)
  }

  /** The kept holidays are exactly the input holidays the setting keeps. */
  lemma {:induction false} KeptMembers(hols: seq<Holiday>, applyObserved: bool)
    ensures forall h :: h in Kept(hols, applyObserved) <==> h in hols && KeptBy(h, applyObserved)
  {
    if hols != [] {
      var init := hols[..|hols| - 1];
      KeptMembers(init, applyObserved);
      assert hols == init + [hols[|hols| - 1]];
    }
  }

  /** The holidays of a date are exactly the holidays with that date. */
  lemma {:induction false} OnDateMembers(hs: seq<Holiday>, d: string)
    ensures forall h :: h in OnDate(hs, d) <==> h in hs && h.date == d
  {
    if hs != [] {
      var init := hs[..|hs| - 1];
      OnDateMembers(init, d);
      assert hs == init + [hs[|hs| - 1]];
    }
  }

  lemma KeptStep(hols: seq<Holiday>, i: int, applyObserved: bool)
    requires 0 <= i < |hols|
    ensures Kept(hols[..i + 1], applyObserved)
         == if KeptBy(hols[i], applyObserved) then Kept(hols[..i], applyObserved) + [hols[i]] else Kept(hols[..i], applyObserved)
  {
    assert hols[..i + 1][..i] == hols[..i];
  }

  lemma OnDateStep(hs: seq<Holiday>, h: Holiday, d: string)
    ensures OnDate(hs + [h], d) == if h.date == d then OnDate(hs, d) + [h] else OnDate(hs, d)
  {
    assert (hs + [h])[..|hs|] == hs;
  }

  /** A date no holiday has has no holidays. */
  lemma {:induction false} OnDateNone(hs: seq<Holiday>, d: string)
    requires forall h :: h in hs ==> h.date != d
    ensures OnDate(hs, d) == []
  {
    if hs != [] {
      var init := hs[..|hs| - 1];
      assert hs == init + [hs[|hs| - 1]];
      OnDateNone(init, d);
    }
  }

  /** The grouping record of `mergeAndDedupe` for the holidays kept so far: its dates, each
      listed once, are its keys; each date maps to exactly its holidays in input order, of which
      there is at least one; and every holiday's date is a key. */
  ghost predicate Grouped(order: seq<string>, groups: map<string, seq<Holiday>>, kept: seq<Holiday>) {
    && NoDuplicates(order)
    && (forall d :: d in groups <==> d in order)
    && (forall d :: d in groups ==> groups[d] == OnDate(kept, d) && groups[d] != [])
    && (forall h :: h in kept ==> h.date in groups)
  }

  /** A holiday whose date already has a group joins the end of that group. */
  lemma GroupedJoin(order: seq<string>, groups: map<string, seq<Holiday>>, kept: seq<Holiday>, h: Holiday)
    requires Grouped(order, groups, kept)
    requires h.date in groups
    ensures Grouped(order, groups[h.date := groups[h.date] + [h]], kept + [h])
  {
    var groups' := groups[h.date := groups[h.date] + [h]];
    forall d | d in groups'
      ensures groups'[d] == OnDate(kept + [h], d)
    {
      OnDateStep(kept, h, d);
    }
  }

  /** A holiday of a date without a group opens a new group, after the others. */
  lemma GroupedOpen(order: seq<string>, groups: map<string, seq<Holiday>>, kept: seq<Holiday>, h: Holiday)
    requires Grouped(order, groups, kept)
    requires h.date !in groups
    ensures Grouped(order + [h.date], groups[h.date := [h]], kept + [h])
  {
    var groups' := groups[h.date := [h]];
    OnDateNone(kept, h.date);
    forall d | d in groups'
      ensures groups'[d] == OnDate(kept + [h], d)
    {
      OnDateStep(kept, h, d);
    }
  }

  /** The dates come in first-appearance order: a date listed before another belongs to a kept
      holiday that precedes every kept holiday of the other. */
  ghost predicate DatesInFirstAppearanceOrder(order: seq<string>, kept: seq<Holiday>) {
    forall i, j :: 0 <= i < j < |order| ==> SeenBefore(kept, order[i], order[j])
  }

  /** Some holiday of date a comes before every holiday of date b. */
  ghost predicate SeenBefore(kept: seq<Holiday>, a: string, b: string) {
    exists k :: 0 <= k < |kept| && kept[k].date == a && forall m :: 0 <= m <= k ==> kept[m].date != b
  }

  /** Joining an existing group leaves the order of the dates as it was. */
  lemma OrderJoin(order: seq<string>, kept: seq<Holiday>, h: Holiday)
    requires DatesInFirstAppearanceOrder(order, kept)
    ensures DatesInFirstAppearanceOrder(order, kept + [h])
  {
    var kept' := kept + [h];
    forall i, j | 0 <= i < j < |order|
      ensures SeenBefore(kept', order[i], order[j])
    {
      var k :| 0 <= k < |kept| && kept[k].date == order[i] && forall m :: 0 <= m <= k ==> kept[m].date != order[j];
      assert kept'[k] == kept[k];
      forall m | 0 <= m <= k
        ensures kept'[m].date != order[j]
      {
        assert kept'[m] == kept[m];
      }
    }
  }

  /** A new date goes after every date seen so far, none of whose holidays has it. */
  lemma OrderOpen(order: seq<string>, groups: map<string, seq<Holiday>>, kept: seq<Holiday>, h: Holiday)
    requires Grouped(order, groups, kept) && DatesInFirstAppearanceOrder(order, kept)
    requires h.date !in groups
    ensures DatesInFirstAppearanceOrder(order + [h.date], kept + [h])
  {
    var order' := order + [h.date];
    var kept' := kept + [h];
    OrderJoin(order, kept, h);
    forall i, j | 0 <= i < j < |order'|
      ensures SeenBefore(kept', order'[i], order'[j])
    {
      if j < |order| {
        assert order'[i] == order[i] && order'[j] == order[j];
      } else {
        var d := order[i];
        assert order'[i] == d && order'[j] == h.date;
        assert d in groups;
        OnDateMembers(kept, d);
        var w := OnDate(kept, d)[0];
        assert w in kept && w.date == d;
        var k :| 0 <= k < |kept| && kept[k] == w;
        assert kept'[k] == w;
        forall m | 0 <= m <= k
          ensures kept'[m].date != h.date
        {
          assert kept'[m] == kept[m] && kept[m] in kept;
        }
      }
    }
  }

  /** One holiday of the `forEach`: pushed onto its date's group, or a new group for a new date. */
  method AddToGroup(order: seq<string>, groups: map<string, seq<Holiday>>, ghost kept: seq<Holiday>, h: Holiday)
    returns (order': seq<string>, groups': map<string, seq<Holiday>>)
    requires Grouped(order, groups, kept) && DatesInFirstAppearanceOrder(order, kept)
    ensures Grouped(order', groups', kept + [h]) && DatesInFirstAppearanceOrder(order', kept + [h])
  {
    if h.date in groups {
      GroupedJoin(order, groups, kept, h);
      OrderJoin(order, kept, h);
      order', groups' := order, groups[h.date := groups[h.date] + [h]];
    } else {
      GroupedOpen(order, groups, kept, h);
      OrderOpen(order, groups, kept, h);
      order', groups' := order + [h.date], groups[h.date := [h]];
    }
  }

  /** The `forEach` of `mergeAndDedupe`: the kept holidays grouped by date. */
  method GroupByDate(hols: seq<Holiday>, applyObserved: bool)
    returns (order: seq<string>, groups: map<string, seq<Holiday>>)
    ensures Grouped(order, groups, Kept(hols, applyObserved))
    ensures DatesInFirstAppearanceOrder(order, Kept(hols, applyObserved))
  {
    order := [];
    groups := map[];
    ghost var kept: seq<Holiday> := [];
    var i := 0;
    while i < |hols|
      invariant 0 <= i <= |hols|
      invariant kept == Kept(hols[..i], applyObserved)
      invariant Grouped(order, groups, kept) && DatesInFirstAppearanceOrder(order, kept)
    {
      order, groups, kept := GroupOne(hols, i, applyObserved, order, groups, kept);
      i := i + 1;
    }
    assert hols[..|hols|] == hols;
  }

  /** One iteration of the `forEach`: an observed holiday is skipped unless observed days apply. */
  method GroupOne(hols: seq<Holiday>, i: int, applyObserved: bool, order: seq<string>,
                  groups: map<string, seq<Holiday>>, ghost kept: seq<Holiday>)
    returns (order': seq<string>, groups': map<string, seq<Holiday>>, ghost kept': seq<Holiday>)
    requires 0 <= i < |hols|
    requires kept == Kept(hols[..i], applyObserved) && Grouped(order, groups, kept)
    requires DatesInFirstAppearanceOrder(order, kept)
    ensures kept' == Kept(hols[..i + 1], applyObserved) && Grouped(order', groups', kept')
    ensures DatesInFirstAppearanceOrder(order', kept')
  {
    var h := hols[i];
    KeptStep(hols, i, applyObserved);
    if applyObserved || !h.isObserved {
      order', groups' := AddToGroup(order, groups, kept, h);
      kept' := kept + [h];
    } else {
      order', groups', kept' := order, groups, kept;
    }
  }

  /** `Math.max` of the suggested buffers of a non-empty list. */
  function MaxBuffer(list: seq<Holiday>): (m: int)
    requires list != []
    ensures forall h :: h in list ==> h.suggestBufferDays <= m
    ensures exists h :: h in list && h.suggestBufferDays == m
  {
    if |list| == 1 then list[0].suggestBufferDays
    else
      var init := list[..|list| - 1];
      var last := list[|list| - 1];
      assert list == init + [last];
      var mi := MaxBuffer(init);
      var w :| w in init && w.suggestBufferDays == mi;
      assert w in list;
      Max(mi, last.suggestBufferDays)
  }

  /** `list.map(h => h.country)`. */
  function CountryColumn(list: seq<Holiday>): (all: seq<Country>)
    ensures |all| == |list|
    ensures forall i :: 0 <= i < |list| ==> all[i] == list[i].country
  {
    seq(|list|, i requires 0 <= i < |list| => list[i].country)
  }

  /** `Array.from(new Set(countries))`: the countries of the list, each once, in first-appearance order. */
  function CountriesOf(list: seq<Holiday>): (cs: seq<Country>)
    ensures NoDuplicates(cs)
    ensures forall h :: h in list ==> h.country in cs
    ensures forall c :: c in cs ==> exists h :: h in list && h.country == c
  {
    var all := CountryColumn(list);
    var cs := Distinct(all);
    assert forall h :: h in list ==> h.country in cs by {
      forall h | h in list
        ensures h.country in cs
      {
        var i :| 0 <= i < |list| && list[i] == h;
        assert all[i] == h.country;
      }
    }
    assert forall c :: c in cs ==> exists h :: h in list && h.country == c by {
      forall c | c in cs
        ensures exists h :: h in list && h.country == c
      {
        var k :| 0 <= k < |cs| && cs[k] == c;
        var i :| 0 <= i < |all| && all[i] == c;
        assert list[i] in list && list[i].country == c;
      }
    }
    cs
  }

  /** Some holiday of country a comes before every holiday of country b. */
  ghost predicate CountrySeenBefore(list: seq<Holiday>, a: Country, b: Country) {
    exists k :: 0 <= k < |list| && list[k].country == a && forall m :: 0 <= m <= k ==> list[m].country != b
  }

  /** The countries come in first-appearance order: a country listed before another belongs to a
      holiday that precedes every holiday of the other. */
  lemma CountriesInFirstAppearanceOrder(list: seq<Holiday>)
    ensures forall i, j :: 0 <= i < j < |CountriesOf(list)| ==>
      CountrySeenBefore(list, CountriesOf(list)[i], CountriesOf(list)[j])
  {
    var all := CountryColumn(list);
    var cs := CountriesOf(list);
    assert cs == Distinct(all);
    DistinctInFirstAppearanceOrder(all);
    forall i, j | 0 <= i < j < |cs|
      ensures CountrySeenBefore(list, cs[i], cs[j])
    {
      ColumnSeenBefore(list, cs[i], cs[j]);
    }
  }

  lemma ColumnSeenBefore(list: seq<Holiday>, a: Country, b: Country)
    requires FirstBefore(CountryColumn(list), a, b)
    ensures CountrySeenBefore(list, a, b)
  {
    var all := CountryColumn(list);
    var k :| 0 <= k < |all| && all[k] == a && b !in all[..k + 1];
    forall m | 0 <= m <= k
      ensures list[m].country != b
    {
      assert all[..k + 1][m] == all[m];
    }
  }

  const Priority: seq<string> := ["christmas", "new year", "easter", "independence", "labor"]

  /** The name mentions a priority keyword, ignoring case. */
  predicate HasPriority(name: string) {
    exists k :: 0 <= k < |Priority| && Contains(Lower(name), Priority[k])
  }

  /** `names.find(...)`, as the position of the first name with a priority keyword. */
  function FirstPriority(names: seq<string>): (r: Option<nat>)
    ensures r.Some? ==> r.value < |names| && HasPriority(names[r.value])
    ensures r.Some? ==> forall j :: 0 <= j < r.value ==> !HasPriority(names[j])
    ensures r.None? ==> forall j :: 0 <= j < |names| ==> !HasPriority(names[j])
  {
    if names == [] then None
    else if HasPriority(names[0]) then Some(0)
    else
      match FirstPriority(names[1..])
      case None => None
      case Some(k) => Some(k + 1)
  }

  /** pickName: the first name with a priority keyword, otherwise the first name; an empty list
      has no name (`names[0]` is undefined). */
  function PickName(names: seq<string>): (r: Option<string>)
    ensures r.None? <==> names == []
    ensures r.Some? ==> r.value in names
  {
    match FirstPriority(names)
    case Some(i) => Some(names[i])
    case None => if names == [] then None else Some(names[0])
  }

  /** The name picked is the first one with a priority keyword. */
  lemma PickNameFirst(names: seq<string>, i: int)
    requires 0 <= i < |names| && HasPriority(names[i])
    requires forall j :: 0 <= j < i ==> !HasPriority(names[j])
    ensures PickName(names) == Some(names[i])
  {
  }

  /** Without any priority keyword, the first name is picked. */
  lemma PickNameFallback(names: seq<string>)
    requires names != []
    requires forall j :: 0 <= j < |names| ==> !HasPriority(names[j])
    ensures PickName(names) == Some(names[0])
  {
  }

  function Names(list: seq<Holiday>): (ns: seq<string>)
    ensures |ns| == |list|
    ensures forall i :: 0 <= i < |list| ==> ns[i] == list[i].name
  {
    seq(|list|, i requires 0 <= i < |list| => list[i].name)
  }

  /** One entry of `Object.entries(map).map(...)`: the date's merged holiday, enabled. */
  function MergeGroup(date: string, list: seq<Holiday>): (m: Merged)
    requires list != []
    ensures m.date == date && m.enabled
  {
    var names := Names(list);
    Merged(date, PickName(names).value, CountriesOf(list), true, MaxBuffer(list))
  }

  /** The merged entry of a date takes its name from one of the date's holidays, lists each of
      their countries once, and has the largest of their suggested buffers. */
  lemma MergeGroupFacts(date: string, list: seq<Holiday>)
    requires list != []
    ensures var m := MergeGroup(date, list);
      && (exists h :: h in list && h.name == m.name)
      && (forall h :: h in list ==> h.suggestBufferDays <= m.buffer)
      && (exists h :: h in list && h.suggestBufferDays == m.buffer)
      && NoDuplicates(m.countries)
      && (forall h :: h in list ==> h.country in m.countries)
      && (forall c :: c in m.countries ==> exists h :: h in list && h.country == c)
  {
    var names := Names(list);
    var name := PickName(names);
    var i :| 0 <= i < |names| && names[i] == name.value;
    assert list[i] in list;
  }

  /** Ascending by date, as `sort((a, b) => a.date.localeCompare(b.date))` leaves them. */
  predicate SortedByDate(s: seq<Merged>) {
    forall i, j :: 0 <= i < j < |s| ==> !StrLess(s[j].date, s[i].date)
  }

  predicate DistinctDates(s: seq<Merged>) {
    forall i, j :: 0 <= i < j < |s| ==> s[i].date != s[j].date
  }

  /** Inserting x before the first entry that is not before it. */
  function InsertByDate(x: Merged, s: seq<Merged>): (r: seq<Merged>)
    ensures multiset(r) == multiset(s) + multiset{x}
  {
    if s == [] || !StrLess(s[0].date, x.date) then [x] + s
    else
      assert s == [s[0]] + s[1..];
      [s[0]] + InsertByDate(x, s[1..])
  }

  /** The date sort: an insertion sort on the ordinal order of the date strings. */
  function SortByDate(s: seq<Merged>): (r: seq<Merged>)
    ensures multiset(r) == multiset(s)
  {
    if s == [] then []
    else
      assert s == [s[0]] + s[1..];
      InsertByDate(s[0], SortByDate(s[1..]))
  }

  /** An element of an insertion is the inserted one or an element of the sequence. */
  lemma InsertedMember(x: Merged, s: seq<Merged>, y: Merged)
    requires y in InsertByDate(x, s)
    ensures y == x || y in s
  {
    assert y in multiset(InsertByDate(x, s));
  }

  /** An element of the tail sits at some index after the head. */
  lemma TailMember(s: seq<Merged>, y: Merged)
    requires s != [] && y in s[1..]
    ensures exists k :: 1 <= k < |s| && s[k] == y
  {
    var k :| 0 <= k < |s[1..]| && s[1..][k] == y;
    assert s[k + 1] == y;
  }

  lemma {:induction false} InsertSorted(x: Merged, s: seq<Merged>)
    requires SortedByDate(s)
    ensures SortedByDate(InsertByDate(x, s))
  {
    var r := InsertByDate(x, s);
    if s == [] || !StrLess(s[0].date, x.date) {
      forall i, j | 0 <= i < j < |r|
        ensures !StrLess(r[j].date, r[i].date)
      {
        if i == 0 {
          assert r[j] == s[j - 1];
          if j > 1 {
            NotAfterTransitive(x.date, s[0].date, s[j - 1].date);
          }
        } else {
          assert r[i] == s[i - 1] && r[j] == s[j - 1];
        }
      }
    } else {
      var rest := InsertByDate(x, s[1..]);
      InsertSorted(x, s[1..]);
      assert r == [s[0]] + rest;
      forall i, j | 0 <= i < j < |r|
        ensures !StrLess(r[j].date, r[i].date)
      {
        if i == 0 {
          InsertedMember(x, s[1..], rest[j - 1]);
          if rest[j - 1] == x {
            StrLessAsymmetric(s[0].date, x.date);
          } else {
            TailMember(s, rest[j - 1]);
          }
        } else {
          assert r[i] == rest[i - 1] && r[j] == rest[j - 1];
        }
      }
    }
  }

  lemma {:induction false} SortSorted(s: seq<Merged>)
    ensures SortedByDate(SortByDate(s))
  {
    if s != [] {
      SortSorted(s[1..]);
      InsertSorted(s[0], SortByDate(s[1..]));
    }
  }

  lemma {:induction false} InsertDistinct(x: Merged, s: seq<Merged>)
    requires DistinctDates(s)
    requires forall y :: y in s ==> y.date != x.date
    ensures DistinctDates(InsertByDate(x, s))
  {
    var r := InsertByDate(x, s);
    if s == [] || !StrLess(s[0].date, x.date) {
      forall i, j | 0 <= i < j < |r|
        ensures r[i].date != r[j].date
      {
        assert r[j] == s[j - 1];
        if i > 0 {
          assert r[i] == s[i - 1];
        }
      }
    } else {
      var rest := InsertByDate(x, s[1..]);
      InsertDistinct(x, s[1..]);
      assert r == [s[0]] + rest;
      forall i, j | 0 <= i < j < |r|
        ensures r[i].date != r[j].date
      {
        if i == 0 {
          InsertedMember(x, s[1..], rest[j - 1]);
          if rest[j - 1] != x {
            TailMember(s, rest[j - 1]);
          }
        } else {
          assert r[i] == rest[i - 1] && r[j] == rest[j - 1];
        }
      }
    }
  }

  lemma {:induction false} SortDistinct(s: seq<Merged>)
    requires DistinctDates(s)
    ensures DistinctDates(SortByDate(s))
  {
    if s != [] {
      var rest := SortByDate(s[1..]);
      assert DistinctDates(s[1..]) by {
        forall i, j | 0 <= i < j < |s[1..]|
          ensures s[1..][i].date != s[1..][j].date
        {
          assert s[1..][i] == s[i + 1] && s[1..][j] == s[j + 1];
        }
      }
      SortDistinct(s[1..]);
      forall y | y in rest
        ensures y.date != s[0].date
      {
        assert y in multiset(s[1..]);
        var k :| 0 <= k < |s[1..]| && s[1..][k] == y;
        assert s[k + 1] == y;
      }
      InsertDistinct(s[0], rest);
    }
  }

  /** Sorted with distinct dates means strictly ascending dates. */
  lemma StrictlyAscending(s: seq<Merged>)
    requires SortedByDate(s) && DistinctDates(s)
    ensures forall i, j :: 0 <= i < j < |s| ==> StrLess(s[i].date, s[j].date)
  {
    forall i, j | 0 <= i < j < |s|
      ensures StrLess(s[i].date, s[j].date)
    {
      StrLessTotal(s[i].date, s[j].date);
    }
  }

  /** m is the merge of exactly the kept holidays of its date, of which there is at least one. */
  ghost predicate MergedFrom(m: Merged, kept: seq<Holiday>) {
    OnDate(kept, m.date) != [] && m == MergeGroup(m.date, OnDate(kept, m.date))
  }

  /** Sorting keeps every entry and gives strictly ascending dates to entries of distinct dates. */
  lemma SortFacts(entries: seq<Merged>)
    requires DistinctDates(entries)
    ensures var out := SortByDate(entries);
      (forall i, j :: 0 <= i < j < |out| ==> StrLess(out[i].date, out[j].date))
      && (forall m :: m in out <==> m in entries)
  {
    var out := SortByDate(entries);
    SortSorted(entries);
    SortDistinct(entries);
    StrictlyAscending(out);
    assert forall m :: m in out <==> m in multiset(entries);
  }

  /** The entries of the record: one per date, in the record's order. */
  ghost predicate EntriesOf(order: seq<string>, groups: map<string, seq<Holiday>>, entries: seq<Merged>) {
    && |entries| == |order|
    && (forall i :: 0 <= i < |order| ==> order[i] in groups && groups[order[i]] != [])
    && (forall i :: 0 <= i < |order| ==> entries[i] == MergeGroup(order[i], groups[order[i]]))
  }

  /** One entry per distinct date: the entries have distinct dates. */
  lemma EntriesDistinct(order: seq<string>, groups: map<string, seq<Holiday>>, entries: seq<Merged>)
    requires NoDuplicates(order)
    requires EntriesOf(order, groups, entries)
    ensures DistinctDates(entries)
  {
    forall i, j | 0 <= i < j < |entries|
      ensures entries[i].date != entries[j].date
    {
      assert entries[i].date == order[i] && entries[j].date == order[j];
    }
  }

  /** Each entry is merged from exactly its date's kept holidays. */
  lemma EntriesMerged(order: seq<string>, groups: map<string, seq<Holiday>>, kept: seq<Holiday>, entries: seq<Merged>)
    requires forall d :: d in groups ==> groups[d] == OnDate(kept, d)
    requires EntriesOf(order, groups, entries)
    ensures forall m :: m in entries ==> MergedFrom(m, kept)
  {
    forall m | m in entries
      ensures MergedFrom(m, kept)
    {
      var i :| 0 <= i < |entries| && entries[i] == m;
      var d := order[i];
      assert d in groups && groups[d] == OnDate(kept, d);
      assert m == MergeGroup(d, groups[d]);
      assert m.date == d;
    }
  }

  /** Every kept holiday's date has an entry. */
  lemma EntriesCover(order: seq<string>, groups: map<string, seq<Holiday>>, kept: seq<Holiday>, entries: seq<Merged>)
    requires forall d :: d in groups ==> d in order
    requires forall h :: h in kept ==> h.date in groups
    requires EntriesOf(order, groups, entries)
    ensures forall h :: h in kept ==> exists m :: m in entries && m.date == h.date
  {
    forall h | h in kept
      ensures exists m :: m in entries && m.date == h.date
    {
      var k :| 0 <= k < |order| && order[k] == h.date;
      assert entries[k] in entries;
    }
  }

  /** What holds of every entry holds of every sorted entry. */
  lemma SortKeepsMerged(entries: seq<Merged>, kept: seq<Holiday>)
    requires DistinctDates(entries)
    requires forall m :: m in entries ==> MergedFrom(m, kept)
    ensures forall i :: 0 <= i < |SortByDate(entries)| ==> MergedFrom(SortByDate(entries)[i], kept)
  {
    SortFacts(entries);
  }

  /** A date that has an entry has a sorted entry. */
  lemma SortKeepsCover(entries: seq<Merged>, kept: seq<Holiday>)
    requires DistinctDates(entries)
    requires forall h :: h in kept ==> exists m :: m in entries && m.date == h.date
    ensures forall h :: h in kept ==> exists i :: 0 <= i < |SortByDate(entries)| && SortByDate(entries)[i].date == h.date
  {
    var out := SortByDate(entries);
    SortFacts(entries);
    forall h | h in kept
      ensures exists i :: 0 <= i < |out| && out[i].date == h.date
    {
      var m :| m in entries && m.date == h.date;
      assert m in out;
      var i :| 0 <= i < |out| && out[i] == m;
    }
  }

  /** The sorted entries of the grouped kept holidays: strictly ascending dates, every kept
      holiday's date present, each entry merged from exactly its date's kept holidays. */
  lemma SortedEntriesFacts(order: seq<string>, groups: map<string, seq<Holiday>>, hols: seq<Holiday>, applyObserved: bool, entries: seq<Merged>, out: seq<Merged>)
    requires Grouped(order, groups, Kept(hols, applyObserved))
    requires EntriesOf(order, groups, entries)
    requires out == SortByDate(entries)
    ensures forall i, j :: 0 <= i < j < |out| ==> StrLess(out[i].date, out[j].date)
    ensures forall h :: h in hols && KeptBy(h, applyObserved) ==> exists i :: 0 <= i < |out| && out[i].date == h.date
    ensures forall i :: 0 <= i < |out| ==> MergedFrom(out[i], Kept(hols, applyObserved))
  {
    var kept := Kept(hols, applyObserved);
    EntriesDistinct(order, groups, entries);
    EntriesMerged(order, groups, kept, entries);
    EntriesCover(order, groups, kept, entries);
    SortFacts(entries);
    SortKeepsMerged(entries, kept);
    SortKeepsCover(entries, kept);
    KeptMembers(hols, applyObserved);
  }

  /** mergeAndDedupe: one entry per date of the kept holidays, each the merge of exactly that
      date's kept holidays, in strictly ascending date order. */
  method MergeAndDedupe(hols: seq<Holiday>, applyObserved: bool) returns (out: seq<Merged>)
    ensures forall i, j :: 0 <= i < j < |out| ==> StrLess(out[i].date, out[j].date)
    ensures forall h :: h in hols && KeptBy(h, applyObserved) ==>
      exists i :: 0 <= i < |out| && out[i].date == h.date
    ensures forall i :: 0 <= i < |out| ==> MergedFrom(out[i], Kept(hols, applyObserved))
  {
    var order, groups := GroupByDate(hols, applyObserved);
    var entries := seq(|order|, i requires 0 <= i < |order| && order[i] in groups && groups[order[i]] != [] =>
      MergeGroup(order[i], groups[order[i]]));
    assert EntriesOf(order, groups, entries);
    out := SortByDate(entries);
    SortedEntriesFacts(order, groups, hols, applyObserved, entries, out);
  }

  /** A merged row after the per-date settings as the code computes them. Its buffer is None
      where the code produces NaN. */
  datatype SettledRow = SettledRow(
    date: string,
    name: string,
    countries: seq<Country>,
    enabled: bool,
    buffer: Option<int>)

  /** The `.map` of `merged` as written: the fallback reads `suggestBufferDays`, a field merged
      rows do not have, so without a per-date buffer `Math.min(undefined, max)` is NaN. */
  function SettleAsWritten(row: Merged, perDateBuffer: map<string, int>, perDateEnabled: map<string, bool>, maxBufferDays: int): (r: SettledRow)
    ensures r.date == row.date && r.name == row.name && r.countries == row.countries
    ensures r.enabled == GetOr(perDateEnabled, row.date, true)
    ensures row.date in perDateBuffer ==> r.buffer.Some? && r.buffer.value <= maxBufferDays
    ensures row.date in perDateBuffer ==> r.buffer.Some? && r.buffer.value <= perDateBuffer[row.date]
    ensures row.date in perDateBuffer ==>
      r.buffer.Some? && (r.buffer.value == maxBufferDays || r.buffer.value == perDateBuffer[row.date])
    ensures row.date !in perDateBuffer ==> r.buffer.None?
  {
    var buffer := if row.date in perDateBuffer then Some(Min(perDateBuffer[row.date], maxBufferDays)) else None;
    SettledRow(row.date, row.name, row.countries, GetOr(perDateEnabled, row.date, true), buffer)
  }

  /** A date the user never touched loses its suggested buffer: Christmas with a suggested buffer
      of 1 and a cap of 2 comes out with no number at all. */
  lemma SettleAsWrittenLosesBuffer()
    ensures var row := Merged("2025-12-25", "Christmas Day", [US, UK], true, 1);
      SettleAsWritten(row, map[], map[], 2).buffer.None?
      && Settle(row, map[], map[], 2).buffer == 1
  {
  }

  /** The `.map` of `merged` as intended: the buffer is the per-date buffer or else the merged
      row's own buffer, capped at the maximum; the flag is the per-date flag or else true. */
  function Settle(row: Merged, perDateBuffer: map<string, int>, perDateEnabled: map<string, bool>, maxBufferDays: int): (r: Merged)
    ensures r.date == row.date && r.name == row.name && r.countries == row.countries
    ensures r.enabled == GetOr(perDateEnabled, row.date, true)
    ensures r.buffer <= maxBufferDays
    ensures row.date in perDateBuffer ==> r.buffer <= perDateBuffer[row.date]
    ensures row.date !in perDateBuffer ==> r.buffer <= row.buffer
    ensures r.buffer == maxBufferDays || r.buffer == GetOr(perDateBuffer, row.date, row.buffer)
  {
    row.(buffer := Min(GetOr(perDateBuffer, row.date, row.buffer), maxBufferDays),
         enabled := GetOr(perDateEnabled, row.date, true))
  }

  /** Settling is idempotent: a settled row settles to itself. */
  lemma SettleIdempotent(row: Merged, perDateBuffer: map<string, int>, perDateEnabled: map<string, bool>, maxBufferDays: int)
    ensures var once := Settle(row, perDateBuffer, perDateEnabled, maxBufferDays);
      Settle(once, perDateBuffer, perDateEnabled, maxBufferDays) == once
  {
  }

  /** An untouched date keeps its suggested buffer when that is within the cap. */
  lemma SettleKeepsSuggestion(row: Merged, perDateEnabled: map<string, bool>, maxBufferDays: int)
    requires row.buffer <= maxBufferDays
    ensures Settle(row, map[], perDateEnabled, maxBufferDays).buffer == row.buffer
  {
  }

  /** The `merged` memo: the merged holidays with their per-date settings, in date order, every
      buffer within the cap, one row for each date of a kept holiday and for no other date. */
  method MergedHolidays(raw: seq<Holiday>, settings: HolidaySettings, perDateBuffer: map<string, int>, perDateEnabled: map<string, bool>)
    returns (rows: seq<Merged>)
    ensures forall i, j :: 0 <= i < j < |rows| ==> StrLess(rows[i].date, rows[j].date)
    ensures forall i :: 0 <= i < |rows| ==> rows[i].buffer <= settings.maxBufferDays
    ensures forall i :: 0 <= i < |rows| ==> rows[i].enabled == GetOr(perDateEnabled, rows[i].date, true)
    ensures forall h :: h in raw && KeptBy(h, settings.applyToObserved) ==>
      exists i :: 0 <= i < |rows| && rows[i].date == h.date
    ensures forall i :: 0 <= i < |rows| ==>
      SettledFrom(rows[i], Kept(raw, settings.applyToObserved), perDateBuffer, perDateEnabled, settings.maxBufferDays)
  {
    var merged := MergeAndDedupe(raw, settings.applyToObserved);
    rows := SettleAll(merged, perDateBuffer, perDateEnabled, settings.maxBufferDays);
    SettleAllFacts(raw, settings, perDateBuffer, perDateEnabled, merged, rows);
  }

  /** The `.map` of `merged`: every row settled. */
  function SettleAll(merged: seq<Merged>, perDateBuffer: map<string, int>, perDateEnabled: map<string, bool>, maxBufferDays: int): (rows: seq<Merged>)
    ensures |rows| == |merged|
    ensures forall i :: 0 <= i < |merged| ==> rows[i] == Settle(merged[i], perDateBuffer, perDateEnabled, maxBufferDays)
  {
    seq(|merged|, i requires 0 <= i < |merged| => Settle(merged[i], perDateBuffer, perDateEnabled, maxBufferDays))
  }

  /** A row is its date's kept holidays merged and then given the per-date settings. */
  ghost predicate SettledFrom(r: Merged, kept: seq<Holiday>, perDateBuffer: map<string, int>,
                              perDateEnabled: map<string, bool>, maxBufferDays: int) {
    OnDate(kept, r.date) != [] &&
    r == Settle(MergeGroup(r.date, OnDate(kept, r.date)), perDateBuffer, perDateEnabled, maxBufferDays)
  }

  /** Settling keeps each row's date, so the order, the coverage and the contents of the merged
      rows carry over. */
  lemma SettleAllFacts(raw: seq<Holiday>, settings: HolidaySettings, perDateBuffer: map<string, int>, perDateEnabled: map<string, bool>,
                       merged: seq<Merged>, rows: seq<Merged>)
    requires forall i, j :: 0 <= i < j < |merged| ==> StrLess(merged[i].date, merged[j].date)
    requires forall h :: h in raw && KeptBy(h, settings.applyToObserved) ==>
      exists i :: 0 <= i < |merged| && merged[i].date == h.date
    requires forall i :: 0 <= i < |merged| ==> MergedFrom(merged[i], Kept(raw, settings.applyToObserved))
    requires rows == SettleAll(merged, perDateBuffer, perDateEnabled, settings.maxBufferDays)
    ensures forall i, j :: 0 <= i < j < |rows| ==> StrLess(rows[i].date, rows[j].date)
    ensures forall i :: 0 <= i < |rows| ==> rows[i].buffer <= settings.maxBufferDays
    ensures forall i :: 0 <= i < |rows| ==> rows[i].enabled == GetOr(perDateEnabled, rows[i].date, true)
    ensures forall h :: h in raw && KeptBy(h, settings.applyToObserved) ==>
      exists i :: 0 <= i < |rows| && rows[i].date == h.date
    ensures forall i :: 0 <= i < |rows| ==>
      SettledFrom(rows[i], Kept(raw, settings.applyToObserved), perDateBuffer, perDateEnabled, settings.maxBufferDays)
  {
    forall i | 0 <= i < |rows|
      ensures SettledFrom(rows[i], Kept(raw, settings.applyToObserved), perDateBuffer, perDateEnabled, settings.maxBufferDays)
    {
      assert rows[i] == Settle(merged[i], perDateBuffer, perDateEnabled, settings.maxBufferDays);
      assert MergedFrom(merged[i], Kept(raw, settings.applyToObserved));
    }
    forall h | h in raw && KeptBy(h, settings.applyToObserved)
      ensures exists i :: 0 <= i < |rows| && rows[i].date == h.date
    {
      var i :| 0 <= i < |merged| && merged[i].date == h.date;
      assert rows[i].date == h.date;
    }
  }
}
