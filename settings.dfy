/** The configuration step: percentage inputs clamped to [0, 100] and rounded to one
    decimal, per-field edits of a platform's fee profile, the comma-separated month lists
    of the seasons, the field labels, and the price preview for a base daily price of 100. */
module Settings {
  import opened Rounding
  import opened Seqs
  import opened Text
  import opened Domain
  import opened Pricing
  import opened PriceTable

  /** The fee profiles the step starts with. */
  const DefaultPlatforms: Platforms := Platforms(
    FeeProfile(14.0, 3.0, 6.0, 15.0, 20.0),
    FeeProfile(0.0, 16.4, 6.0, 15.0, 20.0),
    FeeProfile(12.0, 8.0, 6.0, 15.0, 20.0),
    FeeProfile(10.0, 3.0, 6.0, 15.0, 20.0),
    FeeProfile(0.0, 5.9, 6.0, 15.0, 20.0))

  const DefaultMultipliers: Multipliers := Multipliers(1.0, 1.2, 1.4)

  /** pctInput: below 0 gives 0, above 100 gives 100, otherwise `Math.round(val * 10) / 10`. */
  function PctInput(val: real): (r: real)
    ensures 0.0 <= r <= 100.0
    ensures val < 0.0 ==> r == 0.0
    ensures val > 100.0 ==> r == 100.0
    ensures 0.0 <= val <= 100.0 ==> val - 0.05 < r <= val + 0.05
    ensures 0.0 <= val <= 100.0 ==> r == Round(val * 10.0) as real / 10.0
  {
    if val < 0.0 then 0.0
    else if val > 100.0 then 100.0
    else
      var k := Round(val * 10.0);
      assert 0 <= k <= 1000;
      k as real / 10.0
  }

  /** A value already on the one-decimal grid of [0, 100] is kept: entering it again changes
      nothing. */
  lemma PctInputIdempotent(val: real)
    ensures PctInput(PctInput(val)) == PctInput(val)
  {
    var r := PctInput(val);
    var k := if val < 0.0 then 0 else if val > 100.0 then 1000 else Round(val * 10.0);
    assert r == k as real / 10.0;
    assert r * 10.0 == k as real;
    RoundOfInt(k);
  }

  /** The `type="number"` field handler: `Number(text)` is None when it is NaN, and NaN passes
      through pctInput (every comparison with NaN is false, and rounding NaN is NaN). */
  function PctInputOf(num: Option<real>): (r: Option<real>)
    ensures num.None? <==> r.None?
    ensures r.Some? ==> 0.0 <= r.value <= 100.0 && r.value == PctInput(num.value)
  {
    match num
    case None => None
    case Some(v) => Some(PctInput(v))
  }

  /** The five editable fields of a fee profile. */
  datatype Field = GuestFee | HostCommission | Vat | IncomeTax | DiscountPadding

  /** The profile's property name of a field. */
  function FieldName(f: Field): string {
    match f
    case GuestFee => "guestFeePct"
    case HostCommission => "hostCommissionPct"
    case Vat => "vatPct"
    case IncomeTax => "incomeTaxPct"
    case DiscountPadding => "discountPaddingPct"
  }

  /** `p[field]` */
  function FieldOf(p: FeeProfile, f: Field): real {
    match f
    case GuestFee => p.guestFeePct
    case HostCommission => p.hostCommissionPct
    case Vat => p.vatPct
    case IncomeTax => p.incomeTaxPct
    case DiscountPadding => p.discountPaddingPct
  }

  /** `{ ...p, [field]: v }` */
  function WithField(p: FeeProfile, f: Field, v: real): (r: FeeProfile)
    ensures FieldOf(r, f) == v
    ensures forall g :: g != f ==> FieldOf(r, g) == FieldOf(p, g)
  {
    match f
    case GuestFee => p.(guestFeePct := v)
    case HostCommission => p.(hostCommissionPct := v)
    case Vat => p.(vatPct := v)
    case IncomeTax => p.(incomeTaxPct := v)
    case DiscountPadding => p.(discountPaddingPct := v)
  }

  /** `{ ...platforms, [pk]: p }` */
  function WithProfile(ps: Platforms, pk: PlatformKey, p: FeeProfile): (r: Platforms)
    ensures Profile(r, pk) == p
    ensures forall q :: q != pk ==> Profile(r, q) == Profile(ps, q)
  {
    match pk
    case Airbnb => ps.(airbnb := p)
    case Booking => ps.(booking := p)
    case Vrbo => ps.(vrbo := p)
    case Website => ps.(website := p)
    case DTravel => ps.(dtravel := p)
  }

  /** updatePlatform: a NaN entry changes nothing; otherwise the one field of the one platform
      takes the number, and every other field of every platform is as it was. */
  function UpdatePlatform(ps: Platforms, pk: PlatformKey, f: Field, num: Option<real>): (r: Platforms)
    ensures num.None? ==> r == ps
    ensures num.Some? ==> FieldOf(Profile(r, pk), f) == num.value
    ensures forall q, g :: q != pk || g != f ==> FieldOf(Profile(r, q), g) == FieldOf(Profile(ps, q), g)
  {
    match num
    case None => ps
    case Some(v) => WithProfile(ps, pk, WithField(Profile(ps, pk), f, v))
  }

  /** Every percentage of every platform is within [0, 100]. */
  predicate PercentagesInRange(ps: Platforms) {
    forall q, g :: 0.0 <= FieldOf(Profile(ps, q), g) <= 100.0
  }

  /** The defaults are percentages in range. */
  lemma DefaultsInRange()
    ensures PercentagesInRange(DefaultPlatforms)
  {
    forall q, g
      ensures 0.0 <= FieldOf(Profile(DefaultPlatforms, q), g) <= 100.0
    {
      match q {
        case Airbnb =>
        case Booking =>
        case Vrbo =>
        case Website =>
        case DTravel =>
      }
    }
  }

  /** Editing a field through its input (pctInput, then updatePlatform) keeps every percentage of
      every platform in range. */
  lemma FieldEditKeepsRange(ps: Platforms, pk: PlatformKey, f: Field, num: Option<real>)
    requires PercentagesInRange(ps)
    ensures PercentagesInRange(UpdatePlatform(ps, pk, f, PctInputOf(num)))
  {
    var r := UpdatePlatform(ps, pk, f, PctInputOf(num));
    forall q, g
      ensures 0.0 <= FieldOf(Profile(r, q), g) <= 100.0
    {
      if q != pk || g != f {
        assert FieldOf(Profile(r, q), g) == FieldOf(Profile(ps, q), g);
      }
    }
  }

  /** Writing back the value a field already holds changes nothing. */
  lemma UpdateWithSameValue(ps: Platforms, pk: PlatformKey, f: Field)
    ensures UpdatePlatform(ps, pk, f, Some(FieldOf(Profile(ps, pk), f))) == ps
  {
    match pk {
      case Airbnb =>
      case Booking =>
      case Vrbo =>
      case Website =>
      case DTravel =>
    }
    match f {
      case GuestFee =>
      case HostCommission =>
      case Vat =>
      case IncomeTax =>
      case DiscountPadding =>
    }
  }

  /** labelForField: the label of a known property name, the name itself otherwise. */
  function LabelForField(name: string): (shown: string)
    ensures name == "guestFeePct" ==> shown == "Guest Service Fee %"
    ensures name == "hostCommissionPct" ==> shown == "Host Commission %"
    ensures name == "vatPct" ==> shown == "VAT %"
    ensures name == "incomeTaxPct" ==> shown == "Income Tax %"
    ensures name == "discountPaddingPct" ==> shown == "Padding for Discounts %"
    ensures (forall f :: name != FieldName(f)) ==> shown == name
  {
    if name == FieldName(GuestFee) then "Guest Service Fee %"
    else if name == FieldName(HostCommission) then "Host Commission %"
    else if name == FieldName(Vat) then "VAT %"
    else if name == FieldName(IncomeTax) then "Income Tax %"
    else if name == FieldName(DiscountPadding) then "Padding for Discounts %"
    else name
  }

  /** Each editable field has a label of its own, different from its property name, ending in
      a percent sign. */
  lemma FieldLabelsDistinct(f: Field, g: Field)
    ensures LabelForField(FieldName(f)) != FieldName(f)
    ensures LabelForField(FieldName(f)) != [] && LabelForField(FieldName(f))[|LabelForField(FieldName(f))| - 1] == '%'
    ensures LabelForField(FieldName(f)) == LabelForField(FieldName(g)) ==> f == g
  {
  }

  /** The parts of the input that are not empty, in order (`filter(Boolean)`). */
  function NonEmpty(parts: seq<string>): (r: seq<string>)
    ensures forall i :: 0 <= i < |r| ==> r[i] != [] && r[i] in parts
    ensures (forall i :: 0 <= i < |parts| ==> parts[i] != []) ==> r == parts
  {
    if parts == [] then []
    else (if parts[0] == [] then [] else [parts[0]]) + NonEmpty(parts[1..])
  }

  /** The filter distributes over concatenation: the non-empty parts of a + b are those of a
      followed by those of b. */
  lemma {:induction false} NonEmptyAppend(a: seq<string>, b: seq<string>)
    ensures NonEmpty(a + b) == NonEmpty(a) + NonEmpty(b)
  {
    if a == [] {
      assert a + b == b;
    } else {
      var x, tail := a[0], a[1..];
      var head: seq<string> := if x == [] then [] else [x];
      assert a == [x] + tail;
      assert a + b == [x] + (tail + b);
      calc {
        NonEmpty(a + b);
        { NonEmptyCons(x, tail + b); }
        head + NonEmpty(tail + b);
        { NonEmptyAppend(tail, b); }
        head + (NonEmpty(tail) + NonEmpty(b));
        (head + NonEmpty(tail)) + NonEmpty(b);
        { NonEmptyCons(x, tail); }
        NonEmpty(a) + NonEmpty(b);
      }
    }
  }

  lemma NonEmptyCons(x: string, rest: seq<string>)
    ensures NonEmpty([x] + rest) == (if x == [] then [] else [x]) + NonEmpty(rest)
  {
    assert ([x] + rest)[1..] == rest;
  }

  /** One part is kept exactly when it is not empty. */
  lemma NonEmptySingle(part: string)
    ensures NonEmpty([part]) == if part == [] then [] else [part]
  {
    assert [part][1..] == [];
  }

  /** `map((s) => s.trim())` */
  function TrimAll(parts: seq<string>): (r: seq<string>)
    ensures |r| == |parts|
    ensures forall i :: 0 <= i < |parts| ==> r[i] == Trim(parts[i])
  {
    seq(|parts|, i requires 0 <= i < |parts| => Trim(parts[i]))
  }

  /** A month token as the input leaves it: no outer whitespace and no comma. */
  predicate Clean(t: string) {
    IsTrimmed(t) && ',' !in t
  }

  /** Trimming parts that hold no comma gives clean tokens. */
  lemma TrimAllClean(parts: seq<string>)
    requires forall i :: 0 <= i < |parts| ==> ',' !in parts[i]
    ensures forall i :: 0 <= i < |parts| ==> Clean(TrimAll(parts)[i])
  {
    forall i | 0 <= i < |parts|
      ensures Clean(TrimAll(parts)[i])
    {
      assert ',' !in parts[i];
    }
  }

  /** Dropping the empty parts keeps only parts, so clean parts stay clean. */
  lemma {:induction false} NonEmptyClean(parts: seq<string>)
    requires forall i :: 0 <= i < |parts| ==> Clean(parts[i])
    ensures forall i :: 0 <= i < |NonEmpty(parts)| ==> Clean(NonEmpty(parts)[i])
  {
    if parts != [] {
      NonEmptyClean(parts[1..]);
      var head: seq<string> := if parts[0] == [] then [] else [parts[0]];
      assert NonEmpty(parts) == head + NonEmpty(parts[1..]);
    }
  }

  /** The month-list input of a season: split at commas, each part trimmed, empty parts dropped. */
  function ParseMonthList(text: string): (tokens: seq<string>)
    ensures forall i :: 0 <= i < |tokens| ==> tokens[i] != [] && Clean(tokens[i])
  {
    var parts := Split(text, ',');
    TrimAllClean(parts);
    NonEmptyClean(TrimAll(parts));
    NonEmpty(TrimAll(parts))
  }

  /** A blank part between two months is dropped and the months keep their order. */
  lemma NonEmptyDropsBlank()
    ensures NonEmpty(["Jan", "", "Feb"]) == ["Jan", "Feb"]
  {
    var trimmed: seq<string> := ["Jan", "", "Feb"];
    var rest, last: seq<string> := ["", "Feb"], ["Feb"];
    assert trimmed[1..] == rest && rest[1..] == last && last[1..] == [];
    assert NonEmpty(last) == ["Feb"];
    assert NonEmpty(rest) == ["Feb"];
  }

  /** The season's months after an edit of its input; every other season keeps its list. */
  function EditMonths(months: map<string, seq<string>>, season: string, text: string): (r: map<string, seq<string>>)
    ensures season in r && r[season] == ParseMonthList(text)
    ensures forall t :: t != season ==> (t in r <==> t in months) && (t in months ==> r[t] == months[t])
  {
    months[season := ParseMonthList(text)]
  }

  /** Tokens that are trimmed, non-empty and comma-free. */
  predicate CleanTokens(ts: seq<string>) {
    forall i :: 0 <= i < |ts| ==> ts[i] != [] && Clean(ts[i])
  }

  /** Each token with a leading blank, as `join(', ')` writes all but the first. */
  function Blanked(ts: seq<string>): (r: seq<string>)
    ensures |r| == |ts|
    ensures forall i :: 0 <= i < |ts| ==> r[i] == [' '] + ts[i]
  {
    seq(|ts|, i requires 0 <= i < |ts| => [' '] + ts[i])
  }

  /** Prefixing a join prefixes its first piece. */
  lemma JoinPrefix(s: string, xs: seq<string>, sep: string)
    requires xs != []
    ensures s + Join(xs, sep) == Join([s + xs[0]] + xs[1..], sep)
  {
    var ys := [s + xs[0]] + xs[1..];
    assert ys[1..] == xs[1..];
    if |xs| > 1 {
      assert s + (xs[0] + sep + Join(xs[1..], sep)) == (s + xs[0]) + sep + Join(xs[1..], sep);
    }
  }

  /** Joining with ", " is joining with "," after blanking all but the first piece. */
  lemma {:induction false} JoinCommaBlank(h: string, rest: seq<string>)
    ensures Join([h] + rest, ", ") == Join([h] + Blanked(rest), ",")
    decreases |rest|
  {
    if rest != [] {
      JoinCommaBlank(rest[0], rest[1..]);
      assert [rest[0]] + rest[1..] == rest;
      assert ([h] + rest)[1..] == rest;
      var b := Blanked(rest);
      assert Blanked(rest[1..]) == b[1..];
      JoinPrefix(" ", [rest[0]] + Blanked(rest[1..]), ",");
      assert [" " + rest[0]] + Blanked(rest[1..]) == b;
      assert ([h] + b)[1..] == b;
      calc {
        Join([h] + rest, ", ");
        h + ", " + Join(rest, ", ");
        h + "," + (" " + Join([rest[0]] + Blanked(rest[1..]), ","));
        h + "," + Join(b, ",");
        Join([h] + b, ",");
      }
    }
  }

  /** Trimming the pieces of a joined-and-split list of clean tokens gives the tokens back. */
  lemma TrimBlanked(h: string, rest: seq<string>)
    requires CleanTokens([h] + rest)
    ensures TrimAll([h] + Blanked(rest)) == [h] + rest
  {
    var ts := [h] + rest;
    var bs := [h] + Blanked(rest);
    assert ts[0] == h;
    TrimTrimmed(h);
    forall i | 1 <= i < |bs|
      ensures Trim(bs[i]) == ts[i]
    {
      assert ts[i] == rest[i - 1];
      assert bs[i] == [' '] + rest[i - 1];
      TrimLeadingBlank(rest[i - 1]);
    }
  }

  /** A season's month list, shown joined by ", " and read back unchanged, is the same list:
      showing and parsing are inverse for trimmed, non-empty, comma-free tokens. */
  lemma MonthListRoundTrip(ts: seq<string>)
    requires CleanTokens(ts)
    ensures ParseMonthList(Join(ts, ", ")) == ts
  {
    if ts == [] {
      assert Split("", ',') == [""];
      assert Trim("") == "";
    } else {
      var h := ts[0];
      var rest := ts[1..];
      assert [h] + rest == ts;
      JoinCommaBlank(h, rest);
      var bs := [h] + Blanked(rest);
      forall i | 0 <= i < |bs|
        ensures ',' !in bs[i]
      {
        if i > 0 {
          assert bs[i] == [' '] + rest[i - 1];
        }
      }
      SplitJoin(bs, ',');
      assert "," == [','];
      TrimBlanked(h, rest);
    }
  }

  /** The day-type multiplier of the preview: all three from the seasonality multipliers. */
  function PreviewMultiplier(mults: Multipliers, d: DayType): real {
    match d
    case Weekday => mults.weekday
    case Weekend => mults.weekend
    case Holiday => mults.holiday
  }

  /** The preview's arithmetic at a base daily price of 100, from the profile's percentages
      and the day type's multiplier. */
  function PreviewPrices(guestPct: real, hostPct: real, vatPct: real, taxPct: real, padPct: real, mult: real): (r: Prices)
    ensures IsEven(r.gross)
  {
    var pad := 1.0 + padPct / 100.0;
    var base := 100.0 * pad * mult;
    var gross := ToEven(base);
    var guestPrice := Ceil(gross as real * (1.0 + guestPct / 100.0));
    var net := Ceil(gross as real * (1.0 - hostPct / 100.0) * (1.0 - vatPct / 100.0) * (1.0 - taxPct / 100.0));
    Prices(gross, guestPrice, net)
  }

  /** preview: the prices of the active platform and day type for a base daily price of 100. */
  function Preview(ps: Platforms, mults: Multipliers, pk: PlatformKey, d: DayType): (r: Prices)
    ensures IsEven(r.gross)
  {
    var p := Profile(ps, pk);
    PreviewPrices(p.guestFeePct, p.hostCommissionPct, p.vatPct, p.incomeTaxPct, p.discountPaddingPct,
      PreviewMultiplier(mults, d))
  }

  // The two lemmas below restate single components of PreviewPrices and ForwardPrices as
  // facts about their arguments, so that PreviewPricesIsForward compares like with like.

  lemma PreviewGross(guestPct: real, hostPct: real, vatPct: real, taxPct: real, padPct: real, mult: real)
    ensures PreviewPrices(guestPct, hostPct, vatPct, taxPct, padPct, mult).gross
      == ToEven(100.0 * (1.0 + padPct / 100.0) * mult)
  {
  }

  lemma PreviewGuest(guestPct: real, hostPct: real, vatPct: real, taxPct: real, padPct: real, mult: real, gross: int)
    requires gross == PreviewPrices(guestPct, hostPct, vatPct, taxPct, padPct, mult).gross
    ensures PreviewPrices(guestPct, hostPct, vatPct, taxPct, padPct, mult).guestPrice
      == GuestPrice(gross, guestPct / 100.0)
  {
  }

  /** The preview's net multiplies the same three shares as NetIncome, in another order. */
  lemma PreviewNet(guestPct: real, hostPct: real, vatPct: real, taxPct: real, padPct: real, mult: real, gross: int)
    requires gross == PreviewPrices(guestPct, hostPct, vatPct, taxPct, padPct, mult).gross
    ensures PreviewPrices(guestPct, hostPct, vatPct, taxPct, padPct, mult).net
      == NetIncome(gross, hostPct / 100.0, vatPct / 100.0, taxPct / 100.0)
  {
    var g := gross as real;
    var a, b, c := 1.0 - hostPct / 100.0, 1.0 - vatPct / 100.0, 1.0 - taxPct / 100.0;
    assert g * a * b * c == g * a * c * b;
  }

  /** The preview's arithmetic is the table's forward computation at DP = 100. */
  lemma PreviewPricesIsForward(guestPct: real, hostPct: real, vatPct: real, taxPct: real, padPct: real, mult: real)
    ensures PreviewPrices(guestPct, hostPct, vatPct, taxPct, padPct, mult)
      == ForwardPrices(100.0, guestPct / 100.0, hostPct / 100.0, vatPct / 100.0, taxPct / 100.0, 1.0 + padPct / 100.0, mult)
  {
    var gross := PreviewPrices(guestPct, hostPct, vatPct, taxPct, padPct, mult).gross;
    PreviewGross(guestPct, hostPct, vatPct, taxPct, padPct, mult);
    PreviewGuest(guestPct, hostPct, vatPct, taxPct, padPct, mult, gross);
    PreviewNet(guestPct, hostPct, vatPct, taxPct, padPct, mult, gross);
    ForwardUnfold(100.0, guestPct / 100.0, hostPct / 100.0, vatPct / 100.0, taxPct / 100.0, 1.0 + padPct / 100.0, mult);
  }

  /** The preview is the table's forward computation at DP = 100 with the preview's multiplier:
      the same even gross, guest price and net. */
  lemma PreviewIsForward(ps: Platforms, mults: Multipliers, pk: PlatformKey, d: DayType, f: Fractions)
    requires f == FractionsOf(Profile(ps, pk))
    ensures Preview(ps, mults, pk, d) == ForwardPrices(100.0, f.guest, f.host, f.vat, f.tax, f.pad, PreviewMultiplier(mults, d))
  {
    var p := Profile(ps, pk);
    PreviewPricesIsForward(p.guestFeePct, p.hostCommissionPct, p.vatPct, p.incomeTaxPct, p.discountPaddingPct,
      PreviewMultiplier(mults, d));
  }

  /** For weekdays and weekends the preview multiplies like the table; for holidays the preview
      takes the seasonality multiplier while the table takes the holiday settings' multiplier. */
  lemma PreviewMultiplierAgainstTable(cfg: TableConfig, d: DayType)
    ensures d != Holiday ==> PreviewMultiplier(cfg.mults, d) == MultiplierFor(cfg, d)
    ensures PreviewMultiplier(cfg.mults, Holiday) == cfg.mults.holiday
    ensures MultiplierFor(cfg, Holiday) == GetOrDefault(cfg.holidayMult, DefaultHolidayMultiplier)
  {
  }

  /** With the default Airbnb fees and holiday multiplier 1.4 the preview shows a holiday gross of
      168, while holiday settings with multiplier 2.0 make the table's gross for the same DP 240. */
  lemma HolidayPreviewDiverges()
    ensures Preview(DefaultPlatforms, DefaultMultipliers, Airbnb, Holiday).gross == 168
    ensures var f := FractionsOf(Profile(DefaultPlatforms, Airbnb));
      ForwardPrices(100.0, f.guest, f.host, f.vat, f.tax, f.pad, 2.0).gross == 240
  {
    var p := Profile(DefaultPlatforms, Airbnb);
    var f := FractionsOf(p);
    assert f.pad == 1.2;
    PreviewGross(p.guestFeePct, p.hostCommissionPct, p.vatPct, p.incomeTaxPct, p.discountPaddingPct, 1.4);
    ForwardUnfold(100.0, f.guest, f.host, f.vat, f.tax, f.pad, 2.0);
    assert 100.0 * f.pad * 1.4 == 168.0;
    assert 100.0 * f.pad * 2.0 == 240.0;
    RoundOfInt(168);
    RoundOfInt(240);
  }
}
