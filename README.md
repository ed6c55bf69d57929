# Dynamic pricing engine — a verified Dafny model

This project models the pricing derivation engine of a short-term-rental pricing wizard.
The wizard is a React application. Its engine is spread over four components:

- **Allocation and pricing chain** (`components/Step3.tsx`).
  - Season day counts come from the month lists of the seasons, and are leap-year aware.
  - Booked nights per season come from one of three occupancy modes: per year, per season or per month.
  - Each season's nights are split into weekday, weekend and holiday nights.
  - A yearly or monthly net-income goal is allocated to seasons, and then to a per-night net target for each day type.
  - Each target is inverted through a platform's fee stack to a daily price (DP). The stack is host commission, VAT and income tax, plus padding and a day-type multiplier.
  - The DP is priced forward to an even gross rate, a guest price and a net.
  - The result is the price table: one row per season, day type and platform.
- **Review step** (`components/Step4.tsx`).
  - A keyed override map with set, lock-toggle and clear operations.
  - Locked gross rates are substituted, and the guest price and net are recomputed from them.
  - Per-season and grand revenue totals for one platform.
  - The CSV export text.
- **Holiday block** (`components/HolidaysBlock.tsx`).
  - Observed days are filtered out, and the remaining holidays are grouped by date.
  - Each date gets one entry: a chosen name, its distinct countries and its largest suggested buffer.
  - Entries are sorted by date, then given their capped per-date buffer and enabled flag.
- **Configuration step** (`components/Step2.tsx`).
  - Percentage inputs are clamped and rounded.
  - A single field of a single platform can be edited.
  - Month lists are entered as comma-separated text.
  - Field labels are shown for each input.
  - A price preview is shown for a base daily price of 100.

Numbers are exact: percentages, fractions and multipliers are `real`, and prices and night counts are `int`.
`Math.round` is `floor(x + 0.5)`, `Math.ceil` and `Math.floor` are the real ceiling and floor, and `toEven` rounds and then moves an odd result up by one.
The two JavaScript defaulting operators are modelled separately:
- `x || d` on a number replaces a missing value or 0 (`Seqs.IntOr`, `Seqs.RealOr`);
- `x ?? d` replaces only a missing value (`Seqs.GetOr`).

Where the source tests for NaN explicitly, `Number(text)` is an `Option`, and `None` stands for NaN.

Each memo body that fills a record or an array in a loop is a method with a `while` loop.
Each such method is proved against a function that states the result for one season, row or date.
The override map of the review step is a class, `Overrides.OverrideStore`. Its methods are specified by pure map transitions, and those transitions carry the lemmas.

One module per concern:

| module | file | models |
|---|---|---|
| `Rounding` | rounding.dfy | `Math.round`, `Math.ceil`, `Math.floor`, `toEven`/`roundToEven`, `up`/`roundUp` |
| `Text` | text.dfy | `split`, `join`, `trim`, lower-casing, `includes`, string order, `String(n)`/`Number(s)` |
| `Seqs` | seqs.dfy | `Array.from(new Set(..))`, record lookups with `??` and `||`, sums over records |
| `Domain` | domain.dfy | day types, platform keys, fee profiles, price rows, night counts, `labelFor` |
| `Pricing` | pricing.dfy | `invGross`, `deriveDP`, `forwardPrices` |
| `Calendar` | calendar.dfy | `isLeap`, `daysOfMonth`, the `seasonDays` memo |
| `Occupancy` | occupancy.dfy | the `bookedNightsBySeason` and `nightsBySeasonDay` memos |
| `NetTargets` | nettargets.dfy | the `seasonNetTarget` and `perNightNetTarget` memos |
| `PriceTable` | pricetable.dfy | the `priceTable` memo and the preview card's row lookup |
| `Overrides` | overrides.dfy | `keyFor`, the `rows` memo, `setOverride`, `toggleLock`, `clearOverride` |
| `Totals` | totals.dfy | `scopedRows` and the `scopedTotals` memo |
| `CsvExport` | csv.dfy | the lines and text of `exportCSV` |
| `Holidays` | holidays.dfy | `mergeAndDedupe`, `pickName`, the `merged` memo |
| `Settings` | settings.dfy | `pctInput`, `updatePlatform`, the month-list input, `labelForField`, the preview |

### Splitting a season's nights does not always conserve them

One might expect the day-type split to conserve a season's nights for any booking split.
At `components/Step3.tsx:129-131` it does not: the weekday and weekend buckets are rounded first, and the holiday bucket is only the remainder clamped at zero.
When the two rounded buckets already exceed the season total, the three buckets add up to more than the total.
The model follows the code:
- `Occupancy.SplitConservesIff` states exactly when the total is conserved;
- `Occupancy.SplitOverCounts` shows one night split 0.5 / 0.5 coming out as two nights;
- `Occupancy.SplitConservesWithSlack` and `Occupancy.DefaultSplitConservesLarge` give conditions under which the total is conserved.

## Model

All paths are relative to the repository root.

| member | source | states |
|---|---|---|
| Rounding.Round | components/Step3.tsx:8 | `Math.round`: the result is within half a unit of x, and halves round up |
| Rounding.Ceil | components/Step3.tsx:11-13 | `up`: the least integer not below x |
| Rounding.Floor | components/Step3.tsx:162 | `Math.floor`: the greatest integer not above x |
| Rounding.ToEven | components/Step3.tsx:7-10 | `toEven` always returns an even integer. It is round(x), or round(x)+1 when that is odd, so it lies in (x-0.5, x+1.5] |
| Rounding.ToEvenFixesEven | components/Step4.tsx:252-255 | toEven is the identity on even integers |
| Rounding.ToEvenIdempotent | components/Step2.tsx:305-308 | applying roundToEven a second time changes nothing |
| Text.Split | components/Step2.tsx:174 | split always yields at least one piece, and no piece contains the separator |
| Text.SplitJoin | components/Step4.tsx:108-110 | pieces without the separator, joined by it and split again, are the same pieces (split inverts join) |
| Text.JoinAvoids | components/Step4.tsx:108-110 | a character absent from the pieces and from the separator is absent from their join |
| Text.Trim | components/Step2.tsx:174 | trim leaves no whitespace at either end and adds no character |
| Text.TrimKeepsInner | components/Step2.tsx:174 | the trimmed string is a slice of the input with only whitespace before and after it, so trim removes outer whitespace and nothing else |
| Text.TrimTrimmed | components/Step2.tsx:174 | trimming an already trimmed string changes nothing |
| Text.TrimLeadingBlank | components/Step2.tsx:172-174 | the blank that `join(', ')` puts before a token is removed by trim |
| Text.Lower | components/HolidaysBlock.tsx:211 | lower-casing keeps the length and maps each character separately |
| Text.StrLessIrreflexive | components/HolidaysBlock.tsx:206 | no date string sorts before itself |
| Text.StrLessTotal | components/HolidaysBlock.tsx:206 | of two different date strings, one sorts before the other |
| Text.StrLessAsymmetric | components/HolidaysBlock.tsx:206 | two strings never sort before each other |
| Text.StrLessTransitive | components/HolidaysBlock.tsx:206 | the date order is transitive |
| Text.NotAfterTransitive | components/HolidaysBlock.tsx:206 | "not after" is transitive, which is what sorting by the comparator relies on |
| Text.IntToString | components/Step4.tsx:100-108 | a rendered integer uses only '-' and the decimal digits |
| Text.IntToStringRoundTrip | components/Step4.tsx:100-108 | reading back an exported integer gives the same integer |
| Seqs.Distinct | components/HolidaysBlock.tsx:203 | `Array.from(new Set(xs))` has no duplicates, contains every element of xs, and contains only elements of xs |
| Seqs.DistinctInFirstAppearanceOrder | components/HolidaysBlock.tsx:203 | the distinct elements keep first-appearance order: of two listed elements, the earlier one occurs in xs before the later one first occurs |
| Seqs.DistinctOfDistinct | components/HolidaysBlock.tsx:203 | a duplicate-free list is unchanged by the de-duplication |
| Seqs.GetOr | components/HolidaysBlock.tsx:52-53 | `m[k] ?? d` gives the stored value when the key is present, and d otherwise |
| Seqs.IntOr | components/Step3.tsx:128 | `m[k] \|\| d` gives d when the key is missing or holds 0, and the stored value otherwise |
| Seqs.RealOr | components/Step3.tsx:155 | the same defaulting on a record of reals |
| Seqs.SumOverNonNegative | components/Step3.tsx:141 | the total of non-negative booked nights is non-negative |
| Seqs.SumValuesRemove | components/Step3.tsx:141 | the sum of a record's values does not depend on which key is taken first |
| Seqs.SumOverAllKeys | components/Step3.tsx:141 | summing over a duplicate-free list of exactly a record's keys gives the sum of all its values |
| Seqs.SumOverAgree | components/Step3.tsx:141 | two records that agree on a list of keys have the same sum over it |
| Seqs.SumRecord | components/Step3.tsx:100 | `Object.values(m).reduce((a, b) => a + b, 0)` computes the sum of all values of the record |
| Domain.LabelFor | components/Step4.tsx:262-272 | each platform gets its label: "Airbnb", "Booking.com", "VRBO", "My Website" and "DTravel"; every label is non-empty and holds no ',' or line break |
| Pricing.FractionsOf | components/Step3.tsx:181-185 | the percentages become fractions, and a non-negative padding gives a pad factor of at least 1 |
| Pricing.InvGross | components/Step3.tsx:14-17 | unless the 0.0001 floor is active, the gross times the kept share is exactly the target; a non-negative target gives a non-negative gross |
| Pricing.DeriveDP | components/Step3.tsx:18-21 | unless the floor on pad*mult is active, DP*pad*mult is exactly the inverted gross; a non-negative target gives a non-negative DP |
| Pricing.GuestPrice | components/Step3.tsx:32 | a non-negative guest fee never makes the guest price lower than the gross |
| Pricing.NetIncome | components/Step3.tsx:33 | with every fee a fraction, the net lies between 0 and the gross |
| Pricing.FromGross | components/Step4.tsx:46-48 | the prices recomputed from a gross keep that gross, and obey the guest-price and net bounds |
| Pricing.ForwardPrices | components/Step3.tsx:22-35 | the forward gross is even and within (-0.5, +1.5] of dp*pad*mult; the guest price and net are those of that gross |
| Pricing.ShareBounds | components/Step3.tsx:15 | with every fee a fraction, the kept share (1-host)(1-vat)(1-tax) lies in [0, 1] |
| Pricing.NetOfKeptShare | components/Step3.tsx:33 | the net formula's factor order (host, tax, VAT) gives the same exact product as the inversion's order |
| Pricing.NetIncomeOfShare | components/Step3.tsx:33 | the net is the ceiling of the gross times the kept share |
| Pricing.DeriveDPUnfloored | components/Step3.tsx:14-21 | with both floors inactive, deriveDP is target / share / (pad*mult) |
| Pricing.DeriveDPScaled | components/Step3.tsx:18-21 | padding and multiplying the derived DP undoes the division exactly |
| Pricing.DeriveThenForward | components/Step3.tsx:187-188 | round trip: the forward gross of the derived DP is toEven(target / share) |
| Pricing.ForwardGross | components/Step3.tsx:31 | the forward gross is toEven(dp*pad*mult) |
| Pricing.ForwardNet | components/Step3.tsx:33 | the forward net is the ceiling of the forward gross times the kept share |
| Pricing.TargetRoundTrip | components/Step3.tsx:31-33 | a whole target divided by a share in (0, 1], rounded to even and multiplied back, lands in [t, t+2] after the ceiling |
| Pricing.NetWithinRoundingOfTarget | components/Step3.tsx:186-188 | forward and inverse agree: for fractional fees, the net of a row is at least its per-night target and at most two above it |
| Pricing.PricesPositive | components/Step3.tsx:186-189 | a target of at least 1 gives a gross of at least 2, a guest price of at least the gross, and a net of at least 1 |
| Calendar.DaysAt | components/Step3.tsx:331 | months have 28 to 31 days, and February has 29 days exactly in a leap year |
| Calendar.MonthIndex | components/Step3.tsx:330 | indexOf returns the position of a month name, or -1 exactly for a token that is not a month name |
| Calendar.DaysOfMonth | components/Step3.tsx:329-333 | daysOfMonth is 28 to 31 for a month name, and 30 for any other token |
| Calendar.TableDays | components/Step3.tsx:72-85 | the season record lookup is 0 for a token that is not a month name, and daysOfMonth otherwise |
| Calendar.SeasonDays | components/Step3.tsx:86-91 | the record has exactly the configured seasons, each with the summed day count of its month list (an empty list when missing) |
| Calendar.SeasonTotal | components/Step3.tsx:88 | the reduce adds up the days of the season's month tokens |
| Calendar.SeasonDayCountAppend | components/Step3.tsx:88 | a season's day count is additive over its month list |
| Calendar.SeasonDayCountBounds | components/Step3.tsx:88 | a season's day count is between 0 and 31 per token |
| Calendar.FebruarySeason | components/Step3.tsx:74 | a February-only season has 29 days in leap years and 28 otherwise |
| Calendar.FirstQuarterLength | components/Step3.tsx:73-75 | January to March has 62 days plus February's |
| Calendar.SecondQuarterLength | components/Step3.tsx:76-78 | April to June has 91 days |
| Calendar.ThirdQuarterLength | components/Step3.tsx:79-81 | July to September has 92 days |
| Calendar.FourthQuarterLength | components/Step3.tsx:82-84 | October to December has 92 days |
| Calendar.FirstHalfByFebruary | components/Step3.tsx:73-78 | January to June has 153 days plus February's |
| Calendar.FirstHalfLength | components/Step3.tsx:73-78 | January to June has 182 days in a leap year and 181 otherwise |
| Calendar.SecondHalfLength | components/Step3.tsx:79-84 | July to December has 184 days |
| Calendar.YearLength | components/Step3.tsx:326-328 | with the Gregorian isLeap, all twelve months have 366 days in a leap year and 365 otherwise |
| Calendar.UnknownTokenCountedTwoWays | components/Step3.tsx:88 | a token that is not a month name counts 0 days in the season count, yet daysOfMonth gives it 30 |
| Occupancy.YearNights | components/Step3.tsx:99 | the year's nights are within half a night of 365 × pct / 100, so a percentage in [0, 100] books between 0 and 365 nights |
| Occupancy.YearShare | components/Step3.tsx:102-103 | a season's share is at least 1; it is within half a night of yearNights × days / max(totalDays, 1) when that is at least 0.5, and 1 below that; the sole season gets all of the year's nights |
| Occupancy.SeasonPctNights | components/Step3.tsx:107-108 | a season's nights are at least 1; within half a night of days × pct / 100 when that is at least 0.5, and 1 below that; with a percentage in [0, 100] no more than the season's days |
| Occupancy.MonthNights | components/Step3.tsx:114-116 | a month's nights are within half a night of its days times its percentage, 60% when none is configured |
| Occupancy.SeasonNights | components/Step3.tsx:98-119 | in all three modes a season books at least one night |
| Occupancy.NightsOfSeason | components/Step3.tsx:98-119 | the loop body computes the season's booked nights in the configured mode |
| Occupancy.SumMonthNights | components/Step3.tsx:113-117 | the per-month reduce is the sum of the month nights |
| Occupancy.BookedNightsBySeason | components/Step3.tsx:95-122 | the record has exactly the configured seasons, each with its booked nights in the configured mode, weighted in per-year mode by the sum of all season-day values; every entry is at least 1 |
| Occupancy.PerSeasonDefault | components/Step3.tsx:107 | a season without a percentage books 60% of its days, and at least one night |
| Occupancy.PerMonthDefault | components/Step3.tsx:114-116 | a month without a percentage books 60% of its days |
| Occupancy.MonthsNightsAppend | components/Step3.tsx:113-117 | per-month nights are additive over a season's month list |
| Occupancy.MonthsNightsBounds | components/Step3.tsx:113-117 | with percentages in [0, 100], a month list books between 0 and 31 nights per month |
| Occupancy.MonthNightsBounds | components/Step3.tsx:114-116 | with percentages in [0, 100], one month books between 0 and 31 nights |
| Occupancy.SplitNights | components/Step3.tsx:129-131 | the weekday and weekend counts are within half a night of total × fraction when that is at least 0.5, and 0 below that; the holiday count is the remainder when that is non-negative and 0 otherwise; the three counts never fall short of the season total |
| Occupancy.SplitConservesIff | components/Step3.tsx:129-132 | the counts add up to the total exactly when the rounded weekday and weekend counts do not exceed it; otherwise the holiday count is 0 and the sum exceeds the total |
| Occupancy.SplitOverCounts | components/Step3.tsx:131 | one night split 0.5 / 0.5 comes out as 1 + 1 + 0 = 2 nights |
| Occupancy.SplitConservesWithSlack | components/Step3.tsx:129-131 | non-negative fractions that leave at least one night of slack conserve the total |
| Occupancy.DefaultSplitConservesLarge | components/Step3.tsx:50 | the default 0.7 / 0.25 / 0.05 split conserves every season total of at least 20 nights |
| Occupancy.NightsBySeasonDay | components/Step3.tsx:125-135 | the record has exactly the configured seasons, each split from its booked nights (1 when missing or 0) |
| NetTargets.AnnualBase | components/Step3.tsx:142 | the base is the yearly net, or 12 times the monthly net, or 0 |
| NetTargets.WeightedTarget | components/Step3.tsx:144-145 | a season's target is within half a unit of its weighted share of the base |
| NetTargets.SeasonNetTarget | components/Step3.tsx:138-148 | a non-empty per-season map is returned unchanged; otherwise the record has exactly the configured seasons, each with its rounded share of the base, weighted by its nights over the sum of all booked values |
| NetTargets.BookedTotalOverSeasons | components/Step3.tsx:141 | when the booked record is keyed by exactly the configured seasons, as bookedNightsBySeason builds it, its value sum is the sum over the distinct seasons used by the allocation lemmas |
| NetTargets.EmptySeasonMapGivesZero | components/Step3.tsx:140-142 | per-season mode with an empty map gives every season a target of 0 |
| NetTargets.SumTargetsNearExact | components/Step3.tsx:143-146 | the rounded targets add up to the exact shares within half a unit per season |
| NetTargets.SumExactIsShare | components/Step3.tsx:144 | the exact shares of a set of seasons add up to the base times their combined weight |
| NetTargets.SumTargetsNearShare | components/Step3.tsx:141-146 | the targets of the seasons add up to their combined share, within half a unit per season |
| NetTargets.TargetsAddUpToBase | components/Step3.tsx:141-146 | allocation keeps the goal: the season targets add up to the base within half a unit per season |
| NetTargets.TotalNights | components/Step3.tsx:156 | a season's night count (`\|\| 1`) is never 0, and it is the sum of its buckets when that is non-zero |
| NetTargets.PerNight | components/Step3.tsx:159-162 | a bucket without nights gets 0, and a bucket with nights gets at least 1 |
| NetTargets.PerNightUniform | components/Step3.tsx:160-162 | every bucket with nights gets the same per-night target: max(1, floor(season net / season nights)) |
| NetTargets.PerNightUndershoots | components/Step3.tsx:160-162 | unless the floor of 1 applies, per-night target times nights never exceeds the bucket's share of the season net |
| NetTargets.SeasonPerNight | components/Step3.tsx:157-164 | a day type with nights gets at least 1, and one without gets 0 |
| NetTargets.PerNightNetTarget | components/Step3.tsx:151-167 | the record has exactly the configured seasons, each with its per-night targets computed from its season target (0 when missing) |
| PriceTable.MultiplierFor | components/Step3.tsx:174-178 | weekday and weekend use the seasonality multipliers; holiday uses the holiday settings' multiplier, or 1.4 without one |
| PriceTable.RowFor | components/Step3.tsx:180-189 | a row is labelled with its own season, day type and platform |
| PriceTable.RowForValid | components/Step3.tsx:189 | a row's DP is at least 1 and at least the rounded DP, its gross is even, and its guest price and net are those of its gross |
| PriceTable.SeasonRows | components/Step3.tsx:173-191 | a season has 15 rows, with day types outside and platforms inside |
| PriceTable.PriceCell | components/Step3.tsx:180-189 | the innermost loop body computes the cell's row |
| PriceTable.PriceSeason | components/Step3.tsx:173-191 | the two inner loops push exactly the season's 15 rows in nesting order |
| PriceTable.BuildPriceTable | components/Step3.tsx:170-194 | the memo's output is the table of the configuration |
| PriceTable.RowsShape | components/Step3.tsx:171-193 | the rows of n seasons number 15n, and row k is the cell of season k/15, day type (k%15)/5 and platform k%5 |
| PriceTable.TableShape | components/Step3.tsx:170-194 | the table has exactly one row per season, day type and platform, in that nesting order |
| PriceTable.TableRowsValid | components/Step3.tsx:188-189 | every row of the table has a DP of at least 1 and an even gross |
| PriceTable.RowGrossFromTarget | components/Step3.tsx:186-188 | when the fees and the multiplier are not degenerate, a row's gross is toEven(per-night target / kept share) |
| PriceTable.DisplayedDPDoesNotReproduceGross | components/Step3.tsx:187-189 | the forward step uses the unrounded DP: the table shows DP 60 with gross 100, while DP 60 priced forward would give 102 |
| PriceTable.FindRow | components/Step3.tsx:342 | find returns a row of the table with the requested platform, season and day type, the first such row, or nothing exactly when no such row exists |
| PriceTable.RowIsItsCell | components/Step3.tsx:170-194 | every row of the table is the cell of its own season, day type and platform |
| PriceTable.CellInRows | components/Step3.tsx:170-194 | every cell of a configured season is in the table |
| PriceTable.FindRowInTable | components/Step3.tsx:342 | the preview lookup finds exactly the cell of a configured season, and nothing for any other season |
| Overrides.KeyForInjective | components/Step4.tsx:35 | different cells have different override keys, whatever the season names |
| Overrides.WithGross | components/Step4.tsx:76-81 | a NaN or non-positive entry changes nothing; otherwise the key gets the gross, keeps an existing lock flag or is locked, and every other key is unchanged |
| Overrides.WithLock | components/Step4.tsx:82-85 | the key keeps its stored gross (the row's gross for a new key) and gets the given flag, or the negation of the previous flag; every other key is unchanged |
| Overrides.Without | components/Step4.tsx:86-92 | exactly the key is removed, and every other key is unchanged |
| Overrides.ToggleTwice | components/Step4.tsx:82-85 | toggling a stored override twice without a flag restores it |
| Overrides.FirstToggleLocks | components/Step4.tsx:84 | a first toggle of an untouched cell locks it at the row's gross |
| Overrides.ApplyOverride | components/Step4.tsx:37-49 | a row without a locked override is unchanged; a locked one gets toEven of the stored gross and recomputed guest price and net, with DP, season, day type and platform kept |
| Overrides.ApplyOverrides | components/Step4.tsx:36-51 | the rows keep their number and order, and each row gets its own override applied |
| Overrides.AppliedGrossEven | components/Step4.tsx:46 | after the overrides every gross is still even |
| Overrides.LockedEvenGrossKept | components/Step4.tsx:46 | locking an even gross (e.g. 150) keeps exactly that gross |
| Overrides.EditTouchesOnlyItsCell | components/Step4.tsx:35-40 | an edit of one cell's override leaves every other cell's row as it was |
| Overrides.ClearedCellReverts | components/Step4.tsx:86-92 | after clearing, the cell's row is the computed row again |
| Overrides.NewOverrideTakesEffect | components/Step4.tsx:80 | a valid gross typed into an untouched cell takes effect at once, rounded to even |
| Overrides.OverrideStore.constructor | components/Step4.tsx:34 | the override map starts empty |
| Overrides.OverrideStore.SetOverride | components/Step4.tsx:76-81 | the map becomes its setOverride transition |
| Overrides.OverrideStore.ToggleLock | components/Step4.tsx:82-85 | the map becomes its toggleLock transition |
| Overrides.OverrideStore.ClearOverride | components/Step4.tsx:86-92 | the map becomes its clearOverride transition |
| Totals.ScopedRows | components/Step4.tsx:53 | the scoped rows are the table's rows of the platform: every one of them, and no others |
| Totals.ScopedRowsAppend | components/Step4.tsx:53 | filtering distributes over concatenation, so the table order of the platform's rows is kept |
| Totals.ScopedRowsSingle | components/Step4.tsx:53 | a single row is kept exactly when it is of the platform |
| Totals.NightsFor | components/Step4.tsx:61 | a row's nights are its season's count for its day type, and 0 for a season without counts |
| Totals.ZeroTotals | components/Step4.tsx:55-58 | the totals start at zero for exactly the configured seasons |
| Totals.ScopedTotals | components/Step4.tsx:54-75 | each season's totals are the sum over the rows of that season, and the grand total is the sum over all rows |
| Totals.GrandSumStep | components/Step4.tsx:69-72 | each row adds its nights and its per-night prices times its nights to the grand total |
| Totals.SeasonWithoutRowsIsZero | components/Step4.tsx:56-58 | a season without rows stays at zero |
| Totals.UncountedRowAddsNothing | components/Step4.tsx:61-64 | a row whose season has no night counts adds nothing |
| Totals.GrandIsSumOfSeasons | components/Step4.tsx:65-72 | the grand total is the sum of the season totals |
| Totals.GrandOfConfiguredSeasons | components/Step4.tsx:56-72 | summed over the configured seasons, each counted once, the season totals give the grand total |
| CsvExport.Values | components/Step4.tsx:99-107 | a row exports eight numbers |
| CsvExport.Numbers | components/Step4.tsx:108 | rendered numbers contain neither ',' nor a line break |
| CsvExport.Fields | components/Step4.tsx:100-107 | a row has as many fields as the header has columns |
| CsvExport.FieldsPlainButSeason | components/Step4.tsx:100-107 | only the season field can contain a ',' or a line break |
| CsvExport.RowLines | components/Step4.tsx:98-109 | there is one line per scoped row |
| CsvExport.RowLinesAt | components/Step4.tsx:98-109 | line i is the line of row i |
| CsvExport.PushRowLines | components/Step4.tsx:98-109 | the forEach appends the lines of the rows, in order, after the lines already present |
| CsvExport.ExportCsv | components/Step4.tsx:93-110 | the export text is the header line and then the row lines, joined by line breaks |
| CsvExport.HeaderPlain | components/Step4.tsx:94-96 | no column name contains a ',' or a line break |
| CsvExport.HeaderLineReadsBack | components/Step4.tsx:94-97 | the header line splits back into the 11 column names |
| CsvExport.RowLinesReadBack | components/Step4.tsx:98-109 | each row line splits back into exactly that row's 11 fields, and contains no line break |
| CsvExport.LinesReadBack | components/Step4.tsx:110 | lines without line breaks, joined by line breaks, split back into the same lines |
| CsvExport.CsvReadsBack | components/Step4.tsx:93-110 | the file splits into the header line and one line per row; the header splits into the column names, and row i into exactly its fields |
| CsvExport.NumbersReadBack | components/Step4.tsx:102-108 | every exported number reads back as itself |
| CsvExport.FieldsReadBack | components/Step4.tsx:99-108 | the fields of a row are its label, season and day type, then its four prices, nights and three totals, each number reading back exactly |
| CsvExport.LabelsDistinct | components/Step4.tsx:262-272 | different platforms have different labels in the export |
| Holidays.DefaultSettings | components/HolidaysBlock.tsx:34-40 | the defaults are multiplier 1.4, observed days applied, a buffer cap of 2, the given year, and no repeated country |
| Holidays.DefaultsCoverAllCountries | components/HolidaysBlock.tsx:38 | every country starts active |
| Holidays.Kept | components/HolidaysBlock.tsx:197-198 | filtering never adds holidays |
| Holidays.KeptMembers | components/HolidaysBlock.tsx:197-198 | the kept holidays are exactly the input holidays that are not observed, or all of them when observed days apply |
| Holidays.OnDate | components/HolidaysBlock.tsx:199 | a date's group never has more holidays than the input |
| Holidays.OnDateMembers | components/HolidaysBlock.tsx:199 | a date's group holds exactly the holidays with that date |
| Holidays.GroupedJoin | components/HolidaysBlock.tsx:199 | a holiday whose date already has a group is appended to that group |
| Holidays.GroupedOpen | components/HolidaysBlock.tsx:199 | a holiday of a new date opens a group after the others |
| Holidays.AddToGroup | components/HolidaysBlock.tsx:199 | one push keeps the grouping exact for the holidays seen so far |
| Holidays.GroupOne | components/HolidaysBlock.tsx:197-199 | one iteration skips a filtered holiday or groups a kept one |
| Holidays.GroupByDate | components/HolidaysBlock.tsx:196-200 | the record maps each date of a kept holiday, listed once and in first-appearance order, to exactly that date's kept holidays in input order |
| Holidays.OrderJoin | components/HolidaysBlock.tsx:198 | pushing a holiday onto an existing date keeps the dates in first-appearance order |
| Holidays.OrderOpen | components/HolidaysBlock.tsx:198 | a new date is listed after every date seen so far, keeping first-appearance order |
| Holidays.MaxBuffer | components/HolidaysBlock.tsx:204 | the result is at least every suggested buffer of the date, and equal to one of them |
| Holidays.CountriesOf | components/HolidaysBlock.tsx:203 | the countries have no duplicates, and they are exactly the countries of the date's holidays |
| Holidays.CountriesInFirstAppearanceOrder | components/HolidaysBlock.tsx:203 | the countries keep first-appearance order: of two listed countries, the earlier one has a holiday before every holiday of the later one |
| Holidays.FirstPriority | components/HolidaysBlock.tsx:211 | find gives the first name with a priority keyword, or nothing when no name has one |
| Holidays.PickName | components/HolidaysBlock.tsx:209-213 | the picked name is one of the names, and there is none only for an empty list |
| Holidays.PickNameFirst | components/HolidaysBlock.tsx:210-212 | the first name containing a priority keyword, ignoring case, is picked |
| Holidays.PickNameFallback | components/HolidaysBlock.tsx:212 | without any priority keyword, the first name is picked |
| Holidays.Names | components/HolidaysBlock.tsx:202 | the names of the date's holidays, in order |
| Holidays.MergeGroup | components/HolidaysBlock.tsx:201-205 | a date's entry carries the date and is enabled |
| Holidays.MergeGroupFacts | components/HolidaysBlock.tsx:201-205 | an entry's name is one of the date's names, its countries are exactly the date's countries (each once), and its buffer is their maximum suggestion |
| Holidays.InsertByDate | components/HolidaysBlock.tsx:206 | insertion adds exactly the new entry |
| Holidays.SortByDate | components/HolidaysBlock.tsx:206 | the sort is a permutation of the entries |
| Holidays.InsertSorted | components/HolidaysBlock.tsx:206 | insertion keeps the entries sorted by date |
| Holidays.SortSorted | components/HolidaysBlock.tsx:206 | the sorted entries are in ascending date order |
| Holidays.InsertDistinct | components/HolidaysBlock.tsx:206 | inserting an entry with a new date keeps the dates distinct |
| Holidays.SortDistinct | components/HolidaysBlock.tsx:206 | sorting keeps the dates distinct |
| Holidays.StrictlyAscending | components/HolidaysBlock.tsx:206 | sorted entries with distinct dates have strictly ascending dates |
| Holidays.SortFacts | components/HolidaysBlock.tsx:206 | sorting keeps every entry and gives strictly ascending dates |
| Holidays.EntriesDistinct | components/HolidaysBlock.tsx:201 | the record gives one entry per date |
| Holidays.EntriesMerged | components/HolidaysBlock.tsx:201-205 | each entry is merged from exactly its date's kept holidays |
| Holidays.EntriesCover | components/HolidaysBlock.tsx:201 | every kept holiday's date has an entry |
| Holidays.SortKeepsMerged | components/HolidaysBlock.tsx:206 | after the sort each entry is still the merge of its date's kept holidays |
| Holidays.SortKeepsCover | components/HolidaysBlock.tsx:206 | after the sort every kept holiday's date still has an entry |
| Holidays.SortedEntriesFacts | components/HolidaysBlock.tsx:195-207 | the sorted entries have strictly ascending dates, cover every kept date, and each is the merge of its date's kept holidays |
| Holidays.MergeAndDedupe | components/HolidaysBlock.tsx:195-207 | exactly one entry per distinct kept date, in strictly ascending date order, each merged from exactly that date's kept holidays |
| Holidays.SettleAsWritten | components/HolidaysBlock.tsx:50-54 | as written, a date without a per-date buffer gets no numeric buffer; a date with one gets the smaller of it and the cap; the flag defaults to true |
| Holidays.SettleAsWrittenLosesBuffer | components/HolidaysBlock.tsx:52 | Christmas, with a suggested buffer of 1 and a cap of 2, comes out without a buffer as written and with 1 as intended |
| Holidays.Settle | components/HolidaysBlock.tsx:50-54 | the buffer is min(per-date buffer ?? suggested buffer, cap), so never above the cap; enabled is the per-date flag ?? true; the date, name and countries are kept |
| Holidays.SettleIdempotent | components/HolidaysBlock.tsx:52-53 | settling a settled row changes nothing |
| Holidays.SettleKeepsSuggestion | components/HolidaysBlock.tsx:52 | an untouched date keeps its suggested buffer when it is within the cap |
| Holidays.SettleAll | components/HolidaysBlock.tsx:50-54 | every merged row is settled, in place and order |
| Holidays.SettleAllFacts | components/HolidaysBlock.tsx:50-54 | settling keeps the ascending dates and the coverage of the kept dates, caps every buffer, and makes each row the settled merge of its date's kept holidays |
| Holidays.MergedHolidays | components/HolidaysBlock.tsx:49-57 | the final rows have strictly ascending dates, buffers within the cap, enabled flags from the per-date record (default true), and an entry for every kept holiday's date; each row is the merge of the kept holidays on its date (one at least), with its buffer and enabled flag from the per-date records |
| Settings.PctInput | components/Step2.tsx:72-76 | the result is always in [0, 100]: below 0 gives 0, above 100 gives 100, and otherwise the value rounded to one decimal (within 0.05) |
| Settings.PctInputIdempotent | components/Step2.tsx:72-76 | entering a clamped value again changes nothing |
| Settings.PctInputOf | components/Step2.tsx:118 | NaN stays NaN, and any number becomes a percentage in [0, 100] |
| Settings.WithField | components/Step2.tsx:83 | the one field gets the value, and the other fields are kept |
| Settings.WithProfile | components/Step2.tsx:83 | the one platform gets the profile, and the other platforms are kept |
| Settings.UpdatePlatform | components/Step2.tsx:78-85 | non-numeric input changes nothing; otherwise only the named field of the named platform changes |
| Settings.DefaultsInRange | components/Step2.tsx:10-16 | every default percentage is in [0, 100] |
| Settings.FieldEditKeepsRange | components/Step2.tsx:118 | an edit through the field's input keeps every percentage of every platform in [0, 100] |
| Settings.UpdateWithSameValue | components/Step2.tsx:78-85 | writing back the value a field already holds changes nothing |
| Settings.LabelForField | components/Step2.tsx:325-334 | each of the five property names gets its label ('Guest Service Fee %', 'Host Commission %', 'VAT %', 'Income Tax %', 'Padding for Discounts %'), and any other name is shown as it is |
| Settings.FieldLabelsDistinct | components/Step2.tsx:325-334 | each field has its own label, different from its property name and ending in '%' |
| Settings.NonEmpty | components/Step2.tsx:174 | `filter(Boolean)` keeps only non-empty parts, and drops nothing when no part is empty |
| Settings.NonEmptyAppend | components/Step2.tsx:174 | the filter distributes over concatenation, so the kept parts stay in input order |
| Settings.NonEmptySingle | components/Step2.tsx:174 | a single part is kept exactly when it is not empty |
| Settings.TrimAll | components/Step2.tsx:174 | each part is trimmed, in place |
| Settings.TrimAllClean | components/Step2.tsx:174 | trimmed parts without commas are clean tokens |
| Settings.NonEmptyClean | components/Step2.tsx:174 | dropping empty parts keeps clean tokens clean |
| Settings.ParseMonthList | components/Step2.tsx:174 | every stored token is non-empty, trimmed and free of commas |
| Settings.NonEmptyDropsBlank | components/Step2.tsx:174 | the trimmed parts ["Jan", "", "Feb"] of the input "Jan, ,Feb" are stored as ["Jan", "Feb"]: the blank part is dropped and the months keep their order |
| Settings.EditMonths | components/Step2.tsx:173-181 | the edited season gets the parsed list, and every other season keeps its list |
| Settings.Blanked | components/Step2.tsx:172 | each token gets the blank that `join(', ')` puts before it |
| Settings.JoinCommaBlank | components/Step2.tsx:172 | joining with ", " is joining with "," after blanking every token but the first |
| Settings.TrimBlanked | components/Step2.tsx:172-174 | trimming the blanked tokens gives the tokens back |
| Settings.MonthListRoundTrip | components/Step2.tsx:172-181 | a season's month list, shown joined by ", " and read back unchanged, is the same list |
| Settings.PreviewPrices | components/Step2.tsx:64-69 | the preview's gross is even |
| Settings.Preview | components/Step2.tsx:57-70 | the preview of any platform and day type has an even gross |
| Settings.PreviewGuest | components/Step2.tsx:67 | the preview's guest price is the guest price of its gross |
| Settings.PreviewNet | components/Step2.tsx:68 | the preview's net (host, VAT, tax order) is the net of its gross |
| Settings.PreviewPricesIsForward | components/Step2.tsx:64-68 | the preview's arithmetic is the table's forward computation at DP = 100 |
| Settings.PreviewIsForward | components/Step2.tsx:57-70 | the preview is forwardPrices at DP = 100, with the platform's fractions and the preview's multiplier |
| Settings.PreviewMultiplierAgainstTable | components/Step2.tsx:59-63 | the preview and the table agree on the weekday and weekend multipliers; for holidays the preview reads the seasonality multiplier and the table reads the holiday settings (default 1.4) |
| Settings.HolidayPreviewDiverges | components/Step2.tsx:63 | with the default Airbnb fees, the preview shows a holiday gross of 168, while the table with holiday multiplier 2.0 prices a DP of 100 at 240 |

## Left out

- Floating point: all arithmetic is exact, with `real` for fractions and `int` for prices and nights. IEEE-754 artefacts are not modelled, for example a ceiling that drifts up by one, or the different products that the preview's net factor order (host, VAT, tax) gives against the table's order (host, tax, VAT). NaN is modelled only where the source tests for it (`setOverride`, `updatePlatform`), and in the holiday buffer finding.
- Rendering: the JSX markup, the `Stat` components and the preview card's markup. Currency formatting with `Intl.NumberFormat` (`format`, `fmt`) is also left out, since it is a library call.
- Holiday fetching: `fetchHolidaysStub`, the effect that loads it, and the `onChange` call inside the `merged` memo (components/HolidaysBlock.tsx:45-47, 55, 183-193). This is asynchronous input; the raw holidays are a parameter.
- The holiday-date expansion (components/Step3.tsx:53-67) depends on `Date` and on the time zone, and the price table never reads it.
- The clock: `new Date().getFullYear()` is replaced by a year parameter.
- Browser calls: the Blob, the object URL, `download`, `window.print` and `alert` (components/Step4.tsx:110-112, 151-153, 273-281). The export is modelled up to the text handed to the Blob.
- React itself: hooks, memoisation and the `onOutput` effect (components/Step3.tsx:196-198). Each memo is modelled as a method or function of its inputs, and each state updater as a map or record transition.
- Form inputs outside the engine's named operations are not modelled as transitions:
  - the booking-split clamp (components/Step3.tsx:273);
  - the multiplier inputs;
  - the occupancy inputs (they use `pctInput`, which is modelled);
  - the goal inputs.
  These values are parameters of the memos.
- Text.StrLess: ordinal code-unit order stands in for `localeCompare`. The two agree on the ISO dates being sorted, but locale collation is not modelled.
- Text.Lower: ASCII lower-casing stands in for `toLowerCase`, so the priority-keyword match does not capture non-ASCII case folding.
- Text.Trim: only ASCII whitespace is trimmed, not every Unicode space that `trim` removes.
- CsvExport.CsvReadsBack: the export does not quote fields, so read-back is proved only for seasons without ',' or line breaks. A season name with a comma really does shift the columns of its line.
- Settings.UpdatePlatform: the field name is one of the five profile fields, which is all the form passes. An arbitrary property name is not modelled.
- The default branch of `labelFor` (components/Step2.tsx:322) cannot be reached with a typed platform key and is not modelled.
- PriceTable.BuildPriceTable: requires every configured season to have per-night targets. The perNightNetTarget memo always builds them, and the source would throw on a missing season.
- NetTargets.PerNightNetTarget: requires every configured season to have night counts. The nightsBySeasonDay memo always builds them, and the source would throw on a missing season.
- Totals.ScopedTotals: requires every row's season to be configured. The source would throw on a row of an unknown season.
- Holidays.MaxBuffer: requires a non-empty list. Every date's group holds at least one holiday, so `Math.max()` of nothing (-Infinity) never arises.
- Holidays.SortByDate: the sort is modelled as an insertion sort. The dates are distinct, so any correct sort gives the same order.
- The Continue action of the allocation step hands `priceTable`, `nightsBySeasonDay`, `seasonNetTarget` and `currency` to the next step. This page flow is not modelled; the review step takes its inputs as parameters.

## Findings

| source | as written | input that shows it | evidently intended | confidence | as-written member | corrected member |
|---|---|---|---|---|---|---|
| components/HolidaysBlock.tsx:52 | The per-date buffer falls back to `row.suggestBufferDays`. Merged rows carry `buffer` instead, so a date without a per-date buffer gets `Math.min(undefined, max)`, which is NaN | Christmas Day from US and UK with a suggested buffer of 1, no per-date buffer and a cap of 2 gives NaN | fall back to the merged row's `buffer`, giving min(1, 2) = 1 | not executed | Holidays.SettleAsWritten, Holidays.SettleAsWrittenLosesBuffer | Holidays.Settle |
