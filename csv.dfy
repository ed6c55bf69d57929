/** The CSV export of the review step: a header line and one line per scoped row,
    fields joined by ',' and lines by '\n', without quoting. */
module CsvExport {
  import opened Text
  import opened Domain
  import opened Totals

  const Header: seq<string> := [
    "Platform", "Season", "DayType", "DP", "Gross", "GuestPrice", "Net",
    "Nights", "GrossTotal", "GuestTotal", "NetTotal"]

  /** The numbers of one row: the four per-night prices, the nights and the three revenue
      totals (each price times the nights). */
  function Values(r: PriceRow, nbsd: map<string, DayCounts>): (vs: seq<int>)
    ensures |vs| == 8
  {
    var n := NightsFor(nbsd, r);
    [r.dp, r.gross, r.guestPrice, r.net, n, r.gross * n, r.guestPrice * n, r.net * n]
  }

  /** Numbers as `join` renders them. */
  function Numbers(vs: seq<int>): (ss: seq<string>)
    ensures |ss| == |vs|
    ensures forall i :: 0 <= i < |ss| ==> ',' !in ss[i] && '\n' !in ss[i]
  {
    if vs == [] then []
    else
      var s := IntToString(vs[0]);
      assert forall ch :: ch in s ==> ch in "-0123456789";
      [s] + Numbers(vs[1..])
  }

  /** The fields of one row: label, season, day type, then its numbers. */
  function Fields(r: PriceRow, nbsd: map<string, DayCounts>): (f: seq<string>)
    ensures |f| == |Header|
  {
    [LabelFor(r.platform), r.season, DayName(r.dayType)] + Numbers(Values(r, nbsd))
  }

  /** Only the season field can hold a ',' or a line break. */
  lemma FieldsPlainButSeason(r: PriceRow, nbsd: map<string, DayCounts>)
    ensures forall i :: 0 <= i < |Fields(r, nbsd)| && i != 1 ==>
      ',' !in Fields(r, nbsd)[i] && '\n' !in Fields(r, nbsd)[i]
  {
    var f := Fields(r, nbsd);
    var ns := Numbers(Values(r, nbsd));
    assert forall i :: 3 <= i < |f| ==> f[i] == ns[i - 3];
  }

  function Line(fields: seq<string>): string {
    Join(fields, ",")
  }

  /** The lines of the rows, in row order. */
  function RowLines(rows: seq<PriceRow>, nbsd: map<string, DayCounts>): (ls: seq<string>)
    ensures |ls| == |rows|
  {
    if rows == [] then []
    else RowLines(rows[..|rows| - 1], nbsd) + [Line(Fields(rows[|rows| - 1], nbsd))]
  }

  /** Line i is the line of row i. */
  lemma {:induction false} RowLinesAt(rows: seq<PriceRow>, nbsd: map<string, DayCounts>)
    ensures forall i :: 0 <= i < |rows| ==> RowLines(rows, nbsd)[i] == Line(Fields(rows[i], nbsd))
  {
    if rows != [] {
      var init := rows[..|rows| - 1];
      RowLinesAt(init, nbsd);
      assert forall i :: 0 <= i < |init| ==> rows[i] == init[i];
    }
  }

  /** All lines of the file: the header first. */
  function CsvLines(rows: seq<PriceRow>, nbsd: map<string, DayCounts>): seq<string> {
    [Line(Header)] + RowLines(rows, nbsd)
  }

  function CsvText(rows: seq<PriceRow>, nbsd: map<string, DayCounts>): string {
    Join(CsvLines(rows, nbsd), "\n")
  }

  /** `exportCSV` up to the download: the header line, then the lines of the scoped rows,
      joined by line breaks. */
  method ExportCsv(scoped: seq<PriceRow>, nbsd: map<string, DayCounts>) returns (text: string)
    ensures text == CsvText(scoped, nbsd)
  {
    var lines := [Line(Header)];
    lines := PushRowLines(lines, scoped, nbsd);
    text := Join(lines, "\n");
  }

  /** The `forEach` that pushes one line per row. */
  method PushRowLines(lines0: seq<string>, scoped: seq<PriceRow>, nbsd: map<string, DayCounts>)
    returns (lines: seq<string>)
    ensures lines == lines0 + RowLines(scoped, nbsd)
  {
    lines := lines0;
    var i := 0;
    while i < |scoped|
      invariant 0 <= i <= |scoped|
      invariant lines == lines0 + RowLines(scoped[..i], nbsd)
    {
      var row := Fields(scoped[i], nbsd);
      RowLinesStep(scoped, i, nbsd);
      lines := lines + [Line(row)];
      i := i + 1;
    }
    assert scoped[..|scoped|] == scoped;
  }

  lemma RowLinesStep(rows: seq<PriceRow>, i: int, nbsd: map<string, DayCounts>)
    requires 0 <= i < |rows|
    ensures RowLines(rows[..i + 1], nbsd) == RowLines(rows[..i], nbsd) + [Line(Fields(rows[i], nbsd))]
  {
    assert rows[..i + 1][..i] == rows[..i];
  }

  /** No column name holds a ',' or a line break. */
  lemma HeaderPlain()
    ensures forall i :: 0 <= i < |Header| ==> ',' !in Header[i] && '\n' !in Header[i]
  {
    forall i | 0 <= i < |Header|
      ensures ',' !in Header[i] && '\n' !in Header[i]
    {
      var h := Header[i];
      assert forall k :: 0 <= k < |h| ==> 'A' <= h[k] <= 'z';
    }
  }

  /** The header line reads back as the column names, and holds no line break. */
  lemma HeaderLineReadsBack()
    ensures '\n' !in Line(Header)
    ensures Split(Line(Header), ',') == Header
  {
    HeaderPlain();
    LineHasNoBreak(Header);
    SplitJoin(Header, ',');
  }

  /** Seasons without ',' or line breaks keep the file well formed. */
  predicate PlainSeasons(rows: seq<PriceRow>) {
    forall i :: 0 <= i < |rows| ==> ',' !in rows[i].season && '\n' !in rows[i].season
  }

  /** A line holds no line break when its fields hold none. */
  lemma LineHasNoBreak(fields: seq<string>)
    requires forall i :: 0 <= i < |fields| ==> '\n' !in fields[i]
    ensures '\n' !in Line(fields)
  {
    JoinAvoids(fields, ",", '\n');
  }

  /** Each row line splits at ',' into exactly that row's 11 fields, and holds no line break. */
  lemma RowLinesReadBack(rows: seq<PriceRow>, nbsd: map<string, DayCounts>)
    requires PlainSeasons(rows)
    ensures forall i :: 0 <= i < |rows| ==> '\n' !in RowLines(rows, nbsd)[i]
    ensures forall i :: 0 <= i < |rows| ==> Split(RowLines(rows, nbsd)[i], ',') == Fields(rows[i], nbsd)
  {
    RowLinesAt(rows, nbsd);
    forall i | 0 <= i < |rows|
      ensures '\n' !in RowLines(rows, nbsd)[i]
      ensures Split(RowLines(rows, nbsd)[i], ',') == Fields(rows[i], nbsd)
    {
      var f := Fields(rows[i], nbsd);
      FieldsPlainButSeason(rows[i], nbsd);
      LineHasNoBreak(f);
      SplitJoin(f, ',');
    }
  }

  /** Lines without line breaks, joined by line breaks, split back into the lines. */
  lemma LinesReadBack(h: string, ls: seq<string>)
    requires '\n' !in h
    requires forall i :: 0 <= i < |ls| ==> '\n' !in ls[i]
    ensures Split(Join([h] + ls, "\n"), '\n') == [h] + ls
  {
    var all := [h] + ls;
    forall j | 0 <= j < |all|
      ensures '\n' !in all[j]
    {
      if j > 0 {
        assert all[j] == ls[j - 1];
      }
    }
    SplitJoin(all, '\n');
    assert "\n" == ['\n'];
  }

  /** The file reads back: split at line breaks it is the header line and one line per row, and
      each line splits at ',' into the header's names or into exactly that row's 11 fields. */
  lemma CsvReadsBack(rows: seq<PriceRow>, nbsd: map<string, DayCounts>)
    requires PlainSeasons(rows)
    ensures Split(CsvText(rows, nbsd), '\n') == CsvLines(rows, nbsd)
    ensures |CsvLines(rows, nbsd)| == |rows| + 1
    ensures Split(CsvLines(rows, nbsd)[0], ',') == Header
    ensures forall i :: 0 <= i < |rows| ==> Split(CsvLines(rows, nbsd)[i + 1], ',') == Fields(rows[i], nbsd)
  {
    HeaderLineReadsBack();
    RowLinesReadBack(rows, nbsd);
    LinesReadBack(Line(Header), RowLines(rows, nbsd));
  }

  /** Each rendered number reads back as itself. */
  lemma {:induction false} NumbersReadBack(vs: seq<int>)
    ensures forall i :: 0 <= i < |vs| ==> ParseInt(Numbers(vs)[i]) == vs[i]
  {
    if vs != [] {
      NumbersReadBack(vs[1..]);
      IntToStringRoundTrip(vs[0]);
      forall i | 1 <= i < |vs|
        ensures ParseInt(Numbers(vs)[i]) == vs[i]
      {
        assert Numbers(vs)[i] == Numbers(vs[1..])[i - 1];
      }
    }
  }

  /** Every number of an exported row reads back exactly, the three totals being the per-night
      prices times the row's nights. */
  lemma FieldsReadBack(r: PriceRow, nbsd: map<string, DayCounts>)
    ensures var f := Fields(r, nbsd);
      var n := NightsFor(nbsd, r);
      f[0] == LabelFor(r.platform) && f[1] == r.season && f[2] == DayName(r.dayType)
      && ParseInt(f[3]) == r.dp && ParseInt(f[4]) == r.gross
      && ParseInt(f[5]) == r.guestPrice && ParseInt(f[6]) == r.net
      && ParseInt(f[7]) == n && ParseInt(f[8]) == r.gross * n
      && ParseInt(f[9]) == r.guestPrice * n && ParseInt(f[10]) == r.net * n
  {
    var vs := Values(r, nbsd);
    NumbersReadBack(vs);
    var f := Fields(r, nbsd);
    assert forall i :: 3 <= i < |f| ==> f[i] == Numbers(vs)[i - 3];
  }

  /** The label column names the platform: different platforms get different labels. */
  lemma LabelsDistinct(a: PlatformKey, b: PlatformKey)
    requires LabelFor(a) == LabelFor(b)
    ensures a == b
  {
  }
}
