/**
 The whole derivation the page performs on the daily table, in the script's
 order: load and label, average by season for the highlighted bar chart, add
 the recency / frequency / monetary columns, then bin `cnt`.
 */
module Dashboard {
  import opened Wrappers
  import opened Load
  import Rfm
  import Binning
  import SeasonChart

  /** What the page derives: the final table, the seasonal means and the bar colours. */
  datatype Derived = Derived(
    table: seq<Binning.BinnedRow>,
    seasonalAvg: SeasonChart.Series,
    palette: seq<SeasonChart.Colour>)

  /**
   Runs every derivation on the table as read; each step only adds columns.
   The page stops at the seasonal insight, whose `idxmax` fails on an empty
   series, when no day has a season label: then nothing after it is derived
   and the result is `None`.
   */
  function Derive(raw: seq<Day>): (r: Option<Derived>)
    ensures r.None? <==> forall i :: 0 <= i < |raw| ==> !(1 <= raw[i].season <= 4)
    ensures r.Some? ==> var avg := SeasonChart.SeasonalAvg(LoadData(raw));
      r.value == Derived(DeriveTable(raw), avg, SeasonChart.Palette(avg))
    ensures r.Some? ==> 0 < |r.value.palette| == |r.value.seasonalAvg.index| == |r.value.seasonalAvg.values|
  {
    var avg := SeasonChart.SeasonalAvg(LoadData(raw));
    ChartEmptyIffUnlabelled(raw);
    if |avg.index| == 0 then None
    else Some(Derived(DeriveTable(raw), avg, SeasonChart.Palette(avg)))
  }

  /** When the page gets past the chart, exactly one bar is highlighted, and it is the first largest mean. */
  lemma DeriveHighlight(raw: seq<Day>)
    ensures Derive(raw).Some? ==>
      SeasonChart.HighlightsFirstLargest(Derive(raw).value.seasonalAvg, Derive(raw).value.palette)
  {
    SeasonChart.SeasonChartHighlighted(LoadData(raw));
  }

  /** The table's new columns: labels, then recency / frequency / monetary, then the `cnt` group. */
  function DeriveTable(raw: seq<Day>): (t: seq<Binning.BinnedRow>)
    ensures |t| == |raw|
    ensures forall i :: 0 <= i < |raw| ==> t[i].row.row.day == raw[i]
    ensures forall i :: 0 <= i < |raw| ==> t[i].row.monetary == raw[i].cnt
    ensures forall i :: 0 <= i < |raw| ==> t[i].row.recency >= 0 && t[i].row.frequency >= 1
  {
    Binning.AddCntGroup(Rfm.AddRfm(LoadData(raw)))
  }

  /** Labels, monetary and `cnt` group of the derived table, row by row: loading's labels, the count, the count's bin. */
  lemma DeriveTableRows(raw: seq<Day>)
    ensures var t := DeriveTable(raw);
      forall i :: 0 <= i < |raw| ==>
        && t[i].row.row == LoadRow(raw[i])
        && t[i].row.monetary == raw[i].cnt
        && t[i].cntGroup == Binning.CntGroupOf(raw[i].cnt)
  {
    var loaded := LoadData(raw);
    var t := DeriveTable(raw);
    PipelineRows(loaded);
    forall i | 0 <= i < |raw|
      ensures t[i].row.row == LoadRow(raw[i])
      ensures t[i].row.monetary == raw[i].cnt && t[i].cntGroup == Binning.CntGroupOf(raw[i].cnt)
    {
      assert loaded[i] == LoadRow(raw[i]);
    }
  }

  /** Recency and frequency of the derived table: zero exactly on the latest days, and the size of the row's `instant` group. */
  lemma DeriveTableRfm(raw: seq<Day>)
    ensures var t := DeriveTable(raw);
      forall i :: 0 <= i < |raw| ==>
        && t[i].row.frequency == |Rfm.RowsWithInstant(LoadData(raw), raw[i].instant)|
        && (t[i].row.recency == 0 <==> forall j :: 0 <= j < |raw| ==> raw[j].date <= raw[i].date)
  {
    var loaded := LoadData(raw);
    PipelineFrequency(loaded);
    PipelineRecency(loaded);
    assert forall j :: 0 <= j < |raw| ==> loaded[j].day == raw[j];
  }

  /** The RFM and binning steps keep each loaded row and add its monetary value and `cnt` group. */
  lemma PipelineRows(t: seq<LoadedRow>)
    ensures var b := Binning.AddCntGroup(Rfm.AddRfm(t));
      && |b| == |t|
      && forall i :: 0 <= i < |t| ==>
        && b[i].row.row == t[i]
        && b[i].row.monetary == t[i].day.cnt
        && b[i].cntGroup == Binning.CntGroupOf(t[i].day.cnt)
  {
  }

  /** After the RFM and binning steps, each row's frequency is the size of its `instant` group. */
  lemma PipelineFrequency(t: seq<LoadedRow>)
    ensures var b := Binning.AddCntGroup(Rfm.AddRfm(t));
      forall i :: 0 <= i < |b| ==> b[i].row.frequency == |Rfm.RowsWithInstant(t, t[i].day.instant)|
  {
  }

  /** After the RFM and binning steps, recency is zero exactly on the latest days. */
  lemma PipelineRecency(t: seq<LoadedRow>)
    ensures var b := Binning.AddCntGroup(Rfm.AddRfm(t));
      forall i :: 0 <= i < |b| ==>
        (b[i].row.recency == 0 <==> forall j :: 0 <= j < |t| ==> t[j].day.date <= t[i].day.date)
  {
  }

  /** The seasonal series is empty exactly when no day has a season code from 1 to 4. */
  lemma ChartEmptyIffUnlabelled(raw: seq<Day>)
    ensures |SeasonChart.SeasonalAvg(LoadData(raw)).index| == 0 <==>
      forall i :: 0 <= i < |raw| ==> !(1 <= raw[i].season <= 4)
  {
    var index := SeasonChart.SeasonalAvg(LoadData(raw)).index;
    SeasonChart.SeasonIndexOfLoaded(raw);
    if i :| 0 <= i < |raw| && 1 <= raw[i].season <= 4 {
      assert Labels.SeasonName(raw[i].season).value in index;
    }
    if |index| > 0 {
      assert index[0] in index;
    }
  }

  /** A summer Saturday with 250 rentals, and a winter Friday with 100 one day earlier. */
  const ExampleDays: seq<Day> := [Day(1, 195, 3, 6, 0, 1, 0.5, 250), Day(2, 194, 1, 5, 1, 1, 0.4, 100)]

  /** The first example day is labelled "Musim Panas", "Saturday" and "Sedang", and is the latest. */
  lemma ExampleRows()
    ensures Derive(ExampleDays).Some?
    ensures var d := Derive(ExampleDays).value;
      && d.table[0].row.row.seasonName == Some("Musim Panas")
      && d.table[0].row.row.weekdayName == Some("Saturday")
      && d.table[0].cntGroup == Some(Binning.Sedang)
      && d.table[0].row.recency == 0 && d.table[1].row.recency == 1
      && d.table[1].row.row.seasonName == Some("Musim Dingin")
      && d.table[1].cntGroup == Some(Binning.SangatRendah)
  {
    var t := LoadData(ExampleDays);
    ExampleLoaded(t);
    var r := Rfm.AddRfm(t);
    ExampleRecency(t);
    Binning.CntGroupEdges();
    var b := Binning.AddCntGroup(r);
    assert Derive(ExampleDays).value.table == b;
  }

  lemma ExampleLoaded(t: seq<LoadedRow>)
    requires t == LoadData(ExampleDays)
    ensures |t| == 2 && t[0].day == ExampleDays[0] && t[1].day == ExampleDays[1]
    ensures t[0].seasonName == Some("Musim Panas") && t[0].weekdayName == Some("Saturday")
    ensures t[1].seasonName == Some("Musim Dingin")
  {
    assert t[0] == LoadRow(ExampleDays[0]) && t[1] == LoadRow(ExampleDays[1]);
  }

  lemma ExampleRecency(t: seq<LoadedRow>)
    requires |t| == 2 && t[0].day.date == 195 && t[1].day.date == 194
    ensures Rfm.AddRfm(t)[0].recency == 0 && Rfm.AddRfm(t)[1].recency == 1
  {
    assert Rfm.MaxDate(t) == 195;
  }

  /** Of the example's two season bars, only the summer one, listed second, is highlighted. */
  lemma ExampleChart()
    ensures Derive(ExampleDays).Some?
    ensures var d := Derive(ExampleDays).value;
      && d.seasonalAvg == SeasonChart.Series(["Musim Dingin", "Musim Panas"], [100.0, 250.0])
      && d.palette == [SeasonChart.Base, SeasonChart.Accent]
  {
    var t := LoadData(ExampleDays);
    assert t[0] == LoadRow(ExampleDays[0]) && t[1] == LoadRow(ExampleDays[1]);
    SeasonExample(t);
    PaletteExample();
  }

  /** Group size and total of a two-row table, spelled out. */
  lemma TwoRowGroups(t: seq<LoadedRow>, n: string)
    requires |t| == 2
    ensures SeasonChart.GroupCount(t, n) ==
      (if t[0].seasonName == Some(n) then 1 else 0) + (if t[1].seasonName == Some(n) then 1 else 0)
    ensures SeasonChart.GroupSum(t, n) ==
      (if t[0].seasonName == Some(n) then t[0].day.cnt else 0) + (if t[1].seasonName == Some(n) then t[1].day.cnt else 0)
  {
    assert t[..1][..0] == [];
    assert t[..1][0] == t[0];
    assert SeasonChart.GroupSum(t[..1], n) == (if t[0].seasonName == Some(n) then t[0].day.cnt else 0);
  }

  /** The seasonal means of a summer day with 250 rentals and a winter day with 100. */
  lemma SeasonExample(t: seq<LoadedRow>)
    requires |t| == 2
    requires t[0].seasonName == Some("Musim Panas") && t[0].day.cnt == 250
    requires t[1].seasonName == Some("Musim Dingin") && t[1].day.cnt == 100
    ensures SeasonChart.SeasonalAvg(t) == SeasonChart.Series(["Musim Dingin", "Musim Panas"], [100.0, 250.0])
  {
    SeasonKeysExample(t);
    SingleDayMean(t, "Musim Dingin", 100);
    SingleDayMean(t, "Musim Panas", 250);
    TwoBars(t, "Musim Dingin", "Musim Panas");
  }

  /** A chart with two present labels has their two means as its bars. */
  lemma TwoBars(t: seq<LoadedRow>, a: string, b: string)
    ensures SeasonChart.PresentKeys(t, SeasonChart.SeasonOrder) == [a, b] ==>
      && SeasonChart.GroupCount(t, a) > 0 && SeasonChart.GroupCount(t, b) > 0
      && SeasonChart.SeasonalAvg(t) ==
           SeasonChart.Series([a, b], [SeasonChart.GroupMean(t, a), SeasonChart.GroupMean(t, b)])
  {
    var s := SeasonChart.SeasonalAvg(t);
    if s.index == [a, b] {
      assert a in s.index && b in s.index;
    }
  }

  /** A season with a single day of `c` rentals in a two-row table has mean `c`. */
  lemma SingleDayMean(t: seq<LoadedRow>, n: string, c: int)
    requires |t| == 2
    requires (t[0].seasonName == Some(n)) != (t[1].seasonName == Some(n))
    requires t[0].seasonName == Some(n) ==> t[0].day.cnt == c
    requires t[1].seasonName == Some(n) ==> t[1].day.cnt == c
    ensures SeasonChart.GroupCount(t, n) > 0 && SeasonChart.GroupMean(t, n) == c as real
  {
    TwoRowGroups(t, n);
  }

  /** Of the four season labels, a summer row and a winter row leave Dingin and Panas, in that order. */
  lemma SeasonKeysExample(t: seq<LoadedRow>)
    requires |t| == 2
    requires t[0].seasonName == Some("Musim Panas")
    requires t[1].seasonName == Some("Musim Dingin")
    ensures SeasonChart.PresentKeys(t, SeasonChart.SeasonOrder) == ["Musim Dingin", "Musim Panas"]
  {
    var order := SeasonChart.SeasonOrder;
    TwoRowGroups(t, "Musim Dingin");
    TwoRowGroups(t, "Musim Gugur");
    TwoRowGroups(t, "Musim Panas");
    TwoRowGroups(t, "Musim Semi");
    assert order[1..][1..][1..][1..] == [];
    assert SeasonChart.PresentKeys(t, order[1..][1..][1..]) == [];
    assert SeasonChart.PresentKeys(t, order[1..][1..]) == ["Musim Panas"];
    assert SeasonChart.PresentKeys(t, order[1..]) == ["Musim Panas"];
  }

  /** Of two bars, the higher one, listed second, is the highlighted one. */
  lemma PaletteExample()
    ensures var p := SeasonChart.Palette(SeasonChart.Series(["Musim Dingin", "Musim Panas"], [100.0, 250.0]));
      && p == [SeasonChart.Base, SeasonChart.Accent]
      && p[0].Hex() == "#3498db" && p[1].Hex() == "#e74c3c"
  {
    assert SeasonChart.ArgMax([100.0, 250.0]) == 1 by {
      assert [100.0, 250.0][..1] == [100.0];
    }
  }
}
