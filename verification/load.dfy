/**
 The loader: one row per calendar day, with the season and weekday labels
 added as two new columns. Reading the file and parsing the date column are
 outside the model; `date` arrives already parsed, as a day ordinal.
 */
module Load {
  import opened Wrappers
  import Labels

  /** One row of the daily table as read from disk. */
  datatype Day = Day(
    instant: int,      // row identifier
    date: int,         // the parsed `dteday`, as a day number
    season: int,       // season code, 1 to 4 in the data
    weekday: int,      // weekday code, 0 (Sunday) to 6
    workingday: int,
    weathersit: int,
    temp: real,        // normalised temperature, carried through untouched
    cnt: int)          // rentals that day

  /** A row after loading: the source fields plus `season_name` and `weekday_name`. */
  datatype LoadedRow = LoadedRow(day: Day, seasonName: Option<string>, weekdayName: Option<string>)

  /** Labels one row. The labels are present exactly for codes in their tables, and decode back to them. */
  function LoadRow(d: Day): (r: LoadedRow)
    ensures r.day == d
    ensures r.seasonName.Some? <==> 1 <= d.season <= 4
    ensures r.seasonName.Some? ==> Labels.SeasonCode(r.seasonName.value) == Some(d.season)
    ensures r.weekdayName.Some? <==> 0 <= d.weekday <= 6
    ensures r.weekdayName.Some? ==> Labels.WeekdayCode(r.weekdayName.value) == Some(d.weekday)
  {
    LoadedRow(d, Labels.SeasonName(d.season), Labels.WeekdayName(d.weekday))
  }

  /** The loaded table: same rows in the same order, each labelled by `LoadRow`. */
  function LoadData(raw: seq<Day>): (t: seq<LoadedRow>)
    ensures |t| == |raw|
    ensures forall i :: 0 <= i < |t| ==> t[i].day == raw[i]
    ensures forall i :: 0 <= i < |t| ==>
      && (t[i].seasonName.Some? <==> 1 <= raw[i].season <= 4)
      && (t[i].seasonName.Some? ==> Labels.SeasonCode(t[i].seasonName.value) == Some(raw[i].season))
      && (t[i].weekdayName.Some? <==> 0 <= raw[i].weekday <= 6)
      && (t[i].weekdayName.Some? ==> Labels.WeekdayCode(t[i].weekdayName.value) == Some(raw[i].weekday))
  {
    seq(|raw|, i requires 0 <= i < |raw| => LoadRow(raw[i]))
  }
}
