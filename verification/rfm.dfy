/**
 The recency / frequency / monetary columns added to the loaded table:
 recency counts days back from the latest date in the whole table, frequency
 counts the rows sharing a row's `instant`, and monetary copies `cnt`.
 */
module Rfm {
  import opened Load

  /** `df['dteday'].max()`: the latest date of a non-empty table, and one that occurs in it. */
  function MaxDate(t: seq<LoadedRow>): (m: int)
    requires |t| > 0
    ensures forall i :: 0 <= i < |t| ==> t[i].day.date <= m
    ensures exists i :: 0 <= i < |t| && t[i].day.date == m
  {
    if |t| == 1 then t[0].day.date
    else
      var m' := MaxDate(t[..|t| - 1]);
      if t[|t| - 1].day.date > m' then t[|t| - 1].day.date else m'
  }

  /** The rows of `t` whose `instant` is `id`, as a set of positions. */
  ghost function RowsWithInstant(t: seq<LoadedRow>, id: int): set<nat>
  {
    set i: nat | i < |t| && t[i].day.instant == id
  }

  /** Size of the `instant` group `id`: what `transform('count')` writes on each of its rows. */
  function CountInstant(t: seq<LoadedRow>, id: int): (n: nat)
    ensures n <= |t|
    ensures n > 0 <==> exists i :: 0 <= i < |t| && t[i].day.instant == id
  {
    if |t| == 0 then 0
    else CountInstant(t[..|t| - 1], id) + (if t[|t| - 1].day.instant == id then 1 else 0)
  }

  /** A row after the RFM step: the loaded row plus three new columns. */
  datatype RfmRow = RfmRow(row: LoadedRow, recency: int, frequency: nat, monetary: int)

  /** Adds `recency`, `frequency` and `monetary` to every row, keeping count, order and contents. */
  function AddRfm(t: seq<LoadedRow>): (r: seq<RfmRow>)
    ensures |r| == |t|
    ensures forall i :: 0 <= i < |r| ==> r[i].row == t[i]
    ensures forall i :: 0 <= i < |r| ==> r[i].recency >= 0
    ensures forall i :: 0 <= i < |r| ==>
      (r[i].recency == 0 <==> forall j :: 0 <= j < |t| ==> t[j].day.date <= t[i].day.date)
    ensures forall i :: 0 <= i < |r| ==> r[i].recency == MaxDate(t) - t[i].day.date
    ensures forall i :: 0 <= i < |r| ==> r[i].frequency == |RowsWithInstant(t, t[i].day.instant)|
    ensures forall i :: 0 <= i < |r| ==> 1 <= r[i].frequency <= |t|
    ensures forall i :: 0 <= i < |r| ==> r[i].monetary == t[i].day.cnt
  {
    CountAllGroups(t);
    if |t| == 0 then []
    else
      var latest := MaxDate(t);
      seq(|t|, i requires 0 <= i < |t| =>
        RfmRow(t[i], latest - t[i].day.date, CountInstant(t, t[i].day.instant), t[i].day.cnt))
  }

  /** Counting by recursion agrees with the size of the group of positions. */
  lemma {:induction false} CountInstantIsGroupSize(t: seq<LoadedRow>, id: int)
    ensures CountInstant(t, id) == |RowsWithInstant(t, id)|
  {
    if |t| > 0 {
      var p := t[..|t| - 1];
      CountInstantIsGroupSize(p, id);
      if t[|t| - 1].day.instant == id {
        assert RowsWithInstant(t, id) == RowsWithInstant(p, id) + {|t| - 1};
      } else {
        assert RowsWithInstant(t, id) == RowsWithInstant(p, id);
      }
    }
  }

  lemma CountAllGroups(t: seq<LoadedRow>)
    ensures forall id :: CountInstant(t, id) == |RowsWithInstant(t, id)|
  {
    forall id {
      CountInstantIsGroupSize(t, id);
    }
  }

  /** No two rows share an `instant`. */
  predicate UniqueInstants(t: seq<LoadedRow>)
  {
    forall i, j :: 0 <= i < j < |t| ==> t[i].day.instant != t[j].day.instant
  }

  /** With unique instants every row forms a group of its own. */
  lemma UniqueGroupIsSingleton(t: seq<LoadedRow>, i: nat)
    requires UniqueInstants(t)
    requires i < |t|
    ensures RowsWithInstant(t, t[i].day.instant) == {i}
  {
    var g := RowsWithInstant(t, t[i].day.instant);
    assert forall j :: j in g ==> j < |t| && t[j].day.instant == t[i].day.instant;
    assert i in g;
  }

  /** Two rows sharing an `instant` make a group of at least two. */
  lemma SharedGroupHasTwo(t: seq<LoadedRow>, i: nat, j: nat)
    requires i < |t| && j < |t| && i != j
    requires t[i].day.instant == t[j].day.instant
    ensures |RowsWithInstant(t, t[i].day.instant)| >= 2
  {
    var g := RowsWithInstant(t, t[i].day.instant);
    var rest := g - {i, j};
    assert g == rest + {i, j};
    assert rest * {i, j} == {};
    assert |{i, j}| == 2;
  }

  /** Each row's `instant` group is the row alone exactly when instants are unique. */
  lemma SingletonGroupsIffUnique(t: seq<LoadedRow>)
    ensures (forall i :: 0 <= i < |t| ==> |RowsWithInstant(t, t[i].day.instant)| == 1) <==> UniqueInstants(t)
  {
    if UniqueInstants(t) {
      forall i | 0 <= i < |t|
        ensures |RowsWithInstant(t, t[i].day.instant)| == 1
      {
        UniqueGroupIsSingleton(t, i);
      }
    } else {
      var i, j :| 0 <= i < j < |t| && t[i].day.instant == t[j].day.instant;
      SharedGroupHasTwo(t, i, j);
    }
  }

  /** Every `frequency` is 1 exactly when `instant` is a true row identifier. */
  lemma FrequencyOneIffUnique(t: seq<LoadedRow>)
    ensures (forall i :: 0 <= i < |t| ==> AddRfm(t)[i].frequency == 1) <==> UniqueInstants(t)
  {
    var r := AddRfm(t);
    assert forall i :: 0 <= i < |t| ==> r[i].frequency == |RowsWithInstant(t, t[i].day.instant)|;
    SingletonGroupsIffUnique(t);
  }
}
