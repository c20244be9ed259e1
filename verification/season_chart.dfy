/**
 The seasonal bar chart: the mean daily count per season label, and the bar
 colours, where the season with the highest mean gets the accent colour.
 `groupby` drops rows with no season label and, by default, sorts its keys,
 so the chart's categories are the labels present, in string order.
 */
module SeasonChart {
  import opened Wrappers
  import opened Load
  import Labels

  // ---------------------------------------------------------------------
  // String order, as Python compares `str` values

  /** `a < b` on Python strings: lexicographic on code points, a proper prefix first. */
  predicate StrLess(a: string, b: string)
  {
    if |a| == 0 then |b| > 0
    else if |b| == 0 then false
    else a[0] < b[0] || (a[0] == b[0] && StrLess(a[1..], b[1..]))
  }

  /** Two strings that agree up to position `k` and differ there are ordered by that character. */
  lemma {:induction false} StrLessAt(a: string, b: string, k: nat)
    requires k < |a| && k < |b|
    requires a[..k] == b[..k] && a[k] < b[k]
    ensures StrLess(a, b)
  {
    if k > 0 {
      assert a[0] == a[..k][0] == b[..k][0] == b[0];
      assert a[1..][..k - 1] == a[..k][1..] == b[..k][1..] == b[1..][..k - 1];
      StrLessAt(a[1..], b[1..], k - 1);
    }
  }

  /** No string is below itself. */
  lemma {:induction false} StrLessIrreflexive(a: string)
    ensures !StrLess(a, a)
  {
    if |a| > 0 {
      StrLessIrreflexive(a[1..]);
    }
  }

  predicate StrictlySorted(names: seq<string>)
  {
    forall i, j :: 0 <= i < j < |names| ==> StrLess(names[i], names[j])
  }

  predicate Distinct<T(==)>(s: seq<T>)
  {
    forall i, j :: 0 <= i < |s| && 0 <= j < |s| && i != j ==> s[i] != s[j]
  }

  lemma SortedIsDistinct(names: seq<string>)
    requires StrictlySorted(names)
    ensures Distinct(names)
  {
    forall i, j | 0 <= i < |names| && 0 <= j < |names| && i != j
      ensures names[i] != names[j]
    {
      StrLessIrreflexive(names[i]);
    }
  }

  /** The season labels in the order `groupby` lists them. */
  const SeasonOrder: seq<string> := ["Musim Dingin", "Musim Gugur", "Musim Panas", "Musim Semi"]

  /** `SeasonOrder` is the set of season labels, sorted as Python sorts strings. */
  lemma SeasonOrderIsSortedLabels()
    ensures StrictlySorted(SeasonOrder)
    ensures forall c :: 1 <= c <= 4 ==> Labels.SeasonName(c).value in SeasonOrder
    ensures forall i :: 0 <= i < |SeasonOrder| ==> Labels.SeasonCode(SeasonOrder[i]).Some?
  {
    // Each pair shares the prefix "Musim " and differs at position 6: D < G < P < S.
    forall i, j | 0 <= i < j < |SeasonOrder|
      ensures StrLess(SeasonOrder[i], SeasonOrder[j])
    {
      assert SeasonOrder[i][..6] == "Musim " == SeasonOrder[j][..6];
      StrLessAt(SeasonOrder[i], SeasonOrder[j], 6);
    }
  }

  // ---------------------------------------------------------------------
  // groupby('season_name')['cnt']

  /** Rows labelled `name`; rows without a label belong to no group. */
  function GroupCount(t: seq<LoadedRow>, name: string): (n: nat)
    ensures n <= |t|
    ensures n > 0 <==> exists i :: 0 <= i < |t| && t[i].seasonName == Some(name)
  {
    if |t| == 0 then 0
    else GroupCount(t[..|t| - 1], name) + (if t[|t| - 1].seasonName == Some(name) then 1 else 0)
  }

  /** The positions of the rows labelled `name`. */
  ghost function RowsWithLabel(t: seq<LoadedRow>, name: string): set<nat>
  {
    set i: nat | i < |t| && t[i].seasonName == Some(name)
  }

  /** The recursive group size is the number of rows carrying the label. */
  lemma {:induction false} GroupCountIsGroupSize(t: seq<LoadedRow>, name: string)
    ensures GroupCount(t, name) == |RowsWithLabel(t, name)|
  {
    if |t| > 0 {
      var p := t[..|t| - 1];
      GroupCountIsGroupSize(p, name);
      if t[|t| - 1].seasonName == Some(name) {
        assert RowsWithLabel(t, name) == RowsWithLabel(p, name) + {|t| - 1};
      } else {
        assert RowsWithLabel(t, name) == RowsWithLabel(p, name);
      }
    }
  }

  /** Total `cnt` over the rows labelled `name`. */
  function GroupSum(t: seq<LoadedRow>, name: string): int
  {
    if |t| == 0 then 0
    else GroupSum(t[..|t| - 1], name) + (if t[|t| - 1].seasonName == Some(name) then t[|t| - 1].day.cnt else 0)
  }

  /** `a` is `b` with some elements left out, the rest kept in order. */
  predicate IsSubsequence<T(==)>(a: seq<T>, b: seq<T>)
    decreases |b|
  {
    if |a| == 0 then true
    else if |b| == 0 then false
    else (a[0] == b[0] && IsSubsequence(a[1..], b[1..])) || IsSubsequence(a, b[1..])
  }

  /** The keys of `order` that have at least one row, in the order given. */
  function PresentKeys(t: seq<LoadedRow>, order: seq<string>): (keys: seq<string>)
    ensures forall k :: k in keys <==> k in order && GroupCount(t, k) > 0
    ensures StrictlySorted(order) ==> StrictlySorted(keys)
  {
    if |order| == 0 then []
    else
      var rest := PresentKeys(t, order[1..]);
      if GroupCount(t, order[0]) > 0 then
        assert StrictlySorted(order) ==> forall k :: k in rest ==> StrLess(order[0], k);
        [order[0]] + rest
      else rest
  }

  /** The kept keys are a subsequence of the given order: none added, none reordered. */
  lemma {:induction false} PresentKeysInOrder(t: seq<LoadedRow>, order: seq<string>)
    ensures IsSubsequence(PresentKeys(t, order), order)
  {
    if |order| > 0 {
      var rest := PresentKeys(t, order[1..]);
      PresentKeysInOrder(t, order[1..]);
      if GroupCount(t, order[0]) > 0 {
        assert ([order[0]] + rest)[1..] == rest;
      }
    }
  }

  /** `m` lies between the counts of two rows labelled `name`. */
  predicate WithinGroup(t: seq<LoadedRow>, name: string, m: real)
  {
    exists i, j ::
      && 0 <= i < |t| && t[i].seasonName == Some(name)
      && 0 <= j < |t| && t[j].seasonName == Some(name)
      && t[i].day.cnt as real <= m <= t[j].day.cnt as real
  }

  /** The exact mean `cnt` of the rows labelled `name`: the value that, times the group size, gives the group total. */
  function GroupMean(t: seq<LoadedRow>, name: string): (m: real)
    requires GroupCount(t, name) > 0
    ensures m * GroupCount(t, name) as real == GroupSum(t, name) as real
  {
    GroupSum(t, name) as real / GroupCount(t, name) as real
  }

  /** A non-empty group has a row with the smallest and a row with the largest count. */
  lemma {:induction false} GroupExtremes(t: seq<LoadedRow>, name: string) returns (lo: nat, hi: nat)
    requires GroupCount(t, name) > 0
    ensures lo < |t| && t[lo].seasonName == Some(name)
    ensures hi < |t| && t[hi].seasonName == Some(name)
    ensures forall k :: 0 <= k < |t| && t[k].seasonName == Some(name) ==>
      t[lo].day.cnt <= t[k].day.cnt <= t[hi].day.cnt
  {
    var p := t[..|t| - 1];
    var last := |t| - 1;
    assert forall k :: 0 <= k < |p| ==> p[k] == t[k];
    if t[last].seasonName != Some(name) {
      lo, hi := GroupExtremes(p, name);
    } else if GroupCount(p, name) == 0 {
      lo, hi := last, last;
    } else {
      var l, h := GroupExtremes(p, name);
      lo := if t[last].day.cnt < t[l].day.cnt then last else l;
      hi := if t[last].day.cnt > t[h].day.cnt then last else h;
    }
  }

  /** A season's mean lies between the counts of two of its days. */
  lemma MeanWithinGroup(t: seq<LoadedRow>, name: string)
    requires GroupCount(t, name) > 0
    ensures WithinGroup(t, name, GroupMean(t, name))
  {
    var lo, hi := GroupExtremes(t, name);
    GroupSumBounds(t, name, t[lo].day.cnt, t[hi].day.cnt);
    MeanBetween(GroupSum(t, name), GroupCount(t, name), t[lo].day.cnt, t[hi].day.cnt);
  }

  /** A pandas Series of means, indexed by label. */
  datatype Series = Series(index: seq<string>, values: seq<real>)

  /**
   `df.groupby('season_name')['cnt'].mean()`: one entry per label that has rows,
   in string order, holding that group's exact mean. The candidate keys are the
   four season labels, the only labels the loader writes (`LoadedLabels`); a
   row carrying any other label would get no bar here, where pandas would give
   it one.
   */
  function SeasonalAvg(t: seq<LoadedRow>): (s: Series)
    ensures |s.index| == |s.values|
    ensures StrictlySorted(s.index)
    ensures forall n :: n in s.index <==> n in SeasonOrder && GroupCount(t, n) > 0
    ensures forall k :: 0 <= k < |s.index| ==>
      GroupCount(t, s.index[k]) > 0 && s.values[k] == GroupMean(t, s.index[k])
  {
    SeasonOrderIsSortedLabels();
    var keys := PresentKeys(t, SeasonOrder);
    Series(keys, seq(|keys|, k requires 0 <= k < |keys| => GroupMean(t, keys[k])))
  }

  // ---------------------------------------------------------------------
  // idxmax and the palette

  /** `Series.idxmax` position: a largest value, the first one on ties. */
  function ArgMax(xs: seq<real>): (k: nat)
    requires |xs| > 0
    ensures k < |xs|
    ensures forall j :: 0 <= j < |xs| ==> xs[j] <= xs[k]
    ensures forall j :: 0 <= j < k ==> xs[j] < xs[k]
  {
    if |xs| == 1 then 0
    else
      var k := ArgMax(xs[..|xs| - 1]);
      if xs[|xs| - 1] > xs[k] then |xs| - 1 else k
  }

  /** `Series.idxmax()`: the label of the first largest mean. */
  function IdxMax(s: Series): string
    requires 0 < |s.index| == |s.values|
  {
    s.index[ArgMax(s.values)]
  }

  /** The two bar colours. */
  datatype Colour = Base | Accent
  {
    function Hex(): string
    {
      match this
      case Base => "#3498db"
      case Accent => "#e74c3c"
    }
  }

  /**
   One colour per bar: accent for the bar whose label equals `idxmax`, base for
   the others. Over an empty index the comprehension runs no test, so `idxmax` is never asked for.
   */
  function Palette(s: Series): (p: seq<Colour>)
    requires |s.index| == |s.values|
    ensures |p| == |s.index|
    ensures Distinct(s.index) ==>
      forall i :: 0 <= i < |p| ==> (p[i] == Accent <==> i == ArgMax(s.values))
  {
    if |s.index| == 0 then []
    else
      var top := IdxMax(s);
      seq(|s.index|, i requires 0 <= i < |s.index| => if s.index[i] != top then Base else Accent)
  }

  /** Number of accent bars. */
  function AccentCount(p: seq<Colour>): nat
  {
    if |p| == 0 then 0 else AccentCount(p[..|p| - 1]) + (if p[|p| - 1] == Accent then 1 else 0)
  }

  lemma {:induction false} AccentCountOne(p: seq<Colour>, k: nat)
    requires k < |p|
    requires forall i :: 0 <= i < |p| ==> (p[i] == Accent <==> i == k)
    ensures AccentCount(p) == 1
  {
    var q := p[..|p| - 1];
    if k == |p| - 1 {
      AccentCountZero(q);
    } else {
      AccentCountOne(q, k);
    }
  }

  lemma {:induction false} AccentCountZero(p: seq<Colour>)
    requires forall i :: 0 <= i < |p| ==> p[i] == Base
    ensures AccentCount(p) == 0
  {
    if |p| > 0 {
      AccentCountZero(p[..|p| - 1]);
    }
  }

  /**
   Over distinct labels the palette has one accent bar when it has any bar at
   all; that bar's value is at least every other, and strictly above the
   values listed before it.
   */
  lemma PaletteHighlight(s: Series)
    requires |s.index| == |s.values|
    requires Distinct(s.index)
    ensures AccentCount(Palette(s)) == (if |s.index| == 0 then 0 else 1)
    ensures forall k :: 0 <= k < |s.index| && Palette(s)[k] == Accent ==>
      && (forall j :: 0 <= j < |s.values| ==> s.values[j] <= s.values[k])
      && (forall j :: 0 <= j < k ==> s.values[j] < s.values[k])
  {
    var p := Palette(s);
    if |s.index| == 0 {
      AccentCountZero(p);
    } else {
      AccentCountOne(p, ArgMax(s.values));
    }
  }

  /** Exactly one bar is highlighted, and its value is at least every other and above every earlier one. */
  predicate HighlightsFirstLargest(s: Series, p: seq<Colour>)
  {
    && |p| == |s.values|
    && AccentCount(p) == 1
    && forall k :: 0 <= k < |p| && p[k] == Accent ==>
      && (forall j :: 0 <= j < |p| ==> s.values[j] <= s.values[k])
      && (forall j :: 0 <= j < k ==> s.values[j] < s.values[k])
  }

  /** The seasonal chart highlights exactly one bar, the first largest mean, whenever it has a bar. */
  lemma SeasonPaletteHighlight(t: seq<LoadedRow>)
    ensures var s := SeasonalAvg(t);
      AccentCount(Palette(s)) == (if |s.index| == 0 then 0 else 1)
    ensures var s := SeasonalAvg(t); var p := Palette(s);
      forall k :: 0 <= k < |p| && p[k] == Accent ==>
        && (forall j :: 0 <= j < |p| ==> s.values[j] <= s.values[k])
        && (forall j :: 0 <= j < k ==> s.values[j] < s.values[k])
  {
    var s := SeasonalAvg(t);
    SortedIsDistinct(s.index);
    PaletteHighlight(s);
  }
  /** A seasonal chart with any bar highlights exactly one, its first largest mean. */
  lemma SeasonChartHighlighted(t: seq<LoadedRow>)
    ensures var s := SeasonalAvg(t);
      |s.index| > 0 ==> HighlightsFirstLargest(s, Palette(s))
  {
    SeasonPaletteHighlight(t);
  }


  // ---------------------------------------------------------------------
  // Which rows the averages cover

  /** Rows that carry a season label: the rows `groupby` keeps. */
  function LabelledCount(t: seq<LoadedRow>): (n: nat)
    ensures n <= |t|
  {
    if |t| == 0 then 0
    else LabelledCount(t[..|t| - 1]) + (if t[|t| - 1].seasonName.Some? then 1 else 0)
  }

  /** Sum of the group sizes of `keys`. */
  function TotalCount(t: seq<LoadedRow>, keys: seq<string>): nat
  {
    if |keys| == 0 then 0 else GroupCount(t, keys[0]) + TotalCount(t, keys[1..])
  }

  /** How many of `keys` equal the label `x`. */
  function Matches(keys: seq<string>, x: Option<string>): nat
  {
    if |keys| == 0 then 0 else (if Some(keys[0]) == x then 1 else 0) + Matches(keys[1..], x)
  }

  lemma {:induction false} TotalCountStep(t: seq<LoadedRow>, keys: seq<string>)
    requires |t| > 0
    ensures TotalCount(t, keys) == TotalCount(t[..|t| - 1], keys) + Matches(keys, t[|t| - 1].seasonName)
  {
    if |keys| > 0 {
      TotalCountStep(t, keys[1..]);
    }
  }

  lemma {:induction false} MatchesDistinct(keys: seq<string>, x: Option<string>)
    requires Distinct(keys)
    ensures Matches(keys, x) == (if x.Some? && x.value in keys then 1 else 0)
  {
    if |keys| > 0 {
      assert Distinct(keys[1..]);
      MatchesDistinct(keys[1..], x);
      assert keys[0] !in keys[1..];
      assert x.Some? && x.value in keys <==> x == Some(keys[0]) || (x.Some? && x.value in keys[1..]);
    }
  }

  /** When every label is among distinct `keys`, their groups together hold exactly the labelled rows. */
  lemma {:induction false} TotalCountIsLabelled(t: seq<LoadedRow>, keys: seq<string>)
    requires Distinct(keys)
    requires forall i :: 0 <= i < |t| && t[i].seasonName.Some? ==> t[i].seasonName.value in keys
    ensures TotalCount(t, keys) == LabelledCount(t)
  {
    if |t| > 0 {
      var p := t[..|t| - 1];
      var last := t[|t| - 1].seasonName;
      assert forall i :: 0 <= i < |p| ==> p[i] == t[i];
      TotalCountIsLabelled(p, keys);
      TotalCountStep(t, keys);
      MatchesDistinct(keys, last);
      assert last.Some? ==> last.value in keys;
      assert LabelledCount(t) == LabelledCount(p) + (if last.Some? then 1 else 0);
    } else {
      TotalCountEmpty(t, keys);
    }
  }

  lemma {:induction false} TotalCountEmpty(t: seq<LoadedRow>, keys: seq<string>)
    requires |t| == 0
    ensures TotalCount(t, keys) == 0
  {
    if |keys| > 0 {
      TotalCountEmpty(t, keys[1..]);
    }
  }

  /** Dropping the empty groups changes no total. */
  lemma {:induction false} TotalCountPresent(t: seq<LoadedRow>, order: seq<string>)
    ensures TotalCount(t, PresentKeys(t, order)) == TotalCount(t, order)
  {
    if |order| > 0 {
      TotalCountPresent(t, order[1..]);
    }
  }

  /** Every label a loaded row carries is one of `SeasonOrder`, and is the lookup of the row's code. */
  lemma LoadedLabels(raw: seq<Day>)
    ensures var t := LoadData(raw);
      forall i :: 0 <= i < |t| ==>
        && t[i].seasonName == Labels.SeasonName(raw[i].season)
        && (t[i].seasonName.Some? ==> t[i].seasonName.value in SeasonOrder)
  {
    SeasonOrderIsSortedLabels();
  }

  /** The chart has a bar for a label exactly when some day's season code maps to that label. */
  lemma SeasonIndexOfLoaded(raw: seq<Day>)
    ensures forall n :: n in SeasonalAvg(LoadData(raw)).index <==>
      exists i :: 0 <= i < |raw| && Labels.SeasonName(raw[i].season) == Some(n)
  {
    LoadedLabels(raw);
  }

  /** The seasonal means cover exactly the rows with a season label, each once. */
  lemma SeasonAveragesCoverLabelledRows(raw: seq<Day>)
    ensures var t := LoadData(raw);
      TotalCount(t, SeasonalAvg(t).index) == LabelledCount(t)
  {
    var t := LoadData(raw);
    LoadedLabels(raw);
    SeasonOrderIsSortedLabels();
    SortedIsDistinct(SeasonOrder);
    TotalCountPresent(t, SeasonOrder);
    TotalCountIsLabelled(t, SeasonOrder);
  }

  // ---------------------------------------------------------------------
  // Means lie within their group

  lemma {:induction false} GroupSumBounds(t: seq<LoadedRow>, name: string, lo: int, hi: int)
    requires forall i :: 0 <= i < |t| && t[i].seasonName == Some(name) ==> lo <= t[i].day.cnt <= hi
    ensures lo * GroupCount(t, name) <= GroupSum(t, name) <= hi * GroupCount(t, name)
  {
    if |t| > 0 {
      var p := t[..|t| - 1];
      GroupSumBounds(p, name, lo, hi);
      var c := GroupCount(p, name);
      if t[|t| - 1].seasonName == Some(name) {
        assert lo * (c + 1) == lo * c + lo;
        assert hi * (c + 1) == hi * c + hi;
      }
    }
  }

  /** A season's mean lies between the smallest and the largest count of its days. */
  lemma GroupMeanBounds(t: seq<LoadedRow>, name: string, lo: int, hi: int)
    requires GroupCount(t, name) > 0
    requires forall i :: 0 <= i < |t| && t[i].seasonName == Some(name) ==> lo <= t[i].day.cnt <= hi
    ensures lo as real <= GroupMean(t, name) <= hi as real
  {
    GroupSumBounds(t, name, lo, hi);
    MeanBetween(GroupSum(t, name), GroupCount(t, name), lo, hi);
  }

  lemma MeanBetween(sum: int, n: nat, lo: int, hi: int)
    requires n > 0 && lo * n <= sum <= hi * n
    ensures lo as real <= sum as real / n as real <= hi as real
  {
    var c := n as real;
    var m := sum as real / c;
    assert m * c == sum as real;
    assert (lo * n) as real == lo as real * c;
    assert (hi * n) as real == hi as real * c;
    CancelPositive(lo as real, m, c);
    CancelPositive(m, hi as real, c);
  }

  lemma CancelPositive(a: real, b: real, c: real)
    requires c > 0.0 && a * c <= b * c
    ensures a <= b
  {
    assert (b - a) * c == b * c - a * c;
  }
}
