/**
 The `cnt_group` column: `pd.cut` of the daily count into five ordered labels
 over the edges 0, 100, 200, 300, 400, 500. With the defaults `right=True` and
 `include_lowest=False` the bins are (0,100], (100,200], ..., (400,500]; a
 count outside (0,500] gets no label.
 */
module Binning {
  import opened Wrappers
  import opened Rfm

  /** Bin edges as `pd.cut` demands them: strictly increasing. */
  predicate Increasing(edges: seq<int>)
  {
    forall i, j :: 0 <= i < j < |edges| ==> edges[i] < edges[j]
  }

  /** `searchsorted(edges, x, side='left')`: the first position whose edge is at least `x`. */
  function SearchSortedLeft(edges: seq<int>, x: int): (k: nat)
    ensures k <= |edges|
    ensures forall j :: 0 <= j < k ==> edges[j] < x
    ensures k < |edges| ==> x <= edges[k]
  {
    if |edges| == 0 then 0
    else if x <= edges[0] then 0
    else 1 + SearchSortedLeft(edges[1..], x)
  }

  /**
   `pd.cut(x, edges)` with right-closed bins and no lowest edge: the index b of
   the bin (edges[b], edges[b+1]] that holds `x`, or absent when `x` lies
   outside (edges[0], edges[last]]. Like pandas, it locates `x` with a
   left-sided search and discards positions 0 and past-the-end.
   */
  function Cut(x: int, edges: seq<int>): (b: Option<nat>)
    requires Increasing(edges)
    ensures b.Some? <==> |edges| >= 2 && edges[0] < x <= edges[|edges| - 1]
    ensures b.Some? ==> b.value + 1 < |edges| && edges[b.value] < x <= edges[b.value + 1]
  {
    var k := SearchSortedLeft(edges, x);
    if k == 0 || k == |edges| then None else Some(k - 1)
  }

  /** The five labels, in the order of the ordered categorical `pd.cut` builds. */
  datatype CntGroup = SangatRendah | Rendah | Sedang | Tinggi | SangatTinggi
  {
    /** The label text shown in the table. */
    function Label(): string
    {
      match this
      case SangatRendah => "Sangat Rendah"
      case Rendah => "Rendah"
      case Sedang => "Sedang"
      case Tinggi => "Tinggi"
      case SangatTinggi => "Sangat Tinggi"
    }

    /** The category code: position of the label in the label list. */
    function Rank(): nat
    {
      match this
      case SangatRendah => 0
      case Rendah => 1
      case Sedang => 2
      case Tinggi => 3
      case SangatTinggi => 4
    }
  }

  const CntEdges: seq<int> := [0, 100, 200, 300, 400, 500]

  const CntLabels: seq<CntGroup> := [SangatRendah, Rendah, Sedang, Tinggi, SangatTinggi]

  /** The group of one daily count: present exactly on (0,500], and the bin of width 100 holding it. */
  function CntGroupOf(cnt: int): (g: Option<CntGroup>)
    ensures g.Some? <==> 0 < cnt <= 500
    ensures g.Some? ==> 100 * g.value.Rank() < cnt <= 100 * (g.value.Rank() + 1)
  {
    assert Increasing(CntEdges);
    match Cut(cnt, CntEdges)
    case None => None
    case Some(b) =>
      assert CntLabels[b].Rank() == b;
      Some(CntLabels[b])
  }

  /** A row after binning: the RFM row plus `cnt_group`. */
  datatype BinnedRow = BinnedRow(row: RfmRow, cntGroup: Option<CntGroup>)

  /** Adds `cnt_group` to every row, keeping count, order and contents. */
  function AddCntGroup(t: seq<RfmRow>): (r: seq<BinnedRow>)
    ensures |r| == |t|
    ensures forall i :: 0 <= i < |r| ==> r[i].row == t[i]
    ensures forall i :: 0 <= i < |r| ==> (r[i].cntGroup.Some? <==> 0 < t[i].row.day.cnt <= 500)
    ensures forall i :: 0 <= i < |r| && r[i].cntGroup.Some? ==>
      100 * r[i].cntGroup.value.Rank() < t[i].row.day.cnt <= 100 * (r[i].cntGroup.value.Rank() + 1)
  {
    seq(|t|, i requires 0 <= i < |t| => BinnedRow(t[i], CntGroupOf(t[i].row.day.cnt)))
  }

  /** A larger count never gets a lower group. */
  lemma CntGroupMonotone(a: int, b: int)
    requires a <= b
    requires CntGroupOf(a).Some? && CntGroupOf(b).Some?
    ensures CntGroupOf(a).value.Rank() <= CntGroupOf(b).value.Rank()
  {
  }

  /** The group is the closed form ceil(cnt / 100) - 1 on the labelled range. */
  lemma CntGroupClosedForm(cnt: int)
    requires 0 < cnt <= 500
    ensures CntGroupOf(cnt).value.Rank() == (cnt - 1) / 100
  {
  }

  /** The bin edges at the values that matter: 0 and 501 fall outside, 100 and 500 close their bins. */
  lemma CntGroupEdges()
    ensures CntGroupOf(0) == None && CntGroupOf(501) == None
    ensures CntGroupOf(100) == Some(SangatRendah)
    ensures CntGroupOf(250) == Some(Sedang) && CntGroupOf(250).value.Label() == "Sedang"
    ensures CntGroupOf(500) == Some(SangatTinggi)
  {
    assert CntGroupOf(100).value.Rank() == 0;
    assert CntGroupOf(250).value.Rank() == 2;
    assert CntGroupOf(500).value.Rank() == 4;
  }

  /** The groups in bin order carry the chart's five label texts, one per rank. */
  lemma CntLabelTexts()
    ensures |CntLabels| == |CntEdges| - 1
    ensures seq(|CntLabels|, k requires 0 <= k < |CntLabels| => CntLabels[k].Label())
      == ["Sangat Rendah", "Rendah", "Sedang", "Tinggi", "Sangat Tinggi"]
    ensures forall k :: 0 <= k < |CntLabels| ==> CntLabels[k].Rank() == k
  {
  }
}
