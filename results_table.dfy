/**
 * The non-widget part of `update_results_table`: each ranked row is given
 * the rank number shown in its first column and the relevance that colours
 * it, both taken from the record's position in the provider's original
 * order.
 */
module ResultsTable {
  import opened Wrappers
  import opened Places

  /** Index of the last record of `s` whose id is `id`. */
  function LastIndexOf(s: seq<Place>, id: string): (r: Option<nat>)
    ensures r.Some? ==> r.value < |s| && s[r.value].id == Some(id)
    ensures r.Some? ==> forall j :: r.value < j < |s| ==> s[j].id != Some(id)
    ensures r.None? ==> forall j :: 0 <= j < |s| ==> s[j].id != Some(id)
  {
    if s == [] then None
    else if s[|s| - 1].id == Some(id) then Some(|s| - 1)
    else LastIndexOf(s[..|s| - 1], id)
  }

  /**
   * The `id_to_index` dictionary: every non-empty id of `originalOrder`
   * maps to the index of its last occurrence (later writes win); no other
   * key is present.
   */
  method BuildIdIndex(originalOrder: seq<Place>) returns (idToIndex: map<string, nat>)
    ensures forall id :: id in idToIndex <==> id != "" && LastIndexOf(originalOrder, id).Some?
    ensures forall id :: id in idToIndex ==> LastIndexOf(originalOrder, id) == Some(idToIndex[id])
  {
    idToIndex := map[];
    var idx := 0;
    while idx < |originalOrder|
      invariant 0 <= idx <= |originalOrder|
      invariant forall id :: id in idToIndex <==> id != "" && LastIndexOf(originalOrder[..idx], id).Some?
      invariant forall id :: id in idToIndex ==> LastIndexOf(originalOrder[..idx], id) == Some(idToIndex[id])
    {
      var pid := originalOrder[idx].id;
      if pid.Some? && pid.value != "" {
        idToIndex := idToIndex[pid.value := idx];
      }
      assert originalOrder[..idx + 1][..idx] == originalOrder[..idx];
      idx := idx + 1;
    }
    assert originalOrder[..idx] == originalOrder;
  }

  /**
   * `1 - idx/(n-1)` when `n > 1`, else 1: the provider's first record has
   * relevance 1, its last 0, and relevance falls strictly with the index.
   */
  function Relevance(idx: int, n: int): (r: real)
    ensures n <= 1 ==> r == 1.0
    ensures 0 <= idx <= n - 1 ==> 0.0 <= r <= 1.0
    ensures n > 1 ==> (r == 1.0 <==> idx == 0) && (r == 0.0 <==> idx == n - 1)
  {
    if n > 1 then 1.0 - (idx as real) / ((n - 1) as real) else 1.0
  }

  lemma RelevanceDecreasing(i: int, j: int, n: int)
    requires n > 1 && i < j
    ensures Relevance(i, n) > Relevance(j, n)
  {
    var d := (n - 1) as real;
    assert (i as real) / d < (j as real) / d by {
      assert (j as real) / d - (i as real) / d == ((j - i) as real) / d;
    }
  }

  /** The first-column number and the colour value of one row. */
  datatype RankCell = RankCell(rank: int, relevance: real)

  /** `n`: the length of the original order, or of the rows when there is none. */
  function TableSize(places: seq<Place>, originalOrder: seq<Place>): nat {
    if originalOrder != [] then |originalOrder| else |places|
  }

  /** Where the row's record sits in the original order, when its id is found there. */
  function OriginalIndex(place: Place, originalOrder: seq<Place>): Option<nat> {
    var pid := place.id.GetOr("");
    if originalOrder != [] && pid != "" then LastIndexOf(originalOrder, pid) else None
  }

  /** Rank and relevance of row `row`, falling back to the row's own position. */
  function RowCell(place: Place, row: nat, originalOrder: seq<Place>, n: int): RankCell {
    match OriginalIndex(place, originalOrder)
    case Some(idx) => RankCell(idx + 1, Relevance(idx, n))
    case None => RankCell(row + 1, Relevance(row, n))
  }

  /** The rank and relevance of every row of the results table. */
  method UpdateResultsTable(places: seq<Place>, originalOrder: seq<Place>) returns (cells: seq<RankCell>)
    ensures |cells| == |places|
    ensures forall row :: 0 <= row < |places| ==>
      cells[row] == RowCell(places[row], row, originalOrder, TableSize(places, originalOrder))
  {
    var n := if originalOrder != [] then |originalOrder| else |places|;
    var idToIndex: map<string, nat> := map[];
    if originalOrder != [] {
      idToIndex := BuildIdIndex(originalOrder);
    }
    cells := [];
    var row := 0;
    while row < |places|
      invariant 0 <= row <= |places|
      invariant |cells| == row
      invariant forall r :: 0 <= r < row ==> cells[r] == RowCell(places[r], r, originalOrder, n)
    {
      var place := places[row];
      var placeId := place.id.GetOr("");
      var cell;
      if originalOrder != [] && placeId in idToIndex {
        var origIdx := idToIndex[placeId];
        cell := RankCell(origIdx + 1, Relevance(origIdx, n));
      } else {
        cell := RankCell(row + 1, Relevance(row, n));
      }
      cells := cells + [cell];
      row := row + 1;
    }
  }

  /**
   * When no row lies beyond the original order (as for a fresh search,
   * whose ranked list is drawn from it), every row shows a rank in 1..n and
   * a relevance in [0, 1]; a row whose record has a non-empty id found in
   * the original order shows the position of the last record there with
   * that id.
   */
  lemma RowCellBounds(places: seq<Place>, originalOrder: seq<Place>, row: nat)
    requires row < |places|
    requires originalOrder == [] || |places| <= |originalOrder|
    ensures var n := TableSize(places, originalOrder);
      var cell := RowCell(places[row], row, originalOrder, n);
      && 1 <= cell.rank <= n
      && 0.0 <= cell.relevance <= 1.0
      && (OriginalIndex(places[row], originalOrder).Some? ==>
            originalOrder[cell.rank - 1].id == places[row].id)
  {
  }

  /**
   * A record that occurs in the original order with a non-empty id is
   * always found there, so its row never falls back to its own position.
   */
  lemma FoundInOriginalOrder(place: Place, originalOrder: seq<Place>)
    requires place in originalOrder
    requires place.id.Some? && place.id.value != ""
    ensures OriginalIndex(place, originalOrder).Some?
  {
  }

  /**
   * For rows drawn from the original order (a sub-multiset of it), every
   * row shows a rank in 1..n and a relevance in [0, 1], and every row whose
   * record has a non-empty id is found in the original order.
   */
  lemma RankedRows(places: seq<Place>, originalOrder: seq<Place>)
    requires multiset(places) <= multiset(originalOrder)
    ensures forall row :: 0 <= row < |places| ==>
      var cell := RowCell(places[row], row, originalOrder, TableSize(places, originalOrder));
      && 1 <= cell.rank <= |originalOrder|
      && 0.0 <= cell.relevance <= 1.0
      && (places[row].id.Some? && places[row].id.value != "" ==>
            OriginalIndex(places[row], originalOrder).Some? &&
            cell.rank == OriginalIndex(places[row], originalOrder).value + 1)
  {
    assert |places| <= |originalOrder| by {
      var rest := multiset(originalOrder) - multiset(places);
      assert multiset(originalOrder) == multiset(places) + rest;
    }
    forall row | 0 <= row < |places|
      ensures var cell := RowCell(places[row], row, originalOrder, TableSize(places, originalOrder));
        && 1 <= cell.rank <= |originalOrder|
        && 0.0 <= cell.relevance <= 1.0
        && (places[row].id.Some? && places[row].id.value != "" ==>
              OriginalIndex(places[row], originalOrder).Some? &&
              cell.rank == OriginalIndex(places[row], originalOrder).value + 1)
    {
      RowCellBounds(places, originalOrder, row);
      assert places[row] in multiset(places);
      if places[row].id.Some? && places[row].id.value != "" {
        FoundInOriginalOrder(places[row], originalOrder);
      }
    }
  }
}
