/** The frontend copy of the cell labels (`lib/hexLabels.ts`): the same
    index-to-label rule, and a label map built over a sorted copy of the cells
    the page holds. */
module HexLabelsTs {
  import opened Common
  import opened Geo
  import opened StringOrder
  import HexLabels

  const Letters: string := "ABCDEFGHIJKLMNOPQRSTUVWXYZ"

  /** `indexToHexLabel`: letter, then "-" and the 0-based group from 26 on. */
  function IndexToHexLabel(index: nat): string
  {
    var letter := Letters[index % 26];
    var group := index / 26;
    if group == 0 then [letter] else [letter] + "-" + NatToString(group)
  }

  /** Frontend and backend name every index alike. */
  lemma SameRuleAsBackend(index: nat)
    ensures IndexToHexLabel(index) == HexLabels.IndexToLabel(index)
  {
  }

  /** Distinct indices give distinct labels. */
  lemma LabelInjective(i: nat, j: nat)
    requires IndexToHexLabel(i) == IndexToHexLabel(j)
    ensures i == j
  {
    SameRuleAsBackend(i);
    SameRuleAsBackend(j);
    HexLabels.LabelInjective(i, j);
  }

  /** The map `forEach` leaves behind over `sorted`: each id labelled by the
      position of its last occurrence (a later write to the same key wins). */
  function LabelTable(sorted: seq<CellId>): (table: map<CellId, string>)
    ensures table.Keys == set h | h in sorted
  {
    ByPositionKeys(sorted, IndexToHexLabel);
    ByPosition(sorted, IndexToHexLabel)
  }

  /** Writing `name(i)` under the i-th id, first to last. */
  function ByPosition(ids: seq<CellId>, name: nat -> string): map<CellId, string>
  {
    if ids == [] then map[]
    else ByPosition(ids[..|ids| - 1], name)[ids[|ids| - 1] := name(|ids| - 1)]
  }

  /** Every id, and nothing else, gets a name. */
  lemma {:induction false} ByPositionKeys(ids: seq<CellId>, name: nat -> string)
    ensures ByPosition(ids, name).Keys == set h | h in ids
  {
    if ids != [] {
      var init := ids[..|ids| - 1];
      ByPositionKeys(init, name);
      assert (set h | h in ids) == (set h | h in init) + {ids[|ids| - 1]} by {
        assert ids == init + [ids[|ids| - 1]];
      }
    }
  }

  /** `buildHexLabelMap(hexCells)`, on the cells' ids. The input is a value, so
      sorting a copy leaves it as it was. */
  method BuildHexLabelMap(hexIds: seq<CellId>) returns (labels: map<CellId, string>)
    ensures labels == LabelTable(Sort(hexIds))
  {
    var sorted := Sort(hexIds);
    labels := map[];
    for idx := 0 to |sorted|
      invariant labels == ByPosition(sorted[..idx], IndexToHexLabel)
    {
      ghost var next := sorted[..idx + 1];
      assert next[..idx] == sorted[..idx] && next[idx] == sorted[idx];
      labels := labels[sorted[idx] := IndexToHexLabel(idx)];
    }
    assert sorted[..|sorted|] == sorted;
  }

  /** The label map depends only on which ids are given, not on their order. */
  lemma LabelsIgnoreInputOrder(a: seq<CellId>, b: seq<CellId>)
    requires multiset(a) == multiset(b)
    ensures LabelTable(Sort(a)) == LabelTable(Sort(b))
  {
    SortIgnoresInputOrder(a, b);
  }

  /** Every input id is a key. */
  lemma EveryIdLabelled(hexIds: seq<CellId>)
    ensures LabelTable(Sort(hexIds)).Keys == set h | h in hexIds
  {
    var s := Sort(hexIds);
    assert forall h :: h in s <==> h in multiset(hexIds);
  }

  /** In a list without repeats each id gets the name of its own position. */
  lemma {:induction false} ByPositionOfDistinct(ids: seq<CellId>, name: nat -> string, i: nat)
    requires Distinct(ids)
    requires i < |ids|
    ensures ids[i] in ByPosition(ids, name) && ByPosition(ids, name)[ids[i]] == name(i)
    decreases |ids|
  {
    var n := |ids| - 1;
    var init := ids[..n];
    assert ByPosition(ids, name) == ByPosition(init, name)[ids[n] := name(n)];
    if i < n {
      assert init[i] == ids[i];
      assert ids[i] != ids[n];
      assert Distinct(init) by {
        forall p, q | 0 <= p < q < |init|
          ensures init[p] != init[q]
        {
          assert init[p] == ids[p] && init[q] == ids[q];
        }
      }
      ByPositionOfDistinct(init, name, i);
    }
  }

  /** For distinct ids (as the grid payload delivers them) each id is labelled
      by its rank among the ids, which is what the backend cache holds. */
  lemma LabelIsRank(hexIds: seq<CellId>, h: CellId)
    requires Distinct(hexIds)
    requires h in hexIds
    ensures h in LabelTable(Sort(hexIds))
    ensures LabelTable(Sort(hexIds))[h] == HexLabels.IndexToLabel(Rank(h, set x | x in hexIds))
  {
    var s := Sort(hexIds);
    SortDistinct(hexIds);
    assert forall x :: x in s <==> x in multiset(hexIds);
    assert (set x | x in s) == (set x | x in hexIds);
    assert h in multiset(hexIds) && h in s;
    var i :| 0 <= i < |s| && s[i] == h;
    IndexIsRank(s, i);
    ByPositionOfDistinct(s, IndexToHexLabel, i);
    SameRuleAsBackend(i);
  }

  /** Given the ids of the stored cells once each, the frontend map equals the
      table the backend cache builds from those cells. */
  lemma AgreesWithBackendCache(hexIds: seq<CellId>)
    requires Distinct(hexIds)
    ensures LabelTable(Sort(hexIds)) == HexLabels.LabelsFor(set x | x in hexIds)
  {
    EveryIdLabelled(hexIds);
    forall h | h in hexIds
      ensures LabelTable(Sort(hexIds))[h] == HexLabels.LabelsFor(set x | x in hexIds)[h]
    {
      LabelIsRank(hexIds, h);
    }
  }
}
