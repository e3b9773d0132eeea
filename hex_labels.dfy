/** Human-readable cell labels on the backend (`utils/hex_labels.py`): the
    i-th cell in ascending id order is called A..Z, then A-1..Z-1, and so on.
    The label table is built once, lazily, from the stored cells. */
module HexLabels {
  import opened Common
  import opened Geo
  import opened Store
  import opened StringOrder

  const Alphabet: string := "ABCDEFGHIJKLMNOPQRSTUVWXYZ"

  /** `_index_to_hex_label`. */
  function IndexToLabel(index: nat): (name: string)
    ensures index < 26 ==> name == [Alphabet[index]]
    ensures index >= 26 ==> name == [Alphabet[index % 26]] + "-" + NatToString(index / 26)
    ensures |name| == 1 <==> index < 26
  {
    var letter := Alphabet[index % 26];
    var group := index / 26;
    if group == 0 then [letter] else [letter] + "-" + NatToString(group)
  }

  /** Distinct indices get distinct labels. */
  lemma {:induction false} LabelInjective(i: nat, j: nat)
    requires IndexToLabel(i) == IndexToLabel(j)
    ensures i == j
  {
    var li, lj := IndexToLabel(i), IndexToLabel(j);
    assert li[0] == Alphabet[i % 26] && lj[0] == Alphabet[j % 26];
    AlphabetDistinct(i % 26, j % 26);
    if i >= 26 && j >= 26 {
      assert li[2..] == NatToString(i / 26);
      assert lj[2..] == NatToString(j / 26);
      NatToStringInjective(i / 26, j / 26);
    }
  }

  lemma AlphabetDistinct(a: nat, b: nat)
    requires a < 26 && b < 26 && Alphabet[a] == Alphabet[b]
    ensures a == b
  {
    LetterCode(a);
    LetterCode(b);
  }

  /** The k-th letter of the alphabet is the character k places after 'A'. */
  lemma LetterCode(k: nat)
    requires k < 26
    ensures Alphabet[k] as int == 'A' as int + k
  {
  }

  /** What the cache holds once built over the stored ids: each id labelled by its rank. */
  ghost function LabelsFor(ids: set<CellId>): map<CellId, string>
  {
    map h | h in ids :: IndexToLabel(Rank(h, ids))
  }

  /** `{row: _index_to_hex_label(idx) for idx, row in enumerate(rows)}` over duplicate-free rows. */
  function Enumerated(rows: seq<CellId>): map<CellId, string>
    requires forall i, j :: 0 <= i < j < |rows| ==> rows[i] != rows[j]
  {
    map k | 0 <= k < |rows| :: rows[k] := IndexToLabel(k)
  }

  /** Enumerating the stored ids in ascending order labels each by its rank. */
  lemma EnumeratedAscending(rows: seq<CellId>, ids: set<CellId>)
    requires forall h :: h in rows <==> h in ids
    requires forall i, j :: 0 <= i < j < |rows| ==> Lt(rows[i], rows[j])
    requires forall i :: 0 <= i < |rows| ==> Rank(rows[i], ids) == i
    ensures forall i, j :: 0 <= i < j < |rows| ==> rows[i] != rows[j]
    ensures Enumerated(rows) == LabelsFor(ids)
  {
    forall i, j | 0 <= i < j < |rows|
      ensures rows[i] != rows[j]
    {
      assert Lt(rows[i], rows[j]);
    }
    EnumeratedByRank(rows, ids);
  }

  lemma EnumeratedByRank(rows: seq<CellId>, ids: set<CellId>)
    requires forall h :: h in rows <==> h in ids
    requires forall i, j :: 0 <= i < j < |rows| ==> rows[i] != rows[j]
    requires forall i :: 0 <= i < |rows| ==> Rank(rows[i], ids) == i
    ensures Enumerated(rows) == LabelsFor(ids)
  {
    var table := Enumerated(rows);
    var labels := LabelsFor(ids);
    assert table.Keys == ids by {
      forall h | h in ids ensures h in table {
        var k :| 0 <= k < |rows| && rows[k] == h;
      }
    }
    forall h | h in ids
      ensures table[h] == labels[h]
    {
      var k :| 0 <= k < |rows| && rows[k] == h;
      assert table[h] == IndexToLabel(k);
      assert Rank(h, ids) == k;
    }
  }

  /** The answer for an id the cache does not hold: its first 8 characters, or "?" when it is empty. */
  function Unlabelled(hexId: CellId): (name: string)
    ensures hexId != "" ==> name == Take(hexId, 8) && |name| <= 8 && name == hexId[..|name|]
    ensures hexId == "" ==> name == "?"
  {
    if hexId == "" then "?" else Take(hexId, 8)
  }

  /** The answer of `get_hex_label` from a cache state: `None` when there is no table (the call raised). */
  function Lookup(cache: Option<map<CellId, string>>, hexId: CellId): (name: Option<string>)
    ensures name.Some? <==> cache.Some?
    ensures cache.Some? && hexId in cache.value ==> name == Some(cache.value[hexId])
    ensures cache.Some? && hexId !in cache.value ==> name == Some(Unlabelled(hexId))
  {
    match cache
    case None => None
    case Some(table) => Some(if hexId in table then table[hexId] else Unlabelled(hexId))
  }

  /** The cache after one `get_hex_label` call over the stored cell ids `stored`:
      a built table is kept; otherwise the table over `stored` is built when the
      read succeeds (`dbUp`), and nothing is cached when it raises. */
  ghost function CacheAfter(cache: Option<map<CellId, string>>, stored: set<CellId>, dbUp: bool): (after: Option<map<CellId, string>>)
    ensures cache.Some? ==> after == cache
    ensures cache.None? ==> (after.Some? <==> dbUp)
    ensures after.Some? ==> cache.Some? || after.value.Keys == stored
  {
    if cache.Some? then cache else if dbUp then Some(LabelsFor(stored)) else None
  }

  /** The module global `_label_cache`. */
  class LabelCache {
    var cache: Option<map<CellId, string>>

    constructor ()
      ensures cache == None
    {
      cache := None;
    }

    /** `get_hex_label(hex_id)`. The first call reads the stored cells and builds
        the table; `dbUp` false stands for that read raising, in which case the
        call raises (`None`) and nothing is cached. Once built, the table is never rebuilt. */
    method GetHexLabel(db: Db, hexId: CellId, dbUp: bool) returns (hexName: Option<string>)
      modifies this
      ensures old(cache).Some? ==> cache == old(cache)
      ensures old(cache).None? && dbUp ==> cache == Some(LabelsFor(db.cells.Keys))
      ensures old(cache).None? && !dbUp ==> cache == None && hexName == None
      ensures cache == CacheAfter(old(cache), db.cells.Keys, dbUp)
      ensures hexName == Lookup(cache, hexId)
    {
      if cache.None? {
        if !dbUp {
          return None;
        }
        var rows := db.HexIdsAscending();
        var table := Enumerated(rows);
        EnumeratedAscending(rows, db.cells.Keys);
        cache := Some(table);
      }
      hexName := Lookup(cache, hexId);
    }
  }
}
