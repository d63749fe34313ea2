/** The Maps tab: an area picker with an "All Areas" entry, the rows it
    selects, and the size of the random sample drawn for rendering. */
module MapView {
  import opened Rows
  import opened Records

  /** The picker entry that selects every row. */
  const AllAreas: string := "All Areas"

  /** At most this many rows are sampled for the map. */
  const SampleCap: nat := 1000

  /** The picker's entries: the sentinel, then each distinct area. */
  function AreaChoices(data: seq<Record>): (choices: seq<string>)
    ensures |choices| >= 1 && choices[0] == AllAreas
    ensures Distinct(choices[1..])
    ensures forall a :: a in choices[1..] <==> exists r :: r in data && r.area == a
  {
    var areas := ColumnOf(data, Area);
    var choices := [AllAreas] + Unique(areas);
    assert choices[1..] == Unique(areas);
    choices
  }

  /** Whether a row belongs to the selected area. */
  function InArea(selected: string): Record -> bool
  {
    (r: Record) => r.area == selected
  }

  /** `map_data`: the whole table for the sentinel, otherwise the rows of the
      selected area, in their original order. */
  function MapData(data: seq<Record>, selected: string): (m: seq<Record>)
    ensures selected == AllAreas ==> m == data
    ensures selected != AllAreas ==> forall r :: r in m <==> r in data && r.area == selected
  {
    if selected == AllAreas then data else Where(data, InArea(selected))
  }

  lemma {:induction false} MapDataIsSubsequence(data: seq<Record>, selected: string)
    ensures IsSubsequence(MapData(data, selected), data)
  {
    if selected == AllAreas {
      SubsequenceOfItself(data);
    } else {
      WhereIsSubsequence(data, InArea(selected));
    }
  }

  /** With duplicates: an area's rows are kept as often as they occur. */
  lemma {:induction false} MapDataMultiplicity(data: seq<Record>, selected: string, r: Record)
    ensures Occurrences(MapData(data, selected), r) ==
      if selected == AllAreas || r.area == selected then Occurrences(data, r) else 0
  {
    if selected != AllAreas {
      WhereOccurrences(data, InArea(selected), r);
    }
  }

  /** Every entry of the picker selects some row when the table has rows. */
  lemma {:induction false} ChoicesSelectRows(data: seq<Record>, choice: string)
    requires data != [] && choice in AreaChoices(data)
    ensures MapData(data, choice) != []
  {
    var choices := AreaChoices(data);
    if choice != AllAreas {
      var i :| 0 <= i < |choices| && choices[i] == choice;
      assert choices[1..][i - 1] == choice;
      var r :| r in data && r.area == choice;
      assert r in MapData(data, choice);
    }
  }

  /** `min(1000, len(map_data))`. */
  function SampleSize(rows: nat): (k: nat)
    ensures k <= SampleCap && k <= rows
    ensures rows <= SampleCap ==> k == rows
    ensures rows >= SampleCap ==> k == SampleCap
  {
    if rows <= SampleCap then rows else SampleCap
  }

  /** What can come out of `map_data.sample(...)`: that many rows drawn
      without replacement. Which rows are drawn is left open. */
  ghost predicate IsSampleOf(sample: seq<Record>, mapData: seq<Record>)
    ensures IsSampleOf(sample, mapData) ==> forall r :: r in sample ==> r in mapData
  {
    DrawnRowsOccur(sample, mapData);
    |sample| == SampleSize(|mapData|) && multiset(sample) <= multiset(mapData)
  }

  /** A draw without replacement only holds rows of what it was drawn from. */
  lemma DrawnRowsOccur(sample: seq<Record>, mapData: seq<Record>)
    ensures multiset(sample) <= multiset(mapData) ==> forall r :: r in sample ==> r in mapData
  {
    if multiset(sample) <= multiset(mapData) {
      forall r | r in sample ensures r in mapData {
        assert r in multiset(sample);
      }
    }
  }

  /** Some draw is always possible, so the sample step cannot fail. */
  lemma SampleExists(mapData: seq<Record>)
    ensures IsSampleOf(mapData[..SampleSize(|mapData|)], mapData)
  {
    var k := SampleSize(|mapData|);
    assert mapData == mapData[..k] + mapData[k..];
    assert multiset(mapData) == multiset(mapData[..k]) + multiset(mapData[k..]);
  }

  /** The map is drawn exactly when the selected area has rows. */
  lemma SampleEmptyIff(sample: seq<Record>, mapData: seq<Record>)
    requires IsSampleOf(sample, mapData)
    ensures sample == [] <==> mapData == []
  {
  }
}
