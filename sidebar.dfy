/** The sidebar filter: a multiselect of areas, a multiselect of vehicles and
    a delivery-time range slider, combined into one row mask. */
module Sidebar {
  import opened Rows
  import opened Records
  import opened Options

  /** What the three sidebar widgets currently hold. */
  datatype Selection = Selection(
    areas: set<string>,
    vehicles: set<string>,
    minTime: int,
    maxTime: int)

  /** The mask: every one of the four conditions holds of the row. */
  predicate Keeps(sel: Selection, r: Record)
  {
    && r.area in sel.areas
    && r.vehicle in sel.vehicles
    && r.deliveryTime >= sel.minTime
    && r.deliveryTime <= sel.maxTime
  }

  /** The mask as a function of the row. */
  function Mask(sel: Selection): Record -> bool
  {
    r => Keeps(sel, r)
  }

  /** `filtered_df`: the rows of `data` that pass the mask, in order. */
  function Filter(data: seq<Record>, sel: Selection): (out: seq<Record>)
    ensures |out| <= |data|
    ensures forall r :: r in out <==>
      && r in data
      && r.area in sel.areas
      && r.vehicle in sel.vehicles
      && sel.minTime <= r.deliveryTime <= sel.maxTime
  {
    Where(data, Mask(sel))
  }

  lemma {:induction false} FilterIsSubsequence(data: seq<Record>, sel: Selection)
    ensures IsSubsequence(Filter(data, sel), data)
  {
    WhereIsSubsequence(data, Mask(sel));
  }

  /** A row that passes is kept as many times as it occurs; one that fails is gone. */
  lemma {:induction false} FilterKeepsMultiplicity(data: seq<Record>, sel: Selection, r: Record)
    ensures Occurrences(Filter(data, sel), r) == if Keeps(sel, r) then Occurrences(data, r) else 0
  {
    WhereOccurrences(data, Mask(sel), r);
  }

  lemma {:induction false} FilterIdempotent(data: seq<Record>, sel: Selection)
    ensures Filter(Filter(data, sel), sel) == Filter(data, sel)
  {
    WhereIdempotent(data, Mask(sel));
  }

  /** `int(data['Delivery_Time'].min())`. */
  function MinTime(data: seq<Record>): (t: int)
    requires data != []
    ensures forall r :: r in data ==> t <= r.deliveryTime
    ensures exists r :: r in data && r.deliveryTime == t
  {
    if |data| == 1 then data[0].deliveryTime
    else
      var rest := MinTime(data[1..]);
      assert forall r :: r in data ==> r == data[0] || r in data[1..];
      if data[0].deliveryTime <= rest then data[0].deliveryTime else rest
  }

  /** `int(data['Delivery_Time'].max())`. */
  function MaxTime(data: seq<Record>): (t: int)
    requires data != []
    ensures forall r :: r in data ==> r.deliveryTime <= t
    ensures exists r :: r in data && r.deliveryTime == t
  {
    if |data| == 1 then data[0].deliveryTime
    else
      var rest := MaxTime(data[1..]);
      assert forall r :: r in data ==> r == data[0] || r in data[1..];
      if data[0].deliveryTime >= rest then data[0].deliveryTime else rest
  }

  /** The widgets' initial state: every distinct area, every distinct vehicle
      and the full range of delivery times. On a table without rows the
      minimum and maximum are NaN and converting them to `int` raises, so
      there is no default selection. */
  function DefaultSelection(data: seq<Record>): (sel: Option<Selection>)
    ensures sel.None? <==> data == []
  {
    if data == [] then None
    else
      var areas := set r | r in data :: r.area;
      var vehicles := set r | r in data :: r.vehicle;
      Some(Selection(areas, vehicles, MinTime(data), MaxTime(data)))
  }

  /** The default selection offers exactly the areas and vehicles that occur,
      and its range is the tightest one that covers every delivery time. */
  lemma DefaultSelectionCoversData(data: seq<Record>)
    requires data != []
    ensures var sel := DefaultSelection(data).value;
      && (forall a :: a in sel.areas <==> exists r :: r in data && r.area == a)
      && (forall v :: v in sel.vehicles <==> exists r :: r in data && r.vehicle == v)
      && (forall r :: r in data ==> sel.minTime <= r.deliveryTime <= sel.maxTime)
      && (exists r :: r in data && r.deliveryTime == sel.minTime)
      && (exists r :: r in data && r.deliveryTime == sel.maxTime)
  {
  }

  /** Before the user touches the widgets the filter keeps the whole table. */
  lemma {:induction false} DefaultKeepsAll(data: seq<Record>)
    requires data != []
    ensures Filter(data, DefaultSelection(data).value) == data
  {
    var sel := DefaultSelection(data).value;
    DefaultPassesEveryRow(data, sel);
    FilterAllPass(data, sel);
  }

  lemma DefaultPassesEveryRow(data: seq<Record>, sel: Selection)
    requires data != [] && sel == DefaultSelection(data).value
    ensures forall i :: 0 <= i < |data| ==> Mask(sel)(data[i])
  {
    DefaultSelectionCoversData(data);
    forall i | 0 <= i < |data| ensures Mask(sel)(data[i]) {
      assert data[i] in data;
    }
  }

  lemma FilterAllPass(data: seq<Record>, sel: Selection)
    requires forall i :: 0 <= i < |data| ==> Mask(sel)(data[i])
    ensures Filter(data, sel) == data
  {
    WhereAll(data, Mask(sel));
  }

  /** Three rows with areas A, A, B, filtered to area A, leave the two A rows. */
  lemma {:induction false} ThreeRowScenario(vehicles: set<string>, time: int)
    requires "scooter" in vehicles
    ensures
      var a1 := Record("1", "A", "scooter", "Sunny", "Low", time);
      var a2 := Record("2", "A", "scooter", "Fog", "Jam", time);
      var b := Record("3", "B", "scooter", "Sunny", "Low", time);
      Filter([a1, a2, b], Selection({"A"}, vehicles, time, time)) == [a1, a2]
  {
    var a1 := Record("1", "A", "scooter", "Sunny", "Low", time);
    var a2 := Record("2", "A", "scooter", "Fog", "Jam", time);
    var b := Record("3", "B", "scooter", "Sunny", "Low", time);
    var data := [a1, a2, b];
    var p := Mask(Selection({"A"}, vehicles, time, time));
    assert data[1..] == [a2, b] && data[1..][1..] == [b] && [b][1..] == [];
    assert Where([b], p) == [];
    assert Where([a2, b], p) == [a2];
  }
}
