/** The Prediction tab's input row: thirteen form fields, one-hot encoded the
    way `pandas.get_dummies` names its columns, then reindexed onto the
    feature columns the trained model expects. Numbers are kept abstract
    (`N`): the encoding only carries them through. */
module Prediction {
  import opened Rows
  import opened Options

  /** A cell of the encoded row: a number carried through, an indicator set
      by the encoding (`True`, read as 1), or the reindexing fill value 0. */
  datatype Cell<N> = Num(value: N) | One | Zero

  /** A field of the one-row frame before encoding. */
  datatype FieldValue<N> = Numeric(x: N) | Text(s: string)

  /** What the form submits. */
  datatype Form<N> = Form(
    agentAge: N,
    agentRating: N,
    distance: N,
    prepTime: N,
    pickupHour: N,
    orderOfWeekDay: N,
    orderMonth: N,
    weather: string,
    traffic: string,
    vehicle: string,
    area: string,
    category: string,
    amPm: string)

  /** `F_v`: the indicator column `get_dummies` makes for value `v` of field `F`. */
  function DummyName(field: string, v: string): string
  {
    field + "_" + v
  }

  /** An indicator label splits back into its field, the separator and its
      value, so within one field different values get different labels. */
  lemma DummyNameParts(field: string, v: string)
    ensures var name := DummyName(field, v);
      && |name| == |field| + 1 + |v|
      && name[..|field|] == field && name[|field|] == '_' && name[|field| + 1..] == v
    ensures forall w :: DummyName(field, w) == DummyName(field, v) ==> w == v
  {
    forall w | DummyName(field, w) == DummyName(field, v) ensures w == v {
      assert DummyName(field, w)[|field| + 1..] == w;
    }
  }

  /** The one-row frame, its columns in the order the form's dictionary lists them. */
  function InputRow<N>(f: Form<N>): (row: seq<(string, FieldValue<N>)>)
    ensures |row| == 13
  {
    [ ("Agent_Age", Numeric(f.agentAge)),
      ("Agent_Rating", Numeric(f.agentRating)),
      ("Distance", Numeric(f.distance)),
      ("Prep_Time", Numeric(f.prepTime)),
      ("Pickup_Hour", Numeric(f.pickupHour)),
      ("Order_of_week_day", Numeric(f.orderOfWeekDay)),
      ("Order_Month", Numeric(f.orderMonth)),
      ("Weather", Text(f.weather)),
      ("Traffic", Text(f.traffic)),
      ("Vehicle", Text(f.vehicle)),
      ("Area", Text(f.area)),
      ("Category", Text(f.category)),
      ("PM_AM", Text(f.amPm)) ]
  }

  /** The numeric columns, unchanged and in order. */
  function PassThrough<N>(row: seq<(string, FieldValue<N>)>): seq<(string, Cell<N>)>
  {
    if row == [] then []
    else
      (match row[0].1
       case Numeric(x) => [(row[0].0, Num(x))]
       case Text(_) => []) + PassThrough(row[1..])
  }

  /** One indicator column per text column; a single row holds one value per field. */
  function Indicators<N>(row: seq<(string, FieldValue<N>)>): seq<(string, Cell<N>)>
  {
    if row == [] then []
    else
      (match row[0].1
       case Numeric(_) => []
       case Text(v) => [(DummyName(row[0].0, v), One)]) + Indicators(row[1..])
  }

  /** `pd.get_dummies(row)`: numeric columns first, then the indicators, one
      column for every input column. */
  function GetDummies<N>(row: seq<(string, FieldValue<N>)>): (cols: seq<(string, Cell<N>)>)
    ensures |cols| == |row|
  {
    CountColumns(row);
    PassThrough(row) + Indicators(row)
  }

  lemma {:induction false} CountColumns<N>(row: seq<(string, FieldValue<N>)>)
    ensures |PassThrough(row)| + |Indicators(row)| == |row|
  {
    if row != [] {
      CountColumns(row[1..]);
    }
  }

  function Names<X>(cols: seq<(string, X)>): (names: seq<string>)
    ensures |names| == |cols|
    ensures forall i :: 0 <= i < |cols| ==> names[i] == cols[i].0
  {
    seq(|cols|, i requires 0 <= i < |cols| => cols[i].0)
  }

  /** The cell of the column called `name`, or the fill value when there is none. */
  function Lookup<N>(cols: seq<(string, Cell<N>)>, name: string): (c: Cell<N>)
    ensures name !in Names(cols) ==> c == Zero
    ensures Distinct(Names(cols)) ==>
      forall k :: 0 <= k < |cols| && cols[k].0 == name ==> c == cols[k].1
  {
    if cols == [] then Zero
    else if cols[0].0 == name then cols[0].1
    else
      assert Names(cols)[1..] == Names(cols[1..]);
      Lookup(cols[1..], name)
  }

  /** `reindex(columns=features, fill_value=0)`: one column per feature, in the
      features' order; features that were not produced hold 0 and produced
      columns that are not features are dropped. Reindexing a frame whose
      column labels repeat raises, which is `None` here. */
  function Reindex<N>(cols: seq<(string, Cell<N>)>, features: seq<string>)
    : (r: Option<seq<(string, Cell<N>)>>)
    ensures r.None? <==> !Distinct(Names(cols))
    ensures r.Some? ==> |r.value| == |features|
    ensures r.Some? ==> forall i :: 0 <= i < |features| ==>
      && r.value[i].0 == features[i]
      && (features[i] !in Names(cols) ==> r.value[i].1 == Zero)
      && (forall k :: 0 <= k < |cols| && cols[k].0 == features[i] ==> r.value[i].1 == cols[k].1)
  {
    if !Distinct(Names(cols)) then None
    else Some(seq(|features|, i requires 0 <= i < |features| => (features[i], Lookup(cols, features[i]))))
  }

  /** What the model should see in the column called `name`, stated directly
      from the form: the entered number for a numeric field, 1 for the
      indicator of a chosen category, 0 for anything else. */
  function ExpectedCell<N>(f: Form<N>, name: string): Cell<N>
  {
    if name == "Agent_Age" then Num(f.agentAge)
    else if name == "Agent_Rating" then Num(f.agentRating)
    else if name == "Distance" then Num(f.distance)
    else if name == "Prep_Time" then Num(f.prepTime)
    else if name == "Pickup_Hour" then Num(f.pickupHour)
    else if name == "Order_of_week_day" then Num(f.orderOfWeekDay)
    else if name == "Order_Month" then Num(f.orderMonth)
    else if || name == DummyName("Weather", f.weather)
            || name == DummyName("Traffic", f.traffic)
            || name == DummyName("Vehicle", f.vehicle)
            || name == DummyName("Area", f.area)
            || name == DummyName("Category", f.category)
            || name == DummyName("PM_AM", f.amPm)
    then One
    else Zero
  }

  /** The encoded columns, in `get_dummies` order. */
  function EncodedColumns<N>(f: Form<N>): (cols: seq<(string, Cell<N>)>)
    ensures |cols| == 13
    ensures cols == [
      ("Agent_Age", Num(f.agentAge)),
      ("Agent_Rating", Num(f.agentRating)),
      ("Distance", Num(f.distance)),
      ("Prep_Time", Num(f.prepTime)),
      ("Pickup_Hour", Num(f.pickupHour)),
      ("Order_of_week_day", Num(f.orderOfWeekDay)),
      ("Order_Month", Num(f.orderMonth)),
      (DummyName("Weather", f.weather), One),
      (DummyName("Traffic", f.traffic), One),
      (DummyName("Vehicle", f.vehicle), One),
      (DummyName("Area", f.area), One),
      (DummyName("Category", f.category), One),
      (DummyName("PM_AM", f.amPm), One) ]
  {
    var row := InputRow(f);
    PassThroughOfText(row, 7);
    PassThroughOfNumbers(row, 0, 7);
    IndicatorsOfText(row, 7);
    IndicatorsOfNumbers(row, 0, 7);
    assert row[0..] == row;
    GetDummies(row)
  }

  lemma PassThroughStep<N>(row: seq<(string, FieldValue<N>)>, k: nat)
    requires k < |row|
    ensures PassThrough(row[k..]) ==
      (match row[k].1
       case Numeric(x) => [(row[k].0, Num(x))]
       case Text(_) => []) + PassThrough(row[k + 1..])
  {
    assert row[k..][0] == row[k] && row[k..][1..] == row[k + 1..];
  }

  lemma IndicatorsStep<N>(row: seq<(string, FieldValue<N>)>, k: nat)
    requires k < |row|
    ensures Indicators(row[k..]) ==
      (match row[k].1
       case Numeric(_) => []
       case Text(v) => [(DummyName(row[k].0, v), One)]) + Indicators(row[k + 1..])
  {
    assert row[k..][0] == row[k] && row[k..][1..] == row[k + 1..];
  }

  lemma {:induction false} PassThroughOfText<N>(row: seq<(string, FieldValue<N>)>, k: nat)
    requires k <= |row|
    requires forall m :: k <= m < |row| ==> row[m].1.Text?
    ensures PassThrough(row[k..]) == []
    decreases |row| - k
  {
    if k < |row| {
      PassThroughOfText(row, k + 1);
      PassThroughStep(row, k);
    }
  }

  lemma {:induction false} PassThroughOfNumbers<N>(row: seq<(string, FieldValue<N>)>, k: nat, split: nat)
    requires k <= split <= |row|
    requires forall m :: k <= m < split ==> row[m].1.Numeric?
    requires PassThrough(row[split..]) == []
    ensures PassThrough(row[k..]) ==
      seq(split - k, i requires 0 <= i < split - k => (row[k + i].0, Num(row[k + i].1.x)))
    decreases split - k
  {
    if k < split {
      PassThroughOfNumbers(row, k + 1, split);
      PassThroughStep(row, k);
    }
  }

  lemma {:induction false} IndicatorsOfText<N>(row: seq<(string, FieldValue<N>)>, k: nat)
    requires k <= |row|
    requires forall m :: k <= m < |row| ==> row[m].1.Text?
    ensures Indicators(row[k..]) ==
      seq(|row| - k, i requires 0 <= i < |row| - k => (DummyName(row[k + i].0, row[k + i].1.s), One))
    decreases |row| - k
  {
    if k < |row| {
      IndicatorsOfText(row, k + 1);
      IndicatorsStep(row, k);
    }
  }

  lemma {:induction false} IndicatorsOfNumbers<N>(row: seq<(string, FieldValue<N>)>, k: nat, split: nat)
    requires k <= split <= |row|
    requires forall m :: k <= m < split ==> row[m].1.Numeric?
    ensures Indicators(row[k..]) == Indicators(row[split..])
    decreases split - k
  {
    if k < split {
      IndicatorsOfNumbers(row, k + 1, split);
      IndicatorsStep(row, k);
    }
  }

  /** Whatever the form holds, no two encoded columns share a label, so the
      reindexing step never raises. */
  lemma EncodedNamesDistinct<N>(f: Form<N>)
    ensures Distinct(Names(EncodedColumns(f)))
  {
    var names := Names(EncodedColumns(f));
    DummyNamePrefix("Weather", f.weather);
    DummyNamePrefix("Traffic", f.traffic);
    DummyNamePrefix("Vehicle", f.vehicle);
    DummyNamePrefix("Area", f.area);
    DummyNamePrefix("Category", f.category);
    DummyNamePrefix("PM_AM", f.amPm);
    var prefixes := seq(13, k requires 0 <= k < 13 => names[k][..2]);
    var expected := ["Ag", "Ag", "Di", "Pr", "Pi", "Or", "Or", "We", "Tr", "Ve", "Ar", "Ca", "PM"];
    forall k | 0 <= k < 13 ensures prefixes[k] == expected[k] {
      var c := EncodedColumns(f);
      assert names[k] == c[k].0;
    }
    forall i, j | 0 <= i < j < 13 ensures names[i] != names[j] {
      if expected[i] == expected[j] {
        assert (i == 0 && j == 1) || (i == 5 && j == 6);
      }
    }
  }

  /** An indicator column's label starts with its field's name. */
  lemma DummyNamePrefix(field: string, v: string)
    requires |field| >= 2
    ensures DummyName(field, v)[..2] == field[..2]
  {
  }

  /** The row handed to `model.predict`. */
  function EncodeInput<N>(f: Form<N>, features: seq<string>): (r: Option<seq<(string, Cell<N>)>>)
    ensures r.Some?
    ensures |r.value| == |features|
    ensures forall i :: 0 <= i < |features| ==>
      r.value[i].0 == features[i] && r.value[i].1 == ExpectedCell(f, features[i])
  {
    EncodedNamesDistinct(f);
    forall name ensures Lookup(EncodedColumns(f), name) == ExpectedCell(f, name) {
      LookupIsExpected(f, name);
    }
    Reindex(GetDummies(InputRow(f)), features)
  }

  /** Looking a label up in the encoded columns gives what the form says it should. */
  lemma LookupIsExpected<N>(f: Form<N>, name: string)
    ensures Lookup(EncodedColumns(f), name) == ExpectedCell(f, name)
  {
    var cols := EncodedColumns(f);
    if name in Names(cols) {
      var k :| 0 <= k < 13 && Names(cols)[k] == name;
      LookupProduced(f, k);
    } else {
      LookupNotProduced(f, name);
    }
  }

  lemma LookupProduced<N>(f: Form<N>, k: nat)
    requires k < 13
    ensures Lookup(EncodedColumns(f), EncodedColumns(f)[k].0) == ExpectedCell(f, EncodedColumns(f)[k].0)
  {
    var cols := EncodedColumns(f);
    EncodedNamesDistinct(f);
    assert Names(cols)[k] == cols[k].0;
    assert Lookup(cols, cols[k].0) == cols[k].1;
    if k >= 7 {
      IndicatorIsNoNumber(f, k);
    }
  }

  /** An indicator label is none of the numeric labels, so it reads as 1. */
  lemma IndicatorIsNoNumber<N>(f: Form<N>, k: nat)
    requires 7 <= k < 13 && Distinct(Names(EncodedColumns(f)))
    ensures ExpectedCell(f, EncodedColumns(f)[k].0) == One
  {
    var cols := EncodedColumns(f);
    var names := Names(cols);
    assert names[k] != names[0] && names[k] != names[1] && names[k] != names[2] && names[k] != names[3];
    assert names[k] != names[4] && names[k] != names[5] && names[k] != names[6];
  }

  lemma LookupNotProduced<N>(f: Form<N>, name: string)
    requires name !in Names(EncodedColumns(f))
    ensures Lookup(EncodedColumns(f), name) == Zero && ExpectedCell(f, name) == Zero
  {
    var cols := EncodedColumns(f);
    assert forall m :: 0 <= m < 13 ==> Names(cols)[m] != name;
    assert name != cols[0].0 && name != cols[1].0 && name != cols[2].0 && name != cols[3].0;
    assert name != cols[4].0 && name != cols[5].0 && name != cols[6].0;
    assert name != cols[7].0 && name != cols[8].0 && name != cols[9].0;
    assert name != cols[10].0 && name != cols[11].0 && name != cols[12].0;
  }
}
