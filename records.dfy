/** One row of the delivery dataset, reduced to the columns the filters,
    counts and map selection read. */
module Records {

  datatype Record = Record(
    orderId: string,
    area: string,
    vehicle: string,
    weather: string,
    traffic: string,
    deliveryTime: int)  // minutes

  /** The text columns that are filtered on or counted per value. */
  datatype Category = Area | Vehicle | Weather | Traffic

  function Field(r: Record, c: Category): string
  {
    match c
    case Area => r.area
    case Vehicle => r.vehicle
    case Weather => r.weather
    case Traffic => r.traffic
  }

  /** `data[c]`: one column, row by row. A value occurs in the column exactly
      when some row carries it. */
  function ColumnOf(rows: seq<Record>, c: Category): (col: seq<string>)
    ensures |col| == |rows|
    ensures forall i :: 0 <= i < |rows| ==> col[i] == Field(rows[i], c)
    ensures forall v :: v in col <==> exists r :: r in rows && Field(r, c) == v
  {
    var col := seq(|rows|, i requires 0 <= i < |rows| => Field(rows[i], c));
    forall v ensures v in col <==> exists r :: r in rows && Field(r, c) == v {
      if v in col {
        var i :| 0 <= i < |col| && col[i] == v;
        assert rows[i] in rows;
      }
      if exists r :: r in rows && Field(r, c) == v {
        var r :| r in rows && Field(r, c) == v;
        var i :| 0 <= i < |rows| && rows[i] == r;
        assert col[i] == v;
      }
    }
    col
  }
}
