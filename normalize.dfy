/**
 * `process_data`: unit conversion of the observation rows, then the
 * station-level table (`pivot_table` over (station, date) with the default
 * mean) and the statewide table (`groupby(date, datatype)` mean, pivoted to
 * one row per date).
 *
 * A table is a map from its row key to its cells, one per datatype column;
 * a missing cell is an absent key, never zero.
 */
module Normalize {
  import opened Calendar

  /** One record of the API's `results` list, with `date` already parsed. */
  datatype Observation = Observation(station: string, date: Date, dataType: string, value: real)

  type StationTable = map<(string, Date), map<string, real>>
  type StatewideTable = map<Date, map<string, real>>

  function CelsiusToFahrenheit(v: real): real { v * 9.0 / 5.0 + 32.0 }
  function MillimetresToInches(v: real): real { v * 0.03937 }
  function MetresPerSecondToMph(v: real): real { v * 2.23694 }

  /** The conversion table: what each datatype's value becomes, a function of the datatype alone. */
  function Converted(dataType: string, v: real): real {
    if dataType == "TMAX" || dataType == "TMIN" then CelsiusToFahrenheit(v)
    else if dataType == "PRCP" then MillimetresToInches(v)
    else if dataType == "AWND" then MetresPerSecondToMph(v)
    else v
  }

  function ConvertRow(o: Observation): Observation {
    o.(value := Converted(o.dataType, o.value))
  }

  /**
   * One masked assignment `if d in df["datatype"].unique(): df.loc[df["datatype"] == d, "value"] = f(df["value"])`:
   * rows of datatype `d` get `f` of their value, all other rows are untouched.
   */
  function Rescale(rows: seq<Observation>, d: string, f: real -> real): (r: seq<Observation>)
    ensures |r| == |rows|
    ensures forall i :: 0 <= i < |r| ==>
      r[i] == if rows[i].dataType == d then rows[i].(value := f(rows[i].value)) else rows[i]
  {
    if exists i :: 0 <= i < |rows| && rows[i].dataType == d then
      seq(|rows|, i requires 0 <= i < |rows| =>
        if rows[i].dataType == d then rows[i].(value := f(rows[i].value)) else rows[i])
    else rows
  }

  /**
   * The four conversion statements in order. Their masks are disjoint, so
   * every row is converted at most once, by the table entry for its
   * datatype; station, date and datatype are kept, and so is the row count.
   */
  function ConvertUnits(rows: seq<Observation>): (r: seq<Observation>)
    ensures |r| == |rows|
    ensures forall i :: 0 <= i < |r| ==> r[i] == ConvertRow(rows[i])
  {
    var afterTmax := Rescale(rows, "TMAX", CelsiusToFahrenheit);
    var afterTmin := Rescale(afterTmax, "TMIN", CelsiusToFahrenheit);
    var afterPrcp := Rescale(afterTmin, "PRCP", MillimetresToInches);
    Rescale(afterPrcp, "AWND", MetresPerSecondToMph)
  }

  /** The documented conversions on sample values. */
  lemma ConversionSamples()
    ensures Converted("TMAX", 0.0) == 32.0 && Converted("TMIN", 100.0) == 212.0
    ensures Converted("PRCP", 10.0) == 0.3937
    ensures Converted("AWND", 1.0) == 2.23694
    ensures Converted("RHUM", 55.0) == 55.0
  {
  }

  // ---------------------------------------------------------------------
  // Group means

  function Sum(vs: seq<real>): real
    decreases |vs|
  {
    if vs == [] then 0.0 else Sum(vs[..|vs| - 1]) + vs[|vs| - 1]
  }

  function Mean(vs: seq<real>): real
    requires vs != []
  {
    Sum(vs) / (|vs| as real)
  }

  /** A running group total: the sum of the values seen and how many there were. */
  datatype Acc = Acc(total: real, count: nat)

  /** One pass of a group-by over (key, value) cells, accumulating each key's total and count. */
  function Tally<K(==)>(cells: seq<(K, real)>): (t: map<K, Acc>)
    ensures forall k :: k in t ==> t[k].count > 0
    decreases |cells|
  {
    if cells == [] then map[]
    else
      var t := Tally(cells[..|cells| - 1]);
      var (k, v) := cells[|cells| - 1];
      t[k := if k in t then Acc(t[k].total + v, t[k].count + 1) else Acc(v, 1)]
  }

  /** The values of the cells with key `k`, in input order. */
  function ValuesOf<K(==)>(cells: seq<(K, real)>, k: K): seq<real>
    decreases |cells|
  {
    if cells == [] then []
    else ValuesOf(cells[..|cells| - 1], k) + (if cells[|cells| - 1].0 == k then [cells[|cells| - 1].1] else [])
  }

  lemma SumSnoc(vs: seq<real>, v: real)
    ensures Sum(vs + [v]) == Sum(vs) + v
  {
    assert (vs + [v])[..|vs|] == vs;
  }

  /** The group-by keeps, for each key that occurs, the sum and the number of its values. */
  lemma {:induction false} TallyValues<K>(cells: seq<(K, real)>, k: K)
    ensures k in Tally(cells) <==> ValuesOf(cells, k) != []
    ensures k in Tally(cells) ==> Tally(cells)[k] == Acc(Sum(ValuesOf(cells, k)), |ValuesOf(cells, k)|)
    decreases |cells|
  {
    if cells != [] {
      var init := cells[..|cells| - 1];
      var (key, v) := cells[|cells| - 1];
      TallyValues(init, k);
      if key == k {
        assert ValuesOf(cells, k) == ValuesOf(init, k) + [v];
        SumSnoc(ValuesOf(init, k), v);
      } else {
        assert ValuesOf(cells, k) == ValuesOf(init, k);
      }
    }
  }

  /** Spreads the column part of each key into columns: one row per row key, one cell per (row, column) group, holding its mean. */
  function Pivot<R(==), C(==)>(t: map<(R, C), Acc>): (p: map<R, map<C, real>>)
    requires forall k :: k in t ==> t[k].count > 0
  {
    map r | r in RowKeys(t) :: map c | c in ColumnsOf(t, r) :: t[(r, c)].total / (t[(r, c)].count as real)
  }

  function RowKeys<R(==), C(==)>(t: map<(R, C), Acc>): set<R> {
    set k | k in t :: k.0
  }

  function ColumnsOf<R(==), C(==)>(t: map<(R, C), Acc>, r: R): set<C> {
    set k | k in t && k.0 == r :: k.1
  }

  lemma PivotCells<R, C>(t: map<(R, C), Acc>, r: R, c: C)
    requires forall k :: k in t ==> t[k].count > 0
    ensures r in Pivot(t) <==> exists k :: k in t && k.0 == r
    ensures r in Pivot(t) ==> (c in Pivot(t)[r] <==> (r, c) in t)
    ensures (r, c) in t ==> r in Pivot(t) && Pivot(t)[r][c] == t[(r, c)].total / (t[(r, c)].count as real)
  {
    if (r, c) in t {
      assert (r, c).0 == r && (r, c).1 == c;
      assert r in RowKeys(t);
      assert c in ColumnsOf(t, r);
    }
  }

  /** A key has values exactly when it occurs in the input. */
  lemma {:induction false} ValuesOfNonEmpty<K>(cells: seq<(K, real)>, k: K)
    ensures ValuesOf(cells, k) != [] <==> exists i :: 0 <= i < |cells| && cells[i].0 == k
    decreases |cells|
  {
    if cells != [] {
      var init := cells[..|cells| - 1];
      ValuesOfNonEmpty(init, k);
      if exists i :: 0 <= i < |init| && init[i].0 == k {
        var i :| 0 <= i < |init| && init[i].0 == k;
        assert cells[i].0 == k;
      }
      if exists i :: 0 <= i < |cells| && cells[i].0 == k {
        var i :| 0 <= i < |cells| && cells[i].0 == k;
        if i < |init| {
          assert init[i].0 == k;
        }
      }
    }
  }

  // ---------------------------------------------------------------------
  // process_data

  function StationCells(rows: seq<Observation>): seq<(((string, Date), string), real)> {
    seq(|rows|, i requires 0 <= i < |rows| => (((rows[i].station, rows[i].date), rows[i].dataType), rows[i].value))
  }

  function StatewideCells(rows: seq<Observation>): seq<((Date, string), real)> {
    seq(|rows|, i requires 0 <= i < |rows| => ((rows[i].date, rows[i].dataType), rows[i].value))
  }

  /** `station_data`: the converted rows pivoted over (station, date), one column per datatype. */
  function StationData(data: seq<Observation>): StationTable {
    if data == [] then map[] else Pivot(Tally(StationCells(ConvertUnits(data))))
  }

  /** `statewide_data`: the converted rows grouped by (date, datatype), pivoted to one row per date. */
  function StatewideData(data: seq<Observation>): StatewideTable {
    if data == [] then map[] else Pivot(Tally(StatewideCells(ConvertUnits(data))))
  }

  /** `process_data(historical_data)`: the station table and the statewide table. */
  function ProcessData(data: seq<Observation>): (StationTable, StatewideTable) {
    (StationData(data), StatewideData(data))
  }

  /** The converted values of the rows with station `s`, date `d` and datatype `t`, in input order. */
  function StationReadings(data: seq<Observation>, s: string, d: Date, t: string): seq<real>
    decreases |data|
  {
    if data == [] then []
    else
      var o := data[|data| - 1];
      StationReadings(data[..|data| - 1], s, d, t)
        + (if o.station == s && o.date == d && o.dataType == t then [Converted(o.dataType, o.value)] else [])
  }

  /** The converted values of all rows, of every station, with date `d` and datatype `t`, in input order. */
  function DateReadings(data: seq<Observation>, d: Date, t: string): seq<real>
    decreases |data|
  {
    if data == [] then []
    else
      var o := data[|data| - 1];
      DateReadings(data[..|data| - 1], d, t)
        + (if o.date == d && o.dataType == t then [Converted(o.dataType, o.value)] else [])
  }

  lemma {:induction false} StationValues(data: seq<Observation>, s: string, d: Date, t: string)
    ensures ValuesOf(StationCells(ConvertUnits(data)), ((s, d), t)) == StationReadings(data, s, d, t)
    decreases |data|
  {
    if data != [] {
      var init := data[..|data| - 1];
      StationValues(init, s, d, t);
      assert StationCells(ConvertUnits(data))[..|data| - 1] == StationCells(ConvertUnits(init));
    }
  }

  lemma {:induction false} DateValues(data: seq<Observation>, d: Date, t: string)
    ensures ValuesOf(StatewideCells(ConvertUnits(data)), (d, t)) == DateReadings(data, d, t)
    decreases |data|
  {
    if data != [] {
      var init := data[..|data| - 1];
      DateValues(init, d, t);
      assert StatewideCells(ConvertUnits(data))[..|data| - 1] == StatewideCells(ConvertUnits(init));
    }
  }

  /** Empty input gives two empty tables, and only empty input does. */
  lemma ProcessDataEmpty(data: seq<Observation>)
    ensures StationData(data) == map[] <==> data == []
    ensures StatewideData(data) == map[] <==> data == []
  {
    if data != [] {
      StationTableRows(data, data[0].station, data[0].date);
      StatewideTableRows(data, data[0].date);
    }
  }

  /** The station table has exactly one row per distinct (station, date) of the input. */
  lemma StationTableRows(data: seq<Observation>, s: string, d: Date)
    ensures (s, d) in StationData(data) <==>
      exists i :: 0 <= i < |data| && data[i].station == s && data[i].date == d
  {
    if data != [] {
      var cells := StationCells(ConvertUnits(data));
      var t := Tally(cells);
      if (s, d) in StationData(data) {
        PivotCells(t, (s, d), "");
        var k :| k in t && k.0 == (s, d);
        TallyValues(cells, k);
        ValuesOfNonEmpty(cells, k);
        var i :| 0 <= i < |cells| && cells[i].0 == k;
        assert data[i].station == s && data[i].date == d;
      }
      if exists i :: 0 <= i < |data| && data[i].station == s && data[i].date == d {
        var i :| 0 <= i < |data| && data[i].station == s && data[i].date == d;
        var k := cells[i].0;
        ValuesOfNonEmpty(cells, k);
        TallyValues(cells, k);
        PivotCells(t, (s, d), k.1);
      }
    }
  }

  /** The statewide table has exactly one row per distinct date of the input. */
  lemma StatewideTableRows(data: seq<Observation>, d: Date)
    ensures d in StatewideData(data) <==> exists i :: 0 <= i < |data| && data[i].date == d
  {
    if data != [] {
      var cells := StatewideCells(ConvertUnits(data));
      var t := Tally(cells);
      if d in StatewideData(data) {
        PivotCells(t, d, "");
        var k :| k in t && k.0 == d;
        TallyValues(cells, k);
        ValuesOfNonEmpty(cells, k);
        var i :| 0 <= i < |cells| && cells[i].0 == k;
        assert data[i].date == d;
      }
      if exists i :: 0 <= i < |data| && data[i].date == d {
        var i :| 0 <= i < |data| && data[i].date == d;
        var k := cells[i].0;
        ValuesOfNonEmpty(cells, k);
        TallyValues(cells, k);
        PivotCells(t, d, k.1);
      }
    }
  }

  /**
   * In a station row, the cell of datatype `t` is present exactly when some
   * row has that station, date and datatype, and then it is the mean of
   * their converted values (the `pivot_table` default aggregation).
   */
  lemma StationTableCells(data: seq<Observation>, s: string, d: Date, t: string)
    requires exists i :: 0 <= i < |data| && data[i].station == s && data[i].date == d
    ensures (s, d) in StationData(data)
    ensures t in StationData(data)[(s, d)] <==> StationReadings(data, s, d, t) != []
    ensures t in StationData(data)[(s, d)] ==>
      StationData(data)[(s, d)][t] == Mean(StationReadings(data, s, d, t))
  {
    StationTableRows(data, s, d);
    var cells := StationCells(ConvertUnits(data));
    StationValues(data, s, d, t);
    TallyValues(cells, ((s, d), t));
    PivotCells(Tally(cells), (s, d), t);
  }

  /**
   * In the statewide row of date `d`, the cell of datatype `t` is present
   * exactly when some row has that date and datatype, and then it is the
   * arithmetic mean of the converted values of all those rows, whatever
   * their station.
   */
  lemma StatewideTableCells(data: seq<Observation>, d: Date, t: string)
    requires exists i :: 0 <= i < |data| && data[i].date == d
    ensures d in StatewideData(data)
    ensures t in StatewideData(data)[d] <==> DateReadings(data, d, t) != []
    ensures t in StatewideData(data)[d] ==> StatewideData(data)[d][t] == Mean(DateReadings(data, d, t))
  {
    StatewideTableRows(data, d);
    var cells := StatewideCells(ConvertUnits(data));
    DateValues(data, d, t);
    TallyValues(cells, (d, t));
    PivotCells(Tally(cells), d, t);
  }

  /** Two humidity readings at station A and one at station B, all on day `d`. */
  function HumidityRows(d: Date): seq<Observation> {
    [Observation("A", d, "RHUM", 10.0), Observation("A", d, "RHUM", 20.0), Observation("B", d, "RHUM", 60.0)]
  }

  lemma HumidityReadings(d: Date)
    ensures DateReadings(HumidityRows(d), d, "RHUM") == [10.0, 20.0, 60.0]
    ensures StationReadings(HumidityRows(d), "A", d, "RHUM") == [10.0, 20.0]
    ensures StationReadings(HumidityRows(d), "B", d, "RHUM") == [60.0]
  {
    var data := HumidityRows(d);
    var two := data[..2];
    var one := two[..1];
    assert two == [Observation("A", d, "RHUM", 10.0), Observation("A", d, "RHUM", 20.0)];
    assert one == [Observation("A", d, "RHUM", 10.0)];
    assert one[..0] == [];
    assert DateReadings(one, d, "RHUM") == [10.0];
    assert DateReadings(two, d, "RHUM") == [10.0, 20.0];
    assert StationReadings(one, "A", d, "RHUM") == [10.0];
    assert StationReadings(two, "A", d, "RHUM") == [10.0, 20.0];
    assert "A" != "B";
    assert StationReadings(one, "B", d, "RHUM") == [];
    assert StationReadings(two, "B", d, "RHUM") == [];
  }

  lemma HumidityMeans()
    ensures Mean([10.0, 20.0, 60.0]) == 30.0 && Mean([10.0, 20.0]) == 15.0 && Mean([60.0]) == 60.0
  {
    assert [10.0, 20.0, 60.0][..2] == [10.0, 20.0];
    assert [10.0, 20.0][..1] == [10.0];
    assert [10.0][..0] == [];
    assert [60.0][..0] == [];
  }

  /**
   * The statewide cell is a mean over rows, not over station means: with
   * two readings at station A (10, 20) and one at station B (60) the
   * statewide humidity is 30, while the station means are 15 and 60.
   */
  lemma StatewideMeanIsOverRows(d: Date)
    ensures d in StatewideData(HumidityRows(d)) && "RHUM" in StatewideData(HumidityRows(d))[d]
    ensures StatewideData(HumidityRows(d))[d]["RHUM"] == 30.0
    ensures ("A", d) in StationData(HumidityRows(d)) && "RHUM" in StationData(HumidityRows(d))[("A", d)]
    ensures StationData(HumidityRows(d))[("A", d)]["RHUM"] == 15.0
    ensures ("B", d) in StationData(HumidityRows(d)) && "RHUM" in StationData(HumidityRows(d))[("B", d)]
    ensures StationData(HumidityRows(d))[("B", d)]["RHUM"] == 60.0
  {
    var data := HumidityRows(d);
    HumidityReadings(d);
    HumidityMeans();
    assert data[0].date == d && data[0].station == "A" && data[2].station == "B" && data[2].date == d;
    StatewideTableRows(data, d);
    StatewideTableCells(data, d, "RHUM");
    StationTableRows(data, "A", d);
    StationTableCells(data, "A", d, "RHUM");
    StationTableRows(data, "B", d);
    StationTableCells(data, "B", d, "RHUM");
  }
}
