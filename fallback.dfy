/**
 * The fallback fleet (frontend_new/src/App.jsx:18-28) and the snapshot updater that
 * `refresh` runs after every fetch (App.jsx:107-112): when there is no snapshot, or its
 * "trains.csv" fragment is empty or absent, the 40 built-in trains stand in for it and
 * every other fragment is kept.
 */
module Fallback {
  import opened JsValues
  import opened CapacityInference
  import opened TrainMerge
  import opened MergeProperties

  /** One built-in train: its id, model code and listed capacity. */
  datatype Listed = Listed(id: string, model: string, capacity: int)

  /** The built-in fleet. */
  const StaticTrains: seq<Listed> := [
      Listed("T1", "4-car", 1200), Listed("T2", "3-car", 900), Listed("T3", "4-car", 1200), Listed("T4", "4-car", 1200),
      Listed("T5", "4-car", 1200), Listed("T6", "4-car", 1200), Listed("T7", "6-car", 1800), Listed("T8", "3-car", 900),
      Listed("T9", "4-car", 1200), Listed("T10", "3-car", 900), Listed("T11", "4-car", 1200), Listed("T12", "4-car", 1200),
      Listed("T13", "3-car", 900), Listed("T14", "3-car", 900), Listed("T15", "4-car", 1200), Listed("T16", "4-car", 1200),
      Listed("T17", "4-car", 1200), Listed("T18", "4-car", 1200), Listed("T19", "6-car", 1800), Listed("T20", "3-car", 900),
      Listed("T21", "6-car", 1800), Listed("T22", "4-car", 1200), Listed("T23", "4-car", 1200), Listed("T24", "3-car", 900),
      Listed("T25", "6-car", 1800), Listed("T26", "4-car", 1200), Listed("T27", "3-car", 900), Listed("T28", "3-car", 900),
      Listed("T29", "6-car", 1800), Listed("T30", "4-car", 1200), Listed("T31", "6-car", 1800), Listed("T32", "4-car", 1200),
      Listed("T33", "4-car", 1200), Listed("T34", "6-car", 1800), Listed("T35", "4-car", 1200), Listed("T36", "4-car", 1200),
      Listed("T37", "6-car", 1800), Listed("T38", "4-car", 1200), Listed("T39", "6-car", 1800), Listed("T40", "4-car", 1200)  ]

  /** `{ train_id: id, model, capacity }` for one built-in train. */
  function StaticRow(t: Listed): Row {
    map["train_id" := Str(t.id), "model" := Str(t.model), "capacity" := Num(t.capacity)]
  }

  /** `STATIC_TRAINS.map(...)`: one row per listed train, in order. */
  function RowsOf(ts: seq<Listed>): (rows: seq<Row>)
    ensures |rows| == |ts| && forall i :: 0 <= i < |ts| ==> rows[i] == StaticRow(ts[i])
  {
    seq(|ts|, i requires 0 <= i < |ts| => StaticRow(ts[i]))
  }

  const StaticRows: seq<Row> := RowsOf(StaticTrains)

  /**
   * The updater passed to `setDataFiles` in `refresh`: no snapshot gives one holding
   * only the built-in trains; a snapshot without trains gets them added; any other
   * snapshot is kept as it is.
   */
  function WithFallback(prev: Option<DataFiles>): (next: DataFiles)
    ensures prev.None? || |Fragment(prev.value, "trains.csv")| == 0 ==>
              Fragment(next, "trains.csv") == StaticRows
    ensures prev.Some? && |Fragment(prev.value, "trains.csv")| > 0 ==> next == prev.value
    ensures forall name :: name != "trains.csv" ==>
              Fragment(next, name) == (if prev.None? then [] else Fragment(prev.value, name))
  {
    if prev.None? then map["trains.csv" := StaticRows]
    else if |Fragment(prev.value, "trains.csv")| == 0 then prev.value["trains.csv" := StaticRows]
    else prev.value
  }

  /** The models of the built-in fleet. */
  predicate ListedModel(t: Listed) {
    || (t.model == "3-car" && t.capacity == 900)
    || (t.model == "4-car" && t.capacity == 1200)
    || (t.model == "6-car" && t.capacity == 1800)
  }

  lemma AllListedModels()
    ensures forall i :: 0 <= i < |StaticTrains| ==> ListedModel(StaticTrains[i])
  {
  }

  /** "N-car" counts N cars. */
  lemma HyphenCar(d: char)
    requires IsDigit(d)
    ensures CarCount(Str([d] + "-car")) == Some(d as int - '0' as int)
  {
    SingleDigitCount(d, "-", "car");
    assert [d] + "-" + "car" == [d] + "-car";
  }

  /** A fleet model "N-car" listed at N * 300 seats gets that capacity back. */
  lemma ListedAsInferred(t: Listed, d: char)
    requires IsDigit(d) && t.model == [d] + "-car"
    requires t.capacity == (d as int - '0' as int) * SeatsPerCar
    ensures CarCount(Str(t.model)) == Some(t.capacity / SeatsPerCar)
    ensures t.capacity == (t.capacity / SeatsPerCar) * SeatsPerCar
  {
    HyphenCar(d);
  }

  /** For each model of the fleet the capacity rule infers the listed capacity. */
  lemma ListedModelCapacity(t: Listed)
    requires ListedModel(t)
    ensures CarCount(Str(t.model)) == Some(t.capacity / SeatsPerCar)
    ensures t.capacity == (t.capacity / SeatsPerCar) * SeatsPerCar
  {
    var d := if t.model == "3-car" then '3' else if t.model == "4-car" then '4' else '6';
    assert t.model == [d] + "-car";
    ListedAsInferred(t, d);
  }

  /**
   * Every built-in train's listed capacity is what the capacity rule infers from its
   * model, 300 seats per car.
   */
  lemma StaticCapacitiesAgree()
    ensures forall i :: 0 <= i < |StaticRows| ==>
              CarCount(Get(StaticRows[i], "model")) == Some(StaticTrains[i].capacity / SeatsPerCar)
              && StaticTrains[i].capacity == (StaticTrains[i].capacity / SeatsPerCar) * SeatsPerCar
  {
    AllListedModels();
    forall i | 0 <= i < |StaticRows|
      ensures CarCount(Get(StaticRows[i], "model")) == Some(StaticTrains[i].capacity / SeatsPerCar)
      ensures StaticTrains[i].capacity == (StaticTrains[i].capacity / SeatsPerCar) * SeatsPerCar
    {
      ListedModelCapacity(StaticTrains[i]);
    }
  }

  /**
   * Whatever the other fragments hold, a snapshot whose trains are the built-in fleet
   * gives each of them an entity whose derived capacity is the listed one, although the
   * seed copies only the id and the model.
   */
  lemma StaticFleetCapacity(df: DataFiles, k: string)
    requires Fragment(df, "trains.csv") == StaticRows
    requires k in RowKeys(StaticRows)
    ensures k in Merged(df).entries
    ensures Get(FinalEntity(df, k), "capacity") == Get(StaticRows[LastIndex(StaticRows, k)], "capacity")
  {
    MergedShape(df, k);
    FinalCapacity(df, k);
    StaticCapacitiesAgree();
  }

  lemma StaticIdsNumberedFrom0()
    ensures forall i :: 0 <= i < 5 ==> StaticTrains[i].id == "T" + NatToDecimal(i + 1)
  {
  }

  lemma StaticIdsNumberedFrom5()
    ensures forall i :: 5 <= i < 10 ==> StaticTrains[i].id == "T" + NatToDecimal(i + 1)
  {
  }

  lemma StaticIdsNumberedFrom10()
    ensures forall i :: 10 <= i < 15 ==> StaticTrains[i].id == "T" + NatToDecimal(i + 1)
  {
  }

  lemma StaticIdsNumberedFrom15()
    ensures forall i :: 15 <= i < 20 ==> StaticTrains[i].id == "T" + NatToDecimal(i + 1)
  {
  }

  lemma StaticIdsNumberedFrom20()
    ensures forall i :: 20 <= i < 25 ==> StaticTrains[i].id == "T" + NatToDecimal(i + 1)
  {
  }

  lemma StaticIdsNumberedFrom25()
    ensures forall i :: 25 <= i < 30 ==> StaticTrains[i].id == "T" + NatToDecimal(i + 1)
  {
  }

  lemma StaticIdsNumberedFrom30()
    ensures forall i :: 30 <= i < 35 ==> StaticTrains[i].id == "T" + NatToDecimal(i + 1)
  {
  }

  lemma StaticIdsNumberedFrom35()
    ensures forall i :: 35 <= i < 40 ==> StaticTrains[i].id == "T" + NatToDecimal(i + 1)
  {
  }

  /** The built-in ids are "T1" to "T40", in order. */
  lemma StaticIdsNumbered()
    ensures |StaticTrains| == 40
    ensures forall i :: 0 <= i < |StaticTrains| ==> StaticTrains[i].id == "T" + NatToDecimal(i + 1)
  {
    StaticIdsNumberedFrom0();
    StaticIdsNumberedFrom5();
    StaticIdsNumberedFrom10();
    StaticIdsNumberedFrom15();
    StaticIdsNumberedFrom20();
    StaticIdsNumberedFrom25();
    StaticIdsNumberedFrom30();
    StaticIdsNumberedFrom35();
  }

  lemma NumberedIdsDiffer(m: nat, n: nat)
    requires m != n
    ensures "T" + NatToDecimal(m) != "T" + NatToDecimal(n)
  {
    NatToDecimalDigits(m);
    NatToDecimalDigits(n);
    var a, b := NatToDecimal(m), NatToDecimal(n);
    assert ("T" + a)[1..] == a && ("T" + b)[1..] == b;
  }

  /** The built-in trains have forty distinct, non-empty ids. */
  lemma StaticIdsDistinct()
    ensures forall i :: 0 <= i < |StaticTrains| ==> StaticTrains[i].id != ""
    ensures forall i, j :: 0 <= i < j < |StaticTrains| ==> StaticTrains[i].id != StaticTrains[j].id
  {
    StaticIdsNumbered();
    forall i, j | 0 <= i < j < |StaticTrains|
      ensures StaticTrains[i].id != StaticTrains[j].id
    {
      NumberedIdsDiffer(i + 1, j + 1);
    }
  }

  /** With distinct ids, the row filed under a listed train's id is that train's own row. */
  lemma ListedRowIsLast(ts: seq<Listed>, i: nat)
    requires i < |ts|
    requires forall j :: 0 <= j < |ts| ==> ts[j].id != ""
    requires forall j, l :: 0 <= j < l < |ts| ==> ts[j].id != ts[l].id
    ensures ts[i].id in RowKeys(RowsOf(ts))
    ensures LastIndex(RowsOf(ts), ts[i].id) == i
  {
    var rows := RowsOf(ts);
    assert RowKey(rows[i]) == Some(ts[i].id);
    var last := LastIndex(rows, ts[i].id);
    assert RowKey(rows[last]) == Some(ts[last].id);
  }

  /**
   * A snapshot whose trains are a list of distinct listed trains gives each one its own
   * entity, with its listed model and, inferred from that model, its listed capacity.
   */
  lemma ListedFleet(df: DataFiles, ts: seq<Listed>, i: nat)
    requires Fragment(df, "trains.csv") == RowsOf(ts)
    requires i < |ts|
    requires forall j :: 0 <= j < |ts| ==> ts[j].id != "" && ListedModel(ts[j])
    requires forall j, l :: 0 <= j < l < |ts| ==> ts[j].id != ts[l].id
    ensures ts[i].id in Merged(df).entries
    ensures Get(FinalEntity(df, ts[i].id), "model") == Str(ts[i].model)
    ensures Get(FinalEntity(df, ts[i].id), "capacity") == Num(ts[i].capacity)
  {
    var k := ts[i].id;
    ListedModelOf(df, ts, i);
    MergedShape(df, k);
    FinalCapacity(df, k);
    MergedEntityModel(df, k);
    ListedModelCapacity(ts[i]);
  }

  /** A listed train is keyed by "trains.csv", and its model is its listed one. */
  lemma ListedModelOf(df: DataFiles, ts: seq<Listed>, i: nat)
    requires Fragment(df, "trains.csv") == RowsOf(ts)
    requires i < |ts|
    requires forall j :: 0 <= j < |ts| ==> ts[j].id != ""
    requires forall j, l :: 0 <= j < l < |ts| ==> ts[j].id != ts[l].id
    ensures ts[i].id in RowKeys(TrainsOf(df))
    ensures ModelOf(df, ts[i].id) == Str(ts[i].model)
  {
    ListedRowIsLast(ts, i);
    assert TrainsOf(df)[i] == StaticRow(ts[i]);
  }

  /**
   * After the fallback, each built-in train has its own entity, carrying its listed
   * model and, inferred from that model, its listed capacity.
   */
  lemma FallbackFleet(prev: Option<DataFiles>, i: nat)
    requires prev.None? || |Fragment(prev.value, "trains.csv")| == 0
    requires i < |StaticTrains|
    ensures var df := WithFallback(prev);
      var k := StaticTrains[i].id;
      && k in Merged(df).entries
      && Get(FinalEntity(df, k), "model") == Str(StaticTrains[i].model)
      && Get(FinalEntity(df, k), "capacity") == Num(StaticTrains[i].capacity)
  {
    StaticIdsDistinct();
    AllListedModels();
    ListedFleet(WithFallback(prev), StaticTrains, i);
  }
}
