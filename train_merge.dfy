/**
 * The record merge engine (`deriveTrains`, frontend_new/src/App.jsx:30-59) and the
 * fallback fleet that `refresh` injects when the snapshot has no trains
 * (App.jsx:18-28, 103-113).
 *
 * A snapshot maps fragment names ("trains.csv", "fitness.csv", ...) to row lists. The
 * merge keeps a plain object `map` from train key to entity object: the "trains.csv"
 * rows seed it, six more fragments write their own fields into it (creating an entity
 * from the id alone when a train appears only there), a last pass fills in capacity,
 * and `Object.values(map)` is the result. Here that object is a Store: its keys in
 * insertion order (the order `Object.values` follows) and the entities by key.
 */
module TrainMerge {
  import opened JsValues
  import opened CapacityInference

  type DataFiles = map<string, seq<Row>>

  /** `dataFiles[name] || []`. */
  function Fragment(df: DataFiles, name: string): seq<Row> {
    if name in df then df[name] else []
  }

  /** The object key a row is filed under (`map[r.train_id]` coerces the id to a string); None for a falsy id. */
  function RowKey(r: Row): Option<string> {
    var id := Get(r, "train_id");
    if Truthy(id) then Some(ToText(id)) else None
  }

  /** The keys the rows of one fragment are filed under. */
  function RowKeys(rows: seq<Row>): (ks: set<string>)
    ensures forall k :: k in ks <==> exists i :: 0 <= i < |rows| && RowKey(rows[i]) == Some(k)
  {
    if |rows| == 0 then {}
    else
      var init := rows[..|rows| - 1];
      var last := RowKey(rows[|rows| - 1]);
      assert forall i :: 0 <= i < |init| ==> init[i] == rows[i];
      RowKeys(init) + (if last.Some? then {last.value} else {})
  }

  /** The last row filed under `k`: the one whose writes survive. */
  function LastIndex(rows: seq<Row>, k: string): (i: nat)
    requires k in RowKeys(rows)
    ensures i < |rows| && RowKey(rows[i]) == Some(k)
    ensures forall j :: i < j < |rows| ==> RowKey(rows[j]) != Some(k)
  {
    LastIndexBelow(rows, k, |rows|)
  }

  /** The last of the first `n` rows filed under `k`. */
  function LastIndexBelow(rows: seq<Row>, k: string, n: nat): (i: nat)
    requires n <= |rows|
    requires exists m :: 0 <= m < n && RowKey(rows[m]) == Some(k)
    ensures i < n && RowKey(rows[i]) == Some(k)
    ensures forall j :: i < j < n ==> RowKey(rows[j]) != Some(k)
  {
    if RowKey(rows[n - 1]) == Some(k) then n - 1
    else
      var m :| 0 <= m < n && RowKey(rows[m]) == Some(k);
      assert m < n - 1;
      LastIndexBelow(rows, k, n - 1)
  }

  /** The first row filed under `k`: the one that creates the entity if it is new. */
  function FirstIndex(rows: seq<Row>, k: string): (i: nat)
    requires k in RowKeys(rows)
    ensures i < |rows| && RowKey(rows[i]) == Some(k)
    ensures forall j :: 0 <= j < i ==> RowKey(rows[j]) != Some(k)
  {
    var n := |rows| - 1;
    var init := rows[..n];
    assert forall j :: 0 <= j < n ==> init[j] == rows[j];
    if k in RowKeys(init) then FirstIndex(init, k)
    else
      assert RowKey(rows[n]) == Some(k);
      n
  }

  /** The object `map`: keys in insertion order, entities by key. */
  datatype Store = Store(keys: seq<string>, entries: map<string, Row>)

  /**
   * Keys are listed once each and exactly cover the entities, and every entity holds a
   * truthy `train_id` whose string form is its key.
   */
  ghost predicate WellFormed(st: Store) {
    && (forall i, j :: 0 <= i < j < |st.keys| ==> st.keys[i] != st.keys[j])
    && (forall k :: k in st.entries <==> k in st.keys)
    && (forall k :: k in st.entries ==>
          Truthy(Get(st.entries[k], "train_id")) && ToText(Get(st.entries[k], "train_id")) == k)
  }

  /** `map[k] = t`: a new key goes to the end of the order, an existing one keeps its place. */
  function Put(st: Store, k: string, t: Row): Store {
    Store(if k in st.entries then st.keys else st.keys + [k], st.entries[k := t])
  }

  /** `{ train_id: r.train_id, model: r.model }` (App.jsx:34). */
  function SeedEntity(r: Row): Row {
    map["train_id" := Get(r, "train_id"), "model" := Get(r, "model")]
  }

  function SeedStep(st: Store, r: Row): Store {
    match RowKey(r)
    case None => st
    case Some(k) => Put(st, k, SeedEntity(r))
  }

  /** The store after seeding `st` with `rows` in order (App.jsx:32-34). */
  function SeedFold(st: Store, rows: seq<Row>): Store {
    if |rows| == 0 then st
    else SeedStep(SeedFold(st, rows[..|rows| - 1]), rows[|rows| - 1])
  }

  const Empty: Store := Store([], map[])

  /** The six fragments merged after the seed, in the source's order (App.jsx:43-48). */
  datatype Source = Fitness | Jobcard | Cleaning | Branding | Mileage | Stabling

  const MergeOrder: seq<Source> := [Fitness, Jobcard, Cleaning, Branding, Mileage, Stabling]

  function FileName(src: Source): string {
    match src
    case Fitness => "fitness.csv"
    case Jobcard => "jobcard.csv"
    case Cleaning => "cleaning.csv"
    case Branding => "branding.csv"
    case Mileage => "mileage.csv"
    case Stabling => "stabling.csv"
  }

  /** The entity fields each fragment writes; no two fragments share one. */
  function Fields(src: Source): set<string> {
    match src
    case Fitness => {"fitness_score", "fitness_valid"}
    case Jobcard => {"jobcard_open"}
    case Cleaning => {"last_cleaned_days"}
    case Branding => {"branding_priority"}
    case Mileage => {"mileage_km"}
    case Stabling => {"stabling_site"}
  }

  /** The stabling fields probed in order (App.jsx:48). */
  const SiteFields: seq<string> := ["site", "depot", "yard", "location", "stabling", "bay"]

  /** `v0 || v1 || ... || vn`. */
  function OrChain(vs: seq<Value>): Value
    requires |vs| > 0
  {
    if |vs| == 1 || Truthy(vs[0]) then vs[0] else OrChain(vs[1..])
  }

  /** The chain yields the first truthy operand, or the last operand when none is truthy. */
  lemma {:induction false} OrChainPicks(vs: seq<Value>)
    requires |vs| > 0
    ensures exists i :: 0 <= i < |vs| && OrChain(vs) == vs[i] && (Truthy(vs[i]) || i == |vs| - 1)
                        && forall j :: 0 <= j < i ==> !Truthy(vs[j])
  {
    if |vs| > 1 && !Truthy(vs[0]) {
      OrChainPicks(vs[1..]);
      var i :| 0 <= i < |vs| - 1 && OrChain(vs[1..]) == vs[1..][i] && (Truthy(vs[1..][i]) || i == |vs| - 2)
                && forall j :: 0 <= j < i ==> !Truthy(vs[1..][j]);
      assert forall j :: 0 <= j < i + 1 ==> !Truthy(vs[j]) by {
        assert forall j :: 0 < j < i + 1 ==> vs[j] == vs[1..][j - 1];
      }
      assert OrChain(vs) == vs[i + 1];
    } else {
      assert OrChain(vs) == vs[0];
    }
  }

  /** `r.site || r.depot || r.yard || r.location || r.stabling || r.bay`. */
  function StablingSite(r: Row): Value {
    OrChain(seq(|SiteFields|, i requires 0 <= i < |SiteFields| => Get(r, SiteFields[i])))
  }

  /** The fields one row of fragment `src` writes into its entity (App.jsx:43-48). */
  function Writes(src: Source, r: Row): (w: Row)
    ensures w.Keys == Fields(src)
  {
    match src
    case Fitness => map["fitness_score" := Get(r, "score"), "fitness_valid" := Get(r, "valid")]
    case Jobcard => map["jobcard_open" := Get(r, "open")]
    case Cleaning => map["last_cleaned_days" := Get(r, "last_cleaned_days")]
    case Branding => map["branding_priority" := Get(r, "priority")]
    case Mileage => map["mileage_km" := Get(r, "km")]
    case Stabling => map["stabling_site" := StablingSite(r)]
  }

  /** `{ train_id: id }`: the entity a fragment creates for a train it meets first. */
  function IdOnly(r: Row): Row {
    map["train_id" := Get(r, "train_id")]
  }

  /** One turn of `merge` (App.jsx:36-40): look the entity up or create it from the id, then write. */
  function MergeStep(st: Store, src: Source, r: Row): Store {
    match RowKey(r)
    case None => st
    case Some(k) =>
      var t := if k in st.entries then st.entries[k] else IdOnly(r);
      Put(st, k, t + Writes(src, r))
  }

  /** `merge(file, fn)` over all rows of one fragment. */
  function MergeFold(st: Store, src: Source, rows: seq<Row>): Store {
    if |rows| == 0 then st
    else MergeStep(MergeFold(st, src, rows[..|rows| - 1]), src, rows[|rows| - 1])
  }

  /** The fragments `srcs` merged one after the other. */
  function MergeSources(st: Store, df: DataFiles, srcs: seq<Source>): Store
    decreases |srcs|
  {
    if |srcs| == 0 then st
    else MergeSources(MergeFold(st, srcs[0], Fragment(df, FileName(srcs[0]))), df, srcs[1..])
  }

  /** The store before the capacity pass. */
  function Merged(df: DataFiles): Store {
    MergeSources(SeedFold(Empty, Fragment(df, "trains.csv")), df, MergeOrder)
  }

  /** The entity for key `k` after the capacity pass. */
  function FinalEntity(df: DataFiles, k: string): Row
    requires k in Merged(df).entries
  {
    WithCapacity(Merged(df).entries[k])
  }

  /** `deriveTrains(dataFiles)`: `Object.values(map)` after the capacity pass; [] without a snapshot. */
  function Derived(dataFiles: Option<DataFiles>): (trains: seq<Row>)
    ensures dataFiles.None? ==> trains == []
    ensures dataFiles.Some? ==> |trains| == |Merged(dataFiles.value).keys|
  {
    match dataFiles
    case None => []
    case Some(df) =>
      var st := Merged(df);
      MergedWellFormed(df);
      seq(|st.keys|, i requires 0 <= i < |st.keys| => FinalEntity(df, st.keys[i]))
  }

  // ---------------------------------------------------------------------------
  // The store stays well formed: every entity is filed under String(train_id).

  /** Filing an entity under its own id keeps the store well formed. */
  lemma PutWellFormed(st: Store, k: string, t: Row)
    requires WellFormed(st)
    requires Truthy(Get(t, "train_id")) && ToText(Get(t, "train_id")) == k
    ensures WellFormed(Put(st, k, t))
  {
    var st' := Put(st, k, t);
    if k !in st.entries {
      forall i, j | 0 <= i < j < |st'.keys| ensures st'.keys[i] != st'.keys[j] {
        if j == |st.keys| {
          assert st.keys[i] in st.entries;
        }
      }
    }
  }

  lemma SeedStepWellFormed(st: Store, r: Row)
    requires WellFormed(st)
    ensures WellFormed(SeedStep(st, r))
  {
    if RowKey(r).Some? {
      PutWellFormed(st, RowKey(r).value, SeedEntity(r));
    }
  }

  lemma MergeStepWellFormed(st: Store, src: Source, r: Row)
    requires WellFormed(st)
    ensures WellFormed(MergeStep(st, src, r))
  {
    if RowKey(r).Some? {
      var k := RowKey(r).value;
      var t := if k in st.entries then st.entries[k] else IdOnly(r);
      assert "train_id" !in Writes(src, r);
      assert Get(t + Writes(src, r), "train_id") == Get(t, "train_id");
      PutWellFormed(st, k, t + Writes(src, r));
    }
  }

  lemma {:induction false} SeedFoldWellFormed(st: Store, rows: seq<Row>)
    requires WellFormed(st)
    ensures WellFormed(SeedFold(st, rows))
    decreases |rows|
  {
    if |rows| > 0 {
      SeedFoldWellFormed(st, rows[..|rows| - 1]);
      SeedStepWellFormed(SeedFold(st, rows[..|rows| - 1]), rows[|rows| - 1]);
    }
  }

  lemma {:induction false} MergeFoldWellFormed(st: Store, src: Source, rows: seq<Row>)
    requires WellFormed(st)
    ensures WellFormed(MergeFold(st, src, rows))
    decreases |rows|
  {
    if |rows| > 0 {
      MergeFoldWellFormed(st, src, rows[..|rows| - 1]);
      MergeStepWellFormed(MergeFold(st, src, rows[..|rows| - 1]), src, rows[|rows| - 1]);
    }
  }

  lemma {:induction false} MergeSourcesWellFormed(st: Store, df: DataFiles, srcs: seq<Source>)
    requires WellFormed(st)
    ensures WellFormed(MergeSources(st, df, srcs))
    decreases |srcs|
  {
    if |srcs| > 0 {
      MergeFoldWellFormed(st, srcs[0], Fragment(df, FileName(srcs[0])));
      MergeSourcesWellFormed(MergeFold(st, srcs[0], Fragment(df, FileName(srcs[0]))), df, srcs[1..]);
    }
  }

  /**
   * Rows with a falsy id create nothing, every entity is filed under String(train_id),
   * and its id is truthy; keys are listed once each in `Object.values` order.
   */
  lemma MergedWellFormed(df: DataFiles)
    ensures WellFormed(Merged(df))
  {
    SeedFoldWellFormed(Empty, Fragment(df, "trains.csv"));
    MergeSourcesWellFormed(SeedFold(Empty, Fragment(df, "trains.csv")), df, MergeOrder);
  }

  // ---------------------------------------------------------------------------
  // The imperative merge, as the source writes it.

  /** The seeding loop (App.jsx:32-34). */
  method SeedStore(rows: seq<Row>) returns (keys: seq<string>, entries: map<string, Row>)
    ensures Store(keys, entries) == SeedFold(Empty, rows)
  {
    keys, entries := [], map[];
    var i := 0;
    while i < |rows|
      invariant 0 <= i <= |rows|
      invariant Store(keys, entries) == SeedFold(Empty, rows[..i])
    {
      assert rows[..i + 1][..i] == rows[..i];
      ghost var before := Store(keys, entries);
      var r := rows[i];
      var id := Get(r, "train_id");
      if Truthy(id) {
        var k := ToText(id);
        if k !in entries {
          keys := keys + [k];
        }
        entries := entries[k := map["train_id" := id, "model" := Get(r, "model")]];
      }
      assert Store(keys, entries) == SeedStep(before, r);
      i := i + 1;
    }
    assert rows[..|rows|] == rows;
  }

  /** The body of `merge`'s loop for one row (App.jsx:37-40). */
  method MergeRow(keys0: seq<string>, entries0: map<string, Row>, src: Source, r: Row)
    returns (keys: seq<string>, entries: map<string, Row>)
    ensures Store(keys, entries) == MergeStep(Store(keys0, entries0), src, r)
  {
    keys, entries := keys0, entries0;
    var id := Get(r, "train_id");
    if Truthy(id) {
      var k := ToText(id);
      var t := if k in entries then entries[k] else map["train_id" := id];
      if k !in entries {
        keys := keys + [k];
      }
      entries := entries[k := t + Writes(src, r)];
    }
  }

  /** `merge(file, fn)` (App.jsx:35-42) for one fragment. */
  method MergeFragment(keys0: seq<string>, entries0: map<string, Row>, src: Source, rows: seq<Row>)
    returns (keys: seq<string>, entries: map<string, Row>)
    ensures Store(keys, entries) == MergeFold(Store(keys0, entries0), src, rows)
  {
    keys, entries := keys0, entries0;
    var i := 0;
    while i < |rows|
      invariant 0 <= i <= |rows|
      invariant Store(keys, entries) == MergeFold(Store(keys0, entries0), src, rows[..i])
    {
      assert rows[..i + 1][..i] == rows[..i];
      keys, entries := MergeRow(keys, entries, src, rows[i]);
      i := i + 1;
    }
    assert rows[..|rows|] == rows;
  }

  /** The body of the capacity pass for one entity (App.jsx:51-56). */
  method FillCapacity(t: Row) returns (r: Row)
    ensures r == WithCapacity(t)
  {
    r := t;
    if IsNullish(Get(t, "capacity")) {
      var model := Get(t, "model");
      if Truthy(model) && MatchesCarPattern(ToText(model)) {
        var cars := FirstDigitRun(ToText(model));
        assert CarCount(model) == cars;
        if cars.Some? {
          r := t["capacity" := Num(cars.value * SeatsPerCar)];
        }
      }
    }
  }

  /** The capacity pass over `Object.values(map)` (App.jsx:50-57). */
  method InferCapacities(keys: seq<string>, entries0: map<string, Row>) returns (entries: map<string, Row>)
    requires forall j :: 0 <= j < |keys| ==> keys[j] in entries0
    requires forall i, j :: 0 <= i < j < |keys| ==> keys[i] != keys[j]
    ensures entries.Keys == entries0.Keys
    ensures forall j :: 0 <= j < |keys| ==> entries[keys[j]] == WithCapacity(entries0[keys[j]])
  {
    entries := entries0;
    var i := 0;
    while i < |keys|
      invariant 0 <= i <= |keys|
      invariant entries.Keys == entries0.Keys
      invariant forall j :: 0 <= j < i ==> entries[keys[j]] == WithCapacity(entries0[keys[j]])
      invariant forall j :: i <= j < |keys| ==> entries[keys[j]] == entries0[keys[j]]
    {
      var k := keys[i];
      var t := FillCapacity(entries[k]);
      ghost var prev := entries;
      entries := entries[k := t];
      forall j | 0 <= j < |keys| && j != i ensures entries[keys[j]] == prev[keys[j]] {
        assert keys[j] != k;
      }
      i := i + 1;
    }
  }

  /** The six `merge` calls (App.jsx:43-48), taken in MergeOrder. */
  method MergeAllFragments(keys0: seq<string>, entries0: map<string, Row>, df: DataFiles)
    returns (keys: seq<string>, entries: map<string, Row>)
    ensures Store(keys, entries) == MergeSources(Store(keys0, entries0), df, MergeOrder)
  {
    keys, entries := keys0, entries0;
    var i := 0;
    while i < |MergeOrder|
      invariant 0 <= i <= |MergeOrder|
      invariant MergeSources(Store(keys, entries), df, MergeOrder[i..])
                == MergeSources(Store(keys0, entries0), df, MergeOrder)
    {
      var src := MergeOrder[i];
      keys, entries := MergeFragment(keys, entries, src, Fragment(df, FileName(src)));
      assert MergeOrder[i..][1..] == MergeOrder[i + 1..];
      i := i + 1;
    }
  }

  /** `deriveTrains` (App.jsx:30-59). */
  method DeriveTrains(dataFiles: Option<DataFiles>) returns (trains: seq<Row>)
    ensures trains == Derived(dataFiles)
  {
    if dataFiles.None? {
      return [];
    }
    var df := dataFiles.value;
    var keys, entries := SeedStore(Fragment(df, "trains.csv"));
    keys, entries := MergeAllFragments(keys, entries, df);
    assert Store(keys, entries) == Merged(df);
    MergedWellFormed(df);
    var final := InferCapacities(keys, entries);
    trains := seq(|keys|, i requires 0 <= i < |keys| => final[keys[i]]);
  }
}
