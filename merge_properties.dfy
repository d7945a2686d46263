/**
 * What `deriveTrains` (frontend_new/src/App.jsx:30-59) promises about its result,
 * proved about the fold definitions of TrainMerge: which keys get an entity, what
 * each entity holds (an order-independent reference definition, ExpectedEntity), and
 * the per-field consequences: ids equal keys, the last row of a fragment wins, a train
 * seen only in a secondary fragment is created from its id alone, rows with a falsy id
 * change nothing, and capacity comes only from the model.
 */
module MergeProperties {
  import opened JsValues
  import opened CapacityInference
  import opened TrainMerge

  // ---------------------------------------------------------------------------
  // Map facts.

  /** A second write of the same fields replaces the first one completely. */
  lemma OverwriteTwice(b: Row, w1: Row, w2: Row)
    requires w1.Keys <= w2.Keys
    ensures (b + w1) + w2 == b + w2
  {
    assert forall f :: f in (b + w1) + w2 <==> f in b + w2;
  }

  lemma UnionAssoc(a: Row, b: Row, c: Row)
    ensures (a + b) + c == a + (b + c)
  {
    assert forall f :: f in (a + b) + c <==> f in a + (b + c);
  }

  // ---------------------------------------------------------------------------
  // Seeding.

  /**
   * After seeding, a key has an entity exactly when some "trains.csv" row is filed under
   * it, and that entity is built from the LAST such row.
   */
  lemma {:induction false} SeedFoldShape(rows: seq<Row>, k: string)
    ensures k in SeedFold(Empty, rows).entries <==> k in RowKeys(rows)
    ensures k in RowKeys(rows) ==>
              SeedFold(Empty, rows).entries[k] == SeedEntity(rows[LastIndex(rows, k)])
    decreases |rows|
  {
    if |rows| > 0 {
      var n := |rows| - 1;
      var init, r := rows[..n], rows[n];
      SeedFoldShape(init, k);
      var mid := SeedFold(Empty, init);
      assert SeedFold(Empty, rows) == SeedStep(mid, r);
      if RowKey(r) == Some(k) {
        assert LastIndex(rows, k) == n;
      } else {
        assert k in RowKeys(rows) <==> k in RowKeys(init);
        if k in RowKeys(init) {
          LastIndexOfPrefix(rows, k);
          assert rows[LastIndex(init, k)] == init[LastIndex(init, k)];
        }
      }
    }
  }

  // ---------------------------------------------------------------------------
  // One fragment.

  /** The entity one fragment leaves for `k`: found or created from the first row, then the last row's writes. */
  function FoldedEntity(st: Store, src: Source, rows: seq<Row>, k: string): Row
    requires k in RowKeys(rows)
  {
    var base := if k in st.entries then st.entries[k] else IdOnly(rows[FirstIndex(rows, k)]);
    base + Writes(src, rows[LastIndex(rows, k)])
  }

  /**
   * `merge` over one fragment: existing keys keep their place in the order, a key
   * gets an entity iff it had one or some row is filed under it, an untouched entity
   * is unchanged, and a touched one holds the writes of the last row filed under it.
   */
  lemma {:induction false} MergeFoldShape(st: Store, src: Source, rows: seq<Row>, k: string)
    ensures st.keys <= MergeFold(st, src, rows).keys
    ensures k in MergeFold(st, src, rows).entries <==> k in st.entries || k in RowKeys(rows)
    ensures k in RowKeys(rows) ==> MergeFold(st, src, rows).entries[k] == FoldedEntity(st, src, rows, k)
    ensures k !in RowKeys(rows) && k in st.entries ==> MergeFold(st, src, rows).entries[k] == st.entries[k]
    decreases |rows|
  {
    if |rows| > 0 {
      var n := |rows| - 1;
      var init, r := rows[..n], rows[n];
      MergeFoldShape(st, src, init, k);
      var mid := MergeFold(st, src, init);
      assert MergeFold(st, src, rows) == MergeStep(mid, src, r);
      if RowKey(r) == Some(k) {
        MergeFoldLastRow(st, src, rows, k);
      } else {
        assert k in RowKeys(rows) <==> k in RowKeys(init);
        if k in RowKeys(init) {
          LastIndexOfPrefix(rows, k);
          assert FirstIndex(rows, k) == FirstIndex(init, k);
          assert rows[LastIndex(init, k)] == init[LastIndex(init, k)];
          assert rows[FirstIndex(init, k)] == init[FirstIndex(init, k)];
        }
      }
    }
  }

  /** When the last row is filed elsewhere, the last row filed under `k` is found among the rows before it. */
  lemma LastIndexOfPrefix(rows: seq<Row>, k: string)
    requires |rows| > 0 && RowKey(rows[|rows| - 1]) != Some(k)
    requires k in RowKeys(rows[..|rows| - 1])
    ensures k in RowKeys(rows)
    ensures LastIndex(rows, k) == LastIndex(rows[..|rows| - 1], k)
  {
    var init := rows[..|rows| - 1];
    var a, b := LastIndex(rows, k), LastIndex(init, k);
    assert init[b] == rows[b];
    assert a < |init| && init[a] == rows[a];
  }

  /** The step of MergeFoldShape where the last row is filed under `k`. */
  lemma MergeFoldLastRow(st: Store, src: Source, rows: seq<Row>, k: string)
    requires |rows| > 0 && RowKey(rows[|rows| - 1]) == Some(k)
    requires var init := rows[..|rows| - 1];
      && (k in MergeFold(st, src, init).entries <==> k in st.entries || k in RowKeys(init))
      && (k in RowKeys(init) ==> MergeFold(st, src, init).entries[k] == FoldedEntity(st, src, init, k))
      && (k !in RowKeys(init) && k in st.entries ==> MergeFold(st, src, init).entries[k] == st.entries[k])
    ensures k in RowKeys(rows)
    ensures MergeFold(st, src, rows).entries[k] == FoldedEntity(st, src, rows, k)
  {
    var n := |rows| - 1;
    var init, r := rows[..n], rows[n];
    var mid := MergeFold(st, src, init);
    assert MergeFold(st, src, rows) == MergeStep(mid, src, r);
    assert LastIndex(rows, k) == n;
    if k in RowKeys(init) {
      assert FirstIndex(rows, k) == FirstIndex(init, k);
      assert rows[FirstIndex(init, k)] == init[FirstIndex(init, k)];
      var base := if k in st.entries then st.entries[k] else IdOnly(init[FirstIndex(init, k)]);
      OverwriteTwice(base, Writes(src, init[LastIndex(init, k)]), Writes(src, r));
    } else {
      assert FirstIndex(rows, k) == n;
    }
  }

  // ---------------------------------------------------------------------------
  // A list of fragments.

  function FragmentOf(df: DataFiles, src: Source): seq<Row> {
    Fragment(df, FileName(src))
  }

  /** Some row of one of the fragments `srcs` is filed under `k`. */
  predicate SourceKeyed(df: DataFiles, srcs: seq<Source>, k: string)
    decreases |srcs|
  {
    |srcs| > 0 && (k in RowKeys(FragmentOf(df, srcs[0])) || SourceKeyed(df, srcs[1..], k))
  }

  /** The `{ train_id: id }` entity made by the first fragment of `srcs` that meets `k`. */
  function Creator(df: DataFiles, srcs: seq<Source>, k: string): Row
    requires SourceKeyed(df, srcs, k)
    decreases |srcs|
  {
    var rows := FragmentOf(df, srcs[0]);
    if k in RowKeys(rows) then IdOnly(rows[FirstIndex(rows, k)]) else Creator(df, srcs[1..], k)
  }

  /** The writes of the last row filed under `k` in each fragment of `srcs` that has one. */
  function SourceWrites(df: DataFiles, srcs: seq<Source>, k: string): Row
    decreases |srcs|
  {
    if |srcs| == 0 then map[]
    else
      var rows := FragmentOf(df, srcs[0]);
      (if k in RowKeys(rows) then Writes(srcs[0], rows[LastIndex(rows, k)]) else map[])
        + SourceWrites(df, srcs[1..], k)
  }

  /** The fragments `srcs` merged in turn, for one key. */
  lemma {:induction false} MergeSourcesShape(st: Store, df: DataFiles, srcs: seq<Source>, k: string)
    ensures k in MergeSources(st, df, srcs).entries <==> k in st.entries || SourceKeyed(df, srcs, k)
    ensures k in st.entries ==>
              MergeSources(st, df, srcs).entries[k] == st.entries[k] + SourceWrites(df, srcs, k)
    ensures k !in st.entries && SourceKeyed(df, srcs, k) ==>
              MergeSources(st, df, srcs).entries[k] == Creator(df, srcs, k) + SourceWrites(df, srcs, k)
    decreases |srcs|
  {
    if |srcs| == 0 {
      assert forall t: Row :: t + map[] == t;
    } else {
      var rows := FragmentOf(df, srcs[0]);
      var st1 := MergeFold(st, srcs[0], rows);
      assert MergeSources(st, df, srcs) == MergeSources(st1, df, srcs[1..]);
      MergeFoldShape(st, srcs[0], rows, k);
      MergeSourcesShape(st1, df, srcs[1..], k);
      var rest := SourceWrites(df, srcs[1..], k);
      if k in RowKeys(rows) {
        var w := Writes(srcs[0], rows[LastIndex(rows, k)]);
        var base := if k in st.entries then st.entries[k] else IdOnly(rows[FirstIndex(rows, k)]);
        UnionAssoc(base, w, rest);
      } else {
        assert map[] + rest == rest;
      }
    }
  }

  // ---------------------------------------------------------------------------
  // The whole merge.

  function TrainsOf(df: DataFiles): seq<Row> {
    Fragment(df, "trains.csv")
  }

  /** A key `deriveTrains` gives an entity: some row of the seven fragments is filed under it. */
  predicate Keyed(df: DataFiles, k: string) {
    k in RowKeys(TrainsOf(df)) || SourceKeyed(df, MergeOrder, k)
  }

  /**
   * The reference definition of a merged entity, independent of the fold: the seed
   * entity of the last "trains.csv" row for `k` (or the id-only entity of the first
   * fragment that meets it), plus each fragment's writes from its last row for `k`.
   */
  function ExpectedEntity(df: DataFiles, k: string): Row
    requires Keyed(df, k)
  {
    var trains := TrainsOf(df);
    var base := if k in RowKeys(trains) then SeedEntity(trains[LastIndex(trains, k)])
                else Creator(df, MergeOrder, k);
    base + SourceWrites(df, MergeOrder, k)
  }

  /** The merge gives exactly the keyed trains an entity, and that entity is ExpectedEntity. */
  lemma MergedShape(df: DataFiles, k: string)
    ensures k in Merged(df).entries <==> Keyed(df, k)
    ensures k in Merged(df).entries ==> Merged(df).entries[k] == ExpectedEntity(df, k)
  {
    SeedFoldShape(TrainsOf(df), k);
    MergeSourcesShape(SeedFold(Empty, TrainsOf(df)), df, MergeOrder, k);
  }

  // ---------------------------------------------------------------------------
  // Consequences field by field.

  /** Every field some fragment writes. */
  function AllFields(srcs: seq<Source>): set<string>
    decreases |srcs|
  {
    if |srcs| == 0 then {} else Fields(srcs[0]) + AllFields(srcs[1..])
  }

  lemma {:induction false} SourceWritesKeys(df: DataFiles, srcs: seq<Source>, k: string)
    ensures SourceWrites(df, srcs, k).Keys <= AllFields(srcs)
    decreases |srcs|
  {
    if |srcs| > 0 {
      SourceWritesKeys(df, srcs[1..], k);
    }
  }

  lemma {:induction false} CreatorKeys(df: DataFiles, srcs: seq<Source>, k: string)
    requires SourceKeyed(df, srcs, k)
    ensures Creator(df, srcs, k).Keys == {"train_id"}
    decreases |srcs|
  {
    if k !in RowKeys(FragmentOf(df, srcs[0])) {
      CreatorKeys(df, srcs[1..], k);
    }
  }

  /**
   * Within the fragments `srcs`, where no other fragment writes field `f`, the field
   * holds the value the last row filed under `k` in fragment `j` wrote, and is absent
   * when that fragment has no row for `k`.
   */
  lemma {:induction false} SourceWritesField(df: DataFiles, srcs: seq<Source>, k: string, j: nat, f: string)
    requires j < |srcs| && f in Fields(srcs[j])
    requires forall i :: 0 <= i < |srcs| && i != j ==> f !in Fields(srcs[i])
    ensures var rows := FragmentOf(df, srcs[j]);
      && (k in RowKeys(rows) ==>
            f in SourceWrites(df, srcs, k) &&
            SourceWrites(df, srcs, k)[f] == Writes(srcs[j], rows[LastIndex(rows, k)])[f])
      && (k !in RowKeys(rows) ==> f !in SourceWrites(df, srcs, k))
    decreases |srcs|
  {
    var rest := srcs[1..];
    if j == 0 {
      SourceWritesKeys(df, rest, k);
      AllFieldsMembers(rest, f);
    } else {
      assert forall i :: 0 <= i < |rest| && i != j - 1 ==> f !in Fields(rest[i]) by {
        forall i | 0 <= i < |rest| && i != j - 1 ensures f !in Fields(rest[i]) {
          assert rest[i] == srcs[i + 1];
        }
      }
      SourceWritesField(df, rest, k, j - 1, f);
    }
  }

  lemma {:induction false} AllFieldsMembers(srcs: seq<Source>, f: string)
    requires forall i :: 0 <= i < |srcs| ==> f !in Fields(srcs[i])
    ensures f !in AllFields(srcs)
    decreases |srcs|
  {
    if |srcs| > 0 {
      AllFieldsMembers(srcs[1..], f);
    }
  }

  /** No field of MergeOrder's fragments is written by two of them, nor by the seed. */
  lemma FieldsDisjoint(j: nat, f: string)
    requires j < |MergeOrder| && f in Fields(MergeOrder[j])
    ensures forall i :: 0 <= i < |MergeOrder| && i != j ==> f !in Fields(MergeOrder[i])
    ensures f != "train_id" && f != "model" && f != "capacity"
  {
  }

  /**
   * Last write wins: after the merge, a field of fragment `src` holds what the LAST row
   * of that fragment filed under `k` wrote, and is absent when the fragment has no row
   * for `k` (App.jsx:36-48).
   */
  lemma LastRowWins(df: DataFiles, j: nat, k: string, f: string)
    requires j < |MergeOrder| && f in Fields(MergeOrder[j])
    requires k in Merged(df).entries
    ensures var rows := FragmentOf(df, MergeOrder[j]);
      && (k in RowKeys(rows) ==>
            f in Merged(df).entries[k] &&
            Merged(df).entries[k][f] == Writes(MergeOrder[j], rows[LastIndex(rows, k)])[f])
      && (k !in RowKeys(rows) ==> f !in Merged(df).entries[k])
  {
    MergedShape(df, k);
    ExpectedField(df, j, k, f);
  }

  /** LastRowWins for the reference entity. */
  lemma ExpectedField(df: DataFiles, j: nat, k: string, f: string)
    requires j < |MergeOrder| && f in Fields(MergeOrder[j])
    requires Keyed(df, k)
    ensures var rows := FragmentOf(df, MergeOrder[j]);
      && (k in RowKeys(rows) ==>
            f in ExpectedEntity(df, k) &&
            ExpectedEntity(df, k)[f] == Writes(MergeOrder[j], rows[LastIndex(rows, k)])[f])
      && (k !in RowKeys(rows) ==> f !in ExpectedEntity(df, k))
  {
    FieldsDisjoint(j, f);
    SourceWritesField(df, MergeOrder, k, j, f);
    if k !in RowKeys(TrainsOf(df)) {
      CreatorKeys(df, MergeOrder, k);
    }
  }

  /** The model an entity carries: the last "trains.csv" row's, or none for a train only other fragments name. */
  function ModelOf(df: DataFiles, k: string): Value {
    var trains := TrainsOf(df);
    if k in RowKeys(trains) then Get(trains[LastIndex(trains, k)], "model") else Undef
  }

  /** No fragment writes the id, the model or the capacity. */
  lemma SeedFieldsNotWritten(f: string)
    requires f == "train_id" || f == "model" || f == "capacity"
    ensures f !in AllFields(MergeOrder)
  {
    forall i | 0 <= i < |MergeOrder| ensures f !in Fields(MergeOrder[i]) {
    }
    AllFieldsMembers(MergeOrder, f);
  }

  /** The reference entity holds no capacity, and the model of its last "trains.csv" row. */
  lemma ExpectedEntityModel(df: DataFiles, k: string)
    requires Keyed(df, k)
    ensures "capacity" !in ExpectedEntity(df, k)
    ensures Get(ExpectedEntity(df, k), "model") == ModelOf(df, k)
  {
    SourceWritesKeys(df, MergeOrder, k);
    SeedFieldsNotWritten("capacity");
    SeedFieldsNotWritten("model");
    if k !in RowKeys(TrainsOf(df)) {
      CreatorKeys(df, MergeOrder, k);
    }
  }

  /** A merged entity holds no capacity, and the model of its last "trains.csv" row. */
  lemma MergedEntityModel(df: DataFiles, k: string)
    requires k in Merged(df).entries
    ensures "capacity" !in Merged(df).entries[k]
    ensures Get(Merged(df).entries[k], "model") == ModelOf(df, k)
  {
    MergedShape(df, k);
    ExpectedEntityModel(df, k);
  }

  /**
   * Capacity comes only from the model: no fragment copies a capacity, so every merged
   * entity gets `cars * 300` exactly when its model passes the "N-car" test, and no
   * capacity otherwise (App.jsx:34, 50-57).
   */
  lemma FinalCapacity(df: DataFiles, k: string)
    requires k in Merged(df).entries
    ensures Get(FinalEntity(df, k), "capacity") ==
              match CarCount(ModelOf(df, k))
              case Some(cars) => Num(cars * SeatsPerCar)
              case None => Undef
  {
    MergedEntityModel(df, k);
  }

  /**
   * A train named only by secondary fragments is still created, from its id alone: it
   * has no model, hence no capacity, and its id is the first such row's id.
   */
  lemma SecondaryOnlyTrain(df: DataFiles, k: string)
    requires k !in RowKeys(TrainsOf(df)) && SourceKeyed(df, MergeOrder, k)
    ensures k in Merged(df).entries
    ensures Get(Merged(df).entries[k], "model") == Undef
    ensures Get(FinalEntity(df, k), "capacity") == Undef
    ensures Get(Merged(df).entries[k], "train_id") == Get(Creator(df, MergeOrder, k), "train_id")
  {
    MergedShape(df, k);
    MergedEntityModel(df, k);
    FinalCapacity(df, k);
    SecondaryOnlyId(df, k);
  }

  lemma SecondaryOnlyId(df: DataFiles, k: string)
    requires k !in RowKeys(TrainsOf(df)) && SourceKeyed(df, MergeOrder, k)
    ensures Get(ExpectedEntity(df, k), "train_id") == Get(Creator(df, MergeOrder, k), "train_id")
  {
    SourceWritesKeys(df, MergeOrder, k);
    SeedFieldsNotWritten("train_id");
    CreatorKeys(df, MergeOrder, k);
  }

  /**
   * `deriveTrains` returns one entity per key, in `Object.values` order; each holds a
   * truthy id whose string form is its key, so no two share an id (App.jsx:34, 36-39).
   */
  lemma DerivedIdentity(df: DataFiles)
    ensures var ts := Derived(Some(df));
      && |ts| == |Merged(df).keys|
      && (forall i :: 0 <= i < |ts| ==>
            Truthy(Get(ts[i], "train_id")) && ToText(Get(ts[i], "train_id")) == Merged(df).keys[i])
      && (forall i, j :: 0 <= i < j < |ts| ==> ToText(Get(ts[i], "train_id")) != ToText(Get(ts[j], "train_id")))
  {
    MergedWellFormed(df);
    DerivedIds(df);
  }

  /** The capacity pass leaves every id as the merge left it. */
  lemma DerivedIds(df: DataFiles)
    requires WellFormed(Merged(df))
    ensures var st, ts := Merged(df), Derived(Some(df));
      forall i :: 0 <= i < |ts| ==> Get(ts[i], "train_id") == Get(st.entries[st.keys[i]], "train_id")
  {
    var st := Merged(df);
    var ts := Derived(Some(df));
    forall i | 0 <= i < |ts|
      ensures Get(ts[i], "train_id") == Get(st.entries[st.keys[i]], "train_id")
    {
      var e := st.entries[st.keys[i]];
      assert ts[i] == WithCapacity(e);
      assert Get(WithCapacity(e), "train_id") == Get(e, "train_id");
    }
  }

  // ---------------------------------------------------------------------------
  // Rows with a falsy id are skipped (App.jsx:34, 38).

  lemma {:induction false} SeedFoldAppend(st: Store, a: seq<Row>, b: seq<Row>)
    ensures SeedFold(st, a + b) == SeedFold(SeedFold(st, a), b)
    decreases |b|
  {
    if |b| == 0 {
      assert a + b == a;
    } else {
      var ab := a + b;
      assert ab[..|ab| - 1] == a + b[..|b| - 1];
      assert ab[|ab| - 1] == b[|b| - 1];
      SeedFoldAppend(st, a, b[..|b| - 1]);
    }
  }

  lemma {:induction false} MergeFoldAppend(st: Store, src: Source, a: seq<Row>, b: seq<Row>)
    ensures MergeFold(st, src, a + b) == MergeFold(MergeFold(st, src, a), src, b)
    decreases |b|
  {
    if |b| == 0 {
      assert a + b == a;
    } else {
      var ab := a + b;
      assert ab[..|ab| - 1] == a + b[..|b| - 1];
      assert ab[|ab| - 1] == b[|b| - 1];
      MergeFoldAppend(st, src, a, b[..|b| - 1]);
    }
  }

  /** `rows` with `r` inserted before position `i`. */
  function InsertRow(rows: seq<Row>, i: nat, r: Row): (rows': seq<Row>)
    requires i <= |rows|
    ensures |rows'| == |rows| + 1 && rows'[i] == r
    ensures rows'[..i] == rows[..i] && rows'[i + 1..] == rows[i..]
  {
    rows[..i] + [r] + rows[i..]
  }

  /** The snapshot with `r` inserted before row `i` of fragment `name`. */
  function InsertInto(df: DataFiles, name: string, i: nat, r: Row): DataFiles
    requires i <= |Fragment(df, name)|
  {
    df[name := InsertRow(Fragment(df, name), i, r)]
  }

  lemma SeedSkipsFalsy(st: Store, rows: seq<Row>, i: nat, r: Row)
    requires i <= |rows| && RowKey(r).None?
    ensures SeedFold(st, InsertRow(rows, i, r)) == SeedFold(st, rows)
  {
    var a, b := rows[..i], rows[i..];
    assert InsertRow(rows, i, r) == (a + [r]) + b;
    SeedFoldAppend(st, a + [r], b);
    SeedFoldAppend(st, a, [r]);
    assert [r][..0] == [];
    SeedFoldAppend(st, a, b);
    assert a + b == rows;
  }

  lemma MergeSkipsFalsy(st: Store, src: Source, rows: seq<Row>, i: nat, r: Row)
    requires i <= |rows| && RowKey(r).None?
    ensures MergeFold(st, src, InsertRow(rows, i, r)) == MergeFold(st, src, rows)
  {
    var a, b := rows[..i], rows[i..];
    assert InsertRow(rows, i, r) == (a + [r]) + b;
    MergeFoldAppend(st, src, a + [r], b);
    MergeFoldAppend(st, src, a, [r]);
    assert [r][..0] == [];
    MergeFoldAppend(st, src, a, b);
    assert a + b == rows;
  }

  lemma {:induction false} SourcesSkipFalsy(st: Store, df: DataFiles, srcs: seq<Source>, name: string, i: nat, r: Row)
    requires i <= |Fragment(df, name)| && RowKey(r).None?
    ensures MergeSources(st, InsertInto(df, name, i, r), srcs) == MergeSources(st, df, srcs)
    decreases |srcs|
  {
    if |srcs| > 0 {
      var df' := InsertInto(df, name, i, r);
      var file := FileName(srcs[0]);
      if file == name {
        MergeSkipsFalsy(st, srcs[0], Fragment(df, name), i, r);
      } else {
        assert Fragment(df', file) == Fragment(df, file);
      }
      var st1 := MergeFold(st, srcs[0], Fragment(df, file));
      assert MergeFold(st, srcs[0], Fragment(df', file)) == st1;
      SourcesSkipFalsy(st1, df, srcs[1..], name, i, r);
    }
  }

  /**
   * A row whose `train_id` is falsy, inserted anywhere in any fragment, neither creates
   * nor changes an entity: the merge and the derived trains are exactly as without it.
   */
  lemma FalsyRowIgnored(df: DataFiles, name: string, i: nat, r: Row)
    requires i <= |Fragment(df, name)|
    requires !Truthy(Get(r, "train_id"))
    ensures Merged(InsertInto(df, name, i, r)) == Merged(df)
    ensures Derived(Some(InsertInto(df, name, i, r))) == Derived(Some(df))
  {
    var df' := InsertInto(df, name, i, r);
    if name == "trains.csv" {
      SeedSkipsFalsy(Empty, TrainsOf(df), i, r);
    } else {
      assert TrainsOf(df') == TrainsOf(df);
    }
    SourcesSkipFalsy(SeedFold(Empty, TrainsOf(df)), df, MergeOrder, name, i, r);
    DerivedFollowsMerged(df', df);
  }

  /** The derived list depends on the snapshot only through its merged store. */
  lemma DerivedFollowsMerged(df1: DataFiles, df2: DataFiles)
    requires Merged(df1) == Merged(df2)
    ensures Derived(Some(df1)) == Derived(Some(df2))
  {
    MergedWellFormed(df1);
    var a, b := Derived(Some(df1)), Derived(Some(df2));
    forall i | 0 <= i < |a| ensures a[i] == b[i] {
      assert FinalEntity(df1, Merged(df1).keys[i]) == FinalEntity(df2, Merged(df2).keys[i]);
    }
  }
}
