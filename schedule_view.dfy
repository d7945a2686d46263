/**
 * The train list the console shows (frontend_new/src/App.jsx:133-152): the optimizer's
 * schedule rows laid over the derived trains, two cleaning fields computed from each
 * train's own record, and the filter the chips of FilterToggles drive.
 */
module ScheduleView {
  import opened JsValues
  import opened FilterToggles

  /** The object key a schedule row or a train is looked up under: `String(r.train_id)`. */
  function IdKey(r: Row): string {
    ToText(Get(r, "train_id"))
  }

  /** `assignMap` after `schedule.forEach(r => { assignMap[r.train_id] = r })`. */
  function AssignMapOf(schedule: seq<Row>): map<string, Row> {
    LastByKey(schedule, IdKey)
  }

  /** Each row filed under `key(row)` in turn, a later row replacing an earlier one. */
  function LastByKey(rows: seq<Row>, key: Row -> string): map<string, Row> {
    if |rows| == 0 then map[]
    else
      var r := rows[|rows| - 1];
      LastByKey(rows[..|rows| - 1], key)[key(r) := r]
  }

  /** A key is filed exactly when some row has it, and holds the last such row. */
  lemma {:induction false} LastByKeyWins(rows: seq<Row>, key: Row -> string, k: string)
    ensures k in LastByKey(rows, key) <==> exists i :: 0 <= i < |rows| && key(rows[i]) == k
    ensures k in LastByKey(rows, key) ==>
              exists i :: 0 <= i < |rows| && LastByKey(rows, key)[k] == rows[i] && key(rows[i]) == k
                          && forall j :: i < j < |rows| ==> key(rows[j]) != k
    decreases |rows|
  {
    if |rows| > 0 {
      var n := |rows| - 1;
      var init := rows[..n];
      LastByKeyWins(init, key, k);
      assert forall j :: 0 <= j < n ==> init[j] == rows[j];
      if key(rows[n]) != k && k in LastByKey(rows, key) {
        var i :| 0 <= i < n && LastByKey(init, key)[k] == init[i] && key(init[i]) == k
                 && forall j :: i < j < n ==> key(init[j]) != k;
        assert LastByKey(rows, key)[k] == rows[i];
      }
    }
  }

  /** The loop that fills `assignMap` (App.jsx:136-137). */
  method BuildAssignMap(schedule: seq<Row>) returns (assignMap: map<string, Row>)
    ensures assignMap == AssignMapOf(schedule)
  {
    assignMap := map[];
    var i := 0;
    while i < |schedule|
      invariant 0 <= i <= |schedule|
      invariant assignMap == AssignMapOf(schedule[..i])
    {
      assert schedule[..i + 1][..i] == schedule[..i];
      assignMap := assignMap[IdKey(schedule[i]) := schedule[i]];
      i := i + 1;
    }
    assert schedule[..i] == schedule;
  }

  /**
   * The schedule row a train id finds is the LAST row with that id, and an id finds one
   * exactly when some row carries it.
   */
  lemma AssignMapLastWins(schedule: seq<Row>, k: string)
    ensures k in AssignMapOf(schedule) <==> exists i :: 0 <= i < |schedule| && IdKey(schedule[i]) == k
    ensures k in AssignMapOf(schedule) ==>
              exists i :: 0 <= i < |schedule| && AssignMapOf(schedule)[k] == schedule[i] && IdKey(schedule[i]) == k
                          && forall j :: i < j < |schedule| ==> IdKey(schedule[j]) != k
  {
    LastByKeyWins(schedule, IdKey, k);
  }

  /** The cleaning threshold in days, fixed in the console. */
  const CleaningDueDays: int := 7

  /** `t.last_cleaned_days == null || Number(t.last_cleaned_days) >= 7`. */
  predicate CleaningDue(t: Row) {
    var d := Get(t, "last_cleaned_days");
    IsNullish(d) || (ToNumber(d).Some? && ToNumber(d).value >= CleaningDueDays)
  }

  /**
   * One row of the overlay (App.jsx:138): the train, then the fields of its schedule row,
   * then the two cleaning fields, which are always computed from the train itself.
   */
  function Decorate(t: Row, assignMap: map<string, Row>): Row {
    var assign := if IdKey(t) in assignMap then assignMap[IdKey(t)] else map[];
    (t + assign)["cleaning_due" := Num(if CleaningDue(t) then 1 else 0)]
                ["has_cleaning_record" := Bool(!IsNullish(Get(t, "last_cleaned_days")))]
  }

  /** The `trains` memo: nothing without base trains, else one decorated row per train. */
  function Overlay(base: seq<Row>, schedule: seq<Row>): (trains: seq<Row>)
    ensures |trains| == |base|
  {
    if |base| == 0 then []
    else
      var assignMap := AssignMapOf(schedule);
      seq(|base|, i requires 0 <= i < |base| => Decorate(base[i], assignMap))
  }

  /** The `trains` memo as the source computes it (App.jsx:134-139). */
  method OverlayTrains(base: seq<Row>, schedule: seq<Row>) returns (trains: seq<Row>)
    ensures trains == Overlay(base, schedule)
  {
    if |base| == 0 {
      return [];
    }
    var assignMap := BuildAssignMap(schedule);
    trains := seq(|base|, i requires 0 <= i < |base| => Decorate(base[i], assignMap));
  }

  predicate DerivedField(f: string) {
    f == "cleaning_due" || f == "has_cleaning_record"
  }

  /**
   * Row `i` of the overlay is base train `i`: each field other than the two cleaning
   * fields is the matching schedule row's when that row has it, the train's otherwise;
   * `cleaning_due` is 1 iff the train's `last_cleaned_days` is null or at least 7 and 0
   * otherwise; `has_cleaning_record` says whether that value is non-null.
   */
  lemma OverlayRow(base: seq<Row>, schedule: seq<Row>, i: nat, f: string)
    requires i < |base|
    ensures var r := Overlay(base, schedule)[i];
      var am := AssignMapOf(schedule);
      var k := IdKey(base[i]);
      && (!DerivedField(f) ==>
            Get(r, f) == (if k in am && f in am[k] then am[k][f] else Get(base[i], f)))
      && (Get(r, "cleaning_due") == Num(1) <==> CleaningDue(base[i]))
      && (Get(r, "cleaning_due") == Num(1) || Get(r, "cleaning_due") == Num(0))
      && Get(r, "has_cleaning_record") == Bool(!IsNullish(Get(base[i], "last_cleaned_days")))
  {
  }

  /**
   * Schedule fields override: a field the LAST schedule row for a train's id carries
   * shows on that train, unless it is one of the two cleaning fields.
   */
  lemma ScheduleOverrides(base: seq<Row>, schedule: seq<Row>, i: nat, j: nat, f: string)
    requires i < |base| && j < |schedule|
    requires IdKey(schedule[j]) == IdKey(base[i])
    requires forall l :: j < l < |schedule| ==> IdKey(schedule[l]) != IdKey(base[i])
    requires f in schedule[j] && !DerivedField(f)
    ensures Get(Overlay(base, schedule)[i], f) == schedule[j][f]
  {
    var k := IdKey(base[i]);
    AssignMapLastWins(schedule, k);
    var m :| 0 <= m < |schedule| && AssignMapOf(schedule)[k] == schedule[m] && IdKey(schedule[m]) == k
             && forall l :: m < l < |schedule| ==> IdKey(schedule[l]) != k;
    assert m == j;
    OverlayRow(base, schedule, i, f);
  }

  /** With no schedule, the overlay only adds the two cleaning fields to each train. */
  lemma OverlayWithoutSchedule(base: seq<Row>, i: nat)
    requires i < |base|
    ensures Overlay(base, [])[i] ==
              base[i]["cleaning_due" := Num(if CleaningDue(base[i]) then 1 else 0)]
                     ["has_cleaning_record" := Bool(!IsNullish(Get(base[i], "last_cleaned_days")))]
  {
    assert base[i] + map[] == base[i];
  }

  // ---------------------------------------------------------------------------
  // The schedule filter (App.jsx:141-152).

  /** `statusKeys.filter(k => filters[k])`, in StatusKeys order. */
  function OnKeys(keys: seq<string>, f: Filters): (active: seq<string>)
    ensures |active| <= |keys|
    ensures forall x :: x in active <==> x in keys && On(f, x)
    ensures |active| == 0 <==> forall x :: x in keys ==> !On(f, x)
  {
    if |keys| == 0 then []
    else (if On(f, keys[0]) then [keys[0]] else []) + OnKeys(keys[1..], f)
  }

  /** The filter's test for one train, in the source's order of early returns. */
  predicate Passes(t: Row, f: Filters) {
    var active := OnKeys(StatusKeys, f);
    var status := Get(t, "assigned");
    if |active| > 0 && Truthy(status) && !(status.Str? && status.s in active) then false
    else if On(f, "cleaning_due") && !Truthy(Get(t, "cleaning_due")) then false
    else if On(f, "jobcard_open") && !Truthy(Get(t, "jobcard_open")) then false
    else if On(f, "branding_priority") && !Truthy(Get(t, "branding_priority")) then false
    else true
  }

  /**
   * A train passes iff (no status is on, or it has no assignment yet, or its assignment
   * is one of the statuses on) and every attribute that is on holds on the train.
   */
  lemma PassesIff(t: Row, f: Filters)
    ensures Passes(t, f) <==>
      && ((forall s :: s in StatusKeys ==> !On(f, s))
          || !Truthy(Get(t, "assigned"))
          || (exists s :: s in StatusKeys && On(f, s) && Get(t, "assigned") == Str(s)))
      && (forall a :: a in AttrKeys && On(f, a) ==> Truthy(Get(t, a)))
  {
    var active := OnKeys(StatusKeys, f);
    if |active| > 0 {
      assert active[0] in StatusKeys && On(f, active[0]);
    }
    var status := Get(t, "assigned");
    if status.Str? && status.s in StatusKeys && On(f, status.s) {
      assert status.s in active;
    }
  }

  /** `trains.filter(...)`: the trains that pass, in their order. */
  function FilterTrains(ts: seq<Row>, f: Filters): (r: seq<Row>)
    ensures |r| <= |ts|
  {
    FilterBy(ts, t => Passes(t, f))
  }

  /** `xs.filter(keep)`, element by element from the front. */
  function FilterBy(xs: seq<Row>, keep: Row -> bool): (r: seq<Row>)
    ensures |r| <= |xs|
  {
    if |xs| == 0 then []
    else FilterBy(xs[..|xs| - 1], keep) + (if keep(xs[|xs| - 1]) then [xs[|xs| - 1]] else [])
  }

  lemma {:induction false} FilterByMembers(xs: seq<Row>, keep: Row -> bool)
    ensures forall x :: x in FilterBy(xs, keep) <==> x in xs && keep(x)
    decreases |xs|
  {
    if |xs| > 0 {
      var init := xs[..|xs| - 1];
      FilterByMembers(init, keep);
      assert forall x :: x in xs <==> x in init || x == xs[|xs| - 1];
    }
  }

  lemma {:induction false} FilterByAppend(a: seq<Row>, b: seq<Row>, keep: Row -> bool)
    ensures FilterBy(a + b, keep) == FilterBy(a, keep) + FilterBy(b, keep)
    decreases |b|
  {
    if |b| == 0 {
      assert a + b == a;
    } else {
      var ab, b' := a + b, b[..|b| - 1];
      assert ab[..|ab| - 1] == a + b';
      assert ab[|ab| - 1] == b[|b| - 1];
      FilterByAppend(a, b', keep);
    }
  }

  lemma {:induction false} FilterByAll(xs: seq<Row>, keep: Row -> bool)
    requires forall x :: x in xs ==> keep(x)
    ensures FilterBy(xs, keep) == xs
    decreases |xs|
  {
    if |xs| > 0 {
      var init := xs[..|xs| - 1];
      assert forall x :: x in init ==> x in xs;
      FilterByAll(init, keep);
      assert init + [xs[|xs| - 1]] == xs;
    }
  }

  /** The filter keeps exactly the trains that pass. */
  lemma FilterMembers(ts: seq<Row>, f: Filters)
    ensures forall x :: x in FilterTrains(ts, f) <==> x in ts && Passes(x, f)
  {
    FilterByMembers(ts, t => Passes(t, f));
  }

  /** The filter keeps order: filtering a concatenation concatenates the filtered parts. */
  lemma FilterAppend(a: seq<Row>, b: seq<Row>, f: Filters)
    ensures FilterTrains(a + b, f) == FilterTrains(a, f) + FilterTrains(b, f)
  {
    FilterByAppend(a, b, t => Passes(t, f));
  }

  /** With none of the seven chips on ("All"), every train passes. */
  lemma AllPassWhenNoneOn(ts: seq<Row>, f: Filters)
    requires !AnyActive(f)
    ensures FilterTrains(ts, f) == ts
  {
    forall s | s in AllKeys ensures !On(f, s) {
      var i :| 0 <= i < |AllKeys| && AllKeys[i] == s;
    }
    assert forall s :: s in StatusKeys ==> s in AllKeys;
    assert |OnKeys(StatusKeys, f)| == 0;
    assert !On(f, "cleaning_due") && !On(f, "jobcard_open") && !On(f, "branding_priority");
    assert forall t :: Passes(t, f);
    FilterByAll(ts, t => Passes(t, f));
  }
}
