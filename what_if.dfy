/**
 * The what-if comparison (frontend_new/src/App.jsx:211-229 and the note at 436): a
 * one-line count of a schedule's assignments, the list of trains whose assignment differs
 * between a baseline and a scenario schedule, sorted by train id, and the note shown
 * beside each change.
 */
module WhatIf {
  import opened JsValues

  /** One row of an optimizer schedule, reduced to the two fields the comparison reads. */
  datatype Assignment = Assignment(trainId: string, status: Value)

  /** `a === b`: the same value, except that NaN is not equal to itself. */
  predicate StrictEq(a: Value, b: Value) {
    a == b && !a.NaN?
  }

  // ---------------------------------------------------------------------------
  // The per-status summary (App.jsx:211-216).

  /** The counts object: its keys in insertion order and the count under each. */
  datatype Counter = Counter(keys: seq<string>, counts: map<string, nat>)

  /** The counts after `list.forEach(r => { counts[key(r.status)] = (counts[...]||0)+1 })`. */
  function CountsOf(list: seq<Assignment>, key: Value -> string): Counter {
    if |list| == 0 then Counter([], map[])
    else
      var c := CountsOf(list[..|list| - 1], key);
      var k := key(list[|list| - 1].status);
      if k in c.counts then Counter(c.keys, c.counts[k := c.counts[k] + 1])
      else Counter(c.keys + [k], c.counts[k := 1])
  }

  /** The counting loop. */
  method CountAssignments(list: seq<Assignment>, key: Value -> string) returns (c: Counter)
    ensures c == CountsOf(list, key)
  {
    c := Counter([], map[]);
    var i := 0;
    while i < |list|
      invariant 0 <= i <= |list|
      invariant c == CountsOf(list[..i], key)
    {
      assert list[..i + 1][..i] == list[..i];
      var k := key(list[i].status);
      if k in c.counts {
        c := Counter(c.keys, c.counts[k := c.counts[k] + 1]);
      } else {
        c := Counter(c.keys + [k], c.counts[k := 1]);
      }
      i := i + 1;
    }
    assert list[..i] == list;
  }

  /** How many rows of `list` fall under key `k`. */
  function Occurrences(list: seq<Assignment>, key: Value -> string, k: string): nat {
    if |list| == 0 then 0
    else Occurrences(list[..|list| - 1], key, k) + (if key(list[|list| - 1].status) == k then 1 else 0)
  }

  lemma {:induction false} OccurrencesPositive(list: seq<Assignment>, key: Value -> string, k: string)
    ensures Occurrences(list, key, k) > 0 <==> exists i :: 0 <= i < |list| && key(list[i].status) == k
    decreases |list|
  {
    if |list| > 0 {
      var init := list[..|list| - 1];
      OccurrencesPositive(init, key, k);
      assert forall i :: 0 <= i < |init| ==> init[i] == list[i];
    }
  }

  /** The counts object lists each key once, in order of first appearance. */
  lemma {:induction false} CounterKeys(list: seq<Assignment>, key: Value -> string)
    ensures forall p, q :: 0 <= p < q < |CountsOf(list, key).keys| ==>
              CountsOf(list, key).keys[p] != CountsOf(list, key).keys[q]
    ensures forall k :: k in CountsOf(list, key).counts <==> k in CountsOf(list, key).keys
    decreases |list|
  {
    if |list| > 0 {
      var init := list[..|list| - 1];
      var c0 := CountsOf(init, key);
      var last := key(list[|list| - 1].status);
      CounterKeys(init, key);
      if last !in c0.counts {
        var ks := c0.keys + [last];
        assert forall j :: j in ks <==> j in c0.keys || j == last;
        forall p | 0 <= p < |c0.keys| ensures ks[p] == c0.keys[p] && ks[p] != last {
          assert c0.keys[p] in c0.keys;
        }
      }
    }
  }

  /** A key is present exactly when some row falls under it, and counts those rows. */
  lemma {:induction false} CounterCounts(list: seq<Assignment>, key: Value -> string, k: string)
    ensures k in CountsOf(list, key).counts <==> Occurrences(list, key, k) > 0
    ensures k in CountsOf(list, key).counts ==> CountsOf(list, key).counts[k] == Occurrences(list, key, k)
    decreases |list|
  {
    if |list| > 0 {
      CounterCounts(list[..|list| - 1], key, k);
    }
  }

  /** The sum of the counts under `keys`. */
  function SumOver(keys: seq<string>, counts: map<string, nat>): nat {
    if |keys| == 0 then 0
    else
      var k := keys[|keys| - 1];
      SumOver(keys[..|keys| - 1], counts) + (if k in counts then counts[k] else 0)
  }

  lemma {:induction false} SumOverOther(keys: seq<string>, counts: map<string, nat>, k: string, v: nat)
    requires k !in keys
    ensures SumOver(keys, counts[k := v]) == SumOver(keys, counts)
    decreases |keys|
  {
    if |keys| > 0 {
      SumOverOther(keys[..|keys| - 1], counts, k, v);
    }
  }

  /** Counting a key not seen before adds one to the sum. */
  lemma SumOverNew(keys: seq<string>, counts: map<string, nat>, k: string)
    requires k !in keys
    ensures SumOver(keys + [k], counts[k := 1]) == SumOver(keys, counts) + 1
  {
    SumOverOther(keys, counts, k, 1);
    assert (keys + [k])[..|keys|] == keys;
  }

  lemma {:induction false} SumOverBump(keys: seq<string>, counts: map<string, nat>, k: string)
    requires k in counts
    requires forall p, q :: 0 <= p < q < |keys| ==> keys[p] != keys[q]
    requires k in keys
    ensures SumOver(keys, counts[k := counts[k] + 1]) == SumOver(keys, counts) + 1
    decreases |keys|
  {
    var n := |keys| - 1;
    var init := keys[..n];
    if keys[n] == k {
      assert forall p :: 0 <= p < n ==> init[p] == keys[p];
      SumOverOther(init, counts, k, counts[k] + 1);
    } else {
      assert k in init by {
        var p :| 0 <= p < |keys| && keys[p] == k;
        assert init[p] == k;
      }
      SumOverBump(init, counts, k);
    }
  }

  /** Every row is counted exactly once: the counts add up to the length of the list. */
  lemma {:induction false} CountsSumToLength(list: seq<Assignment>, key: Value -> string)
    ensures SumOver(CountsOf(list, key).keys, CountsOf(list, key).counts) == |list|
    decreases |list|
  {
    if |list| > 0 {
      var init := list[..|list| - 1];
      var c := CountsOf(init, key);
      var k := key(list[|list| - 1].status);
      CountsSumToLength(init, key);
      CounterKeys(init, key);
      if k in c.counts {
        SumOverBump(c.keys, c.counts, k);
      } else {
        SumOverNew(c.keys, c.counts, k);
      }
    }
  }

  /** One entry of the summary: `${k||'unknown'}: ${v}`. */
  function Entry(k: string, v: nat): string {
    (if k == "" then "unknown" else k) + ": " + NatToDecimal(v)
  }

  function Entries(c: Counter): seq<string> {
    seq(|c.keys|, i requires 0 <= i < |c.keys| =>
      Entry(c.keys[i], if c.keys[i] in c.counts then c.counts[c.keys[i]] else 0))
  }

  /** The summary text when the rows are counted under `key`: a dash for no rows. */
  function SummaryText(list: seq<Assignment>, key: Value -> string): string {
    if |list| == 0 then "—" else Join(Entries(CountsOf(list, key)), "  ·  ")
  }

  /** `scheduleSummary(list)`: the count loop, then the entries joined. */
  method Summarize(list: seq<Assignment>, key: Value -> string) returns (s: string)
    ensures s == SummaryText(list, key)
    ensures |list| == 0 ==> s == "—"
  {
    if |list| == 0 {
      return "—";
    }
    var c := CountAssignments(list, key);
    s := Join(Entries(c), "  ·  ");
  }

  /** The key the source counts a row under: the object key `String(r.status)`. */
  function KeyAsWritten(v: Value): string {
    ToText(v)
  }

  /**
   * The key the `k||'unknown'` fallback evidently means: a row with no (or a falsy)
   * assignment counts as unknown.
   */
  function KeyIntended(v: Value): string {
    if Truthy(v) then ToText(v) else ""
  }

  /** `scheduleSummary` as written. */
  function ScheduleSummaryAsWritten(list: seq<Assignment>): string {
    SummaryText(list, KeyAsWritten)
  }

  /** `scheduleSummary` with the fallback label applied as intended. */
  function ScheduleSummary(list: seq<Assignment>): string {
    SummaryText(list, KeyIntended)
  }

  lemma ToTextEmpty(v: Value)
    ensures ToText(v) == "" <==> v == Str("")
  {
  }

  /**
   * As written, the "unknown" entry appears only for a row whose assignment is the empty
   * string: a row with no assignment is counted under "undefined" (or "null"), and the
   * single-row schedule whose train has no assignment is summarised as "undefined: 1".
   */
  lemma SummaryAsWrittenMissesUnassigned(list: seq<Assignment>)
    ensures "" in CountsOf(list, KeyAsWritten).counts <==>
              exists i :: 0 <= i < |list| && list[i].status == Str("")
    ensures ScheduleSummaryAsWritten([Assignment("T1", Undef)]) == "undefined: 1"
  {
    CounterCounts(list, KeyAsWritten, "");
    OccurrencesPositive(list, KeyAsWritten, "");
    forall i | 0 <= i < |list| ensures KeyAsWritten(list[i].status) == "" <==> list[i].status == Str("") {
      ToTextEmpty(list[i].status);
    }
    UnassignedReadsUndefined();
  }

  lemma UnassignedReadsUndefined()
    ensures ScheduleSummaryAsWritten([Assignment("T1", Undef)]) == "undefined: 1"
  {
    var one := [Assignment("T1", Undef)];
    assert one[..0] == [];
    assert CountsOf(one, KeyAsWritten) == Counter(["undefined"], map["undefined" := 1]);
    assert NatToDecimal(1) == "1";
  }

  /**
   * With the intended key, the "unknown" entry appears exactly when some row has a falsy
   * assignment, and it counts those rows; the same single-row schedule reads "unknown: 1".
   */
  lemma SummaryCountsUnassignedAsUnknown(list: seq<Assignment>)
    ensures "" in CountsOf(list, KeyIntended).counts <==>
              exists i :: 0 <= i < |list| && !Truthy(list[i].status)
    ensures "" in CountsOf(list, KeyIntended).counts ==>
              CountsOf(list, KeyIntended).counts[""] == Occurrences(list, KeyIntended, "")
    ensures ScheduleSummary([Assignment("T1", Undef)]) == "unknown: 1"
  {
    CounterCounts(list, KeyIntended, "");
    OccurrencesPositive(list, KeyIntended, "");
    forall i | 0 <= i < |list| ensures KeyIntended(list[i].status) == "" <==> !Truthy(list[i].status) {
      ToTextEmpty(list[i].status);
    }
    UnassignedReadsUnknown();
  }

  lemma UnassignedReadsUnknown()
    ensures ScheduleSummary([Assignment("T1", Undef)]) == "unknown: 1"
  {
    var one := [Assignment("T1", Undef)];
    assert one[..0] == [];
    assert CountsOf(one, KeyIntended) == Counter([""], map["" := 1]);
    assert NatToDecimal(1) == "1";
  }

  // ---------------------------------------------------------------------------
  // The change list (App.jsx:218-229).

  /** `new Map(list.map(r => [r.train_id, r.status]))`: the last row for an id wins. */
  function AssignOf(list: seq<Assignment>): map<string, Value> {
    if |list| == 0 then map[]
    else AssignOf(list[..|list| - 1])[list[|list| - 1].trainId := list[|list| - 1].status]
  }

  /** The Map's keys in iteration order: each id where it first appears. */
  function IdsOf(list: seq<Assignment>): seq<string> {
    if |list| == 0 then []
    else
      var ids := IdsOf(list[..|list| - 1]);
      if list[|list| - 1].trainId in ids then ids else ids + [list[|list| - 1].trainId]
  }

  /** The Map's keys are distinct and are exactly the ids in its domain. */
  lemma {:induction false} IdsOfShape(list: seq<Assignment>)
    ensures forall p, q :: 0 <= p < q < |IdsOf(list)| ==> IdsOf(list)[p] != IdsOf(list)[q]
    ensures forall k :: k in IdsOf(list) <==> k in AssignOf(list)
    decreases |list|
  {
    if |list| > 0 {
      IdsOfShape(list[..|list| - 1]);
    }
  }

  /** An id is a key exactly when some row carries it, and its value is the last such row's. */
  lemma {:induction false} AssignOfLastWins(list: seq<Assignment>, k: string)
    ensures k in AssignOf(list) <==> exists i :: 0 <= i < |list| && list[i].trainId == k
    ensures k in AssignOf(list) ==>
              exists i :: 0 <= i < |list| && list[i].trainId == k && AssignOf(list)[k] == list[i].status
                          && forall j :: i < j < |list| ==> list[j].trainId != k
    decreases |list|
  {
    if |list| > 0 {
      var n := |list| - 1;
      var init := list[..n];
      AssignOfLastWins(init, k);
      assert forall j :: 0 <= j < n ==> init[j] == list[j];
      if list[n].trainId != k && k in AssignOf(list) {
        var i :| 0 <= i < n && init[i].trainId == k && AssignOf(init)[k] == init[i].status
                 && forall j :: i < j < n ==> init[j].trainId != k;
        assert list[i].trainId == k;
      }
    }
  }

  /** The Map building loop: ids in first-appearance order and the last assignment of each. */
  method BuildMap(list: seq<Assignment>) returns (ids: seq<string>, m: map<string, Value>)
    ensures ids == IdsOf(list) && m == AssignOf(list)
  {
    ids, m := [], map[];
    var i := 0;
    while i < |list|
      invariant 0 <= i <= |list|
      invariant ids == IdsOf(list[..i]) && m == AssignOf(list[..i])
    {
      assert list[..i + 1][..i] == list[..i];
      if list[i].trainId !in m {
        IdsOfShape(list[..i]);
        ids := ids + [list[i].trainId];
      } else {
        IdsOfShape(list[..i]);
      }
      m := m[list[i].trainId := list[i].status];
      i := i + 1;
    }
    assert list[..i] == list;
  }

  /** One row of the change list. */
  datatype Change = Change(trainId: string, baseline: Value, scenario: Value)

  /** `baseMap.get(train)`: undefined for an id the baseline does not list. */
  function Lookup(m: map<string, Value>, k: string): Value {
    if k in m then m[k] else Undef
  }

  /**
   * A row the comparison reports: both schedules are non-empty, the train is in the
   * scenario with that (last) assignment, the baseline's (last) assignment for it, or
   * undefined, is the other side, and the two are not strictly equal.
   */
  predicate IsChange(base: seq<Assignment>, scen: seq<Assignment>, c: Change) {
    && |base| > 0 && |scen| > 0
    && c.trainId in AssignOf(scen)
    && c.scenario == AssignOf(scen)[c.trainId]
    && c.baseline == Lookup(AssignOf(base), c.trainId)
    && !StrictEq(c.baseline, c.scenario)
  }

  /** `a.localeCompare(b) < 0`, as code-unit lexicographic order. */
  predicate Less(a: string, b: string)
    decreases |a|
  {
    |b| > 0 && (|a| == 0 || a[0] < b[0] || (a[0] == b[0] && Less(a[1..], b[1..])))
  }

  lemma {:induction false} LessIrreflexive(a: string)
    ensures !Less(a, a)
    decreases |a|
  {
    if |a| > 0 {
      LessIrreflexive(a[1..]);
    }
  }

  lemma {:induction false} LessTransitive(a: string, b: string, c: string)
    requires Less(a, b) && Less(b, c)
    ensures Less(a, c)
    decreases |a|
  {
    if |a| > 0 && a[0] == b[0] && b[0] == c[0] {
      LessTransitive(a[1..], b[1..], c[1..]);
    }
  }

  /** Two different ids are ordered one way or the other. */
  lemma {:induction false} LessTotal(a: string, b: string)
    requires a != b
    ensures Less(a, b) || Less(b, a)
    decreases |a|
  {
    if |a| > 0 && |b| > 0 && a[0] == b[0] {
      assert a == [a[0]] + a[1..] && b == [b[0]] + b[1..];
      LessTotal(a[1..], b[1..]);
    }
  }

  /** Strictly ascending by train id. */
  predicate Sorted(cs: seq<Change>) {
    forall i, j :: 0 <= i < j < |cs| ==> Less(cs[i].trainId, cs[j].trainId)
  }

  /** `c` placed before the first row with a greater id. */
  function Insert(sorted: seq<Change>, c: Change): (r: seq<Change>)
    ensures multiset(r) == multiset(sorted) + multiset{c}
    ensures |r| == |sorted| + 1
  {
    if |sorted| == 0 then [c]
    else if Less(c.trainId, sorted[0].trainId) then [c] + sorted
    else
      assert sorted == [sorted[0]] + sorted[1..];
      [sorted[0]] + Insert(sorted[1..], c)
  }

  lemma {:induction false} InsertSorted(sorted: seq<Change>, c: Change)
    requires Sorted(sorted)
    requires forall x :: x in sorted ==> x.trainId != c.trainId
    ensures Sorted(Insert(sorted, c))
    decreases |sorted|
  {
    if |sorted| > 0 && !Less(c.trainId, sorted[0].trainId) {
      var tail := sorted[1..];
      assert forall x :: x in tail ==> x in sorted;
      InsertSorted(tail, c);
      LessTotal(c.trainId, sorted[0].trainId);
      InsertAfterHead(sorted, c);
    } else if |sorted| > 0 {
      InsertAtHead(sorted, c);
    }
  }

  /** Placing `c` after a head it follows keeps the list sorted, given the tail stays sorted. */
  lemma InsertAfterHead(sorted: seq<Change>, c: Change)
    requires Sorted(sorted) && |sorted| > 0
    requires Less(sorted[0].trainId, c.trainId)
    requires Sorted(Insert(sorted[1..], c))
    requires !Less(c.trainId, sorted[0].trainId)
    ensures Sorted(Insert(sorted, c))
  {
    var tail := sorted[1..];
    var r := Insert(sorted, c);
    assert r == [sorted[0]] + Insert(tail, c);
    forall j | 0 < j < |r| ensures Less(r[0].trainId, r[j].trainId) {
      assert r[j] in multiset(tail) + multiset{c};
      if r[j] != c {
        assert r[j] in tail;
        var p :| 0 <= p < |tail| && tail[p] == r[j];
        assert sorted[p + 1] == r[j];
      }
    }
  }

  /** Placing `c` before a head it precedes keeps the list sorted. */
  lemma InsertAtHead(sorted: seq<Change>, c: Change)
    requires Sorted(sorted) && |sorted| > 0
    requires Less(c.trainId, sorted[0].trainId)
    ensures Sorted(Insert(sorted, c))
  {
    var r := Insert(sorted, c);
    assert r == [c] + sorted;
    forall i, j | 0 <= i < j < |r| ensures Less(r[i].trainId, r[j].trainId) {
      if i == 0 && j > 1 {
        LessTransitive(c.trainId, sorted[0].trainId, sorted[j - 1].trainId);
      }
    }
  }

  /** A row not yet inserted has an id no inserted row has. */
  lemma FreshId(rows: seq<Change>, i: nat, sorted: seq<Change>)
    requires i < |rows|
    requires forall p, q :: 0 <= p < q < |rows| ==> rows[p].trainId != rows[q].trainId
    requires multiset(sorted) == multiset(rows[..i])
    ensures forall x :: x in sorted ==> x.trainId != rows[i].trainId
  {
    forall x | x in sorted ensures x.trainId != rows[i].trainId {
      assert x in multiset(rows[..i]);
      var p :| 0 <= p < i && rows[..i][p] == x;
    }
  }

  /** `rows.sort((a, b) => a.train_id.localeCompare(b.train_id))` on rows with distinct ids. */
  method SortById(rows: seq<Change>) returns (sorted: seq<Change>)
    requires forall p, q :: 0 <= p < q < |rows| ==> rows[p].trainId != rows[q].trainId
    ensures Sorted(sorted)
    ensures multiset(sorted) == multiset(rows)
  {
    sorted := [];
    var i := 0;
    while i < |rows|
      invariant 0 <= i <= |rows|
      invariant Sorted(sorted)
      invariant multiset(sorted) == multiset(rows[..i])
    {
      FreshId(rows, i, sorted);
      InsertSorted(sorted, rows[i]);
      assert rows[..i + 1] == rows[..i] + [rows[i]];
      sorted := Insert(sorted, rows[i]);
      i := i + 1;
    }
    assert rows[..i] == rows;
  }

  /**
   * `whatIfChanges`: nothing when either schedule is empty; otherwise exactly the changed
   * trains, once each, ascending by train id.
   */
  method WhatIfChanges(base: seq<Assignment>, scen: seq<Assignment>) returns (rows: seq<Change>)
    ensures |base| == 0 || |scen| == 0 ==> rows == []
    ensures Sorted(rows)
    ensures forall c :: c in rows <==> IsChange(base, scen, c)
  {
    if |base| == 0 || |scen| == 0 {
      return [];
    }
    var _, baseMap := BuildMap(base);
    var scenIds, scenMap := BuildMap(scen);
    IdsOfShape(scen);
    var pushed := CollectChanges(baseMap, scenIds, scenMap);
    PushedAreChanges(base, scen);
    rows := SortById(pushed);
    assert forall c :: c in rows <==> c in multiset(pushed);
  }

  /** The rows the `scenMap.forEach` loop pushes for the ids `ids`, in their order. */
  function Pushed(ids: seq<string>, baseMap: map<string, Value>, scenMap: map<string, Value>): seq<Change>
    requires forall k :: k in ids ==> k in scenMap
  {
    if |ids| == 0 then []
    else
      var train := ids[|ids| - 1];
      var b, assign := Lookup(baseMap, train), scenMap[train];
      Pushed(ids[..|ids| - 1], baseMap, scenMap) + (if !StrictEq(b, assign) then [Change(train, b, assign)] else [])
  }

  /** A row is pushed exactly for a listed id whose two statuses differ, and carries those statuses. */
  lemma {:induction false} PushedMembers(ids: seq<string>, baseMap: map<string, Value>, scenMap: map<string, Value>, c: Change)
    requires forall k :: k in ids ==> k in scenMap
    ensures c in Pushed(ids, baseMap, scenMap) <==>
              c.trainId in ids && c.baseline == Lookup(baseMap, c.trainId) && c.scenario == scenMap[c.trainId]
              && !StrictEq(c.baseline, c.scenario)
    decreases |ids|
  {
    if |ids| > 0 {
      var init := ids[..|ids| - 1];
      assert forall k :: k in ids <==> k in init || k == ids[|ids| - 1];
      PushedMembers(init, baseMap, scenMap, c);
    }
  }

  /** No two rows of `cs` are for the same train. */
  predicate DistinctIds(cs: seq<Change>) {
    forall p, q :: 0 <= p < q < |cs| ==> cs[p].trainId != cs[q].trainId
  }

  /** Distinct ids push rows with distinct ids. */
  lemma {:induction false} PushedDistinct(ids: seq<string>, baseMap: map<string, Value>, scenMap: map<string, Value>)
    requires forall k :: k in ids ==> k in scenMap
    requires forall p, q :: 0 <= p < q < |ids| ==> ids[p] != ids[q]
    ensures DistinctIds(Pushed(ids, baseMap, scenMap))
    decreases |ids|
  {
    if |ids| > 0 {
      var n := |ids| - 1;
      var init := ids[..n];
      assert forall p, q :: 0 <= p < q < |init| ==> init[p] != init[q] by {
        assert forall p :: 0 <= p < |init| ==> init[p] == ids[p];
      }
      assert forall k :: k in init ==> k in ids;
      PushedDistinct(init, baseMap, scenMap);
      var front := Pushed(init, baseMap, scenMap);
      forall p | 0 <= p < |front| ensures front[p].trainId != ids[n] {
        assert front[p] in front;
        PushedMembers(init, baseMap, scenMap, front[p]);
        var q :| 0 <= q < |init| && init[q] == front[p].trainId;
        assert ids[q] == init[q];
      }
      var pushed := Pushed(ids, baseMap, scenMap);
      var b, assign := Lookup(baseMap, ids[n]), scenMap[ids[n]];
      assert pushed == front + (if !StrictEq(b, assign) then [Change(ids[n], b, assign)] else []);
      forall p, q | 0 <= p < q < |pushed| ensures pushed[p].trainId != pushed[q].trainId {
        assert pushed[p] == front[p];
        if q < |front| {
          assert pushed[q] == front[q];
        } else {
          assert pushed[q].trainId == ids[n];
        }
      }
    }
  }

  /** The `scenMap.forEach` loop: one row for each scenario train whose assignment differs. */
  method CollectChanges(baseMap: map<string, Value>, scenIds: seq<string>, scenMap: map<string, Value>)
    returns (pushed: seq<Change>)
    requires forall k :: k in scenIds ==> k in scenMap
    ensures pushed == Pushed(scenIds, baseMap, scenMap)
  {
    pushed := [];
    var i := 0;
    while i < |scenIds|
      invariant 0 <= i <= |scenIds|
      invariant pushed == Pushed(scenIds[..i], baseMap, scenMap)
    {
      var train := scenIds[i];
      var assign := scenMap[train];
      var b := if train in baseMap then baseMap[train] else Undef;
      assert scenIds[..i + 1][..i] == scenIds[..i];
      if b != assign || b.NaN? {
        pushed := pushed + [Change(train, b, assign)];
      }
      i := i + 1;
    }
    assert scenIds[..i] == scenIds;
  }

  /** Folding over every scenario id yields exactly the changes, each train once. */
  lemma PushedAreChanges(base: seq<Assignment>, scen: seq<Assignment>)
    requires |base| > 0 && |scen| > 0
    requires forall k :: k in IdsOf(scen) ==> k in AssignOf(scen)
    ensures var pushed := Pushed(IdsOf(scen), AssignOf(base), AssignOf(scen));
      && (forall c :: c in pushed <==> IsChange(base, scen, c))
      && (forall p, q :: 0 <= p < q < |pushed| ==> pushed[p].trainId != pushed[q].trainId)
  {
    var ids, baseMap, scenMap := IdsOf(scen), AssignOf(base), AssignOf(scen);
    IdsOfShape(scen);
    PushedDistinct(ids, baseMap, scenMap);
    forall c ensures c in Pushed(ids, baseMap, scenMap) <==> IsChange(base, scen, c) {
      PushedMembers(ids, baseMap, scenMap, c);
    }
  }

  /** The change list is determined: two sorted lists with the same rows are the same list. */
  lemma {:induction false} SortedUnique(a: seq<Change>, b: seq<Change>)
    requires Sorted(a) && Sorted(b)
    requires forall c :: c in a <==> c in b
    ensures a == b
    decreases |a|
  {
    if |a| > 0 {
      assert a[0] in a;
    }
    if |b| > 0 {
      assert b[0] in b;
    }
    if |a| > 0 && |b| > 0 {
      assert a[0] == b[0] by {
        if a[0] != b[0] {
          assert b[0] in a;
          assert a[0] in b;
          var p :| 0 <= p < |a| && a[p] == b[0];
          var q :| 0 <= q < |b| && b[q] == a[0];
          assert p > 0 && q > 0;
          LessTransitive(a[0].trainId, b[0].trainId, a[0].trainId);
          LessIrreflexive(a[0].trainId);
        }
      }
      forall c ensures c in a[1..] <==> c in b[1..] {
        if c in a[1..] {
          var p :| 0 <= p < |a[1..]| && a[1..][p] == c;
          assert a[p + 1] == c && c in a && c in b;
          LessIrreflexive(c.trainId);
          assert c != b[0];
          assert b == [b[0]] + b[1..];
          assert c in b[1..];
        }
        if c in b[1..] {
          var q :| 0 <= q < |b[1..]| && b[1..][q] == c;
          assert b[q + 1] == c && c in b && c in a;
          LessIrreflexive(c.trainId);
          assert c != a[0];
          assert a == [a[0]] + a[1..];
          assert c in a[1..];
        }
      }
      SortedUnique(a[1..], b[1..]);
      assert a == [a[0]] + a[1..] && b == [b[0]] + b[1..];
    }
  }

  /**
   * Comparing a schedule with itself reports nothing (as long as no assignment is NaN,
   * which `!==` never finds equal to itself).
   */
  lemma IdenticalSchedulesNoChanges(s: seq<Assignment>, c: Change)
    requires forall i :: 0 <= i < |s| ==> !s[i].status.NaN?
    ensures !IsChange(s, s, c)
  {
    if c.trainId in AssignOf(s) {
      AssignOfLastWins(s, c.trainId);
    }
  }

  /**
   * A train the scenario lists and the baseline does not is reported, with an undefined
   * baseline, unless its scenario assignment is itself undefined.
   */
  lemma AbsentFromBaselineIsChanged(base: seq<Assignment>, scen: seq<Assignment>, j: nat)
    requires |base| > 0 && j < |scen|
    requires forall i :: 0 <= i < |base| ==> base[i].trainId != scen[j].trainId
    requires !Lookup(AssignOf(scen), scen[j].trainId).Undef?
    ensures IsChange(base, scen, Change(scen[j].trainId, Undef, Lookup(AssignOf(scen), scen[j].trainId)))
  {
    AssignOfLastWins(base, scen[j].trainId);
    AssignOfLastWins(scen, scen[j].trainId);
  }

  /** A reported change carries the last assignment each schedule gives the train. */
  lemma ChangeUsesLastRows(base: seq<Assignment>, scen: seq<Assignment>, c: Change)
    requires IsChange(base, scen, c)
    ensures exists j :: 0 <= j < |scen| && scen[j].trainId == c.trainId && scen[j].status == c.scenario
                        && forall l :: j < l < |scen| ==> scen[l].trainId != c.trainId
    ensures c.baseline == Undef ||
              exists j :: 0 <= j < |base| && base[j].trainId == c.trainId && base[j].status == c.baseline
                          && forall l :: j < l < |base| ==> base[l].trainId != c.trainId
  {
    AssignOfLastWins(scen, c.trainId);
    AssignOfLastWins(base, c.trainId);
  }

  // ---------------------------------------------------------------------------
  // The note column (App.jsx:436).

  const Maintenance: Value := Str("maintenance")

  /** The note beside a change row. */
  function ChangeNote(c: Change): string {
    if StrictEq(c.baseline, Maintenance) && !StrictEq(c.scenario, Maintenance) then "Freed from maintenance"
    else if !StrictEq(c.baseline, c.scenario) && StrictEq(c.scenario, Maintenance) then "Moved to maintenance"
    else "—"
  }

  /**
   * "Freed from maintenance" exactly when the baseline is maintenance and the scenario is
   * not; "Moved to maintenance" exactly when the scenario is maintenance and the baseline
   * is not; on a reported change the dash means neither side is maintenance.
   */
  lemma ChangeNoteIff(c: Change)
    ensures ChangeNote(c) == "Freed from maintenance" <==>
              c.baseline == Maintenance && c.scenario != Maintenance
    ensures ChangeNote(c) == "Moved to maintenance" <==>
              c.scenario == Maintenance && c.baseline != Maintenance
    ensures !StrictEq(c.baseline, c.scenario) ==>
              (ChangeNote(c) == "—" <==> c.baseline != Maintenance && c.scenario != Maintenance)
  {
  }
}
