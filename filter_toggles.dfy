/**
 * The schedule filter chips (frontend_new/src/components/FiltersBar.jsx): seven flags,
 * four assignment statuses and three train attributes, that behave as one exclusive
 * choice. Clicking an inactive chip makes it the only active one; clicking the active
 * chip, or "All", clears the seven. Every other key of the filter object is carried over.
 */
module FilterToggles {

  /** The filter object; a key that is absent reads as off. */
  type Filters = map<string, bool>

  predicate On(f: Filters, k: string) {
    k in f && f[k]
  }

  const StatusKeys: seq<string> := ["run", "standby", "maintenance", "cleaning"]
  const AttrKeys: seq<string> := ["cleaning_due", "jobcard_open", "branding_priority"]
  const AllKeys: seq<string> := StatusKeys + AttrKeys

  /** `f` with each of `keys` set to whether it equals `chosen`, all other keys kept. */
  function Overwrite(f: Filters, keys: seq<string>, chosen: string, single: bool): (g: Filters)
    ensures forall k :: k in g <==> k in f || k in keys
    ensures forall k :: k in keys ==> g[k] == (single && k == chosen)
    ensures forall k :: k in f && k !in keys ==> g[k] == f[k]
  {
    map k | k in f.Keys + (set j | j in keys) :: if k in keys then single && k == chosen else f[k]
  }

  /** The object `clearAll` hands on: every one of the seven keys off. */
  function Cleared(f: Filters): Filters {
    Overwrite(f, AllKeys, "", false)
  }

  /** The object `activateSingle(k)` hands on: of the seven keys, only `k` on. */
  function Single(f: Filters, k: string): Filters {
    Overwrite(f, AllKeys, k, true)
  }

  /** `clearAll` (FiltersBar.jsx:6-10): copy the filters and switch the seven keys off in turn. */
  method ClearAll(filters: Filters) returns (next: Filters)
    ensures next == Cleared(filters)
  {
    next := SetEach(filters, "", false);
  }

  /** `activateSingle(k)` (FiltersBar.jsx:11-15): copy the filters and set each of the seven keys to `key === k`. */
  method ActivateSingle(filters: Filters, k: string) returns (next: Filters)
    ensures next == Single(filters, k)
  {
    next := SetEach(filters, k, true);
  }

  /** The `allKeys.forEach` loop shared by both. */
  method SetEach(filters: Filters, chosen: string, single: bool) returns (next: Filters)
    ensures next == Overwrite(filters, AllKeys, chosen, single)
  {
    next := filters;
    assert next == Overwrite(filters, [], chosen, single);
    var i := 0;
    while i < |AllKeys|
      invariant 0 <= i <= |AllKeys|
      invariant next == Overwrite(filters, AllKeys[..i], chosen, single)
    {
      assert AllKeys[..i + 1] == AllKeys[..i] + [AllKeys[i]];
      OverwriteOneMore(filters, AllKeys[..i], AllKeys[i], chosen, single);
      next := next[AllKeys[i] := single && AllKeys[i] == chosen];
      i := i + 1;
    }
    assert AllKeys[..i] == AllKeys;
  }

  lemma OverwriteOneMore(f: Filters, keys: seq<string>, k: string, chosen: string, single: bool)
    ensures Overwrite(f, keys + [k], chosen, single) == Overwrite(f, keys, chosen, single)[k := single && k == chosen]
  {
    var a, b := Overwrite(f, keys + [k], chosen, single), Overwrite(f, keys, chosen, single)[k := single && k == chosen];
    assert forall j :: j in keys + [k] <==> j in keys || j == k;
    assert forall j :: j in a <==> j in b;
  }

  /** What a click on chip `k` hands on (FiltersBar.jsx:16-23). */
  function Click(f: Filters, k: string): Filters {
    if On(f, k) then Cleared(f) else Single(f, k)
  }

  /** `handleClick(k)`. */
  method HandleClick(filters: Filters, k: string) returns (next: Filters)
    ensures next == Click(filters, k)
  {
    if k in filters && filters[k] {
      next := ClearAll(filters);
    } else {
      next := ActivateSingle(filters, k);
    }
  }

  /** `allKeys.some(k => filters[k])`: "All" is shown active exactly when this is false. */
  predicate AnyActive(f: Filters) {
    exists i :: 0 <= i < |AllKeys| && On(f, AllKeys[i])
  }

  /** At most one of the seven keys is on. */
  predicate AtMostOneActive(f: Filters) {
    forall i, j :: 0 <= i < |AllKeys| && 0 <= j < |AllKeys| && On(f, AllKeys[i]) && On(f, AllKeys[j]) ==>
      AllKeys[i] == AllKeys[j]
  }

  /** After `activateSingle(k)` for one of the seven keys, exactly that key is on. */
  lemma SingleExactlyOne(f: Filters, k: string)
    requires k in AllKeys
    ensures forall i :: 0 <= i < |AllKeys| ==> (On(Single(f, k), AllKeys[i]) <==> AllKeys[i] == k)
    ensures AnyActive(Single(f, k))
  {
    var i :| 0 <= i < |AllKeys| && AllKeys[i] == k;
    assert On(Single(f, k), AllKeys[i]);
  }

  /** Whatever the filters held before, after any click at most one of the seven is on. */
  lemma ClickLeavesAtMostOne(f: Filters, k: string)
    ensures AtMostOneActive(Click(f, k))
  {
  }

  /**
   * A click on an active chip leaves none of the seven on; a click on an inactive chip
   * leaves exactly that one on, so "All" is active afterwards iff the chip was active.
   */
  lemma ClickAnyActive(f: Filters, k: string)
    requires k in AllKeys
    ensures AnyActive(Click(f, k)) <==> !On(f, k)
  {
    if !On(f, k) {
      SingleExactlyOne(f, k);
    }
  }

  /**
   * Clicking the same inactive chip twice switches the seven keys off and keeps every
   * other key: the same object as a click on "All".
   */
  lemma DoubleClickClears(f: Filters, k: string)
    requires k in AllKeys && !On(f, k)
    ensures Click(Click(f, k), k) == Cleared(f)
    ensures !AnyActive(Click(Click(f, k), k))
  {
    SingleExactlyOne(f, k);
    var g := Click(Click(f, k), k);
    assert forall j :: j in g <==> j in Cleared(f);
  }

  /**
   * From the console's initial filters `{ run: true }`, clicking "maintenance" leaves
   * only maintenance on, and clicking "run" clears them all.
   */
  lemma InitialFilterClicks()
    ensures var f := map["run" := true];
      && (forall i :: 0 <= i < |AllKeys| ==> (On(Click(f, "maintenance"), AllKeys[i]) <==> AllKeys[i] == "maintenance"))
      && !AnyActive(Click(f, "run"))
  {
    var f := map["run" := true];
    assert !On(f, "maintenance");
    SingleExactlyOne(f, "maintenance");
  }
}
