/**
 * The optimizer parameter panel (frontend_new/src/components/ParameterControls.jsx): a
 * single-field setter, and five quick presets. The "default" preset writes fixed weights;
 * the other four add an increment to one weight and clamp it to that weight's range, and
 * the cleaning preset keeps `min_clean_due` at least 1. Each apply hands the new parameters
 * to `onChange` once and, when a toast callback is present, raises one toast.
 */
module ParameterPresets {
  import opened JsValues

  /** The parameter object. */
  type Params = map<string, Value>

  /** `set(k, v)` (line 5): the object handed to `onChange`. */
  function Set(params: Params, k: string, v: Value): (next: Params)
    ensures Get(next, k) == v
    ensures forall j :: j != k ==> Get(next, j) == Get(params, j)
    ensures next.Keys == params.Keys + {k}
  {
    params[k := v]
  }

  /** `Math.min(max, Math.max(min, v))` on integers. */
  function Clamp(v: int, lo: int, hi: int): int {
    if hi < (if lo < v then v else lo) then hi else if lo < v then v else lo
  }

  /** A clamped value lies in the range, and a value already in range is kept. */
  lemma ClampBounds(v: int, lo: int, hi: int)
    ensures lo <= hi ==> lo <= Clamp(v, lo, hi) <= hi
    ensures lo <= v <= hi ==> Clamp(v, lo, hi) == v
    ensures lo <= hi && v < lo ==> Clamp(v, lo, hi) == lo
    ensures lo <= hi && hi < v ==> Clamp(v, lo, hi) == hi
  {
  }

  /** A preset: either fixed values to write, or increments to add, each in entry order. */
  datatype Preset =
    | Reset(values: seq<(string, int)>)
    | Shift(delta: seq<(string, int)>)

  /** `BASE` (line 8). */
  const Base: seq<(string, int)> := [("risk_w", 50), ("mileage_w", 1), ("branding_w", 20)]

  /** `PRESETS[name]` (lines 11-17); any other name finds nothing. */
  function PresetNamed(name: string): Option<Preset> {
    if name == "default" then Some(Reset(Base))
    else if name == "branding" then Some(Shift([("branding_w", 10)]))
    else if name == "cleaning" then Some(Shift([("min_clean_due", 1)]))
    else if name == "risk" then Some(Shift([("risk_w", 15)]))
    else if name == "mileage" then Some(Shift([("mileage_w", 2)]))
    else None
  }

  predicate KnownPreset(name: string) {
    name == "default" || name == "branding" || name == "cleaning" || name == "risk" || name == "mileage"
  }

  /** The range a delta key is clamped to (lines 33-36); other keys are not clamped. */
  function KeyRange(k: string): Option<(int, int)> {
    if k == "risk_w" then Some((0, 100))
    else if k == "mileage_w" then Some((0, 10))
    else if k == "branding_w" then Some((0, 50))
    else if k == "min_clean_due" then Some((0, 20))
    else None
  }

  /**
   * One delta step on the current value `v` of key `k`: `Number(v ?? 0) + dv`, clamped
   * when `k` has a range. A value that is not a number stays NaN through the clamp.
   */
  function Stepped(k: string, dv: int, v: Value): Value {
    var current := if IsNullish(v) then Some(0) else ToNumber(v);
    if current.None? then NaN
    else
      var proposed := current.value + dv;
      match KeyRange(k)
      case None => Num(proposed)
      case Some(range) => Num(Clamp(proposed, range.0, range.1))
  }

  /** `{ ...params, ...values }`. */
  function Spread(params: Params, values: seq<(string, int)>): Params {
    if |values| == 0 then params
    else
      var last := values[|values| - 1];
      Spread(params, values[..|values| - 1])[last.0 := Num(last.1)]
  }

  /** `next` after the `Object.entries(cfg.delta).forEach` loop has run over `delta`. */
  function ApplyDelta(params: Params, delta: seq<(string, int)>): Params {
    if |delta| == 0 then params
    else
      var next := ApplyDelta(params, delta[..|delta| - 1]);
      var entry := delta[|delta| - 1];
      next[entry.0 := Stepped(entry.0, entry.1, Get(next, entry.0))]
  }

  /** `(v || 0) < 1`: a falsy value counts as 0, anything else is compared as a number. */
  predicate BelowOne(v: Value) {
    !Truthy(v) || (ToNumber(v).Some? && ToNumber(v).value < 1)
  }

  /** The floor the cleaning preset applies after its delta (line 39). */
  function CleaningFloor(name: string, next: Params): Params {
    if name == "cleaning" && BelowOne(Get(next, "min_clean_due")) then next["min_clean_due" := Num(1)]
    else next
  }

  /** The parameters a preset hands to `onChange`; nothing for an unknown name. */
  function PresetResult(params: Params, name: string): Option<Params> {
    match PresetNamed(name)
    case None => None
    case Some(Reset(values)) => Some(Spread(params, values))
    case Some(Shift(delta)) => Some(CleaningFloor(name, ApplyDelta(params, delta)))
  }

  /** A call the panel makes on its owner. */
  datatype Effect = OnChange(next: Params) | OnToast(message: string)

  function ToastText(name: string): string {
    "Preset \"" + name + "\" applied."
  }

  /** The calls `applyPreset(name)` makes, in order; `hasToast` says whether `onToast` is set. */
  function PresetEffects(params: Params, name: string, hasToast: bool): seq<Effect> {
    match PresetResult(params, name)
    case None => []
    case Some(next) => [OnChange(next)] + (if hasToast then [OnToast(ToastText(name))] else [])
  }

  /** The `Object.entries(cfg.delta).forEach` loop of `applyPreset` (lines 29-38). */
  method RunDelta(params: Params, delta: seq<(string, int)>) returns (next: Params)
    ensures next == ApplyDelta(params, delta)
  {
    next := params;
    var i := 0;
    while i < |delta|
      invariant 0 <= i <= |delta|
      invariant next == ApplyDelta(params, delta[..i])
    {
      assert delta[..i + 1][..i] == delta[..i];
      var (k, dv) := delta[i];
      var current := if k in next && !IsNullish(next[k]) then ToNumber(next[k]) else Some(0);
      var proposed: Value := if current.None? then NaN else Num(current.value + dv);
      if proposed.Num? {
        if k == "risk_w" { proposed := Num(Clamp(proposed.n, 0, 100)); }
        else if k == "mileage_w" { proposed := Num(Clamp(proposed.n, 0, 10)); }
        else if k == "branding_w" { proposed := Num(Clamp(proposed.n, 0, 50)); }
        else if k == "min_clean_due" { proposed := Num(Clamp(proposed.n, 0, 20)); }
      }
      next := next[k := proposed];
      i := i + 1;
    }
    assert delta[..i] == delta;
  }

  /** `applyPreset(name)` (lines 21-42). */
  method ApplyPreset(params: Params, name: string, hasToast: bool) returns (effects: seq<Effect>)
    ensures effects == PresetEffects(params, name, hasToast)
  {
    var cfg := PresetNamed(name);
    if cfg.None? {
      return [];
    }
    var toast := if hasToast then [OnToast(ToastText(name))] else [];
    if cfg.value.Reset? {
      return [OnChange(Spread(params, cfg.value.values))] + toast;
    }
    var next := RunDelta(params, cfg.value.delta);
    if name == "cleaning" && BelowOne(Get(next, "min_clean_due")) {
      next := next["min_clean_due" := Num(1)];
    }
    effects := [OnChange(next)] + toast;
  }

  function Changes(effects: seq<Effect>): nat {
    if |effects| == 0 then 0
    else Changes(effects[..|effects| - 1]) + (if effects[|effects| - 1].OnChange? then 1 else 0)
  }

  function Toasts(effects: seq<Effect>): nat {
    if |effects| == 0 then 0
    else Toasts(effects[..|effects| - 1]) + (if effects[|effects| - 1].OnToast? then 1 else 0)
  }

  /**
   * An unknown preset name does nothing: no `onChange`, no toast. A known one calls
   * `onChange` exactly once, first, and raises exactly one toast when `onToast` is set.
   */
  lemma PresetEffectCounts(params: Params, name: string, hasToast: bool)
    ensures !KnownPreset(name) ==> PresetEffects(params, name, hasToast) == []
    ensures KnownPreset(name) ==> Changes(PresetEffects(params, name, hasToast)) == 1
    ensures KnownPreset(name) ==> Toasts(PresetEffects(params, name, hasToast)) == (if hasToast then 1 else 0)
    ensures KnownPreset(name) ==> PresetEffects(params, name, hasToast)[0].OnChange?
  {
    if KnownPreset(name) {
      assert PresetResult(params, name).Some?;
      var effects := PresetEffects(params, name, hasToast);
      var change := [OnChange(PresetResult(params, name).value)];
      assert change[..0] == [];
      assert Changes(change) == 1 && Toasts(change) == 0;
      if hasToast {
        assert effects == change + [OnToast(ToastText(name))];
        assert effects[..1] == change;
      } else {
        assert effects == change;
      }
    }
  }

  /**
   * The default preset sets `risk_w` 50, `mileage_w` 1 and `branding_w` 20 and leaves every
   * other parameter as it was.
   */
  lemma DefaultPresetResets(params: Params)
    ensures PresetResult(params, "default").Some?
    ensures Get(PresetResult(params, "default").value, "risk_w") == Num(50)
    ensures Get(PresetResult(params, "default").value, "mileage_w") == Num(1)
    ensures Get(PresetResult(params, "default").value, "branding_w") == Num(20)
    ensures forall j :: j != "risk_w" && j != "mileage_w" && j != "branding_w" ==>
              Get(PresetResult(params, "default").value, j) == Get(params, j)
  {
    var next := Spread(params, Base);
    SpreadDistinct(params, Base, 0);
    SpreadDistinct(params, Base, 1);
    SpreadDistinct(params, Base, 2);
    forall j | j != "risk_w" && j != "mileage_w" && j != "branding_w" ensures Get(next, j) == Get(params, j) {
      SpreadOthers(params, Base, j);
    }
  }

  /** A spread writes each of its distinct keys' values. */
  lemma {:induction false} SpreadDistinct(params: Params, values: seq<(string, int)>, i: nat)
    requires i < |values|
    requires forall p, q :: 0 <= p < q < |values| ==> values[p].0 != values[q].0
    ensures Get(Spread(params, values), values[i].0) == Num(values[i].1)
    decreases |values|
  {
    var n := |values| - 1;
    if i < n {
      var init := values[..n];
      assert forall p, q :: 0 <= p < q < |init| ==> init[p] == values[p] && init[q] == values[q];
      SpreadDistinct(params, init, i);
      assert values[i] == init[i];
    }
  }

  /** A spread leaves the keys it does not name as they were. */
  lemma {:induction false} SpreadOthers(params: Params, values: seq<(string, int)>, j: string)
    ensures (forall e :: e in values ==> e.0 != j) ==> Get(Spread(params, values), j) == Get(params, j)
    decreases |values|
  {
    if |values| > 0 {
      assert values[|values| - 1] in values;
      assert forall e :: e in values[..|values| - 1] ==> e in values;
      SpreadOthers(params, values[..|values| - 1], j);
    }
  }

  /** Each delta step only writes its own key. */
  lemma {:induction false} ApplyDeltaOthers(params: Params, delta: seq<(string, int)>, j: string)
    requires forall e :: e in delta ==> e.0 != j
    ensures Get(ApplyDelta(params, delta), j) == Get(params, j)
    decreases |delta|
  {
    if |delta| > 0 {
      assert delta[|delta| - 1] in delta;
      assert forall e :: e in delta[..|delta| - 1] ==> e in delta;
      ApplyDeltaOthers(params, delta[..|delta| - 1], j);
    }
  }

  /**
   * A delta preset other than "cleaning" sets its key to the clamped sum and leaves every
   * other parameter as it was; on a numeric value `n` the key becomes `clamp(n + dv)`.
   */
  lemma ShiftPreset(params: Params, name: string, k: string, dv: int)
    requires PresetNamed(name) == Some(Shift([(k, dv)]))
    ensures PresetResult(params, name).Some?
    ensures name != "cleaning" ==> Get(PresetResult(params, name).value, k) == Stepped(k, dv, Get(params, k))
    ensures forall j :: j != k ==> Get(PresetResult(params, name).value, j) == Get(params, j)
    ensures KeyRange(k).Some?
    ensures Get(params, k).Num? && name != "cleaning" ==>
              Get(PresetResult(params, name).value, k)
                == Num(Clamp(Get(params, k).n + dv, KeyRange(k).value.0, KeyRange(k).value.1))
  {
    ApplyDeltaOne(params, k, dv);
  }

  lemma ApplyDeltaOne(params: Params, k: string, dv: int)
    ensures ApplyDelta(params, [(k, dv)]) == params[k := Stepped(k, dv, Get(params, k))]
  {
    assert [(k, dv)][..0] == [];
  }

  /** The risk preset takes a `risk_w` of 95 to 100, not 110. */
  lemma RiskPresetCaps(params: Params)
    requires Get(params, "risk_w") == Num(95)
    ensures Get(PresetResult(params, "risk").value, "risk_w") == Num(100)
  {
    ShiftPreset(params, "risk", "risk_w", 15);
  }

  /**
   * After the cleaning preset, `min_clean_due` is a number between 1 and 20: one more than
   * before, held to 1..20, or 1 when the old value was missing or not a number; nothing
   * else changes.
   */
  lemma CleaningPresetFloor(params: Params)
    ensures PresetResult(params, "cleaning").Some?
    ensures Get(PresetResult(params, "cleaning").value, "min_clean_due").Num?
    ensures 1 <= Get(PresetResult(params, "cleaning").value, "min_clean_due").n <= 20
    ensures !IsNullish(Get(params, "min_clean_due")) && ToNumber(Get(params, "min_clean_due")).Some? ==>
              var n := ToNumber(Get(params, "min_clean_due")).value;
              Get(PresetResult(params, "cleaning").value, "min_clean_due")
                == Num(if n + 1 < 1 then 1 else if n + 1 > 20 then 20 else n + 1)
    ensures IsNullish(Get(params, "min_clean_due")) || ToNumber(Get(params, "min_clean_due")).None? ==>
              Get(PresetResult(params, "cleaning").value, "min_clean_due") == Num(1)
    ensures forall j :: j != "min_clean_due" ==> Get(PresetResult(params, "cleaning").value, j) == Get(params, j)
  {
    ApplyDeltaOne(params, "min_clean_due", 1);
    var v := Stepped("min_clean_due", 1, Get(params, "min_clean_due"));
    if v.Num? {
      ClampBounds(v.n, 0, 20);
    }
  }
}
