# Depot operator console — client-side data engine

This project models the data engine of the depot operator console's browser front end.
The console merges the backend's CSV data fragments (trains, fitness, job cards, cleaning,
branding, mileage, stabling) into one entity per train. It infers a train's seating capacity
from its model name. When the snapshot holds no trains, it falls back to a static fleet of 40.
It lays the optimiser's schedule over the train list and filters that list with the status and
attribute toggles of the filter bar. It classifies and counts the schedule's conflicts for the
Issues tab. It summarises and compares a baseline and a scenario schedule on the What-if tab.
It applies the parameter presets of the controls panel, and it builds the Insights CSV export.

JavaScript values are modelled by `JsValues.Value` (undefined, null, booleans, integers, NaN
and strings). A record object is a `map<string, Value>`, where an absent key reads as undefined.
The JavaScript coercions the code relies on are written out: truthiness, `== null`, `String(v)`,
`Number(v)`, `join`, `includes` and `toLowerCase`. Code that loops and updates local state
(`forEach` building a map, a counter or an object) is modelled by methods with loops. Each
method is proved equal to a specification function, and the properties are proved about those
functions as lemmas. Expressions become functions.

Modules:
- `JsValues`: values and coercions.
- `CapacityInference`: the car-count pattern and the capacity rule.
- `TrainMerge`: `deriveTrains`, as functions and as the imperative methods.
- `MergeProperties`: what the merged train list contains.
- `Fallback`: the static fleet and the `refresh` fallback.
- `FilterToggles`: the filter bar.
- `ScheduleView`: the schedule overlay and the train filter.
- `ConflictFilter`: the Issues tab classification, filter and counts.
- `WhatIf`: the schedule summary, the change list and the change note.
- `ParameterPresets`: the controls panel's setter, clamp and presets.
- `InsightsExport`: the ranked rows and the CSV export.

## Model

| member | source | states |
|---|---|---|
| CapacityInference.ScannerAgreesWithPattern | frontend_new/src/App.jsx:52 | the hand-written scanner accepts a model text exactly when the pattern `digits, optional spaces, optional hyphen, optional spaces, "car"` (case-insensitive) occurs in it |
| CapacityInference.CarCount | frontend_new/src/App.jsx:52-53 | a car count is found exactly when the model is truthy and its text matches the car pattern |
| CapacityInference.FirstDigitRunValue | frontend_new/src/App.jsx:53 | when `match(/([0-9]+)/)` finds a run, the number it yields is the value of a maximal digit run with no digit before it |
| CapacityInference.FirstDigitRunIsLeftmost | frontend_new/src/App.jsx:53 | conversely, the leftmost maximal digit run of any text is what `match(/([0-9]+)/)` and `parseInt` yield |
| CapacityInference.CarCountIsLeftmostRun | frontend_new/src/App.jsx:52-53 | for a model that passes the car test, the car count is the value of its leftmost maximal digit run, even when that run is not the one before "car" ("A1 4-car" counts 1) |
| CapacityInference.CarFollows | frontend_new/src/App.jsx:52 | a digit followed by "-car", " car" or "car" in any letter case passes the car test |
| CapacityInference.LeadingRunThenCar | frontend_new/src/App.jsx:52-53 | a model that starts with a digit run followed by "-car", " car" or "car" counts the value of that run |
| CapacityInference.MultiDigitCount | frontend_new/src/App.jsx:52-53 | a model made of any number of digits, then a hyphen, a space or nothing, then "car" in any case, counts the number those digits spell ("12-car" counts 12) |
| CapacityInference.WithCapacity | frontend_new/src/App.jsx:50-57 | a present capacity (not null or undefined) is never replaced; a missing one becomes cars × 300 when a car count is found, otherwise the train is left unchanged |
| CapacityInference.SingleDigitCount | frontend_new/src/App.jsx:52-54 | a model made of one digit, then a hyphen, a space or nothing, then a three-letter "car" word in any case, yields that digit as the car count |
| CapacityInference.SingleDigitCapacity | frontend_new/src/App.jsx:49-57 | a train with no capacity whose model is one digit N followed by "-car", " car" or "car" (any letter case) gets capacity N × 300, so "4-car" seats 1200 and "6 Car" seats 1800 as the comment on line 49 promises |
| CapacityInference.NoCapacityExamples | frontend_new/src/App.jsx:51-52 | a model without a car count ("bogus") leaves the capacity undefined, and an existing capacity (7 with model "4-car") is kept as it is |
| TrainMerge.RowKeys | frontend_new/src/App.jsx:34-38 | a key is a train key exactly when some row has a truthy id whose text is that key |
| TrainMerge.SeedStore | frontend_new/src/App.jsx:32-34 | the loop over trains.csv builds exactly the seed store: one entity per truthy id, holding id and model |
| TrainMerge.MergeRow | frontend_new/src/App.jsx:36-40 | one secondary row with a truthy id creates the entity if missing (id only) and writes that file's fields onto it; a falsy id changes nothing |
| TrainMerge.MergeFragment | frontend_new/src/App.jsx:35-42 | merging one fragment row by row gives the fold of the merge step over the fragment |
| TrainMerge.MergeAllFragments | frontend_new/src/App.jsx:43-48 | the six merges in order fitness, jobcard, cleaning, branding, mileage, stabling give the specification's merged store |
| TrainMerge.Writes | frontend_new/src/App.jsx:43-48 | the fields each merge callback writes are exactly that file's field list |
| TrainMerge.OrChainPicks | frontend_new/src/App.jsx:48 | the stabling site is the first truthy of site, depot, yard, location, stabling, bay, or the last of them when none is truthy |
| TrainMerge.FillCapacity | frontend_new/src/App.jsx:51-56 | one entity's capacity pass equals the capacity rule |
| TrainMerge.InferCapacities | frontend_new/src/App.jsx:50-57 | the capacity pass over all entities applies the capacity rule to each and changes no key |
| TrainMerge.DeriveTrains | frontend_new/src/App.jsx:30-59 | the imperative derivation returns the specified train list: empty when there are no data files, one entity per merged key otherwise |
| TrainMerge.Derived | frontend_new/src/App.jsx:30-59 | no data files give an empty list; otherwise the list has one entity per key of the merged store |
| TrainMerge.MergedWellFormed | frontend_new/src/App.jsx:34-39 | every merged entity is stored under the text of its own id, so `map[id]` and `train_id` agree |
| MergeProperties.MergedShape | frontend_new/src/App.jsx:32-48 | a train is in the merged store exactly when trains.csv or a secondary fragment has a row with its id, and its entity is the reference entity built from the last such rows |
| MergeProperties.LastRowWins | frontend_new/src/App.jsx:36-40 | a merged field holds what the last row of its file with that train's id wrote, and is absent when that file has no row for the train |
| MergeProperties.ExpectedField | frontend_new/src/App.jsx:36-48 | in the reference entity, a fragment's field holds what that fragment's last row for the train wrote, and is absent when the fragment has no row for it |
| MergeProperties.FieldsDisjoint | frontend_new/src/App.jsx:43-48 | no two merge callbacks write the same field, and none writes train_id, model or capacity |
| MergeProperties.MergedEntityModel | frontend_new/src/App.jsx:34-39 | the model field comes only from trains.csv (its last row), never from a secondary file |
| MergeProperties.FinalCapacity | frontend_new/src/App.jsx:34-57 | a derived train's capacity is cars × 300 exactly when its trains.csv model has a car count, and undefined otherwise |
| MergeProperties.SecondaryOnlyTrain | frontend_new/src/App.jsx:36-39 | a train seen only in secondary files is still created, with no model, no capacity, and the id of the first row that created it |
| MergeProperties.SecondaryOnlyId | frontend_new/src/App.jsx:39 | such a train's id is taken from the first creating row |
| MergeProperties.DerivedIdentity | frontend_new/src/App.jsx:34-58 | every derived train has a truthy id whose text is its key, and no two derived trains share an id |
| MergeProperties.DerivedIds | frontend_new/src/App.jsx:50-58 | the capacity pass leaves each derived train's id exactly as the merge left it |
| MergeProperties.DerivedFollowsMerged | frontend_new/src/App.jsx:50-58 | two snapshots that merge to the same store derive the same train list |
| MergeProperties.FalsyRowIgnored | frontend_new/src/App.jsx:34-38 | inserting a row with a falsy train id into any fragment changes neither the merged store nor the derived list |
| Fallback.RowsOf | frontend_new/src/App.jsx:28 | the static list maps each (id, model, capacity) triple to a row with those three fields, in order |
| Fallback.WithFallback | frontend_new/src/App.jsx:107-112 | trains.csv is replaced by the static fleet exactly when there are no data files or the trains fragment is missing or empty; other fragments are kept; otherwise the files are unchanged |
| Fallback.StaticCapacitiesAgree | frontend_new/src/App.jsx:18-28 | each static train's listed capacity equals the capacity the car-count rule infers from its model |
| Fallback.StaticFleetCapacity | frontend_new/src/App.jsx:18-28 | when trains.csv is the static list, each listed train is derived with the capacity of its static row |
| Fallback.StaticIdsDistinct | frontend_new/src/App.jsx:19-27 | the static ids are non-empty and pairwise distinct (they are numbered T1..T40) |
| Fallback.FallbackFleet | frontend_new/src/App.jsx:107-112 | after the fallback with no trains, every static train is derived with its listed model and listed capacity |
| FilterToggles.Overwrite | frontend_new/src/components/FiltersBar.jsx:7-13 | writing every filter key sets exactly those keys, keeps other entries, and adds no other key |
| FilterToggles.ClearAll | frontend_new/src/components/FiltersBar.jsx:6-10 | the loop sets all seven filter keys false and keeps the rest of the record |
| FilterToggles.ActivateSingle | frontend_new/src/components/FiltersBar.jsx:11-15 | the loop sets the chosen key true and the other six false |
| FilterToggles.SetEach | frontend_new/src/components/FiltersBar.jsx:8-13 | the loop over the seven keys equals writing them all at once |
| FilterToggles.HandleClick | frontend_new/src/components/FiltersBar.jsx:16-23 | a click on an active filter clears all filters, on an inactive one activates it alone |
| FilterToggles.SingleExactlyOne | frontend_new/src/components/FiltersBar.jsx:11-24 | after activating one filter, exactly that key is on and a filter is active |
| FilterToggles.ClickLeavesAtMostOne | frontend_new/src/components/FiltersBar.jsx:16-23 | after any click at most one filter key is on |
| FilterToggles.ClickAnyActive | frontend_new/src/components/FiltersBar.jsx:16-24 | after a click some filter is active exactly when the clicked key was off |
| FilterToggles.DoubleClickClears | frontend_new/src/components/FiltersBar.jsx:16-23 | clicking an inactive filter twice leaves all filters cleared ("All") |
| FilterToggles.InitialFilterClicks | frontend_new/src/components/FiltersBar.jsx:16-23 | from the initial `{ run: true }` filters, clicking run clears all and clicking maintenance leaves only maintenance on |
| ScheduleView.BuildAssignMap | frontend_new/src/App.jsx:136-137 | the loop over schedule rows builds the assignment map of the specification |
| ScheduleView.AssignMapLastWins | frontend_new/src/App.jsx:137 | an id is in the assignment map exactly when some schedule row has it, and the map holds the last such row |
| ScheduleView.LastByKeyWins | frontend_new/src/App.jsx:136-137 | filing rows one after the other under their key leaves a key present exactly when some row has it, holding the last such row |
| ScheduleView.Overlay | frontend_new/src/App.jsx:134-138 | the overlay keeps one train per base train, in order |
| ScheduleView.OverlayTrains | frontend_new/src/App.jsx:134-139 | the imperative overlay equals the overlay function |
| ScheduleView.OverlayRow | frontend_new/src/App.jsx:138 | each overlaid field comes from the schedule row of that train if it has it, else from the base train; cleaning_due is 1 exactly when the last cleaning is unknown or at least 7 days ago |
| ScheduleView.ScheduleOverrides | frontend_new/src/App.jsx:137-138 | a field of the last schedule row for a train overrides the base train's field |
| ScheduleView.OverlayWithoutSchedule | frontend_new/src/App.jsx:138 | with no schedule a train keeps its own fields plus the derived cleaning flags |
| ScheduleView.OnKeys | frontend_new/src/App.jsx:144-145 | the active statuses are exactly the status keys whose filter is on, and none are active exactly when no status filter is on |
| ScheduleView.PassesIff | frontend_new/src/App.jsx:142-150 | a train passes exactly when (no status filter is on, or it is unassigned, or its status filter is on) and each active attribute filter finds its attribute truthy |
| ScheduleView.FilterMembers | frontend_new/src/App.jsx:141-152 | the filtered list holds exactly the trains that pass |
| ScheduleView.FilterAppend | frontend_new/src/App.jsx:142 | filtering keeps order: filtering a concatenation concatenates the filtered parts |
| ScheduleView.AllPassWhenNoneOn | frontend_new/src/App.jsx:141-152 | with no filter on, the filtered list is the whole list |
| ConflictFilter.ReasonCategories | frontend_new/src/App.jsx:159-162 | a reason yields a category exactly when its lower-cased text mentions that category |
| ConflictFilter.ClassifyMembers | frontend_new/src/App.jsx:156-165 | a category is in a conflict's classification exactly when some reason mentions it |
| ConflictFilter.JobcardTestIsJobCard | frontend_new/src/App.jsx:161 | the job card test holds exactly when the text contains "job card" ("open job card" adds nothing) |
| ConflictFilter.FilterConflicts | frontend_new/src/App.jsx:166-172 | filtering never lengthens the conflict list |
| ConflictFilter.FilterConflictsMembers | frontend_new/src/App.jsx:166-172 | the filtered conflicts are exactly the conflicts that are shown |
| ConflictFilter.ShownIff | frontend_new/src/App.jsx:167-171 | a conflict is shown exactly when none of its reasons is recognised or one of its categories is enabled |
| ConflictFilter.NothingEnabledShowsUnrecognised | frontend_new/src/App.jsx:169-171 | with every category disabled, exactly the unrecognised conflicts remain |
| ConflictFilter.AllEnabledShowsAll | frontend_new/src/App.jsx:166-172 | with every category enabled (the initial state), every conflict is shown |
| ConflictFilter.Toggle | frontend_new/src/App.jsx:188 | toggling flips the chosen category's flag and keeps the others |
| ConflictFilter.ToggleFlipsOne | frontend_new/src/App.jsx:188 | toggling a category's key flips whether that category is enabled, leaves every other category as it was, and toggling twice restores the filters |
| ConflictFilter.CountConflicts | frontend_new/src/App.jsx:175-186 | the counting loops produce the per-category tallies of the specification, starting from zero |
| ConflictFilter.CountReasons | frontend_new/src/App.jsx:178-183 | the loop over one conflict's reasons adds that conflict's tallies to the counts so far |
| ConflictFilter.CountReason | frontend_new/src/App.jsx:179-182 | one reason adds 1 to each category it mentions and nothing to the others |
| ConflictFilter.TallyMatchesClassify | frontend_new/src/App.jsx:156-186 | a category's count over a conflict's reasons is positive exactly when the conflict's classification contains that category |
| ConflictFilter.TallyBound | frontend_new/src/App.jsx:175-186 | a category's count never exceeds the number of reasons, and equals it when every reason mentions the category |
| ConflictFilter.CountsAppend | frontend_new/src/App.jsx:177 | counts over two conflict lists add up |
| WhatIf.CountAssignments | frontend_new/src/App.jsx:213-214 | the counting loop builds the key order and counts of the specification |
| WhatIf.CounterKeys | frontend_new/src/App.jsx:214-215 | the counted keys are distinct, listed in first-appearance order, and are exactly the keys with a count |
| WhatIf.CounterCounts | frontend_new/src/App.jsx:214 | a key is counted exactly when it occurs, and its count is its number of occurrences |
| WhatIf.CountsSumToLength | frontend_new/src/App.jsx:214 | the counts add up to the number of schedule rows |
| WhatIf.Summarize | frontend_new/src/App.jsx:211-216 | the summary is "—" for an empty schedule and otherwise the `key: count` entries joined by `  ·  ` |
| WhatIf.SummaryAsWrittenMissesUnassigned | frontend_new/src/App.jsx:214-215 | as written, the "unknown" entry appears only for an empty-string status; a row without a status is counted under "undefined" |
| WhatIf.SummaryCountsUnassignedAsUnknown | frontend_new/src/App.jsx:215 | corrected, every row with a falsy status is counted under "unknown" |
| WhatIf.BuildMap | frontend_new/src/App.jsx:220-221 | building a Map from a schedule keeps each id's last status, in first-appearance order of ids |
| WhatIf.AssignOfLastWins | frontend_new/src/App.jsx:220-221 | an id is in the map exactly when some row has it, mapped to the status of the last such row |
| WhatIf.CollectChanges | frontend_new/src/App.jsx:222-226 | the `scenMap.forEach` loop pushes, in scenario order, one row for each scenario train whose baseline status differs strictly from its scenario status (the fold that PushedMembers and PushedAreChanges characterise) |
| WhatIf.PushedMembers | frontend_new/src/App.jsx:222-226 | a row is pushed exactly for a listed id whose baseline status differs strictly from its scenario status, and it carries those two statuses |
| WhatIf.PushedDistinct | frontend_new/src/App.jsx:222-226 | distinct scenario ids push rows with distinct ids |
| WhatIf.PushedAreChanges | frontend_new/src/App.jsx:220-226 | going over every scenario id pushes exactly the changes of the comparison, one per train |
| WhatIf.SortById | frontend_new/src/App.jsx:227 | sorting rows with distinct ids returns the same rows (as a multiset) in strictly increasing id order |
| WhatIf.WhatIfChanges | frontend_new/src/App.jsx:218-229 | empty when either schedule is empty; otherwise exactly the changed trains, sorted by id |
| WhatIf.SortedUnique | frontend_new/src/App.jsx:227 | the sorted change list is determined by its members alone |
| WhatIf.IdenticalSchedulesNoChanges | frontend_new/src/App.jsx:225 | comparing a schedule with itself finds no change when no status is NaN |
| WhatIf.AbsentFromBaselineIsChanged | frontend_new/src/App.jsx:224-225 | a scenario train missing from the baseline, whose scenario assignment is not undefined, is a change with baseline undefined |
| WhatIf.ChangeUsesLastRows | frontend_new/src/App.jsx:220-225 | each change row carries the last baseline and last scenario status of its train |
| WhatIf.ChangeNoteIff | frontend_new/src/App.jsx:436 | the note reads "Freed from maintenance" exactly when the baseline was maintenance and the scenario is not, the moved-to-maintenance note exactly in the reverse case, and "—" on a change exactly when neither side is maintenance |
| ParameterPresets.Set | frontend_new/src/components/ParameterControls.jsx:5 | setting a parameter changes that key only |
| ParameterPresets.ClampBounds | frontend_new/src/components/ParameterControls.jsx:19 | the clamped value lies in range, equals the input when it is in range, and is the nearer bound otherwise |
| ParameterPresets.ApplyPreset | frontend_new/src/components/ParameterControls.jsx:21-42 | the imperative preset application produces the specified change and toast effects |
| ParameterPresets.RunDelta | frontend_new/src/components/ParameterControls.jsx:29-38 | the delta loop adds each step to the current value (absent or null counting as 0) and clamps the ranged keys, as the specification fold does |
| ParameterPresets.PresetEffectCounts | frontend_new/src/components/ParameterControls.jsx:21-42 | an unknown preset does nothing; a known one emits one parameter change first, and one toast exactly when a toast handler is given |
| ParameterPresets.DefaultPresetResets | frontend_new/src/components/ParameterControls.jsx:8-25 | the default preset sets risk_w 50, mileage_w 1, branding_w 20 and keeps every other parameter |
| ParameterPresets.ShiftPreset | frontend_new/src/components/ParameterControls.jsx:13-38 | a delta preset adds its step to the current value (absent counts 0) and clamps it to the key's range for every preset but cleaning, and keeps every other parameter for all of them |
| ParameterPresets.RiskPresetCaps | frontend_new/src/components/ParameterControls.jsx:15-33 | the risk preset on risk_w 95 gives 100, not 110 |
| ParameterPresets.CleaningPresetFloor | frontend_new/src/components/ParameterControls.jsx:14-39 | after the cleaning preset, min_clean_due is a number between 1 and 20: the old number plus one held to 1..20, or 1 when the old value was missing or not a number; every other parameter is kept |
| InsightsExport.RowsOf | frontend_new/src/components/InsightsView.jsx:10-14 | no ranking gives no rows; otherwise the rows are the ranking in its own order |
| InsightsExport.Cells | frontend_new/src/components/InsightsView.jsx:19-26 | a row renders to six cells: the id, the status or blank, the three numeric fields blank exactly when missing, and "Due" exactly when cleaning is due |
| InsightsExport.NothingToExport | frontend_new/src/components/InsightsView.jsx:11-17 | with no ranking, or an empty one, nothing is exported |
| InsightsExport.HeaderLine | frontend_new/src/components/InsightsView.jsx:18-27 | the header line splits on commas into the six column names in order and holds no newline |
| InsightsExport.SplitJoin | frontend_new/src/components/InsightsView.jsx:26-27 | joining parts on a separator they do not contain and splitting again gives the parts back |
| InsightsExport.ExportLines | frontend_new/src/components/InsightsView.jsx:27 | when no cell holds a newline, the export splits into the header line followed by one line per row, in order |
| InsightsExport.LineCells | frontend_new/src/components/InsightsView.jsx:19-26 | when no cell holds a comma, a row's line splits back into its six cells |

## Left out

- Fetching the snapshot, running the optimiser, uploading images, and the async `try/finally` around them are not modelled. The model starts from the data those calls return.
- React state, memoisation and JSX rendering are not modelled. Each memo is modelled as the function of its inputs.
- Toast identifiers, timestamps and the auto-removal timer are not modelled. `onToast` is modelled only as a flag saying whether a handler was given.
- The Blob, object URL and download link of the CSV export are not modelled. The model stops at the text.
- Numbers are integers. Floating point, fractional scores and `Number()` of strings with spaces, signs, decimals or exponents are not modelled; such strings read as NaN.
- Integer-like object keys are not modelled. JavaScript lists them first in `Object.values` and `Object.entries`, but the model keeps insertion order for the train list and the summary.
- `toLowerCase` is modelled for ASCII letters only.
- `localeCompare` is modelled as code-point order of the ids.
- Train ids in the what-if comparison are strings. A non-string id would make `localeCompare` throw.
- The array sort is modelled on a sequence, by insertion, rather than in place.
- Preset names inherited from the object prototype (`"constructor"` and the like) are treated as unknown presets.
- The plain objects `map` (App.jsx lines 33-39), `assignMap` (App.jsx lines 136-137) and `counts` (App.jsx lines 213-214) are modelled as maps with no prototype. In JavaScript a key `"__proto__"` does not become an own entry (a train with that id is missing from `Object.values`, a status with that name from the summary), and a key such as `"constructor"` first reads the inherited `Object` function.
- WhatIf.AbsentFromBaselineIsChanged: requires that the scenario assignment is not undefined, because `undefined !== undefined` is false and such a train is not reported.
- MergeProperties.FieldsDisjoint: does not prove that the merged store is the same for any order of the files, because a creator's raw `train_id` can depend on which file comes first.
- The what-if requests' `cleaning_slots` and `fail_train` wiring is not modelled, because it only sends parameters to the backend.
- The conflict records' fields other than `reasons` are not modelled, because the core reads only `reasons`.
- WhatIf.IdenticalSchedulesNoChanges: requires that no status is NaN, because `!==` treats NaN as different from itself and such a train would be reported as changed.

## Findings

| source | as written | input that shows it | evidently intended | confidence | as-written member | corrected member |
|---|---|---|---|---|---|---|
| frontend_new/src/App.jsx:214-215 | counts are keyed by `r.assigned`, so a row with no status is counted under the key "undefined" (or "null"), and the `k\|\|'unknown'` fallback only fires for an empty-string status | a schedule `[{ train_id: "T1" }]` summarises as "undefined: 1" | rows without a status are summarised as "unknown: 1" | not executed | WhatIf.SummaryAsWrittenMissesUnassigned | WhatIf.SummaryCountsUnassignedAsUnknown |
