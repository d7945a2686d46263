/**
 * The Issues tab (frontend_new/src/App.jsx:154-188): each conflict's reasons are sorted
 * into three categories by case-insensitive substring tests; the list shows a conflict
 * whose category is enabled, and always shows one no test recognises; the three tallies
 * count matching reasons over all conflicts whatever is enabled; a checkbox flips one
 * category.
 */
module ConflictFilter {
  import opened JsValues

  /** A conflict from the optimizer; a missing `reasons` array is the empty list. */
  datatype Conflict = Conflict(trainId: Value, reasons: seq<Value>)

  datatype Category = FitnessIssue | JobcardIssue | CleaningIssue

  /** The key of `issueFilters` and of the tally object for each category. */
  function CategoryKey(c: Category): string {
    match c
    case FitnessIssue => "fitness"
    case JobcardIssue => "jobcard"
    case CleaningIssue => "cleaning"
  }

  /** `String(r).toLowerCase()`. */
  function ReasonText(r: Value): string {
    Lower(ToText(r))
  }

  /** The three tests of App.jsx:160-162 and 180-182, on one reason. */
  predicate MentionsFitness(r: Value) {
    Contains(ReasonText(r), "fitness")
  }

  predicate MentionsJobcard(r: Value) {
    Contains(ReasonText(r), "open job card") || Contains(ReasonText(r), "job card")
  }

  predicate MentionsCleaning(r: Value) {
    Contains(ReasonText(r), "cleaning")
  }

  predicate Mentions(r: Value, c: Category) {
    match c
    case FitnessIssue => MentionsFitness(r)
    case JobcardIssue => MentionsJobcard(r)
    case CleaningIssue => MentionsCleaning(r)
  }

  /** The categories one reason falls into. */
  function ReasonCategories(r: Value): (cats: set<Category>)
    ensures forall c :: c in cats <==> Mentions(r, c)
  {
    (if MentionsFitness(r) then {FitnessIssue} else {})
      + (if MentionsJobcard(r) then {JobcardIssue} else {})
      + (if MentionsCleaning(r) then {CleaningIssue} else {})
  }

  /** `classify(reasons)`: the categories any reason falls into. */
  function Classify(reasons: seq<Value>): set<Category> {
    ClassifyBy(reasons, ReasonCategories)
  }

  /** The union of `cats(r)` over the reasons, added one reason at a time. */
  function ClassifyBy(reasons: seq<Value>, cats: Value -> set<Category>): set<Category> {
    if |reasons| == 0 then {}
    else ClassifyBy(reasons[..|reasons| - 1], cats) + cats(reasons[|reasons| - 1])
  }

  lemma {:induction false} ClassifyByMembers(reasons: seq<Value>, cats: Value -> set<Category>, c: Category)
    ensures c in ClassifyBy(reasons, cats) <==> exists i :: 0 <= i < |reasons| && c in cats(reasons[i])
    decreases |reasons|
  {
    if |reasons| > 0 {
      var init := reasons[..|reasons| - 1];
      ClassifyByMembers(init, cats, c);
      assert forall i :: 0 <= i < |init| ==> init[i] == reasons[i];
    }
  }

  /** A category is found exactly when some reason mentions it. */
  lemma ClassifyMembers(reasons: seq<Value>, c: Category)
    ensures c in Classify(reasons) <==> exists i :: 0 <= i < |reasons| && Mentions(reasons[i], c)
  {
    ClassifyByMembers(reasons, ReasonCategories, c);
    if c in Classify(reasons) {
      var i :| 0 <= i < |reasons| && c in ReasonCategories(reasons[i]);
      assert Mentions(reasons[i], c);
    }
    if exists i :: 0 <= i < |reasons| && Mentions(reasons[i], c) {
      var i :| 0 <= i < |reasons| && Mentions(reasons[i], c);
      assert c in ReasonCategories(reasons[i]);
    }
  }

  /**
   * The "open job card" test adds nothing: any text containing "open job card" contains
   * "job card", so the jobcard category is exactly the reasons mentioning "job card".
   */
  lemma JobcardTestIsJobCard(r: Value)
    ensures MentionsJobcard(r) <==> Contains(ReasonText(r), "job card")
  {
    var t := ReasonText(r);
    if Contains(t, "open job card") {
      OpenJobCardIsJobCard(t);
    }
  }

  lemma OpenJobCardIsJobCard(t: string)
    requires Contains(t, "open job card")
    ensures Contains(t, "job card")
  {
    var outer, inner := "open job card", "job card";
    assert outer[5..5 + |inner|] == inner;
    ContainsInner(t, outer, inner, 5);
  }

  /** The checkbox state; a key that is absent reads as off. */
  type IssueFilters = map<string, bool>

  predicate Enabled(f: IssueFilters, c: Category) {
    CategoryKey(c) in f && f[CategoryKey(c)]
  }

  /** The test `conflictsFiltered` applies (App.jsx:166-171). */
  predicate Shown(c: Conflict, f: IssueFilters) {
    var cats := Classify(c.reasons);
    cats == {} || exists cat :: cat in cats && Enabled(f, cat)
  }

  /** `conflicts.filter(...)`: the conflicts shown, in order. */
  function FilterConflicts(cs: seq<Conflict>, f: IssueFilters): (r: seq<Conflict>)
    ensures |r| <= |cs|
  {
    if |cs| == 0 then []
    else FilterConflicts(cs[..|cs| - 1], f) + (if Shown(cs[|cs| - 1], f) then [cs[|cs| - 1]] else [])
  }

  /** The filter keeps exactly the conflicts shown, in their order. */
  lemma {:induction false} FilterConflictsMembers(cs: seq<Conflict>, f: IssueFilters)
    ensures forall c :: c in FilterConflicts(cs, f) <==> c in cs && Shown(c, f)
    decreases |cs|
  {
    if |cs| > 0 {
      var init := cs[..|cs| - 1];
      FilterConflictsMembers(init, f);
      assert forall c :: c in cs <==> c in init || c == cs[|cs| - 1];
    }
  }

  /**
   * A conflict is shown iff no reason matches any category, or some reason matches a
   * category that is enabled.
   */
  lemma ShownIff(c: Conflict, f: IssueFilters)
    ensures Shown(c, f) <==>
      (forall i, cat :: 0 <= i < |c.reasons| ==> !Mentions(c.reasons[i], cat))
      || exists i, cat :: 0 <= i < |c.reasons| && Mentions(c.reasons[i], cat) && Enabled(f, cat)
  {
    ClassifyMembers(c.reasons, FitnessIssue);
    ClassifyMembers(c.reasons, JobcardIssue);
    ClassifyMembers(c.reasons, CleaningIssue);
    var cats := Classify(c.reasons);
    assert forall cat :: cat in cats <==> exists i :: 0 <= i < |c.reasons| && Mentions(c.reasons[i], cat) by {
      forall cat ensures cat in cats <==> exists i :: 0 <= i < |c.reasons| && Mentions(c.reasons[i], cat) {
        ClassifyMembers(c.reasons, cat);
      }
    }
  }

  /** With every category disabled, only the conflicts no test recognises are shown. */
  lemma {:induction false} NothingEnabledShowsUnrecognised(cs: seq<Conflict>, f: IssueFilters)
    requires forall cat :: !Enabled(f, cat)
    ensures forall c :: c in FilterConflicts(cs, f) <==> c in cs && Classify(c.reasons) == {}
    decreases |cs|
  {
    if |cs| > 0 {
      NothingEnabledShowsUnrecognised(cs[..|cs| - 1], f);
      assert forall c :: c in cs <==> c in cs[..|cs| - 1] || c == cs[|cs| - 1];
    }
  }

  lemma ShownWhenAllEnabled(c: Conflict, f: IssueFilters)
    requires forall cat :: Enabled(f, cat)
    ensures Shown(c, f)
  {
    var cats := Classify(c.reasons);
    if cats != {} {
      var cat :| cat in cats;
      assert Enabled(f, cat);
    }
  }

  /** With all three categories enabled (the initial state), every conflict is shown. */
  lemma {:induction false} AllEnabledShowsAll(cs: seq<Conflict>, f: IssueFilters)
    requires forall cat :: Enabled(f, cat)
    ensures FilterConflicts(cs, f) == cs
    decreases |cs|
  {
    if |cs| > 0 {
      var last := cs[|cs| - 1];
      ShownWhenAllEnabled(last, f);
      AllEnabledShowsAll(cs[..|cs| - 1], f);
      assert cs[..|cs| - 1] + [last] == cs;
    }
  }

  /** `toggleIssueFilter(k)` (App.jsx:188): `{ ...f, [k]: !f[k] }`. */
  function Toggle(f: IssueFilters, k: string): (g: IssueFilters)
    ensures g.Keys == f.Keys + {k}
    ensures g[k] == !(k in f && f[k])
    ensures forall j :: j in f && j != k ==> g[j] == f[j]
  {
    f[k := !(k in f && f[k])]
  }

  /** Toggling a category flips exactly that category; toggling twice restores the state. */
  lemma ToggleFlipsOne(f: IssueFilters, c: Category)
    ensures Enabled(Toggle(f, CategoryKey(c)), c) == !Enabled(f, c)
    ensures forall d :: d != c ==> Enabled(Toggle(f, CategoryKey(c)), d) == Enabled(f, d)
    ensures CategoryKey(c) in f ==> Toggle(Toggle(f, CategoryKey(c)), CategoryKey(c)) == f
  {
  }

  // ---------------------------------------------------------------------------
  // The tallies (App.jsx:175-186).

  datatype Counts = Counts(fitness: nat, jobcard: nat, cleaning: nat)

  function Indicator(b: bool): nat {
    if b then 1 else 0
  }

  /** What one reason adds to the tallies. */
  function ReasonCounts(r: Value): Counts {
    Counts(Indicator(MentionsFitness(r)), Indicator(MentionsJobcard(r)), Indicator(MentionsCleaning(r)))
  }

  function Plus(a: Counts, b: Counts): Counts {
    Counts(a.fitness + b.fitness, a.jobcard + b.jobcard, a.cleaning + b.cleaning)
  }

  lemma PlusAssoc(a: Counts, b: Counts, c: Counts)
    ensures Plus(Plus(a, b), c) == Plus(a, Plus(b, c))
  {
  }

  function Tally(c: Counts, cat: Category): nat {
    match cat
    case FitnessIssue => c.fitness
    case JobcardIssue => c.jobcard
    case CleaningIssue => c.cleaning
  }

  /** The tallies of a list of reasons. */
  function ReasonsCounts(reasons: seq<Value>): Counts {
    if |reasons| == 0 then Counts(0, 0, 0)
    else Plus(ReasonsCounts(reasons[..|reasons| - 1]), ReasonCounts(reasons[|reasons| - 1]))
  }

  /** The tallies over all conflicts. */
  function ConflictCounts(cs: seq<Conflict>): Counts {
    if |cs| == 0 then Counts(0, 0, 0)
    else Plus(ConflictCounts(cs[..|cs| - 1]), ReasonsCounts(cs[|cs| - 1].reasons))
  }

  /** `conflictCounts`: the outer `forEach` over the conflicts. */
  method CountConflicts(cs: seq<Conflict>) returns (counts: Counts)
    ensures counts == ConflictCounts(cs)
  {
    counts := Counts(0, 0, 0);
    var i := 0;
    while i < |cs|
      invariant 0 <= i <= |cs|
      invariant counts == ConflictCounts(cs[..i])
    {
      assert cs[..i + 1][..i] == cs[..i];
      counts := CountReasons(counts, cs[i].reasons);
      i := i + 1;
    }
    assert cs[..i] == cs;
  }

  /** The inner `forEach` over one conflict's reasons, adding to the running tallies. */
  method CountReasons(before: Counts, reasons: seq<Value>) returns (counts: Counts)
    ensures counts == Plus(before, ReasonsCounts(reasons))
  {
    counts := before;
    var j := 0;
    while j < |reasons|
      invariant 0 <= j <= |reasons|
      invariant counts == Plus(before, ReasonsCounts(reasons[..j]))
    {
      assert reasons[..j + 1][..j] == reasons[..j];
      PlusAssoc(before, ReasonsCounts(reasons[..j]), ReasonCounts(reasons[j]));
      counts := CountReason(counts, reasons[j]);
      j := j + 1;
    }
    assert reasons[..j] == reasons;
  }

  /** The three tests on one reason, each adding one to its tally. */
  method CountReason(before: Counts, r: Value) returns (counts: Counts)
    ensures counts == Plus(before, ReasonCounts(r))
  {
    counts := before;
    var txt := ReasonText(r);
    if Contains(txt, "fitness") {
      counts := counts.(fitness := counts.fitness + 1);
    }
    assert counts.fitness == before.fitness + Indicator(MentionsFitness(r));
    if Contains(txt, "open job card") || Contains(txt, "job card") {
      counts := counts.(jobcard := counts.jobcard + 1);
    }
    assert counts.jobcard == before.jobcard + Indicator(MentionsJobcard(r));
    if Contains(txt, "cleaning") {
      counts := counts.(cleaning := counts.cleaning + 1);
    }
    assert counts.cleaning == before.cleaning + Indicator(MentionsCleaning(r));
  }

  /**
   * A conflict adds to a category's tally exactly when it is classified into that
   * category: the tally and the filter read the reasons the same way.
   */
  lemma {:induction false} TallyMatchesClassify(reasons: seq<Value>, cat: Category)
    ensures Tally(ReasonsCounts(reasons), cat) > 0 <==> cat in Classify(reasons)
    decreases |reasons|
  {
    if |reasons| > 0 {
      TallyMatchesClassify(reasons[..|reasons| - 1], cat);
    }
  }

  /**
   * A category's tally never exceeds the number of reasons, and equals it when every
   * reason mentions the category.
   */
  lemma {:induction false} TallyBound(reasons: seq<Value>, cat: Category)
    ensures Tally(ReasonsCounts(reasons), cat) <= |reasons|
    ensures (forall i :: 0 <= i < |reasons| ==> Mentions(reasons[i], cat)) ==>
              Tally(ReasonsCounts(reasons), cat) == |reasons|
    decreases |reasons|
  {
    if |reasons| > 0 {
      var init := reasons[..|reasons| - 1];
      assert forall i :: 0 <= i < |init| ==> init[i] == reasons[i];
      TallyBound(init, cat);
    }
  }

  /** The tallies of two lists of conflicts add up. */
  lemma {:induction false} CountsAppend(a: seq<Conflict>, b: seq<Conflict>)
    ensures ConflictCounts(a + b) == Plus(ConflictCounts(a), ConflictCounts(b))
    decreases |b|
  {
    if |b| == 0 {
      assert a + b == a;
    } else {
      var ab := a + b;
      assert ab[..|ab| - 1] == a + b[..|b| - 1];
      assert ab[|ab| - 1] == b[|b| - 1];
      CountsAppend(a, b[..|b| - 1]);
    }
  }
}
