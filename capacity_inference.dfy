/**
 * Capacity inference (frontend_new/src/App.jsx:49-57): a train whose capacity is
 * missing gets one from its model code, 300 seats per car, when the model reads like
 * "4-car", "4 car" or "4car".
 *
 * The source tests the model against the regular expression `([0-9]+)\s*-?\s*car`
 * (case-insensitive, unanchored) and then takes the FIRST run of digits anywhere in the
 * model as the car count. Here the test is a hand-written scanner, proved equal to a
 * direct reading of the expression (ScannerAgreesWithPattern).
 */
module CapacityInference {
  import opened JsValues

  /** Seats per car; the source's rule of thumb. */
  const SeatsPerCar: nat := 300

  /** The characters JavaScript's `\s` class matches. */
  predicate IsRegexSpace(c: char) {
    || c == ' ' || c == '\t' || c == '\n' || c == '\r' || c == '\U{B}' || c == '\U{C}'
    || c == '\U{A0}' || c == '\U{1680}' || ('\U{2000}' <= c <= '\U{200A}')
    || c == '\U{2028}' || c == '\U{2029}' || c == '\U{202F}' || c == '\U{205F}'
    || c == '\U{3000}' || c == '\U{FEFF}'
  }

  /** The end of the run of `\s` characters that starts at `i`. */
  function SkipSpaces(s: string, i: nat): (j: nat)
    requires i <= |s|
    ensures i <= j <= |s|
    ensures forall m :: i <= m < j ==> IsRegexSpace(s[m])
    ensures j < |s| ==> !IsRegexSpace(s[j])
    decreases |s| - i
  {
    if i < |s| && IsRegexSpace(s[i]) then SkipSpaces(s, i + 1) else i
  }

  /** "car" in any letter case starts at `i`. */
  predicate CarAt(s: string, i: nat) {
    && i + 3 <= |s|
    && (s[i] == 'c' || s[i] == 'C')
    && (s[i + 1] == 'a' || s[i + 1] == 'A')
    && (s[i + 2] == 'r' || s[i + 2] == 'R')
  }

  /** `\s*-?\s*car` matches at position `j`. */
  predicate SeparatorThenCar(s: string, j: nat)
    requires j <= |s|
  {
    var a := SkipSpaces(s, j);
    CarAt(s, a) || (a < |s| && s[a] == '-' && CarAt(s, SkipSpaces(s, a + 1)))
  }

  /**
   * `/([0-9]+)\s*-?\s*car/i.test(s)`, as a scanner: some digit is directly followed by
   * the separator and "car". Any digit run that ends in such a digit is a match, and
   * every match ends in one.
   */
  predicate MatchesCarPattern(s: string) {
    exists j :: 1 <= j <= |s| && IsDigit(s[j - 1]) && SeparatorThenCar(s, j)
  }

  /**
   * The regular expression read directly: digits in s[i..j], `\s` in s[j..a], an
   * optional hyphen in s[a..b], `\s` in s[b..c], and "car" at c.
   */
  ghost predicate PatternSpan(s: string, i: nat, j: nat, a: nat, b: nat, c: nat) {
    && i < j <= a <= b <= c && c + 3 <= |s|
    && (forall m :: i <= m < j ==> IsDigit(s[m]))
    && (forall m :: j <= m < a ==> IsRegexSpace(s[m]))
    && (b == a || (b == a + 1 && s[a] == '-'))
    && (forall m :: b <= m < c ==> IsRegexSpace(s[m]))
    && CarAt(s, c)
  }

  ghost predicate MatchesPattern(s: string) {
    exists i, j, a, b, c :: PatternSpan(s, i, j, a, b, c)
  }

  /** SkipSpaces stops exactly at the first non-space after a run of spaces. */
  lemma SkipSpacesStopsAt(s: string, x: nat, y: nat)
    requires x <= y <= |s|
    requires forall m :: x <= m < y ==> IsRegexSpace(s[m])
    requires y < |s| ==> !IsRegexSpace(s[y])
    ensures SkipSpaces(s, x) == y
  {
  }

  /** Every match the scanner finds is a match of the regular expression. */
  lemma ScannerSound(s: string)
    requires MatchesCarPattern(s)
    ensures MatchesPattern(s)
  {
    var j :| 1 <= j <= |s| && IsDigit(s[j - 1]) && SeparatorThenCar(s, j);
    ScannerSoundAt(s, j);
  }

  /** The match the scanner finds after the digit at `j - 1`, as a span of the expression. */
  lemma ScannerSoundAt(s: string, j: nat)
    requires 1 <= j <= |s| && IsDigit(s[j - 1]) && SeparatorThenCar(s, j)
    ensures MatchesPattern(s)
  {
    var a := SkipSpaces(s, j);
    assert forall m :: j - 1 <= m < j ==> IsDigit(s[m]);
    if CarAt(s, a) {
      assert PatternSpan(s, j - 1, j, a, a, a);
    } else {
      var c := SkipSpaces(s, a + 1);
      assert s[a] == '-' && CarAt(s, c);
      assert PatternSpan(s, j - 1, j, a, a + 1, c);
    }
  }

  /** Every match of the regular expression is found by the scanner. */
  lemma ScannerComplete(s: string, i: nat, j: nat, a: nat, b: nat, c: nat)
    requires PatternSpan(s, i, j, a, b, c)
    ensures MatchesCarPattern(s)
  {
    assert IsDigit(s[j - 1]);
    if b == a {
      SkipSpacesStopsAt(s, j, c);
    } else {
      SkipSpacesStopsAt(s, j, a);
      SkipSpacesStopsAt(s, a + 1, c);
    }
    assert SeparatorThenCar(s, j);
  }

  /** The scanner accepts exactly the strings the regular expression matches. */
  lemma ScannerAgreesWithPattern(s: string)
    ensures MatchesCarPattern(s) <==> MatchesPattern(s)
  {
    if MatchesCarPattern(s) {
      ScannerSound(s);
    }
    if MatchesPattern(s) {
      var i: nat, j: nat, a: nat, b: nat, c: nat :| PatternSpan(s, i, j, a, b, c);
      ScannerComplete(s, i, j, a, b, c);
    }
  }

  /** The index of the first digit at or after `i`, or |s| when there is none. */
  function FirstDigitFrom(s: string, i: nat): (p: nat)
    requires i <= |s|
    ensures i <= p <= |s|
    ensures forall m :: i <= m < p ==> !IsDigit(s[m])
    ensures p < |s| ==> IsDigit(s[p])
    decreases |s| - i
  {
    if i == |s| || IsDigit(s[i]) then i else FirstDigitFrom(s, i + 1)
  }

  /** The end of the run of digits that starts at `p`. */
  function DigitRunEnd(s: string, p: nat): (q: nat)
    requires p <= |s|
    ensures p <= q <= |s|
    ensures forall m :: p <= m < q ==> IsDigit(s[m])
    ensures q < |s| ==> !IsDigit(s[q])
    decreases |s| - p
  {
    if p < |s| && IsDigit(s[p]) then DigitRunEnd(s, p + 1) else p
  }

  /**
   * `parseInt(s.match(/([0-9]+)/)[1], 10)`: the value of the leftmost maximal run of
   * digits, or None when `s` has no digit (where the source's `match` gives null).
   */
  function FirstDigitRun(s: string): (r: Option<nat>)
    ensures r.Some? <==> exists m :: 0 <= m < |s| && IsDigit(s[m])
  {
    var p := FirstDigitFrom(s, 0);
    if p == |s| then None
    else
      var q := DigitRunEnd(s, p);
      assert AllDigits(s[p..q]);
      Some(DigitsValue(s[p..q]))
  }

  /**
   * The car count read from a `model` value: `t.model && /…car/i.test(t.model)` and
   * then the first digit run. A model that passes the test always holds a digit.
   */
  function CarCount(model: Value): (r: Option<nat>)
    ensures r.Some? <==> Truthy(model) && MatchesCarPattern(ToText(model))
  {
    if Truthy(model) && MatchesCarPattern(ToText(model)) then FirstDigitRun(ToText(model))
    else None
  }

  /** s[p..q] is the leftmost maximal run of digits in `s`. */
  predicate LeftmostRun(s: string, p: nat, q: nat) {
    && p < q <= |s|
    && (forall m :: 0 <= m < p ==> !IsDigit(s[m]))
    && (forall m :: p <= m < q ==> IsDigit(s[m]))
    && (q == |s| || !IsDigit(s[q]))
  }

  /** When there is a digit, the first run's value is the value of the leftmost maximal digit run. */
  lemma FirstDigitRunValue(s: string)
    ensures FirstDigitRun(s).Some? ==>
              exists p: nat, q: nat :: LeftmostRun(s, p, q) && AllDigits(s[p..q])
                             && FirstDigitRun(s).value == DigitsValue(s[p..q])
  {
    var p := FirstDigitFrom(s, 0);
    if p < |s| {
      var q := DigitRunEnd(s, p);
      assert LeftmostRun(s, p, q);
      assert AllDigits(s[p..q]);
    }
  }

  /** Conversely, any leftmost maximal digit run is the one whose value is taken. */
  lemma FirstDigitRunIsLeftmost(s: string, p: nat, q: nat)
    requires LeftmostRun(s, p, q)
    ensures AllDigits(s[p..q]) && FirstDigitRun(s) == Some(DigitsValue(s[p..q]))
  {
    var p' := FirstDigitFrom(s, 0);
    assert IsDigit(s[p]);
    assert p' == p;
    var q' := DigitRunEnd(s, p);
    assert q' == q;
    assert AllDigits(s[p..q]);
  }

  /**
   * The car count of a model that passes the test is the value of its leftmost digit
   * run, wherever the match is: "12-car" counts 12 and "A1 4-car" counts 1.
   */
  lemma CarCountIsLeftmostRun(s: string, p: nat, q: nat)
    requires MatchesCarPattern(s)
    requires LeftmostRun(s, p, q)
    ensures AllDigits(s[p..q]) && CarCount(Str(s)) == Some(DigitsValue(s[p..q]))
  {
    FirstDigitRunIsLeftmost(s, p, q);
  }

  /** A digit at n - 1 followed by "-car", " car" or "car" (any case) is a match. */
  lemma CarFollows(s: string, n: nat, sep: string)
    requires 1 <= n <= |s| && IsDigit(s[n - 1])
    requires sep == "-" || sep == " " || sep == ""
    requires n + |sep| <= |s| && s[n..n + |sep|] == sep && CarAt(s, n + |sep|)
    ensures MatchesCarPattern(s)
  {
    if sep == "-" {
      assert s[n] == '-';
      SkipSpacesStopsAt(s, n, n);
      SkipSpacesStopsAt(s, n + 1, n + 1);
    } else if sep == " " {
      assert s[n] == ' ';
      SkipSpacesStopsAt(s, n, n + 1);
    } else {
      SkipSpacesStopsAt(s, n, n);
    }
    assert SeparatorThenCar(s, n);
  }

  /** A digit run at the start, then a separator and "car", counts that run. */
  lemma LeadingRunThenCar(s: string, n: nat, sep: string)
    requires 0 < n <= |s| && AllDigits(s[..n])
    requires sep == "-" || sep == " " || sep == ""
    requires n + |sep| <= |s| && s[n..n + |sep|] == sep && CarAt(s, n + |sep|)
    ensures CarCount(Str(s)) == Some(DigitsValue(s[..n]))
  {
    assert IsDigit(s[n - 1]) by { assert s[..n][n - 1] == s[n - 1]; }
    CarFollows(s, n, sep);
    assert !IsDigit(s[n]) by {
      if sep == "" { assert s[n] == s[n + |sep|]; } else { assert s[n] == sep[0]; }
    }
    assert LeftmostRun(s, 0, n) by {
      forall m | 0 <= m < n ensures IsDigit(s[m]) { assert s[..n][m] == s[m]; }
    }
    assert s[0..n] == s[..n];
    CarCountIsLeftmostRun(s, 0, n);
  }

  /** "car" found at the start of a suffix is found at that offset of the whole text. */
  lemma CarAtSuffix(s: string, i: nat)
    requires i <= |s| && CarAt(s[i..], 0)
    ensures CarAt(s, i)
  {
    assert s[i..][0] == s[i] && s[i..][1] == s[i + 1] && s[i..][2] == s[i + 2];
  }

  /** A model code of any number of digits then "-car", " car" or "car" counts that number. */
  lemma MultiDigitCount(digits: string, sep: string, word: string)
    requires |digits| > 0 && AllDigits(digits)
    requires sep == "-" || sep == " " || sep == ""
    requires |word| == 3 && CarAt(word, 0)
    ensures CarCount(Str(digits + sep + word)) == Some(DigitsValue(digits))
  {
    var s := digits + sep + word;
    var n := |digits|;
    assert s[..n] == digits && s[n..n + |sep|] == sep && s[n + |sep|..] == word;
    CarAtSuffix(s, n + |sep|);
    LeadingRunThenCar(s, n, sep);
  }

  /**
   * The capacity pass for one entity (App.jsx:50-57): only an entity whose
   * `capacity == null` is touched, and it gets `cars * 300` when its model parses.
   */
  function WithCapacity(t: Row): (r: Row)
    ensures !IsNullish(Get(t, "capacity")) ==> r == t
    ensures IsNullish(Get(t, "capacity")) && CarCount(Get(t, "model")).Some? ==>
              r == t["capacity" := Num(CarCount(Get(t, "model")).value * SeatsPerCar)]
    ensures CarCount(Get(t, "model")).None? ==> r == t
  {
    if IsNullish(Get(t, "capacity")) then
      match CarCount(Get(t, "model"))
      case Some(cars) => t["capacity" := Num(cars * SeatsPerCar)]
      case None => t
    else t
  }

  /** A one-digit model code "N-car" or "N car", in any case, counts N cars. */
  lemma {:induction false} SingleDigitCount(d: char, sep: string, word: string)
    requires IsDigit(d)
    requires sep == "-" || sep == " " || sep == ""
    requires |word| == 3 && CarAt(word, 0)
    ensures CarCount(Str([d] + sep + word)) == Some(d as int - '0' as int)
  {
    var s := [d] + sep + word;
    var c := |sep| + 1;
    assert s[c..] == word;
    assert CarAt(s, c);
    if sep == "-" {
      SkipSpacesStopsAt(s, 1, 1);
      SkipSpacesStopsAt(s, 2, 2);
    } else {
      SkipSpacesStopsAt(s, 1, c);
    }
    assert SeparatorThenCar(s, 1);
    assert MatchesCarPattern(s);
    assert FirstDigitFrom(s, 0) == 0;
    assert DigitRunEnd(s, 1) == 1;
    assert s[0..1] == [d];
    assert [d][..0] == [];
    assert DigitsValue([d]) == d as int - '0' as int;
    assert FirstDigitRun(s) == Some(d as int - '0' as int);
  }

  /**
   * A train with no capacity and such a one-digit model gets that many cars' seats:
   * "4-car" seats 1200 and "6 Car" seats 1800.
   */
  lemma SingleDigitCapacity(t: Row, d: char, sep: string, word: string)
    requires IsDigit(d)
    requires sep == "-" || sep == " " || sep == ""
    requires |word| == 3 && CarAt(word, 0)
    requires Get(t, "model") == Str([d] + sep + word) && IsNullish(Get(t, "capacity"))
    ensures Get(WithCapacity(t), "capacity") == Num((d as int - '0' as int) * SeatsPerCar)
  {
    SingleDigitCount(d, sep, word);
  }

  /** A model without a digit gives no capacity, and a capacity already there is kept. */
  lemma NoCapacityExamples()
    ensures Get(WithCapacity(map["model" := Str("bogus")]), "capacity") == Undef
    ensures WithCapacity(map["model" := Str("4-car"), "capacity" := Num(7)])
            == map["model" := Str("4-car"), "capacity" := Num(7)]
  {
    var bogus := "bogus";
    assert forall m :: 0 <= m < |bogus| ==> !IsDigit(bogus[m]);
    assert !MatchesCarPattern(bogus);
  }
}
