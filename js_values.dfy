/**
 * The loosely typed JavaScript values that the console's records carry, and the
 * handful of JavaScript coercions and string operations the data engine relies on:
 * truthiness, `== null`, `String(v)`, `Number(v)`, `Array.prototype.join`,
 * `String.prototype.includes` and `toLowerCase`.
 *
 * A record object (a CSV row, a train entity, the parameter record) is a
 * `map<string, Value>`; a key that is absent reads as `undefined`, and a key that is
 * present may also hold `undefined`, exactly as on a JavaScript object.
 * Numbers are integers: the model has no floating point.
 */
module JsValues {

  datatype Option<T> = None | Some(value: T)

  datatype Value =
    | Undef
    | Null
    | Bool(b: bool)
    | Num(n: int)
    | NaN
    | Str(s: string)

  type Row = map<string, Value>

  /** Property access `r.key`: an absent key reads as `undefined`. */
  function Get(r: Row, key: string): (v: Value)
    ensures key !in r ==> v == Undef
    ensures key in r ==> v == r[key]
  {
    if key in r then r[key] else Undef
  }

  /** JavaScript truthiness (`if (v)`, `v || w`, `!v`). */
  predicate Truthy(v: Value) {
    match v
    case Undef => false
    case Null => false
    case Bool(b) => b
    case Num(n) => n != 0
    case NaN => false
    case Str(s) => s != ""
  }

  /** `v == null`: loose equality with null holds for null and undefined only. */
  predicate IsNullish(v: Value) {
    v.Undef? || v.Null?
  }

  predicate IsDigit(c: char) {
    '0' <= c <= '9'
  }

  predicate AllDigits(s: string) {
    forall i :: 0 <= i < |s| ==> IsDigit(s[i])
  }

  function DigitChar(d: nat): (c: char)
    requires d < 10
    ensures IsDigit(c) && c as int - '0' as int == d
  {
    ['0', '1', '2', '3', '4', '5', '6', '7', '8', '9'][d]
  }

  /** The value of a run of decimal digits, most significant first (`parseInt(s, 10)`). */
  function DigitsValue(s: string): nat
    requires AllDigits(s)
  {
    if |s| == 0 then 0
    else DigitsValue(s[..|s| - 1]) * 10 + (s[|s| - 1] as int - '0' as int)
  }

  /** The shortest decimal numeral of `n`, as `String(n)` writes a non-negative integer. */
  function NatToDecimal(n: nat): string {
    if n < 10 then [DigitChar(n)] else NatToDecimal(n / 10) + [DigitChar(n % 10)]
  }

  /**
   * The numeral is a non-empty run of digits, with no leading zero, whose value is `n`.
   * (Kept out of the function's contract so that every `String(v)` does not carry it.)
   */
  lemma {:induction false} NatToDecimalDigits(n: nat)
    ensures |NatToDecimal(n)| > 0 && AllDigits(NatToDecimal(n))
    ensures DigitsValue(NatToDecimal(n)) == n
    ensures |NatToDecimal(n)| > 1 ==> NatToDecimal(n)[0] != '0'
    decreases n
  {
    if n >= 10 {
      NatToDecimalDigits(n / 10);
      var front := NatToDecimal(n / 10);
      var s := front + [DigitChar(n % 10)];
      assert s[..|s| - 1] == front;
    }
  }

  /** `String(n)` for an integer. */
  function IntToDecimal(n: int): string {
    if n >= 0 then NatToDecimal(n) else "-" + NatToDecimal(-n)
  }

  /** `String(v)`: the text a value turns into as an object key or in a template. */
  function ToText(v: Value): string {
    match v
    case Undef => "undefined"
    case Null => "null"
    case Bool(b) => if b then "true" else "false"
    case Num(n) => IntToDecimal(n)
    case NaN => "NaN"
    case Str(s) => s
  }

  /** How `Array.prototype.join` renders one element: null and undefined become empty. */
  function JoinText(v: Value): (t: string)
    ensures IsNullish(v) ==> t == ""
    ensures !IsNullish(v) ==> t == ToText(v)
  {
    if IsNullish(v) then "" else ToText(v)
  }

  /**
   * `Number(v)`, with `None` standing for NaN. A string converts when it is empty (0)
   * or a plain run of decimal digits; every other string is NaN here.
   */
  function ToNumber(v: Value): (r: Option<int>)
    ensures v.Num? ==> r == Some(v.n)
    ensures v.Undef? || v.NaN? ==> r == None
    ensures v.Null? ==> r == Some(0)
  {
    match v
    case Undef => None
    case Null => Some(0)
    case Bool(b) => Some(if b then 1 else 0)
    case Num(n) => Some(n)
    case NaN => None
    case Str(s) => if AllDigits(s) then Some(DigitsValue(s)) else None
  }

  /** `parts.join(sep)`. */
  function Join(parts: seq<string>, sep: string): string {
    if |parts| == 0 then ""
    else if |parts| == 1 then parts[0]
    else parts[0] + sep + Join(parts[1..], sep)
  }

  predicate OccursAt(s: string, needle: string, i: int) {
    0 <= i && i + |needle| <= |s| && s[i..i + |needle|] == needle
  }

  /** `s.includes(needle)`. */
  predicate Contains(s: string, needle: string) {
    exists i :: 0 <= i <= |s| && OccursAt(s, needle, i)
  }

  function LowerChar(c: char): char {
    if 'A' <= c <= 'Z' then (c as int - 'A' as int + 'a' as int) as char else c
  }

  /** `s.toLowerCase()` on ASCII letters; every other character is kept as it is. */
  function Lower(s: string): (r: string)
    ensures |r| == |s|
    ensures forall i :: 0 <= i < |s| ==> r[i] == LowerChar(s[i])
  {
    seq(|s|, i requires 0 <= i < |s| => LowerChar(s[i]))
  }

  /** A needle found inside a longer needle is found wherever the longer one is. */
  lemma {:induction false} ContainsInner(s: string, outer: string, inner: string, offset: nat)
    requires offset + |inner| <= |outer|
    requires outer[offset..offset + |inner|] == inner
    requires Contains(s, outer)
    ensures Contains(s, inner)
  {
    var i :| 0 <= i <= |s| && OccursAt(s, outer, i);
    forall j | 0 <= j < |inner|
      ensures s[i + offset..i + offset + |inner|][j] == inner[j]
    {
      assert inner[j] == outer[offset + j] == s[i..i + |outer|][offset + j];
    }
    assert OccursAt(s, inner, i + offset);
  }
}
