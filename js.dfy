/** The parts of JavaScript's value semantics the pages rely on: `Number(string)`,
    `String(integer)`, truthiness, `typeof` and property lookup on parsed JSON values. */
module Js {
  import opened Wrappers
  import opened Text

  /** A JavaScript number as the pages use it: NaN, or a finite value. */
  datatype JsNumber = NaN | Num(value: real)

  /** A number is falsy when it is NaN or zero. */
  predicate NumTruthy(n: JsNumber) {
    n.Num? && n.value != 0.0
  }

  /** `Number(x) || 0`. */
  function OrZero(n: JsNumber): (r: real)
    ensures NumTruthy(n) ==> r == n.value
    ensures !NumTruthy(n) ==> r == 0.0
  {
    if NumTruthy(n) then n.value else 0.0
  }

  /** `a > b` on numbers: false whenever either side is NaN. */
  predicate Greater(a: JsNumber, b: JsNumber) {
    a.Num? && b.Num? && a.value > b.value
  }

  predicate IsDigit(c: char) {
    '0' <= c <= '9'
  }

  predicate AllDigits(s: string) {
    forall i :: 0 <= i < |s| ==> IsDigit(s[i])
  }

  /** The value of a string of decimal digits, most significant first. */
  function DigitsValue(s: string): nat
    requires AllDigits(s)
  {
    if s == [] then 0 else DigitsValue(s[..|s| - 1]) * 10 + (s[|s| - 1] as int - '0' as int)
  }

  function Pow10(k: nat): (r: nat)
    ensures r >= 1
  {
    if k == 0 then 1 else 10 * Pow10(k - 1)
  }

  /** An unsigned decimal literal: digits, optionally a point and more digits, with at least
      one digit in all. */
  function ParseUnsigned(u: string): JsNumber {
    var i := if '.' in u then FirstIndex(u, '.') else |u|;
    var whole := u[..i];
    var frac := if i < |u| then u[i + 1..] else "";
    if AllDigits(whole) && AllDigits(frac) && |whole| + |frac| > 0 then
      Num(DigitsValue(whole) as real + DigitsValue(frac) as real / Pow10(|frac|) as real)
    else NaN
  }

  function Negate(n: JsNumber): JsNumber {
    match n
    case NaN => NaN
    case Num(v) => Num(-v)
  }

  /** `Number(s)` for a string: white space around the literal is ignored, a blank string is
      zero, an optional sign may precede an unsigned decimal literal, anything else is NaN. */
  function ToNumber(s: string): JsNumber {
    var t := Trim(s);
    if t == [] then Num(0.0)
    else if t[0] == '-' then Negate(ParseUnsigned(t[1..]))
    else if t[0] == '+' then ParseUnsigned(t[1..])
    else ParseUnsigned(t)
  }

  /** An empty or blank input becomes 0, not NaN. */
  lemma BlankIsZero(s: string)
    requires AllWhitespace(s)
    ensures ToNumber(s) == Num(0.0)
  {
    TrimEmptyIff(s);
  }

  /** The decimal digits of a natural number. */
  function NatDigits(n: nat): (r: string)
    ensures |r| >= 1 && AllDigits(r)
  {
    if n < 10 then [('0' as int + n) as char]
    else NatDigits(n / 10) + [('0' as int + n % 10) as char]
  }

  lemma {:induction false} NatDigitsValue(n: nat)
    ensures DigitsValue(NatDigits(n)) == n
  {
    if n >= 10 {
      var d := NatDigits(n / 10);
      var r := NatDigits(n);
      assert r[..|r| - 1] == d;
      NatDigitsValue(n / 10);
    }
  }

  /** `String(n)` for an integer-valued number. */
  function IntToString(n: int): (r: string)
    ensures |r| >= 1
  {
    if n < 0 then "-" + NatDigits(-n) else NatDigits(n)
  }

  /** A digit string parses as its value. */
  lemma ParseDigits(d: string)
    requires |d| >= 1 && AllDigits(d)
    ensures ParseUnsigned(d) == Num(DigitsValue(d) as real)
  {
    forall i | 0 <= i < |d| ensures d[i] != '.' {
      DigitIsPlain(d[i]);
    }
    assert d[..|d|] == d;
  }

  /** A string already trimmed and without a sign is read as an unsigned literal. */
  lemma ToNumberUnsigned(s: string)
    requires Trimmed(s) && s != [] && s[0] != '-' && s[0] != '+'
    ensures ToNumber(s) == ParseUnsigned(s)
  {
    TrimOfTrimmed(s);
  }

  /** A string already trimmed and starting with a minus sign is read as a negated literal. */
  lemma ToNumberNegative(s: string)
    requires Trimmed(s) && s != [] && s[0] == '-'
    ensures ToNumber(s) == Negate(ParseUnsigned(s[1..]))
  {
    TrimOfTrimmed(s);
  }

  /** A digit is neither a sign, a point nor white space. */
  lemma DigitIsPlain(c: char)
    requires IsDigit(c)
    ensures c != '-' && c != '+' && c != '.' && !IsWhitespace(c)
  {
  }

  /** A digit string is read as its value. */
  lemma NumberOfDigits(d: string)
    requires |d| >= 1 && AllDigits(d)
    ensures ToNumber(d) == Num(DigitsValue(d) as real)
  {
    DigitIsPlain(d[0]);
    DigitIsPlain(d[|d| - 1]);
    ToNumberUnsigned(d);
    ParseDigits(d);
  }

  /** A minus sign followed by a digit string is read as the negated value. */
  lemma NumberOfNegatedDigits(d: string)
    requires |d| >= 1 && AllDigits(d)
    ensures ToNumber("-" + d) == Num(-(DigitsValue(d) as real))
  {
    var m := "-" + d;
    DigitIsPlain(d[|d| - 1]);
    assert m[0] == '-' && m[|m| - 1] == d[|d| - 1];
    assert m[1..] == d;
    ToNumberNegative(m);
    ParseDigits(d);
  }

  /** `Number(String(n)) == n`: converting an integer to its decimal text and parsing it back
      gives the same number. */
  lemma NumberOfString(n: int)
    ensures ToNumber(IntToString(n)) == Num(n as real)
  {
    var m := if n < 0 then -n else n;
    NatDigitsValue(m);
    if n < 0 {
      NumberOfNegatedDigits(NatDigits(m));
    } else {
      NumberOfDigits(NatDigits(m));
    }
  }

  /** A named property of a JavaScript object, in key order. */
  datatype Property = Property(key: string, value: JsValue)

  /** A JavaScript value as JSON produces it, plus `undefined`. An object is its list of
      properties in the order `Object.keys` reports them; objects JSON produces have each key
      at most once (`DistinctKeys`). */
  datatype JsValue =
    | Undefined
    | Null
    | Bool(b: bool)
    | Number(n: JsNumber)
    | Str(s: string)
    | Array(elems: seq<JsValue>)
    | Object(props: seq<Property>)

  /** `typeof v === 'object'`: true of null, arrays and objects. */
  predicate IsTypeofObject(v: JsValue) {
    v.Null? || v.Array? || v.Object?
  }

  /** JavaScript truthiness. */
  predicate Truthy(v: JsValue) {
    match v
    case Undefined => false
    case Null => false
    case Bool(b) => b
    case Number(n) => NumTruthy(n)
    case Str(s) => s != []
    case Array(_) => true
    case Object(_) => true
  }

  /** `v ?? d`. */
  function OrElse(v: JsValue, d: JsValue): (r: JsValue)
    ensures v.Undefined? || v.Null? ==> r == d
    ensures !(v.Undefined? || v.Null?) ==> r == v
  {
    if v.Undefined? || v.Null? then d else v
  }

  /** The value stored under `key` in a list of properties, `undefined` when absent. */
  function Lookup(props: seq<Property>, key: string): (r: JsValue)
    ensures (forall i :: 0 <= i < |props| ==> props[i].key != key) ==> r == Undefined
    ensures forall i :: (0 <= i < |props| && props[i].key == key
      && (forall j :: 0 <= j < i ==> props[j].key != key)) ==> r == props[i].value
  {
    if props == [] then Undefined
    else if props[0].key == key then props[0].value
    else Lookup(props[1..], key)
  }

  /** `v[key]` on a value that is not null or undefined: own properties of an object, and
      `undefined` for any property the model does not give other values. */
  function Get(v: JsValue, key: string): JsValue
    requires !v.Undefined? && !v.Null?
  {
    if v.Object? then Lookup(v.props, key) else Undefined
  }

  /** No key occurs twice among the properties, as in every JavaScript object. */
  predicate DistinctKeys(props: seq<Property>) {
    forall i, j :: 0 <= i < j < |props| ==> props[i].key != props[j].key
  }

  /** `Object.keys(o)`. */
  function Keys(props: seq<Property>): (r: seq<string>)
    ensures |r| == |props|
    ensures forall i :: 0 <= i < |props| ==> r[i] == props[i].key
  {
    if props == [] then [] else [props[0].key] + Keys(props[1..])
  }

  /** `xs.find(p)`: the first element satisfying `p`, if any. */
  function Find<T>(xs: seq<T>, p: T -> bool): (r: Option<T>)
    ensures r.None? <==> forall i :: 0 <= i < |xs| ==> !p(xs[i])
    ensures r.Some? ==>
      exists i :: 0 <= i < |xs| && xs[i] == r.value && p(xs[i]) && forall j :: 0 <= j < i ==> !p(xs[j])
  {
    if xs == [] then None
    else if p(xs[0]) then Some(xs[0])
    else
      var r := Find(xs[1..], p);
      assert forall i :: 1 <= i < |xs| ==> xs[i] == xs[1..][i - 1];
      r
  }
}
