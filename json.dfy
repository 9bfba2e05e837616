/**
 * JSON values as the application sees them after `JSON.parse`, JavaScript's
 * `undefined`, truthiness, nullish coalescing, property reads, and the
 * `Number(...)` conversion (ECMA-262, sections 7.1.4 and 7.1.4.1).
 * Numbers are exact reals: IEEE rounding and overflow are not modelled.
 */
module Json {
  import opened Wrappers
  import JsText

  datatype Json =
    | JNull
    | JBool(b: bool)
    | JNum(n: real)
    | JStr(s: string)
    | JArr(items: seq<Json>)
    | JObj(fields: map<string, Json>)

  /** A JavaScript value that is either `undefined` or a JSON value. */
  datatype JsVal = Undefined | Defined(value: Json)

  /** JavaScript truthiness: `null`, `false`, `0`, `""` and `undefined` are falsy. */
  predicate Truthy(v: JsVal) {
    match v
    case Undefined => false
    case Defined(j) =>
      match j
      case JNull => false
      case JBool(b) => b
      case JNum(n) => n != 0.0
      case JStr(s) => s != []
      case _ => true
  }

  /** `null` or `undefined`, the values `??` and `?.` react to. */
  predicate Nullish(v: JsVal) {
    v == Undefined || v == Defined(JNull)
  }

  /** `a ?? b`. */
  function Coalesce(a: JsVal, b: Json): (r: Json)
    ensures Nullish(a) ==> r == b
    ensures !Nullish(a) ==> Defined(r) == a
  {
    if Nullish(a) then b else a.value
  }

  /**
   * `v?.key`: `undefined` on a nullish value; on other values that are not
   * objects the application only reads names no primitive or array carries,
   * so the read gives `undefined` too.
   */
  function Prop(v: JsVal, key: string): (r: JsVal)
    ensures !(v.Defined? && v.value.JObj?) ==> r == Undefined
    ensures v.Defined? && v.value.JObj? && key in v.value.fields ==> r == Defined(v.value.fields[key])
  {
    if v.Defined? && v.value.JObj? && key in v.value.fields then Defined(v.value.fields[key]) else Undefined
  }

  /** An object literal with string-valued fields, written in order. */
  function Obj1(k: string, v: Json): Json {
    JObj(map[k := v])
  }

  function ErrorBody(message: string): (j: Json)
    ensures Prop(Defined(j), "error") == Defined(JStr(message))
  {
    Obj1("error", JStr(message))
  }

  /** A JavaScript number. */
  datatype Num = NaN | PosInf | NegInf | Finite(r: real)

  /** `Number.isFinite`. */
  predicate IsFinite(x: Num) {
    x.Finite?
  }

  function Pow10(k: nat): (p: real)
    ensures p >= 1.0
  {
    if k == 0 then 1.0 else 10.0 * Pow10(k - 1)
  }

  /** `m * 10^e` for a possibly negative exponent. */
  function Scale(m: real, e: int): real {
    if e >= 0 then m * Pow10(e) else m / Pow10(-e)
  }

  predicate AllDigits(s: string) {
    forall i :: 0 <= i < |s| ==> JsText.IsAsciiDigit(s[i])
  }

  /** The value of a digit in base 2, 8 or 16, or -1. */
  function RadixDigit(c: char, base: nat): (d: int)
    requires base == 2 || base == 8 || base == 16
    ensures -1 <= d < base as int
  {
    var v :=
      if '0' <= c <= '9' then c as int - '0' as int
      else if 'a' <= c <= 'f' then c as int - 'a' as int + 10
      else if 'A' <= c <= 'F' then c as int - 'A' as int + 10
      else -1;
    if v < base as int then v else -1
  }

  predicate AllRadixDigits(s: string, base: nat)
    requires base == 2 || base == 8 || base == 16
  {
    forall i :: 0 <= i < |s| ==> RadixDigit(s[i], base) >= 0
  }

  function RadixValue(s: string, base: nat): nat
    requires base == 2 || base == 8 || base == 16
    requires AllRadixDigits(s, base)
  {
    if s == [] then 0 else RadixValue(s[..|s| - 1], base) * base + RadixDigit(s[|s| - 1], base)
  }

  /** The index of the first `e` or `E`, or `|s|`. */
  function ExponentMark(s: string): (k: nat)
    ensures k <= |s|
    ensures forall i :: 0 <= i < k ==> s[i] != 'e' && s[i] != 'E'
    ensures k < |s| ==> s[k] == 'e' || s[k] == 'E'
  {
    if s == [] then 0
    else if s[0] == 'e' || s[0] == 'E' then 0
    else 1 + ExponentMark(s[1..])
  }

  /** The index of the first `.`, or `|s|`. */
  function DotMark(s: string): (k: nat)
    ensures k <= |s|
    ensures forall i :: 0 <= i < k ==> s[i] != '.'
    ensures k < |s| ==> s[k] == '.'
  {
    if s == [] then 0
    else if s[0] == '.' then 0
    else 1 + DotMark(s[1..])
  }

  /** An optionally signed run of at least one decimal digit (an ExponentPart without its `e`). */
  function SignedInteger(s: string): (r: Option<int>)
  {
    var neg := s != [] && s[0] == '-';
    var body := if s != [] && (s[0] == '+' || s[0] == '-') then s[1..] else s;
    if body != [] && AllDigits(body) then
      var v := JsText.DigitsValue(body) as int;
      Some(if neg then -v else v)
    else None
  }

  /**
   * StrUnsignedDecimalLiteral without `Infinity`: `digits`, `digits.`,
   * `digits.digits`, `.digits`, each with an optional exponent.
   */
  function UnsignedDecimal(s: string): Option<real>
  {
    var k := ExponentMark(s);
    var mantissa := s[..k];
    var exponent := if k < |s| then SignedInteger(s[k + 1..]) else Some(0);
    var d := DotMark(mantissa);
    var whole := mantissa[..d];
    var frac := if d < |mantissa| then mantissa[d + 1..] else [];
    if exponent.None? || !AllDigits(whole) || !AllDigits(frac) || (whole == [] && frac == []) then None
    else
      var m := JsText.DigitsValue(whole) as real + JsText.DigitsValue(frac) as real / Pow10(|frac|);
      Some(Scale(m, exponent.value))
  }

  /** StringToNumber (ECMA-262, section 7.1.4.1.1): anything outside the grammar is NaN. */
  function StringToNumber(s: string): (x: Num)
    ensures JsText.Trim(s) == [] ==> x == Finite(0.0)
  {
    var t := JsText.Trim(s);
    if t == [] then Finite(0.0) else LiteralToNumber(t)
  }

  /** The base a `0x`, `0o` or `0b` prefix announces, or 0 when there is none. */
  function RadixPrefix(t: string): (base: nat)
    ensures base == 0 || base == 2 || base == 8 || base == 16
  {
    if |t| < 3 || t[0] != '0' then 0
    else if t[1] == 'x' || t[1] == 'X' then 16
    else if t[1] == 'o' || t[1] == 'O' then 8
    else if t[1] == 'b' || t[1] == 'B' then 2
    else 0
  }

  /** A non-empty trimmed StrNumericLiteral. */
  function LiteralToNumber(t: string): (x: Num)
    requires t != []
  {
    if t == "Infinity" || t == "+Infinity" then PosInf
    else if t == "-Infinity" then NegInf
    else if RadixPrefix(t) != 0 then
      var base := RadixPrefix(t);
      if AllRadixDigits(t[2..], base) then Finite(RadixValue(t[2..], base) as real) else NaN
    else
      var neg := t[0] == '-';
      var u := if t[0] == '+' || t[0] == '-' then t[1..] else t;
      match UnsignedDecimal(u)
      case None => NaN
      case Some(v) => Finite(if neg then -v else v)
  }

  /**
   * `Number(v)` (ECMA-262, section 7.1.4). An array converts through its
   * string form: the empty array is `""`, so 0; a one-element array is the
   * string of that element (`null` inside an array prints as `""`, `true` as
   * `"true"`, a number as a string that reads back as the same number);
   * two or more elements always print with a `,`, which no numeric literal
   * contains. An object prints as `"[object Object]"`.
   */
  function ToNumber(v: JsVal): (x: Num)
  {
    match v
    case Undefined => NaN
    case Defined(j) =>
      match j
      case JNull => Finite(0.0)
      case JBool(b) => Finite(if b then 1.0 else 0.0)
      case JNum(n) => Finite(n)
      case JStr(s) => StringToNumber(s)
      case JArr(items) => ArrayToNumber(items)
      case JObj(_) => NaN
  }

  function ArrayToNumber(items: seq<Json>): Num
    decreases JArr(items), 0
  {
    if items == [] then Finite(0.0)
    else if |items| > 1 then NaN
    else
      match items[0]
      case JNull => Finite(0.0)
      case JBool(_) => NaN
      case JNum(n) => Finite(n)
      case JStr(s) => StringToNumber(s)
      case JArr(inner) => ArrayToNumber(inner)
      case JObj(_) => NaN
  }

  /** A one-element array converts like its element, except that a boolean inside an array reads as NaN. */
  lemma SingletonArrayNumber(x: Json)
    requires !x.JBool?
    ensures ToNumber(Defined(JArr([x]))) == ToNumber(Defined(x))
  {
  }

  /** A plain run of digits reads as its decimal value. */
  lemma UnsignedOfDigits(s: string)
    requires s != [] && AllDigits(s)
    ensures UnsignedDecimal(s) == Some(JsText.DigitsValue(s) as real)
  {
    NoMarks(s);
    assert s[..|s|] == s;
  }

  /** A run of decimal digits, with nothing around it, reads as its value. */
  lemma NumberOfDigits(s: string)
    requires s != [] && AllDigits(s)
    ensures StringToNumber(s) == Finite(JsText.DigitsValue(s) as real)
  {
    JsText.TrimOfNoSpace(s);
    assert JsText.IsAsciiDigit(s[0]);
    assert s != "Infinity" && s != "+Infinity" && s != "-Infinity";
    assert RadixPrefix(s) == 0 by {
      assert |s| > 2 ==> JsText.IsAsciiDigit(s[1]);
    }
    UnsignedOfDigits(s);
  }

  /** The decimal rendering of a natural number reads back as that number. */
  lemma NumberOfDecimal(n: nat)
    ensures StringToNumber(JsText.Decimal(n)) == Finite(n as real)
  {
    NumberOfDigits(JsText.Decimal(n));
    JsText.DecimalRoundTrip(n);
  }

  lemma {:induction false} NoMarks(s: string)
    requires AllDigits(s)
    ensures ExponentMark(s) == |s| && DotMark(s) == |s|
  {
    if s != [] {
      NoMarks(s[1..]);
    }
  }
}
