/** The slice of JavaScript's value semantics the pipeline relies on: the
    loosely typed tree a parser or a JSON API hands back, numbers that may be
    NaN, thrown exceptions, property access with and without optional chaining,
    truthiness, `typeof`, string conversion and numeric conversion. */
module Js {
  import opened Strings

  datatype Option<+T> = None | Some(value: T)

  /** A parsed document or API response. Numbers are exact; a parser never
      produces NaN, so it has no place here. */
  datatype Json =
    | JUndef
    | JNull
    | JBool(b: bool)
    | JNum(n: real)
    | JStr(s: string)
    | JArr(items: seq<Json>)
    | JObj(fields: map<string, Json>)

  /** A JavaScript number as arithmetic produces it: NaN or a finite value. */
  datatype Num = NaN | Fin(value: real)

  datatype JsError = TypeError | AssertionError | Error(message: string)

  /** The completion of an expression or call: a value, or a thrown error. */
  datatype Completion<+T> = Normal(value: T) | Throw(error: JsError)

  /** `v == undefined` (loose equality: also true of null). */
  predicate IsNullish(v: Json) { v.JUndef? || v.JNull? }

  /** `v?.key`, and also `v.key` on a value that is not nullish: the member of
      an object, `undefined` for a missing member or a non-object. */
  function Member(v: Json, key: string): (r: Json)
    ensures r != JUndef ==> v.JObj? && key in v.fields && r == v.fields[key]
    ensures v.JObj? && key in v.fields ==> r == v.fields[key]
  {
    match v
    case JObj(m) => if key in m then m[key] else JUndef
    case _ => JUndef
  }

  /** `v.key` without optional chaining: a TypeError when `v` is null or
      undefined, otherwise the member `v?.key` reads. */
  function StrictMember(v: Json, key: string): (r: Completion<Json>)
    ensures r.Throw? <==> IsNullish(v)
    ensures r.Normal? ==> r.value == Member(v, key)
  {
    if IsNullish(v) then Throw(TypeError) else Normal(Member(v, key))
  }

  /** `Object.keys(v)`, as a set: a TypeError when `v` is null or undefined,
      the field names of an object, the indices of an array or a string, and
      nothing for a number or a boolean. */
  function ObjectKeys(v: Json): (r: Completion<set<string>>)
    ensures r.Throw? <==> IsNullish(v)
    ensures v.JObj? ==> r == Normal(v.fields.Keys)
  {
    match v
    case JUndef => Throw(TypeError)
    case JNull => Throw(TypeError)
    case JObj(m) => Normal(m.Keys)
    case JArr(items) => Normal(set i | 0 <= i < |items| :: NatToString(i))
    case JStr(s) => Normal(set i | 0 <= i < |s| :: NatToString(i))
    case _ => Normal({})
  }

  /** `v?.k1?.k2?...`: a chain of optional member accesses. */
  function Path(v: Json, keys: seq<string>): Json
    decreases |keys|
  {
    if keys == [] then v else Path(Member(v, keys[0]), keys[1..])
  }

  predicate Truthy(v: Json)
  {
    match v
    case JUndef => false
    case JNull => false
    case JBool(b) => b
    case JNum(n) => n != 0.0
    case JStr(s) => s != ""
    case _ => true
  }

  /** `a || b`. */
  function Or(a: Json, b: Json): (r: Json)
    ensures Truthy(a) ==> r == a
    ensures !Truthy(a) ==> r == b
  {
    if Truthy(a) then a else b
  }

  /** The `typeof` operator. */
  function TypeOf(v: Json): string
  {
    match v
    case JUndef => "undefined"
    case JBool(_) => "boolean"
    case JNum(_) => "number"
    case JStr(_) => "string"
    case _ => "object"
  }

  /** Digits after the decimal point of a fraction, at most `limit` of them,
      without trailing zeros. */
  function FractionDigits(f: real, limit: nat): string
    requires 0.0 <= f < 1.0
    decreases limit
  {
    if limit == 0 || f == 0.0 then ""
    else
      var d := (f * 10.0).Floor;
      [DigitChar(d)] + FractionDigits(f * 10.0 - d as real, limit - 1)
  }

  /** `String(x)` for a finite number: integers print exactly; other values
      print their decimal expansion up to 20 fraction digits. */
  function NumberToString(r: real): string
  {
    if r.Floor as real == r then IntToString(r.Floor)
    else
      var a := if r < 0.0 then -r else r;
      (if r < 0.0 then "-" else "") + NatToString(a.Floor) + "." + FractionDigits(a - a.Floor as real, 20)
  }

  /** `String(v)`, which is also what a template literal `${v}` inserts. */
  function ToStr(v: Json): string
    decreases v
  {
    match v
    case JUndef => "undefined"
    case JNull => "null"
    case JBool(b) => if b then "true" else "false"
    case JNum(n) => NumberToString(n)
    case JStr(s) => s
    case JArr(items) =>
      Join(seq(|items|, i requires 0 <= i < |items| =>
                 if IsNullish(items[i]) then "" else ToStr(items[i])), ",")
    case JObj(_) => "[object Object]"
  }

  /** What the longest numeral at the front of a string reads as:
      an optional sign, integer digits, an optional point and fraction digits. */
  datatype Numeral = Numeral(value: real, length: nat, hasDigits: bool)

  function DigitRun(s: string): (d: string)
    ensures d <= s && AllDigits(d)
    ensures |d| < |s| ==> !IsDigit(s[|d|])
  {
    if s != [] && IsDigit(s[0]) then [s[0]] + DigitRun(s[1..]) else []
  }

  function ScanNumeral(t: string): (n: Numeral)
    ensures n.length <= |t|
  {
    var signLen := if |t| > 0 && (t[0] == '-' || t[0] == '+') then 1 else 0;
    var intDigits := DigitRun(t[signLen..]);
    var rest := t[signLen + |intDigits|..];
    var hasPoint := |rest| > 0 && rest[0] == '.';
    var fracDigits := if hasPoint then DigitRun(rest[1..]) else "";
    var magnitude := DigitsValue(intDigits) as real
                     + DigitsValue(fracDigits) as real / Pow10(|fracDigits|) as real;
    Numeral(if signLen == 1 && t[0] == '-' then -magnitude else magnitude,
            signLen + |intDigits| + (if hasPoint then 1 else 0) + |fracDigits|,
            intDigits != [] || fracDigits != [])
  }

  /** `Number(s)`: surrounding whitespace ignored, the empty string is 0, the
      rest must be one numeral. */
  function StringToNumber(s: string): Num
  {
    var t := TrimEnd(TrimStart(s));
    if t == [] then Fin(0.0)
    else
      var n := ScanNumeral(t);
      if n.hasDigits && n.length == |t| then Fin(n.value) else NaN
  }

  /** `parseFloat(s)`: leading whitespace ignored, the longest numeral at the
      front is read, anything after it is ignored. */
  function ParseFloat(s: string): Num
  {
    var n := ScanNumeral(TrimStart(s));
    if n.hasDigits then Fin(n.value) else NaN
  }

  /** `Number(v)`, and the conversion `*` applies to its operands. */
  function ToNumber(v: Json): Num
  {
    match v
    case JUndef => NaN
    case JNull => Fin(0.0)
    case JBool(b) => Fin(if b then 1.0 else 0.0)
    case JNum(n) => Fin(n)
    case JStr(s) => StringToNumber(s)
    case JArr(_) => StringToNumber(ToStr(v))
    case JObj(_) => NaN
  }

  /** A digit string reads back as the number it spells. */
  lemma {:induction false} ParseFloatDigits(s: string)
    requires s != [] && AllDigits(s)
    ensures ParseFloat(s) == Fin(DigitsValue(s) as real)
  {
    assert !IsJsWhitespace(s[0]);
    assert TrimStart(s) == s;
    DigitRunAll(s);
    var n := ScanNumeral(s);
    assert s[0] != '-' && s[0] != '+';
    assert s[0..] == s;
    assert DigitRun(s[0..]) == s;
    assert s[|s|..] == [];
    assert n.hasDigits;
    assert n.value == DigitsValue(s) as real + DigitsValue("") as real / Pow10(0) as real;
  }

  /** `Number(s)` of a digit string is the number it spells. */
  lemma {:induction false} StringToNumberDigits(s: string)
    requires s != [] && AllDigits(s)
    ensures StringToNumber(s) == Fin(DigitsValue(s) as real)
  {
    assert !IsJsWhitespace(s[0]) && !IsJsWhitespace(s[|s| - 1]);
    assert TrimStart(s) == s;
    assert TrimEnd(s) == s;
    ParseFloatDigits(s);
    var n := ScanNumeral(s);
    assert n.length == |s|;
  }

  /** `Number('0')` is zero. */
  lemma ZeroText()
    ensures ToNumber(JStr("0")) == Fin(0.0)
  {
    assert AllDigits("0");
    StringToNumberDigits("0");
    assert DigitsValue("0") == 0;
  }

  lemma {:induction false} DigitRunAll(s: string)
    requires AllDigits(s)
    ensures DigitRun(s) == s
  {
    if s != [] {
      DigitRunAll(s[1..]);
    }
  }

  /** `Math.ceil`. */
  function Ceil(x: real): (c: int)
    ensures x <= c as real < x + 1.0
  {
    -((-x).Floor)
  }
}
