/**
 * Untyped JavaScript values as they come out of `JSON.parse`, and the
 * language rules the shelter code applies to them: truthiness, property
 * access, `||`, `typeof`, `Number(v)` and `String(v)`.
 */
module Json {
  import opened Wrappers
  import opened Text

  /**
   * A JavaScript value reachable from parsed JSON. Numbers are finite: JSON
   * has no NaN or Infinity, so NaN only appears as the result of a coercion.
   */
  datatype JValue =
    | JUndefined
    | JNull
    | JBool(b: bool)
    | JNum(n: real)
    | JStr(s: string)
    | JArr(items: seq<JValue>)
    | JObj(fields: map<string, JValue>)

  /** JavaScript truthiness: `undefined`, `null`, `false`, `0` and `""` are falsy. */
  predicate Truthy(v: JValue)
  {
    match v
    case JUndefined => false
    case JNull => false
    case JBool(b) => b
    case JNum(n) => n != 0.0
    case JStr(s) => s != ""
    case JArr(_) => true
    case JObj(_) => true
  }

  /** `v[key]` on a value that is not `null`/`undefined`: own property or `undefined`. */
  function Get(v: JValue, key: string): (r: JValue)
    ensures v.JObj? && key in v.fields ==> r == v.fields[key]
    ensures !(v.JObj? && key in v.fields) ==> r == JUndefined
  {
    match v
    case JObj(m) => if key in m then m[key] else JUndefined
    case _ => JUndefined
  }

  /** `a || b`. */
  function Or(a: JValue, b: JValue): (r: JValue)
    ensures Truthy(a) ==> r == a
    ensures !Truthy(a) ==> r == b
  {
    if Truthy(a) then a else b
  }

  predicate IsNumber(v: JValue) { v.JNum? }   // typeof v === 'number'
  predicate IsString(v: JValue) { v.JStr? }   // typeof v === 'string'
  predicate IsArray(v: JValue) { v.JArr? }    // Array.isArray(v)
  predicate IsObject(v: JValue) { v.JNull? || v.JArr? || v.JObj? }  // typeof v === 'object'

  // ---------- Number(v) ----------

  /** The value of a string of decimal digits read as a fraction `0.d1d2...`. */
  function FractionValue(s: string): (r: real)
    requires AllDigits(s)
    ensures 0.0 <= r <= 1.0
  {
    if s == [] then 0.0 else (DigitValue(s[0]) as real + FractionValue(s[1..])) / 10.0
  }

  function IndexOf(s: string, c: char): (r: Option<nat>)
    ensures r.Some? ==> r.value < |s| && s[r.value] == c && c !in s[..r.value]
    ensures r.None? ==> c !in s
  {
    if s == [] then None
    else if s[0] == c then Some(0)
    else match IndexOf(s[1..], c)
      case Some(i) => assert s[..i + 1] == [s[0]] + s[1..][..i]; Some(i + 1)
      case None => None
  }

  /**
   * A decimal literal: optional sign, digits, optional `.` and digits, at
   * least one digit in all. None stands for NaN.
   */
  function ParseDecimal(t: string): Option<real>
  {
    var neg := |t| > 0 && t[0] == '-';
    var body := if |t| > 0 && (t[0] == '-' || t[0] == '+') then t[1..] else t;
    var dot := IndexOf(body, '.');
    var whole := if dot.Some? then body[..dot.value] else body;
    var fraction := if dot.Some? then body[dot.value + 1..] else "";
    if AllDigits(whole) && AllDigits(fraction) && |whole| + |fraction| > 0 then
      var magnitude := DigitsValue(whole) as real + FractionValue(fraction);
      Some(if neg then -magnitude else magnitude)
    else None
  }

  /** `Number(s)` for a string: surrounding spaces ignored, blank is 0, otherwise a decimal literal. */
  function StringToNumber(s: string): Option<real>
  {
    var t := Trim(s);
    if t == "" then Some(0.0) else ParseDecimal(t)
  }

  /**
   * `Number(v)`; None is NaN. An array converts through its text, the
   * items joined by commas, so `[]` is 0 and `[x]` is `Number(String(x))`;
   * any other object's text is "[object Object]", which is NaN.
   */
  function ToNumber(v: JValue): Option<real>
  {
    match v
    case JUndefined => None
    case JNull => Some(0.0)
    case JBool(b) => Some(if b then 1.0 else 0.0)
    case JNum(n) => Some(n)
    case JStr(s) => StringToNumber(s)
    case JArr(items) => StringToNumber(JoinItems(items))
    case JObj(_) => None
  }

  /** An empty array is the number 0, and a one-item array is the number its text spells. */
  lemma ArrayNumber(x: JValue)
    ensures ToNumber(JArr([])) == Some(0.0)
    ensures !x.JNull? && !x.JUndefined? ==> ToNumber(JArr([x])) == StringToNumber(ToStr(x))
  {
    assert JoinItems([]) == "";
    if !x.JNull? && !x.JUndefined? {
      assert JoinItems([x]) == ToStr(x);
    }
  }

  // ---------- String(v) ----------

  /** Up to `digits` decimal places of a fraction in [0, 1), stopping once it is exhausted. */
  function FractionDigits(f: real, digits: nat): string
    requires 0.0 <= f < 1.0
    decreases digits
  {
    if f == 0.0 || digits == 0 then ""
    else
      var d := (f * 10.0).Floor;
      [DigitChar(d)] + FractionDigits(f * 10.0 - d as real, digits - 1)
  }

  /** `String(n)` for a finite number: integers exactly, other numbers to at most 20 places. */
  function NumberText(n: real): string
  {
    var m := if n < 0.0 then -n else n;
    var whole := m.Floor;
    var digits := NatToString(whole) +
      (if m == whole as real then "" else "." + FractionDigits(m - whole as real, 20));
    if n < 0.0 then "-" + digits else digits
  }

  /** `String(v)`. */
  function ToStr(v: JValue): string
  {
    match v
    case JUndefined => "undefined"
    case JNull => "null"
    case JBool(b) => if b then "true" else "false"
    case JNum(n) => NumberText(n)
    case JStr(s) => s
    case JArr(items) => JoinItems(items)
    case JObj(_) => "[object Object]"
  }

  /** `items.join(",")`, where `null` and `undefined` items print as empty. */
  function JoinItems(items: seq<JValue>): string
  {
    if items == [] then ""
    else
      var first := if items[0].JNull? || items[0].JUndefined? then "" else ToStr(items[0]);
      if |items| == 1 then first else first + "," + JoinItems(items[1..])
  }

  /** A plain or negated digit string parses to its value. */
  lemma {:induction false} ParseDigits(d: string)
    requires d != [] && AllDigits(d)
    ensures ParseDecimal(d) == Some(DigitsValue(d) as real)
    ensures ParseDecimal("-" + d) == Some(-(DigitsValue(d) as real))
  {
    assert IndexOf(d, '.') == None;
    assert !(d[0] == '-' || d[0] == '+');
    var t := "-" + d;
    assert t[1..] == d;
  }

  lemma {:induction false} IntegerText(n: int)
    ensures NumberText(n as real) == if n < 0 then "-" + NatToString(-n) else NatToString(n)
  {
    var x := n as real;
    var m := if x < 0.0 then -x else x;
    assert m.Floor == (if n < 0 then -n else n);
    assert m == m.Floor as real;
  }

  /** A trimmed, non-blank string is read by `Number` as a decimal literal. */
  lemma {:induction false} TrimmedNumber(t: string)
    requires IsTrimmed(t) && t != ""
    ensures StringToNumber(t) == ParseDecimal(t)
  {
    TrimOfTrimmed(t);
  }

  /** The numeral of an integer, as `String` writes it, parses back to it. */
  lemma {:induction false} IntegerNumeral(n: int, t: string)
    requires t == if n < 0 then "-" + NatToString(-n) else NatToString(n)
    ensures ParseDecimal(t) == Some(n as real)
  {
    var m: nat := if n < 0 then -n else n;
    NatToStringRoundTrip(m);
    ParseDigits(NatToString(m));
  }

  lemma {:induction false} IntegerNumeralTrimmed(n: int, t: string)
    requires t == if n < 0 then "-" + NatToString(-n) else NatToString(n)
    ensures IsTrimmed(t) && t != ""
  {
    assert t[0] == '-' || IsDigit(t[0]);
    assert IsDigit(t[|t| - 1]);
  }

  /** `Number(String(n))` gives back every integer. */
  lemma {:induction false} IntegerTextRoundTrip(n: int)
    ensures ToNumber(JStr(NumberText(n as real))) == Some(n as real)
  {
    IntegerText(n);
    var t := if n < 0 then "-" + NatToString(-n) else NatToString(n);
    IntegerNumeral(n, t);
    IntegerNumeralTrimmed(n, t);
    TrimmedNumber(t);
  }
}
