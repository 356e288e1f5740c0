/** JavaScript values as the request handlers see them (parsed JSON bodies, query
    strings, header strings), with the coercions the handlers apply to them:
    truthiness, Number(), String(), String.prototype.trim and .length.
    Numbers are integer-valued; NaN and the two infinities are kept apart. */
module JsValues {

  datatype Option<+T> = None | Some(value: T)

  /** An integer-valued JavaScript number, NaN, or an infinity. */
  datatype Num = Int(value: int) | NaN | Infinity(positive: bool)

  datatype JsValue =
    | JUndefined
    | JNull
    | JBool(b: bool)
    | JNum(n: Num)
    | JStr(s: string)
    | JArray(items: seq<JsValue>)
    | JObject(fields: map<string, JsValue>)

  /** Number.isFinite on an already numeric value. */
  predicate IsFinite(n: Num) { n.Int? }

  /** JavaScript `===` on numbers: NaN equals nothing, not even itself. */
  predicate StrictEq(a: Num, b: Num) { !a.NaN? && a == b }

  /** ToBoolean: the falsy values are undefined, null, false, 0, NaN and "". */
  predicate Truthy(v: JsValue)
  {
    match v
    case JUndefined => false
    case JNull => false
    case JBool(b) => b
    case JNum(n) => n != Int(0) && n != NaN
    case JStr(s) => s != ""
    case JArray(_) => true
    case JObject(_) => true
  }

  /** The six falsy values; every array and object is truthy. */
  lemma FalsyValues(v: JsValue)
    ensures !Truthy(v) <==> v in {JUndefined, JNull, JBool(false), JNum(Int(0)), JNum(NaN), JStr("")}
    ensures v.JArray? || v.JObject? ==> Truthy(v)
  {
  }

  /** `a || b` */
  function Or(a: JsValue, b: JsValue): (r: JsValue)
    ensures Truthy(a) ==> r == a
    ensures !Truthy(a) ==> r == b
  {
    if Truthy(a) then a else b
  }

  /** Property access `v.key`; reading a property of undefined or null throws (None). */
  function Get(v: JsValue, key: string): (r: Option<JsValue>)
    ensures r.None? <==> v.JUndefined? || v.JNull?
    ensures v.JObject? && key !in v.fields ==> r == Some(JUndefined)
  {
    match v
    case JUndefined => None
    case JNull => None
    case JObject(fields) => Some(if key in fields then fields[key] else JUndefined)
    case _ => Some(JUndefined)
  }

  /** `v.key` on a value that is neither undefined nor null. */
  function Field(v: JsValue, key: string): (r: JsValue)
    requires !v.JUndefined? && !v.JNull?
    ensures Get(v, key) == Some(r)
  {
    Get(v, key).value
  }

  /** `v == null`: loose equality with null holds for null and undefined only. */
  predicate IsNullish(v: JsValue) { v.JUndefined? || v.JNull? }

  /** Optional chaining `v?.key`: undefined when `v` is null or undefined. */
  function OptField(v: JsValue, key: string): (r: JsValue)
    ensures IsNullish(v) ==> r == JUndefined
    ensures !IsNullish(v) ==> Get(v, key) == Some(r)
  {
    if IsNullish(v) then JUndefined else Field(v, key)
  }

  /** `a ?? b` */
  function Coalesce(a: JsValue, b: JsValue): (r: JsValue)
    ensures !IsNullish(a) ==> r == a
    ensures IsNullish(a) ==> r == b
  {
    if IsNullish(a) then b else a
  }

  // ---------------------------------------------------------------------------
  // Characters and strings

  /** The characters String.prototype.trim removes and the regular expression
      class \s matches: WhiteSpace and LineTerminator of ECMAScript. */
  predicate IsWhitespace(c: char)
  {
    c == '\t' || c == '\n' || c == '\U{000B}' || c == '\U{000C}' || c == '\r' || c == ' '
    || c == '\U{00A0}' || c == '\U{1680}' || ('\U{2000}' <= c <= '\U{200A}')
    || c == '\U{2028}' || c == '\U{2029}' || c == '\U{202F}' || c == '\U{205F}'
    || c == '\U{3000}' || c == '\U{FEFF}'
  }

  /** The characters `.` does not match in a regular expression. */
  predicate IsLineTerminator(c: char)
  {
    c == '\n' || c == '\r' || c == '\U{2028}' || c == '\U{2029}'
  }

  /** Number of leading whitespace characters. */
  function LeadingWhitespace(s: string): (k: nat)
    ensures k <= |s|
    ensures forall i :: 0 <= i < k ==> IsWhitespace(s[i])
    ensures k < |s| ==> !IsWhitespace(s[k])
  {
    if s == [] || !IsWhitespace(s[0]) then 0 else 1 + LeadingWhitespace(s[1..])
  }

  /** Number of trailing whitespace characters. */
  function TrailingWhitespace(s: string): (k: nat)
    ensures k <= |s|
    ensures forall i :: |s| - k <= i < |s| ==> IsWhitespace(s[i])
    ensures k < |s| ==> !IsWhitespace(s[|s| - 1 - k])
  {
    if s == [] || !IsWhitespace(s[|s| - 1]) then 0 else 1 + TrailingWhitespace(s[..|s| - 1])
  }

  /** String.prototype.trim: what remains after removing the leading and the
      trailing whitespace; it starts and ends with a non-whitespace character. */
  function Trim(s: string): (r: string)
    ensures |r| <= |s|
    ensures r != [] ==> !IsWhitespace(r[0]) && !IsWhitespace(r[|r| - 1])
    ensures LeadingWhitespace(s) + |r| <= |s|
    ensures r == s[LeadingWhitespace(s)..LeadingWhitespace(s) + |r|]
    ensures forall k :: LeadingWhitespace(s) + |r| <= k < |s| ==> IsWhitespace(s[k])
  {
    var lead := LeadingWhitespace(s);
    if lead == |s| then
      ""
    else
      var rest := s[lead..];
      var trail := TrailingWhitespace(rest);
      assert trail < |rest| by {
        assert !IsWhitespace(rest[0]);
      }
      var r := rest[..|rest| - trail];
      assert r == s[lead..lead + |r|];
      assert forall k :: lead + |r| <= k < |s| ==> IsWhitespace(s[k]) by {
        forall k | lead + |r| <= k < |s| ensures IsWhitespace(s[k]) {
          assert s[k] == rest[k - lead];
        }
      }
      r
  }

  /** A string with no whitespace at either end is its own trim. */
  lemma {:induction false} TrimOfTrimmed(s: string)
    requires s == [] || (!IsWhitespace(s[0]) && !IsWhitespace(s[|s| - 1]))
    ensures Trim(s) == s
  {
    if s != [] {
      assert LeadingWhitespace(s) == 0;
      assert TrailingWhitespace(s) == 0;
      assert s[0..] == s;
    }
  }

  /** `String(v || "").trim()`, the way the handlers read a text field. */
  function TrimmedText(v: JsValue): (r: string)
    ensures !Truthy(v) ==> r == ""
    ensures v.JStr? ==> r == Trim(v.s)
    ensures Trim(r) == r
  {
    var t := Trim(ToStr(Or(v, JStr(""))));
    TrimOfTrimmed(t);
    t
  }

  /** String.prototype.length: UTF-16 code units, two for a character outside
      the Basic Multilingual Plane. */
  function Utf16Length(s: string): (n: nat)
    ensures |s| <= n <= 2 * |s|
    ensures (forall i :: 0 <= i < |s| ==> s[i] as int < 0x1_0000) ==> n == |s|
  {
    if s == [] then 0
    else (if s[0] as int < 0x1_0000 then 1 else 2) + Utf16Length(s[1..])
  }

  // ---------------------------------------------------------------------------
  // Decimal notation

  function DigitChar(d: nat): (c: char)
    requires d < 10
    ensures '0' <= c <= '9' && (c as int) - ('0' as int) == d
  {
    ['0', '1', '2', '3', '4', '5', '6', '7', '8', '9'][d]
  }

  predicate IsDigit(c: char) { '0' <= c <= '9' }

  /** The decimal notation of a natural number, without leading zeros. */
  function NatToDecimal(n: nat): (r: string)
    ensures |r| >= 1
    ensures forall i :: 0 <= i < |r| ==> IsDigit(r[i])
    ensures (r[0] == '0') == (n == 0)
    ensures n < 10 <==> |r| == 1
    decreases n
  {
    if n < 10 then [DigitChar(n)] else NatToDecimal(n / 10) + [DigitChar(n % 10)]
  }

  function DigitValue(c: char): (d: nat)
    requires IsDigit(c)
    ensures d < 10 && (d == 0 <==> c == '0')
  {
    (c as int) - ('0' as int)
  }

  /** The value of a string of decimal digits. */
  function DigitsValue(s: string): nat
    requires forall i :: 0 <= i < |s| ==> IsDigit(s[i])
  {
    if s == [] then 0 else 10 * DigitsValue(s[..|s| - 1]) + DigitValue(s[|s| - 1])
  }

  /** Number::toString for an integer: decimal digits, with a leading '-' when negative. */
  function Decimal(n: int): (r: string)
    ensures |r| >= 1 && (r[0] == '-' <==> n < 0)
    ensures n >= 0 ==> r == NatToDecimal(n)
    ensures n < 0 ==> r == "-" + NatToDecimal(-n)
  {
    if n < 0 then "-" + NatToDecimal(-n) else NatToDecimal(n)
  }

  /** Reading the digits back gives the number again. */
  lemma {:induction false} DigitsOfDecimal(n: nat)
    ensures DigitsValue(NatToDecimal(n)) == n
    decreases n
  {
    var r := NatToDecimal(n);
    if n >= 10 {
      DigitsOfDecimal(n / 10);
      assert r[..|r| - 1] == NatToDecimal(n / 10);
    }
  }

  // ---------------------------------------------------------------------------
  // Number(...)

  predicate AllDigits(s: string) { |s| >= 1 && forall i :: 0 <= i < |s| ==> IsDigit(s[i]) }

  predicate IsInfinitySpelling(t: string)
  {
    t == "Infinity" || t == "+Infinity" || t == "-Infinity"
  }

  /** An optionally signed run of decimal digits, and its value. */
  function ParseInteger(t: string): (r: Option<int>)
    ensures AllDigits(t) ==> r == Some(DigitsValue(t))
    ensures |t| >= 1 && t[0] == '-' && AllDigits(t[1..]) ==> r == Some(0 - DigitsValue(t[1..]) as int)
    ensures r.Some? ==> |t| >= 1 && IsDigit(t[|t| - 1])
  {
    if AllDigits(t) then Some(DigitsValue(t))
    else if |t| >= 2 && t[0] == '+' && AllDigits(t[1..]) then Some(DigitsValue(t[1..]))
    else if |t| >= 2 && t[0] == '-' && AllDigits(t[1..]) then Some(0 - DigitsValue(t[1..]) as int)
    else None
  }

  /** StringToNumber, restricted to the integer spellings: surrounding whitespace is
      ignored, the empty string is 0, an optional sign and decimal digits give an
      integer, "Infinity" with an optional sign gives an infinity, and everything
      else is NaN. */
  function StringToNumber(s: string): (n: Num)
    ensures Trim(s) == "" ==> n == Int(0)
    ensures !IsInfinitySpelling(Trim(s)) && ParseInteger(Trim(s)).Some? ==> n == Int(ParseInteger(Trim(s)).value)
  {
    var t := Trim(s);
    if t == "" then Int(0)
    else if IsInfinitySpelling(t) then Infinity(t[0] != '-')
    else match ParseInteger(t)
      case Some(k) => Int(k)
      case None => NaN
  }

  /** String(v). Arrays join their elements with commas, null and undefined
      elements turning into the empty string. */
  function ToStr(v: JsValue): (r: string)
    ensures v.JStr? ==> r == v.s
    ensures v.JNum? && v.n.Int? ==> r == Decimal(v.n.value)
    decreases v
  {
    match v
    case JUndefined => "undefined"
    case JNull => "null"
    case JBool(b) => if b then "true" else "false"
    case JNum(n) =>
      (match n
       case Int(k) => Decimal(k)
       case NaN => "NaN"
       case Infinity(pos) => if pos then "Infinity" else "-Infinity")
    case JStr(s) => s
    case JArray(items) => Join(items)
    case JObject(_) => "[object Object]"
  }

  function Join(items: seq<JsValue>): string
    decreases items
  {
    if items == [] then ""
    else
      var head := if items[0].JUndefined? || items[0].JNull? then "" else ToStr(items[0]);
      if |items| == 1 then head else head + "," + Join(items[1..])
  }

  /** Number(v): ToNumber of a primitive; an array goes through its string form;
      a plain object is NaN. */
  function ToNumber(v: JsValue): (n: Num)
    ensures v.JNum? ==> n == v.n
    ensures v.JNull? ==> n == Int(0)
    ensures v.JUndefined? || v.JObject? ==> n == NaN
    ensures v.JStr? ==> n == StringToNumber(v.s)
  {
    match v
    case JUndefined => NaN
    case JNull => Int(0)
    case JBool(b) => Int(if b then 1 else 0)
    case JNum(n) => n
    case JStr(s) => StringToNumber(s)
    case JArray(_) => StringToNumber(ToStr(v))
    case JObject(_) => NaN
  }

  /** A string that ends with a digit is no spelling of an infinity. */
  lemma NotInfinity(s: string)
    requires |s| >= 1 && IsDigit(s[|s| - 1])
    ensures !IsInfinitySpelling(s)
  {
    assert "Infinity"[7] == 'y' && "+Infinity"[8] == 'y' && "-Infinity"[8] == 'y';
  }

  /** A string that starts and ends with a non-whitespace character is its own trim. */
  lemma {:induction false} NumberOfTrimmed(t: string)
    requires |t| >= 1 && !IsWhitespace(t[0]) && ParseInteger(t).Some?
    ensures StringToNumber(t) == Int(ParseInteger(t).value)
  {
    assert !IsWhitespace(t[|t| - 1]);
    TrimOfTrimmed(t);
    NotInfinity(t);
  }

  /** Number(String(n)) == n: decimal notation is read back exactly. */
  lemma NumberOfDecimal(n: int)
    ensures StringToNumber(Decimal(n)) == Int(n)
    ensures ToNumber(JStr(Decimal(n))) == Int(n)
  {
    var s := Decimal(n);
    assert ParseInteger(s) == Some(n) by {
      DecimalParses(n);
    }
    NumberOfTrimmed(s);
  }

  /** The digits of a decimal form, with its sign, parse back to the integer. */
  lemma DecimalParses(n: int)
    ensures ParseInteger(Decimal(n)) == Some(n)
  {
    var m: nat := if n < 0 then -n else n;
    DigitsOfDecimal(m);
    if n < 0 {
      var s := Decimal(n);
      assert s[1..] == NatToDecimal(m);
      assert !AllDigits(s) by {
        assert !IsDigit(s[0]);
      }
    }
  }
}
