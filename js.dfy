/** The slice of JavaScript semantics the product handlers lean on: the values a
    parsed JSON request body can hold, truthiness, the `length` property, the
    NaN test on `parseFloat`, and `parseInt` on a route parameter. */
module Js {

  /** A request-body field as the JSON parser hands it over; `Undefined` is a
      key the body does not have. */
  datatype Value =
    | Undefined
    | Null
    | Bool(b: bool)
    | Number(x: real)
    | Str(s: string)
    | Arr(items: seq<Value>)
    | Obj(props: map<string, Value>)

  /** `undefined` and `null`: reading a property of them throws a TypeError. */
  predicate IsNullish(v: Value) {
    v.Undefined? || v.Null?
  }

  /** JavaScript truthiness (`!v` is false). JSON never yields NaN, so 0 is
      the only falsy number. */
  predicate Truthy(v: Value) {
    match v
    case Undefined => false
    case Null => false
    case Bool(b) => b
    case Number(x) => x != 0.0
    case Str(s) => s != ""
    case Arr(_) => true
    case Obj(_) => true
  }

  /** `v.length === 0`. Strings and arrays have a length; an object has one
      only through an own "length" key; booleans and numbers have none, so
      the comparison is false. */
  predicate LengthIsZero(v: Value)
    requires !IsNullish(v)
  {
    match v
    case Str(s) => |s| == 0
    case Arr(items) => |items| == 0
    case Obj(props) => "length" in props && props["length"] == Number(0.0)
    case _ => false
  }

  /** `typeof(v) !== 'string' && v.length === 0`, the check the handlers run
      on `nome` and `descricao`. */
  predicate EmptyNonString(v: Value)
    requires !IsNullish(v)
  {
    !v.Str? && LengthIsZero(v)
  }

  /** The conjunction can only fire on an empty array or on an object whose
      "length" key is 0: a non-string of the wrong type and an empty string
      both pass. */
  lemma EmptyNonStringExactly(v: Value)
    requires !IsNullish(v)
    ensures EmptyNonString(v) <==>
              v == Arr([]) || (v.Obj? && "length" in v.props && v.props["length"] == Number(0.0))
  {
    if v.Arr? && |v.items| == 0 {
      assert v.items == [];
    }
  }

  /** StrWhiteSpaceChar of ECMAScript: the characters `parseInt` and
      `parseFloat` skip at the front of their input. */
  predicate IsWhiteSpace(c: char) {
    c == ' ' || ('\t' <= c <= '\r') ||
    (c >= '\U{A0}' &&
     (c == '\U{A0}' || c == '\U{1680}' || ('\U{2000}' <= c <= '\U{200A}') ||
      c == '\U{2028}' || c == '\U{2029}' || c == '\U{202F}' || c == '\U{205F}' ||
      c == '\U{3000}' || c == '\U{FEFF}'))
  }

  /** The input with its leading white space removed. */
  function TrimStart(s: string): string {
    if s != [] && IsWhiteSpace(s[0]) then TrimStart(s[1..]) else s
  }

  /** What TrimStart removes is white space, and what it keeps is a suffix
      that does not start with any. */
  lemma {:induction false} TrimStartSpec(s: string)
    ensures |TrimStart(s)| <= |s| && TrimStart(s) == s[|s| - |TrimStart(s)|..]
    ensures forall i :: 0 <= i < |s| - |TrimStart(s)| ==> IsWhiteSpace(s[i])
    ensures TrimStart(s) == [] || !IsWhiteSpace(TrimStart(s)[0])
  {
    if s != [] && IsWhiteSpace(s[0]) {
      var t := s[1..];
      TrimStartSpec(t);
      var r := TrimStart(t);
      assert TrimStart(s) == r;
      assert s[|s| - |r|..] == t[|t| - |r|..];
      forall i | 0 <= i < |s| - |r|
        ensures IsWhiteSpace(s[i])
      {
        if i > 0 {
          assert s[i] == t[i - 1];
        }
      }
    }
  }

  predicate IsDecimalDigit(c: char) {
    '0' <= c <= '9'
  }

  predicate StartsWithInfinity(u: string) {
    |u| >= 8 && u[0] == 'I' && u[1] == 'n' && u[2] == 'f' && u[3] == 'i' &&
    u[4] == 'n' && u[5] == 'i' && u[6] == 't' && u[7] == 'y'
  }

  /** Whether `parseFloat(s)` finds a number: after the white space `TrimStart`
      removes and an optional sign, a digit, a point followed by a digit, or
      "Infinity". */
  predicate HasNumericPrefix(s: string) {
    NumericStart(TrimStart(s))
  }

  predicate NumericStart(t: string) {
    var u := if t != [] && (t[0] == '+' || t[0] == '-') then t[1..] else t;
    (u != [] && IsDecimalDigit(u[0])) ||
    (|u| >= 2 && u[0] == '.' && IsDecimalDigit(u[1])) ||
    StartsWithInfinity(u)
  }

  /** Leading white space never changes whether `parseFloat` finds a number. */
  lemma ParseFloatSkipsWhiteSpace(w: string, s: string)
    requires forall i :: 0 <= i < |w| ==> IsWhiteSpace(w[i])
    ensures HasNumericPrefix(w + s) == HasNumericPrefix(s)
  {
    TrimStartSkips(w, s);
  }

  /** `isNaN(parseFloat(v))`. parseFloat reads the string form of its
      argument: an array's is its elements joined by ",", so only the first
      element can start a number (a comma never continues one); `undefined`,
      `null`, booleans and plain objects never give a number. */
  predicate ParseFloatIsNaN(v: Value) {
    match v
    case Number(_) => false
    case Str(s) => !HasNumericPrefix(s)
    case Arr(items) => items == [] || ParseFloatIsNaN(items[0])
    case _ => true
  }

  /** `typeof(v) !== 'number' && isNaN(parseFloat(v))`, the check the
      handlers run on `preco`. */
  predicate NotNumeric(v: Value) {
    !v.Number? && ParseFloatIsNaN(v)
  }

  lemma NumericTextIsAccepted(s: string, t: string)
    requires s != [] && forall i :: 0 <= i < |s| ==> IsDecimalDigit(s[i])
    ensures !NotNumeric(Str(s + t)) && !NotNumeric(Arr([Str(s + t)]))
  {
    assert (s + t)[0] == s[0];
    assert TrimStart(s + t) == s + t;
    assert NumericStart(s + t);
  }

  /** The result of `parseInt`: an integer, or NaN when no digit is found. */
  datatype ParsedInt = NaN | Int(value: int)

  /** The value of a character as a digit, 36 when it is none. */
  function DigitValue(c: char): (d: nat)
    ensures d <= 36
  {
    if '0' <= c <= '9' then c as int - '0' as int
    else if 'a' <= c <= 'z' then c as int - 'a' as int + 10
    else if 'A' <= c <= 'Z' then c as int - 'A' as int + 10
    else 36
  }

  /** The longest prefix of `s` made of digits in the given radix. */
  function DigitPrefix(s: string, radix: nat): string {
    if s != [] && DigitValue(s[0]) < radix then [s[0]] + DigitPrefix(s[1..], radix) else []
  }

  /** DigitPrefix stops at the first character that is no digit. */
  lemma {:induction false} DigitPrefixSpec(s: string, radix: nat)
    ensures var z := DigitPrefix(s, radix);
            |z| <= |s| && z == s[..|z|] &&
            (forall i :: 0 <= i < |z| ==> DigitValue(z[i]) < radix) &&
            (|z| < |s| ==> DigitValue(s[|z|]) >= radix)
  {
    if s != [] && DigitValue(s[0]) < radix {
      DigitPrefixSpec(s[1..], radix);
    }
  }

  /** The number a digit string denotes in the given radix. */
  function DigitsValue(z: string, radix: nat): nat {
    if z == [] then 0
    else DigitsValue(z[..|z| - 1], radix) * radix + DigitValue(z[|z| - 1])
  }

  /** `parseInt(s)` with no radix argument: leading white space is skipped and
      a sign is read before the digits. */
  function ParseInt(s: string): ParsedInt {
    var t := TrimStart(s);
    if t != [] && t[0] == '-' then Negate(ParseUnsigned(t[1..]))
    else if t != [] && t[0] == '+' then ParseUnsigned(t[1..])
    else ParseUnsigned(t)
  }

  function Negate(r: ParsedInt): ParsedInt {
    match r
    case NaN => NaN
    case Int(v) => Int(-v)
  }

  /** "0x" or "0X" selects base 16, any other start base 10. */
  function ParseUnsigned(u: string): ParsedInt {
    if |u| >= 2 && u[0] == '0' && (u[1] == 'x' || u[1] == 'X') then ParseDigits(u[2..], 16)
    else ParseDigits(u, 10)
  }

  /** The longest run of digits at the front is the value; none gives NaN. */
  function ParseDigits(w: string, radix: nat): (r: ParsedInt)
    ensures r.NaN? <==> w == [] || DigitValue(w[0]) >= radix
  {
    var z := DigitPrefix(w, radix);
    if z == [] then NaN else Int(DigitsValue(z, radix))
  }

  /** The decimal numeral of a natural number, as `String(n)` writes it. */
  function DecimalText(n: nat): (s: string)
    ensures s != [] && forall i :: 0 <= i < |s| ==> IsDecimalDigit(s[i])
  {
    var d := ['0' + (n % 10) as char];
    if n < 10 then d else DecimalText(n / 10) + d
  }

  lemma {:induction false} DecimalTextValue(n: nat)
    ensures DigitsValue(DecimalText(n), 10) == n
  {
    var s := DecimalText(n);
    if n >= 10 {
      DecimalTextValue(n / 10);
      assert s[..|s| - 1] == DecimalText(n / 10);
    } else {
      assert s[..|s| - 1] == [];
    }
  }

  lemma {:induction false} AllDigitsPrefix(s: string)
    requires forall i :: 0 <= i < |s| ==> IsDecimalDigit(s[i])
    ensures DigitPrefix(s, 10) == s
  {
    if s != [] {
      AllDigitsPrefix(s[1..]);
    }
  }

  lemma DecimalTextParses(n: nat)
    ensures ParseUnsigned(DecimalText(n)) == Int(n)
  {
    var d := DecimalText(n);
    AllDigitsPrefix(d);
    DecimalTextValue(n);
    assert ParseDigits(d, 10) == Int(n);
    if |d| >= 2 {
      assert IsDecimalDigit(d[1]);
    }
  }

  /** `parseInt` reads back the numeral of every integer, so an id sent in a
      route parameter finds the record carrying that id. */
  lemma ParseIntDecimal(n: int)
    ensures ParseInt(if n < 0 then "-" + DecimalText(-n) else DecimalText(n)) == Int(n)
  {
    var m: nat := if n < 0 then -n else n;
    var d := DecimalText(m);
    DecimalTextParses(m);
    if n < 0 {
      var s := "-" + d;
      assert TrimStart(s) == s;
      assert s[1..] == d;
    } else {
      assert IsDecimalDigit(d[0]);
      assert TrimStart(d) == d;
    }
  }

  /** Leading white space never changes what `parseInt` reads. */
  lemma ParseIntSkipsWhiteSpace(w: string, s: string)
    requires forall i :: 0 <= i < |w| ==> IsWhiteSpace(w[i])
    ensures ParseInt(w + s) == ParseInt(s)
  {
    TrimStartSkips(w, s);
  }

  lemma {:induction false} TrimStartSkips(w: string, s: string)
    requires forall i :: 0 <= i < |w| ==> IsWhiteSpace(w[i])
    ensures TrimStart(w + s) == TrimStart(s)
  {
    if w != [] {
      assert (w + s)[1..] == w[1..] + s;
      TrimStartSkips(w[1..], s);
    } else {
      assert w + s == s;
    }
  }
}
