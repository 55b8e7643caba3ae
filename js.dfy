/** JavaScript values as the session code sees them after JSON parsing, and
    the few coercions of the language that its decisions rely on: truthiness,
    property reads, and the conversion of a value to a string (used for
    property keys, template literals and `indexOf` arguments). */
module JsValue {

  datatype Option<+T> = None | Some(value: T)

  /** A parsed JSON value. `Undefined` stands for a property that is absent,
      `Err` for an `Error` instance raised by the code itself. Numbers are
      integers. */
  datatype Value =
    | Undefined
    | Null
    | Bool(b: bool)
    | Num(n: int)
    | Str(s: string)
    | Arr(items: seq<Value>)
    | Obj(fields: map<string, Value>)
    | Err(message: string)

  /** `false`, `0`, `""`, `null` and `undefined` are falsy; every object is truthy. */
  predicate Truthy(v: Value)
  {
    match v
    case Undefined => false
    case Null => false
    case Bool(b) => b
    case Num(n) => n != 0
    case Str(s) => s != ""
    case _ => true
  }

  /** `v.name` for the properties the session code reads. */
  function Get(v: Value, name: string): Value
  {
    match v
    case Obj(m) => if name in m then m[name] else Undefined
    case Arr(items) => if name == "length" then Num(|items|) else Undefined
    case Str(s) => if name == "length" then Num(|s|) else Undefined
    case Err(m) => if name == "message" then Str(m) else Undefined
    case _ => Undefined
  }

  predicate IsDigit(c: char)
  {
    '0' <= c <= '9'
  }

  function DigitChar(d: nat): (c: char)
    requires d < 10
    ensures IsDigit(c) && c as int - '0' as int == d
  {
    "0123456789"[d]
  }

  /** Decimal form of a natural number, as `String(n)` writes it. */
  function NatToString(n: nat): (s: string)
    ensures |s| > 0
    ensures forall i :: 0 <= i < |s| ==> IsDigit(s[i])
    ensures n > 0 ==> s[0] != '0'
    ensures n < 10 <==> |s| == 1
  {
    if n < 10 then [DigitChar(n)] else NatToString(n / 10) + [DigitChar(n % 10)]
  }

  function IntToString(n: int): string
  {
    if n < 0 then "-" + NatToString(-n) else NatToString(n)
  }

  /** A string that `String(n)` produces for some natural number `n`:
      digits only, and no leading zero unless it is "0" itself. */
  predicate IsCanonicalNumeral(s: string)
  {
    && |s| > 0
    && (forall i :: 0 <= i < |s| ==> IsDigit(s[i]))
    && (|s| > 1 ==> s[0] != '0')
  }

  function DigitsValue(s: string): nat
    requires forall i :: 0 <= i < |s| ==> IsDigit(s[i])
  {
    if s == [] then 0
    else
      var last := s[|s| - 1];
      assert IsDigit(last);
      DigitsValue(s[..|s| - 1]) * 10 + (last as int - '0' as int)
  }

  /** The natural number a property key names, if it names one. */
  function ParseCanonicalNat(s: string): Option<nat>
  {
    if IsCanonicalNumeral(s) then Some(DigitsValue(s)) else None
  }

  lemma {:induction false} DigitsOfNatToString(n: nat)
    ensures DigitsValue(NatToString(n)) == n
  {
    if n >= 10 {
      DigitsOfNatToString(n / 10);
      var s := NatToString(n);
      assert s[..|s| - 1] == NatToString(n / 10);
    }
  }

  lemma {:induction false} LeadingDigitPositive(s: string)
    requires forall i :: 0 <= i < |s| ==> IsDigit(s[i])
    requires |s| > 0 && s[0] != '0'
    ensures DigitsValue(s) > 0
  {
    if |s| > 1 {
      LeadingDigitPositive(s[..|s| - 1]);
    } else {
      assert s[..0] == [];
    }
  }

  lemma {:induction false} NatToStringOfDigits(s: string)
    requires IsCanonicalNumeral(s)
    ensures NatToString(DigitsValue(s)) == s
  {
    if |s| == 1 {
      assert s[..0] == [];
      assert s == [DigitChar(s[0] as int - '0' as int)];
    } else {
      var t := s[..|s| - 1];
      assert IsCanonicalNumeral(t) by {
        assert t[0] == s[0];
      }
      NatToStringOfDigits(t);
      LeadingDigitPositive(t);
      var d := s[|s| - 1] as int - '0' as int;
      var n := DigitsValue(s);
      assert n == DigitsValue(t) * 10 + d;
      assert n / 10 == DigitsValue(t) && n % 10 == d;
      assert s == t + [DigitChar(d)];
    }
  }

  /** Decimal forms and property keys naming natural numbers correspond one to one. */
  lemma ParseNatRoundTrip(n: nat, s: string)
    ensures ParseCanonicalNat(NatToString(n)) == Some(n)
    ensures ParseCanonicalNat(s) == Some(n) ==> s == NatToString(n)
  {
    DigitsOfNatToString(n);
    if ParseCanonicalNat(s) == Some(n) {
      NatToStringOfDigits(s);
    }
  }

  predicate IsLowerHex(c: char)
  {
    '0' <= c <= '9' || 'a' <= c <= 'f'
  }

  /** The value of one lower-case hexadecimal digit. */
  function HexDigitValue(c: char): nat
    requires IsLowerHex(c)
  {
    if '0' <= c <= '9' then c as int - '0' as int else c as int - 'a' as int + 10
  }

  function HexChar(d: nat): (c: char)
    requires d < 16
    ensures IsLowerHex(c) && HexDigitValue(c) == d
  {
    "0123456789abcdef"[d]
  }

  /** The number a string of lower-case hexadecimal digits denotes. */
  function HexValue(s: string): nat
    requires forall i :: 0 <= i < |s| ==> IsLowerHex(s[i])
  {
    if s == [] then 0 else HexValue(s[..|s| - 1]) * 16 + HexDigitValue(s[|s| - 1])
  }

  /** `n.toString(16)` for a natural number. */
  function NatToHex(n: nat): (s: string)
    ensures |s| > 0
    ensures forall i :: 0 <= i < |s| ==> IsLowerHex(s[i])
  {
    if n < 16 then [HexChar(n)] else NatToHex(n / 16) + [HexChar(n % 16)]
  }

  /** The hexadecimal digits of `n` denote `n`. */
  lemma {:induction false} NatToHexValue(n: nat)
    ensures HexValue(NatToHex(n)) == n
  {
    var s := NatToHex(n);
    if n < 16 {
      assert s[..0] == [];
    } else {
      NatToHexValue(n / 16);
      assert s[..|s| - 1] == NatToHex(n / 16);
    }
  }

  /** `n.toString(16)` for an integer: a minus sign, then the digits. */
  function IntToHex(n: int): (s: string)
    ensures |s| > 0
    ensures s[0] == '-' <==> n < 0
    ensures forall i :: 0 < i < |s| ==> IsLowerHex(s[i])
    ensures n >= 0 ==> IsLowerHex(s[0])
  {
    if n < 0 then "-" + NatToHex(-n) else NatToHex(n)
  }

  /** The hexadecimal form determines the number: its digits denote the
      absolute value and the sign is the leading minus. */
  lemma IntToHexValue(n: int)
    ensures var s := IntToHex(n);
      && (n >= 0 ==> HexValue(s) == n)
      && (n < 0 ==> |s| > 1 && HexValue(s[1..]) == -n)
  {
    if n >= 0 {
      NatToHexValue(n);
    } else {
      NatToHexValue(-n);
      assert IntToHex(n)[1..] == NatToHex(-n);
    }
  }

  /** Two numbers with the same hexadecimal form are equal. */
  lemma IntToHexInjective(m: int, n: int)
    requires IntToHex(m) == IntToHex(n)
    ensures m == n
  {
    IntToHexValue(m);
    IntToHexValue(n);
  }

  /** `String(v)`: the string a value converts to in a template literal or
      as a property key. An array joins its elements with commas, writing
      `null` and `undefined` elements as nothing. */
  function ToJsString(v: Value): string
    decreases v, 1
  {
    match v
    case Undefined => "undefined"
    case Null => "null"
    case Bool(b) => if b then "true" else "false"
    case Num(n) => IntToString(n)
    case Str(s) => s
    case Arr(items) => JoinItems(v, |items|)
    case Obj(_) => "[object Object]"
    case Err(m) => if m == "" then "Error" else "Error: " + m
  }

  /** The first `n` elements of the array `arr`, joined as `Array.prototype.join` does. */
  function JoinItems(arr: Value, n: nat): string
    requires arr.Arr? && n <= |arr.items|
    decreases arr, 0, n
  {
    if n == 0 then ""
    else
      var item := arr.items[n - 1];
      var text := if item.Null? || item.Undefined? then "" else ToJsString(item);
      if n == 1 then text else JoinItems(arr, n - 1) + "," + text
  }

  /** `err.message` interpolated into a template: an `Error`'s message, and
      "undefined" for a rejection reason that is a plain string. */
  function MessageOf(reason: Value): string
  {
    ToJsString(Get(reason, "message"))
  }

  predicate IsPrefix(p: string, s: string)
  {
    |p| <= |s| && s[..|p|] == p
  }
}
