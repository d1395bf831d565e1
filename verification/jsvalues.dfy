/**
 * The JavaScript values that arrive in request bodies, with the three
 * conversions the controllers rely on: truthiness (`if (!x)`), `Number(x)`
 * (also the coercion of `x < 1`) and `parseInt(s)`.
 */
module JsValues {
  import opened JsStrings
  import opened Wrappers

  /** A JavaScript number: a finite value (exact here), an infinity, or NaN. */
  datatype Num = Finite(v: real) | PosInf | NegInf | NaN

  /** A value of a JSON request body, or a missing field. Arrays and objects are `Obj`. */
  datatype JsValue = Undefined | Null | Bool(b: bool) | Number(n: Num) | Str(s: string) | Obj

  /** JavaScript truthiness: false, 0, NaN, "", null and undefined are falsy. */
  predicate Truthy(x: JsValue) {
    match x
    case Undefined => false
    case Null => false
    case Bool(b) => b
    case Number(n) => n != NaN && n != Finite(0.0)
    case Str(s) => s != ""
    case Obj => true
  }

  /** The numeric value of a digit character in base 2, 8, 10 or 16, or `base` when it is not one. */
  function DigitValue(c: char, base: nat): (d: nat)
    ensures d <= base
  {
    var v := if '0' <= c <= '9' then c as int - '0' as int
             else if 'a' <= c <= 'f' then c as int - 'a' as int + 10
             else if 'A' <= c <= 'F' then c as int - 'A' as int + 10
             else 16;
    if v < base then v else base
  }

  predicate IsDigitIn(c: char, base: nat) { DigitValue(c, base) < base }

  predicate AllDigitsIn(s: string, base: nat) {
    forall k :: 0 <= k < |s| ==> IsDigitIn(s[k], base)
  }

  /** The number of leading characters of `s` that are digits in `base`. */
  function DigitRun(s: string, base: nat): (n: nat)
    ensures n <= |s|
    ensures AllDigitsIn(s[..n], base)
    ensures n < |s| ==> !IsDigitIn(s[n], base)
  {
    if |s| == 0 || !IsDigitIn(s[0], base) then 0
    else
      var n := 1 + DigitRun(s[1..], base);
      assert s[..n] == [s[0]] + s[1..][..n - 1];
      n
  }

  /** The value of a digit string in `base`, most significant digit first. */
  function IntValue(s: string, base: nat): nat
    requires AllDigitsIn(s, base)
  {
    if |s| == 0 then 0 else IntValue(s[..|s| - 1], base) * base + DigitValue(s[|s| - 1], base)
  }

  function Pow10(e: nat): (r: nat)
    ensures r >= 1
  {
    if e == 0 then 1 else 10 * Pow10(e - 1)
  }

  /** `10^e` for a signed exponent. */
  function Scale(e: int): (r: real)
    ensures r > 0.0
  {
    if e >= 0 then Pow10(e) as real else 1.0 / Pow10(-e) as real
  }

  /** The value `i.f` of an integer part and a fraction part. */
  function Mantissa(intPart: string, frac: string): (r: real)
    requires AllDigitsIn(intPart, 10) && AllDigitsIn(frac, 10)
    ensures r >= 0.0
  {
    IntValue(intPart, 10) as real + IntValue(frac, 10) as real / Pow10(|frac|) as real
  }

  /** The exponent of an ExponentPart `e±ddd` that makes up all of `tail`, if it is one. */
  function Exponent(tail: string): (r: Option<int>)
  {
    if tail == "" then Some(0)
    else if tail[0] != 'e' && tail[0] != 'E' then None
    else
      var expText := tail[1..];
      var signed := |expText| > 0 && (expText[0] == '-' || expText[0] == '+');
      var expDigits := if signed then expText[1..] else expText;
      if expDigits == [] || !AllDigitsIn(expDigits, 10) then None
      else if signed && expText[0] == '-' then Some(-(IntValue(expDigits, 10) as int))
      else Some(IntValue(expDigits, 10))
  }

  /**
   * An unsigned StrDecimalLiteral without "Infinity": digits, an optional
   * fraction, an optional exponent; NaN when the whole text is not of that form.
   */
  function UnsignedDecimal(t: string): (r: Num)
    ensures r.Finite? ==> r.v >= 0.0
  {
    var i := DigitRun(t, 10);
    var afterInt := t[i..];
    var hasPoint := |afterInt| > 0 && afterInt[0] == '.';
    var afterPoint := if hasPoint then afterInt[1..] else afterInt;
    var f := if hasPoint then DigitRun(afterPoint, 10) else 0;
    if i == 0 && f == 0 then NaN
    else
      match Exponent(afterPoint[f..])
      case None => NaN
      case Some(e) => Finite(ScaleBy(Mantissa(t[..i], afterPoint[..f]), e))
  }

  function ScaleBy(m: real, e: int): (r: real)
    requires m >= 0.0
    ensures r >= 0.0
  {
    var s := Scale(e);
    assert m * s >= 0.0;
    m * s
  }

  function Negate(n: Num): Num {
    match n
    case Finite(v) => Finite(-v)
    case PosInf => NegInf
    case NegInf => PosInf
    case NaN => NaN
  }

  /** A non-decimal integer literal `0x…`, `0o…` or `0b…`, if `t` is one. */
  function PrefixedInteger(t: string): (r: Num)
  {
    if |t| > 2 && t[0] == '0' then
      var base := if t[1] == 'x' || t[1] == 'X' then 16
                  else if t[1] == 'o' || t[1] == 'O' then 8
                  else if t[1] == 'b' || t[1] == 'B' then 2
                  else 0;
      if base != 0 && AllDigitsIn(t[2..], base) then Finite(IntValue(t[2..], base) as real) else NaN
    else NaN
  }

  /** `Number(s)` for a string: JavaScript's StringToNumber, with exact arithmetic. */
  function StringToNumber(s: string): Num {
    var t := Trim(s);
    if t == "" then Finite(0.0)
    else if PrefixedInteger(t) != NaN then PrefixedInteger(t)
    else
      var negative := t[0] == '-';
      var body := if t[0] == '-' || t[0] == '+' then t[1..] else t;
      var magnitude := if body == "Infinity" then PosInf else UnsignedDecimal(body);
      if negative then Negate(magnitude) else magnitude
  }

  /** `Number(x)`: the ToNumber conversion. */
  function ToNumber(x: JsValue): Num {
    match x
    case Undefined => NaN
    case Null => Finite(0.0)
    case Bool(b) => Finite(if b then 1.0 else 0.0)
    case Number(n) => n
    case Str(s) => StringToNumber(s)
    case Obj => NaN
  }

  /** The numeric `<` of JavaScript: false whenever NaN is involved. */
  predicate NumLess(a: Num, b: Num) {
    match (a, b)
    case (NaN, _) => false
    case (_, NaN) => false
    case (Finite(x), Finite(y)) => x < y
    case (NegInf, y) => y != NegInf
    case (x, PosInf) => x != PosInf
    case (_, _) => false
  }

  /** `a * k` for a finite factor `k`, IEEE-style on the infinities (`Infinity * 0` is NaN). */
  function NumTimes(a: Num, k: real): Num {
    match a
    case Finite(v) => Finite(v * k)
    case PosInf => if k > 0.0 then PosInf else if k < 0.0 then NegInf else NaN
    case NegInf => if k > 0.0 then NegInf else if k < 0.0 then PosInf else NaN
    case NaN => NaN
  }

  /** `a - b`, IEEE-style on the infinities (`Infinity - Infinity` is NaN). */
  function NumMinus(a: Num, b: Num): Num {
    match (a, b)
    case (Finite(x), Finite(y)) => Finite(x - y)
    case (NaN, _) => NaN
    case (_, NaN) => NaN
    case (PosInf, PosInf) => NaN
    case (NegInf, NegInf) => NaN
    case (PosInf, _) => PosInf
    case (NegInf, _) => NegInf
    case (_, PosInf) => NegInf
    case (_, NegInf) => PosInf
  }

  /** `x < n` and `x > n` for a request value `x` and a number literal `n`. */
  predicate LessThanLiteral(x: JsValue, n: real) { NumLess(ToNumber(x), Finite(n)) }
  predicate GreaterThanLiteral(x: JsValue, n: real) { NumLess(Finite(n), ToNumber(x)) }

  /**
   * `parseInt(s)` with no radix: leading white space, an optional sign, a
   * `0x`/`0X` prefix for hexadecimal, then the longest run of digits; `None`
   * (NaN) when there is no digit. The model does not produce an infinity:
   * a run of more than 309 digits is an exact integer here.
   */
  function ParseInt(s: string): (r: Option<int>)
  {
    var t := TrimStart(s);
    var negative := |t| > 0 && t[0] == '-';
    var u := if |t| > 0 && (t[0] == '-' || t[0] == '+') then t[1..] else t;
    var hex := |u| >= 2 && u[0] == '0' && (u[1] == 'x' || u[1] == 'X');
    var digits := if hex then u[2..] else u;
    var base := if hex then 16 else 10;
    var n := DigitRun(digits, base);
    if n == 0 then None
    else
      var m: int := IntValue(digits[..n], base);
      Some(if negative then -m else m)
  }

  /** `parseInt(x) || 0`: NaN and 0 both become 0. */
  function ParseIntOrZero(s: string): (r: int)
    ensures ParseInt(s).Some? ==> r == ParseInt(s).value
    ensures ParseInt(s).None? ==> r == 0
  {
    ParseInt(s).GetOr(0)
  }

  /** The decimal rendering of `n` reads back as `n`. */
  lemma {:induction false} IntValueOfNatToString(n: nat)
    ensures AllDigitsIn(NatToString(n), 10)
    ensures IntValue(NatToString(n), 10) == n
  {
    var s := NatToString(n);
    if n >= 10 {
      IntValueOfNatToString(n / 10);
      assert s[..|s| - 1] == NatToString(n / 10);
    }
  }

  /** `parseInt(String(n)) === n` for every natural number. */
  lemma ParseIntOfNatToString(n: nat)
    ensures ParseInt(NatToString(n)) == Some(n)
  {
    var s := NatToString(n);
    IntValueOfNatToString(n);
    assert LeadingSpaces(s) == 0;
    assert TrimStart(s) == s;
    assert DigitRun(s, 10) == |s| by {
      DigitRunAll(s, 10);
    }
    assert s[..|s|] == s;
  }

  /** `Number(String(n)) === n` for every natural number. */
  lemma NumberOfNatToString(n: nat)
    ensures StringToNumber(NatToString(n)) == Finite(n as real)
  {
    var s := NatToString(n);
    IntValueOfNatToString(n);
    TrimOfDigits(s);
    assert PrefixedInteger(s) == NaN by {
      if |s| > 2 { assert IsDigit(s[1]); }
    }
    assert s != "Infinity" by { assert IsDigit(s[0]); }
    UnsignedDecimalOfDigits(s);
  }

  lemma TrimOfDigits(s: string)
    requires |s| > 0 && forall k :: 0 <= k < |s| ==> IsDigit(s[k])
    ensures Trim(s) == s
  {
    assert IsDigit(s[0]) && IsDigit(s[|s| - 1]);
  }

  lemma UnsignedDecimalOfDigits(s: string)
    requires |s| > 0 && AllDigitsIn(s, 10)
    ensures UnsignedDecimal(s) == Finite(IntValue(s, 10) as real)
  {
    DigitRunAll(s, 10);
    assert s[|s|..] == "";
    assert s[..|s|] == s;
    assert Exponent("") == Some(0);
    assert Mantissa(s, "") == IntValue(s, 10) as real;
    assert ScaleBy(Mantissa(s, ""), 0) == IntValue(s, 10) as real;
  }

  lemma {:induction false} DigitRunAll(s: string, base: nat)
    requires AllDigitsIn(s, base)
    ensures DigitRun(s, base) == |s|
  {
    if |s| > 0 {
      DigitRunAll(s[1..], base);
    }
  }
}
