/**
 * The pieces of JavaScript semantics the diet tracker relies on: numbers that may be
 * NaN, `x || 0`, `a - b`, the division and comparisons of the band and rate tests,
 * `Math.round`, `String.prototype.trim`, `parseInt`, `Number` applied to a string, and
 * `String` applied to an integer.
 */
module JsValues {

  /** A JavaScript number as this model sees it: an integer value, or NaN. */
  datatype Number = NaN | Int(value: int) {

    /** `x || 0`: NaN and 0 are falsy and give 0; every other number is kept. */
    function OrZero(): (r: int)
      ensures r == 0 <==> (NaN? || value == 0)
      ensures r != 0 ==> this == Int(r)
    {
      match this
      case NaN => 0
      case Int(v) => v
    }
  }

  /** `a - b`: NaN when either side is NaN, otherwise the number that added to `b` gives `a`. */
  function Minus(a: Number, b: Number): (r: Number)
    ensures r.NaN? <==> a.NaN? || b.NaN?
    ensures r.Int? ==> r.value + b.value == a.value
  {
    if a.NaN? || b.NaN? then NaN else Int(a.value - b.value)
  }

  // ---------------------------------------------------------------------------
  // Floating-point comparisons
  // ---------------------------------------------------------------------------

  /**
   * A JavaScript number as the band and rate tests meet it: an exact finite value, one of
   * the two infinities a division by zero gives, or NaN.
   */
  datatype Float = FNaN | Finite(x: real) | PosInf | NegInf

  function ToFloat(n: Number): Float {
    match n
    case NaN => FNaN
    case Int(v) => Finite(v as real)
  }

  /**
   * `a / b` for a finite `a`: NaN over anything is NaN; by zero it is +Infinity or
   * −Infinity by the sign of `a`, and NaN for 0 / 0; a finite number over an infinity is 0.
   */
  function Divide(a: real, b: Float): (r: Float)
    ensures r.FNaN? <==> b.FNaN? || (b == Finite(0.0) && a == 0.0)
    ensures r.Finite? && b.Finite? ==> r.x * b.x == a
    ensures r.PosInf? || r.NegInf? <==> b == Finite(0.0) && a != 0.0
  {
    match b
    case FNaN => FNaN
    case Finite(y) => if y != 0.0 then Finite(a / y) else if a > 0.0 then PosInf else if a < 0.0 then NegInf else FNaN
    case _ => Finite(0.0)
  }

  /** `a * k` for a positive constant `k`: NaN and the infinities stay as they are. */
  function Scale(a: Float, k: real): (r: Float)
    requires k > 0.0
    ensures r.Finite? <==> a.Finite?
    ensures r.Finite? ==> r.x / k == a.x
    ensures !a.Finite? ==> r == a
  {
    match a
    case Finite(y) => Finite(y * k)
    case _ => a
  }

  /** `a <= b`: false whenever either side is NaN; −Infinity is below and +Infinity above every other number. */
  predicate AtMost(a: Float, b: Float) {
    match (a, b)
    case (FNaN, _) => false
    case (_, FNaN) => false
    case (NegInf, _) => true
    case (_, PosInf) => true
    case (Finite(x), Finite(y)) => x <= y
    case _ => false
  }

  /** `a < b`: false whenever either side is NaN. */
  predicate Below(a: Float, b: Float) {
    !a.FNaN? && !b.FNaN? && !AtMost(b, a)
  }

  /** Every comparison with NaN is false. */
  lemma NaNComparesFalse(a: Float)
    ensures !AtMost(FNaN, a) && !AtMost(a, FNaN) && !Below(FNaN, a) && !Below(a, FNaN)
  {
  }

  /** On numbers other than NaN `<=` is a total order and `<` is its strict part. */
  lemma AtMostTotal(a: Float, b: Float, c: Float)
    requires !a.FNaN? && !b.FNaN? && !c.FNaN?
    ensures AtMost(a, a)
    ensures AtMost(a, b) || AtMost(b, a)
    ensures AtMost(a, b) && AtMost(b, a) ==> a == b
    ensures AtMost(a, b) && AtMost(b, c) ==> AtMost(a, c)
    ensures Below(a, b) <==> AtMost(a, b) && a != b
  {
  }

  /** `Math.round` on an exact real: the nearest integer, a half rounded toward +infinity. */
  function Round(x: real): (r: int)
    ensures x - 0.5 < r as real <= x + 0.5
  {
    (x + 0.5).Floor
  }

  /** The nearest-integer property pins down `Math.round`. */
  lemma RoundUnique(x: real, k: int)
    requires x - 0.5 < k as real <= x + 0.5
    ensures Round(x) == k
  {
  }

  /** Rounding commutes with adding a whole number. */
  lemma RoundShift(x: real, k: int)
    ensures Round(x + k as real) == Round(x) + k
  {
    RoundUnique(x + k as real, Round(x) + k);
  }

  lemma RoundMonotone(x: real, y: real)
    requires x <= y
    ensures Round(x) <= Round(y)
  {
  }

  // ---------------------------------------------------------------------------
  // White space and trim
  // ---------------------------------------------------------------------------

  /** ECMAScript WhiteSpace and LineTerminator code points: what `trim` and `parseInt` skip. */
  predicate IsSpace(c: char) {
    || c == '\t' || c == '\n' || c == '\U{000B}' || c == '\U{000C}' || c == '\r' || c == ' '
    || c == '\U{00A0}' || c == '\U{1680}' || ('\U{2000}' <= c <= '\U{200A}')
    || c == '\U{2028}' || c == '\U{2029}' || c == '\U{202F}' || c == '\U{205F}'
    || c == '\U{3000}' || c == '\U{FEFF}'
  }

  /** Drops the leading white space: what is left does not start with it, and nothing but white space was dropped. */
  function TrimStart(s: string): (r: string)
    ensures |r| <= |s|
    ensures forall i :: 0 <= i < |s| - |r| ==> IsSpace(s[i])
    ensures r != [] ==> !IsSpace(r[0])
  {
    if s != [] && IsSpace(s[0]) then TrimStart(s[1..]) else s
  }

  /** What `TrimStart` keeps is a suffix of its argument. */
  lemma {:induction false} TrimStartSuffix(s: string)
    ensures TrimStart(s) == s[|s| - |TrimStart(s)|..]
  {
    if s != [] && IsSpace(s[0]) {
      TrimStartSuffix(s[1..]);
    }
  }

  /** Drops the trailing white space: what is left is a prefix that does not end with it. */
  function TrimEnd(s: string): (r: string)
    ensures |r| <= |s|
    ensures forall i :: |r| <= i < |s| ==> IsSpace(s[i])
    ensures r != [] ==> !IsSpace(r[|r| - 1])
  {
    if s != [] && IsSpace(s[|s| - 1]) then TrimEnd(s[..|s| - 1]) else s
  }

  /** What `TrimEnd` keeps is a prefix of its argument. */
  lemma {:induction false} TrimEndPrefix(s: string)
    ensures TrimEnd(s) == s[..|TrimEnd(s)|]
  {
    if s != [] && IsSpace(s[|s| - 1]) {
      TrimEndPrefix(s[..|s| - 1]);
    }
  }

  /**
   * `s.trim()`: the slice of `s` left once the white space at both ends is gone; it is
   * empty exactly when `s` is white space only.
   */
  function Trim(s: string): (r: string)
    ensures |r| <= |TrimStart(s)| <= |s|
    ensures r != [] ==> !IsSpace(r[0]) && !IsSpace(r[|r| - 1])
    ensures r == [] <==> forall i :: 0 <= i < |s| ==> IsSpace(s[i])
  {
    var t := TrimStart(s);
    var r := TrimEnd(t);
    TrimStartSuffix(s);
    TrimEndPrefix(t);
    assert r != [] ==> r[0] == t[0];
    r
  }

  /** What `Trim` keeps is one contiguous slice of its argument, starting where `TrimStart` starts. */
  lemma TrimSlice(s: string)
    ensures Trim(s) == s[|s| - |TrimStart(s)|..|s| - |TrimStart(s)| + |Trim(s)|]
  {
    TrimStartSuffix(s);
    TrimEndPrefix(TrimStart(s));
  }

  // ---------------------------------------------------------------------------
  // Decimal digits
  // ---------------------------------------------------------------------------

  predicate IsDigit(c: char) {
    '0' <= c <= '9'
  }

  function DigitValue(c: char): (d: nat)
    requires IsDigit(c)
    ensures d < 10
  {
    c as int - '0' as int
  }

  function DigitChar(d: nat): (c: char)
    requires d < 10
    ensures IsDigit(c) && DigitValue(c) == d
  {
    ('0' as int + d) as char
  }

  predicate AllDigits(s: string) {
    forall i :: 0 <= i < |s| ==> IsDigit(s[i])
  }

  /** The value of a string of decimal digits, most significant digit first. */
  function DigitsValue(s: string): nat
    requires AllDigits(s)
  {
    if s == [] then 0 else DigitsValue(s[..|s| - 1]) * 10 + DigitValue(s[|s| - 1])
  }

  /** The length of the longest run of digits at the start of `s`. */
  function DigitPrefix(s: string): (k: nat)
    ensures k <= |s| && AllDigits(s[..k])
    ensures k < |s| ==> !IsDigit(s[k])
  {
    if s != [] && IsDigit(s[0]) then
      var k := 1 + DigitPrefix(s[1..]);
      assert s[..k] == [s[0]] + s[1..][..k - 1];
      k
    else 0
  }

  // ---------------------------------------------------------------------------
  // Parsing and printing
  // ---------------------------------------------------------------------------

  /**
   * `parseInt(s)` (radix 10): skips leading white space, reads an optional sign and the
   * longest run of decimal digits after it, and is NaN when that run is empty.
   */
  function ParseInt(s: string): Number {
    var t := TrimStart(s);
    var signed := t != [] && (t[0] == '-' || t[0] == '+');
    var body := if signed then t[1..] else t;
    var k := DigitPrefix(body);
    if k == 0 then NaN
    else if signed && t[0] == '-' then Int(-(DigitsValue(body[..k]) as int))
    else Int(DigitsValue(body[..k]))
  }

  /**
   * `Number(s)` on integer literals: blank text is 0, an optionally signed run of decimal
   * digits between white space is its value, and any other text is NaN.
   */
  function NumberOf(s: string): Number {
    var t := Trim(s);
    if t == [] then Int(0)
    else
      var signed := t[0] == '-' || t[0] == '+';
      var body := if signed then t[1..] else t;
      if body == [] || !AllDigits(body) then NaN
      else if t[0] == '-' then Int(-(DigitsValue(body) as int))
      else Int(DigitsValue(body))
  }

  /** Blank text, the empty string included, converts to 0. */
  lemma NumberOfBlank(s: string)
    requires forall i :: 0 <= i < |s| ==> IsSpace(s[i])
    ensures NumberOf(s) == Int(0)
  {
  }

  /** Only integer literals are read: a decimal point makes the text NaN. */
  lemma NumberOfFraction()
    ensures NumberOf("12.5") == NaN
  {
    assert !IsDigit("12.5"[2]);
  }

  /** The decimal digits of a natural number, without leading zeros. */
  function NatToString(n: nat): (s: string)
    ensures s != [] && AllDigits(s)
  {
    if n < 10 then [DigitChar(n)] else NatToString(n / 10) + [DigitChar(n % 10)]
  }

  /** `String(n)` for an integer `n`, as `localStorage.setItem` and template strings render it. */
  function IntToString(n: int): string {
    if n < 0 then "-" + NatToString(-n) else NatToString(n)
  }

  lemma {:induction false} NatToStringValue(n: nat)
    ensures DigitsValue(NatToString(n)) == n
  {
    var s := NatToString(n);
    if n >= 10 {
      NatToStringValue(n / 10);
      assert s[..|s| - 1] == NatToString(n / 10);
    }
  }

  /** Printed integers carry no white space at either end and are never empty. */
  lemma IntToStringShape(n: int)
    ensures IntToString(n) != []
    ensures !IsSpace(IntToString(n)[0]) && IsDigit(IntToString(n)[|IntToString(n)| - 1])
    ensures TrimStart(IntToString(n)) == IntToString(n)
    ensures Trim(IntToString(n)) == IntToString(n)
  {
    var s := IntToString(n);
    var d := NatToString(if n < 0 then -n else n);
    assert s[|s| - 1] == d[|d| - 1];
    assert IsDigit(d[0]);
  }

  /** Reading back a printed integer with `Number` gives the integer again. */
  lemma NumberOfIntToString(n: int)
    ensures NumberOf(IntToString(n)) == Int(n)
  {
    IntToStringShape(n);
    var m: nat := if n < 0 then -n else n;
    NatToStringValue(m);
    var d := NatToString(m);
    if n < 0 {
      assert IntToString(n)[1..] == d;
    } else {
      assert IsDigit(d[0]);
    }
  }

  /** Reading back a printed integer with `parseInt` gives the integer again. */
  lemma ParseIntIntToString(n: int)
    ensures ParseInt(IntToString(n)) == Int(n)
  {
    IntToStringShape(n);
    var m: nat := if n < 0 then -n else n;
    NatToStringValue(m);
    var d := NatToString(m);
    assert d[..DigitPrefix(d)] == d;
    if n < 0 {
      assert IntToString(n)[1..] == d;
    } else {
      assert IsDigit(d[0]);
    }
  }
}
