/**
  The few pieces of JavaScript value semantics the upload and summary code
  relies on: spreadsheet cell values, truthiness and the `||` operator, and
  the conversion of a value to an object property key (which is how a
  compound code becomes a grouping key).
 */
module JsValues {

  /**
    A decoded spreadsheet cell. `Missing` stands for a column the row does not
    have (`undefined`); numbers are integral.
   */
  datatype Cell = Missing | Str(s: string) | Num(n: int) | Bool(b: bool)

  /** JavaScript truthiness: `undefined`, `""`, `0` and `false` are falsy. */
  predicate Truthy(c: Cell)
    ensures Truthy(c) <==> c !in {Missing, Str(""), Num(0), Bool(false)}
  {
    match c
    case Missing => false
    case Str(s) => s != ""
    case Num(n) => n != 0
    case Bool(b) => b
  }

  /** `a || b`: the left operand when it is truthy, otherwise the right one, unconverted. */
  function Or(a: Cell, b: Cell): (r: Cell)
    ensures r == a || r == b
    ensures Truthy(r) <==> Truthy(a) || Truthy(b)
    ensures Truthy(a) ==> r == a
    ensures !Truthy(a) ==> r == b
  {
    if Truthy(a) then a else b
  }

  /** The empty string literal `''`. */
  const EmptyString: Cell := Str("")

  /** `String(d)` for a single decimal digit. */
  function DigitChar(d: nat): (c: char)
    requires d < 10
    ensures '0' <= c <= '9' && c as int - '0' as int == d
  {
    (d + '0' as int) as char
  }

  predicate IsDigit(c: char) {
    '0' <= c <= '9'
  }

  predicate AllDigits(s: string) {
    forall i :: 0 <= i < |s| ==> IsDigit(s[i])
  }

  /** The value of a string of decimal digits, read left to right. */
  function DigitsValue(s: string): nat
    requires AllDigits(s)
  {
    if s == [] then 0
    else DigitsValue(s[..|s| - 1]) * 10 + (s[|s| - 1] as int - '0' as int)
  }

  /** JavaScript's decimal rendering of a non-negative integer: no sign, no leading zero. */
  function NatToString(n: nat): (s: string)
    ensures |s| > 0 && AllDigits(s)
    ensures s[0] != '0' || |s| == 1
  {
    if n < 10 then [DigitChar(n)]
    else NatToString(n / 10) + [DigitChar(n % 10)]
  }

  /** `String(n)` for an integer `n`. */
  function IntToString(n: int): string {
    if n < 0 then "-" + NatToString(-n) else NatToString(n)
  }

  /** Reading back the decimal rendering of `n` gives `n`. */
  lemma {:induction false} NatToStringRoundTrip(n: nat)
    ensures DigitsValue(NatToString(n)) == n
  {
    if n >= 10 {
      NatToStringRoundTrip(n / 10);
      var s := NatToString(n);
      assert s[..|s| - 1] == NatToString(n / 10);
    }
  }

  /**
    The property key a value becomes when used as `obj[value]`: strings are
    kept, numbers and booleans are rendered as strings, `undefined` becomes
    `"undefined"`.
   */
  function PropertyKey(c: Cell): (k: string)
    ensures c.Missing? ==> k == "undefined"
    ensures c.Str? ==> k == c.s
    ensures c.Bool? ==> k == (if c.b then "true" else "false")
    ensures c.Num? && c.n >= 0 ==> |k| > 0 && AllDigits(k) && DigitsValue(k) == c.n && (k[0] != '0' || |k| == 1)
    ensures c.Num? && c.n < 0 ==> (|k| > 1 && k[0] == '-' && AllDigits(k[1..]) && DigitsValue(k[1..]) == -c.n
      && (k[1] != '0' || |k| == 2))
  {
    match c
    case Missing => "undefined"
    case Str(s) => s
    case Num(n) =>
      NatToStringRoundTrip(if n < 0 then -n else n);
      assert n < 0 ==> IntToString(n)[1..] == NatToString(-n);
      IntToString(n)
    case Bool(b) => if b then "true" else "false"
  }

  /** 2^32 - 1, the first integer that is not a valid array index. */
  const MaxArrayIndexBound: nat := 0xFFFF_FFFF

  /**
    A canonical array-index key: the decimal rendering of an integer in
    [0, 2^32 - 1). Such keys are listed first, in numeric order, when an
    object's own keys are enumerated.
   */
  predicate IsArrayIndex(k: string) {
    && |k| > 0
    && AllDigits(k)
    && (k[0] != '0' || |k| == 1)
    && DigitsValue(k) < MaxArrayIndexBound
  }

  /** The numeric value of an array-index key. */
  function ArrayIndexValue(k: string): nat
    requires IsArrayIndex(k)
  {
    DigitsValue(k)
  }

  /** A number and its decimal string are the same property key. */
  lemma NumberAndStringShareKey(n: nat)
    ensures PropertyKey(Num(n)) == PropertyKey(Str(NatToString(n)))
  {
  }

  /** A whole number below 2^32 - 1 used as a key is an array index with that value. */
  lemma NumberKeyIsArrayIndex(n: nat)
    requires n < MaxArrayIndexBound
    ensures IsArrayIndex(PropertyKey(Num(n)))
    ensures ArrayIndexValue(PropertyKey(Num(n))) == n
  {
    NatToStringRoundTrip(n);
  }

  /** A negative number never becomes an array-index key. */
  lemma NegativeKeyIsNotArrayIndex(n: int)
    requires n < 0
    ensures !IsArrayIndex(PropertyKey(Num(n)))
  {
    assert PropertyKey(Num(n))[0] == '-';
  }
}
