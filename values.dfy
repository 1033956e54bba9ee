/**
 * The values the expression engine computes with, and the JavaScript
 * conversions its operations rely on: truthiness, `String(v)`, `Number(v)`,
 * and the primitive `+`, `*` and `/` operators.
 *
 * Numbers are integers of magnitude at most 2^53 - 1, the range in which a
 * JavaScript double is exact. A JavaScript result that is NaN, infinite,
 * fractional or larger is not a value of the model: the primitive operators
 * report it as `OutsideModel`.
 */
module Values {
  import opened Results

  /** A JavaScript value: a scalar, `undefined`, or an array of values. */
  datatype Value =
    | Undefined
    | Num(n: int)
    | Str(s: string)
    | Bool(b: bool)
    | List(items: seq<Value>)

  const MAX_SAFE_INTEGER: int := 9007199254740991

  predicate IsSafe(x: int) {
    -MAX_SAFE_INTEGER <= x <= MAX_SAFE_INTEGER
  }

  /** JavaScript truthiness: `0`, `""`, `false` and `undefined` are falsy, every array is truthy. */
  predicate Truthy(v: Value) {
    match v
    case Undefined => false
    case Num(n) => n != 0
    case Str(s) => s != ""
    case Bool(b) => b
    case List(_) => true
  }

  /** True when `v` is a safe integer, or an array all of whose elements, at every depth, are. */
  predicate IsNumeric(v: Value) {
    match v
    case Num(n) => IsSafe(n)
    case List(xs) => forall i :: 0 <= i < |xs| ==> IsNumeric(xs[i])
    case _ => false
  }

  /** True when `v` is an array all of whose elements, at every depth, are booleans. */
  predicate IsBoolean(v: Value) {
    match v
    case Bool(_) => true
    case List(xs) => forall i :: 0 <= i < |xs| ==> IsBoolean(xs[i])
    case _ => false
  }

  /** `v` and `w` are scalars, or arrays of the same length whose elements pairwise have the same shape. */
  predicate SameShape(v: Value, w: Value) {
    match v
    case List(xs) =>
      w.List? && |w.items| == |xs| && forall i :: 0 <= i < |xs| ==> SameShape(xs[i], w.items[i])
    case _ => !w.List?
  }

  /** Nesting depth of arrays; a measure for the broadcasting operations. */
  function Depth(v: Value): (d: nat)
    ensures v.List? <==> d > 0
    ensures v.List? ==> forall i :: 0 <= i < |v.items| ==> Depth(v.items[i]) < d
  {
    match v
    case List(xs) =>
      var ds := seq(|xs|, i requires 0 <= i < |xs| => Depth(xs[i]));
      assert forall i :: 0 <= i < |xs| ==> ds[i] == Depth(xs[i]);
      1 + MaxOf(ds)
    case _ => 0
  }

  function MaxOf(s: seq<nat>): (m: nat)
    ensures forall i :: 0 <= i < |s| ==> s[i] <= m
  {
    if s == [] then 0
    else
      var rest := MaxOf(s[1..]);
      assert forall i :: 1 <= i < |s| ==> s[i] == s[1..][i - 1];
      if s[0] > rest then s[0] else rest
  }

  // ---------------------------------------------------------------------
  // Whitespace and String.prototype.trim
  // ---------------------------------------------------------------------

  /** The characters `trim` and `Number` strip: white space and line terminators. */
  predicate IsWhitespace(c: char) {
    c == '\t' || c == '\n' || c == '\U{000B}' || c == '\U{000C}' || c == '\r' || c == ' '
    || c == '\U{00A0}' || c == '\U{1680}' || ('\U{2000}' <= c <= '\U{200A}')
    || c == '\U{2028}' || c == '\U{2029}' || c == '\U{202F}' || c == '\U{205F}'
    || c == '\U{3000}' || c == '\U{FEFF}'
  }

  function TrimStart(s: string): (r: string)
    ensures |r| <= |s| && r == s[|s| - |r|..]
    ensures r != [] ==> !IsWhitespace(r[0])
    ensures forall i :: 0 <= i < |s| - |r| ==> IsWhitespace(s[i])
  {
    if s != [] && IsWhitespace(s[0]) then TrimStart(s[1..]) else s
  }

  function TrimEnd(s: string): (r: string)
    ensures |r| <= |s| && r == s[..|r|]
    ensures r != [] ==> !IsWhitespace(r[|r| - 1])
    ensures forall i :: |r| <= i < |s| ==> IsWhitespace(s[i])
  {
    if s != [] && IsWhitespace(s[|s| - 1]) then TrimEnd(s[..|s| - 1]) else s
  }

  /** String.prototype.trim: `s` without its leading and trailing white space. */
  function Trim(s: string): (r: string)
    ensures r != [] ==> !IsWhitespace(r[0]) && !IsWhitespace(r[|r| - 1])
    ensures (forall i :: 0 <= i < |s| ==> IsWhitespace(s[i])) <==> r == []
  {
    var t := TrimStart(s);
    var r := TrimEnd(t);
    assert forall i :: |s| - |t| <= i < |s| ==> s[i] == t[i - (|s| - |t|)];
    r
  }

  /**
   * `Trim(s)` is the slice of `s` that starts after the leading white space
   * and has only white space after it: nothing but the two blank ends is cut.
   */
  lemma TrimCutsBlankEnds(s: string)
    ensures var a, r := |s| - |TrimStart(s)|, Trim(s);
      a + |r| <= |s| && (forall k :: 0 <= k < |r| ==> r[k] == s[a + k]) &&
      (forall i :: 0 <= i < a ==> IsWhitespace(s[i])) && (forall i :: a + |r| <= i < |s| ==> IsWhitespace(s[i]))
  {
    var t := TrimStart(s);
    SliceOfSuffix(s, t, TrimEnd(t));
  }

  /** A prefix `r` of a suffix `t` of `s` sits in `s` at the start of `t`, and what `t` has after `r` is what `s` has after it. */
  lemma SliceOfSuffix(s: string, t: string, r: string)
    requires |t| <= |s| && t == s[|s| - |t|..]
    requires |r| <= |t| && r == t[..|r|]
    requires forall i :: |r| <= i < |t| ==> IsWhitespace(t[i])
    ensures var a := |s| - |t|;
      (forall k :: 0 <= k < |r| ==> r[k] == s[a + k]) && (forall i :: a + |r| <= i < |s| ==> IsWhitespace(s[i]))
  {
    var a := |s| - |t|;
    forall i | a + |r| <= i < |s| ensures IsWhitespace(s[i]) {
      assert s[i] == t[i - a];
    }
  }

  // ---------------------------------------------------------------------
  // Decimal digits: Number -> String and String -> Number
  // ---------------------------------------------------------------------

  predicate IsDigit(c: char) {
    '0' <= c <= '9'
  }

  predicate AllDigits(s: string) {
    forall i :: 0 <= i < |s| ==> IsDigit(s[i])
  }

  function DigitsValue(s: string): nat
    requires AllDigits(s)
  {
    if s == [] then 0 else DigitsValue(s[..|s| - 1]) * 10 + (s[|s| - 1] as int - '0' as int)
  }

  /** The decimal digits of `m`, without leading zeros. */
  function Digits(m: nat): (s: string)
    ensures s != [] && AllDigits(s)
    ensures DigitsValue(s) == m
  {
    var last := [('0' as int + m % 10) as char];
    if m < 10 then last
    else
      var s := Digits(m / 10) + last;
      assert s[..|s| - 1] == Digits(m / 10);
      s
  }

  /** `String(n)` for an integer within the safe range: an optional `-` and the digits. */
  function DecimalString(n: int): string {
    if n < 0 then "-" + Digits(-n) else Digits(n)
  }

  /**
   * `Number(s)` for the strings whose value is a safe integer written in
   * decimal with an optional sign; the empty and all-blank strings are 0.
   * Every other string (NaN, fractions, exponents, hexadecimal, unsafe
   * magnitudes) is `None`: outside the model.
   */
  function StrToNumber(s: string): Option<int> {
    var t := Trim(s);
    if t == "" then Some(0)
    else if (t[0] == '-' || t[0] == '+') && |t| > 1 && AllDigits(t[1..]) then
      var m: int := DigitsValue(t[1..]);
      var x := if t[0] == '-' then -m else m;
      if IsSafe(x) then Some(x) else None
    else if AllDigits(t) && IsSafe(DigitsValue(t)) then Some(DigitsValue(t))
    else None
  }

  /** Printing a safe integer and reading it back gives the integer again. */
  lemma NumberRoundTrip(n: int)
    requires IsSafe(n)
    ensures StrToNumber(DecimalString(n)) == Some(n)
  {
    var s := DecimalString(n);
    assert !IsWhitespace(s[0]) && !IsWhitespace(s[|s| - 1]);
    assert TrimStart(s) == s;
    assert TrimEnd(s) == s;
    if n < 0 {
      assert s[1..] == Digits(-n);
      assert !AllDigits(s) by { assert !IsDigit(s[0]); }
    }
  }

  // ---------------------------------------------------------------------
  // String(v) and Number(v)
  // ---------------------------------------------------------------------

  /** `String(v)`; an array prints as its elements joined by commas, `undefined` elements as empty. */
  function JsString(v: Value): string {
    match v
    case Undefined => "undefined"
    case Num(n) => DecimalString(n)
    case Str(s) => s
    case Bool(b) => if b then "true" else "false"
    case List(xs) => JoinFrom(xs, 0)
  }

  /** `xs.slice(k).join(",")`, with the leading comma when `k > 0`. */
  function JoinFrom(xs: seq<Value>, k: nat): string
    decreases xs, |xs| - k
  {
    if k >= |xs| then ""
    else
      (if k > 0 then "," else "") + (if xs[k].Undefined? then "" else JsString(xs[k])) + JoinFrom(xs, k + 1)
  }

  /** `Number(v)` when it is a safe integer; `None` when it is NaN or otherwise outside the model. */
  function ToNumber(v: Value): Option<int> {
    match v
    case Undefined => None
    case Num(n) => Some(n)
    case Bool(b) => Some(if b then 1 else 0)
    case Str(s) => StrToNumber(s)
    case List(_) => StrToNumber(JsString(v))
  }

  function SafeNum(x: int, operation: string): Result<Value> {
    if IsSafe(x) then Ok(Num(x)) else Err(OutsideModel(operation))
  }

  /** True when JavaScript's `+` concatenates: one operand is a string or an array. */
  predicate Concatenates(a: Value, b: Value) {
    a.Str? || a.List? || b.Str? || b.List?
  }

  /** JavaScript's `a + b` on values. */
  function JsAdd(a: Value, b: Value): Result<Value> {
    if Concatenates(a, b) then Ok(Str(JsString(a) + JsString(b)))
    else
      match (ToNumber(a), ToNumber(b))
      case (Some(x), Some(y)) => SafeNum(x + y, "+")
      case _ => Err(OutsideModel("+"))
  }

  /** JavaScript's `a * b` on values. */
  function JsMul(a: Value, b: Value): Result<Value> {
    match (ToNumber(a), ToNumber(b))
    case (Some(x), Some(y)) => SafeNum(x * y, "*")
    case _ => Err(OutsideModel("*"))
  }

  /** JavaScript's `a / b` on values; only exact quotients are integers. */
  function JsDiv(a: Value, b: Value): Result<Value> {
    match (ToNumber(a), ToNumber(b))
    case (Some(x), Some(y)) =>
      if y != 0 && x % y == 0 then SafeNum(x / y, "/") else Err(OutsideModel("/"))
    case _ => Err(OutsideModel("/"))
  }
}
