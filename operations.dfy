/**
 * The operations behind the operator catalog (shuntingYard.js:275-434):
 * the broadcasting arithmetic `plus`, `minus`, `multiply` and `divide`,
 * the unary `unaryPlus`, `unaryMinus`, `booleanNegate` and `factorial`,
 * the array `append`, and the variadic `sum`.
 *
 * Each is modelled as the JavaScript function behaves when it is called as
 * a static method of `ShuntingYard`, so that `this.plus` and `this.multiply`
 * inside it resolve. (When the evaluator calls them through an operator
 * object they do not; see `Evaluator.Apply`.)
 */
module Operations {
  import opened Results
  import opened Values

  function Max(a: nat, b: nat): nat {
    if a < b then b else a
  }

  /** `xs[i] ? xs[i] : 0`: the element at `i`, or 0 when it is missing or falsy. */
  function At(xs: seq<Value>, i: nat): (r: Value)
    ensures Depth(r) < Depth(List(xs))
    ensures i < |xs| && Truthy(xs[i]) ==> r == xs[i]
    ensures !(i < |xs| && Truthy(xs[i])) ==> r == Num(0)
  {
    if i < |xs| && Truthy(xs[i]) then xs[i] else Num(0)
  }

  /** An array built from the collected element results, or the first failure. */
  function Wrap(r: Result<seq<Value>>): Result<Value> {
    match r
    case Ok(vs) => Ok(List(vs))
    case Err(e) => Err(e)
  }

  /** What `Wrap(AllOk(rs))` says about the element results `rs`. */
  lemma WrapAllOk(rs: seq<Result<Value>>)
    ensures Wrap(AllOk(rs)).Ok? <==> forall i :: 0 <= i < |rs| ==> rs[i].Ok?
    ensures Wrap(AllOk(rs)).Ok? ==>
      Wrap(AllOk(rs)).value.List? && |Wrap(AllOk(rs)).value.items| == |rs| &&
      forall i :: 0 <= i < |rs| ==> rs[i] == Ok(Wrap(AllOk(rs)).value.items[i])
    ensures Wrap(AllOk(rs)).Err? ==>
      exists i :: 0 <= i < |rs| && rs[i] == Err(Wrap(AllOk(rs)).error) && forall j :: 0 <= j < i ==> rs[j].Ok?
  {
  }

  /** The array of the integers `ns`. */
  function Nums(ns: seq<int>): Value {
    List(seq(|ns|, i requires 0 <= i < |ns| => Num(ns[i])))
  }

  /** `ns[i]`, or 0 past the end. */
  function Get(ns: seq<int>, i: nat): int {
    if i < |ns| then ns[i] else 0
  }

  // ---------------------------------------------------------------------
  // plus
  // ---------------------------------------------------------------------

  /**
   * ShuntingYard.plus: an array augend is broadcast; against a scalar every
   * element is added to it, against an array the two are added position by
   * position, a missing or falsy position counting as 0. A scalar augend is
   * JavaScript's `+` (which concatenates when either side is a string or array).
   */
  function Add(augend: Value, addend: Value): (r: Result<Value>)
    decreases Depth(augend) + Depth(addend)
    ensures !augend.List? ==> r == JsAdd(augend, addend)
    ensures augend.List? && !addend.List? && r.Ok? ==>
      r.value.List? && |r.value.items| == |augend.items|
    ensures augend.List? && addend.List? && r.Ok? ==>
      r.value.List? && |r.value.items| == Max(|augend.items|, |addend.items|)
  {
    match augend
    case List(xs) =>
      if addend.List? then
        var n := Max(|xs|, |addend.items|);
        Wrap(AllOk(seq(n, i requires 0 <= i < n => Add(At(xs, i), At(addend.items, i)))))
      else
        Wrap(AllOk(seq(|xs|, i requires 0 <= i < |xs| => Add(xs[i], addend))))
    case _ => JsAdd(augend, addend)
  }

  /** ShuntingYard.plus, its array-array loop in `PlusPositionwise`. */
  method Plus(augend: Value, addend: Value) returns (r: Result<Value>)
    ensures r == Add(augend, addend)
    decreases Depth(augend) + Depth(addend), 1
  {
    if !augend.List? {
      return JsAdd(augend, addend);
    }
    var xs := augend.items;
    if !addend.List? {
      return Wrap(AllOk(seq(|xs|, i requires 0 <= i < |xs| => Add(xs[i], addend))));
    }
    r := PlusPositionwise(xs, addend.items);
    AddArrays(xs, addend.items);
  }

  /** The results of adding two arrays position by position, a missing or falsy position counting as 0. */
  ghost function Positions(xs: seq<Value>, ys: seq<Value>): seq<Result<Value>> {
    seq(Max(|xs|, |ys|), k requires 0 <= k < Max(|xs|, |ys|) => Add(At(xs, k), At(ys, k)))
  }

  /** Adding two arrays collects their position results. */
  lemma AddArrays(xs: seq<Value>, ys: seq<Value>)
    ensures Add(List(xs), List(ys)) == Wrap(AllOk(Positions(xs, ys)))
  {
    var n := Max(|xs|, |ys|);
    assert Positions(xs, ys) == seq(n, k requires 0 <= k < n => Add(At(xs, k), At(ys, k)));
  }

  /** The array-array loop of ShuntingYard.plus, building `sum` element by element. */
  method PlusPositionwise(xs: seq<Value>, ys: seq<Value>) returns (r: Result<Value>)
    ensures r == Wrap(AllOk(Positions(xs, ys)))
    decreases Depth(List(xs)) + Depth(List(ys)), 0
  {
    ghost var rs := Positions(xs, ys);
    var sum: seq<Value> := [];
    var i := 0;
    while i < |xs| || i < |ys|
      invariant 0 <= i <= |rs|
      invariant |sum| == i
      invariant forall k :: 0 <= k < i ==> rs[k] == Ok(sum[k])
      decreases |rs| - i
    {
      var e := Plus(At(xs, i), At(ys, i));
      assert rs[i] == e;
      if e.Err? {
        AllOkFirstError(rs, i);
        return Err(e.error);
      }
      sum := sum + [e.value];
      i := i + 1;
    }
    assert AllOk(rs).value == sum;
    return Ok(List(sum));
  }

  /** The array-array loop of `plus` that stops at position `i` fails with that position's error. */
  lemma PositionwiseStops(xs: seq<Value>, ys: seq<Value>, i: nat)
    requires i < Max(|xs|, |ys|) && Add(At(xs, i), At(ys, i)).Err?
    requires forall k :: 0 <= k < i ==> Add(At(xs, k), At(ys, k)).Ok?
    ensures Add(List(xs), List(ys)) == Err(Add(At(xs, i), At(ys, i)).error)
  {
    var n := Max(|xs|, |ys|);
    var rs := seq(n, k requires 0 <= k < n => Add(At(xs, k), At(ys, k)));
    assert Add(List(xs), List(ys)) == Wrap(AllOk(rs));
    AllOkFirstError(rs, i);
  }

  /** The array-array loop of `plus` that runs to the end returns the sums it collected. */
  lemma PositionwiseDone(xs: seq<Value>, ys: seq<Value>, sum: seq<Value>)
    requires |sum| == Max(|xs|, |ys|)
    requires forall k :: 0 <= k < |sum| ==> Add(At(xs, k), At(ys, k)) == Ok(sum[k])
    ensures Add(List(xs), List(ys)) == Ok(List(sum))
  {
    AddPositionwise(xs, ys);
    var items := Add(List(xs), List(ys)).value.items;
    assert items == sum;
  }

  /** Adding a scalar to an array adds it to every element. */
  lemma {:induction false} AddScalarToEach(xs: seq<Value>, b: Value)
    requires !b.List?
    ensures Add(List(xs), b).Ok? <==> forall i :: 0 <= i < |xs| ==> Add(xs[i], b).Ok?
    ensures Add(List(xs), b).Ok? ==>
      forall i :: 0 <= i < |xs| ==> Add(xs[i], b) == Ok(Add(List(xs), b).value.items[i])
  {
    var rs := seq(|xs|, i requires 0 <= i < |xs| => Add(xs[i], b));
    assert forall i :: 0 <= i < |xs| ==> rs[i] == Add(xs[i], b);
    assert Add(List(xs), b) == Wrap(AllOk(rs));
    assert Add(List(xs), b).Ok? <==> AllOk(rs).Ok?;
  }

  /** Adding two arrays adds them position by position, missing and falsy positions counting as 0. */
  lemma {:induction false} AddPositionwise(xs: seq<Value>, ys: seq<Value>)
    ensures Add(List(xs), List(ys)).Ok? <==>
      forall i :: 0 <= i < Max(|xs|, |ys|) ==> Add(At(xs, i), At(ys, i)).Ok?
    ensures Add(List(xs), List(ys)).Ok? ==>
      forall i :: 0 <= i < Max(|xs|, |ys|) ==>
        Add(At(xs, i), At(ys, i)) == Ok(Add(List(xs), List(ys)).value.items[i])
  {
    var n := Max(|xs|, |ys|);
    var rs := seq(n, i requires 0 <= i < n => Add(At(xs, i), At(ys, i)));
    assert forall i :: 0 <= i < n ==> rs[i] == Add(At(xs, i), At(ys, i));
    assert Add(List(xs), List(ys)) == Wrap(AllOk(rs));
    assert Add(List(xs), List(ys)).Ok? <==> AllOk(rs).Ok?;
  }

  /** The integer element sums of two arrays, the shorter one padded with zeros. */
  function PaddedSum(xs: seq<int>, ys: seq<int>): seq<int> {
    seq(Max(|xs|, |ys|), i requires 0 <= i < Max(|xs|, |ys|) => Get(xs, i) + Get(ys, i))
  }

  lemma AtNums(ns: seq<int>, i: nat)
    ensures At(Nums(ns).items, i) == Num(Get(ns, i))
  {
  }

  lemma AddSafeNumbers(x: int, y: int)
    requires IsSafe(x + y)
    ensures Add(Num(x), Num(y)) == Ok(Num(x + y))
  {
    assert !Concatenates(Num(x), Num(y));
  }

  /** Adding arrays of integers is zero-padded position-wise integer addition. */
  lemma {:induction false} AddIntegerArrays(xs: seq<int>, ys: seq<int>)
    requires forall i :: 0 <= i < Max(|xs|, |ys|) ==> IsSafe(Get(xs, i) + Get(ys, i))
    ensures Add(Nums(xs), Nums(ys)) == Ok(Nums(PaddedSum(xs, ys)))
  {
    var a, b := Nums(xs).items, Nums(ys).items;
    var n := Max(|xs|, |ys|);
    forall i | 0 <= i < n
      ensures Add(At(a, i), At(b, i)) == Ok(Num(Get(xs, i) + Get(ys, i)))
    {
      AtNums(xs, i);
      AtNums(ys, i);
      AddSafeNumbers(Get(xs, i), Get(ys, i));
    }
    var sums := PaddedSum(xs, ys);
    AddPositionwise(a, b);
    var r := Add(List(a), List(b));
    assert r.Ok? && |r.value.items| == n;
    assert forall i :: 0 <= i < n ==> r.value.items[i] == Num(sums[i]);
    assert r.value.items == Nums(sums).items;
    assert Nums(xs) == List(a) && Nums(ys) == List(b);
  }

  /** Adding an integer to an array of integers adds it to each element. */
  lemma {:induction false} AddIntegerToArray(xs: seq<int>, c: int)
    requires forall i :: 0 <= i < |xs| ==> IsSafe(xs[i] + c)
    ensures Add(Nums(xs), Num(c)) == Ok(Nums(seq(|xs|, i requires 0 <= i < |xs| => xs[i] + c)))
  {
    var a := Nums(xs).items;
    forall i | 0 <= i < |xs| ensures Add(a[i], Num(c)) == Ok(Num(xs[i] + c)) {
      AddSafeNumbers(xs[i], c);
    }
    AddScalarToEach(a, Num(c));
    var r := Add(Nums(xs), Num(c));
    var sums := seq(|xs|, i requires 0 <= i < |xs| => xs[i] + c);
    assert r.Ok? && |r.value.items| == |xs|;
    assert forall i :: 0 <= i < |xs| ==> r.value.items[i] == Num(sums[i]);
    assert r.value.items == Nums(sums).items;
  }

  /** The examples in the comment above `plus` (shuntingYard.js:314-317). */
  lemma PlusCommentExamples()
    ensures Add(Nums([1, 2, 3]), Num(4)) == Ok(Nums([5, 6, 7]))
    ensures Add(Nums([1, 2, 3]), Nums([4])) == Ok(Nums([5, 2, 3]))
    ensures Add(Nums([1, 2, 3]), Nums([4, 5, 6])) == Ok(Nums([5, 7, 9]))
    ensures Add(Nums([1, 2, 3]), Nums([4, 5, 6, 7, 8, 9])) == Ok(Nums([5, 7, 9, 7, 8, 9]))
  {
    AddIntegerToArray([1, 2, 3], 4);
    assert seq(3, i requires 0 <= i < 3 => [1, 2, 3][i] + 4) == [5, 6, 7];
    AddIntegerArrays([1, 2, 3], [4]);
    assert PaddedSum([1, 2, 3], [4]) == [5, 2, 3];
    AddIntegerArrays([1, 2, 3], [4, 5, 6]);
    assert PaddedSum([1, 2, 3], [4, 5, 6]) == [5, 7, 9];
    AddIntegerArrays([1, 2, 3], [4, 5, 6, 7, 8, 9]);
    assert PaddedSum([1, 2, 3], [4, 5, 6, 7, 8, 9]) == [5, 7, 9, 7, 8, 9];
  }

  // ---------------------------------------------------------------------
  // minus, multiply, divide (as written: their array branches call plus)
  // ---------------------------------------------------------------------

  /**
   * ShuntingYard.minus as written: every branch adds. The scalar branch
   * returns `minuend + subtrahend` and both array branches call `this.plus`.
   */
  function Subtract(minuend: Value, subtrahend: Value): (r: Result<Value>)
    ensures r == Add(minuend, subtrahend)
  {
    match minuend
    case List(xs) =>
      if subtrahend.List? then
        var n := Max(|xs|, |subtrahend.items|);
        Wrap(AllOk(seq(n, i requires 0 <= i < n => Add(At(xs, i), At(subtrahend.items, i)))))
      else
        Wrap(AllOk(seq(|xs|, i requires 0 <= i < |xs| => Add(xs[i], subtrahend))))
    case _ => JsAdd(minuend, subtrahend)
  }

  /**
   * ShuntingYard.multiply as written: an array times a scalar calls
   * `this.plus` on each element; two arrays are multiplied position by
   * position, missing and falsy positions counting as 0.
   */
  function Multiply(multiplier: Value, multiplicand: Value): (r: Result<Value>)
    decreases Depth(multiplier) + Depth(multiplicand)
    ensures !multiplier.List? ==> r == JsMul(multiplier, multiplicand)
    ensures multiplier.List? && !multiplicand.List? ==> r == Add(multiplier, multiplicand)
    ensures multiplier.List? && multiplicand.List? && r.Ok? ==>
      r.value.List? && |r.value.items| == Max(|multiplier.items|, |multiplicand.items|)
  {
    match multiplier
    case List(xs) =>
      if multiplicand.List? then
        var n := Max(|xs|, |multiplicand.items|);
        Wrap(AllOk(seq(n, i requires 0 <= i < n => Multiply(At(xs, i), At(multiplicand.items, i)))))
      else
        Wrap(AllOk(seq(|xs|, i requires 0 <= i < |xs| => Add(xs[i], multiplicand))))
    case _ => JsMul(multiplier, multiplicand)
  }

  /** The integer element products of two arrays, the shorter one padded with zeros. */
  function PaddedProduct(xs: seq<int>, ys: seq<int>): seq<int> {
    seq(Max(|xs|, |ys|), i requires 0 <= i < Max(|xs|, |ys|) => Get(xs, i) * Get(ys, i))
  }

  /** Multiplying arrays of integers is zero-padded position-wise integer multiplication. */
  lemma {:induction false} MultiplyIntegerArrays(xs: seq<int>, ys: seq<int>)
    requires forall i :: 0 <= i < Max(|xs|, |ys|) ==> IsSafe(Get(xs, i) * Get(ys, i))
    ensures Multiply(Nums(xs), Nums(ys)) == Ok(Nums(PaddedProduct(xs, ys)))
  {
    var a, b := Nums(xs).items, Nums(ys).items;
    var n := Max(|xs|, |ys|);
    var rs := seq(n, i requires 0 <= i < n => Multiply(At(a, i), At(b, i)));
    forall i | 0 <= i < n
      ensures rs[i] == Ok(Num(Get(xs, i) * Get(ys, i)))
    {
      AtNums(xs, i);
      AtNums(ys, i);
    }
    assert Multiply(Nums(xs), Nums(ys)) == Wrap(AllOk(rs));
    var r := AllOk(rs);
    assert r.value == Nums(PaddedProduct(xs, ys)).items;
  }

  /**
   * ShuntingYard.divide as written: an array divided by a scalar calls
   * `this.plus` on each element, two arrays call `this.multiply` position by
   * position; only the scalar branch divides.
   */
  function Divide(dividend: Value, divisor: Value): (r: Result<Value>)
    ensures !dividend.List? ==> r == JsDiv(dividend, divisor)
    ensures dividend.List? && !divisor.List? ==> r == Add(dividend, divisor)
    ensures dividend.List? && divisor.List? ==> r == Multiply(dividend, divisor)
  {
    match dividend
    case List(xs) =>
      if divisor.List? then
        var n := Max(|xs|, |divisor.items|);
        Wrap(AllOk(seq(n, i requires 0 <= i < n => Multiply(At(xs, i), At(divisor.items, i)))))
      else
        Wrap(AllOk(seq(|xs|, i requires 0 <= i < |xs| => Add(xs[i], divisor))))
    case _ => JsDiv(dividend, divisor)
  }

  // ---------------------------------------------------------------------
  // unaryPlus, unaryMinus
  // ---------------------------------------------------------------------

  /** ShuntingYard.unaryPlus: each scalar, at any depth, multiplied by 1 (converted to a number). */
  function UnaryPlus(operand: Value): (r: Result<Value>)
    ensures r.Ok? ==> IsNumeric(r.value) && SameShape(operand, r.value)
  {
    match operand
    case List(xs) => Wrap(AllOk(seq(|xs|, i requires 0 <= i < |xs| => UnaryPlus(xs[i]))))
    case _ => Multiply(operand, Num(1))
  }

  /** ShuntingYard.unaryMinus: each scalar, at any depth, multiplied by -1. */
  function UnaryMinus(operand: Value): (r: Result<Value>)
    ensures r.Ok? ==> IsNumeric(r.value) && SameShape(operand, r.value)
  {
    match operand
    case List(xs) => Wrap(AllOk(seq(|xs|, i requires 0 <= i < |xs| => UnaryMinus(xs[i]))))
    case _ => Multiply(operand, Num(-1))
  }

  /**
   * Unary plus maps over an array as JavaScript's `map` does: it succeeds exactly
   * when every element does, element i of the result being the element's
   * result, and otherwise fails with the first failing element's error.
   */
  lemma UnaryPlusMaps(xs: seq<Value>)
    ensures UnaryPlus(List(xs)).Ok? <==> forall i :: 0 <= i < |xs| ==> UnaryPlus(xs[i]).Ok?
    ensures UnaryPlus(List(xs)).Ok? ==>
      UnaryPlus(List(xs)).value.List? && |UnaryPlus(List(xs)).value.items| == |xs| &&
      forall i :: 0 <= i < |xs| ==> UnaryPlus(xs[i]) == Ok(UnaryPlus(List(xs)).value.items[i])
    ensures UnaryPlus(List(xs)).Err? ==>
      exists i :: 0 <= i < |xs| && UnaryPlus(xs[i]) == Err(UnaryPlus(List(xs)).error) &&
        forall j :: 0 <= j < i ==> UnaryPlus(xs[j]).Ok?
  {
    var rs := seq(|xs|, i requires 0 <= i < |xs| => UnaryPlus(xs[i]));
    assert forall i :: 0 <= i < |xs| ==> rs[i] == UnaryPlus(xs[i]);
    assert UnaryPlus(List(xs)) == Wrap(AllOk(rs));
    WrapAllOk(rs);
  }

  /**
   * Unary minus maps over an array as JavaScript's `map` does: it succeeds exactly
   * when every element does, element i of the result being the element's
   * result, and otherwise fails with the first failing element's error.
   */
  lemma UnaryMinusMaps(xs: seq<Value>)
    ensures UnaryMinus(List(xs)).Ok? <==> forall i :: 0 <= i < |xs| ==> UnaryMinus(xs[i]).Ok?
    ensures UnaryMinus(List(xs)).Ok? ==>
      UnaryMinus(List(xs)).value.List? && |UnaryMinus(List(xs)).value.items| == |xs| &&
      forall i :: 0 <= i < |xs| ==> UnaryMinus(xs[i]) == Ok(UnaryMinus(List(xs)).value.items[i])
    ensures UnaryMinus(List(xs)).Err? ==>
      exists i :: 0 <= i < |xs| && UnaryMinus(xs[i]) == Err(UnaryMinus(List(xs)).error) &&
        forall j :: 0 <= j < i ==> UnaryMinus(xs[j]).Ok?
  {
    var rs := seq(|xs|, i requires 0 <= i < |xs| => UnaryMinus(xs[i]));
    assert forall i :: 0 <= i < |xs| ==> rs[i] == UnaryMinus(xs[i]);
    assert UnaryMinus(List(xs)) == Wrap(AllOk(rs));
    WrapAllOk(rs);
  }

  /** Every number, at any depth, negated. */
  function Negated(v: Value): Value {
    match v
    case Num(n) => Num(-n)
    case List(xs) => List(seq(|xs|, i requires 0 <= i < |xs| => Negated(xs[i])))
    case _ => v
  }

  /** A result with its value negated; a failure is kept. */
  function NegatedResult(r: Result<Value>): Result<Value> {
    match r
    case Ok(w) => Ok(Negated(w))
    case Err(e) => Err(e)
  }

  /** Collecting element results that are negated versions of others negates the collected array. */
  lemma AllOkNegated(ms: seq<Result<Value>>, ps: seq<Result<Value>>)
    requires |ms| == |ps|
    requires forall i :: 0 <= i < |ps| ==> ms[i] == NegatedResult(ps[i])
    ensures Wrap(AllOk(ms)) == NegatedResult(Wrap(AllOk(ps)))
  {
    if AllOk(ps).Ok? {
      var ws := AllOk(ps).value;
      assert forall i :: 0 <= i < |ms| ==> ms[i] == Ok(Negated(ws[i]));
      var ns := AllOk(ms).value;
      assert ns == seq(|ws|, i requires 0 <= i < |ws| => Negated(ws[i]));
      assert Negated(List(ws)) == List(ns);
    } else {
      var k :| 0 <= k < |ps| && ps[k] == Err(AllOk(ps).error) && forall j :: 0 <= j < k ==> ps[j].Ok?;
      AllOkFirstError(ms, k);
    }
  }

  /** Unary minus is unary plus followed by negation, failing exactly where unary plus fails. */
  lemma {:induction false} UnaryMinusIsNegatedUnaryPlus(v: Value)
    ensures UnaryMinus(v) == NegatedResult(UnaryPlus(v))
    decreases v, 1
  {
    match v
    case List(xs) =>
      ElementsNegated(xs);
      ListNegated(xs);
    case _ =>
      ScalarNegated(v);
  }

  /** On a scalar, multiplying by -1 is multiplying by 1 and negating. */
  lemma ScalarNegated(v: Value)
    requires !v.List?
    ensures UnaryMinus(v) == NegatedResult(UnaryPlus(v))
  {
    ScalarUnary(v);
    SafeNumNegated(ToNumber(v));
  }

  /** Reading a number and negating it is negating the number read. */
  lemma SafeNumNegated(x: Option<int>)
    ensures (match x case None => Err(OutsideModel("*")) case Some(n) => SafeNum(-n, "*")) ==
      NegatedResult(match x case None => Err(OutsideModel("*")) case Some(n) => SafeNum(n, "*"))
  {
    if x.Some? && IsSafe(x.value) {
      assert Negated(Num(x.value)) == Num(-x.value);
    }
  }

  /** Unary plus and minus on a scalar: its number, and its number negated. */
  lemma ScalarUnary(v: Value)
    requires !v.List?
    ensures UnaryPlus(v) == (match ToNumber(v) case None => Err(OutsideModel("*")) case Some(x) => SafeNum(x, "*"))
    ensures UnaryMinus(v) == (match ToNumber(v) case None => Err(OutsideModel("*")) case Some(x) => SafeNum(-x, "*"))
  {
    ScaledScalar(v, 1);
    ScaledScalar(v, -1);
    assert UnaryPlus(v) == Multiply(v, Num(1));
    assert UnaryMinus(v) == Multiply(v, Num(-1));
  }

  /** A scalar multiplied by the number `c`. */
  lemma ScaledScalar(v: Value, c: int)
    requires !v.List?
    ensures Multiply(v, Num(c)) == (match ToNumber(v) case None => Err(OutsideModel("*")) case Some(x) => SafeNum(x * c, "*"))
  {
  }

  /** An array whose elements each satisfy the relation satisfies it too. */
  lemma ListNegated(xs: seq<Value>)
    requires forall i :: 0 <= i < |xs| ==>
      UnaryMinus(xs[i]) == NegatedResult(UnaryPlus(xs[i]))
    ensures UnaryMinus(List(xs)) == NegatedResult(UnaryPlus(List(xs)))
  {
    var ms := seq(|xs|, i requires 0 <= i < |xs| => UnaryMinus(xs[i]));
    var ps := seq(|xs|, i requires 0 <= i < |xs| => UnaryPlus(xs[i]));
    AllOkNegated(ms, ps);
    assert UnaryMinus(List(xs)) == Wrap(AllOk(ms));
    assert UnaryPlus(List(xs)) == Wrap(AllOk(ps));
  }

  lemma {:induction false} ElementsNegated(xs: seq<Value>)
    ensures forall i :: 0 <= i < |xs| ==>
      UnaryMinus(xs[i]) == NegatedResult(UnaryPlus(xs[i]))
    decreases List(xs), 0
  {
    forall i | 0 <= i < |xs|
      ensures UnaryMinus(xs[i]) == NegatedResult(UnaryPlus(xs[i]))
    {
      UnaryMinusIsNegatedUnaryPlus(xs[i]);
    }
  }

  /** Negating numbers twice gives them back. */
  lemma {:induction false} NegatedTwice(v: Value)
    ensures Negated(Negated(v)) == v
  {
    match v
    case List(xs) =>
      forall i | 0 <= i < |xs| ensures Negated(Negated(xs[i])) == xs[i] {
        NegatedTwice(xs[i]);
      }
      assert Negated(Negated(v)).items == xs;
    case _ =>
  }

  /** Negation keeps an array of safe integers one of safe integers. */
  lemma {:induction false} NegatedNumeric(v: Value)
    requires IsNumeric(v)
    ensures IsNumeric(Negated(v))
  {
    match v
    case List(xs) =>
      forall i | 0 <= i < |xs| ensures IsNumeric(Negated(xs[i])) {
        NegatedNumeric(xs[i]);
      }
    case _ =>
  }

  /** Unary plus leaves numbers, and arrays of numbers, unchanged. */
  lemma {:induction false} UnaryPlusOfNumeric(v: Value)
    requires IsNumeric(v)
    ensures UnaryPlus(v) == Ok(v)
  {
    match v
    case List(xs) =>
      var ps := seq(|xs|, i requires 0 <= i < |xs| => UnaryPlus(xs[i]));
      forall i | 0 <= i < |xs| ensures ps[i] == Ok(xs[i]) {
        UnaryPlusOfNumeric(xs[i]);
      }
      assert AllOk(ps).value == xs;
    case _ =>
  }

  /** Unary plus leaves its own results unchanged. */
  lemma UnaryPlusIdempotent(v: Value)
    requires UnaryPlus(v).Ok?
    ensures UnaryPlus(UnaryPlus(v).value) == UnaryPlus(v)
  {
    UnaryPlusOfNumeric(UnaryPlus(v).value);
  }

  /** Unary plus reads an array of decimal numerals, as the evaluator pushes them, as the array of their numbers. */
  lemma UnaryPlusOfNumerals(ns: seq<int>)
    requires forall i :: 0 <= i < |ns| ==> IsSafe(ns[i])
    ensures UnaryPlus(List(seq(|ns|, i requires 0 <= i < |ns| => Str(DecimalString(ns[i]))))) == Ok(Nums(ns))
  {
    var xs := seq(|ns|, i requires 0 <= i < |ns| => Str(DecimalString(ns[i])));
    forall i | 0 <= i < |ns| ensures UnaryPlus(xs[i]) == Ok(Num(ns[i])) {
      ScalarUnary(xs[i]);
      NumberRoundTrip(ns[i]);
    }
    assert UnaryPlus(List(xs)).value.items == Nums(ns).items;
  }

  /** Negating twice converts to a number: `-(-v)` is `+v`. */
  lemma UnaryMinusTwice(v: Value)
    requires UnaryMinus(v).Ok?
    ensures UnaryMinus(UnaryMinus(v).value) == UnaryPlus(v)
  {
    UnaryMinusIsNegatedUnaryPlus(v);
    var w := UnaryPlus(v).value;
    NegatedNumeric(w);
    UnaryPlusOfNumeric(Negated(w));
    UnaryMinusIsNegatedUnaryPlus(Negated(w));
    NegatedTwice(w);
  }

  // ---------------------------------------------------------------------
  // booleanNegate
  // ---------------------------------------------------------------------

  /** ShuntingYard.booleanNegate: `!v` on every scalar, at any depth. */
  function BooleanNegate(operand: Value): (r: Value)
    ensures IsBoolean(r) && SameShape(operand, r)
    ensures !operand.List? ==> r == Bool(!Truthy(operand))
  {
    match operand
    case List(xs) => List(seq(|xs|, i requires 0 <= i < |xs| => BooleanNegate(xs[i])))
    case _ => Bool(!Truthy(operand))
  }

  /** Boolean negation of an array negates each element in place. */
  lemma BooleanNegateMaps(xs: seq<Value>)
    ensures BooleanNegate(List(xs)).List? && |BooleanNegate(List(xs)).items| == |xs|
    ensures forall i :: 0 <= i < |xs| ==> BooleanNegate(List(xs)).items[i] == BooleanNegate(xs[i])
  {
  }

  /** On booleans, negating twice is the identity. */
  lemma {:induction false} BooleanNegateTwice(v: Value)
    requires IsBoolean(v)
    ensures BooleanNegate(BooleanNegate(v)) == v
  {
    match v
    case List(xs) =>
      forall i | 0 <= i < |xs| ensures BooleanNegate(BooleanNegate(xs[i])) == xs[i] {
        BooleanNegateTwice(xs[i]);
      }
      assert BooleanNegate(BooleanNegate(v)).items == xs;
    case _ =>
  }

  /** Negating three times is negating once. */
  lemma BooleanNegateThrice(v: Value)
    ensures BooleanNegate(BooleanNegate(BooleanNegate(v))) == BooleanNegate(v)
  {
    BooleanNegateTwice(BooleanNegate(v));
  }

  // ---------------------------------------------------------------------
  // factorial
  // ---------------------------------------------------------------------

  /** ShuntingYard.factorial on the number `n`: returns 0 and 1 unchanged, `undefined` below 0. */
  function FactorialOf(n: int): (r: Result<Value>)
    decreases if n < 0 then 0 else n
    ensures r.Ok? ==> r.value.Num? || r.value.Undefined?
  {
    if n == 0 || n == 1 then Ok(Num(n))
    else if n < 0 then Ok(Undefined)
    else
      match FactorialOf(n - 1)
      case Err(e) => Err(e)
      case Ok(w) => Multiply(Num(n), w)
  }

  /**
   * ShuntingYard.factorial: arrays are mapped; `undefined` is refused; a
   * string or boolean operand is never strictly equal to 0 or 1, so it is
   * compared with 0 and multiplied with the factorial of its number minus 1.
   */
  function Factorial(operand: Value): (r: Result<Value>)
    ensures operand.Num? ==> r == FactorialOf(operand.n)
    ensures operand.Undefined? ==> r == Err(FactorialRequiresParameter)
    ensures r.Ok? ==> SameShape(operand, r.value)
  {
    match operand
    case Undefined => Err(FactorialRequiresParameter)
    case List(xs) => Wrap(AllOk(seq(|xs|, i requires 0 <= i < |xs| => Factorial(xs[i]))))
    case Num(n) => FactorialOf(n)
    case _ => FactorialOfText(operand)
  }

  /**
   * Factorial maps over an array as JavaScript's `map` does: it succeeds exactly
   * when every element does, element i of the result being the element's
   * result, and otherwise fails with the first failing element's error.
   */
  lemma FactorialMaps(xs: seq<Value>)
    ensures Factorial(List(xs)).Ok? <==> forall i :: 0 <= i < |xs| ==> Factorial(xs[i]).Ok?
    ensures Factorial(List(xs)).Ok? ==>
      Factorial(List(xs)).value.List? && |Factorial(List(xs)).value.items| == |xs| &&
      forall i :: 0 <= i < |xs| ==> Factorial(xs[i]) == Ok(Factorial(List(xs)).value.items[i])
    ensures Factorial(List(xs)).Err? ==>
      exists i :: 0 <= i < |xs| && Factorial(xs[i]) == Err(Factorial(List(xs)).error) &&
        forall j :: 0 <= j < i ==> Factorial(xs[j]).Ok?
  {
    var rs := seq(|xs|, i requires 0 <= i < |xs| => Factorial(xs[i]));
    assert forall i :: 0 <= i < |xs| ==> rs[i] == Factorial(xs[i]);
    assert Factorial(List(xs)) == Wrap(AllOk(rs));
    WrapAllOk(rs);
  }

  /** ShuntingYard.factorial of a string or a boolean, which goes straight to the recursive case. */
  function FactorialOfText(operand: Value): (r: Result<Value>)
    requires operand.Str? || operand.Bool?
    ensures r.Ok? ==> !r.value.List?
  {
    match ToNumber(operand)
    case None => Err(OutsideModel("!"))
    case Some(n) =>
      if n < 0 then Ok(Undefined)
      else
        match FactorialOf(n - 1)
        case Err(e) => Err(e)
        case Ok(w) => Multiply(operand, w)
  }

  /** The mathematical factorial. */
  function Fact(n: nat): nat {
    if n == 0 then 1 else n * Fact(n - 1)
  }

  /**
   * For n >= 1 the source computes n! for as long as it stays a safe integer;
   * 0 gives 0 (not 0! = 1) and a negative number gives `undefined`.
   */
  lemma {:induction false} FactorialOfMatchesFact(n: int)
    ensures n >= 1 ==> FactorialOf(n) == (if IsSafe(Fact(n)) then Ok(Num(Fact(n))) else Err(OutsideModel("*")))
    ensures n == 0 ==> FactorialOf(n) == Ok(Num(0))
    ensures n < 0 ==> FactorialOf(n) == Ok(Undefined)
  {
    if n >= 2 {
      FactorialOfMatchesFact(n - 1);
      var f := Fact(n - 1);
      FactGrows(n);
      if IsSafe(f) {
        assert FactorialOf(n) == Multiply(Num(n), Num(f));
        MultiplyNums(n, f);
      } else {
        assert !IsSafe(Fact(n));
      }
    }
  }

  lemma FactGrows(n: nat)
    requires n >= 1
    ensures Fact(n) == n * Fact(n - 1) && Fact(n - 1) <= Fact(n)
  {
  }

  lemma MultiplyNums(x: int, y: int)
    ensures Multiply(Num(x), Num(y)) == SafeNum(x * y, "*")
  {
  }

  // ---------------------------------------------------------------------
  // append
  // ---------------------------------------------------------------------

  /**
   * ShuntingYard.append: a copy of the array `operand1` with the elements of
   * an array `operand2`, or the scalar `operand2` itself, added at the end.
   * A string `operand1` is copied by `slice`, so it comes back unchanged when
   * there is nothing to push (`operand2` the empty array) and fails on the
   * first `push` otherwise; other values have no `slice`.
   */
  function Appended(operand1: Value, operand2: Value): (r: Result<Value>)
    ensures r.Ok? <==> operand1.List? || (operand1.Str? && operand2 == List([]))
    ensures operand1.Str? && r.Ok? ==> r.value == operand1
    ensures operand1.List? ==>
      r.Ok? && r.value.List? && |r.value.items| == |operand1.items| + (if operand2.List? then |operand2.items| else 1)
    ensures operand1.List? ==> r.value.items[..|operand1.items|] == operand1.items
    ensures operand1.List? ==> r.value.items[|operand1.items|..] == (if operand2.List? then operand2.items else [operand2])
  {
    match operand1
    case List(xs) => if operand2.List? then Ok(List(xs + operand2.items)) else Ok(List(xs + [operand2]))
    case Str(_) => if operand2 == List([]) then Ok(operand1) else Err(NotAFunction("result.push"))
    case _ => Err(NotAFunction("operand1.slice"))
  }

  /** ShuntingYard.append with its loop pushing into the copy of `operand1`. */
  method Append(operand1: Value, operand2: Value) returns (r: Result<Value>)
    ensures r == Appended(operand1, operand2)
  {
    if !operand1.List? {
      if operand1.Str? {
        if operand2 == List([]) {
          return Ok(operand1);
        }
        return Err(NotAFunction("result.push"));
      }
      return Err(NotAFunction("operand1.slice"));
    }
    var result := operand1.items;
    if operand2.List? {
      var i := 0;
      while i < |operand2.items|
        invariant 0 <= i <= |operand2.items|
        invariant result == operand1.items + operand2.items[..i]
      {
        result := result + [operand2.items[i]];
        i := i + 1;
      }
      assert operand2.items[..i] == operand2.items;
    } else {
      result := result + [operand2];
    }
    return Ok(List(result));
  }

  /** The examples in the comment in `append` (shuntingYard.js:294-298). */
  lemma AppendCommentExamples()
    ensures Appended(Nums([1, 2, 3]), Num(4)) == Ok(Nums([1, 2, 3, 4]))
    ensures Appended(Nums([1, 2, 3]), Nums([4])) == Ok(Nums([1, 2, 3, 4]))
    ensures Appended(Nums([1, 2, 3]), List([Nums([4])])) == Ok(List(Nums([1, 2, 3]).items + [Nums([4])]))
    ensures Appended(Nums([1, 2, 3]), Nums([4, 5, 6])) == Ok(Nums([1, 2, 3, 4, 5, 6]))
    ensures Appended(Nums([1, 2, 3]), List([Nums([4, 5, 6])])) == Ok(List(Nums([1, 2, 3]).items + [Nums([4, 5, 6])]))
  {
    assert Nums([1, 2, 3]).items + [Num(4)] == Nums([1, 2, 3, 4]).items;
    assert Nums([1, 2, 3]).items + Nums([4]).items == Nums([1, 2, 3, 4]).items;
    assert Nums([1, 2, 3]).items + Nums([4, 5, 6]).items == Nums([1, 2, 3, 4, 5, 6]).items;
  }

  // ---------------------------------------------------------------------
  // sum
  // ---------------------------------------------------------------------

  /** ShuntingYard.sum: `plus` folded over the summands from the left, starting at 0. */
  function SumOf(summands: seq<Value>): (r: Result<Value>)
    ensures r.Ok? ==> !r.value.List?
  {
    if summands == [] then Ok(Num(0))
    else
      match SumOf(summands[..|summands| - 1])
      case Err(e) => Err(e)
      case Ok(s) => Add(s, summands[|summands| - 1])
  }

  /** Once a prefix of the summands fails, so does the whole sum. */
  lemma {:induction false} SumOfFailureSticks(summands: seq<Value>, i: nat)
    requires i <= |summands| && SumOf(summands[..i]).Err?
    ensures SumOf(summands) == SumOf(summands[..i])
    decreases |summands| - i
  {
    if i < |summands| {
      assert summands[..i + 1][..i] == summands[..i];
      SumOfFailureSticks(summands, i + 1);
    } else {
      assert summands[..i] == summands;
    }
  }

  /** ShuntingYard.sum with its accumulator loop. */
  method Sum(summands: seq<Value>) returns (r: Result<Value>)
    ensures r == SumOf(summands)
  {
    var sum := Num(0);
    var i := 0;
    while i < |summands|
      invariant 0 <= i <= |summands|
      invariant SumOf(summands[..i]) == Ok(sum)
    {
      assert summands[..i + 1][..i] == summands[..i];
      var next := Plus(sum, summands[i]);
      if next.Err? {
        SumOfFailureSticks(summands, i + 1);
        return next;
      }
      sum := next.value;
      i := i + 1;
    }
    assert summands[..i] == summands;
    return Ok(sum);
  }

  /** The integer sum of `ns`. */
  function IntSum(ns: seq<int>): int {
    if ns == [] then 0 else IntSum(ns[..|ns| - 1]) + ns[|ns| - 1]
  }

  /** Summing integers whose running totals stay safe gives their integer sum. */
  lemma {:induction false} SumOfIntegers(ns: seq<int>)
    requires forall k :: 0 <= k <= |ns| ==> IsSafe(IntSum(ns[..k]))
    ensures SumOf(Nums(ns).items) == Ok(Num(IntSum(ns)))
  {
    if ns != [] {
      var init := ns[..|ns| - 1];
      forall k | 0 <= k <= |init| ensures IsSafe(IntSum(init[..k])) {
        assert init[..k] == ns[..k];
      }
      SumOfIntegers(init);
      assert Nums(ns).items[..|ns| - 1] == Nums(init).items;
      assert ns[..|ns|] == ns;
    }
  }
}
