/**
 * ShuntingYard.evaluate (shuntingYard.js:220-273): the postfix stack
 * machine, with the `operands` stack and the `parameters` buffer that `,`
 * and `]` fill for array literals and variadic functions; and
 * ShuntingYard.process (shuntingYard.js:120-122), the whole pipeline.
 */
module Evaluator {
  import opened Results
  import opened Values
  import opened Sequences
  import opened Operators
  import opened Operations
  import Tokenizer
  import Converter

  // ---------------------------------------------------------------------
  // Calling an operation
  // ---------------------------------------------------------------------

  /** `args[k]`, or `undefined` when the call passed fewer arguments. */
  function Arg(args: seq<Value>, k: nat): Value {
    if k < |args| then args[k] else Undefined
  }

  /**
   * True when a broadcasting branch of `plus`, `minus`, `multiply` or
   * `divide` calls its callback at least once: the first operand is an
   * array, and it or (for two arrays) the second one is non-empty.
   */
  predicate Iterates(a: Value, b: Value) {
    a.List? && (|a.items| > 0 || (b.List? && |b.items| > 0))
  }

  /**
   * `postfix[i].operation(...args)`: the operation called as a method of
   * the operator object, so `this.plus` and `this.multiply` inside the
   * broadcasting branches are undefined and calling them is a TypeError.
   */
  function Apply(o: Operator, args: seq<Value>): (r: Result<Value>)
    ensures o.operation == PlusOp ==>
      r == if Iterates(Arg(args, 0), Arg(args, 1)) then Err(NotAFunction("this.plus")) else Add(Arg(args, 0), Arg(args, 1))
    ensures o.operation == AppendOp ==> r == Appended(Arg(args, 0), Arg(args, 1))
  {
    var a, b := Arg(args, 0), Arg(args, 1);
    match o.operation
    case UnaryPlusOp => UnaryPlus(a)
    case UnaryMinusOp => UnaryMinus(a)
    case PlusOp => if Iterates(a, b) then Err(NotAFunction("this.plus")) else Add(a, b)
    case MinusOp => if Iterates(a, b) then Err(NotAFunction("this.plus")) else Subtract(a, b)
    case MultiplyOp =>
      if Iterates(a, b) then Err(NotAFunction(if b.List? then "this.multiply" else "this.plus"))
      else Multiply(a, b)
    case DivideOp =>
      if Iterates(a, b) then Err(NotAFunction(if b.List? then "this.multiply" else "this.plus"))
      else Divide(a, b)
    case PiOp => Err(OutsideModel("PI"))
    case BooleanNegateOp => Ok(BooleanNegate(a))
    case FactorialOp => Factorial(a)
    case PercentOp => Err(NotAFunction("postfix[i].operation"))
    case MaxOp => Err(Foreign("Math.max"))
    case MinOp => Err(Foreign("Math.min"))
    case UnaryDiceRollOp => Err(Foreign("Math.max"))
    case DiceRollOp => Err(Foreign("Math.max"))
    case SumOp => SumOf(args)
    case AppendOp => Appended(a, b)
  }

  /** As written, the binary `-` adds: applied to any arguments it gives what `+` gives. */
  lemma MinusAppliesAsPlus(args: seq<Value>)
    ensures Apply(MinusOperator, args) == Apply(PlusOperator, args)
  {
  }

  /** On an array the operator form of `+` fails unless the arrays are empty, where it gives `[]`. */
  lemma PlusOperatorOnArrays(a: Value, b: Value)
    requires a.List?
    ensures Apply(PlusOperator, [a, b]).Ok? <==> |a.items| == 0 && (!b.List? || |b.items| == 0)
    ensures Apply(PlusOperator, [a, b]).Ok? ==> Apply(PlusOperator, [a, b]) == Ok(List([]))
  {
  }

  // ---------------------------------------------------------------------
  // The stack machine
  // ---------------------------------------------------------------------

  /** The `operands` stack and the `parameters` buffer. */
  datatype Machine = Machine(operands: seq<Value>, parameters: seq<Value>)

  /** `s.pop()`'s result: the last element, or `undefined` when `s` is empty. */
  function Top(s: seq<Value>): Value {
    if s == [] then Undefined else s[|s| - 1]
  }

  /** `s` after `s.pop()`. */
  function Popped(s: seq<Value>): (r: seq<Value>)
    ensures |r| == if s == [] then 0 else |s| - 1
    ensures r == s[..|r|]
  {
    if s == [] then [] else s[..|s| - 1]
  }

  /** The `,` branch: the top operand moves into the buffer. */
  function Separate(m: Machine): Machine {
    Machine(Popped(m.operands), m.parameters + [Top(m.operands)])
  }

  /** The `]` branch: the buffer and the top operand become one array operand; the buffer empties. */
  function CloseList(m: Machine): Machine {
    Machine(Popped(m.operands) + [List(m.parameters + [Top(m.operands)])], [])
  }

  /** A variadic function: called with the buffer and the top operand; the buffer empties. */
  function CallVariadic(o: Operator, m: Machine): Result<Machine> {
    match Apply(o, m.parameters + [Top(m.operands)])
    case Err(e) => Err(e)
    case Ok(v) => Ok(Machine(Popped(m.operands) + [v], []))
  }

  /** A fixed-arity operator: pops `n` operands and pushes the result of calling it with them, most recent first. */
  function CallFixed(o: Operator, n: nat, m: Machine): Result<Machine> {
    if n == 0 then
      match Apply(o, [])
      case Err(e) => Err(e)
      case Ok(v) => Ok(Machine(m.operands + [v], m.parameters))
    else if |m.operands| < n then Err(TooFewOperands(o.token))
    else
      var k := |m.operands| - n;
      match Apply(o, Reversed(m.operands[k..]))
      case Err(e) => Err(e)
      case Ok(v) => Ok(Machine(m.operands[..k] + [v], m.parameters))
  }

  /** The body of the `for` loop for one postfix element. */
  function EvalStep(e: Element, m: Machine): Result<Machine> {
    match e
    case Text(t) =>
      if t == "," then Ok(Separate(m))
      else if t == "]" then Ok(CloseList(m))
      else Ok(Machine(m.operands + [Str(t)], m.parameters))
    case Op(o) =>
      match o.arity
      case Variadic => CallVariadic(o, m)
      case Fixed(n) => CallFixed(o, n, m)
  }

  /** The `for` loop from element `i` on. */
  function EvalRun(postfix: seq<Element>, i: nat, m: Machine): Result<Machine>
    requires i <= |postfix|
    decreases |postfix| - i
  {
    if i == |postfix| then Ok(m)
    else
      match EvalStep(postfix[i], m)
      case Err(e) => Err(e)
      case Ok(m') => EvalRun(postfix, i + 1, m')
  }

  /** The checks after the loop: no parameters left over, at most one operand left. */
  function Finish(m: Machine): (r: Result<Value>)
    ensures r.Ok? <==> m.parameters == [] && |m.operands| <= 1
    ensures r.Ok? ==> r.value == if m.operands == [] then Undefined else m.operands[0]
    ensures m.parameters != [] ==> r == Err(MissingFunctionCall(JoinFrom(m.parameters, 0)))
    ensures m.parameters == [] && |m.operands| > 1 ==> r == Err(TooFewOperators(JoinFrom(m.operands, 0)))
  {
    if |m.parameters| > 0 then Err(MissingFunctionCall(JoinFrom(m.parameters, 0)))
    else if |m.operands| > 1 then Err(TooFewOperators(JoinFrom(m.operands, 0)))
    else Ok(Top(m.operands))
  }

  /** ShuntingYard.evaluate. */
  function EvaluateSpec(postfix: seq<Element>): (r: Result<Value>)
    ensures postfix == [] ==> r == Ok(Str(""))
  {
    if postfix == [] then Ok(Str(""))
    else
      match EvalRun(postfix, 0, Machine([], []))
      case Err(e) => Err(e)
      case Ok(m) => Finish(m)
  }

  /** The inner `for` loop: pops `n` operands into `operandList`, most recent first. */
  method PopOperands(operands: seq<Value>, n: nat) returns (rest: seq<Value>, operandList: seq<Value>)
    requires n <= |operands|
    ensures rest == operands[..|operands| - n]
    ensures operandList == Reversed(operands[|operands| - n..])
  {
    rest, operandList := operands, [];
    for j := 0 to n
      invariant rest == operands[..|operands| - j]
      invariant operandList == Reversed(operands[|operands| - j..])
    {
      var k := |operands| - j - 1;
      assert operands[k..] == [operands[k]] + operands[k + 1..];
      ReversedFront(operands[k], operands[k + 1..]);
      operandList := operandList + [rest[|rest| - 1]];
      rest := rest[..|rest| - 1];
    }
  }

  /** ShuntingYard.evaluate with its `operands` and `parameters` arrays. */
  method Evaluate(postfix: seq<Element>) returns (r: Result<Value>)
    ensures r == EvaluateSpec(postfix)
  {
    if |postfix| == 0 {
      return Ok(Str(""));
    }
    var parameters: seq<Value> := [];
    var operands: seq<Value> := [];
    for i := 0 to |postfix|
      invariant EvalRun(postfix, 0, Machine([], [])) == EvalRun(postfix, i, Machine(operands, parameters))
    {
      var next := EvalElement(postfix[i], operands, parameters);
      if next.Err? {
        return Err(next.error);
      }
      operands, parameters := next.value.operands, next.value.parameters;
    }
    if |parameters| > 0 {
      return Err(MissingFunctionCall(JoinFrom(parameters, 0)));
    }
    if |operands| > 1 {
      return Err(TooFewOperators(JoinFrom(operands, 0)));
    }
    return Ok(Top(operands));
  }

  /** The body of the loop in ShuntingYard.evaluate, on the postfix element `e`. */
  method EvalElement(e: Element, operands: seq<Value>, parameters: seq<Value>) returns (r: Result<Machine>)
    ensures r == EvalStep(e, Machine(operands, parameters))
  {
    var operands, parameters := operands, parameters;
    if e == Text(",") {
      parameters := parameters + [Top(operands)];
      operands := Popped(operands);
    } else if e == Text("]") {
      parameters := parameters + [Top(operands)];
      operands := Popped(operands);
      operands := operands + [List(parameters)];
      parameters := [];
    } else if e.Op? {
      var o := e.op;
      if o.arity != Fixed(0) {
        if o.arity.Variadic? {
          parameters := parameters + [Top(operands)];
          operands := Popped(operands);
          var v := Apply(o, parameters);
          if v.Err? {
            return Err(v.error);
          }
          operands := operands + [v.value];
          parameters := [];
        } else {
          if |operands| < o.arity.n {
            return Err(TooFewOperands(o.token));
          }
          var operandList;
          operands, operandList := PopOperands(operands, o.arity.n);
          var v := Apply(o, operandList);
          if v.Err? {
            return Err(v.error);
          }
          operands := operands + [v.value];
        }
      } else {
        var v := Apply(o, []);
        if v.Err? {
          return Err(v.error);
        }
        operands := operands + [v.value];
      }
    } else {
      operands := operands + [Str(e.text)];
    }
    return Ok(Machine(operands, parameters));
  }

  // ---------------------------------------------------------------------
  // One step
  // ---------------------------------------------------------------------

  /**
   * An operator of fixed arity `n` fails when fewer than `n` operands are
   * on the stack; otherwise it replaces the top `n` operands by one, having
   * been called with them most recent first, and leaves the buffer. A
   * constant (`n == 0`) is called with no arguments and pushes its value.
   */
  lemma FixedArityStep(o: Operator, n: nat, m: Machine)
    requires o.arity == Fixed(n)
    ensures n == 0 ==>
      EvalStep(Op(o), m) == (match Apply(o, []) case Err(e) => Err(e) case Ok(v) => Ok(Machine(m.operands + [v], m.parameters)))
    ensures |m.operands| < n ==> EvalStep(Op(o), m) == Err(TooFewOperands(o.token))
    ensures 0 < n <= |m.operands| ==>
      var k := |m.operands| - n;
      var args := Reversed(m.operands[k..]);
      |args| == n && (forall j :: 0 <= j < n ==> args[j] == m.operands[|m.operands| - 1 - j]) &&
      EvalStep(Op(o), m) == (match Apply(o, args) case Err(e) => Err(e) case Ok(v) => Ok(Machine(m.operands[..k] + [v], m.parameters)))
  {
  }

  /** A binary operator receives its right operand first and its left operand second. */
  lemma BinaryPopOrder(o: Operator, below: seq<Value>, left: Value, right: Value, ps: seq<Value>)
    requires o.arity == Fixed(2)
    ensures EvalStep(Op(o), Machine(below + [left, right], ps)) ==
      (match Apply(o, [right, left]) case Err(e) => Err(e) case Ok(v) => Ok(Machine(below + [v], ps)))
  {
    var s := below + [left, right];
    assert s[|s| - 2..] == [left, right];
    assert Reversed([left, right]) == [right, left];
    assert s[..|s| - 2] == below;
  }

  /** An operand or constant pushes one value; `,` moves the top operand into the buffer; `]` wraps the buffer and the top operand into one array. */
  lemma PushAndGroupSteps(t: string, m: Machine)
    ensures t != "," && t != "]" ==> EvalStep(Text(t), m) == Ok(Machine(m.operands + [Str(t)], m.parameters))
    ensures m.operands != [] ==>
      EvalStep(Text(","), m) == Ok(Machine(m.operands[..|m.operands| - 1], m.parameters + [m.operands[|m.operands| - 1]]))
    ensures m.operands != [] ==>
      EvalStep(Text("]"), m) == Ok(Machine(m.operands[..|m.operands| - 1] + [List(m.parameters + [m.operands[|m.operands| - 1]])], []))
    ensures m.operands == [] ==> EvalStep(Text(","), m) == Ok(Machine([], m.parameters + [Undefined]))
  {
  }

  // ---------------------------------------------------------------------
  // Operand accounting
  // ---------------------------------------------------------------------

  /** A postfix element that neither uses nor fills the buffer: an operand or a fixed-arity operator. */
  predicate Plain(e: Element) {
    match e
    case Text(t) => t != "," && t != "]"
    case Op(o) => o.arity.Fixed?
  }

  predicate Simple(postfix: seq<Element>) {
    forall k :: 0 <= k < |postfix| ==> Plain(postfix[k])
  }

  /** How many operands the element pops. */
  function Need(e: Element): nat {
    if e.Op? && e.op.arity.Fixed? then e.op.arity.n else 0
  }

  /** How many operands the elements add to the stack in total, each pushing one value. */
  function Effect(es: seq<Element>): int {
    if es == [] then 0 else Effect(es[..|es| - 1]) + 1 - Need(es[|es| - 1])
  }

  /** A plain element that succeeds had enough operands and changed the height by its effect. */
  lemma PlainStepHeight(e: Element, m: Machine)
    requires Plain(e)
    ensures EvalStep(e, m).Ok? ==>
      Need(e) <= |m.operands| &&
      |EvalStep(e, m).value.operands| == |m.operands| + 1 - Need(e) &&
      EvalStep(e, m).value.parameters == m.parameters
  {
  }

  /** Before each element from `i` on, the stack holds at least what the element pops. */
  predicate Fed(postfix: seq<Element>, i: nat, h0: int) {
    forall j :: i <= j < |postfix| ==> Need(postfix[j]) <= h0 + Effect(postfix[..j])
  }

  /**
   * Over plain elements, a run that succeeds never starves an operator:
   * before each element the stack holds at least what it pops, and the
   * final height is the starting height plus the total effect.
   */
  lemma {:induction false} RunHeight(postfix: seq<Element>, i: nat, m: Machine, h0: int)
    requires Simple(postfix) && i <= |postfix|
    requires |m.operands| == h0 + Effect(postfix[..i])
    requires EvalRun(postfix, i, m).Ok?
    ensures Fed(postfix, i, h0)
    ensures |EvalRun(postfix, i, m).value.operands| == h0 + Effect(postfix)
    ensures EvalRun(postfix, i, m).value.parameters == m.parameters
    decreases |postfix| - i
  {
    if i == |postfix| {
      assert postfix[..i] == postfix;
    } else {
      var m' := RunStepHeight(postfix, i, m, h0);
      RunHeight(postfix, i + 1, m', h0);
    }
  }

  /** One successful step of a run over plain elements, with the machine it leads to. */
  lemma RunStepHeight(postfix: seq<Element>, i: nat, m: Machine, h0: int) returns (m': Machine)
    requires Simple(postfix) && i < |postfix|
    requires |m.operands| == h0 + Effect(postfix[..i])
    requires EvalRun(postfix, i, m).Ok?
    ensures EvalRun(postfix, i, m) == EvalRun(postfix, i + 1, m')
    ensures Need(postfix[i]) <= h0 + Effect(postfix[..i])
    ensures |m'.operands| == h0 + Effect(postfix[..i + 1]) && m'.parameters == m.parameters
  {
    var s := EvalStep(postfix[i], m);
    assert s.Ok?;
    m' := s.value;
    PlainStepHeight(postfix[i], m);
    EffectStep(postfix, i);
  }

  lemma EffectStep(postfix: seq<Element>, i: nat)
    requires i < |postfix|
    ensures Effect(postfix[..i + 1]) == Effect(postfix[..i]) + 1 - Need(postfix[i])
  {
    assert postfix[..i + 1][..i] == postfix[..i];
  }

  /**
   * A postfix expression of operands and fixed-arity operators evaluates
   * only if no operator is starved and at most one operand is left; once
   * the loop completes, more than one operand left is reported as too few
   * operators, and otherwise the result is the one operand left.
   */
  lemma EvaluateBalance(postfix: seq<Element>)
    requires Simple(postfix) && postfix != []
    ensures EvaluateSpec(postfix).Ok? ==>
      Effect(postfix) <= 1 && forall j :: 0 <= j < |postfix| ==> Need(postfix[j]) <= Effect(postfix[..j])
    ensures EvalRun(postfix, 0, Machine([], [])).Ok? ==>
      (EvaluateSpec(postfix).Ok? <==> Effect(postfix) <= 1)
    ensures EvalRun(postfix, 0, Machine([], [])).Ok? && Effect(postfix) > 1 ==>
      EvaluateSpec(postfix).Err? && EvaluateSpec(postfix).error.TooFewOperators?
  {
    assert postfix[..0] == [];
    if EvalRun(postfix, 0, Machine([], [])).Ok? {
      RunHeight(postfix, 0, Machine([], []), 0);
    }
  }

  // ---------------------------------------------------------------------
  // Argument lists
  // ---------------------------------------------------------------------

  lemma {:induction false} RunPrefix(p: seq<Element>, j: nat, i: nat, m: Machine)
    requires i <= j <= |p|
    ensures EvalRun(p, i, m) ==
      (match EvalRun(p[..j], i, m) case Err(e) => Err(e) case Ok(m') => EvalRun(p, j, m'))
    decreases j - i
  {
    if i < j {
      assert p[..j][i] == p[i];
      match EvalStep(p[i], m)
      case Err(_) =>
      case Ok(m') => RunPrefix(p, j, i + 1, m');
    }
  }

  lemma {:induction false} RunSuffix(p: seq<Element>, k: nat, i: nat, m: Machine)
    requires k <= i <= |p|
    ensures EvalRun(p, i, m) == EvalRun(p[k..], i - k, m)
    decreases |p| - i
  {
    if i < |p| {
      assert p[k..][i - k] == p[i];
      match EvalStep(p[i], m)
      case Err(_) =>
      case Ok(m') => RunSuffix(p, k, i + 1, m');
    }
  }

  /** Running two pieces of postfix one after the other. */
  lemma RunConcat(a: seq<Element>, b: seq<Element>, m: Machine)
    ensures EvalRun(a + b, 0, m) ==
      (match EvalRun(a, 0, m) case Err(e) => Err(e) case Ok(m') => EvalRun(b, 0, m'))
  {
    RunPrefix(a + b, |a|, 0, m);
    assert (a + b)[..|a|] == a;
    match EvalRun(a, 0, m)
    case Err(_) =>
    case Ok(m') =>
      RunSuffix(a + b, |a|, |a|, m');
      assert (a + b)[|a|..] == b;
  }

  /** The operand texts as the string values evaluation pushes. */
  function Strs(ts: seq<string>): (r: seq<Value>)
    ensures |r| == |ts| && forall k :: 0 <= k < |ts| ==> r[k] == Str(ts[k])
  {
    seq(|ts|, k requires 0 <= k < |ts| => Str(ts[k]))
  }

  lemma StrsSnoc(ts: seq<string>)
    requires |ts| > 0
    ensures Strs(ts[..|ts| - 1]) + [Str(ts[|ts| - 1])] == Strs(ts)
  {
  }

  lemma StrsPrefix(ts: seq<string>)
    requires |ts| > 0
    ensures Strs(ts)[..|ts| - 1] == Strs(ts[..|ts| - 1])
  {
  }

  predicate PlainTexts(ts: seq<string>) {
    forall k :: 0 <= k < |ts| ==> ts[k] != "," && ts[k] != "]"
  }

  /**
   * Loading an argument list moves every argument but the last into the
   * buffer, in order, and leaves the last one on top of the stack.
   */
  lemma {:induction false} ArgsLoad(ts: seq<string>, m: Machine)
    requires |ts| > 0 && PlainTexts(ts)
    ensures EvalRun(Converter.ArgsPostfix(ts), 0, m) ==
      Ok(Machine(m.operands + [Str(ts[|ts| - 1])], m.parameters + Strs(ts[..|ts| - 1])))
  {
    var n := |ts|;
    if n == 1 {
      assert Strs(ts[..0]) == [];
      assert m.parameters + [] == m.parameters;
    } else {
      var head := [Text(ts[0]), Text(",")];
      var pushed := m.operands + [Str(ts[0])];
      assert pushed[..|pushed| - 1] == m.operands;
      var m1 := Machine(m.operands, m.parameters + [Str(ts[0])]);
      assert EvalRun(head, 1, Machine(pushed, m.parameters)) == Ok(m1);
      assert EvalRun(head, 0, m) == Ok(m1);
      RunConcat(head, Converter.ArgsPostfix(ts[1..]), m);
      ArgsLoad(ts[1..], m1);
      assert ts[1..][n - 2] == ts[n - 1];
      assert [Str(ts[0])] + Strs(ts[1..][..n - 2]) == Strs(ts[..n - 1]);
      assert m1.parameters + Strs(ts[1..][..n - 2]) == m.parameters + Strs(ts[..n - 1]);
    }
  }

  /** The run of an argument list followed by one more element. */
  lemma ArgsThen(ts: seq<string>, e: Element)
    requires |ts| > 0 && PlainTexts(ts)
    ensures EvalRun(Converter.ArgsPostfix(ts) + [e], 0, Machine([], [])) ==
      EvalStep(e, Machine([Str(ts[|ts| - 1])], Strs(ts[..|ts| - 1])))
  {
    var n := |ts|;
    var m0 := Machine([], []);
    var m1 := Machine([Str(ts[n - 1])], Strs(ts[..n - 1]));
    assert m0.operands + [Str(ts[n - 1])] == m1.operands;
    assert m0.parameters + Strs(ts[..n - 1]) == m1.parameters;
    ArgsLoad(ts, m0);
    RunConcat(Converter.ArgsPostfix(ts), [e], m0);
    RunSingle(e, m1);
  }

  /** Running a single element is taking its step. */
  lemma RunSingle(e: Element, m: Machine)
    ensures EvalRun([e], 0, m) == EvalStep(e, m)
  {
    var r := EvalStep(e, m);
    if r.Ok? {
      assert EvalRun([e], 1, r.value) == Ok(r.value);
    }
  }

  /** Evaluation of a non-empty postfix whose loop ends in machine state `m`. */
  lemma EvaluatedAs(postfix: seq<Element>, m: Machine)
    requires postfix != [] && EvalRun(postfix, 0, Machine([], [])) == Ok(m)
    ensures EvaluateSpec(postfix) == Finish(m)
  {
  }

  /** Evaluation of a non-empty postfix whose loop fails fails with the same error. */
  lemma EvaluationFails(postfix: seq<Element>)
    requires postfix != [] && EvalRun(postfix, 0, Machine([], [])).Err?
    ensures EvaluateSpec(postfix) == Err(EvalRun(postfix, 0, Machine([], [])).error)
  {
  }

  /** An array literal of operands `[t0, ..., tn]` evaluates to the array of their strings. */
  lemma ListLiteral(ts: seq<string>)
    requires |ts| > 0 && PlainTexts(ts)
    ensures EvaluateSpec(Converter.ArgsPostfix(ts) + [Text("]")]) == Ok(List(Strs(ts)))
  {
    var n := |ts|;
    var m1 := Machine([Str(ts[n - 1])], Strs(ts[..n - 1]));
    var m2 := Machine([List(Strs(ts))], []);
    StrsSnoc(ts);
    assert EvalStep(Text("]"), m1) == Ok(CloseList(m1));
    assert CloseList(m1) == m2;
    ArgsThen(ts, Text("]"));
    EvaluatedAs(Converter.ArgsPostfix(ts) + [Text("]")], m2);
  }

  /** A variadic function met with its arguments loaded is called with all of them, in order. */
  lemma VariadicOnLoaded(o: Operator, args: seq<Value>)
    requires |args| > 0 && o.arity == Variadic
    ensures EvalStep(Op(o), Machine([args[|args| - 1]], args[..|args| - 1])) ==
      (match Apply(o, args) case Err(e) => Err(e) case Ok(v) => Ok(Machine([v], [])))
  {
    var m1 := Machine([args[|args| - 1]], args[..|args| - 1]);
    assert m1.parameters + [Top(m1.operands)] == args;
    assert EvalStep(Op(o), m1) == CallVariadic(o, m1);
    match Apply(o, args)
    case Err(_) =>
    case Ok(v) =>
      assert Popped(m1.operands) + [v] == [v];
  }

  /** A postfix whose loop ends with the one value `r` computed, or fails as `r` does, evaluates to `r`. */
  lemma EvaluatesTo(postfix: seq<Element>, r: Result<Value>)
    requires postfix != []
    requires EvalRun(postfix, 0, Machine([], [])) == (match r case Err(e) => Err(e) case Ok(v) => Ok(Machine([v], [])))
    ensures EvaluateSpec(postfix) == r
  {
  }

  lemma ApplySum(args: seq<Value>)
    ensures Apply(SumOperator, args) == SumOf(args)
  {
  }

  /** `Σ(t0, ..., tn)` over operands is the sum of all of their strings, in order. */
  lemma SumCall(ts: seq<string>)
    requires |ts| > 0 && PlainTexts(ts)
    ensures EvaluateSpec(Converter.ArgsPostfix(ts) + [Op(SumOperator)]) == SumOf(Strs(ts))
  {
    var n := |ts|;
    var args := Strs(ts);
    StrsPrefix(ts);
    assert Machine([args[n - 1]], args[..n - 1]) == Machine([Str(ts[n - 1])], Strs(ts[..n - 1]));
    ApplySum(args);
    VariadicOnLoaded(SumOperator, args);
    ArgsThen(ts, Op(SumOperator));
    EvaluatesTo(Converter.ArgsPostfix(ts) + [Op(SumOperator)], SumOf(args));
  }

  /**
   * The tokens `Σ ( t0 , ... , tn )`, with operands no operator spells,
   * convert to the argument list and then `Σ`, and that postfix evaluates
   * to the sum of the operands in order.
   */
  lemma SumTokensEvaluate(ops: seq<Operator>, ts: seq<string>)
    requires GetOperator(ops, "Σ", true) == Some(SumOperator)
    requires |ts| > 0 && forall k :: 0 <= k < |ts| ==> !Converter.IsGrouping(ts[k])
    requires forall k, p :: 0 <= k < |ts| && p in ops ==> p.token != ts[k]
    ensures Converter.ConvertSpec(ops, ["Σ", "("] + Converter.ArgTokens(ts) + [")"]) ==
      Ok(Converter.ArgsPostfix(ts) + [Op(SumOperator)])
    ensures EvaluateSpec(Converter.ArgsPostfix(ts) + [Op(SumOperator)]) == SumOf(Strs(ts))
  {
    Converter.CallConverts(ops, "Σ", ts, SumOperator);
    SumCall(ts);
  }

  // ---------------------------------------------------------------------
  // Examples
  // ---------------------------------------------------------------------

  /** The last step of a run. */
  lemma RunLast(p: seq<Element>, m: Machine)
    requires p != []
    ensures EvalRun(p, |p| - 1, m) == EvalStep(p[|p| - 1], m)
  {
    match EvalStep(p[|p| - 1], m)
    case Err(_) =>
    case Ok(m') => assert EvalRun(p, |p|, m') == Ok(m');
  }

  /** A binary operator met with exactly two operands on the stack. */
  lemma BinaryOnTwo(o: Operator, x: Value, y: Value)
    requires o.arity == Fixed(2)
    ensures EvalStep(Op(o), Machine([x, y], [])) ==
      (match Apply(o, [y, x]) case Err(e) => Err(e) case Ok(v) => Ok(Machine([v], [])))
  {
    assert [] + [x, y] == [x, y];
    BinaryPopOrder(o, [], x, y, []);
    var a := Apply(o, [y, x]);
    if a.Ok? {
      assert [] + [a.value] == [a.value];
    }
  }

  /** `a b t` for a binary operator `t`: the operator is called with `b` first and `a` second, both strings. */
  lemma EvaluateBinary(a: string, b: string, o: Operator)
    requires a != "," && a != "]" && b != "," && b != "]" && o.arity == Fixed(2)
    ensures EvaluateSpec([Text(a), Text(b), Op(o)]) == Apply(o, [Str(b), Str(a)])
  {
    var p := [Text(a), Text(b), Op(o)];
    var m := Machine([Str(a), Str(b)], []);
    assert [] + [Str(a)] == [Str(a)];
    assert [Str(a)] + [Str(b)] == m.operands;
    PushAndGroupSteps(a, Machine([], []));
    PushAndGroupSteps(b, Machine([Str(a)], []));
    RunFirstTwo(p, Machine([], []), m);
    RunLast(p, m);
    BinaryOnTwo(o, Str(a), Str(b));
    EvaluatesTo(p, Apply(o, [Str(b), Str(a)]));
  }

  lemma RunFirstTwo(p: seq<Element>, m0: Machine, m2: Machine)
    requires |p| >= 2
    requires EvalStep(p[0], m0).Ok? && EvalStep(p[1], EvalStep(p[0], m0).value) == Ok(m2)
    ensures EvalRun(p, 0, m0) == EvalRun(p, 2, m2)
  {
  }

  /** Operands stay strings: `1 2 +` concatenates the right operand before the left one. */
  lemma StringOperandsConcatenate()
    ensures EvaluateSpec([Text("1"), Text("2"), Op(PlusOperator)]) == Ok(Str("21"))
  {
    EvaluateBinary("1", "2", PlusOperator);
    assert "2" + "1" == "21";
    assert Add(Str("2"), Str("1")) == Ok(Str("21"));
    assert Apply(PlusOperator, [Str("2"), Str("1")]) == Ok(Str("21"));
  }

  /** An operator with fewer operands than its arity on the stack is reported by its token. */
  lemma StarvedOperator()
    ensures EvaluateSpec([Text("1"), Op(PlusOperator)]) == Err(TooFewOperands("+"))
  {
    var m := Machine([Str("1")], []);
    assert EvalRun([Text("1"), Op(PlusOperator)], 0, Machine([], [])) == EvalRun([Text("1"), Op(PlusOperator)], 1, m);
    FixedArityStep(PlusOperator, 2, m);
    EvaluatesTo([Text("1"), Op(PlusOperator)], Err(TooFewOperands("+")));
  }

  /** Operands left over are listed, joined by commas. */
  lemma LeftOverOperands()
    ensures EvaluateSpec([Text("1"), Text("2")]) == Err(TooFewOperators("1,2"))
  {
    var p := [Text("1"), Text("2")];
    var m := Machine([Str("1"), Str("2")], []);
    assert [] + [Str("1")] == [Str("1")];
    assert [Str("1")] + [Str("2")] == m.operands;
    assert EvalRun(p, 1, Machine([Str("1")], [])) == Ok(m);
    assert EvalRun(p, 0, Machine([], [])) == Ok(m);
    assert JoinFrom(m.operands, 1) == "," + "2";
    assert JoinFrom(m.operands, 0) == "1" + ("," + "2");
    assert "1" + ("," + "2") == "1,2";
    EvaluatedAs(p, m);
  }

  /** A separated list with no function or closing bracket after it is reported. */
  lemma DanglingParameters()
    ensures EvaluateSpec([Text("1"), Text(","), Text("2")]) == Err(MissingFunctionCall("1"))
  {
    var p := [Text("1"), Text(","), Text("2")];
    var m := Machine([Str("2")], [Str("1")]);
    assert [] + [Str("1")] == [Str("1")];
    assert [] + [Str("2")] == [Str("2")];
    assert EvalRun(p, 2, Machine([], [Str("1")])) == Ok(m);
    assert EvalRun(p, 1, Machine([Str("1")], [])) == Ok(m);
    assert EvalRun(p, 0, Machine([], [])) == Ok(m);
    assert JoinFrom(m.parameters, 0) == "1" + "";
    assert "1" + "" == "1";
    EvaluatedAs(p, m);
  }

  // ---------------------------------------------------------------------
  // The whole pipeline
  // ---------------------------------------------------------------------

  /**
   * ShuntingYard.prototype.process: tokenize, convert to postfix and
   * evaluate; a failing stage ends the pipeline with its own error.
   */
  function ProcessSpec(ops: seq<Operator>, pieces: seq<Tokenizer.Piece>): (r: Result<Value>)
    ensures Tokenizer.Tokenize(pieces).Err? ==> r == Err(Tokenizer.Tokenize(pieces).error)
    ensures Tokenizer.Tokenize(pieces).Ok? && Converter.ConvertSpec(ops, Tokenizer.Tokenize(pieces).value).Err? ==>
      r.Err? && r.error.MismatchedGrouping?
  {
    match Tokenizer.Tokenize(pieces)
    case Err(e) => Err(e)
    case Ok(tokens) =>
      match Converter.ConvertSpec(ops, tokens)
      case Err(e) => Err(e)
      case Ok(postfix) => EvaluateSpec(postfix)
  }

  /** ShuntingYard.prototype.process. */
  method Process(ops: seq<Operator>, pieces: seq<Tokenizer.Piece>) returns (r: Result<Value>)
    ensures r == ProcessSpec(ops, pieces)
  {
    var tokens := Tokenizer.Tokenize(pieces);
    if tokens.Err? {
      return Err(tokens.error);
    }
    var postfix := Converter.InfixToPostfix(ops, tokens.value);
    if postfix.Err? {
      return Err(postfix.error);
    }
    assert postfix == Converter.ConvertSpec(ops, tokens.value);
    r := Evaluate(postfix.value);
  }

  /**
   * Three tokens `a t b` where `a` and `b` are plain operands and `t` is
   * a binary operator: the operator is called with `b` first and `a`
   * second, both still strings.
   */
  lemma BinaryExpression(ops: seq<Operator>, a: string, t: string, b: string, o: Operator)
    requires !Converter.IsGrouping(a) && !Converter.IsGrouping(t) && !Converter.IsGrouping(b)
    requires forall p :: p in ops ==> p.token != a && p.token != b
    requires GetOperator(ops, t, false) == Some(o) && o.arity == Fixed(2)
    ensures Converter.ConvertSpec(ops, [a, t, b]) == Ok([Text(a), Text(b), Op(o)])
    ensures EvaluateSpec([Text(a), Text(b), Op(o)]) == Apply(o, [Str(b), Str(a)])
  {
    Converter.BinaryConverts(ops, a, t, b, o);
    EvaluateBinary(a, b, o);
  }

  /** The whole pipeline on a scan that tokenizes to `a t b`. */
  lemma ProcessBinaryExpression(ops: seq<Operator>, pieces: seq<Tokenizer.Piece>, a: string, t: string, b: string, o: Operator)
    requires Tokenizer.Tokenize(pieces) == Ok([a, t, b])
    requires !Converter.IsGrouping(a) && !Converter.IsGrouping(t) && !Converter.IsGrouping(b)
    requires forall p :: p in ops ==> p.token != a && p.token != b
    requires GetOperator(ops, t, false) == Some(o) && o.arity == Fixed(2)
    ensures ProcessSpec(ops, pieces) == Apply(o, [Str(b), Str(a)])
  {
    BinaryExpression(ops, a, t, b, o);
  }
}
