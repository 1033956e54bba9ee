/**
 * ShuntingYard.infixToPostfix (shuntingYard.js:151-218): Dijkstra's
 * shunting-yard algorithm over the token list, with `(` `)` grouping,
 * `[` `]` array literals, `,` separators and variadic functions emitted
 * after the `)` that closes their argument list.
 *
 * The operator stack holds the opener strings "(" and "[" and operators;
 * the output holds token texts and operators.
 */
module Converter {
  import opened Results
  import opened Sequences
  import opened Operators

  // ---------------------------------------------------------------------
  // Unary context
  // ---------------------------------------------------------------------

  /** The tokens of the operators whose precedence is not 0 (all but constants). */
  function OperatorTokens(ops: seq<Operator>): (r: seq<string>)
    ensures forall t :: t in r <==> exists o :: o in ops && o.precedence != 0 && o.token == t
  {
    if ops == [] then []
    else
      var rest := OperatorTokens(ops[1..]);
      assert forall o :: o in ops[1..] ==> o in ops;
      assert forall o :: o in ops ==> o == ops[0] || o in ops[1..];
      (if ops[0].precedence != 0 then [ops[0].token] else []) + rest
  }

  /**
   * `unaryPrefixes.includes(i === 0 ? null : infix[i-1])`: an operand is
   * expected at the start, after an opener or a separator, and after any
   * operator token other than a constant's.
   */
  predicate ExpectUnary(ops: seq<Operator>, infix: seq<string>, i: nat)
    requires i < |infix|
  {
    i == 0 || infix[i - 1] in ["(", "[", ","] + OperatorTokens(ops)
  }

  predicate IsGrouping(token: string) {
    token == "(" || token == ")" || token == "[" || token == "]" || token == ","
  }

  /** The operator the token at `i` resolves to, when it is not a grouping symbol. */
  function Resolved(ops: seq<Operator>, infix: seq<string>, i: nat): (r: Option<Operator>)
    requires i < |infix|
    ensures r.Some? ==> r.value in ops && r.value.token == infix[i]
  {
    if IsGrouping(infix[i]) then None else GetOperator(ops, infix[i], ExpectUnary(ops, infix, i))
  }

  // ---------------------------------------------------------------------
  // Popping the operator stack
  // ---------------------------------------------------------------------

  /** When one of the popping loops stops. */
  datatype StopRule = AtParen | AtBracket | AtSeparator | Looser(incoming: Operator)

  /**
   * True when the stack top `e` gives way to the incoming operator `o`: it
   * is an operator that binds tighter (a smaller precedence number), or as
   * tight with `o` left-associative.
   */
  predicate Yields(e: Element, o: Operator) {
    e.Op? && (e.op.precedence < o.precedence || (!o.rightAssociative && e.op.precedence == o.precedence))
  }

  predicate Stops(rule: StopRule, e: Element) {
    match rule
    case AtParen => e == Text("(")
    case AtBracket => e == Text("[")
    case AtSeparator => e == Text("(") || e == Text("[") || e == Text(",")
    case Looser(o) => !Yields(e, o)
  }

  /** The stack and output after one of the `while` loops that pop onto the output. */
  datatype Yard = Yard(postfix: seq<Element>, stack: seq<Element>)

  /** Pops the stack onto the output, one element at a time, until its top stops the rule. */
  function Drain(y: Yard, rule: StopRule): Yard
    decreases |y.stack|
  {
    if y.stack == [] || Stops(rule, y.stack[|y.stack| - 1]) then y
    else Drain(Yard(y.postfix + [y.stack[|y.stack| - 1]], y.stack[..|y.stack| - 1]), rule)
  }

  /**
   * Draining keeps a prefix of the stack and moves everything above it to
   * the output, top first.
   */
  lemma {:induction false} DrainMoves(y: Yard, rule: StopRule)
    ensures |Drain(y, rule).stack| <= |y.stack|
    ensures Drain(y, rule).stack == y.stack[..|Drain(y, rule).stack|]
    ensures Drain(y, rule).postfix == y.postfix + Reversed(y.stack[|Drain(y, rule).stack|..])
    decreases |y.stack|
  {
    if !(y.stack == [] || Stops(rule, y.stack[|y.stack| - 1])) {
      var top := y.stack[|y.stack| - 1];
      var y' := Yard(y.postfix + [top], y.stack[..|y.stack| - 1]);
      DrainMoves(y', rule);
      var n := |Drain(y, rule).stack|;
      var popped := y.stack[n..];
      assert popped[..|popped| - 1] == y'.stack[n..];
      assert popped[|popped| - 1] == top;
    }
  }

  /**
   * Draining stops at the first element from the top that stops the rule:
   * the kept top stops it, and no popped element does.
   */
  lemma {:induction false} DrainStops(y: Yard, rule: StopRule)
    ensures |Drain(y, rule).stack| <= |y.stack|
    ensures Drain(y, rule).stack == [] || Stops(rule, Drain(y, rule).stack[|Drain(y, rule).stack| - 1])
    ensures forall k :: |Drain(y, rule).stack| <= k < |y.stack| ==> !Stops(rule, y.stack[k])
    decreases |y.stack|
  {
    if !(y.stack == [] || Stops(rule, y.stack[|y.stack| - 1])) {
      var y' := Yard(y.postfix + [y.stack[|y.stack| - 1]], y.stack[..|y.stack| - 1]);
      DrainStops(y', rule);
      assert forall k :: 0 <= k < |y'.stack| ==> y'.stack[k] == y.stack[k];
    }
  }

  /** The loops run out of stack exactly when no stack entry stops them. */
  lemma DrainEmptiesIff(y: Yard, rule: StopRule)
    ensures Drain(y, rule).stack == [] <==> forall e :: e in y.stack ==> !Stops(rule, e)
  {
    DrainMoves(y, rule);
    DrainStops(y, rule);
  }

  /** `typeof top.arity === 'undefined'`: an opener string, or a variadic function. */
  predicate HasNoArity(e: Element) {
    e.Text? || e.op.arity.Variadic?
  }

  // ---------------------------------------------------------------------
  // One token
  // ---------------------------------------------------------------------

  /** The `)` branch: pop up to the matching "(", drop it, and emit a function waiting before it. */
  function CloseParen(y: Yard): (r: Result<Yard>)
    ensures r.Err? <==> Text("(") !in y.stack
    ensures r.Err? ==> r.error == MismatchedGrouping(")")
    ensures r.Ok? ==> |r.value.stack| < |y.stack| && r.value.stack == y.stack[..|r.value.stack|]
  {
    var d := Drain(y, AtParen);
    DrainEmptiesIff(y, AtParen);
    DrainMoves(y, AtParen);
    if d.stack == [] then Err(MismatchedGrouping(")"))
    else
      var s := d.stack[..|d.stack| - 1];
      if s != [] && HasNoArity(s[|s| - 1]) then Ok(Yard(d.postfix + [s[|s| - 1]], s[..|s| - 1]))
      else Ok(Yard(d.postfix, s))
  }

  /** The `]` branch: pop up to the matching "[", drop it, and emit the "]" marker. */
  function CloseBracket(y: Yard): (r: Result<Yard>)
    ensures r.Err? <==> Text("[") !in y.stack
    ensures r.Err? ==> r.error == MismatchedGrouping("]")
    ensures r.Ok? ==> |r.value.stack| < |y.stack| && r.value.stack == y.stack[..|r.value.stack|]
  {
    var d := Drain(y, AtBracket);
    DrainEmptiesIff(y, AtBracket);
    DrainMoves(y, AtBracket);
    if d.stack == [] then Err(MismatchedGrouping("]"))
    else Ok(Yard(d.postfix + [Text("]")], d.stack[..|d.stack| - 1]))
  }

  /** The `,` branch: pop up to the innermost opener, keep it, and emit the "," marker. */
  function Separate(y: Yard): (r: Result<Yard>)
    ensures r.Err? <==> Text("(") !in y.stack && Text("[") !in y.stack && Text(",") !in y.stack
    ensures r.Err? ==> r.error == MismatchedGrouping(",")
    ensures r.Ok? ==> |r.value.stack| <= |y.stack| && r.value.stack == y.stack[..|r.value.stack|]
  {
    var d := Drain(y, AtSeparator);
    DrainEmptiesIff(y, AtSeparator);
    DrainMoves(y, AtSeparator);
    if d.stack == [] then Err(MismatchedGrouping(","))
    else Ok(Yard(d.postfix + [Text(",")], d.stack))
  }

  /** The operator branch: pop what gives way to `o`, then push `o`. */
  function PushOperator(y: Yard, o: Operator): Yard {
    var d := Drain(y, Looser(o));
    Yard(d.postfix, d.stack + [Op(o)])
  }

  /**
   * An incoming operator pops exactly the operators above the first stack
   * entry that does not give way to it, moves them to the output top first,
   * and then sits on top of what is left.
   */
  lemma PushOperatorPops(y: Yard, o: Operator)
    ensures var r := PushOperator(y, o); var n := |r.stack| - 1;
      0 <= n <= |y.stack| && r.stack == y.stack[..n] + [Op(o)] &&
      r.postfix == y.postfix + Reversed(y.stack[n..]) &&
      (n == 0 || !Yields(y.stack[n - 1], o)) &&
      (forall k :: n <= k < |y.stack| ==> Yields(y.stack[k], o))
  {
    DrainMoves(y, Looser(o));
    DrainStops(y, Looser(o));
  }

  /**
   * When the entry at `n` is the topmost that stops the rule, draining
   * moves everything above it to the output, top first, and keeps it.
   */
  lemma DrainTo(y: Yard, rule: StopRule, n: nat)
    requires n < |y.stack| && Stops(rule, y.stack[n])
    requires forall k :: n < k < |y.stack| ==> !Stops(rule, y.stack[k])
    ensures Drain(y, rule) == Yard(y.postfix + Reversed(y.stack[n + 1..]), y.stack[..n + 1])
  {
    DrainMoves(y, rule);
    DrainStops(y, rule);
  }

  /**
   * With the innermost "(" at `n`, `)` moves the entries above it to the
   * output top first and drops it; an opener string or a variadic
   * function just below it is moved to the output as well.
   */
  lemma CloseParenPops(y: Yard, n: nat)
    requires n < |y.stack| && y.stack[n] == Text("(")
    requires forall k :: n < k < |y.stack| ==> y.stack[k] != Text("(")
    ensures CloseParen(y) == Ok(
      if n > 0 && HasNoArity(y.stack[n - 1])
      then Yard(y.postfix + Reversed(y.stack[n + 1..]) + [y.stack[n - 1]], y.stack[..n - 1])
      else Yard(y.postfix + Reversed(y.stack[n + 1..]), y.stack[..n]))
  {
    DrainTo(y, AtParen, n);
    var s := y.stack[..n + 1][..n];
    assert s == y.stack[..n];
    if n > 0 {
      assert s[n - 1] == y.stack[n - 1] && s[..n - 1] == y.stack[..n - 1];
    }
  }

  /**
   * With the innermost "[" at `n`, `]` moves the entries above it to the
   * output top first, drops it, and emits the "]" marker.
   */
  lemma CloseBracketPops(y: Yard, n: nat)
    requires n < |y.stack| && y.stack[n] == Text("[")
    requires forall k :: n < k < |y.stack| ==> y.stack[k] != Text("[")
    ensures CloseBracket(y) == Ok(Yard(y.postfix + Reversed(y.stack[n + 1..]) + [Text("]")], y.stack[..n]))
  {
    DrainTo(y, AtBracket, n);
    assert y.stack[..n + 1][..n] == y.stack[..n];
  }

  /**
   * With the innermost opener at `n`, `,` moves the entries above it to
   * the output top first, keeps the opener, and emits the "," marker.
   */
  lemma SeparatePops(y: Yard, n: nat)
    requires n < |y.stack| && Stops(AtSeparator, y.stack[n])
    requires forall k :: n < k < |y.stack| ==> !Stops(AtSeparator, y.stack[k])
    ensures Separate(y) == Ok(Yard(y.postfix + Reversed(y.stack[n + 1..]) + [Text(",")], y.stack[..n + 1]))
  {
    DrainTo(y, AtSeparator, n);
  }

  /**
   * The body of the `for` loop for the token at `i`; the operator the
   * token resolves to is looked up before the branches, as in the source.
   */
  function Step(ops: seq<Operator>, infix: seq<string>, i: nat, y: Yard): (r: Result<Yard>)
    requires i < |infix|
    ensures r.Err? ==> infix[i] in [")", "]", ","] && r.error == MismatchedGrouping(infix[i])
  {
    var token := infix[i];
    if token == "(" || token == "[" then Ok(Yard(y.postfix, y.stack + [Text(token)]))
    else if token == ")" then CloseParen(y)
    else if token == "]" then CloseBracket(y)
    else if token == "," then Separate(y)
    else
      match Resolved(ops, infix, i)
      case Some(o) => Ok(PushOperator(y, o))
      case None => Ok(Yard(y.postfix + [Text(token)], y.stack))
  }

  /** The `for` loop from token `i` on. */
  function Run(ops: seq<Operator>, infix: seq<string>, i: nat, y: Yard): (r: Result<Yard>)
    requires i <= |infix|
    ensures r.Err? ==> r.error.MismatchedGrouping?
    decreases |infix| - i
  {
    if i == |infix| then Ok(y)
    else
      match Step(ops, infix, i, y)
      case Err(e) => Err(e)
      case Ok(y') => Run(ops, infix, i + 1, y')
  }

  /** The final flush of the stack and the check for unclosed openers. */
  function Finish(y: Yard): (r: Result<seq<Element>>)
    ensures r.Ok? ==> Text("(") !in r.value && Text("[") !in r.value
    ensures r.Err? ==> r.error == MismatchedGrouping("(") || r.error == MismatchedGrouping("[")
  {
    var postfix := y.postfix + Reversed(y.stack);
    if Text("(") in postfix then Err(MismatchedGrouping("("))
    else if Text("[") in postfix then Err(MismatchedGrouping("["))
    else Ok(postfix)
  }

  /** ShuntingYard.infixToPostfix. */
  function ConvertSpec(ops: seq<Operator>, infix: seq<string>): (r: Result<seq<Element>>)
    ensures infix == [] ==> r == Ok([])
    ensures r.Ok? ==> Text("(") !in r.value && Text("[") !in r.value
    ensures r.Err? ==> r.error.MismatchedGrouping?
  {
    if infix == [] then Ok([])
    else
      match Run(ops, infix, 0, Yard([], []))
      case Err(e) => Err(e)
      case Ok(y) => Finish(y)
  }

  // ---------------------------------------------------------------------
  // The algorithm as the source writes it
  // ---------------------------------------------------------------------

  /** One of the `while` loops that pop the operator stack onto the output. */
  method Unwind(postfix: seq<Element>, stack: seq<Element>, rule: StopRule)
    returns (postfix': seq<Element>, stack': seq<Element>)
    ensures Yard(postfix', stack') == Drain(Yard(postfix, stack), rule)
  {
    postfix', stack' := postfix, stack;
    while stack' != [] && !Stops(rule, stack'[|stack'| - 1])
      invariant Drain(Yard(postfix', stack'), rule) == Drain(Yard(postfix, stack), rule)
      decreases |stack'|
    {
      postfix' := postfix' + [stack'[|stack'| - 1]];
      stack' := stack'[..|stack'| - 1];
    }
  }

  /** ShuntingYard.infixToPostfix with its operator stack and output arrays. */
  method InfixToPostfix(ops: seq<Operator>, infix: seq<string>) returns (r: Result<seq<Element>>)
    ensures r == ConvertSpec(ops, infix)
  {
    if |infix| == 0 {
      return Ok([]);
    }
    var postfix: seq<Element> := [];
    var stack: seq<Element> := [];
    for i := 0 to |infix|
      invariant Run(ops, infix, 0, Yard([], [])) == Run(ops, infix, i, Yard(postfix, stack))
    {
      ghost var next := Step(ops, infix, i, Yard(postfix, stack));
      var token := infix[i];
      var expectUnary := i == 0 || infix[i - 1] in ["(", "[", ","] + OperatorTokens(ops);
      var operator := GetOperator(ops, token, expectUnary);
      if token == "(" {
        stack := stack + [Text(token)];
      } else if token == "[" {
        stack := stack + [Text(token)];
      } else if token == ")" {
        postfix, stack := Unwind(postfix, stack, AtParen);
        if stack == [] {
          return Err(MismatchedGrouping(")"));
        }
        stack := stack[..|stack| - 1];
        if stack != [] && HasNoArity(stack[|stack| - 1]) {
          postfix := postfix + [stack[|stack| - 1]];
          stack := stack[..|stack| - 1];
        }
      } else if token == "]" {
        postfix, stack := Unwind(postfix, stack, AtBracket);
        if stack == [] {
          return Err(MismatchedGrouping("]"));
        }
        stack := stack[..|stack| - 1];
        postfix := postfix + [Text(token)];
      } else if token == "," {
        postfix, stack := Unwind(postfix, stack, AtSeparator);
        if stack == [] {
          return Err(MismatchedGrouping(","));
        }
        postfix := postfix + [Text(token)];
      } else if operator.Some? {
        postfix, stack := Unwind(postfix, stack, Looser(operator.value));
        stack := stack + [Op(operator.value)];
      } else {
        postfix := postfix + [Text(token)];
      }
      assert next == Ok(Yard(postfix, stack));
    }
    assert Run(ops, infix, 0, Yard([], [])) == Ok(Yard(postfix, stack));
    ghost var flushed := postfix + Reversed(stack);
    while stack != []
      invariant postfix + Reversed(stack) == flushed
    {
      postfix := postfix + [stack[|stack| - 1]];
      stack := stack[..|stack| - 1];
    }
    assert postfix == flushed;
    if Text("(") in postfix {
      return Err(MismatchedGrouping("("));
    }
    if Text("[") in postfix {
      return Err(MismatchedGrouping("["));
    }
    return Ok(postfix);
  }

  // ---------------------------------------------------------------------
  // Operands keep their order; every operator is emitted once
  // ---------------------------------------------------------------------

  /** The operand token texts among `es`, in order. */
  function OperandTexts(es: seq<Element>): seq<string> {
    if es == [] then []
    else (if es[0].Text? && !IsGrouping(es[0].text) then [es[0].text] else []) + OperandTexts(es[1..])
  }

  /** The operators among `es`, in order. */
  function OpsOf(es: seq<Element>): seq<Operator> {
    if es == [] then [] else (if es[0].Op? then [es[0].op] else []) + OpsOf(es[1..])
  }

  /** The operand tokens among the first `n` tokens: not grouping symbols, and resolved to no operator. */
  function OperandsUpTo(ops: seq<Operator>, infix: seq<string>, n: nat): seq<string>
    requires n <= |infix|
  {
    if n == 0 then []
    else
      OperandsUpTo(ops, infix, n - 1) +
      (if !IsGrouping(infix[n - 1]) && Resolved(ops, infix, n - 1).None? then [infix[n - 1]] else [])
  }

  /** The operators the first `n` tokens resolve to. */
  function OperatorsUpTo(ops: seq<Operator>, infix: seq<string>, n: nat): seq<Operator>
    requires n <= |infix|
  {
    if n == 0 then []
    else
      OperatorsUpTo(ops, infix, n - 1) +
      (match Resolved(ops, infix, n - 1) case Some(o) => [o] case None => [])
  }

  /** The operator stack holds only the opener strings and operators. */
  predicate StackShape(stack: seq<Element>) {
    forall k :: 0 <= k < |stack| ==> stack[k].Op? || stack[k] == Text("(") || stack[k] == Text("[")
  }

  lemma {:induction false} OperandTextsAppend(a: seq<Element>, b: seq<Element>)
    ensures OperandTexts(a + b) == OperandTexts(a) + OperandTexts(b)
  {
    if a == [] {
      assert a + b == b;
    } else {
      assert (a + b)[1..] == a[1..] + b;
      assert (a + b)[0] == a[0];
      var head := if a[0].Text? && !IsGrouping(a[0].text) then [a[0].text] else [];
      assert OperandTexts(a + b) == head + OperandTexts(a[1..] + b);
      OperandTextsAppend(a[1..], b);
      assert OperandTexts(a) == head + OperandTexts(a[1..]);
    }
  }

  lemma {:induction false} OpsOfAppend(a: seq<Element>, b: seq<Element>)
    ensures OpsOf(a + b) == OpsOf(a) + OpsOf(b)
  {
    if a == [] {
      assert a + b == b;
    } else {
      assert (a + b)[1..] == a[1..] + b;
      assert (a + b)[0] == a[0];
      var head := if a[0].Op? then [a[0].op] else [];
      assert OpsOf(a + b) == head + OpsOf(a[1..] + b);
      OpsOfAppend(a[1..], b);
      assert OpsOf(a) == head + OpsOf(a[1..]);
    }
  }

  /** The operators on the output and on the stack together. */
  function Held(y: Yard): multiset<Operator> {
    multiset(OpsOf(y.postfix)) + multiset(OpsOf(y.stack))
  }

  /** `postfix.push(operatorStack.pop())` moves an operator or opener, never an operand. */
  lemma MoveTop(y: Yard)
    requires StackShape(y.stack) && y.stack != []
    ensures var y' := Yard(y.postfix + [y.stack[|y.stack| - 1]], y.stack[..|y.stack| - 1]);
      StackShape(y'.stack) && OperandTexts(y'.postfix) == OperandTexts(y.postfix) && Held(y') == Held(y)
  {
    var init, top := y.stack[..|y.stack| - 1], y.stack[|y.stack| - 1];
    assert y.stack == init + [top];
    OpsOfAppend(init, [top]);
    OpsOfAppend(y.postfix, [top]);
    OperandTextsAppend(y.postfix, [top]);
  }

  /** Dropping an opener string from the stack changes nothing that is held. */
  lemma DropOpener(y: Yard)
    requires StackShape(y.stack) && y.stack != [] && y.stack[|y.stack| - 1].Text?
    ensures var y' := Yard(y.postfix, y.stack[..|y.stack| - 1]);
      StackShape(y'.stack) && Held(y') == Held(y)
  {
    var init, top := y.stack[..|y.stack| - 1], y.stack[|y.stack| - 1];
    assert y.stack == init + [top];
    OpsOfAppend(init, [top]);
  }

  /** Emitting a grouping marker adds no operand and no operator. */
  lemma EmitMarker(y: Yard, t: string)
    requires IsGrouping(t)
    ensures OperandTexts(y.postfix + [Text(t)]) == OperandTexts(y.postfix)
    ensures Held(Yard(y.postfix + [Text(t)], y.stack)) == Held(y)
  {
    OperandTextsAppend(y.postfix, [Text(t)]);
    OpsOfAppend(y.postfix, [Text(t)]);
  }

  /** Draining moves operators from the stack to the output and no operands. */
  lemma {:induction false} DrainKeeps(y: Yard, rule: StopRule)
    requires StackShape(y.stack)
    ensures StackShape(Drain(y, rule).stack)
    ensures OperandTexts(Drain(y, rule).postfix) == OperandTexts(y.postfix)
    ensures Held(Drain(y, rule)) == Held(y)
    decreases |y.stack|
  {
    if !(y.stack == [] || Stops(rule, y.stack[|y.stack| - 1])) {
      MoveTop(y);
      DrainKeeps(Yard(y.postfix + [y.stack[|y.stack| - 1]], y.stack[..|y.stack| - 1]), rule);
    }
  }

  /** The final flush moves every operator left on the stack to the output, and no operand. */
  lemma {:induction false} FlushKeeps(y: Yard)
    requires StackShape(y.stack)
    ensures OperandTexts(y.postfix + Reversed(y.stack)) == OperandTexts(y.postfix)
    ensures multiset(OpsOf(y.postfix + Reversed(y.stack))) == Held(y)
    decreases |y.stack|
  {
    if y.stack == [] {
      assert y.postfix + Reversed(y.stack) == y.postfix;
    } else {
      var y' := Yard(y.postfix + [y.stack[|y.stack| - 1]], y.stack[..|y.stack| - 1]);
      assert y.postfix + Reversed(y.stack) == y'.postfix + Reversed(y'.stack);
      MoveTop(y);
      FlushKeeps(y');
    }
  }

  /** The `)` branch moves operators from the stack to the output and emits no operand. */
  lemma CloseParenKeeps(y: Yard)
    requires StackShape(y.stack) && CloseParen(y).Ok?
    ensures StackShape(CloseParen(y).value.stack)
    ensures OperandTexts(CloseParen(y).value.postfix) == OperandTexts(y.postfix)
    ensures Held(CloseParen(y).value) == Held(y)
  {
    var d := Drain(y, AtParen);
    DrainKeeps(y, AtParen);
    DrainStops(y, AtParen);
    DropOpener(d);
    var e := Yard(d.postfix, d.stack[..|d.stack| - 1]);
    if e.stack != [] && HasNoArity(e.stack[|e.stack| - 1]) {
      MoveTop(e);
    }
  }

  /** The `]` branch moves operators from the stack to the output and emits no operand. */
  lemma CloseBracketKeeps(y: Yard)
    requires StackShape(y.stack) && CloseBracket(y).Ok?
    ensures StackShape(CloseBracket(y).value.stack)
    ensures OperandTexts(CloseBracket(y).value.postfix) == OperandTexts(y.postfix)
    ensures Held(CloseBracket(y).value) == Held(y)
  {
    var d := Drain(y, AtBracket);
    DrainKeeps(y, AtBracket);
    DrainStops(y, AtBracket);
    DropOpener(d);
    EmitMarker(Yard(d.postfix, d.stack[..|d.stack| - 1]), "]");
  }

  /** The `,` branch moves operators from the stack to the output and emits no operand. */
  lemma SeparateKeeps(y: Yard)
    requires StackShape(y.stack) && Separate(y).Ok?
    ensures StackShape(Separate(y).value.stack)
    ensures OperandTexts(Separate(y).value.postfix) == OperandTexts(y.postfix)
    ensures Held(Separate(y).value) == Held(y)
  {
    var d := Drain(y, AtSeparator);
    DrainKeeps(y, AtSeparator);
    EmitMarker(d, ",");
  }

  /** The operator branch moves operators to the output and adds `o` to what is held. */
  lemma PushOperatorKeeps(y: Yard, o: Operator)
    requires StackShape(y.stack)
    ensures StackShape(PushOperator(y, o).stack)
    ensures OperandTexts(PushOperator(y, o).postfix) == OperandTexts(y.postfix)
    ensures Held(PushOperator(y, o)) == Held(y) + multiset{o}
  {
    var d := Drain(y, Looser(o));
    DrainKeeps(y, Looser(o));
    OpsOfAppend(d.stack, [Op(o)]);
  }

  /**
   * After the first `i` tokens, the output holds their operand tokens in
   * order, and the output and stack together hold the operators they
   * resolved to.
   */
  predicate Accounted(ops: seq<Operator>, infix: seq<string>, i: nat, y: Yard)
    requires i <= |infix|
  {
    StackShape(y.stack) &&
    OperandTexts(y.postfix) == OperandsUpTo(ops, infix, i) &&
    Held(y) == multiset(OperatorsUpTo(ops, infix, i))
  }

  /** An operand token goes straight to the output. */
  lemma EmitOperand(y: Yard, t: string)
    requires !IsGrouping(t)
    ensures OperandTexts(y.postfix + [Text(t)]) == OperandTexts(y.postfix) + [t]
    ensures Held(Yard(y.postfix + [Text(t)], y.stack)) == Held(y)
  {
    OperandTextsAppend(y.postfix, [Text(t)]);
    OpsOfAppend(y.postfix, [Text(t)]);
  }

  /** Each token keeps the output and stack accounted for. */
  lemma StepKeeps(ops: seq<Operator>, infix: seq<string>, i: nat, y: Yard)
    requires i < |infix| && Accounted(ops, infix, i, y)
    requires Step(ops, infix, i, y).Ok?
    ensures Accounted(ops, infix, i + 1, Step(ops, infix, i, y).value)
  {
    var token := infix[i];
    var y' := Step(ops, infix, i, y).value;
    assert OperandsUpTo(ops, infix, i + 1) == OperandsUpTo(ops, infix, i) +
      (if !IsGrouping(token) && Resolved(ops, infix, i).None? then [token] else []);
    assert OperatorsUpTo(ops, infix, i + 1) == OperatorsUpTo(ops, infix, i) +
      (match Resolved(ops, infix, i) case Some(o) => [o] case None => []);
    if token == "(" || token == "[" {
      assert y' == Yard(y.postfix, y.stack + [Text(token)]);
      OpsOfAppend(y.stack, [Text(token)]);
    } else if token == ")" {
      assert y' == CloseParen(y).value;
      CloseParenKeeps(y);
    } else if token == "]" {
      assert y' == CloseBracket(y).value;
      CloseBracketKeeps(y);
    } else if token == "," {
      assert y' == Separate(y).value;
      SeparateKeeps(y);
    } else {
      match Resolved(ops, infix, i)
      case Some(o) =>
        assert y' == PushOperator(y, o);
        PushOperatorKeeps(y, o);
      case None =>
        assert y' == Yard(y.postfix + [Text(token)], y.stack);
        EmitOperand(y, token);
    }
  }

  /**
   * A successful run from token `i` keeps the accounting up to the last
   * token. (The conclusion is written as an equation so that it is checked
   * as the single fact the recursive call supplies.)
   */
  lemma {:induction false} RunKeeps(ops: seq<Operator>, infix: seq<string>, i: nat, y: Yard, z: Yard)
    requires i <= |infix| && Accounted(ops, infix, i, y)
    requires Run(ops, infix, i, y) == Ok(z)
    ensures Accounted(ops, infix, |infix|, z) == true
    decreases |infix| - i
  {
    if i < |infix| {
      var y' := RunStepKeeps(ops, infix, i, y);
      RunKeeps(ops, infix, i + 1, y', z);
    } else {
      assert Run(ops, infix, i, y) == Ok(y);
    }
  }

  /** One step of a successful run, with the yard it leads to, keeps the accounting. */
  lemma RunStepKeeps(ops: seq<Operator>, infix: seq<string>, i: nat, y: Yard) returns (y': Yard)
    requires i < |infix| && Accounted(ops, infix, i, y)
    requires Run(ops, infix, i, y).Ok?
    ensures Run(ops, infix, i, y) == Run(ops, infix, i + 1, y')
    ensures Accounted(ops, infix, i + 1, y')
  {
    y' := Step(ops, infix, i, y).value;
    assert Run(ops, infix, i, y) == Run(ops, infix, i + 1, y');
    StepKeeps(ops, infix, i, y);
  }

  /**
   * A successful conversion keeps the operand tokens in their input order
   * and emits every operator a token resolved to exactly once.
   */
  lemma ConvertKeepsOperandsAndOperators(ops: seq<Operator>, infix: seq<string>)
    requires ConvertSpec(ops, infix).Ok?
    ensures OperandTexts(ConvertSpec(ops, infix).value) == OperandsUpTo(ops, infix, |infix|)
    ensures multiset(OpsOf(ConvertSpec(ops, infix).value)) == multiset(OperatorsUpTo(ops, infix, |infix|))
  {
    if infix != [] {
      RunKeeps(ops, infix, 0, Yard([], []), Run(ops, infix, 0, Yard([], [])).value);
      FlushKeeps(Run(ops, infix, 0, Yard([], [])).value);
    }
  }

  // ---------------------------------------------------------------------
  // Precedence order on the stack
  // ---------------------------------------------------------------------

  /**
   * Of two operators adjacent on the stack, the upper one binds tighter
   * (a smaller precedence number) or is right-associative with the same
   * precedence: it would not have made the lower one give way.
   */
  predicate StackOrdered(stack: seq<Element>) {
    forall k :: 0 <= k < |stack| - 1 && stack[k + 1].Op? ==> !Yields(stack[k], stack[k + 1].op)
  }

  lemma PrefixOrdered(stack: seq<Element>, n: nat)
    requires n <= |stack| && StackOrdered(stack)
    ensures StackOrdered(stack[..n])
  {
    assert forall k :: 0 <= k < n ==> stack[..n][k] == stack[k];
  }

  /** Every step keeps the operator stack ordered by precedence. */
  lemma StepKeepsOrder(ops: seq<Operator>, infix: seq<string>, i: nat, y: Yard)
    requires i < |infix| && StackOrdered(y.stack)
    requires Step(ops, infix, i, y).Ok?
    ensures StackOrdered(Step(ops, infix, i, y).value.stack)
  {
    var token := infix[i];
    var s := Step(ops, infix, i, y).value.stack;
    if token == "(" || token == "[" {
      assert forall k :: 0 <= k < |y.stack| ==> s[k] == y.stack[k];
    } else if IsGrouping(token) {
      PrefixOrdered(y.stack, |s|);
    } else {
      match Resolved(ops, infix, i)
      case Some(o) =>
        PushOperatorPops(y, o);
        PrefixOrdered(y.stack, |s| - 1);
        forall k | 0 <= k < |s| - 1 && s[k + 1].Op? ensures !Yields(s[k], s[k + 1].op) {
          if k < |s| - 2 {
            assert s[k] == s[..|s| - 1][k] && s[k + 1] == s[..|s| - 1][k + 1];
          }
        }
      case None =>
    }
  }

  lemma {:induction false} RunKeepsOrder(ops: seq<Operator>, infix: seq<string>, i: nat, y: Yard)
    requires i <= |infix| && StackOrdered(y.stack)
    requires Run(ops, infix, i, y).Ok?
    ensures StackOrdered(Run(ops, infix, i, y).value.stack)
    decreases |infix| - i
  {
    if i < |infix| {
      StepKeepsOrder(ops, infix, i, y);
      RunKeepsOrder(ops, infix, i + 1, Step(ops, infix, i, y).value);
    }
  }

  // ---------------------------------------------------------------------
  // Examples
  // ---------------------------------------------------------------------

  /** A token that no operator spells is an operand, wherever it stands. */
  lemma NotAnOperator(ops: seq<Operator>, infix: seq<string>, i: nat)
    requires i < |infix| && !IsGrouping(infix[i])
    requires forall o :: o in ops ==> o.token != infix[i]
    ensures Resolved(ops, infix, i) == None
  {
  }

  /**
   * A `)` that meets two nested openers drops the inner one and also moves
   * the outer one to the output, since a string has no `arity`.
   */
  lemma CloseParenSwallowsOuterOpener(postfix: seq<Element>, below: seq<Element>)
    ensures CloseParen(Yard(postfix, below + [Text("("), Text("(")])) == Ok(Yard(postfix + [Text("(")], below))
  {
    var y := Yard(postfix, below + [Text("("), Text("(")]);
    assert Drain(y, AtParen) == y;
    var s := y.stack[..|y.stack| - 1];
    assert s == below + [Text("(")];
    assert s[..|s| - 1] == below;
  }

  /** The last three tokens of "((1))", met with both openers on the stack. */
  lemma NestedTail(ops: seq<Operator>, infix: seq<string>)
    requires infix == ["(", "(", "1", ")", ")"]
    requires forall o :: o in ops ==> o.token != "1"
    ensures Run(ops, infix, 2, Yard([], [Text("("), Text("(")])) == Err(MismatchedGrouping(")"))
  {
    var y2 := Yard([], [Text("("), Text("(")]);
    var y3 := Yard([Text("1")], [Text("("), Text("(")]);
    var y4 := Yard([Text("1"), Text("(")], []);
    assert y2.postfix + [Text("1")] == y3.postfix;
    NotAnOperator(ops, infix, 2);
    CloseParenSwallowsOuterOpener(y3.postfix, []);
    assert [] + [Text("("), Text("(")] == y3.stack;
    assert Run(ops, infix, 4, y4) == Err(MismatchedGrouping(")"));
    assert Run(ops, infix, 3, y3) == Run(ops, infix, 4, y4);
  }

  /**
   * "((1))" is rejected: the first `)` also moves the outer "(" to the
   * output, so the second `)` finds no opener.
   */
  lemma NestedParenthesesRejected(ops: seq<Operator>)
    requires forall o :: o in ops ==> o.token != "1"
    ensures ConvertSpec(ops, ["(", "(", "1", ")", ")"]) == Err(MismatchedGrouping(")"))
  {
    var infix := ["(", "(", "1", ")", ")"];
    var y0 := Yard([], []);
    var y1 := Yard([], [Text("(")]);
    var y2 := Yard([], [Text("("), Text("(")]);
    assert y0.stack + [Text("(")] == y1.stack;
    assert y1.stack + [Text("(")] == y2.stack;
    NestedTail(ops, infix);
    assert Run(ops, infix, 1, y1) == Run(ops, infix, 2, y2);
  }

  /** A single parenthesised operand converts to itself. */
  lemma SingleParenthesesAccepted(ops: seq<Operator>)
    requires forall o :: o in ops ==> o.token != "1"
    ensures ConvertSpec(ops, ["(", "1", ")"]) == Ok([Text("1")])
  {
    var infix := ["(", "1", ")"];
    var y0 := Yard([], []);
    var y1 := Yard([], [Text("(")]);
    var y2 := Yard([Text("1")], [Text("(")]);
    var y3 := Yard([Text("1")], []);
    assert y0.stack + [Text("(")] == y1.stack;
    assert y1.postfix + [Text("1")] == y2.postfix;
    NotAnOperator(ops, infix, 1);
    assert Drain(y2, AtParen) == y2;
    assert y2.stack[..0] == [];
    assert Run(ops, infix, 2, y2) == Ok(y3);
    assert Run(ops, infix, 0, y0) == Run(ops, infix, 2, y2);
    assert y3.postfix + Reversed(y3.stack) == [Text("1")];
  }

  /** A token that names no operator goes straight to the output. */
  lemma OperandRuns(ops: seq<Operator>, infix: seq<string>, i: nat, y: Yard)
    requires i < |infix| && !IsGrouping(infix[i])
    requires forall p :: p in ops ==> p.token != infix[i]
    ensures Run(ops, infix, i, y) == Run(ops, infix, i + 1, Yard(y.postfix + [Text(infix[i])], y.stack))
  {
    NotAnOperator(ops, infix, i);
  }

  /** After an operand, a token that resolves to `o` as a non-unary operator is pushed onto the empty stack. */
  lemma OperatorAfterOperand(ops: seq<Operator>, infix: seq<string>, o: Operator)
    requires |infix| >= 2 && !IsGrouping(infix[0]) && !IsGrouping(infix[1])
    requires forall p :: p in ops ==> p.token != infix[0]
    requires GetOperator(ops, infix[1], false) == Some(o)
    ensures Run(ops, infix, 1, Yard([Text(infix[0])], [])) == Run(ops, infix, 2, Yard([Text(infix[0])], [Op(o)]))
  {
    var y1 := Yard([Text(infix[0])], []);
    assert infix[0] !in OperatorTokens(ops);
    assert Resolved(ops, infix, 1) == Some(o);
    assert Drain(y1, Looser(o)) == y1;
    assert y1.stack + [Op(o)] == [Op(o)];
    assert Step(ops, infix, 1, y1) == Ok(Yard([Text(infix[0])], [Op(o)]));
  }

  /** The loop over `a t b` ends with both operands on the output and the operator on the stack. */
  lemma BinaryRuns(ops: seq<Operator>, a: string, t: string, b: string, o: Operator)
    requires !IsGrouping(a) && !IsGrouping(t) && !IsGrouping(b)
    requires forall p :: p in ops ==> p.token != a && p.token != b
    requires GetOperator(ops, t, false) == Some(o)
    ensures Run(ops, [a, t, b], 0, Yard([], [])) == Ok(Yard([Text(a), Text(b)], [Op(o)]))
  {
    var infix := [a, t, b];
    OperandRuns(ops, infix, 0, Yard([], []));
    assert [] + [Text(a)] == [Text(a)];
    OperatorAfterOperand(ops, infix, o);
    OperandRuns(ops, infix, 2, Yard([Text(a)], [Op(o)]));
    assert [Text(a)] + [Text(b)] == [Text(a), Text(b)];
    assert Run(ops, infix, 3, Yard([Text(a), Text(b)], [Op(o)])) == Ok(Yard([Text(a), Text(b)], [Op(o)]));
  }

  /**
   * Three tokens `a t b` where `a` and `b` name no operator and `t`
   * resolves to `o` after an operand convert to `a b t`.
   */
  lemma BinaryConverts(ops: seq<Operator>, a: string, t: string, b: string, o: Operator)
    requires !IsGrouping(a) && !IsGrouping(t) && !IsGrouping(b)
    requires forall p :: p in ops ==> p.token != a && p.token != b
    requires GetOperator(ops, t, false) == Some(o)
    ensures ConvertSpec(ops, [a, t, b]) == Ok([Text(a), Text(b), Op(o)])
  {
    BinaryRuns(ops, a, t, b, o);
    FinishWithOperator([Text(a), Text(b)], o);
    assert [Text(a), Text(b)] + [Op(o)] == [Text(a), Text(b), Op(o)];
  }

  /** With no opener on the output, flushing a lone operator appends it. */
  lemma FinishWithOperator(out: seq<Element>, o: Operator)
    requires Text("(") !in out && Text("[") !in out
    ensures Finish(Yard(out, [Op(o)])) == Ok(out + [Op(o)])
  {
    assert Reversed([Op(o)]) == [Op(o)];
  }

  /** The tokens of a comma-separated argument list: `t0 , t1 , ... tn`. */
  function ArgTokens(ts: seq<string>): seq<string>
    requires |ts| > 0
  {
    if |ts| == 1 then [ts[0]] else [ts[0], ","] + ArgTokens(ts[1..])
  }

  /** The output for an argument list: each argument followed by the "," marker, but the last. */
  function ArgsPostfix(ts: seq<string>): seq<Element>
    requires |ts| > 0
  {
    if |ts| == 1 then [Text(ts[0])] else [Text(ts[0]), Text(",")] + ArgsPostfix(ts[1..])
  }

  /** Operands that are not grouping symbols leave no opener in the output of their list. */
  lemma {:induction false} ArgsPostfixNoOpener(ts: seq<string>)
    requires |ts| > 0 && forall k :: 0 <= k < |ts| ==> !IsGrouping(ts[k])
    ensures Text("(") !in ArgsPostfix(ts) && Text("[") !in ArgsPostfix(ts)
  {
    if |ts| > 1 {
      ArgsPostfixNoOpener(ts[1..]);
    }
  }

  /** A `,` met with a "(" on top of the stack emits its marker and keeps the "(". */
  lemma SeparatorRuns(ops: seq<Operator>, infix: seq<string>, i: nat, y: Yard)
    requires i < |infix| && infix[i] == ","
    requires y.stack != [] && y.stack[|y.stack| - 1] == Text("(")
    ensures Run(ops, infix, i, y) == Run(ops, infix, i + 1, Yard(y.postfix + [Text(",")], y.stack))
  {
    assert Drain(y, AtSeparator) == y;
  }

  /** An operand and the `,` after it, met with a "(" on top of the stack, go to the output. */
  lemma ArgStep(ops: seq<Operator>, infix: seq<string>, i: nat, y: Yard) returns (y': Yard)
    requires i + 1 < |infix| && !IsGrouping(infix[i]) && infix[i + 1] == ","
    requires forall p :: p in ops ==> p.token != infix[i]
    requires y.stack != [] && y.stack[|y.stack| - 1] == Text("(")
    ensures y' == Yard(y.postfix + [Text(infix[i]), Text(",")], y.stack)
    ensures Run(ops, infix, i, y) == Run(ops, infix, i + 2, y')
  {
    var y1 := Yard(y.postfix + [Text(infix[i])], y.stack);
    y' := Yard(y1.postfix + [Text(",")], y.stack);
    OperandRuns(ops, infix, i, y);
    SeparatorRuns(ops, infix, i + 1, y1);
  }

  /** Emitting the first argument and its marker, then the rest of the list, emits the whole list. */
  lemma ArgsPostfixFront(out: seq<Element>, ts: seq<string>)
    requires |ts| > 1
    ensures out + [Text(ts[0]), Text(",")] + ArgsPostfix(ts[1..]) == out + ArgsPostfix(ts)
  {
  }

  /** The tokens from `i` on start with the argument list `ts`. */
  predicate ArgsAt(infix: seq<string>, i: nat, ts: seq<string>)
    requires |ts| > 0
    decreases |ts|
  {
    i < |infix| && infix[i] == ts[0] &&
    (|ts| == 1 || (i + 1 < |infix| && infix[i + 1] == "," && ArgsAt(infix, i + 2, ts[1..])))
  }

  /** An argument list written out between other tokens stands where it was put. */
  lemma {:induction false} ArgTokensAt(pre: seq<string>, ts: seq<string>, post: seq<string>)
    requires |ts| > 0
    ensures |ArgTokens(ts)| == 2 * |ts| - 1
    ensures ArgsAt(pre + ArgTokens(ts) + post, |pre|, ts)
    decreases |ts|
  {
    if |ts| > 1 {
      var pre' := pre + [ts[0], ","];
      ArgTokensAt(pre', ts[1..], post);
      assert pre' + ArgTokens(ts[1..]) + post == pre + ArgTokens(ts) + post;
    }
  }

  /**
   * Inside a parenthesis, an argument list of operands goes to the output
   * as it stands, each `,` stopping at the "(" and emitting its marker.
   */
  lemma {:induction false} ArgsRun(ops: seq<Operator>, infix: seq<string>, i: nat, ts: seq<string>, y: Yard)
    returns (e: nat, z: Yard)
    requires |ts| > 0 && ArgsAt(infix, i, ts) && forall k :: 0 <= k < |ts| ==> !IsGrouping(ts[k])
    requires forall k, p :: 0 <= k < |ts| && p in ops ==> p.token != ts[k]
    requires y.stack != [] && y.stack[|y.stack| - 1] == Text("(")
    ensures e == i + 2 * |ts| - 1 && e <= |infix|
    ensures z == Yard(y.postfix + ArgsPostfix(ts), y.stack)
    ensures Run(ops, infix, i, y) == Run(ops, infix, e, z)
    decreases |ts|
  {
    if |ts| == 1 {
      e, z := i + 1, Yard(y.postfix + [Text(ts[0])], y.stack);
      OperandRuns(ops, infix, i, y);
    } else {
      var rest := ts[1..];
      var y2 := ArgStep(ops, infix, i, y);
      assert forall k :: 0 <= k < |rest| ==> rest[k] == ts[k + 1];
      e, z := ArgsRun(ops, infix, i + 2, rest, y2);
      ArgsPostfixFront(y.postfix, ts);
    }
  }

  /** A function name at the start is pushed, and the "(" after it on top. */
  lemma CallOpens(ops: seq<Operator>, infix: seq<string>, o: Operator)
    requires 2 <= |infix| && !IsGrouping(infix[0]) && infix[1] == "("
    requires GetOperator(ops, infix[0], true) == Some(o)
    ensures Run(ops, infix, 0, Yard([], [])) == Run(ops, infix, 2, Yard([], [Op(o), Text("(")]))
  {
    var y1 := Yard([], [Op(o)]);
    assert Resolved(ops, infix, 0) == Some(o);
    assert Drain(Yard([], []), Looser(o)) == Yard([], []);
    assert [] + [Op(o)] == y1.stack;
    assert Step(ops, infix, 0, Yard([], [])) == Ok(y1);
    assert y1.stack + [Text("(")] == [Op(o), Text("(")];
  }

  /** The last token `)` drops the "(" and emits the variadic function below it. */
  lemma CallCloses(ops: seq<Operator>, infix: seq<string>, out: seq<Element>, o: Operator)
    requires |infix| > 0 && infix[|infix| - 1] == ")" && o.arity.Variadic?
    ensures Run(ops, infix, |infix| - 1, Yard(out, [Op(o), Text("(")])) == Ok(Yard(out + [Op(o)], []))
  {
    var y := Yard(out, [Op(o), Text("(")]);
    assert Drain(y, AtParen) == y;
    assert CloseParen(y) == Ok(Yard(out + [Op(o)], []));
  }

  /** The loop over `f ( t0 , ... , tn )` ends with the list and then `f` on the output, and an empty stack. */
  lemma CallRuns(ops: seq<Operator>, infix: seq<string>, ts: seq<string>, o: Operator)
    requires 2 <= |infix| && !IsGrouping(infix[0]) && infix[1] == "("
    requires GetOperator(ops, infix[0], true) == Some(o) && o.arity.Variadic?
    requires |ts| > 0 && ArgsAt(infix, 2, ts) && |infix| == 2 * |ts| + 2 && infix[|infix| - 1] == ")"
    requires forall k :: 0 <= k < |ts| ==> !IsGrouping(ts[k])
    requires forall k, p :: 0 <= k < |ts| && p in ops ==> p.token != ts[k]
    ensures Run(ops, infix, 0, Yard([], [])) == Ok(Yard(ArgsPostfix(ts) + [Op(o)], []))
  {
    var y2 := Yard([], [Op(o), Text("(")]);
    CallOpens(ops, infix, o);
    var e, z := ArgsRun(ops, infix, 2, ts, y2);
    assert z.postfix == ArgsPostfix(ts);
    CallCloses(ops, infix, ArgsPostfix(ts), o);
  }

  /**
   * A call `f ( t0 , ... , tn )` of a variadic function converts to the
   * arguments with their "," markers, then the function: the `)` emits the
   * function waiting below its "(".
   */
  lemma CallConverts(ops: seq<Operator>, f: string, ts: seq<string>, o: Operator)
    requires !IsGrouping(f) && GetOperator(ops, f, true) == Some(o) && o.arity.Variadic?
    requires |ts| > 0 && forall k :: 0 <= k < |ts| ==> !IsGrouping(ts[k])
    requires forall k, p :: 0 <= k < |ts| && p in ops ==> p.token != ts[k]
    ensures ConvertSpec(ops, [f, "("] + ArgTokens(ts) + [")"]) == Ok(ArgsPostfix(ts) + [Op(o)])
  {
    var infix := [f, "("] + ArgTokens(ts) + [")"];
    ArgTokensAt([f, "("], ts, [")"]);
    CallRuns(ops, infix, ts, o);
    ArgsPostfixNoOpener(ts);
    var out := ArgsPostfix(ts) + [Op(o)];
    assert out + Reversed([]) == out;
  }
}
