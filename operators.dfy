/**
 * The operator records of the expression engine and the catalog that
 * `ShuntingYard` builds from them (shuntingYard.js:12-100), with the
 * overload lookup `getOperator` (shuntingYard.js:135-149).
 */
module Operators {
  import opened Results

  /** Where an operator stands relative to its operands; `Unfixed` is the `undefined` fix of a constant. */
  datatype Fix = Prefix | Infix | Postfix | Unfixed

  /** The number of operands an operator takes; `Variadic` is the `undefined` arity of a function operator. */
  datatype Arity = Fixed(n: nat) | Variadic

  /** The JavaScript functions the catalog refers to, by name. */
  datatype Operation =
    | UnaryPlusOp | UnaryMinusOp | PlusOp | MinusOp | MultiplyOp | DivideOp
    | PiOp | BooleanNegateOp | FactorialOp | PercentOp | MaxOp | MinOp
    | UnaryDiceRollOp | DiceRollOp | SumOp | AppendOp

  /** An `Operator` object: its fields are never changed after construction. */
  datatype Operator = Operator(
    token: string,
    precedence: int,
    arity: Arity,
    fix: Fix,
    operation: Operation,
    rightAssociative: bool)

  /** An entry of a token list after conversion: a token text, or the operator a token resolved to. */
  datatype Element = Text(text: string) | Op(op: Operator)

  // ---------------------------------------------------------------------
  // Classification used by the overload lookup
  // ---------------------------------------------------------------------

  /** A prefix operator of one operand, such as unary minus. */
  predicate IsUnaryPrefix(o: Operator) {
    o.fix == Prefix && o.arity == Fixed(1)
  }

  /** May stand where an operand is expected: a constant or a unary prefix operator. */
  predicate FitsUnary(o: Operator) {
    o.fix == Unfixed || IsUnaryPrefix(o)
  }

  /** May stand after an operand: a constant or anything but a unary prefix operator. */
  predicate FitsNonUnary(o: Operator) {
    o.fix == Unfixed || !IsUnaryPrefix(o)
  }

  predicate Fits(o: Operator, isUnary: bool) {
    if isUnary then FitsUnary(o) else FitsNonUnary(o)
  }

  // ---------------------------------------------------------------------
  // Factories
  // ---------------------------------------------------------------------

  /** Operator.createConstant: a value with no operands, of precedence 0, usable in either position. */
  function CreateConstant(token: string, operation: Operation): (o: Operator)
    ensures o.token == token && o.operation == operation
    ensures o.arity == Fixed(0) && o.precedence == 0 && !o.rightAssociative
    ensures FitsUnary(o) && FitsNonUnary(o)
  {
    Operator(token, 0, Fixed(0), Unfixed, operation, false)
  }

  /** Operator.createUnaryPrefixOperator: one operand, precedence 2, right-associative, only where an operand is expected. */
  function CreateUnaryPrefixOperator(token: string, operation: Operation): (o: Operator)
    ensures o.token == token && o.operation == operation
    ensures o.arity == Fixed(1) && o.precedence == 2 && o.rightAssociative
    ensures FitsUnary(o) && !FitsNonUnary(o)
  {
    Operator(token, 2, Fixed(1), Prefix, operation, true)
  }

  /** Operator.createBinaryOperator: two operands, the given precedence, only after an operand. */
  function CreateBinaryOperator(token: string, precedence: int, operation: Operation, rightAssociative: bool): (o: Operator)
    ensures o.token == token && o.operation == operation
    ensures o.arity == Fixed(2) && o.precedence == precedence && o.rightAssociative == rightAssociative
    ensures !FitsUnary(o) && FitsNonUnary(o)
  {
    Operator(token, precedence, Fixed(2), Infix, operation, rightAssociative)
  }

  /** Operator.createUnaryPostfixOperator: one operand, precedence 2, left-associative, only after an operand. */
  function CreateUnaryPostfixOperator(token: string, operation: Operation): (o: Operator)
    ensures o.token == token && o.operation == operation
    ensures o.arity == Fixed(1) && o.precedence == 2 && !o.rightAssociative
    ensures !FitsUnary(o) && FitsNonUnary(o)
  {
    Operator(token, 2, Fixed(1), Postfix, operation, false)
  }

  /**
   * Operator.createFunctionOperator: a variadic prefix function of precedence 2.
   * Having no arity of 1, it counts as not unary in the lookup.
   */
  function CreateFunctionOperator(token: string, operation: Operation): (o: Operator)
    ensures o.token == token && o.operation == operation
    ensures o.arity == Variadic && o.precedence == 2 && o.rightAssociative
    ensures !FitsUnary(o) && FitsNonUnary(o)
  {
    Operator(token, 2, Variadic, Prefix, operation, true)
  }

  // ---------------------------------------------------------------------
  // The catalog
  // ---------------------------------------------------------------------

  const UnaryPlusOperator := Operator("+", 2, Fixed(1), Prefix, UnaryPlusOp, true)
  const UnaryMinusOperator := Operator("-", 2, Fixed(1), Prefix, UnaryMinusOp, true)
  const PlusOperator := Operator("+", 4, Fixed(2), Infix, PlusOp, false)
  const MinusOperator := Operator("-", 4, Fixed(2), Infix, MinusOp, false)
  const MultiplyOperator := Operator("*", 3, Fixed(2), Infix, MultiplyOp, false)
  const DivideOperator := Operator("/", 3, Fixed(2), Infix, DivideOp, false)
  const PiOperator := Operator("PI", 0, Fixed(0), Unfixed, PiOp, false)
  const BooleanNegateOperator := Operator("!", 2, Fixed(1), Prefix, BooleanNegateOp, true)
  const FactorialOperator := Operator("!", 2, Fixed(1), Postfix, FactorialOp, false)
  const PercentOperator := Operator("%", 2, Fixed(1), Postfix, PercentOp, false)
  const MaxOperator := Operator("MAX", 2, Variadic, Prefix, MaxOp, true)
  const MinOperator := Operator("MIN", 2, Variadic, Prefix, MinOp, true)
  const UnaryDiceRollOperator := Operator("d", 2, Fixed(1), Prefix, UnaryDiceRollOp, true)
  const DiceRollOperator := Operator("d", 2, Fixed(2), Infix, DiceRollOp, true)
  const SumOperator := Operator("Σ", 2, Variadic, Prefix, SumOp, true)
  const AppendOperator := Operator("!", 3, Fixed(2), Infix, AppendOp, false)

  /** The operators in the order the constructor registers them. */
  function Registered(): seq<Operator> {
    [UnaryPlusOperator, UnaryMinusOperator, PlusOperator, MinusOperator, MultiplyOperator, DivideOperator,
     PiOperator, BooleanNegateOperator, FactorialOperator, PercentOperator, MaxOperator, MinOperator,
     UnaryDiceRollOperator, DiceRollOperator, SumOperator, AppendOperator]
  }

  /** Each registered operator is what its factory builds (shuntingYard.js:78-97). */
  lemma RegisteredByFactories()
    ensures UnaryPlusOperator == CreateUnaryPrefixOperator("+", UnaryPlusOp)
    ensures UnaryMinusOperator == CreateUnaryPrefixOperator("-", UnaryMinusOp)
    ensures PlusOperator == CreateBinaryOperator("+", 4, PlusOp, false)
    ensures MinusOperator == CreateBinaryOperator("-", 4, MinusOp, false)
    ensures MultiplyOperator == CreateBinaryOperator("*", 3, MultiplyOp, false)
    ensures DivideOperator == CreateBinaryOperator("/", 3, DivideOp, false)
    ensures PiOperator == CreateConstant("PI", PiOp)
    ensures BooleanNegateOperator == CreateUnaryPrefixOperator("!", BooleanNegateOp)
    ensures FactorialOperator == CreateUnaryPostfixOperator("!", FactorialOp)
    ensures PercentOperator == CreateUnaryPostfixOperator("%", PercentOp)
    ensures MaxOperator == CreateFunctionOperator("MAX", MaxOp)
    ensures MinOperator == CreateFunctionOperator("MIN", MinOp)
    ensures UnaryDiceRollOperator == CreateUnaryPrefixOperator("d", UnaryDiceRollOp)
    ensures DiceRollOperator == CreateBinaryOperator("d", 2, DiceRollOp, true)
    ensures SumOperator == CreateFunctionOperator("Σ", SumOp)
    ensures AppendOperator == CreateBinaryOperator("!", 3, AppendOp, false)
  {
  }

  /** `this.operators`: the registered operators sorted longest token first. */
  function Catalog(): seq<Operator> {
    SortByLength(Registered())
  }

  // ---------------------------------------------------------------------
  // compareLength and the sort
  // ---------------------------------------------------------------------

  /** Operator.compareLength: negative when `o1` has the longer token, so that longer tokens sort first. */
  function CompareLength(o1: Operator, o2: Operator): (r: int)
    ensures r < 0 <==> |o1.token| > |o2.token|
    ensures r == 0 <==> |o1.token| == |o2.token|
  {
    |o2.token| - |o1.token|
  }

  predicate LongestFirst(s: seq<Operator>) {
    forall i, j :: 0 <= i < j < |s| ==> |s[i].token| >= |s[j].token|
  }

  /** Places `o` before the first operator whose token is not longer than its own. */
  function Insert(o: Operator, s: seq<Operator>): seq<Operator> {
    if s == [] || CompareLength(s[0], o) >= 0 then [o] + s
    else [s[0]] + Insert(o, s[1..])
  }

  /**
   * `operators.sort(Operator.compareLength)`: a stable sort (as Array.prototype.sort
   * is) putting longer tokens first; an insertion sort from the back.
   */
  function SortByLength(ops: seq<Operator>): seq<Operator> {
    if ops == [] then [] else Insert(ops[0], SortByLength(ops[1..]))
  }

  lemma {:induction false} InsertPermutes(o: Operator, s: seq<Operator>)
    ensures multiset(Insert(o, s)) == multiset(s) + multiset{o}
  {
    if s != [] && CompareLength(s[0], o) < 0 {
      InsertPermutes(o, s[1..]);
      assert s == [s[0]] + s[1..];
    }
  }

  lemma {:induction false} InsertKeepsLongestFirst(o: Operator, s: seq<Operator>)
    requires LongestFirst(s)
    ensures LongestFirst(Insert(o, s))
  {
    if s != [] && CompareLength(s[0], o) < 0 {
      var rest := Insert(o, s[1..]);
      InsertKeepsLongestFirst(o, s[1..]);
      InsertPermutes(o, s[1..]);
      forall j | 0 <= j < |rest| ensures |rest[j].token| <= |s[0].token| {
        assert rest[j] in multiset(rest);
        if rest[j] != o {
          assert rest[j] in multiset(s[1..]);
          var k :| 0 <= k < |s[1..]| && s[1..][k] == rest[j];
          assert s[k + 1] == rest[j];
        }
      }
      assert Insert(o, s) == [s[0]] + rest;
    }
  }

  /** The sorted catalog holds the same operators, each as often. */
  lemma {:induction false} SortPermutes(ops: seq<Operator>)
    ensures multiset(SortByLength(ops)) == multiset(ops)
  {
    if ops != [] {
      SortPermutes(ops[1..]);
      InsertPermutes(ops[0], SortByLength(ops[1..]));
      assert ops == [ops[0]] + ops[1..];
    }
  }

  /** The sorted catalog has its longest tokens first. */
  lemma {:induction false} SortLongestFirst(ops: seq<Operator>)
    ensures LongestFirst(SortByLength(ops))
  {
    if ops != [] {
      SortLongestFirst(ops[1..]);
      InsertKeepsLongestFirst(ops[0], SortByLength(ops[1..]));
    }
  }

  // ---------------------------------------------------------------------
  // getOperator
  // ---------------------------------------------------------------------

  /** `operators.filter(op => op.token === token)`. */
  function WithToken(ops: seq<Operator>, token: string): seq<Operator> {
    if ops == [] then []
    else (if ops[0].token == token then [ops[0]] else []) + WithToken(ops[1..], token)
  }

  /** The filter keeps exactly the operators with the token. */
  lemma {:induction false} WithTokenMembers(ops: seq<Operator>, token: string)
    ensures forall o :: o in WithToken(ops, token) <==> o in ops && o.token == token
  {
    if ops != [] {
      WithTokenMembers(ops[1..], token);
      assert ops == [ops[0]] + ops[1..];
    }
  }

  /** The operators among `ops` that may stand in the position `isUnary` describes. */
  function Fitting(ops: seq<Operator>, isUnary: bool): seq<Operator> {
    if ops == [] then []
    else (if Fits(ops[0], isUnary) then [ops[0]] else []) + Fitting(ops[1..], isUnary)
  }

  /** The filter keeps exactly the operators that fit the position. */
  lemma {:induction false} FittingMembers(ops: seq<Operator>, isUnary: bool)
    ensures forall o :: o in Fitting(ops, isUnary) <==> o in ops && Fits(o, isUnary)
  {
    if ops != [] {
      FittingMembers(ops[1..], isUnary);
      assert ops == [ops[0]] + ops[1..];
    }
  }

  /**
   * ShuntingYard.getOperator: the first operator with the token; when the
   * token is overloaded, the first one that fits the position.
   */
  function GetOperator(ops: seq<Operator>, token: string, isUnary: bool): (r: Option<Operator>)
    ensures r.Some? ==> r.value in ops && r.value.token == token
    ensures (forall o :: o in ops ==> o.token != token) ==> r.None?
    ensures |WithToken(ops, token)| > 1 && r.Some? ==> Fits(r.value, isUnary)
    ensures |WithToken(ops, token)| > 1 && r.None? ==>
      forall o :: o in ops && o.token == token ==> !Fits(o, isUnary)
    ensures |WithToken(ops, token)| == 1 ==> r == Some(WithToken(ops, token)[0])
  {
    var candidates := WithToken(ops, token);
    var eligible := if |candidates| > 1 then Fitting(candidates, isUnary) else candidates;
    WithTokenMembers(ops, token);
    FittingMembers(candidates, isUnary);
    if |eligible| > 0 then
      assert eligible[0] in eligible;
      Some(eligible[0])
    else None
  }

  /** Overloaded tokens resolve to the first operator, in catalog order, that fits the position. */
  lemma {:induction false} GetOperatorFirstFit(ops: seq<Operator>, token: string, isUnary: bool, i: nat)
    requires |WithToken(ops, token)| > 1
    requires i < |ops| && ops[i].token == token && Fits(ops[i], isUnary)
    requires forall j :: 0 <= j < i ==> !(ops[j].token == token && Fits(ops[j], isUnary))
    ensures GetOperator(ops, token, isUnary) == Some(ops[i])
  {
    FirstFit(ops, token, isUnary, i);
  }

  lemma {:induction false} FirstFit(ops: seq<Operator>, token: string, isUnary: bool, i: nat)
    requires i < |ops| && ops[i].token == token && Fits(ops[i], isUnary)
    requires forall j :: 0 <= j < i ==> !(ops[j].token == token && Fits(ops[j], isUnary))
    ensures Fitting(WithToken(ops, token), isUnary) != []
    ensures Fitting(WithToken(ops, token), isUnary)[0] == ops[i]
  {
    var rest := WithToken(ops[1..], token);
    if i == 0 {
      assert WithToken(ops, token) == [ops[0]] + rest;
    } else {
      FirstFit(ops[1..], token, isUnary, i - 1);
      if ops[0].token == token {
        assert WithToken(ops, token) == [ops[0]] + rest;
        assert !Fits(ops[0], isUnary);
        assert ([ops[0]] + rest)[1..] == rest;
      } else {
        assert WithToken(ops, token) == rest;
      }
    }
  }

  /** Sorting keeps the operators of each token in their registration order. */
  lemma {:induction false} InsertKeepsTokenOrder(o: Operator, s: seq<Operator>, token: string)
    ensures WithToken(Insert(o, s), token) == WithToken([o] + s, token)
  {
    assert ([o] + s)[1..] == s;
    if s != [] && CompareLength(s[0], o) < 0 {
      InsertKeepsTokenOrder(o, s[1..], token);
      var r := [s[0]] + Insert(o, s[1..]);
      assert r[1..] == Insert(o, s[1..]);
      assert ([o] + s[1..])[1..] == s[1..];
      assert WithToken(s, token) == (if s[0].token == token then [s[0]] else []) + WithToken(s[1..], token);
    }
  }

  lemma {:induction false} SortKeepsTokenOrder(ops: seq<Operator>, token: string)
    ensures WithToken(SortByLength(ops), token) == WithToken(ops, token)
  {
    if ops != [] {
      SortKeepsTokenOrder(ops[1..], token);
      InsertKeepsTokenOrder(ops[0], SortByLength(ops[1..]), token);
      assert ([ops[0]] + SortByLength(ops[1..]))[1..] == SortByLength(ops[1..]);
    }
  }

  /** Sorting the operators does not change what the lookup finds. */
  lemma SortedLookup(ops: seq<Operator>, token: string, isUnary: bool)
    ensures GetOperator(SortByLength(ops), token, isUnary) == GetOperator(ops, token, isUnary)
  {
    SortKeepsTokenOrder(ops, token);
  }

  /** The lookup in the sorted catalog finds what it would find in registration order. */
  lemma CatalogLookupAsRegistered(token: string, isUnary: bool)
    ensures GetOperator(Catalog(), token, isUnary) == GetOperator(Registered(), token, isUnary)
  {
    SortedLookup(Registered(), token, isUnary);
  }

  /** Two operators with the token make it overloaded. */
  lemma {:induction false} TwoCandidates(ops: seq<Operator>, token: string, i: nat, j: nat)
    requires i < j < |ops| && ops[i].token == token && ops[j].token == token
    ensures |WithToken(ops, token)| > 1
  {
    if i == 0 {
      WithTokenMembers(ops[1..], token);
      assert ops[1..][j - 1] == ops[j];
    } else {
      TwoCandidates(ops[1..], token, i - 1, j - 1);
    }
  }

  lemma RegisteredPlusUnary(ops: seq<Operator>)
    requires ops == Registered()
    ensures GetOperator(ops, "+", true) == Some(UnaryPlusOperator)
  {
    TwoCandidates(ops, "+", 0, 2);
    GetOperatorFirstFit(ops, "+", true, 0);
  }

  lemma RegisteredPlusNonUnary(ops: seq<Operator>)
    requires ops == Registered()
    ensures GetOperator(ops, "+", false) == Some(PlusOperator)
  {
    TwoCandidates(ops, "+", 0, 2);
    assert forall j :: 0 <= j < 2 ==> !(ops[j].token == "+" && Fits(ops[j], false));
    GetOperatorFirstFit(ops, "+", false, 2);
  }

  lemma RegisteredMinusUnary(ops: seq<Operator>)
    requires ops == Registered()
    ensures GetOperator(ops, "-", true) == Some(UnaryMinusOperator)
  {
    TwoCandidates(ops, "-", 1, 3);
    GetOperatorFirstFit(ops, "-", true, 1);
  }

  lemma RegisteredMinusNonUnary(ops: seq<Operator>)
    requires ops == Registered()
    ensures GetOperator(ops, "-", false) == Some(MinusOperator)
  {
    TwoCandidates(ops, "-", 1, 3);
    assert forall j :: 0 <= j < 3 ==> !(ops[j].token == "-" && Fits(ops[j], false));
    GetOperatorFirstFit(ops, "-", false, 3);
  }

  lemma RegisteredBangUnary(ops: seq<Operator>)
    requires ops == Registered()
    ensures GetOperator(ops, "!", true) == Some(BooleanNegateOperator)
  {
    TwoCandidates(ops, "!", 7, 8);
    assert forall j :: 0 <= j < 7 ==> !(ops[j].token == "!" && Fits(ops[j], true));
    GetOperatorFirstFit(ops, "!", true, 7);
  }

  lemma RegisteredBangNonUnary(ops: seq<Operator>)
    requires ops == Registered()
    ensures GetOperator(ops, "!", false) == Some(FactorialOperator)
  {
    TwoCandidates(ops, "!", 7, 8);
    assert forall j :: 0 <= j < 8 ==> !(ops[j].token == "!" && Fits(ops[j], false));
    GetOperatorFirstFit(ops, "!", false, 8);
  }

  lemma RegisteredDiceUnary(ops: seq<Operator>)
    requires ops == Registered()
    ensures GetOperator(ops, "d", true) == Some(UnaryDiceRollOperator)
  {
    TwoCandidates(ops, "d", 12, 13);
    assert forall j :: 0 <= j < 12 ==> !(ops[j].token == "d" && Fits(ops[j], true));
    GetOperatorFirstFit(ops, "d", true, 12);
  }

  lemma RegisteredDiceNonUnary(ops: seq<Operator>)
    requires ops == Registered()
    ensures GetOperator(ops, "d", false) == Some(DiceRollOperator)
  {
    TwoCandidates(ops, "d", 12, 13);
    assert forall j :: 0 <= j < 13 ==> !(ops[j].token == "d" && Fits(ops[j], false));
    GetOperatorFirstFit(ops, "d", false, 13);
  }

  /**
   * How the overloaded tokens of the catalog resolve: `+`, `-`, `!` and `d`
   * are prefix operators where an operand is expected; elsewhere `+`, `-`
   * and `d` are binary and `!` is the postfix factorial.
   */
  lemma CatalogOverloads(ops: seq<Operator>)
    requires ops == Catalog()
    ensures GetOperator(ops, "+", true) == Some(UnaryPlusOperator)
    ensures GetOperator(ops, "+", false) == Some(PlusOperator)
    ensures GetOperator(ops, "-", true) == Some(UnaryMinusOperator)
    ensures GetOperator(ops, "-", false) == Some(MinusOperator)
    ensures GetOperator(ops, "!", true) == Some(BooleanNegateOperator)
    ensures GetOperator(ops, "!", false) == Some(FactorialOperator)
    ensures GetOperator(ops, "d", true) == Some(UnaryDiceRollOperator)
    ensures GetOperator(ops, "d", false) == Some(DiceRollOperator)
  {
    RegisteredPlusUnary(Registered());
    RegisteredPlusNonUnary(Registered());
    RegisteredMinusUnary(Registered());
    RegisteredMinusNonUnary(Registered());
    RegisteredBangUnary(Registered());
    RegisteredBangNonUnary(Registered());
    RegisteredDiceUnary(Registered());
    RegisteredDiceNonUnary(Registered());
    forall token: string, isUnary: bool
      ensures GetOperator(ops, token, isUnary) == GetOperator(Registered(), token, isUnary)
    {
      CatalogLookupAsRegistered(token, isUnary);
    }
  }

  /** The lookup only returns an operator spelling the token. */
  lemma OtherToken(ops: seq<Operator>, token: string, isUnary: bool, o: Operator)
    requires o.token != token
    ensures GetOperator(ops, token, isUnary) != Some(o)
  {
  }

  /** The infix `!` (append) is registered after the postfix `!` (factorial), so the lookup never returns it. */
  lemma AppendNeverSelected(ops: seq<Operator>, token: string, isUnary: bool)
    requires ops == Catalog()
    ensures GetOperator(ops, token, isUnary) != Some(AppendOperator)
  {
    if token == "!" {
      CatalogLookupAsRegistered(token, isUnary);
      if isUnary {
        RegisteredBangUnary(Registered());
      } else {
        RegisteredBangNonUnary(Registered());
      }
    } else {
      assert AppendOperator.token == "!";
      OtherToken(ops, token, isUnary, AppendOperator);
    }
  }
}
