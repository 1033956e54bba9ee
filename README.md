# Shunting-yard expression engine (model of `shuntingYard.js`)

`ShuntingYard.process(str)` works out a dice-and-arithmetic expression in three stages:

1. `tokenize` splits the input with one global regular expression. It rejects input that the matches do not cover exactly.
2. `infixToPostfix` runs Dijkstra's shunting-yard algorithm. It resolves overloaded operator tokens by position and handles `(` `)` groups, `[` `]` array literals, `,` separators and variadic functions.
3. `evaluate` runs the postfix list on an operand stack, with a parameter buffer for argument lists.

The operations behind the operator catalog are JavaScript functions. They work on numbers, strings, booleans and nested arrays, and `plus` broadcasts over arrays.

The Dafny project models each stage in the form the source gives it.

**Data** (value types):
- `Values.Value` is a JavaScript value. It carries the coercions the operations rely on: truthiness, `String(v)`, `Number(v)`, and `+`, `*` and `/`.
- `Operators.Operator` is an operator record, with the catalog, its stable sort and the overload lookup.
- `Converter.Yard` holds the output and the operator stack.
- `Evaluator.Machine` holds the operands and the parameter buffer.

**Pure parts** are functions:
- the operations;
- the lookup;
- one function per token branch (`Converter.Step`) and per postfix element (`Evaluator.EvalStep`);
- the loops that run them (`Converter.Run`, `Evaluator.EvalRun`).

**Imperative parts** are methods proved equal to those functions:
- the conversion loop (`Converter.InfixToPostfix`);
- the evaluation loop (`Evaluator.Evaluate`);
- the loops inside `plus`, `append` and `sum`;
- the pipeline (`Evaluator.Process`).

**Failures.** Every `throw` in the source becomes an `Err` carrying the error kind (`Results.Error`) and the text the message names.

**Behaviour of the code worth knowing** (each bullet names the member that proves it):

- Number tokens are never converted. `evaluate` pushes the token strings, so `1 2 +` gives `"21"` (`Evaluator.StringOperandsConcatenate`). Arithmetic on operands goes through JavaScript coercion.
- Operands reach an operation in pop order: the right operand is first (`Evaluator.BinaryPopOrder`).
- The evaluator calls `postfix[i].operation(...)` as a method of the operator object. Inside the broadcasting branches of `plus`, `minus`, `multiply` and `divide`, `this.plus` and `this.multiply` therefore name no function. Calling them is a TypeError (`Evaluator.Apply`, `Evaluator.PlusOperatorOnArrays`).
- `minus` adds in every branch, and the array branches of `multiply` and `divide` call `plus` or `multiply` (`Operations.Subtract`, `Evaluator.MinusAppliesAsPlus`).
- `factorial(0)` is 0, not 1 (`Operations.FactorialOfMatchesFact`).
- The infix `!` (append) can never be selected (`Operators.AppendNeverSelected`).
- `[` `]` and `,` reach the evaluator as plain marker strings (`Converter.CloseBracketPops`, `Converter.SeparatePops`).
- The `)` branch pops a following `(` string too, because a string has no `arity`. So `((1))` is rejected (`Converter.NestedParenthesesRejected`).
- The lookup takes the first candidate even when several remain after the position filter; there is no configuration error.
- The catalog is the sixteen operators the constructor registers (`Operators.RegisteredByFactories`).
- An empty input is reported as the unrecognized token `undefined` (`Tokenizer.EmptyInput`).

## Model

| member | source | states |
|---|---|---|
| Results.AllOk | shuntingYard.js:280-282 | A `map` whose callback can throw: Ok exactly when every element result is Ok, with the values in order. Otherwise it gives the first failure. |
| Results.AllOkFirstError | shuntingYard.js:280-282 | When an element result fails and every earlier one succeeds, the whole `map` fails with that element's error. |
| Values.Trim | shuntingYard.js:130 | `trim` leaves no white space at either end. The result is empty exactly when the token is all white space. |
| Values.TrimStart | shuntingYard.js:130 | Removes exactly the leading white space: the result is a suffix that does not start with white space. |
| Values.TrimEnd | shuntingYard.js:130 | Removes exactly the trailing white space: the result is a prefix that does not end with white space. |
| Values.TrimCutsBlankEnds | shuntingYard.js:130 | `trim` gives exactly the slice of the token that starts after its leading white space. Everything before and after that slice is white space, so nothing else is cut. |
| Values.NumberRoundTrip | shuntingYard.js:363 | Reading the decimal string of a safe integer back as a number gives the integer. |
| Sequences.Reversed | shuntingYard.js:249-253 | The popped operands, most recent first: element `i` is the `i`-th from the top. |
| Sequences.ReversedMultiset | shuntingYard.js:208-210 | Popping a whole stack onto the output loses and adds nothing. |
| Sequences.ReversedFront | shuntingYard.js:249-253 | The operand pushed first is popped last. |
| Operators.CreateConstant | shuntingYard.js:40-42 | A constant has arity 0 and precedence 0, and fits both positions. |
| Operators.CreateUnaryPrefixOperator | shuntingYard.js:44-46 | Arity 1, precedence 2, right-associative, and fits only where an operand is expected. |
| Operators.CreateBinaryOperator | shuntingYard.js:48-50 | Arity 2 with the given precedence and associativity, and fits only after an operand. |
| Operators.CreateUnaryPostfixOperator | shuntingYard.js:52-54 | Arity 1, precedence 2, left-associative, and fits only after an operand. |
| Operators.CreateFunctionOperator | shuntingYard.js:56-58 | Variadic, precedence 2, and fits only after an operand, since its arity is not 1. |
| Operators.RegisteredByFactories | shuntingYard.js:78-97 | Each of the sixteen catalog entries is what its factory call builds. |
| Operators.CompareLength | shuntingYard.js:33-38 | Negative exactly when the first token is longer, and zero exactly when the lengths are equal. |
| Operators.InsertPermutes | shuntingYard.js:100 | One insertion step of the sort adds exactly the inserted operator. |
| Operators.InsertKeepsLongestFirst | shuntingYard.js:100 | Insertion keeps the list ordered longest token first. |
| Operators.SortPermutes | shuntingYard.js:100 | The sorted catalog is a permutation of the registered operators. |
| Operators.SortLongestFirst | shuntingYard.js:100 | The sorted catalog has its longest tokens first. |
| Operators.InsertKeepsTokenOrder | shuntingYard.js:100 | Insertion keeps the operators of each token in their relative order (the sort is stable). |
| Operators.SortKeepsTokenOrder | shuntingYard.js:100 | Sorting keeps the operators of every token in registration order. |
| Operators.WithTokenMembers | shuntingYard.js:136 | The token filter keeps exactly the operators with that token. |
| Operators.FittingMembers | shuntingYard.js:138-144 | The position filter keeps exactly the operators that fit the position. |
| Operators.GetOperator | shuntingYard.js:135-149 | The result is a catalog operator with the token, and there is none when no operator has the token. A token that is not overloaded gives its only operator. An overloaded one gives an operator that fits the position, or none when none fits. |
| Operators.GetOperatorFirstFit | shuntingYard.js:137-148 | An overloaded token gives the first operator in catalog order that fits the position. |
| Operators.FirstFit | shuntingYard.js:137-148 | The first catalog operator that has the token and fits the position heads the filtered list. |
| Operators.SortedLookup | shuntingYard.js:100-136 | Sorting the operators never changes what the lookup finds. |
| Operators.CatalogLookupAsRegistered | shuntingYard.js:97-102 | The lookup in the sorted catalog finds what it finds in registration order. |
| Operators.TwoCandidates | shuntingYard.js:137 | Two operators with the same token make it overloaded. |
| Operators.RegisteredPlusUnary | shuntingYard.js:78-80 | In the registered catalog, `+` where an operand is expected is unary plus. |
| Operators.RegisteredPlusNonUnary | shuntingYard.js:78-80 | In the registered catalog, `+` after an operand is binary plus. |
| Operators.RegisteredMinusUnary | shuntingYard.js:79-81 | In the registered catalog, `-` where an operand is expected is unary minus. |
| Operators.RegisteredMinusNonUnary | shuntingYard.js:79-81 | In the registered catalog, `-` after an operand is binary minus. |
| Operators.RegisteredBangUnary | shuntingYard.js:87-88 | In the registered catalog, `!` where an operand is expected is boolean negation. |
| Operators.RegisteredBangNonUnary | shuntingYard.js:87-97 | In the registered catalog, `!` after an operand is the postfix factorial. |
| Operators.RegisteredDiceUnary | shuntingYard.js:92-93 | In the registered catalog, `d` where an operand is expected is the unary dice roll. |
| Operators.RegisteredDiceNonUnary | shuntingYard.js:92-93 | In the registered catalog, `d` after an operand is the binary dice roll. |
| Operators.CatalogOverloads | shuntingYard.js:78-149 | How the sorted catalog resolves `+`, `-`, `!` and `d` in both positions. |
| Operators.AppendNeverSelected | shuntingYard.js:87-100 | No token in either position resolves to the infix `!` (append). |
| Operations.At | shuntingYard.js:324 | `xs[i] ? xs[i] : 0`: the element when it exists and is truthy, else 0, and always shallower than the array. |
| Operations.Add | shuntingYard.js:313-330 | A scalar augend is JavaScript `+`. An array against a scalar keeps the array's length. Two arrays give the longer length. |
| Operations.Plus | shuntingYard.js:313-330 | `plus` computes `Add` in each branch: JavaScript `+` for a scalar augend, the element map against a scalar, the loop against an array. |
| Operations.PlusPositionwise | shuntingYard.js:322-326 | The loop that builds `sum` computes `Add` on two arrays, including the first failing position's error. |
| Operations.PositionwiseStops | shuntingYard.js:322-325 | When the array-array loop fails at a position after every earlier position succeeded, `plus` fails with that position's error. |
| Operations.PositionwiseDone | shuntingYard.js:322-326 | When every padded position sums to the collected element, `plus` returns exactly the collected array. |
| Operations.AddScalarToEach | shuntingYard.js:319-320 | Array plus scalar succeeds exactly when every element plus the scalar does, and element `i` is that sum. |
| Operations.AddPositionwise | shuntingYard.js:321-327 | Array plus array succeeds exactly when every zero-padded position sum does, and position `i` is that sum. |
| Operations.AddIntegerArrays | shuntingYard.js:315-317 | On integer arrays, `plus` is zero-padded position-wise integer addition. |
| Operations.AddIntegerToArray | shuntingYard.js:314 | On an integer array and an integer, `plus` adds the integer to every element. |
| Operations.AddSafeNumbers | shuntingYard.js:329 | Two numbers add as integers while the sum is a safe integer. |
| Operations.PlusCommentExamples | shuntingYard.js:314-317 | The four examples in the comment above `plus` hold. |
| Operations.Subtract | shuntingYard.js:332-349 | `minus` as written is `plus` on every input. |
| Operations.Multiply | shuntingYard.js:351-364 | A scalar multiplier is JavaScript `*`. An array times a scalar is `plus`. Two arrays give the longer length. |
| Operations.MultiplyIntegerArrays | shuntingYard.js:356-360 | On integer arrays, `multiply` is zero-padded position-wise integer multiplication. |
| Operations.MultiplyNums | shuntingYard.js:363 | Two numbers multiply as integers, failing only when the product is not a safe integer. |
| Operations.Divide | shuntingYard.js:366-379 | A scalar dividend is JavaScript `/`. An array by a scalar is `plus`. An array by an array is `multiply`. |
| Operations.UnaryPlus | shuntingYard.js:279-284 | A result is a safe integer or an array of them, shaped like the operand. |
| Operations.UnaryPlusMaps | shuntingYard.js:280-282 | On an array, unary plus succeeds exactly when it does on every element, element i of the result being unary plus of element i; otherwise it fails with the first failing element's error. |
| Operations.UnaryMinus | shuntingYard.js:286-291 | A result is a safe integer or an array of them, shaped like the operand. |
| Operations.UnaryMinusMaps | shuntingYard.js:287-289 | On an array, unary minus succeeds exactly when it does on every element, element i of the result being unary minus of element i; otherwise it fails with the first failing element's error. |
| Operations.UnaryMinusIsNegatedUnaryPlus | shuntingYard.js:279-291 | `unaryMinus` is `unaryPlus` with every number negated, and fails exactly when `unaryPlus` fails. |
| Operations.ScalarUnary | shuntingYard.js:283-290 | On a scalar, unary plus and minus give its number and its negation, or fail when it has none. |
| Operations.NegatedTwice | shuntingYard.js:286-291 | Negating every number twice gives the value back. |
| Operations.UnaryPlusOfNumerals | shuntingYard.js:279-284 | An array of the decimal strings of safe integers, as the evaluator pushes operands, becomes element by element the array of those integers. |
| Operations.UnaryPlusOfNumeric | shuntingYard.js:279-284 | Unary plus leaves safe integers and arrays of them unchanged. |
| Operations.UnaryPlusIdempotent | shuntingYard.js:279-284 | Applying unary plus to its own result changes nothing. |
| Operations.UnaryMinusTwice | shuntingYard.js:279-291 | Unary minus applied twice is unary plus. |
| Operations.BooleanNegate | shuntingYard.js:381-386 | The result is boolean at every depth and shaped like the operand. A scalar gives the negation of its truthiness. |
| Operations.BooleanNegateMaps | shuntingYard.js:382-384 | On an array, element i of the result is the negation of element i, and the lengths agree. |
| Operations.BooleanNegateTwice | shuntingYard.js:381-386 | On booleans, negating twice is the identity. |
| Operations.BooleanNegateThrice | shuntingYard.js:381-386 | Negating three times is negating once, on any operand. |
| Operations.FactorialOf | shuntingYard.js:395-401 | The factorial of a number is a number or `undefined`. |
| Operations.Factorial | shuntingYard.js:388-402 | `undefined` is refused. A number goes to the numeric factorial. A success is shaped like the operand. |
| Operations.FactorialMaps | shuntingYard.js:392-394 | On an array, factorial succeeds exactly when it does on every element, element i of the result being the factorial of element i; otherwise it fails with the first failing element's error. |
| Operations.FactorialOfText | shuntingYard.js:395-401 | A string or boolean operand is never strictly 0 or 1, and its result is not an array. |
| Operations.FactorialOfMatchesFact | shuntingYard.js:395-401 | For n >= 1 the result is n! while that is a safe integer. 0 gives 0 and a negative number gives `undefined`. |
| Operations.Appended | shuntingYard.js:293-311 | Succeeds exactly when the first operand is an array, or a string with the empty array as second operand (then the string comes back unchanged). For an array the result is that array followed by the second operand's elements, or by the second operand itself when it is a scalar. |
| Operations.Append | shuntingYard.js:299-310 | The pushing loop computes `Appended`. |
| Operations.AppendCommentExamples | shuntingYard.js:294-298 | The five examples in the comment in `append` hold. |
| Operations.SumOf | shuntingYard.js:428-434 | A successful sum is never an array. |
| Operations.SumOfFailureSticks | shuntingYard.js:430-432 | Once a prefix of the summands fails, the whole sum fails the same way. |
| Operations.Sum | shuntingYard.js:428-434 | The accumulator loop computes the left fold of `plus` from 0, stopping at the first failure. |
| Operations.SumOfIntegers | shuntingYard.js:428-434 | On integers with safe running totals, `sum` is the integer sum. |
| Tokenizer.FirstLine | shuntingYard.js:127 | The first non-empty line holds no line break and only characters of the string. There is none exactly when the string is all line breaks. |
| Tokenizer.TrimAllTrimmed | shuntingYard.js:130-131 | Every token that trimming and filtering keep is non-empty and trimmed. |
| Tokenizer.Tokenize | shuntingYard.js:124-133 | Success gives only non-empty trimmed tokens. Failure is always an unrecognized token. |
| Tokenizer.MatchesSpellInput | shuntingYard.js:126 | When no character is left uncovered, the joined matches are the input. |
| Tokenizer.TokenizeFailsIffUncovered | shuntingYard.js:125-126 | Tokenizing fails exactly when nothing matched or some character is not covered by a match. |
| Tokenizer.ReplacedChars | shuntingYard.js:127 | Replacing the matches leaves only line breaks and uncovered characters. |
| Tokenizer.ReplacedAllBreaks | shuntingYard.js:127-128 | The replaced input is all line breaks exactly when every uncovered character is a line break. |
| Tokenizer.ReportedText | shuntingYard.js:127-128 | The reported text is a non-empty run of uncovered characters without a line break. It is `undefined` only when every uncovered character is a line break. |
| Tokenizer.EmptyInput | shuntingYard.js:125-128 | The empty input is reported as the token `undefined`. |
| Tokenizer.TokenizeDropsSpaces | shuntingYard.js:130-131 | When each match is a single space or a clean token, trimming drops the spaces and keeps the rest in order. |
| Tokenizer.TokenizeCleanScan | shuntingYard.js:124-133 | A fully covered scan of spaces and clean tokens tokenizes to its non-space matches. |
| Converter.OperatorTokens | shuntingYard.js:157 | The unary-context tokens are exactly those of the catalog operators with non-zero precedence. |
| Converter.Resolved | shuntingYard.js:161-163 | A resolved operator is in the catalog and spells the token. |
| Converter.DrainMoves | shuntingYard.js:169-171 | A popping loop keeps a prefix of the stack and moves the rest to the output, top first. |
| Converter.DrainStops | shuntingYard.js:169-171 | A popping loop stops at the first entry from the top that ends it, and pops nothing that would. |
| Converter.DrainEmptiesIff | shuntingYard.js:169-174 | The loop empties the stack exactly when no entry would stop it. |
| Converter.DrainTo | shuntingYard.js:169-171 | When the entry at `n` is the topmost one that ends a popping loop, the loop moves everything above it to the output, top first, and stops there. |
| Converter.CloseParen | shuntingYard.js:168-178 | `)` fails exactly when no `(` is on the stack. Otherwise the stack shrinks to a proper prefix of itself. |
| Converter.CloseBracket | shuntingYard.js:179-187 | `]` fails exactly when no `[` is on the stack. Otherwise the stack shrinks to a proper prefix of itself. |
| Converter.Separate | shuntingYard.js:188-195 | `,` fails exactly when no opener is on the stack. Otherwise the stack is cut to a prefix. |
| Converter.PushOperatorPops | shuntingYard.js:196-203 | An incoming operator pops exactly the entries above the first that does not give way to it, emits them top first, and then sits on top. |
| Converter.CloseParenPops | shuntingYard.js:168-178 | With the innermost `(` at `n`, `)` moves the entries above it to the output top first and drops it. An opener string or a variadic function just below it is then moved to the output too; otherwise the stack is cut to the entries below the `(`. |
| Converter.CloseBracketPops | shuntingYard.js:179-187 | With the innermost `[` at `n`, `]` moves the entries above it to the output top first, drops it, and emits the `"]"` marker. The stack is cut to the entries below the `[`. |
| Converter.SeparatePops | shuntingYard.js:188-195 | With the innermost opener at `n`, `,` moves the entries above it to the output top first, keeps the opener on the stack, and emits the `","` marker. |
| Converter.Step | shuntingYard.js:160-207 | Only `)`, `]` and `,` can fail, each as a mismatched grouping naming itself. |
| Converter.Run | shuntingYard.js:160-207 | A failing token loop fails only with a mismatched grouping. |
| Converter.Finish | shuntingYard.js:208-217 | A flushed output never holds an opener; an opener left over is reported. |
| Converter.ConvertSpec | shuntingYard.js:151-218 | An empty token list converts to itself. Success holds no opener. Every failure is a mismatched grouping. |
| Converter.Unwind | shuntingYard.js:169-171 | Each popping `while` loop computes `Drain`. |
| Converter.InfixToPostfix | shuntingYard.js:151-218 | The method with its arrays and loops computes `ConvertSpec`. |
| Converter.MoveTop | shuntingYard.js:170 | Moving the stack top to the output moves an operator or opener, never an operand. |
| Converter.DropOpener | shuntingYard.js:175 | Dropping an opener changes no operator held. |
| Converter.EmitMarker | shuntingYard.js:187 | Emitting a grouping marker adds no operand and no operator. |
| Converter.DrainKeeps | shuntingYard.js:169-171 | Popping loops keep the operands emitted and the operators held. |
| Converter.FlushKeeps | shuntingYard.js:208-210 | The final flush emits every operator held and no operand. |
| Converter.CloseParenKeeps | shuntingYard.js:168-178 | The `)` branch keeps the operands emitted and the operators held. |
| Converter.CloseBracketKeeps | shuntingYard.js:179-187 | The `]` branch keeps the operands emitted and the operators held. |
| Converter.SeparateKeeps | shuntingYard.js:188-195 | The `,` branch keeps the operands emitted and the operators held. |
| Converter.PushOperatorKeeps | shuntingYard.js:196-203 | The operator branch adds exactly the incoming operator to what is held. |
| Converter.EmitOperand | shuntingYard.js:204-205 | An operand token is appended to the emitted operands. |
| Converter.StepKeeps | shuntingYard.js:160-207 | Each token keeps the output and stack accounted for: operand tokens in order, and each resolved operator once. |
| Converter.RunKeeps | shuntingYard.js:160-207 | The whole loop keeps that accounting. |
| Converter.ConvertKeepsOperandsAndOperators | shuntingYard.js:151-218 | A successful conversion emits the operand tokens in input order and every resolved operator exactly once. |
| Converter.StepKeepsOrder | shuntingYard.js:196-203 | Each token keeps the operator stack ordered: no operator sits on one it would have popped. |
| Converter.RunKeepsOrder | shuntingYard.js:160-207 | The whole loop keeps the operator stack ordered. |
| Converter.NotAnOperator | shuntingYard.js:163 | A token that no operator spells resolves to nothing. |
| Converter.CloseParenSwallowsOuterOpener | shuntingYard.js:175-178 | A `)` meeting two nested `(` drops one and emits the other. |
| Converter.NestedParenthesesRejected | shuntingYard.js:168-178 | `((1))` is rejected as a mismatched `)`. |
| Converter.SingleParenthesesAccepted | shuntingYard.js:164-178 | `(1)` converts to `1`. |
| Converter.OperandRuns | shuntingYard.js:204-205 | A token that names no operator goes straight to the output. |
| Converter.OperatorAfterOperand | shuntingYard.js:196-203 | An operator after an operand is pushed onto the empty stack. |
| Converter.BinaryRuns | shuntingYard.js:160-207 | The loop over `a t b` ends with both operands emitted and the operator on the stack. |
| Converter.BinaryConverts | shuntingYard.js:151-218 | `a t b` converts to `a b t` for a binary token `t` and operands `a` and `b`. |
| Converter.FinishWithOperator | shuntingYard.js:208-217 | With no opener on the output, the final flush of a lone operator appends it and succeeds. |
| Converter.SeparatorRuns | shuntingYard.js:188-195 | A `,` met with a `(` on top of the stack emits its marker and keeps the `(`. |
| Converter.ArgStep | shuntingYard.js:188-206 | An operand and the `,` after it, met inside a parenthesis, both go to the output. |
| Converter.ArgsRun | shuntingYard.js:160-207 | Inside a parenthesis, an argument list of operands `t0 , ... , tn` goes to the output as it stands. The stack is unchanged and the loop moves on by `2n + 1` tokens. |
| Converter.CallOpens | shuntingYard.js:160-203 | A function name at the start is pushed, and the `(` after it lands on top. |
| Converter.CallCloses | shuntingYard.js:168-178 | The last `)` drops the `(` and emits the variadic function below it, leaving the stack empty. |
| Converter.CallRuns | shuntingYard.js:160-207 | The loop over `f ( t0 , ... , tn )` ends with the argument list, then `f`, on the output and an empty stack. |
| Converter.CallConverts | shuntingYard.js:151-218 | A call `f ( t0 , ... , tn )` of a variadic function over operands converts to `t0 , ... , tn f`. |
| Evaluator.Apply | shuntingYard.js:236-255 | An operation called through its operator: `plus` works only where it does not broadcast, and `append` behaves as when called directly. |
| Evaluator.MinusAppliesAsPlus | shuntingYard.js:332-349 | The binary `-` gives what the binary `+` gives on every argument list. |
| Evaluator.PlusOperatorOnArrays | shuntingYard.js:318-327 | The operator form of `+` on an array succeeds exactly when nothing is iterated, giving `[]`. |
| Evaluator.Finish | shuntingYard.js:266-272 | Success exactly when no parameters are left and at most one operand. It gives that operand, and reports leftover parameters or operands joined by commas. |
| Evaluator.Popped | shuntingYard.js:231-252 | `pop()` removes exactly the last element, and leaves an empty stack empty. |
| Evaluator.PopOperands | shuntingYard.js:249-253 | The inner loop leaves the stack without its top `n` operands and lists them most recent first. |
| Evaluator.Evaluate | shuntingYard.js:220-273 | The method with its arrays and loops computes `EvaluateSpec`. |
| Evaluator.EvalElement | shuntingYard.js:229-265 | One pass of the loop body, on one postfix element, computes `EvalStep`: the new operand stack and parameter buffer, or the step's failure. |
| Evaluator.EvaluateSpec | shuntingYard.js:223-225 | An empty postfix list evaluates to the empty string. |
| Evaluator.FixedArityStep | shuntingYard.js:245-259 | A fixed-arity operator fails when the stack has fewer than `n` operands. Otherwise it replaces the top `n` operands by its result, called with them most recent first. A constant (`n = 0`) is called with no arguments and pushes its value. |
| Evaluator.BinaryPopOrder | shuntingYard.js:249-255 | A binary operator receives its right operand first and its left operand second. |
| Evaluator.PushAndGroupSteps | shuntingYard.js:229-263 | An operand is pushed as a string. `,` moves the top into the buffer. `]` wraps the buffer and the top into one array and empties the buffer. |
| Evaluator.PlainStepHeight | shuntingYard.js:245-263 | A successful operand or fixed-arity step had enough operands and changes the height by one minus its arity. |
| Evaluator.RunHeight | shuntingYard.js:228-265 | Over operands and fixed-arity operators, a successful loop never starves an operator, and ends at the start height plus the total effect. |
| Evaluator.EvaluateBalance | shuntingYard.js:220-273 | Such a postfix evaluates only if no operator is starved and the total effect is at most 1. Once the loop succeeds, more than one operand left is reported as too few operators. |
| Evaluator.RunConcat | shuntingYard.js:228-265 | Running two pieces of postfix one after the other is running their concatenation. |
| Evaluator.ArgsLoad | shuntingYard.js:229-231 | A comma-separated argument list moves every argument but the last into the buffer, in order. |
| Evaluator.ListLiteral | shuntingYard.js:229-235 | `[t0, ..., tn]` evaluates to the array of the operand strings. |
| Evaluator.VariadicOnLoaded | shuntingYard.js:238-243 | A variadic function is called with the buffer and then the top operand, in order. |
| Evaluator.SumCall | shuntingYard.js:238-243 | `Σ(t0, ..., tn)` evaluates to `sum` over all the operand strings in order. |
| Evaluator.SumTokensEvaluate | shuntingYard.js:151-273 | The tokens `Σ ( t0 , ... , tn )` convert to `t0 , ... , tn Σ`, and that postfix evaluates to `sum` over the operand strings in order. |
| Evaluator.ApplySum | shuntingYard.js:241-242 | The `Σ` operator behaves as the `sum` operation on its argument list. |
| Evaluator.EvaluateBinary | shuntingYard.js:220-273 | `a b t` calls `t` with `b` first and `a` second, both strings. |
| Evaluator.StringOperandsConcatenate | shuntingYard.js:261-263 | `1 2 +` gives the string `"21"`. |
| Evaluator.StarvedOperator | shuntingYard.js:245-248 | `1 +` fails as too few operands, naming `+`. |
| Evaluator.LeftOverOperands | shuntingYard.js:269-271 | `1 2` fails as too few operators, listing `1,2`. |
| Evaluator.DanglingParameters | shuntingYard.js:266-268 | `1 , 2` fails as a missing function call for the parameter `1`. |
| Evaluator.ProcessSpec | shuntingYard.js:120-122 | A tokenizer failure is the result. After a successful tokenization, a conversion failure is a mismatched grouping. |
| Evaluator.Process | shuntingYard.js:120-122 | The pipeline method computes `ProcessSpec`. |
| Evaluator.BinaryExpression | shuntingYard.js:120-122 | `a t b` converts to `a b t` and evaluates by calling `t` with `b` first and `a` second. |
| Evaluator.ProcessBinaryExpression | shuntingYard.js:120-122 | A scan that tokenizes to `a t b` processes to `t` applied to `b` and `a`, as strings. |

## Left out

- UnaryPlus: the function's own contract gives the numeric result and its shape; the element-wise result on an array is stated by `Operations.UnaryPlusMaps`, kept out of the function's contract because a self-referential quantifier there makes every proof that mentions the function, the evaluator's included, much dearer.
- UnaryMinus: as for UnaryPlus; the element-wise result is stated by `Operations.UnaryMinusMaps`.
- BooleanNegate: as for UnaryPlus; the element-wise result is stated by `Operations.BooleanNegateMaps`.
- Factorial: as for UnaryPlus; the element-wise result and the first failing element are stated by `Operations.FactorialMaps`.
- The regular expression (shuntingYard.js:104-108) and `escapeRegex` (111-114) are not modelled. A regex engine is outside the model. `Tokenizer` takes the scan that the expression produces: the text of each match and every character no match covers. The expression's only white-space alternative is a single `" "` (108). Every other alternative (a quoted string, a number, an operator token, a grouping symbol) matches a non-empty text with no white space at either end. So every fully covered scan with at least one match meets the precondition of `Tokenizer.TokenizeCleanScan`.
- Static `process` (116-118) builds a fresh catalog on every call. The model's `Process` takes the catalog as a parameter, and `Operators.Catalog` is the one the constructor builds.
- `toString` and `comparePrecedence` (22-31) are not modelled, because the core never calls them. The `TypeError` of `compareLength` for a record without a token cannot occur for catalog records.
- The `TypeError` for a non-array argument to `infixToPostfix` and `evaluate` (152-153, 221-222) is ruled out by the parameter types.
- `PI` (275-277) returns 3.14, a fraction. It is reported as outside the model.
- `percent` is not defined in the source. Calling it is modelled as a `TypeError`.
- `MAX`, `MIN` and the dice rolls (90-93, 404-426) call `Math.max` and `Math.min`. They are reported as foreign calls, and `customDiceRoll` is never registered.
- Floating-point results (fractions, NaN, infinities, integers beyond 2^53 - 1, decimal number tokens such as `1.5`) are reported as `OutsideModel`. This is the one place the model's integers do not follow JavaScript doubles.
- `null` is not a value of the model. No operation produces it, so the `null` check in `factorial` is not modelled.
- Error messages are modelled by their kind and the text they name, not as full message strings.
- Evaluator.Apply: states its result only for `plus` and `append`. The other operations' error cases are given by the definition and by the operation lemmas (`Operations.Subtract`, `Operations.Divide`, `Operations.Factorial` and the rest). Their error kinds are not collected into one contract.
- Operations.SumOf: its contract states only that a successful sum is a scalar. What the sum is comes from `Operations.SumOfIntegers` for integers.
- Evaluator.ProcessBinaryExpression: proved for any catalog and any three-token scan, not for the concrete catalog on a concrete string.
