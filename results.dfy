/**
 * Failure-carrying results shared by every stage of the expression engine.
 * The JavaScript code reports failures by throwing `Error` or `TypeError`;
 * the model returns `Err` with the kind of failure instead.
 */
module Results {

  datatype Option<+T> = None | Some(value: T)

  /** The ways one run of the engine can stop without a value. */
  datatype Error =
    | UnrecognizedToken(text: string)       // tokenize: input not covered by the matches
    | MismatchedGrouping(symbol: string)    // infixToPostfix: unbalanced `(`, `)`, `[`, `]` or `,`
    | TooFewOperands(token: string)         // evaluate: fixed-arity operator with too short a stack
    | MissingFunctionCall(parameters: string) // evaluate: parameter buffer left over at the end
    | TooFewOperators(operands: string)     // evaluate: more than one operand left at the end
    | FactorialRequiresParameter            // factorial of `undefined`
    | NotAFunction(callee: string)          // a JavaScript TypeError: calling something that is not a function
    | OutsideModel(operation: string)       // the JavaScript result is NaN, infinite, fractional or beyond 2^53 - 1
    | Foreign(callee: string)               // the result depends on a `Math` routine that is not modelled

  datatype Result<+T> = Ok(value: T) | Err(error: Error)

  /**
   * Collects the values of a sequence of results, stopping at the first
   * failure, as a JavaScript `map` whose callback throws does.
   */
  function AllOk<T>(rs: seq<Result<T>>): (r: Result<seq<T>>)
    ensures r.Ok? <==> forall i :: 0 <= i < |rs| ==> rs[i].Ok?
    ensures r.Ok? ==> |r.value| == |rs| && forall i :: 0 <= i < |rs| ==> rs[i] == Ok(r.value[i])
    ensures r.Err? ==> exists i :: 0 <= i < |rs| && rs[i] == Err(r.error) && forall j :: 0 <= j < i ==> rs[j].Ok?
  {
    if rs == [] then Ok([])
    else
      match rs[0]
      case Err(e) => Err(e)
      case Ok(v) =>
        match AllOk(rs[1..])
        case Err(e) =>
          ghost var i :| 0 <= i < |rs[1..]| && rs[1..][i] == Err(e) && forall j :: 0 <= j < i ==> rs[1..][j].Ok?;
          assert rs[i + 1] == Err(e);
          Err(e)
        case Ok(vs) => Ok([v] + vs)
  }

  /** The first failure among `rs`, when the loop that produced `rs` stopped at index `i`. */
  lemma AllOkFirstError<T>(rs: seq<Result<T>>, i: nat)
    requires i < |rs| && rs[i].Err?
    requires forall j :: 0 <= j < i ==> rs[j].Ok?
    ensures AllOk(rs) == Err(rs[i].error)
  {
    var r := AllOk(rs);
    var k :| 0 <= k < |rs| && rs[k] == Err(r.error) && forall j :: 0 <= j < k ==> rs[j].Ok?;
    assert k == i;
  }
}
