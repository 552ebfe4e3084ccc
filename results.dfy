/** Result and error types shared by every stage of the evaluator.
    The source reports failures by throwing std::runtime_error (or by
    undefined behaviour); the model returns them as values instead. */
module Results {

  datatype Option<+T> = None | Some(value: T)

  datatype Result<+T> = Ok(value: T) | Err(error: Error)

  /** Every way one evaluation can fail. */
  datatype Error =
    | TooManyClosing        // a ')' with no '(' open (isValidExpression)
    | NotAllClosed          // a '(' still open at the end (isValidExpression)
    | ConsecutiveOperators  // two operator tokens side by side (hasConsecutiveOperators)
    | DivisionByZero        // '/' with a zero divisor (applyOp)
    | ModuloByZero          // '%' whose truncated divisor is 0: undefined behaviour in C++
    | StackUnderflow        // stack.top() on an empty value stack (evaluatePostfix)
    | MissingOpenParen      // stack.pop() on an empty operator stack (infixToPostfix)
    | MalformedNumber       // std::stof finds no number in a numeric-looking token
    | IllFormed             // operands and operators do not alternate (the grammar check)
}
