/** Failure values of the model: the Java exceptions the core can throw, and
    the Option/Result wrappers that carry them. */
module Results {

  /** The exceptions thrown by the split parser and the Money constructors it calls. */
  datatype Error =
    | IndexOutOfBounds(index: int)   // ArrayIndexOutOfBoundsException on the token array
    | NumberFormat(text: string)     // NumberFormatException from Integer.parseInt / new BigDecimal
    | UnknownCurrency(code: string)  // IllegalArgumentException from Currency.getInstance
    | UnknownSplitType(name: string) // IllegalArgumentException from TransactionType.valueOf
    | DivisionByZero                 // ArithmeticException from a zero denominator
    | NullQuantity                   // NullPointerException when the quantity was never set

  datatype Option<+T> = None | Some(value: T)

  datatype Result<+T> = Ok(value: T) | Err(error: Error) {
    predicate IsFailure() {
      Err?
    }

    function PropagateFailure<U>(): Result<U>
      requires Err?
    {
      Err(error)
    }

    function Extract(): T
      requires Ok?
    {
      value
    }
  }
}
