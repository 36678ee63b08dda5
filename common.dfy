/** Small shared vocabulary: optional values, results with an error, the two
    Python exceptions the modelled code can raise, and integer helpers. */
module Common {

  datatype Option<T> = None | Some(value: T)

  datatype Result<T, E> = Ok(value: T) | Err(error: E)

  /** The exceptions the modelled Python code lets escape. */
  datatype PyError =
    | ZeroDivisionError   // `1 / number` or `pc_bp / last_price` with a zero divisor
    | AttributeError      // reading `self.position` before anything assigned it

  function Min(a: int, b: int): int { if a <= b then a else b }

  function Max(a: int, b: int): int { if a <= b then b else a }

  /** Python's `abs` on integers. */
  function Abs(x: int): nat { if x < 0 then -x else x }
}
