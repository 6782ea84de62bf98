/** Small value types shared by the CST and the lexer models. */
module Base {

  datatype Option<+T> = None | Some(value: T)

  /** The outcome of an analysis that the source aborts with `throw`. */
  datatype Result<+T> = Ok(value: T) | Failure(reason: string)

  /** A token instance as the parser runtime hands it over: the name of its
      token class (what `tokenName(getTokenConstructor(token))` yields) and
      the matched text. */
  datatype Token = Token(tokenType: string, image: string)

  /** The last element of a flag stack, reading `last([])` (undefined) as false. */
  function Last(flags: seq<bool>): bool
  {
    |flags| > 0 && flags[|flags| - 1]
  }
}
