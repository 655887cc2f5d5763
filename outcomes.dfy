/** Value wrappers shared by the whole model: the optional value and the
    two-way result of the server functions, and the pair of "what the
    caller receives" and "what the collection holds afterwards". */
module Outcomes {

  /** An optional value, as the server uses for a user's icon, a post's tag
      list and the answer of an exact tag search. */
  datatype Option<+T> = None | Some(value: T)

  /** A success value or an error value. Nested twice it gives the shape of
      the server functions: the outer layer separates a failure of the
      server (a database error) from the answer, the inner layer carries
      the answer of the account logic. */
  datatype Result<+T, +E> = Ok(value: T) | Err(error: E)

  /** What one server call hands back to its caller, together with the
      contents of the collection it may write once the call is over. */
  datatype Step<+R, +S> = Step(reply: R, state: S)
}
