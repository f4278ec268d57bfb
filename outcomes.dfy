/** The ways the derive macro can finish: with a value, with an `anyhow` error
    (`bail!`), or with a panic (`expect`). */
module Outcomes {

  datatype Option<+T> = None | Some(value: T)

  /** The errors the macro bails with. */
  datatype Error =
    | NotMetaList                     // an attribute that is not a parenthesised list
    | DuplicateKind                   // a second `const`/`mut` term in one field
    | UnexpectedTerm(ident: Option<string>) // a term that is neither `const` nor `mut`, by its `get_ident`
    | DuplicateValue                  // a second literal in one field
    | GenericParams                   // the deriving type has generic parameters
    | NotStruct                       // the deriving type is an enum or a union

  /** The messages the macro panics with. */
  datatype PanicReason =
    | MissingKind                     // no `const`/`mut` term in a field
    | MissingValue                    // no literal in a field
    | InvalidIdent                    // a generated name that `Ident::new` refuses

  /** `Result<T>` of the source, extended with the panic outcome. It is
      failure-compatible, so `:-` plays the part of Rust's `?`. */
  datatype Outcome<+T> = Ok(value: T) | Bail(error: Error) | Panicked(reason: PanicReason) {

    predicate IsFailure() {
      !Ok?
    }

    function PropagateFailure<U>(): (r: Outcome<U>)
      requires !Ok?
      ensures !r.Ok?
    {
      match this
      case Bail(e) => Bail(e)
      case Panicked(p) => Panicked(p)
    }

    function Extract(): T
      requires Ok?
    {
      value
    }
  }
}
