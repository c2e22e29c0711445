/** Types and small functions shared by the modules of the model. */
module Prelude {

  datatype Option<+T> = None | Some(value: T)

  // A request either goes through or is refused with a status code.
  datatype Response<+T> = Ok(value: T) | Refused(code: nat)

  const FORBIDDEN: nat := 403
  const NOT_FOUND: nat := 404
  const CONFLICT: nat := 409
  const UNPROCESSABLE: nat := 422
  const INTERNAL_ERROR: nat := 500

  function Min(a: int, b: int): int {
    if a < b then a else b
  }
}
