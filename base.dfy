/** Small value types shared by every handler of the model. */
module Wrappers {
  datatype Option<+T> = None | Some(value: T)

  datatype Result<+R, +E> = Ok(value: R) | Err(error: E)
}

/** A field read from a parsed JSON request body, as far as the handlers look at it:
    absent (`undefined`), a string, or some other JSON value that is truthy or falsy and
    whose `length` property is a number (an array's size) or is not (`None`). */
module Json {
  import opened Wrappers

  datatype Value = Missing | Str(s: string) | Other(truthy: bool, length: Option<int>)
  {
    /** JavaScript truthiness: `!x` is false exactly for these values. */
    predicate Truthy() {
      match this
      case Missing => false
      case Str(s) => s != ""
      case Other(t, _) => t
    }

    /** `x.length < n` on a value the truthiness guard let through: a string's length, an
        array's size; `undefined < n` is false. */
    predicate LengthBelow(n: int) {
      match this
      case Missing => false
      case Str(s) => |s| < n
      case Other(_, length) => length.Some? && length.value < n
    }

    /** The values that get past the guard `!x || typeof x !== 'string'`. */
    predicate IsNonEmptyString() {
      Str? && s != ""
    }
  }
}

/** HTTP replies of the route handlers: a status with either the success payload or an
    `{ error }` body. */
module Http {
  datatype Response<+T> = Reply(status: nat, payload: T) | Failure(status: nat, error: string)
  {
    function Status(): nat {
      match this
      case Reply(s, _) => s
      case Failure(s, _) => s
    }
  }

  const Success := 200
  const Created := 201
  const BadRequest := 400
  const Unauthorized := 401
  const NotFound := 404
  const Conflict := 409
  const ServerError := 500
}
