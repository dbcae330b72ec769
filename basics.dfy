/** Value types shared by every module: bytes, optional values, and the
    results and errors the controllers return. */
module Basics {

  /** A .NET `byte`. */
  newtype byte = b: int | 0 <= b < 256

  /** A C# nullable value (`T?`). */
  datatype Option<+T> = None | Some(value: T)

  /** Either a successful value or the error the API answers with. */
  datatype Result<+T, +E> = Ok(value: T) | Err(error: E)

  /** The failures the controllers produce. `ValidationFailed` is the
      automatic 400 of an `[ApiController]` whose request fails its
      data-annotation attributes; `StoreRejected` is a `SaveChangesAsync`
      that throws because a constraint of the database would be broken. */
  datatype ApiError =
    | ValidationFailed
    | BadRequest(message: string)
    | Unauthorized(message: string)
    | NotFound
    | StoreRejected
}
