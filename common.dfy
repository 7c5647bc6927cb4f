/** Values shared by every route handler: optional request fields and the
    response a handler returns (an HTTP status with a payload or an error). */
module Common {

  datatype Option<+T> = None | Some(value: T)

  /** The value a route handler hands back to the framework.  `NoResponse`
      is what a handler produces when control falls off its end without a
      `return`. */
  datatype Response<+T, +E> =
    | Ok(status: nat, value: T)
    | Err(status: nat, error: E)
    | NoResponse

  /** JavaScript truthiness of an optional string field: absent, null and
      the empty string are all falsy. */
  predicate Present(s: Option<string>)
  {
    s.Some? && |s.value| > 0
  }

  /** The HTTP request methods the handlers dispatch on. */
  datatype HttpMethod = GET | POST | PUT | PATCH | DELETE
}
