/** Values shared by every part of the model: optional values, bytes, and the
    `{ status, message }` objects that the request code throws. */
module Common {

  /** An optional value: an absent header, an absent filename, a missing secret. */
  datatype Option<+T> = None | Some(value: T)

  /** One byte of a buffer. */
  type uint8 = x: int | 0 <= x < 256

  /** A thrown value as the catch-all sees it: `err?.status` and `err?.message`,
      each absent when the thrown object has no such field. */
  datatype Thrown = Thrown(status: Option<int>, message: Option<string>)

  /** The thrown objects the request code builds itself always carry both fields. */
  function Raise(status: int, message: string): Thrown {
    Thrown(Some(status), Some(message))
  }

  /** A collaborator call that either yields a value or throws. */
  datatype Result<+T> = Ok(value: T) | Err(error: Thrown)

  /** JavaScript truthiness of an optional string: absent and "" are falsy. */
  predicate Truthy(s: Option<string>) {
    s.Some? && s.value != ""
  }

  /** `s || fallback` on an optional string. */
  function OrDefault(s: Option<string>, fallback: string): string {
    if Truthy(s) then s.value else fallback
  }
}
