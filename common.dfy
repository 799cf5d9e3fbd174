/** Values shared by every action module: optional form fields and action outcomes. */
module Common {

  /** A value that may be absent (`null` in the application's records and forms). */
  datatype Option<+T> = None | Some(value: T)

  /** Row identifiers as the store hands them out (UUID text). */
  type Id = string

  /** Instants as milliseconds since the epoch. */
  type Millis = int

  /** JavaScript truthiness of a `string | null` form field: present and not the empty string. */
  predicate Present(field: Option<string>) {
    field.Some? && field.value != ""
  }

  /** The value of `field || fallback` for a `string | null` field. */
  function OrElse(field: Option<string>, fallback: string): string {
    if Present(field) then field.value else fallback
  }

  /**
   * What a server action hands back: a `{ success, message }` result, or a
   * navigation to another page (the framework's `redirect`, which ends the action).
   */
  datatype Outcome =
    | Failure(message: string)
    | Success(message: string)
    | Redirect(path: string)
}
