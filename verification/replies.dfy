/** Shapes shared by every screen: optional values (the source's `null` /
    `undefined`) and the reply of a backend query, which either carries rows
    or an error with a message. */
module Replies {

  datatype Option<+T> = None | Some(value: T)

  /** The `{ data, error }` pair a backend query resolves to. */
  datatype Reply<+T> = Ok(rows: T) | Failed(message: string)

  /** `error.message || fallback`: an empty message falls back to the screen's
      default text. */
  function ErrorText(message: string, fallback: string): (r: string)
    ensures message != "" ==> r == message
    ensures message == "" ==> r == fallback
    ensures fallback != "" ==> r != ""
  {
    if message != "" then message else fallback
  }

  /** `x || ""` for an optional string. */
  function OrEmpty(s: Option<string>): string
  {
    if s.Some? then s.value else ""
  }
}
