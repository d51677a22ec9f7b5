/** Values shared by the route handlers and the client components. */
module Common {

  /** An optional value: a request field that may be absent, a lookup that may fail. */
  datatype Option<+T> = None | Some(value: T)

  /**
   * What a route handler answers: a 200 response carrying `data`, or a
   * failure with an HTTP status and the `error` message of the JSON envelope.
   */
  datatype Reply<+T> = Ok(data: T) | Fail(status: int, error: string)
  {
    function Status(): int {
      if Ok? then 200 else status
    }
  }

  /** The weekly quota both listing endpoints report. */
  const TargetHours: int := 40
}
