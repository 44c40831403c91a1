/** Values every controller shares: optional request fields, the JSON reply
    a handler sends with its HTTP status, and JavaScript's notion of a
    "falsy" request field. */
module Common {

  datatype Option<+T> = None | Some(value: T)

  /** Money is kept in integer cents throughout the model. */
  type Cents = int

  /** What an Express handler sends back: a JSON body with status 200
      (`res.json`) or 201 (`res.status(201).json`), or an error object
      `{ error: message }` with a 4xx or 5xx status. The webhook's
      signature failure is the one `Fail` sent as plain text instead. */
  datatype Reply<+T> = Ok(body: T) | Created(body: T) | Fail(status: nat, error: string)

  /** A text field is truthy in JavaScript when it is present (neither
      undefined nor null) and not the empty string. */
  predicate TextGiven(s: Option<string>)
  {
    s.Some? && s.value != ""
  }

  /** A numeric field is truthy when it is present and not zero. */
  predicate NumberGiven(n: Option<int>)
  {
    n.Some? && n.value != 0
  }

  /** SQL `COALESCE(new, old)`: a NULL (or absent) parameter keeps the column. */
  function Coalesce<T>(given: Option<T>, current: T): (r: T)
    ensures given.Some? ==> r == given.value
    ensures given.None? ==> r == current
  {
    match given
    case Some(v) => v
    case None => current
  }
}
