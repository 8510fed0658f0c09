/**
 * Shared vocabulary of the model: optional values (JavaScript `undefined`/`null`),
 * results that carry an error message instead of a thrown exception, JavaScript
 * truthiness of optional strings, and the row-count rule of the hosted store's
 * `.single()` query modifier.
 */
module Store {

  /** A value that may be absent: `None` stands for `undefined` or `null`. */
  datatype Option<+T> = None | Some(value: T)

  /** The `{ data, error }` shape: either a value or an error message. */
  datatype Result<+T> = Ok(value: T) | Err(error: string)

  /**
   * The message of an error the hosted store reports; it is never empty, so a
   * caller's `if (error)` takes the failure branch for every reported error.
   */
  type StoreMessage = m: string | m != "" witness "error"

  /** JavaScript truthiness of an optional string: present and not empty. */
  predicate Truthy(s: Option<string>)
  {
    s.Some? && s.value != ""
  }

  /** The expression `s || fallback` for an optional string. */
  function OrElse(s: Option<string>, fallback: string): string
  {
    if Truthy(s) then s.value else fallback
  }

  /** The expression `a || b` for two optional strings. */
  function OrOption(a: Option<string>, b: Option<string>): Option<string>
  {
    if Truthy(a) then a else b
  }

  /**
   * The message the hosted store attaches to error code PGRST116, which `.single()`
   * reports whenever a query yields zero rows or more than one row.
   */
  const NoSingleRow: string := "JSON object requested, multiple (or no) rows returned"

  /** `.single()`: the one row when there is exactly one, otherwise "not found". */
  function Single<T>(rows: seq<T>): (r: Option<T>)
    ensures r.Some? <==> |rows| == 1
    ensures r.Some? ==> r.value in rows
  {
    if |rows| == 1 then Some(rows[0]) else None
  }
}
