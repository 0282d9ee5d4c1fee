/** The Python values, exceptions and call outcomes that the handlers pass around. */
module PyValues {

  /** A calendar date as the graph driver returns it (a neo4j.time.Date). */
  datatype Date = Date(year: int, month: int, day: int)

  /** The Python values that appear in query results, pipeline outcomes and tool inputs.
      Dictionaries are keyed by strings, as every dictionary of the handlers is. */
  datatype Py =
    | PyNone
    | PyBool(b: bool)
    | PyInt(i: int)
    | PyStr(s: string)
    | PyList(items: seq<Py>)
    | PyDict(entries: map<string, Py>)
    | PyDate(date: Date)

  /** A query-result record: one dictionary per row returned by the driver. */
  type Record = map<string, Py>

  /** Python's truth value `bool(v)`; a date object is always true. */
  predicate Truthy(v: Py)
  {
    match v
    case PyNone => false
    case PyBool(b) => b
    case PyInt(i) => i != 0
    case PyStr(s) => s != ""
    case PyList(xs) => |xs| > 0
    case PyDict(m) => |m| > 0
    case PyDate(_) => true
  }

  /** A raised exception, by its class and its message `str(e)`. */
  datatype Raised =
    | ValueError(message: string)
    | OpenAIError(message: string)
    | IndexError(message: string)
    | OtherError(message: string)

  /** The outcome of a Python call: the value it returned or the exception it raised. */
  datatype Outcome<+T> = Ok(value: T) | Raise(error: Raised)
  {
    predicate IsFailure() { Raise? }

    function PropagateFailure<U>(): Outcome<U>
      requires Raise?
    {
      Raise(error)
    }

    function Extract(): T
      requires Ok?
    {
      value
    }
  }

  /** An optional value, for parameters that default to `None`. */
  datatype Option<+T> = None | Some(value: T)

  /** The message Python's `list.__getitem__` raises for an index past the end. */
  const ListIndexOutOfRange: string := "list index out of range"
}
