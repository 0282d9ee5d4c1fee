/** The graph manager: the schema fetched once when the connection is made, and the
    normalisation of the driver's query results. The driver is not modelled: the schema
    and the rows a query returns arrive as `Outcome`s, and the date formatter
    (`Date.iso_format()`) is a parameter. */
module GraphManager {
  import opened PyValues

  const ConnectionFailedPrefix: string := "Neo4j connection failed: "
  const ExecutionFailedPrefix: string := "Query execution failed: "

  /** A connected graph manager and the structured schema captured when it connected. */
  datatype GraphManager = GraphManager(schema: Py)

  /** `GraphManager.__init__`: connecting and reading the structured schema either gives a
      manager holding that schema, or fails with a ValueError naming the cause. */
  function Connect(connection: Outcome<Py>): (r: Outcome<GraphManager>)
    ensures r.Ok? <==> connection.Ok?
    ensures r.Ok? ==> GetSchema(r.value) == connection.value
    ensures connection.Raise? ==>
      r.error == ValueError(ConnectionFailedPrefix + connection.error.message)
  {
    match connection
    case Ok(schema) => Ok(GraphManager(schema))
    case Raise(e) => Raise(ValueError(ConnectionFailedPrefix + e.message))
  }

  /** `get_schema`: the schema captured at connection, never fetched again. */
  function GetSchema(g: GraphManager): Py
  {
    g.schema
  }

  /** One value of a result record: a date becomes its ISO-8601 text, anything else is kept. */
  function NormalizeValue(v: Py, isoFormat: Date -> string): (r: Py)
    ensures !r.PyDate?
    ensures v.PyDate? ==> r == PyStr(isoFormat(v.date))
    ensures !v.PyDate? ==> r == v
  {
    if v.PyDate? then PyStr(isoFormat(v.date)) else v
  }

  /** `{k: v.iso_format() if isinstance(v, Date) else v for k, v in record.items()}`. */
  function NormalizeRecord(rec: Record, isoFormat: Date -> string): (r: Record)
    ensures r.Keys == rec.Keys
    ensures forall k :: k in rec ==> r[k] == NormalizeValue(rec[k], isoFormat)
  {
    map k | k in rec :: NormalizeValue(rec[k], isoFormat)
  }

  /** No value of any record is a date object. */
  predicate NoDates(rows: seq<Record>)
  {
    forall i, k :: 0 <= i < |rows| && k in rows[i] ==> !rows[i][k].PyDate?
  }

  /** The record comprehension of `execute_query`: one normalised record per driver record. */
  function NormalizeRecords(rows: seq<Record>, isoFormat: Date -> string): (r: seq<Record>)
    ensures |r| == |rows|
    ensures forall i :: 0 <= i < |rows| ==> r[i] == NormalizeRecord(rows[i], isoFormat)
  {
    seq(|rows|, i requires 0 <= i < |rows| => NormalizeRecord(rows[i], isoFormat))
  }

  /** `execute_query`: the driver's rows, normalised, or a ValueError naming the driver's
      error (every exception is caught). */
  function ExecuteQuery(driver: Outcome<seq<Record>>, isoFormat: Date -> string): (r: Outcome<seq<Record>>)
    ensures r.Ok? <==> driver.Ok?
    ensures r.Ok? ==> r.value == NormalizeRecords(driver.value, isoFormat)
    ensures driver.Raise? ==> r.error == ValueError(ExecutionFailedPrefix + driver.error.message)
  {
    match driver
    case Ok(rows) => Ok(NormalizeRecords(rows, isoFormat))
    case Raise(e) => Raise(ValueError(ExecutionFailedPrefix + e.message))
  }

  /** Normalised rows keep their number, order and keys; dates become their ISO text,
      all other values are unchanged, and no date remains. */
  lemma NormalizedRows(rows: seq<Record>, isoFormat: Date -> string)
    ensures var out := NormalizeRecords(rows, isoFormat);
      && |out| == |rows|
      && NoDates(out)
      && (forall i :: 0 <= i < |rows| ==> out[i].Keys == rows[i].Keys)
      && (forall i, k :: 0 <= i < |rows| && k in rows[i] && rows[i][k].PyDate? ==>
            out[i][k] == PyStr(isoFormat(rows[i][k].date)))
      && (forall i, k :: 0 <= i < |rows| && k in rows[i] && !rows[i][k].PyDate? ==>
            out[i][k] == rows[i][k])
  {
  }

  /** Normalising rows that hold no date changes nothing; in particular normalising twice
      is normalising once. */
  lemma NormalizeWithoutDates(rows: seq<Record>, isoFormat: Date -> string)
    requires NoDates(rows)
    ensures NormalizeRecords(rows, isoFormat) == rows
  {
    var out := NormalizeRecords(rows, isoFormat);
    forall i | 0 <= i < |rows| ensures out[i] == rows[i] {
      assert out[i].Keys == rows[i].Keys;
      forall k | k in rows[i] ensures out[i][k] == rows[i][k] {
        assert !rows[i][k].PyDate?;
      }
    }
  }

  lemma NormalizeIdempotent(rows: seq<Record>, isoFormat: Date -> string)
    ensures NormalizeRecords(NormalizeRecords(rows, isoFormat), isoFormat)
         == NormalizeRecords(rows, isoFormat)
  {
    NormalizedRows(rows, isoFormat);
    NormalizeWithoutDates(NormalizeRecords(rows, isoFormat), isoFormat);
  }
}
