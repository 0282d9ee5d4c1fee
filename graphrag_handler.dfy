/** The GraphRAG pipeline: four stages run in a fixed order (generate a Cypher query,
    validate it, execute it, write the answer), each on the dictionary the previous one
    built, with any exception turned into an error outcome. The pipeline is a state
    machine over `Stage` that calls four handlers, the manager methods it was built
    from; every call is recorded in a trace. `Managers` builds those handlers from the
    LLM and graph managers over the chat model's and the database's replies. The class
    at the end is the singleton that captures the schema once. */
module GraphRag {
  import opened PyValues
  import opened PyText
  import LlmManager
  import GraphManager

  /** The manager methods the pipeline calls: `generate_cypher_query(question, schema)`,
      `validate_cypher_query(query, schema)`, `execute_query(query)` and
      `generate_response(question, result)`, each returning its value or raising. */
  datatype Handlers = Handlers(
    generate: (string, Py) -> Outcome<string>,
    validate: (string, Py) -> Outcome<string>,
    execute: string -> Outcome<seq<Record>>,
    respond: (string, Py) -> Outcome<string>)

  /** What the managers ask of the outside world: the chat model's reply to the generation
      prompt for (question, schema), to the validation prompt for (query, schema) and to
      the response prompt for (question, result slot); the driver's rows for a query; and
      the date formatter. */
  datatype Collaborators = Collaborators(
    generator: (string, Py) -> Outcome<string>,
    validator: (string, Py) -> Outcome<string>,
    database: string -> Outcome<seq<Record>>,
    responder: (string, Py) -> Outcome<string>,
    isoFormat: Date -> string)

  /** The handlers of a `HealthcareGraphRAG` object: its LLM manager's and graph manager's
      methods over the collaborators' replies. */
  function Managers(c: Collaborators): (h: Handlers)
    ensures forall question, schema ::
      h.generate(question, schema) == LlmManager.GenerateCypherQuery(c.generator(question, schema))
    ensures forall query, schema ::
      h.validate(query, schema) == LlmManager.ValidateCypherQuery(query, c.validator(query, schema))
    ensures forall query :: h.execute(query) == GraphManager.ExecuteQuery(c.database(query), c.isoFormat)
    ensures forall question, result ::
      h.respond(question, result) == LlmManager.GenerateResponse(c.responder(question, LlmManager.PromptSlot(result)))
  {
    Handlers(
      (question, schema) => LlmManager.GenerateCypherQuery(c.generator(question, schema)),
      (query, schema) => LlmManager.ValidateCypherQuery(query, c.validator(query, schema)),
      query => GraphManager.ExecuteQuery(c.database(query), c.isoFormat),
      (question, result) => LlmManager.GenerateResponse(c.responder(question, LlmManager.PromptSlot(result))))
  }

  /** A call to a handler, with the arguments it received. */
  datatype Call =
    | GenerateCall(question: string, schema: Py)
    | ValidateCall(query: string, schema: Py)
    | ExecuteCall(query: string)
    | RespondCall(question: string, result: Py)

  /** The pipeline's state: the dictionary between two stages, the final one, or the
      exception that ended the run. */
  datatype Stage =
    | Start(question: string, schema: Py)
    | Generated(question: string, schema: Py, query: string)
    | Validated(question: string, schema: Py, query: string)
    | Executed(question: string, schema: Py, query: string, rows: seq<Record>)
    | Done(query: string, rows: seq<Record>, response: string)
    | Failed(error: Raised)

  /** How many stages have run; a failure ends the run. */
  function Rank(s: Stage): nat
  {
    match s
    case Start(_, _) => 0
    case Generated(_, _, _) => 1
    case Validated(_, _, _) => 2
    case Executed(_, _, _, _) => 3
    case Done(_, _, _) => 4
    case Failed(_) => 4
  }

  /** The stage a call belongs to, counting from 0. */
  function CallRank(call: Call): nat
  {
    match call
    case GenerateCall(_, _) => 0
    case ValidateCall(_, _) => 1
    case ExecuteCall(_) => 2
    case RespondCall(_, _) => 3
  }

  /** The handler call the next stage makes from state `s`; none once the run is over.
      The response stage passes the rows as the list `x["result"]` is. */
  function NextCall(s: Stage): seq<Call>
  {
    match s
    case Start(question, schema) => [GenerateCall(question, schema)]
    case Generated(_, schema, query) => [ValidateCall(query, schema)]
    case Validated(_, _, query) => [ExecuteCall(query)]
    case Executed(question, _, _, rows) => [RespondCall(question, LlmManager.RowsValue(rows))]
    case Done(_, _, _) => []
    case Failed(_) => []
  }

  /** Whether a handler raised on a call, and with which exception. */
  function CallResult(call: Call, h: Handlers): Outcome<()>
  {
    match call
    case GenerateCall(question, schema) => Discard(h.generate(question, schema))
    case ValidateCall(query, schema) => Discard(h.validate(query, schema))
    case ExecuteCall(query) => Discard(h.execute(query))
    case RespondCall(question, result) => Discard(h.respond(question, result))
  }

  function Discard<T>(o: Outcome<T>): Outcome<()>
  {
    if o.Ok? then Ok(()) else Raise(o.error)
  }

  /** One stage of the pipeline. Each stage reads the previous dictionary and builds a new
      one; `question` and `schema` are carried to the response stage and then dropped. */
  function Step(s: Stage, h: Handlers): (r: Stage)
    ensures Rank(r) == 4 || Rank(r) == Rank(s) + 1
    ensures Rank(s) == 4 ==> r == s
  {
    match s
    case Start(question, schema) =>
      (match h.generate(question, schema)
       case Ok(query) => Generated(question, schema, query)
       case Raise(e) => Failed(e))
    case Generated(question, schema, query) =>
      (match h.validate(query, schema)
       case Ok(validated) => Validated(question, schema, validated)
       case Raise(e) => Failed(e))
    case Validated(question, schema, query) =>
      (match h.execute(query)
       case Ok(rows) => Executed(question, schema, query, rows)
       case Raise(e) => Failed(e))
    case Executed(question, schema, query, rows) =>
      (match h.respond(question, LlmManager.RowsValue(rows))
       case Ok(response) => Done(query, rows, response)
       case Raise(e) => Failed(e))
    case Done(_, _, _) => s
    case Failed(_) => s
  }

  /** The stages run one after another, each on the output of the previous one, until
      the response is written or a stage raises. */
  function Advance(s: Stage, h: Handlers): (r: Stage)
    ensures r.Done? || r.Failed?
    ensures s.Failed? ==> r == s
    decreases 4 - Rank(s)
  {
    if Rank(s) == 4 then s else Advance(Step(s, h), h)
  }

  /** Every handler call the remaining stages make, in the order they make them. */
  function TraceFrom(s: Stage, h: Handlers): seq<Call>
    decreases 4 - Rank(s)
  {
    if Rank(s) == 4 then [] else NextCall(s) + TraceFrom(Step(s, h), h)
  }

  /** The pipeline of `_create_pipeline`, from the question and the captured schema. */
  function Pipeline(question: string, schema: Py, h: Handlers): Stage
  {
    Advance(Start(question, schema), h)
  }

  function Trace(question: string, schema: Py, h: Handlers): seq<Call>
  {
    TraceFrom(Start(question, schema), h)
  }

  const ErrorPrefix: string := "Error: "

  /** `HealthcareGraphRAG.run`: the final dictionary of the pipeline, or
      `{"query": None, "response": "Error: <message>"}` for any exception. */
  function Run(question: string, schema: Py, h: Handlers): (r: Py)
    ensures r.PyDict? && "query" in r.entries && "response" in r.entries
    ensures r.entries["response"].PyStr?
    ensures Pipeline(question, schema, h).Done? ==> r.entries.Keys == {"query", "result", "response"}
    ensures Pipeline(question, schema, h).Failed? ==>
      r == PyDict(map["query" := PyNone,
                      "response" := PyStr(ErrorPrefix + Pipeline(question, schema, h).error.message)])
  {
    var s := Pipeline(question, schema, h);
    if s.Done? then
      PyDict(map["query" := PyStr(s.query), "result" := LlmManager.RowsValue(s.rows),
                 "response" := PyStr(s.response)])
    else
      PyDict(map["query" := PyNone, "response" := PyStr(ErrorPrefix + s.error.message)])
  }

  // ---------------------------------------------------------------- properties

  /** A stage that has not finished makes exactly one call, of its own stage; it fails
      exactly when the handler raises on that call, with that exception; and otherwise it
      carries the question and the schema forward. */
  lemma StepCall(s: Stage, h: Handlers)
    requires Rank(s) < 4
    ensures |NextCall(s)| == 1 && CallRank(NextCall(s)[0]) == Rank(s)
    ensures Step(s, h).Failed? <==> CallResult(NextCall(s)[0], h).Raise?
    ensures Step(s, h).Failed? ==> Step(s, h).error == CallResult(NextCall(s)[0], h).error
    ensures Rank(s) < 3 && !Step(s, h).Failed? ==>
      Step(s, h).question == s.question && Step(s, h).schema == s.schema
  {
  }

  /** Running from a stage that has not finished is running its next stage and then the rest. */
  lemma AdvanceStep(s: Stage, h: Handlers)
    requires Rank(s) < 4
    ensures Advance(s, h) == Advance(Step(s, h), h)
    ensures TraceFrom(s, h) == NextCall(s) + TraceFrom(Step(s, h), h)
  {
  }

  /** From any unfinished stage the remaining stages run in order, one call each; every
      call except the last one succeeded; the run fails exactly when the last call failed,
      and then reports that call's exception. */
  lemma {:induction false} RunFrom(s: Stage, h: Handlers)
    requires Rank(s) < 4
    ensures var t := TraceFrom(s, h);
      && 1 <= |t| <= 4 - Rank(s)
      && (forall i :: 0 <= i < |t| ==> CallRank(t[i]) == Rank(s) + i)
      && (forall i :: 0 <= i < |t| - 1 ==> CallResult(t[i], h).Ok?)
      && (Advance(s, h).Failed? <==> CallResult(t[|t| - 1], h).Raise?)
      && (Advance(s, h).Failed? ==> Advance(s, h).error == CallResult(t[|t| - 1], h).error)
    decreases 4 - Rank(s)
  {
    StepCall(s, h);
    AdvanceStep(s, h);
    var next := Step(s, h);
    var t := TraceFrom(s, h);
    if Rank(next) == 4 {
      assert t == NextCall(s);
    } else {
      RunFrom(next, h);
      var rest := TraceFrom(next, h);
      forall i | 0 <= i < |t| ensures CallRank(t[i]) == Rank(s) + i {
        if i > 0 {
          assert t[i] == rest[i - 1];
        }
      }
      forall i | 0 <= i < |t| - 1 ensures CallResult(t[i], h).Ok? {
        if i > 0 {
          assert t[i] == rest[i - 1];
        }
      }
      assert t[|t| - 1] == rest[|rest| - 1];
    }
  }

  /** The stages run in the order generate, validate, execute, respond; every call the run
      makes, except the last one, succeeded; the run fails exactly when the last call
      failed, and then reports that call's exception. So a failing stage prevents every
      later stage. */
  lemma StagesInOrder(question: string, schema: Py, h: Handlers)
    ensures var t := Trace(question, schema, h);
      && 1 <= |t| <= 4
      && (forall i :: 0 <= i < |t| ==> CallRank(t[i]) == i)
      && (forall i :: 0 <= i < |t| - 1 ==> CallResult(t[i], h).Ok?)
      && (Pipeline(question, schema, h).Failed? <==> CallResult(t[|t| - 1], h).Raise?)
      && (Pipeline(question, schema, h).Failed? ==>
            Run(question, schema, h).entries["response"]
              == PyStr(ErrorPrefix + CallResult(t[|t| - 1], h).error.message))
  {
    RunFrom(Start(question, schema), h);
  }

  /** From an unfinished stage, the calls that take a schema get the stage's schema, and the
      calls that take the question get the stage's question. */
  lemma {:induction false} CarriedFrom(s: Stage, h: Handlers)
    requires Rank(s) < 4
    ensures forall call :: call in TraceFrom(s, h) && (call.GenerateCall? || call.ValidateCall?) ==>
      call.schema == s.schema
    ensures forall call :: call in TraceFrom(s, h) && (call.GenerateCall? || call.RespondCall?) ==>
      call.question == s.question
    decreases 4 - Rank(s)
  {
    StepCall(s, h);
    AdvanceStep(s, h);
    var next := Step(s, h);
    if Rank(next) < 4 {
      CarriedFrom(next, h);
    }
  }

  /** The schema-taking stages get the schema captured at construction, and the generation
      and response stages get the original question. */
  lemma StagesShareSchemaAndQuestion(question: string, schema: Py, h: Handlers)
    ensures forall call :: call in Trace(question, schema, h) && (call.GenerateCall? || call.ValidateCall?) ==>
      call.schema == schema
    ensures forall call :: call in Trace(question, schema, h) && (call.GenerateCall? || call.RespondCall?) ==>
      call.question == question
  {
    CarriedFrom(Start(question, schema), h);
  }

  /** In a run that ends with a response, no stage fails. */
  lemma DoneStep(s: Stage, h: Handlers)
    requires Rank(s) < 4 && Advance(s, h).Done?
    ensures Rank(Step(s, h)) == Rank(s) + 1
    ensures Advance(Step(s, h), h) == Advance(s, h)
  {
    AdvanceStep(s, h);
  }

  /** A successful run, with the value each handler returned: the query the generator
      returned is the one validated; the query the validator passed on is the one executed
      and returned; the response handler gets the original question and the rows; the run
      returns the query, the rows and the response. */
  lemma SuccessfulRun(question: string, schema: Py, h: Handlers)
    returns (query: string, validated: string, rows: seq<Record>, response: string)
    requires Pipeline(question, schema, h).Done?
    ensures h.generate(question, schema) == Ok(query)
    ensures h.validate(query, schema) == Ok(validated)
    ensures h.execute(validated) == Ok(rows)
    ensures h.respond(question, LlmManager.RowsValue(rows)) == Ok(response)
    ensures Trace(question, schema, h) == [GenerateCall(question, schema), ValidateCall(query, schema),
      ExecuteCall(validated), RespondCall(question, LlmManager.RowsValue(rows))]
    ensures Run(question, schema, h) == PyDict(map[
      "query" := PyStr(validated),
      "result" := LlmManager.RowsValue(rows),
      "response" := PyStr(response)])
  {
    var s0 := Start(question, schema);
    DoneStep(s0, h);
    AdvanceStep(s0, h);
    var s1 := Step(s0, h);
    DoneStep(s1, h);
    AdvanceStep(s1, h);
    var s2 := Step(s1, h);
    DoneStep(s2, h);
    AdvanceStep(s2, h);
    var s3 := Step(s2, h);
    DoneStep(s3, h);
    AdvanceStep(s3, h);
    var s4 := Step(s3, h);
    query, validated, rows, response := s1.query, s2.query, s3.rows, s4.response;
  }

  // ---------------------------------------------------------------- over the managers

  /** With the real managers: the validator hands back the query it was given, so the
      query executed and returned is the cleaned generated query; the rows are the
      normalised driver rows; and the response is the stripped reply to the response
      prompt, whose result slot is `"[]"` for no rows. */
  lemma SuccessfulManagedRun(question: string, schema: Py, c: Collaborators)
    requires Pipeline(question, schema, Managers(c)).Done?
    ensures c.generator(question, schema).Ok?
    ensures var query := LlmManager.CleanQuery(c.generator(question, schema).value);
      && c.database(query).Ok?
      && c.responder(question, LlmManager.ResultForPrompt(
           GraphManager.NormalizeRecords(c.database(query).value, c.isoFormat))).Ok?
    ensures var query := LlmManager.CleanQuery(c.generator(question, schema).value);
      var rows := GraphManager.NormalizeRecords(c.database(query).value, c.isoFormat);
      var result := LlmManager.ResultForPrompt(rows);
      && Trace(question, schema, Managers(c)) == [GenerateCall(question, schema), ValidateCall(query, schema),
                                                 ExecuteCall(query), RespondCall(question, LlmManager.RowsValue(rows))]
      && Run(question, schema, Managers(c)) == PyDict(map[
           "query" := PyStr(query),
           "result" := LlmManager.RowsValue(rows),
           "response" := PyStr(Strip(c.responder(question, result).value))])
  {
    var h := Managers(c);
    var query, validated, rows, response := SuccessfulRun(question, schema, h);
    assert LlmManager.GenerateCypherQuery(c.generator(question, schema)) == Ok(query);
    assert query == LlmManager.CleanQuery(c.generator(question, schema).value);
    assert LlmManager.ValidateCypherQuery(query, c.validator(query, schema)) == Ok(validated);
    assert validated == query;
    assert GraphManager.ExecuteQuery(c.database(query), c.isoFormat) == Ok(rows);
    assert rows == GraphManager.NormalizeRecords(c.database(query).value, c.isoFormat);
    var result := LlmManager.ResultForPrompt(rows);
    assert LlmManager.PromptSlot(LlmManager.RowsValue(rows)) == result;
    assert LlmManager.GenerateResponse(c.responder(question, result)) == Ok(response);
    assert response == Strip(c.responder(question, result).value);
  }

  /** A generation failure is reported with the stage's prefix, and nothing else is called. */
  lemma GenerationFailureStops(question: string, schema: Py, c: Collaborators, m: string)
    requires c.generator(question, schema) == Raise(OpenAIError(m))
    ensures Trace(question, schema, Managers(c)) == [GenerateCall(question, schema)]
    ensures Run(question, schema, Managers(c))
         == PyDict(map["query" := PyNone, "response" := PyStr(ErrorPrefix + (LlmManager.GenerationFailedPrefix + m))])
  {
    var h := Managers(c);
    var s0 := Start(question, schema);
    AdvanceStep(s0, h);
    assert Step(s0, h) == Failed(ValueError(LlmManager.GenerationFailedPrefix + m));
  }

  /** When the validation handler raises, the run stops there and reports that exception. */
  lemma ValidationRaises(question: string, schema: Py, h: Handlers, query: string, e: Raised)
    requires h.generate(question, schema) == Ok(query)
    requires h.validate(query, schema) == Raise(e)
    ensures Trace(question, schema, h) == [GenerateCall(question, schema), ValidateCall(query, schema)]
    ensures Run(question, schema, h) == PyDict(map["query" := PyNone, "response" := PyStr(ErrorPrefix + e.message)])
  {
    var s0 := Start(question, schema);
    AdvanceStep(s0, h);
    var s1 := Step(s0, h);
    AdvanceStep(s1, h);
  }

  /** A rejected query is reported with the verdict, and is neither executed nor answered. */
  lemma RejectedQueryStops(question: string, schema: Py, c: Collaborators)
    requires c.generator(question, schema).Ok?
    requires var q := LlmManager.CleanQuery(c.generator(question, schema).value);
      c.validator(q, schema).Ok? && !StartsWith(Strip(c.validator(q, schema).value), "VALID")
    ensures var q := LlmManager.CleanQuery(c.generator(question, schema).value);
      && Trace(question, schema, Managers(c)) == [GenerateCall(question, schema), ValidateCall(q, schema)]
      && Run(question, schema, Managers(c)) == PyDict(map["query" := PyNone,
           "response" := PyStr(ErrorPrefix + (LlmManager.InvalidQueryPrefix + Strip(c.validator(q, schema).value)))])
  {
    var h := Managers(c);
    var q := LlmManager.CleanQuery(c.generator(question, schema).value);
    var verdict := Strip(c.validator(q, schema).value);
    assert h.generate(question, schema) == Ok(q);
    assert h.validate(q, schema) == Raise(ValueError(LlmManager.InvalidQueryPrefix + verdict));
    ValidationRaises(question, schema, h, q, ValueError(LlmManager.InvalidQueryPrefix + verdict));
  }

  /** A driver failure on an accepted query is reported with the driver's message, and no
      answer is generated. */
  lemma ExecutionFailureStops(question: string, schema: Py, c: Collaborators, m: string)
    requires c.generator(question, schema).Ok?
    requires var q := LlmManager.CleanQuery(c.generator(question, schema).value);
      && c.validator(q, schema).Ok? && StartsWith(Strip(c.validator(q, schema).value), "VALID")
      && c.database(q) == Raise(OtherError(m))
    ensures var q := LlmManager.CleanQuery(c.generator(question, schema).value);
      Trace(question, schema, Managers(c)) == [GenerateCall(question, schema), ValidateCall(q, schema), ExecuteCall(q)]
    ensures Run(question, schema, Managers(c))
         == PyDict(map["query" := PyNone, "response" := PyStr(ErrorPrefix + (GraphManager.ExecutionFailedPrefix + m))])
  {
    var h := Managers(c);
    var q := LlmManager.CleanQuery(c.generator(question, schema).value);
    assert h.generate(question, schema) == Ok(q);
    assert h.validate(q, schema) == Ok(q);
    assert h.execute(q) == Raise(ValueError(GraphManager.ExecutionFailedPrefix + m));
    ExecutionRaises(question, schema, h, q, q, ValueError(GraphManager.ExecutionFailedPrefix + m));
  }

  /** When the execution handler raises on the validated query, the run stops there and
      reports that exception. */
  lemma ExecutionRaises(question: string, schema: Py, h: Handlers, query: string, validated: string, e: Raised)
    requires h.generate(question, schema) == Ok(query)
    requires h.validate(query, schema) == Ok(validated)
    requires h.execute(validated) == Raise(e)
    ensures Trace(question, schema, h) == [GenerateCall(question, schema), ValidateCall(query, schema), ExecuteCall(validated)]
    ensures Run(question, schema, h) == PyDict(map["query" := PyNone, "response" := PyStr(ErrorPrefix + e.message)])
  {
    var s0 := Start(question, schema);
    AdvanceStep(s0, h);
    var s1 := Step(s0, h);
    AdvanceStep(s1, h);
    var s2 := Step(s1, h);
    AdvanceStep(s2, h);
  }

  // ---------------------------------------------------------------- the singleton

  /** A `HealthcareGraphRAG` object: the fields the model needs are the flag that
      `__init__` has completed and the schema captured then. The managers and the
      pipeline object are represented by the collaborators passed to `Answer`. */
  class HealthcareGraphRAG {
    var initialized: bool
    var schema: Py

    /** `object.__new__`: a fresh instance with no fields set yet. */
    constructor ()
      ensures !initialized
    {
      initialized := false;
      schema := PyNone;
    }

    /** `__init__`: on the first successful call, connect (capturing the schema) and build
        the LLM manager; once initialised, do nothing. A failure leaves the instance
        uninitialised. A failing LangSmith client is only logged and is not modelled. */
    method Init(connection: Outcome<Py>, client: Outcome<()>) returns (r: Outcome<()>)
      modifies this
      ensures old(initialized) ==> r.Ok? && initialized && schema == old(schema)
      ensures !old(initialized) ==> (r.Ok? <==> connection.Ok? && client.Ok?)
      ensures !old(initialized) && connection.Raise? ==> r == Raise(ValueError(GraphManager.ConnectionFailedPrefix + connection.error.message))
      ensures !old(initialized) && connection.Ok? && client.Raise? ==> r == Raise(LlmManager.WrapClientError(LlmManager.ClientInitFailedPrefix, client.error))
      ensures initialized <==> r.Ok?
      ensures !old(initialized) && r.Ok? ==> schema == connection.value
      ensures r.Raise? ==> schema == old(schema)
    {
      if initialized {
        return Ok(());
      }
      var graph := GraphManager.Connect(connection);
      if graph.Raise? {
        return Raise(graph.error);
      }
      var llm := LlmManager.NewLlmManager("gpt-4o-mini", client);
      if llm.Raise? {
        return Raise(llm.error);
      }
      schema := GraphManager.GetSchema(graph.value);
      initialized := true;
      r := Ok(());
    }

    /** `run` on this instance: the pipeline over the schema captured at construction. */
    function Answer(question: string, c: Collaborators): Py
      reads this
    {
      Run(question, schema, Managers(c))
    }
  }

  /** The class attribute `_instance`: `HealthcareGraphRAG()` returns the object stored
      here, creating it on the first call, and runs `__init__` on it each time. */
  class GraphRagSlot {
    var instance: HealthcareGraphRAG?

    constructor ()
      ensures instance == null
    {
      instance := null;
    }

    method Obtain(connection: Outcome<Py>, client: Outcome<()>) returns (r: Outcome<HealthcareGraphRAG>)
      modifies this, instance
      ensures instance != null
      ensures old(instance) != null ==> instance == old(instance)
      ensures old(instance) == null ==> fresh(instance)
      ensures r.Ok? ==> r.value == instance && instance.initialized
      ensures old(instance) != null && old(instance.initialized) ==>
        r == Ok(instance) && instance.schema == old(instance.schema)
      ensures (old(instance) == null || !old(instance.initialized)) ==>
        && (r.Ok? <==> connection.Ok? && client.Ok?)
        && (r.Ok? ==> instance.schema == connection.value)
        && (connection.Raise? ==>
              r == Raise(ValueError(GraphManager.ConnectionFailedPrefix + connection.error.message)))
        && (connection.Ok? && client.Raise? ==>
              r == Raise(LlmManager.WrapClientError(LlmManager.ClientInitFailedPrefix, client.error)))
      ensures r.Raise? ==> !instance.initialized
    {
      if instance == null {
        instance := new HealthcareGraphRAG();
      }
      var init := instance.Init(connection, client);
      if init.Ok? {
        r := Ok(instance);
      } else {
        r := Raise(init.error);
      }
    }
  }

  /** Constructing twice returns the same object, and the second construction neither
      reconnects nor replaces the schema the first one captured. */
  method ConstructTwice(c1: Outcome<Py>, k1: Outcome<()>, c2: Outcome<Py>, k2: Outcome<()>)
    returns (first: Outcome<HealthcareGraphRAG>, second: Outcome<HealthcareGraphRAG>)
    requires c1.Ok? && k1.Ok?
    ensures first.Ok? && second == first
    ensures second.value.schema == c1.value
  {
    var slot := new GraphRagSlot();
    first := slot.Obtain(c1, k1);
    second := slot.Obtain(c2, k2);
  }

  /** A construction whose connection fails leaves the stored object uninitialised, so the
      next construction initialises it and captures the schema of its own connection. */
  method RetryAfterFailure(c1: Outcome<Py>, k1: Outcome<()>, c2: Outcome<Py>, k2: Outcome<()>)
    returns (first: Outcome<HealthcareGraphRAG>, second: Outcome<HealthcareGraphRAG>)
    requires c1.Raise? && c2.Ok? && k2.Ok?
    ensures first == Raise(ValueError(GraphManager.ConnectionFailedPrefix + c1.error.message))
    ensures second.Ok? && second.value.initialized && second.value.schema == c2.value
  {
    var slot := new GraphRagSlot();
    first := slot.Obtain(c1, k1);
    second := slot.Obtain(c2, k2);
  }
}
