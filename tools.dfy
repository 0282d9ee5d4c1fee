/** The RAG tool the agent calls: it runs the GraphRAG pipeline, remembers the query of
    the run in the last-query slot, and picks the text the agent sees among the pipeline's
    response, its query and a fallback string. */
module Tools {
  import opened PyValues
  import opened PyText
  import GraphRag

  const NoInformation: string := "No information found"
  const ErrorMarker: string := "Error"

  /** Python's `str(v)`: a string is itself, `None` and the booleans have their names; the
      text of every other value (its `repr`) is the parameter `repr`. */
  function Str(v: Py, repr: Py -> string): (r: string)
    ensures v.PyStr? ==> r == v.s
    ensures v.PyNone? ==> r == "None"
    ensures v.PyBool? ==> r == (if v.b then "True" else "False")
  {
    match v
    case PyStr(s) => s
    case PyNone => "None"
    case PyBool(b) => if b then "True" else "False"
    case _ => repr(v)
  }

  /** A response the tool forwards: its text mentions neither "No information found" nor
      "Error". */
  predicate Clean(text: string)
  {
    !Contains(text, NoInformation) && !Contains(text, ErrorMarker)
  }

  /** The text of a forwarded response: a list is its items' texts, one per line. */
  function Render(response: Py, repr: Py -> string): string
  {
    if response.PyList? then
      Join("\n", seq(|response.items|, i requires 0 <= i < |response.items| => Str(response.items[i], repr)))
    else Str(response, repr)
  }

  /** The response selection of `rag_tool` for the value the pipeline returned: a truthy,
      clean response is forwarded; otherwise a truthy query stands in for it; otherwise the
      response's text if it is truthy, and "No information found" for anything else,
      including a value that is not a dictionary with a "response" key. */
  function SelectResponse(result: Py, repr: Py -> string): (answer: string)
    ensures !(result.PyDict? && "response" in result.entries) ==> answer == NoInformation
    ensures result.PyDict? && "response" in result.entries ==>
      var response := result.entries["response"];
      && (Truthy(response) && Clean(Str(response, repr)) ==> answer == Render(response, repr))
      && ((!(Truthy(response) && Clean(Str(response, repr))) && "query" in result.entries
           && Truthy(result.entries["query"])) ==> answer == Str(result.entries["query"], repr))
      && ((!(Truthy(response) && Clean(Str(response, repr)))
           && !("query" in result.entries && Truthy(result.entries["query"]))) ==>
            answer == (if Truthy(response) then Str(response, repr) else NoInformation))
  {
    if result.PyDict? && "response" in result.entries then
      var response := result.entries["response"];
      if Truthy(response) && Clean(Str(response, repr)) then
        Render(response, repr)
      else if "query" in result.entries && Truthy(result.entries["query"]) then
        Str(result.entries["query"], repr)
      else if Truthy(response) then
        Str(response, repr)
      else
        NoInformation
    else
      NoInformation
  }

  /** The module global `LAST_QUERY`, with `set_last_query` and `get_last_query`. */
  class LastQuery {
    var query: Py

    /** Before any run the slot holds `None`. */
    constructor ()
      ensures query == PyNone
    {
      query := PyNone;
    }

    method Set(q: Py)
      modifies this
      ensures query == q
    {
      query := q;
    }

    method Get() returns (q: Py)
      ensures q == query
    {
      q := query;
    }
  }

  /** `rag_tool(question)`, given what `graphrag_instance.run(question)` returned or raised:
      the slot takes the result's "query" entry whenever there is one, even `None`; the
      answer is the selected response, or "Error: <message>" when an exception escaped. */
  method RagTool(slot: LastQuery, run: Outcome<Py>, repr: Py -> string) returns (answer: string)
    modifies slot
    ensures run.Ok? ==> answer == SelectResponse(run.value, repr)
    ensures run.Raise? ==> answer == GraphRag.ErrorPrefix + run.error.message
    ensures run.Ok? && run.value.PyDict? && "query" in run.value.entries ==>
      slot.query == run.value.entries["query"]
    ensures !(run.Ok? && run.value.PyDict? && "query" in run.value.entries) ==>
      slot.query == old(slot.query)
  {
    if run.Raise? {
      return GraphRag.ErrorPrefix + run.error.message;
    }
    var result := run.value;
    if result.PyDict? && "query" in result.entries {
      slot.Set(result.entries["query"]);
    }
    answer := SelectResponse(result, repr);
  }

  // ---------------------------------------------------------------- over the pipeline

  /** A string that begins with "Error" mentions "Error". */
  lemma ErrorTextIsNotClean(m: string)
    ensures !Clean(GraphRag.ErrorPrefix + m)
  {
    var s := GraphRag.ErrorPrefix + m;
    assert s[0..5] == ErrorMarker;
    assert OccursAt(s, ErrorMarker, 0);
  }

  /** After a failed pipeline run the tool answers with the pipeline's error text: the
      response is not clean and the query is `None`, so the response itself is returned. */
  lemma AnswerAfterFailedRun(question: string, schema: Py, h: GraphRag.Handlers, repr: Py -> string)
    requires GraphRag.Pipeline(question, schema, h).Failed?
    ensures SelectResponse(GraphRag.Run(question, schema, h), repr)
         == GraphRag.ErrorPrefix + GraphRag.Pipeline(question, schema, h).error.message
  {
    ErrorTextIsNotClean(GraphRag.Pipeline(question, schema, h).error.message);
  }

  /** After a successful pipeline run the tool answers with the response when it is
      non-empty and clean, and otherwise with the query the run returned, falling back to
      the response and then to "No information found" when that query is empty. */
  lemma AnswerAfterSuccessfulRun(question: string, schema: Py, h: GraphRag.Handlers, repr: Py -> string)
    returns (query: string, response: string)
    requires GraphRag.Pipeline(question, schema, h).Done?
    ensures GraphRag.Run(question, schema, h).entries["query"] == PyStr(query)
    ensures GraphRag.Run(question, schema, h).entries["response"] == PyStr(response)
    ensures var answer := SelectResponse(GraphRag.Run(question, schema, h), repr);
      && (response != "" && Clean(response) ==> answer == response)
      && (!(response != "" && Clean(response)) && query != "" ==> answer == query)
      && (!(response != "" && Clean(response)) && query == "" ==>
            answer == (if response != "" then response else NoInformation))
  {
    var s := GraphRag.Pipeline(question, schema, h);
    query, response := s.query, s.response;
  }

  /** With a pipeline result, the tool never answers with the empty string. */
  lemma AnswerNeverEmpty(question: string, schema: Py, h: GraphRag.Handlers, repr: Py -> string)
    ensures SelectResponse(GraphRag.Run(question, schema, h), repr) != ""
  {
    if GraphRag.Pipeline(question, schema, h).Failed? {
      AnswerAfterFailedRun(question, schema, h, repr);
    } else {
      var _, _ := AnswerAfterSuccessfulRun(question, schema, h, repr);
    }
  }

  /** The query the slot holds after the tool ran the pipeline: the run's query on success
      and `None` after a failure. */
  method RagToolOnPipeline(slot: LastQuery, question: string, schema: Py, h: GraphRag.Handlers, repr: Py -> string)
    returns (answer: string)
    modifies slot
    ensures answer == SelectResponse(GraphRag.Run(question, schema, h), repr)
    ensures answer != ""
    ensures GraphRag.Pipeline(question, schema, h).Failed? ==> slot.query == PyNone
    ensures GraphRag.Pipeline(question, schema, h).Done? ==>
      slot.query == PyStr(GraphRag.Pipeline(question, schema, h).query)
  {
    answer := RagTool(slot, Ok(GraphRag.Run(question, schema, h)), repr);
    AnswerNeverEmpty(question, schema, h, repr);
  }
}
