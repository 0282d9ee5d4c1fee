/** Post-processing of the chat model's replies in the three pipeline stages that call
    it (query generation, query validation, response generation), and the way a failed
    model call is turned into a ValueError. The model itself is not modelled: each stage
    receives the model's reply as an `Outcome<string>`, that is either the text of
    the first choice or the exception the client raised. */
module LlmManager {
  import opened PyValues
  import opened PyText

  const GenerationFailedPrefix: string := "Cypher query generation failed: "
  const ValidationFailedPrefix: string := "Cypher query validation failed: "
  const ResponseFailedPrefix: string := "Response generation failed: "
  const InvalidQueryPrefix: string := "Invalid Cypher query: "
  const ClientInitFailedPrefix: string := "Failed to initialize OpenAI client: "

  /** `except OpenAIError as e: raise ValueError(prefix + str(e))`: a client error becomes a
      ValueError with the stage's prefix; any other exception passes through the handler. */
  function WrapClientError(prefix: string, e: Raised): (r: Raised)
    ensures e.OpenAIError? ==> r == ValueError(prefix + e.message)
    ensures !e.OpenAIError? ==> r == e
  {
    if e.OpenAIError? then ValueError(prefix + e.message) else e
  }

  /** The LLM manager holds the chat client; `LLMManager.__init__` fails only when the
      client cannot be constructed. */
  datatype LlmManager = LlmManager(modelName: string)

  function NewLlmManager(modelName: string, client: Outcome<()>): (r: Outcome<LlmManager>)
    ensures r.Ok? <==> client.Ok?
    ensures r.Ok? ==> r.value.modelName == modelName
    ensures client.Raise? ==> r.error == WrapClientError(ClientInitFailedPrefix, client.error)
  {
    match client
    case Ok(_) => Ok(LlmManager(modelName))
    case Raise(e) => Raise(WrapClientError(ClientInitFailedPrefix, e))
  }

  // ---------------------------------------------------------------- fence removal

  /** Three backticks start at index `j` of `s`. */
  predicate TicksAt(s: string, j: int)
  {
    0 <= j && j + 3 <= |s| && s[j] == '`' && s[j + 1] == '`' && s[j + 2] == '`'
  }

  /** `s` starts with "```cypher". */
  predicate CypherFence(s: string)
  {
    TicksAt(s, 0) && |s| >= 9 && s[3..9] == "cypher"
  }

  lemma TicksAtIff(s: string, j: int)
    ensures OccursAt(s, "```", j) <==> TicksAt(s, j)
  {
    if TicksAt(s, j) {
      assert s[j..j + 3] == "```";
    }
  }

  /** `re.sub(r"```cypher|```", "", s)`: scanning left to right, every "```cypher" and
      every other "```" is deleted; the deleted text is not scanned again. */
  function RemoveFences(s: string): (r: string)
    ensures |r| <= |s|
    decreases |s|
  {
    if s == "" then ""
    else if CypherFence(s) then RemoveFences(s[9..])
    else if TicksAt(s, 0) then RemoveFences(s[3..])
    else [s[0]] + RemoveFences(s[1..])
  }

  /** Where no fence starts, the first character is kept. */
  lemma KeepsHead(s: string)
    requires s != "" && !TicksAt(s, 0)
    ensures RemoveFences(s) == [s[0]] + RemoveFences(s[1..])
  {
  }

  /** A kept backtick is followed, in the output, by at most one more backtick and then
      by something else: the output never shows three in a row. */
  lemma {:induction false} NoTicksRemain(s: string)
    ensures forall j :: !TicksAt(RemoveFences(s), j)
    decreases |s|
  {
    if s == "" {
    } else if CypherFence(s) {
      NoTicksRemain(s[9..]);
    } else if TicksAt(s, 0) {
      NoTicksRemain(s[3..]);
    } else {
      var rest := RemoveFences(s[1..]);
      var out := RemoveFences(s);
      NoTicksRemain(s[1..]);
      KeepsHead(s);
      assert out == [s[0]] + rest;
      if s[0] == '`' && |s| >= 2 {
        if s[1] == '`' {
          assert !TicksAt(s[1..], 0);
          KeepsHead(s[1..]);
          assert rest == ['`'] + RemoveFences(s[2..]);
          if |s| >= 3 {
            assert s[2] != '`';
            KeepsHead(s[2..]);
            assert RemoveFences(s[2..])[0] != '`';
          }
        } else {
          KeepsHead(s[1..]);
          assert rest[0] != '`';
        }
      }
      forall j | TicksAt(out, j) ensures false {
        if j > 0 {
          assert TicksAt(rest, j - 1);
        }
      }
    }
  }

  lemma NoFenceRemains(s: string)
    ensures !Contains(RemoveFences(s), "```")
  {
    NoTicksRemain(s);
    forall j | OccursAt(RemoveFences(s), "```", j) ensures false {
      TicksAtIff(RemoveFences(s), j);
    }
  }

  /** Text without backticks is not touched by fence removal. */
  lemma {:induction false} RemoveFencesNoBackticks(s: string)
    requires '`' !in s
    ensures RemoveFences(s) == s
    decreases |s|
  {
    if s != "" {
      assert s[0] != '`';
      RemoveFencesNoBackticks(s[1..]);
      KeepsHead(s);
    }
  }

  /** Fence removal of a backtick-free prefix followed by anything keeps the prefix. */
  lemma {:induction false} RemoveFencesKeepsPrefix(x: string, y: string)
    requires '`' !in x
    ensures RemoveFences(x + y) == x + RemoveFences(y)
    decreases |x|
  {
    if x != "" {
      assert (x + y)[0] == x[0];
      assert x[0] != '`';
      assert (x + y)[1..] == x[1..] + y;
      KeepsHead(x + y);
      RemoveFencesKeepsPrefix(x[1..], y);
      calc {
        RemoveFences(x + y);
        [x[0]] + RemoveFences(x[1..] + y);
        [x[0]] + (x[1..] + RemoveFences(y));
        { assert [x[0]] + x[1..] == x; }
        x + RemoveFences(y);
      }
    } else {
      assert x + y == y;
    }
  }

  /** The generated query: the stripped model text, with fences removed, stripped again. */
  function CleanQuery(text: string): (q: string)
    ensures !Contains(q, "```")
    ensures q == "" || (!IsSpace(q[0]) && !IsSpace(q[|q| - 1]))
  {
    var f := RemoveFences(Strip(text));
    NoFenceRemains(Strip(text));
    var q := Strip(f);
    var i :| OccursAt(f, q, i);
    SliceFree(f, q, i, "```");
    q
  }

  /** `generate_cypher_query` after the model call. */
  function GenerateCypherQuery(reply: Outcome<string>): (r: Outcome<string>)
    ensures r.Ok? <==> reply.Ok?
    ensures r.Ok? ==> !Contains(r.value, "```")
    ensures reply.Raise? ==> r.error == WrapClientError(GenerationFailedPrefix, reply.error)
  {
    match reply
    case Ok(text) => Ok(CleanQuery(text))
    case Raise(e) => Raise(WrapClientError(GenerationFailedPrefix, e))
  }

  /** A reply with no backticks and no whitespace at either end is the query itself. */
  lemma PlainReplyIsTheQuery(text: string)
    requires '`' !in text
    requires text == "" || (!IsSpace(text[0]) && !IsSpace(text[|text| - 1]))
    ensures GenerateCypherQuery(Ok(text)) == Ok(text)
  {
    StripUnchanged(text);
    RemoveFencesNoBackticks(text);
  }

  /** Fence removal of a cypher fence block leaves the lines between the fences. */
  lemma FenceBlockRemoved(q: string)
    requires '`' !in q
    ensures RemoveFences("```cypher\n" + q + "\n```") == "\n" + q + "\n"
  {
    var text := "```cypher\n" + q + "\n```";
    var body := "\n" + q + "\n";
    assert CypherFence(text);
    assert text[9..] == body + "```";
    assert '`' !in body;
    RemoveFencesKeepsPrefix(body, "```");
    assert RemoveFences("```") == "";
  }

  /** Stripping removes the line breaks around a query that has no whitespace at either end. */
  lemma StripLineBreaks(q: string)
    requires q != "" && !IsSpace(q[0]) && !IsSpace(q[|q| - 1])
    ensures Strip("\n" + q + "\n") == q
  {
    var body := "\n" + q + "\n";
    assert body[1..] == q + "\n";
    assert LStrip(body) == LStrip(q + "\n");
    assert LStrip(q + "\n") == q + "\n";
    assert (q + "\n")[..|q|] == q;
    assert RStrip(q + "\n") == RStrip(q);
    StripUnchanged(q);
  }

  /** A query the model wrapped in a cypher fence block comes out unwrapped. */
  lemma FencedReplyIsUnwrapped(q: string)
    requires '`' !in q && q != "" && !IsSpace(q[0]) && !IsSpace(q[|q| - 1])
    ensures GenerateCypherQuery(Ok("```cypher\n" + q + "\n```")) == Ok(q)
  {
    var text := "```cypher\n" + q + "\n```";
    StripUnchanged(text);
    FenceBlockRemoved(q);
    StripLineBreaks(q);
  }

  // ---------------------------------------------------------------- validation

  /** `validate_cypher_query` after the model call: the stripped verdict must start with
      "VALID", otherwise the query is rejected with a ValueError that names the verdict.
      That ValueError is raised inside the handler but is not an OpenAIError, so it is not
      wrapped again. */
  function ValidateCypherQuery(query: string, reply: Outcome<string>): (r: Outcome<string>)
    ensures r.Ok? ==> r.value == query
    ensures r.Ok? <==> reply.Ok? && StartsWith(Strip(reply.value), "VALID")
    ensures reply.Ok? && r.Raise? ==> r.error == ValueError(InvalidQueryPrefix + Strip(reply.value))
    ensures reply.Raise? ==> r.error == WrapClientError(ValidationFailedPrefix, reply.error)
  {
    match reply
    case Ok(text) =>
      var verdict := Strip(text);
      if StartsWith(verdict, "VALID") then Ok(query)
      else Raise(ValueError(InvalidQueryPrefix + verdict))
    case Raise(e) => Raise(WrapClientError(ValidationFailedPrefix, e))
  }

  /** An "INVALID: <reason>" verdict is a rejection, even though it contains "VALID". */
  lemma InvalidVerdictRejected(query: string, reason: string)
    ensures ValidateCypherQuery(query, Ok("INVALID: " + reason))
         == Raise(ValueError(InvalidQueryPrefix + Strip("INVALID: " + reason)))
    ensures StartsWith(Strip("INVALID: " + reason), "INVALID:")
  {
    var text := "INVALID: " + reason;
    assert StartsWith(text, "INVALID:");
    StripKeepsPrefix(text, "INVALID:");
    assert Strip(text)[0] == 'I';
  }

  /** Any verdict that starts with "VALID" after stripping accepts the query, whatever follows. */
  lemma ValidVerdictAccepted(query: string, rest: string)
    ensures ValidateCypherQuery(query, Ok("VALID" + rest)) == Ok(query)
  {
    assert StartsWith("VALID" + rest, "VALID");
    StripKeepsPrefix("VALID" + rest, "VALID");
  }

  // ---------------------------------------------------------------- response

  /** The value `generate_response` puts in the prompt's `{result}` slot:
      `query_result if query_result else "[]"`. */
  function PromptSlot(result: Py): Py
  {
    if Truthy(result) then result else PyStr("[]")
  }

  /** The prompt's `{result}` slot for the rows the pipeline passes on. */
  function ResultForPrompt(rows: seq<Record>): (v: Py)
    ensures |rows| == 0 ==> v == PyStr("[]")
    ensures |rows| > 0 ==> v.PyList? && |v.items| == |rows|
                           && forall i :: 0 <= i < |rows| ==> v.items[i] == PyDict(rows[i])
  {
    PromptSlot(RowsValue(rows))
  }

  /** A list of records as the Python list of dictionaries it is. */
  function RowsValue(rows: seq<Record>): (v: Py)
  {
    PyList(seq(|rows|, i requires 0 <= i < |rows| => PyDict(rows[i])))
  }

  /** `generate_response` after the model call: the stripped text of the reply. */
  function GenerateResponse(reply: Outcome<string>): (r: Outcome<string>)
    ensures r.Ok? <==> reply.Ok?
    ensures r.Ok? ==> r.value == Strip(reply.value)
    ensures reply.Raise? ==> r.error == WrapClientError(ResponseFailedPrefix, reply.error)
  {
    match reply
    case Ok(text) => Ok(Strip(text))
    case Raise(e) => Raise(WrapClientError(ResponseFailedPrefix, e))
  }
}
