# Healthcare GraphRAG — a Dafny model of the pipeline and its conversation memory

This project models the core of a healthcare question-answering assistant. It answers a
question about patients, doctors, hospitals and treatments in four stages:

1. A language model writes a Cypher query for the question from the graph schema.
2. A second model call judges the query `VALID` or `INVALID`.
3. The query runs against a Neo4j graph. Dates in the rows become ISO strings.
4. A third model call turns the rows into an answer.

A stage that raises stops the run. The run's result is then `{"query": None, "response":
"Error: <message>"}`.

Around the pipeline the project also models:

- the agent's RAG tool, which picks the text the agent sees and remembers the last query;
- the conversation store, which keeps one conversation per thread with its messages;
- the chat memory loaded from that store;
- the extraction of key topics: medical keywords, the user's name and age;
- the context text handed to the agent: the last ten lines of history and the topics;
- the system prompt that embeds that context;
- the names the UI gives conversations;
- validation of the environment configuration.

Model calls, the database and the clock are collaborators you cannot see. They become
parameters: an `Outcome` that is either `Ok(value)` or `Raise(exception)`, a `failed` flag
for a database statement that raised, and an `isoFormat` function for dates. Python
builtins are modelled once:

- `PyValues` holds Python values, truthiness and exception kinds.
- `PyText` holds `strip`, `split`, `find`, `join`, `lower` and `isdigit`. Each follows
  Python's definition, with Python's whitespace set.

Modules follow the source files:

| module | file |
|---|---|
| `LlmManager` | `src/handlers/llm_manager.py` |
| `GraphManager` | `src/handlers/graph_manager.py` |
| `GraphRag` | `src/handlers/graphrag_handler.py` |
| `Tools` | `src/helpers/tools.py` |
| `ConversationHandler` | `src/handlers/conversation_handler.py` |
| `MemoryManager` | `src/handlers/memory_manager.py` |
| `AgentInitializer` | `src/helpers/agent_initializer.py` |
| `UiRouter` | `src/routers/ui_router.py` |
| `Prompts` | `src/helpers/prompts.py` |
| `Settings` | `src/config/settings.py` |

How each part is written:

- Code that works on values becomes functions and lemmas.
- Objects that update their fields become classes with `modifies` frames. These are the
  conversation store, the chat history, the buffer memory, the agent's memory table, the
  pipeline singleton, the configuration singleton and the last-query slot.
- Loops in the source become `while` loops proved against the function that specifies them.

The pipeline is a state machine. `Step` runs one stage, `Advance` runs to the end, and
`TraceFrom` records the calls made in order. So the lemmas can say exactly which
collaborators were called, with which arguments, and when the run stopped.

Failures reach the caller as the message of the exception that stopped the run:

- **Generation failures.** The language-model manager wraps a client error as
  `"Cypher query generation failed: <message>"`, so the response reads `"Error: Cypher
  query generation failed: <message>"` (`GraphRag.GenerationFailureStops`).
- **Database errors.** The graph manager wraps a failing query as `"Query execution
  failed: <message>"`, so the response reads `"Error: Query execution failed: <message>"`
  (`GraphRag.ExecutionFailureStops`).

## Model

| member | source | states |
|---|---|---|
| LlmManager.WrapClientError | src/handlers/llm_manager.py:81-84 | an OpenAI client error becomes a ValueError carrying the stage's prefix and the client's message; any other exception passes through unchanged |
| LlmManager.NewLlmManager | src/handlers/llm_manager.py:26-33 | the manager exists exactly when the client could be created, and keeps the model name; an OpenAI client error becomes "Failed to initialize OpenAI client: " plus its message |
| LlmManager.TicksAtIff | src/handlers/llm_manager.py:78 | three backticks occur at a position exactly when the fence predicate holds there |
| LlmManager.RemoveFences | src/handlers/llm_manager.py:78 | removing fences never lengthens the text |
| LlmManager.NoTicksRemain | src/handlers/llm_manager.py:78 | after fence removal, no position of the text starts three backticks |
| LlmManager.NoFenceRemains | src/handlers/llm_manager.py:78 | the text left after fence removal contains no "```" |
| LlmManager.RemoveFencesNoBackticks | src/handlers/llm_manager.py:78 | text without a backtick is left unchanged by fence removal |
| LlmManager.RemoveFencesKeepsPrefix | src/handlers/llm_manager.py:78 | a backtick-free prefix survives fence removal and the rest is processed on its own |
| LlmManager.CleanQuery | src/handlers/llm_manager.py:77-78 | the cleaned query contains no "```" and starts and ends with a non-whitespace character, or is empty |
| LlmManager.GenerateCypherQuery | src/handlers/llm_manager.py:77-84 | a reply gives a query exactly when the model answered; the query has no fence left; a client error is wrapped with the generation prefix |
| LlmManager.PlainReplyIsTheQuery | src/handlers/llm_manager.py:77-78 | a stripped reply without backticks is returned as the query unchanged |
| LlmManager.FenceBlockRemoved | src/handlers/llm_manager.py:78 | a ```` ```cypher ```` block around a backtick-free query leaves the query between two line breaks |
| LlmManager.StripLineBreaks | src/handlers/llm_manager.py:77-78 | stripping removes the line breaks around a query that has no whitespace at either end |
| LlmManager.FencedReplyIsUnwrapped | src/handlers/llm_manager.py:77-78 | a reply that is a fenced Cypher block gives exactly the query inside the fence |
| LlmManager.ValidateCypherQuery | src/handlers/llm_manager.py:126-134 | the query is accepted, unchanged, exactly when the stripped verdict starts with "VALID"; otherwise the error is "Invalid Cypher query: " plus the verdict; client errors are wrapped with the validation prefix |
| LlmManager.InvalidVerdictRejected | src/handlers/llm_manager.py:127-129 | an "INVALID: reason" verdict raises with the stripped verdict as its message |
| LlmManager.ValidVerdictAccepted | src/handlers/llm_manager.py:126-130 | any verdict starting with "VALID" returns the query |
| LlmManager.ResultForPrompt | src/handlers/llm_manager.py:169 | the prompt's result slot for no rows is "[]"; otherwise it is the list of the rows, one dictionary per row, in order |
| LlmManager.GenerateResponse | src/handlers/llm_manager.py:176-181 | the answer is the stripped reply when the model answered; a client error is wrapped with the response prefix |
| GraphManager.Connect | src/handlers/graph_manager.py:29-40 | a manager exists exactly when the connection succeeded, and its schema is the one fetched; a failure raises "Neo4j connection failed: " plus the message |
| GraphManager.NormalizeValue | src/handlers/graph_manager.py:59-60 | a date becomes its ISO string and every other value is kept; no date remains |
| GraphManager.NormalizeRecord | src/handlers/graph_manager.py:59-60 | the record keeps its keys and each value is normalised |
| GraphManager.NormalizeRecords | src/handlers/graph_manager.py:58-62 | one normalised record per row, in order |
| GraphManager.ExecuteQuery | src/handlers/graph_manager.py:55-68 | rows are returned, normalised, exactly when the driver succeeded; a driver error raises "Query execution failed: " plus its message |
| GraphManager.NormalizedRows | src/handlers/graph_manager.py:58-62 | the result has as many rows as the input, no dates and the same keys; dates become ISO strings and other values are unchanged |
| GraphManager.NormalizeWithoutDates | src/handlers/graph_manager.py:58-62 | rows without dates are returned unchanged |
| GraphManager.NormalizeIdempotent | src/handlers/graph_manager.py:58-62 | normalising twice is the same as normalising once |
| GraphRag.Managers | src/handlers/graphrag_handler.py:58-78 | the four stages are the manager operations applied to the collaborators' replies |
| GraphRag.Step | src/handlers/graphrag_handler.py:58-78 | one step moves the pipeline to the next stage or to its end, and a finished pipeline stays where it is; the response stage is handed the result rows as the list the pipeline carries, and the "[]" substitution is left to the response handler |
| GraphRag.Advance | src/handlers/graphrag_handler.py:55-79 | the pipeline always ends, either done or failed, and a failure is final |
| GraphRag.Run | src/handlers/graphrag_handler.py:92-105 | the result always has a "query" and a string "response"; a successful run has exactly the keys query, result and response; a failed run is the error dictionary with query None and "Error: " plus the message |
| GraphRag.StepCall | src/handlers/graphrag_handler.py:58-78 | each stage makes exactly one collaborator call; the step fails exactly when that call raises, with its error; the question and schema are carried forward |
| GraphRag.AdvanceStep | src/handlers/graphrag_handler.py:55-79 | running from a stage is that stage's call followed by running from the next stage |
| GraphRag.RunFrom | src/handlers/graphrag_handler.py:55-79 | from any stage, the calls run in stage order; every call but the last succeeded; the run failed exactly when the last call raised, with that call's error |
| GraphRag.StagesInOrder | src/handlers/graphrag_handler.py:55-100 | a run makes one to four calls in order (generate, validate, execute, respond); it stops at the first call that raises, and that call's message, after "Error: ", is the response |
| GraphRag.CarriedFrom | src/handlers/graphrag_handler.py:56-77 | from any stage, every generation and validation call uses that stage's schema, and every generation and response call uses its question |
| GraphRag.StagesShareSchemaAndQuestion | src/handlers/graphrag_handler.py:56-77 | every generation and validation call sees the schema given, and every generation and response call sees the user's question |
| GraphRag.DoneStep | src/handlers/graphrag_handler.py:55-79 | on a run that finishes, each step moves exactly one stage forward |
| GraphRag.SuccessfulRun | src/handlers/graphrag_handler.py:55-97 | a successful run made exactly four calls, each on the previous stage's output, and returns the validated query, the rows and the response |
| GraphRag.SuccessfulManagedRun | src/handlers/graphrag_handler.py:55-97 | with the real managers, a successful run executes the cleaned query, passes the normalised rows to the responder and returns its stripped answer |
| GraphRag.GenerationFailureStops | src/handlers/graphrag_handler.py:55-100 | a generator client error stops the run after one call; the response is "Error: Cypher query generation failed: " plus the message |
| GraphRag.ValidationRaises | src/handlers/graphrag_handler.py:63-100 | a validation error stops the run after two calls, with its message as the response |
| GraphRag.RejectedQueryStops | src/handlers/graphrag_handler.py:63-100 | a verdict that does not start with VALID stops the run before the database is called; the response is the "Invalid Cypher query" error |
| GraphRag.ExecutionRaises | src/handlers/graphrag_handler.py:68-100 | an execution error stops the run after three calls, before the responder, with its message as the response |
| GraphRag.ExecutionFailureStops | src/handlers/graphrag_handler.py:68-100 | with the real managers, a database error gives "Error: Query execution failed: " plus the message, and the responder is never called |
| GraphRag.HealthcareGraphRAG.constructor | src/handlers/graphrag_handler.py:21-24 | a new instance is not initialised |
| GraphRag.HealthcareGraphRAG.Init | src/handlers/graphrag_handler.py:26-46 | an initialised instance is left alone; otherwise initialisation succeeds exactly when the graph connection and the model client succeed, reports the first failure, and stores the fetched schema |
| GraphRag.GraphRagSlot.constructor | src/handlers/graphrag_handler.py:19 | before first use there is no instance |
| GraphRag.GraphRagSlot.Obtain | src/handlers/graphrag_handler.py:21-46 | the first call creates the instance; later calls return the same instance; an initialised instance is not initialised again; a failing connection raises "Neo4j connection failed: " plus its message and a failing client the wrapped initialisation error, and after a failure the stored instance stays uninitialised |
| GraphRag.ConstructTwice | src/handlers/graphrag_handler.py:21-46 | constructing twice gives the same instance, with the schema of the first connection |
| GraphRag.RetryAfterFailure | src/handlers/graphrag_handler.py:21-46 | a construction whose connection fails raises the connection error, and the next construction initialises the same stored instance with the schema of its own connection |
| Tools.Str | src/helpers/tools.py:65 | `str` of a string is the string itself, and `str(None)` is "None", and `str` of a boolean is "True" or "False" |
| Tools.SelectResponse | src/helpers/tools.py:55-74 | a truthy response free of "No information found" and "Error" is forwarded, a list one item per line; otherwise a truthy query; otherwise the response's text or "No information found"; a result without a response gives "No information found" |
| Tools.LastQuery.constructor | src/helpers/tools.py:19 | the last query starts as None |
| Tools.LastQuery.Set | src/helpers/tools.py:32-40 | the slot holds the query given |
| Tools.LastQuery.Get | src/helpers/tools.py:22-29 | the slot's value is returned |
| Tools.RagTool | src/helpers/tools.py:43-78 | the slot takes the result's "query" whenever the result has one, even None, and is otherwise unchanged; the answer is the selected response, or "Error: " plus the message of an escaped exception |
| Tools.ErrorTextIsNotClean | src/helpers/tools.py:59-60 | a pipeline error text is never forwarded as a clean response |
| Tools.AnswerAfterFailedRun | src/helpers/tools.py:59-72 | after a failed run the tool answers with the pipeline's error text |
| Tools.AnswerAfterSuccessfulRun | src/helpers/tools.py:59-72 | after a successful run the tool answers with the response when it is clean and non-empty, else the query, else the response or "No information found" |
| Tools.AnswerNeverEmpty | src/helpers/tools.py:55-74 | whatever the pipeline returns, the tool's answer is non-empty |
| Tools.RagToolOnPipeline | src/helpers/tools.py:46-72 | over a pipeline run, the answer is non-empty; the slot holds None after a failure and the run's query after a success |
| ConversationHandler.FlattenShape | src/handlers/conversation_handler.py:53-59 | the history has two entries per message: the user's input, then the assistant's response, in storage order |
| ConversationHandler.FlattenAppend | src/handlers/conversation_handler.py:53-59 | one more stored message adds its two entries at the end of the history |
| ConversationHandler.ConversationStore.constructor | src/handlers/conversation_handler.py:18-37 | the store starts with no conversations |
| ConversationHandler.ConversationStore.StoreConversation | src/handlers/conversation_handler.py:18-37 | the message is appended to its thread, and the thread is created if it is new; other threads are untouched; a database failure changes nothing |
| ConversationHandler.ConversationStore.GetConversationHistory | src/handlers/conversation_handler.py:40-62 | the history is the thread's flattened messages, and empty on a database failure |
| ConversationHandler.ConversationStore.GetAllConversations | src/handlers/conversation_handler.py:65-79 | every conversation's thread id, or none on a database failure |
| ConversationHandler.ConversationStore.DeleteConversation | src/handlers/conversation_handler.py:82-98 | the thread and its messages are gone and the answer is True; other threads keep theirs; a failure changes nothing and answers False |
| ConversationHandler.Remove | src/handlers/conversation_handler.py:86-93 | the removed id no longer occurs, and every other id is kept |
| ConversationHandler.RemoveDistinct | src/handlers/conversation_handler.py:86-93 | removing a thread keeps the thread list free of repetitions |
| ConversationHandler.StoreThenRead | src/handlers/conversation_handler.py:18-62 | storing and reading back gives the earlier history followed by the new input and response |
| ConversationHandler.DeleteThenRead | src/handlers/conversation_handler.py:40-98 | after a delete the thread's history is empty and it is no longer listed |
| MemoryManager.RoleFilterAppend | src/handlers/memory_manager.py:30-35 | loading a concatenated history loads each part in turn |
| MemoryManager.RoleFilterDropsOthers | src/handlers/memory_manager.py:30-34 | an entry that is neither user nor assistant is ignored |
| MemoryManager.RoleFilterKnownRoles | src/handlers/memory_manager.py:30-35 | with user and assistant entries only, each entry becomes one message of the matching kind with the same content |
| MemoryManager.LoadedTurns | src/handlers/memory_manager.py:28-35 | a stored conversation loads as alternating human and AI messages, one pair per stored message |
| MemoryManager.ChatMessageHistory.constructor | src/handlers/memory_manager.py:17-21 | the history is bound to its thread and holds the stored messages |
| MemoryManager.ChatMessageHistory.Load | src/handlers/memory_manager.py:23-35 | with a thread id the messages are replaced by the stored ones; without one nothing changes |
| MemoryManager.ChatMessageHistory.AddMessage | src/handlers/memory_manager.py:37-40 | the message is appended |
| MemoryManager.ChatMessageHistory.Clear | src/handlers/memory_manager.py:42-44 | no messages remain |
| MemoryManager.ChatMessageHistory.GetMessages | src/handlers/memory_manager.py:46-48 | the held messages are returned |
| MemoryManager.AddThenRead | src/handlers/memory_manager.py:37-48 | after appending, reading gives the earlier messages followed by the new one |
| MemoryManager.FormatLinesShape | src/handlers/memory_manager.py:69-74 | one line per message, "Human: " or "Assistant: " followed by its content |
| MemoryManager.HistoryLines | src/handlers/memory_manager.py:69-76 | when no content has a line break, splitting the history text on line breaks gives back the formatted lines |
| MemoryManager.NameTopics | src/handlers/memory_manager.py:116-119 | the name topic is only read after "my name is"; nothing follows the phrase exactly when the lookup raises IndexError |
| MemoryManager.NameTopic | src/handlers/memory_manager.py:119 | a name topic is a personal topic |
| MemoryManager.AgeTopic | src/handlers/memory_manager.py:127 | an age topic is a personal topic |
| MemoryManager.AgeTopics | src/handlers/memory_manager.py:121-129 | a message that says "i am" and "year(s) old" gives exactly the age topic of the digits between the first "i am" and the next "year" when there are any, and every other message gives none |
| MemoryManager.MessageTopics | src/handlers/memory_manager.py:102-129 | a message raises exactly when its name lookup does, and then raises IndexError |
| MemoryManager.TopicsAppend | src/handlers/memory_manager.py:101-102 | the topics of a longer conversation are the earlier topics extended by the last message's |
| MemoryManager.ToList | src/handlers/memory_manager.py:131 | the list holds each topic of the set exactly once |
| MemoryManager.KeywordsOf | src/handlers/memory_manager.py:107-113 | the loop finds exactly the keywords the message contains |
| MemoryManager.TopicsOf | src/handlers/memory_manager.py:104-129 | the topics collected from one message: its keywords, then name and age |
| MemoryManager.TopicsRaisePersists | src/handlers/memory_manager.py:101-119 | once a message raises, the rest of the conversation is not scanned and the error is kept |
| MemoryManager.ConversationBufferMemory.constructor | src/handlers/memory_manager.py:54-57 | a chat history exists exactly when a non-empty thread id is given, and it is loaded from the store |
| MemoryManager.ConversationBufferMemory.SetThreadId | src/handlers/memory_manager.py:59-62 | a new chat history for the thread is created and loaded |
| MemoryManager.ConversationBufferMemory.GetChatHistory | src/handlers/memory_manager.py:64-76 | the formatted history, or "" when there is no chat history |
| MemoryManager.ConversationBufferMemory.ExtractConversationTopics | src/handlers/memory_manager.py:94-131 | no chat history gives no topics; otherwise the method raises exactly when topic extraction raises, and otherwise lists each topic once |
| MemoryManager.ConversationBufferMemory.GetConversationContext | src/handlers/memory_manager.py:78-92 | without a history the context is empty; otherwise it holds the formatted history and the listed topics, or the extraction's error |
| MemoryManager.MessageKeywordIff | src/handlers/memory_manager.py:107-113 | a keyword is a topic of a message exactly when the message contains it |
| MemoryManager.KeywordTopicIff | src/handlers/memory_manager.py:101-113 | a keyword is a topic of the conversation exactly when some human message mentions it in lower case |
| MemoryManager.NonHumanIgnored | src/handlers/memory_manager.py:101-102 | AI and other non-human messages do not affect the topics |
| MemoryManager.NameWithoutWordRaises | src/handlers/memory_manager.py:116-118 | "my name is" followed only by whitespace raises IndexError |
| MemoryManager.AgeFromDigits | src/handlers/memory_manager.py:121-127 | an age given in digits before "years old" gives exactly one age topic |
| MemoryManager.NameAfterPhrase | src/handlers/memory_manager.py:116-119 | after the first "my name is", leading whitespace, a word and then nothing or whitespace, the name topic is "user's name: " plus that word stripped of `.,!?` |
| MemoryManager.NameInMessage | src/handlers/memory_manager.py:101-119 | such a message does not raise, and its topics hold that name topic |
| MemoryManager.RepeatedPhraseRaises | src/handlers/memory_manager.py:116-118 | "my name is my name is bob" raises IndexError, the piece between the two phrases being a single space |
| MemoryManager.MessageTopicsInTopics | src/handlers/memory_manager.py:101-104 | when the extraction completes, the topics of every user message are among the conversation's topics |
| MemoryManager.NameInConversation | src/handlers/memory_manager.py:101-119 | a user message naming the user puts that name topic among the conversation's topics |
| MemoryManager.AgeAfterPhrase | src/handlers/memory_manager.py:121-127 | for a message going on from its first "i am" with a text free of "i am" and "year", then "years old" or "year old", the age topic holds exactly the digits of that text, and there is none when it has no digits |
| MemoryManager.AgeTextAfterPhrase | src/handlers/memory_manager.py:123-124 | the age text of such a message is the text between the first "i am" and "year", stripped |
| MemoryManager.AgeInConversation | src/handlers/memory_manager.py:101-127 | a user message stating an age with digits puts that age topic among the conversation's topics |
| PyText.DigitsInOrder | src/handlers/memory_manager.py:125 | the filtered digits are exactly the digit characters of the text, at increasing positions and in their order |
| PyText.DigitsOfStrip | src/handlers/memory_manager.py:123-125 | stripping whitespace does not change the digits of a text |
| PyText.WordAfterSeparator | src/handlers/memory_manager.py:117-118 | the first word of the stripped second piece of a split is the word that follows the separator, when no other separator starts before it ends |
| AgentInitializer.AgentInitializer.constructor | src/helpers/agent_initializer.py:49 | the memory table starts empty |
| AgentInitializer.AgentInitializer.GetMemory | src/helpers/agent_initializer.py:61-74 | a thread's memory is created on first request, loaded from the store, and returned again unchanged on later requests |
| AgentInitializer.AgentInitializer.GetConversationContext | src/helpers/agent_initializer.py:76-114 | no thread gives ""; otherwise the thread's memory is obtained, a thread seen for the first time getting a new memory loaded from the store, and the context text is built from its history and topics, or topic extraction's error is raised |
| AgentInitializer.AssembleContext | src/helpers/agent_initializer.py:92-114 | the loop's text is the context text of the history and topics |
| AgentInitializer.GetMemoryTwice | src/helpers/agent_initializer.py:71-74 | asking twice for a thread's memory gives the same object and keeps every existing entry |
| AgentInitializer.TopicLinesShape | src/helpers/agent_initializer.py:111-112 | one "- topic" line per topic, in order |
| AgentInitializer.NothingToSay | src/helpers/agent_initializer.py:92-114 | no history and no topics give the empty context |
| AgentInitializer.ContextSplits | src/helpers/agent_initializer.py:92-114 | with a history, the context is the conversation block followed by the topic block |
| AgentInitializer.ShortConversationVerbatim | src/helpers/agent_initializer.py:95-106 | a history of at most ten lines appears in full under the header |
| AgentInitializer.LastLinesAreSuffix | src/helpers/agent_initializer.py:99-104 | the lines kept from a long history are a suffix of it, joined back by line breaks |
| AgentInitializer.LastLinesSplitBack | src/helpers/agent_initializer.py:101-104 | the kept text splits back into exactly the last ten lines |
| AgentInitializer.LongConversationBlock | src/helpers/agent_initializer.py:95-104 | a long history shows the header, the truncation note and the last ten lines |
| AgentInitializer.LongConversationKeepsLastLines | src/helpers/agent_initializer.py:95-104 | for a long history, the context holds exactly its last ten lines after the truncation note, then the topics |
| AgentInitializer.TopicBlockShape | src/helpers/agent_initializer.py:109-114 | with topics, the block is the key-information header followed by one "- topic" line per topic |
| UiRouter.Take | src/routers/ui_router.py:43 | the first n items, or all of them when there are fewer |
| UiRouter.NameOf | src/routers/ui_router.py:43-49 | the first four words joined by spaces; longer than 30 characters, it is cut to 27 and "..." is added |
| UiRouter.NameFrom | src/routers/ui_router.py:39-51 | from a position, the name comes from the first user message at or after it, or is the default name when there is none |
| UiRouter.GenerateConversationName | src/routers/ui_router.py:35-51 | an empty conversation, or one without a user message, gets the default name; otherwise the name comes from the first user message |
| UiRouter.SelectorLabel | src/routers/ui_router.py:70 | the selector label starts with the conversation name |
| UiRouter.NameFitsSelector | src/routers/ui_router.py:47-48 | a generated name is never longer than 30 characters |
| UiRouter.NameFromFits | src/routers/ui_router.py:39-51 | a name found from any position is never longer than 30 characters |
| UiRouter.FirstUserMessageOnly | src/routers/ui_router.py:39-49 | messages after the first user message do not affect the name |
| UiRouter.BlankMessageNamesNothing | src/routers/ui_router.py:43-46 | a blank first user message gives the empty name, not the default |
| UiRouter.NameKeepsFirstWords | src/routers/ui_router.py:43-46 | a name that is not cut consists of exactly the first four words |
| UiRouter.TruncatedName | src/routers/ui_router.py:47-48 | a cut name is exactly 30 characters: a prefix of the joined words, then "..." |
| UiRouter.StoredConversationName | src/routers/ui_router.py:39-49 | a stored conversation is named after its first user input, or gets the default name when it has none |
| UiRouter.LabelShowsIdPrefix | src/routers/ui_router.py:70 | the label shows the first six characters of the thread id in parentheses, or the whole id when it is shorter |
| Prompts.GetHealthcareSystemPrompt | src/helpers/prompts.py:15-36 | the prompt always starts with the assistant prompt, and is exactly that prompt when there is no context |
| Prompts.Appended | src/helpers/prompts.py:28 | appending keeps the prompt and adds the text after it |
| Prompts.ContextInPrompt | src/helpers/prompts.py:25-34 | with a context, the prompt is the assistant prompt, the opening, the context itself and the continuity instructions, in that order |
| Prompts.Layout | src/helpers/prompts.py:28-34 | each appended part sits at its own offset in the prompt |
| Prompts.ContextDetermined | src/helpers/prompts.py:28-34 | different non-empty contexts give different prompts |
| Settings.GetEnv | src/config/settings.py:29 | a variable's value when it is set, the default otherwise |
| Settings.UnsetMembers | src/config/settings.py:41 | a variable is missing exactly when it is required and unset or empty |
| Settings.Validate | src/config/settings.py:37-48 | validation passes exactly when every required variable and the LangSmith key are set; missing variables are reported first, joined by ", " |
| Settings.ImportEnv | src/config/settings.py:52-55 | importing sets tracing to "true", the key to its value or "", and the project to its value or the default; all other variables are unchanged |
| Settings.Config.constructor | src/config/settings.py:26-35 | each field comes from its variable or its default; the endpoint and model name are fixed |
| Settings.ConfigSlot.constructor | src/config/settings.py:19 | before first use there is no configuration |
| Settings.ConfigSlot.Obtain | src/config/settings.py:21-35 | the first call creates the configuration from the environment; later calls return the same object unchanged |
| Settings.ConstructTwice | src/config/settings.py:21-35 | constructing twice gives one object that reflects the first environment |
| Settings.MissingInOrder | src/config/settings.py:39-44 | the missing variables are reported in the order GITHUB_TOKEN, NEO4J_URI, NEO4J_USERNAME, NEO4J_PASSWORD |
| Settings.EmptyEnvironment | src/config/settings.py:39-44 | with nothing set, all four variables are reported, in order, in one message |
| Settings.DefaultsDoNotValidate | src/config/settings.py:32-44 | an unset NEO4J_URI still gets its default in the configuration, but validation fails and names it |
| Settings.UnsetAgree | src/config/settings.py:41 | two environments that agree on which variables are set report the same missing variables |
| Settings.ImportKeepsValidation | src/config/settings.py:46-55 | the import-time LangSmith setup does not change the outcome of validation |
| Settings.ImportIdempotent | src/config/settings.py:52-55 | importing twice is the same as importing once |

## Left out

- Cypher semantics, the Neo4j driver and the language models are not modelled. Their
  replies are parameters of each operation, and the schema is an opaque value.
- Streamlit rendering, the FastAPI routes, the CLI loop, `main.py` and logging are not
  modelled. `src/helpers/llm_initializer.py` is not part of this model.
- Generating thread ids (uuid) and timestamps (datetime) is left out. The store keeps
  messages in the order they were stored, which is the timestamp order only while the
  clock moves forward.
- Concurrent access to the global last-query slot and to the singletons is left out.
- The LangSmith client is left out. A failure to create it is only logged.
- The agent itself is left out. So are `llm_tool`, `create_react_agent`, `MemorySaver`,
  `get_llm` and `get_agent`, because they wrap model and framework calls. The
  `AgentInitializer` singleton's `__new__`/`__init__` is modelled only as a memory table
  that starts empty.
- GraphManager.NormalizeValue: converts only dates that are direct row values. Dates nested
  in lists or maps are kept, as the source keeps them.
- GraphManager.NormalizeRecord: a record is a map, so the order of its keys is not modelled.
- Tools.Str: the text of numbers, lists and dictionaries is the `repr` parameter, not
  Python's formatting.
- PyText.Lower: folds only ASCII letters. PyText.IsDigit accepts only ASCII digits.
  Python's Unicode tables are not modelled.
- ConversationHandler.ConversationStore.GetAllConversations: lists threads in creation
  order. The database returns them in an unspecified order.
- MemoryManager.ToList: the order of a Python set is unspecified. The model proves every
  topic appears exactly once, not where.
- AgentInitializer.AgentInitializer.GetConversationContext: the order of the topics in the
  text is a ghost detail, `ctx`. The contract fixes everything else.
- MemoryManager.ConversationBufferMemory.ExtractConversationTopics: raises IndexError, as
  the source does, when only whitespace follows "my name is", or when a second "my name
  is" follows the first one before any word (`MemoryManager.RepeatedPhraseRaises`). The age `try`/`except` has no
  error path in the model. Once "i am" occurs, the split always has a second piece, so the
  handler cannot trigger.
- MemoryManager.NameAfterPhrase: states the name for a message in which no second "my name
  is" starts before the word ends. Without that condition the statement would be false, since
  the piece before the second phrase can be whitespace only.
- MemoryManager.AgeAfterPhrase: states the age for a message whose "year" after the first
  "i am" goes on with "s old" or " old". Other messages are covered by the contract of
  `MemoryManager.AgeTopics`, in terms of the age text.
- Settings.Config.constructor: reads the environment when it is first constructed. The
  class-level defaults, read once at import, are always overwritten by `__init__`, so they
  are not modelled separately.
- The `@dataclass` equality and `repr` of `Config` are not modelled.
