/** The agent's per-thread memory table and the conversation context it assembles for the
    system prompt: the recent conversation (at most its last ten lines) and the topics the
    user mentioned, one per line. */
module AgentInitializer {
  import opened PyValues
  import opened PyText
  import opened ConversationHandler
  import opened MemoryManager

  const ConversationHeader: string := "## Previous conversation:"
  const TruncationNote: string := "(Showing most recent conversation turns)"
  const TopicsHeader: string := "\n## Key information mentioned:"
  const LineBreak: string := "\n"
  /** How many lines of a long conversation are kept. */
  const MaxLines: nat := 10

  /** The line of one topic, `f"- {topic}"`. */
  function TopicLine(topic: string): string
  {
    "- " + topic
  }

  function TopicLines(topics: seq<string>): seq<string>
  {
    if |topics| == 0 then [] else TopicLines(topics[..|topics| - 1]) + [TopicLine(topics[|topics| - 1])]
  }

  /** The context parts for the conversation: nothing for an empty conversation; otherwise
      the header and either the text itself or, past ten lines, a note and the last ten. */
  function ConversationPart(conversation: string): seq<string>
  {
    if conversation == "" then []
    else
      var lines := Split(conversation, LineBreak);
      if |lines| > MaxLines then
        [ConversationHeader, TruncationNote, Join(LineBreak, lines[|lines| - MaxLines..])]
      else [ConversationHeader, conversation]
  }

  /** The context parts for the topics: nothing without topics, else the header and a line each. */
  function TopicPart(topics: seq<string>): seq<string>
  {
    if |topics| == 0 then [] else [TopicsHeader] + TopicLines(topics)
  }

  /** The context text `get_conversation_context` returns for a memory context. */
  function ContextText(ctx: MemoryContext): string
  {
    match ctx
    case NoContext => ""
    case Context(conversation, topics) => Join(LineBreak, ConversationPart(conversation) + TopicPart(topics))
  }

  /** What a buffer memory's `get_conversation_context` gives when it succeeds. */
  ghost predicate ContextOf(memory: ConversationBufferMemory, ctx: MemoryContext)
    reads memory, memory.chatMemory
  {
    if memory.chatMemory == null then ctx == NoContext
    else
      && ctx.Context?
      && ctx.conversation == FormatHistory(memory.chatMemory.messages)
      && Topics(memory.chatMemory.messages).Ok?
      && Listing(ctx.topics, Topics(memory.chatMemory.messages).value)
  }

  /** The memory topic extraction of a buffer memory raises. */
  ghost predicate TopicsRaise(memory: ConversationBufferMemory)
    reads memory, memory.chatMemory
  {
    memory.chatMemory != null && Topics(memory.chatMemory.messages).Raise?
  }

  class AgentInitializer {
    /** `memory_manager`: the buffer memory of every thread seen so far. */
    var memoryManager: map<string, ConversationBufferMemory>

    constructor ()
      ensures memoryManager == map[]
    {
      memoryManager := map[];
    }

    /** `get_memory`: the thread's existing memory, or a new one, loaded from the store,
        entered in the table; no other entry changes. */
    method GetMemory(threadId: string, store: ConversationStore, failed: bool)
      returns (memory: ConversationBufferMemory)
      modifies this
      ensures threadId in memoryManager && memory == memoryManager[threadId]
      ensures threadId in old(memoryManager) ==>
        memoryManager == old(memoryManager) && memory == old(memoryManager[threadId])
      ensures threadId !in old(memoryManager) ==>
        && memoryManager == old(memoryManager)[threadId := memory]
        && fresh(memory)
        && memory.threadId == Some(threadId)
        && (memory.chatMemory != null <==> threadId != "")
        && (memory.chatMemory != null ==>
              fresh(memory.chatMemory) && memory.chatMemory.messages == Loaded(threadId, store, failed))
    {
      if threadId !in memoryManager {
        var created := new ConversationBufferMemory(Some(threadId), store, failed);
        memoryManager := memoryManager[threadId := created];
      }
      memory := memoryManager[threadId];
    }

    /** `get_conversation_context`: "" for an empty thread id, without touching the table;
        otherwise the context text of the thread's memory (for a thread seen for the first
        time, a new memory loaded from the store), or the exception its topic
        extraction raised. `ctx` is the memory context the text was built from: the order
        of its topic list is the order the topic set was listed in. */
    method GetConversationContext(threadId: string, store: ConversationStore, failed: bool)
      returns (r: Outcome<string>, ghost ctx: MemoryContext)
      modifies this
      ensures threadId == "" ==> r == Ok("") && memoryManager == old(memoryManager)
      ensures threadId != "" ==> threadId in memoryManager
      ensures threadId != "" && threadId in old(memoryManager) ==> memoryManager == old(memoryManager)
      ensures threadId != "" && threadId !in old(memoryManager) ==>
        && memoryManager == old(memoryManager)[threadId := memoryManager[threadId]]
        && fresh(memoryManager[threadId])
        && memoryManager[threadId].chatMemory != null
        && fresh(memoryManager[threadId].chatMemory)
        && memoryManager[threadId].chatMemory.messages == Loaded(threadId, store, failed)
      ensures threadId != "" ==> (r.Raise? <==> TopicsRaise(memoryManager[threadId]))
      ensures threadId != "" && r.Ok? ==>
        ContextOf(memoryManager[threadId], ctx) && r.value == ContextText(ctx)
    {
      if threadId == "" {
        return Ok(""), NoContext;
      }
      var memory := GetMemory(threadId, store, failed);
      var context := memory.GetConversationContext();
      if context.Raise? {
        return Raise(context.error), NoContext;
      }
      ctx := context.value;
      var text := AssembleContext(context.value);
      r := Ok(text);
    }
  }

  /** The assembly of `context_parts` and its final join. */
  method AssembleContext(ctx: MemoryContext) returns (text: string)
    ensures text == ContextText(ctx)
  {
    if ctx.NoContext? {
      return "";
    }
    var parts: seq<string> := [];
    if ctx.conversation != "" {
      parts := parts + [ConversationHeader];
      var lines := Split(ctx.conversation, LineBreak);
      if |lines| > MaxLines {
        parts := parts + [TruncationNote];
        parts := parts + [Join(LineBreak, lines[|lines| - MaxLines..])];
      } else {
        parts := parts + [ctx.conversation];
      }
    }
    var conversationParts := parts;
    assert conversationParts == ConversationPart(ctx.conversation);
    if |ctx.topics| > 0 {
      parts := parts + [TopicsHeader];
      var i := 0;
      while i < |ctx.topics|
        invariant 0 <= i <= |ctx.topics|
        invariant parts == conversationParts + [TopicsHeader] + TopicLines(ctx.topics[..i])
      {
        assert ctx.topics[..i + 1][..i] == ctx.topics[..i];
        parts := parts + [TopicLine(ctx.topics[i])];
        i := i + 1;
      }
      assert ctx.topics[..i] == ctx.topics;
      assert parts == conversationParts + ([TopicsHeader] + TopicLines(ctx.topics));
    } else {
      assert parts == conversationParts + [];
    }
    text := Join(LineBreak, parts);
  }

  /** Asking twice for the memory of a thread gives the same object, and the second call
      leaves the table as the first left it. */
  method GetMemoryTwice(agent: AgentInitializer, threadId: string, store: ConversationStore, failed: bool)
    returns (first: ConversationBufferMemory, second: ConversationBufferMemory)
    modifies agent
    ensures first == second
    ensures threadId in agent.memoryManager && agent.memoryManager[threadId] == first
    ensures forall t :: t in old(agent.memoryManager) ==> t in agent.memoryManager && agent.memoryManager[t] == old(agent.memoryManager[t])
  {
    first := agent.GetMemory(threadId, store, failed);
    second := agent.GetMemory(threadId, store, failed);
  }

  // ---------------------------------------------------------------- properties of the text

  /** One "- " line per topic, in list order. */
  lemma {:induction false} TopicLinesShape(topics: seq<string>)
    ensures |TopicLines(topics)| == |topics|
    ensures forall i :: 0 <= i < |topics| ==> TopicLines(topics)[i] == "- " + topics[i]
  {
    if |topics| > 0 {
      var init := topics[..|topics| - 1];
      TopicLinesShape(init);
      forall i | 0 <= i < |topics| ensures TopicLines(topics)[i] == "- " + topics[i] {
        if i < |topics| - 1 {
          assert topics[i] == init[i];
        }
      }
    }
  }

  /** The topic block, after the conversation block; nothing after an empty one. */
  function TopicBlock(topics: seq<string>): string
  {
    if |topics| == 0 then "" else LineBreak + Join(LineBreak, TopicPart(topics))
  }

  /** Without a conversation and without topics the context is empty. */
  lemma NothingToSay(ctx: MemoryContext)
    requires ctx.NoContext? || (ctx.conversation == "" && ctx.topics == [])
    ensures ContextText(ctx) == ""
  {
  }

  /** The conversation block comes first and the topic block after it. */
  lemma ContextSplits(conversation: string, topics: seq<string>)
    requires conversation != ""
    ensures ContextText(Context(conversation, topics))
         == Join(LineBreak, ConversationPart(conversation)) + TopicBlock(topics)
  {
    if |topics| > 0 {
      JoinConcat(LineBreak, ConversationPart(conversation), TopicPart(topics));
    } else {
      assert ConversationPart(conversation) + TopicPart(topics) == ConversationPart(conversation);
    }
  }

  /** A conversation of at most ten lines follows the header verbatim. */
  lemma ShortConversationVerbatim(conversation: string, topics: seq<string>)
    requires conversation != "" && |Split(conversation, LineBreak)| <= MaxLines
    ensures ContextText(Context(conversation, topics))
         == ConversationHeader + LineBreak + conversation + TopicBlock(topics)
  {
    ContextSplits(conversation, topics);
  }

  /** The last ten lines of a conversation of more than ten are a suffix of it, at a line
      break. */
  lemma LastLinesAreSuffix(conversation: string)
    requires |Split(conversation, LineBreak)| > MaxLines
    ensures var lines := Split(conversation, LineBreak);
      conversation == Join(LineBreak, lines[..|lines| - MaxLines]) + LineBreak + Join(LineBreak, lines[|lines| - MaxLines..])
  {
    var lines := Split(conversation, LineBreak);
    var n := |lines| - MaxLines;
    JoinSplit(conversation, LineBreak);
    assert lines == lines[..n] + lines[n..];
    JoinConcat(LineBreak, lines[..n], lines[n..]);
  }

  /** The last ten lines, joined again, split back into those ten lines. */
  lemma LastLinesSplitBack(conversation: string)
    requires |Split(conversation, LineBreak)| > MaxLines
    ensures var lines := Split(conversation, LineBreak);
      Split(Join(LineBreak, lines[|lines| - MaxLines..]), LineBreak) == lines[|lines| - MaxLines..]
  {
    var lines := Split(conversation, LineBreak);
    SplitFreeOfChar(conversation, '\n');
    assert LineBreak == ['\n'];
    SplitJoin(lines[|lines| - MaxLines..], '\n');
  }

  /** The conversation block of a conversation of more than ten lines: the header, the
      truncation note and the last ten lines. */
  lemma LongConversationBlock(conversation: string)
    requires |Split(conversation, LineBreak)| > MaxLines
    ensures var lines := Split(conversation, LineBreak);
      Join(LineBreak, ConversationPart(conversation))
      == ConversationHeader + LineBreak + (TruncationNote + LineBreak + Join(LineBreak, lines[|lines| - MaxLines..]))
  {
    assert conversation != "";
    var lines := Split(conversation, LineBreak);
    var tail := Join(LineBreak, lines[|lines| - MaxLines..]);
    assert ConversationPart(conversation) == [ConversationHeader, TruncationNote, tail];
    JoinThree(LineBreak, ConversationHeader, TruncationNote, tail);
  }

  /** A conversation of more than ten lines is cut to its last ten, which are a suffix of
      it, after the header and the truncation note. */
  lemma LongConversationKeepsLastLines(conversation: string, topics: seq<string>)
    requires |Split(conversation, LineBreak)| > MaxLines
    ensures var lines := Split(conversation, LineBreak);
      var tail := Join(LineBreak, lines[|lines| - MaxLines..]);
      && conversation == Join(LineBreak, lines[..|lines| - MaxLines]) + LineBreak + tail
      && Split(tail, LineBreak) == lines[|lines| - MaxLines..]
      && ContextText(Context(conversation, topics))
         == ConversationHeader + LineBreak + (TruncationNote + LineBreak + tail) + TopicBlock(topics)
  {
    LastLinesAreSuffix(conversation);
    LastLinesSplitBack(conversation);
    LongConversationBlock(conversation);
    assert conversation != "";
    ContextSplits(conversation, topics);
  }

  /** The topic block is its header and one "- " line per topic, in list order. */
  lemma TopicBlockShape(topics: seq<string>)
    requires |topics| > 0
    ensures TopicBlock(topics) == LineBreak + TopicsHeader + LineBreak + Join(LineBreak, TopicLines(topics))
    ensures |TopicLines(topics)| == |topics|
    ensures forall i :: 0 <= i < |topics| ==> TopicLines(topics)[i] == "- " + topics[i]
  {
    TopicLinesShape(topics);
    var lines := TopicLines(topics);
    assert TopicPart(topics) == [TopicsHeader] + lines;
    JoinConcat(LineBreak, [TopicsHeader], lines);
    assert Join(LineBreak, [TopicsHeader]) == TopicsHeader;
    assert LineBreak + (TopicsHeader + LineBreak + Join(LineBreak, lines))
      == LineBreak + TopicsHeader + LineBreak + Join(LineBreak, lines);
  }
}
