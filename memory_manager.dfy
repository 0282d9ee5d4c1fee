/** Conversation memory: the chat message history of a thread, loaded once from the
    conversation store and then extended in place, and the buffer memory that formats it
    as text and extracts the topics the user mentioned. */
module MemoryManager {
  import opened PyValues
  import opened PyText
  import opened ConversationHandler

  /** A chat message: the user's (HumanMessage), the assistant's (AIMessage), or any other
      kind that `add_message` may be given. */
  datatype Message =
    | HumanMessage(content: string)
    | AIMessage(content: string)
    | OtherMessage(content: string)

  // ---------------------------------------------------------------- loading

  /** A history entry as a message: user entries become human messages, assistant entries
      AI messages, and entries with any other role are dropped. */
  function Convert(e: Entry): seq<Message>
  {
    if e.role == UserRole then [HumanMessage(e.content)]
    else if e.role == AssistantRole then [AIMessage(e.content)]
    else []
  }

  /** The messages `_load_from_neo4j` builds from a history, in history order. */
  function RoleFilter(history: seq<Entry>): seq<Message>
  {
    if |history| == 0 then []
    else RoleFilter(history[..|history| - 1]) + Convert(history[|history| - 1])
  }

  lemma {:induction false} RoleFilterAppend(a: seq<Entry>, b: seq<Entry>)
    ensures RoleFilter(a + b) == RoleFilter(a) + RoleFilter(b)
    decreases |b|
  {
    if |b| == 0 {
      assert a + b == a;
    } else {
      var init := b[..|b| - 1];
      assert (a + b)[..|a + b| - 1] == a + init;
      assert (a + b)[|a + b| - 1] == b[|b| - 1];
      RoleFilterAppend(a, init);
    }
  }

  /** An entry with a role other than "user" and "assistant" contributes nothing. */
  lemma RoleFilterDropsOthers(a: seq<Entry>, e: Entry, b: seq<Entry>)
    requires e.role != UserRole && e.role != AssistantRole
    ensures RoleFilter(a + [e] + b) == RoleFilter(a + b)
  {
    assert [e][..0] == [];
    assert RoleFilter([e]) == [];
    RoleFilterAppend(a + [e], b);
    RoleFilterAppend(a, [e]);
    assert RoleFilter(a + [e]) == RoleFilter(a);
    RoleFilterAppend(a, b);
  }

  /** A history of user and assistant entries loads as one message per entry, in order. */
  lemma {:induction false} RoleFilterKnownRoles(h: seq<Entry>)
    requires forall i :: 0 <= i < |h| ==> h[i].role == UserRole || h[i].role == AssistantRole
    ensures |RoleFilter(h)| == |h|
    ensures forall i :: 0 <= i < |h| ==>
      RoleFilter(h)[i] == (if h[i].role == UserRole then HumanMessage(h[i].content) else AIMessage(h[i].content))
  {
    if |h| > 0 {
      var init := h[..|h| - 1];
      RoleFilterKnownRoles(init);
      forall i | 0 <= i < |h|
        ensures RoleFilter(h)[i] == (if h[i].role == UserRole then HumanMessage(h[i].content) else AIMessage(h[i].content))
      {
        if i < |h| - 1 {
          assert h[i] == init[i];
        }
      }
    }
  }

  /** A stored conversation loads as alternating human and AI messages: message 2i is the
      i-th user input and message 2i+1 the i-th response. */
  lemma LoadedTurns(turns: seq<Turn>)
    ensures var ms := RoleFilter(Flatten(turns));
      && |ms| == 2 * |turns|
      && forall i :: 0 <= i < |turns| ==>
           ms[2 * i] == HumanMessage(turns[i].userInput) && ms[2 * i + 1] == AIMessage(turns[i].response)
  {
    var h := Flatten(turns);
    FlattenShape(turns);
    forall j | 0 <= j < |h| ensures h[j].role == UserRole || h[j].role == AssistantRole {
      var i := j / 2;
      if j == 2 * i {
        assert h[2 * i] == Entry(UserRole, turns[i].userInput);
      } else {
        assert j == 2 * i + 1;
        assert h[2 * i + 1] == Entry(AssistantRole, turns[i].response);
      }
    }
    RoleFilterKnownRoles(h);
  }

  /** The messages a thread starts with: none for an empty thread id or an unavailable
      store, and otherwise the thread's stored history. */
  function Loaded(threadId: string, store: ConversationStore, failed: bool): seq<Message>
    reads store
  {
    if threadId == "" || failed then [] else RoleFilter(Flatten(store.Messages(threadId)))
  }

  /** `Neo4jChatMessageHistory`. */
  class ChatMessageHistory {
    var threadId: string
    var messages: seq<Message>

    constructor (threadId: string, store: ConversationStore, failed: bool)
      ensures this.threadId == threadId
      ensures messages == Loaded(threadId, store, failed)
    {
      this.threadId := threadId;
      messages := [];
      new;
      Load(store, failed);
    }

    /** `_load_from_neo4j`: nothing for an empty thread id; otherwise the messages become
        the thread's history with only the user and assistant entries kept. */
    method Load(store: ConversationStore, failed: bool)
      modifies this
      ensures threadId == old(threadId)
      ensures threadId == "" ==> messages == old(messages)
      ensures threadId != "" ==> messages == Loaded(threadId, store, failed)
    {
      if threadId == "" {
        return;
      }
      var history := store.GetConversationHistory(threadId, failed);
      var loaded: seq<Message> := [];
      var i := 0;
      while i < |history|
        invariant 0 <= i <= |history|
        invariant loaded == RoleFilter(history[..i])
      {
        assert history[..i + 1][..i] == history[..i];
        var e := history[i];
        if e.role == UserRole {
          loaded := loaded + [HumanMessage(e.content)];
        } else if e.role == AssistantRole {
          loaded := loaded + [AIMessage(e.content)];
        }
        i := i + 1;
      }
      assert history[..i] == history;
      messages := loaded;
    }

    /** `add_message`: appends at the end; the store is not written. */
    method AddMessage(m: Message)
      modifies this
      ensures messages == old(messages) + [m]
      ensures threadId == old(threadId)
    {
      messages := messages + [m];
    }

    method Clear()
      modifies this
      ensures messages == []
      ensures threadId == old(threadId)
    {
      messages := [];
    }

    method GetMessages() returns (ms: seq<Message>)
      ensures ms == messages
    {
      ms := messages;
    }
  }

  /** Appending a message and reading the messages back gives the earlier messages followed
      by that message. */
  method AddThenRead(history: ChatMessageHistory, m: Message) returns (ms: seq<Message>)
    modifies history
    ensures |ms| == |old(history.messages)| + 1 && ms[|ms| - 1] == m
    ensures ms[..|ms| - 1] == old(history.messages)
  {
    history.AddMessage(m);
    ms := history.GetMessages();
  }

  // ---------------------------------------------------------------- formatting

  const HumanPrefix: string := "Human: "
  const AssistantPrefix: string := "Assistant: "

  /** The line of a message in the chat history; other kinds of message have none. */
  function FormatLine(m: Message): seq<string>
  {
    match m
    case HumanMessage(c) => [HumanPrefix + c]
    case AIMessage(c) => [AssistantPrefix + c]
    case OtherMessage(_) => []
  }

  function FormatLines(ms: seq<Message>): seq<string>
  {
    if |ms| == 0 then [] else FormatLines(ms[..|ms| - 1]) + FormatLine(ms[|ms| - 1])
  }

  /** The text `get_chat_history` returns for a list of messages. */
  function FormatHistory(ms: seq<Message>): string
  {
    Join("\n", FormatLines(ms))
  }

  predicate Conversational(ms: seq<Message>)
  {
    forall i :: 0 <= i < |ms| ==> !ms[i].OtherMessage?
  }

  /** Human and AI messages give one line each, in order, with the speaker's prefix. */
  lemma {:induction false} FormatLinesShape(ms: seq<Message>)
    requires Conversational(ms)
    ensures |FormatLines(ms)| == |ms|
    ensures forall i :: 0 <= i < |ms| ==>
      FormatLines(ms)[i] == (if ms[i].HumanMessage? then HumanPrefix else AssistantPrefix) + ms[i].content
  {
    if |ms| > 0 {
      var init := ms[..|ms| - 1];
      FormatLinesShape(init);
      forall i | 0 <= i < |ms|
        ensures FormatLines(ms)[i] == (if ms[i].HumanMessage? then HumanPrefix else AssistantPrefix) + ms[i].content
      {
        if i < |ms| - 1 {
          assert ms[i] == init[i];
        }
      }
    }
  }

  /** When no message content holds a line break, the lines of the chat history are
      exactly the formatted messages. */
  lemma HistoryLines(ms: seq<Message>)
    requires Conversational(ms) && |ms| > 0
    requires forall i :: 0 <= i < |ms| ==> '\n' !in ms[i].content
    ensures Split(FormatHistory(ms), "\n") == FormatLines(ms)
    ensures |Split(FormatHistory(ms), "\n")| == |ms|
  {
    FormatLinesShape(ms);
    var lines := FormatLines(ms);
    forall p | p in lines ensures '\n' !in p {
      var i :| 0 <= i < |lines| && lines[i] == p;
      assert '\n' !in ms[i].content;
    }
    SplitJoin(lines, '\n');
  }

  // ---------------------------------------------------------------- topics

  const Keywords: seq<string> := ["patient", "doctor", "hospital", "disease", "treatment",
                                  "medication", "diagnosis", "symptoms", "insurance", "appointment"]
  const NamePhrase: string := "my name is"
  const AgePhrase: string := "i am"
  const NameTopicPrefix: string := "user's name: "
  const AgeTopicPrefix: string := "user's age: "
  const NamePunctuation: set<char> := {'.', ',', '!', '?'}

  /** A name or age topic: it reads "user's …", so it has an apostrophe at index 4. */
  predicate Personal(t: string)
  {
    |t| > 4 && t[4] == '\''
  }

  /** The healthcare keywords the (lowercased) content mentions. */
  function KeywordTopics(content: string): set<string>
  {
    set k | k in Keywords && Contains(content, k)
  }

  /** The words after the first "my name is", stripped. */
  function NameWords(content: string): seq<string>
    requires Contains(content, NamePhrase)
  {
    SplitMany(content, NamePhrase);
    Words(Strip(Split(content, NamePhrase)[1]))
  }

  /** The name topic: a message saying "my name is" names the first word after it, without
      surrounding punctuation; with no word there the lookup raises IndexError. */
  function NameTopics(content: string): (r: Outcome<set<string>>)
    ensures r.Raise? <==> Contains(content, NamePhrase) && NameWords(content) == []
    ensures r.Raise? ==> r.error == IndexError(ListIndexOutOfRange)
    ensures r.Ok? ==> forall t :: t in r.value ==> Personal(t)
    ensures r.Ok? && !Contains(content, NamePhrase) ==> r.value == {}
  {
    if Contains(content, NamePhrase) then
      var words := NameWords(content);
      if |words| == 0 then Raise(IndexError(ListIndexOutOfRange))
      else Ok({NameTopic(StripChars(words[0], NamePunctuation))})
    else Ok({})
  }

  function NameTopic(name: string): (t: string)
    ensures Personal(t)
  {
    assert (NameTopicPrefix + name)[4] == NameTopicPrefix[4];
    NameTopicPrefix + name
  }

  function AgeTopic(age: string): (t: string)
    ensures Personal(t)
  {
    assert (AgeTopicPrefix + age)[4] == AgeTopicPrefix[4];
    AgeTopicPrefix + age
  }

  /** The message says "i am" and "year(s) old". */
  predicate SaysAge(content: string)
  {
    Contains(content, AgePhrase) && (Contains(content, "years old") || Contains(content, "year old"))
  }

  /** The text between the first "i am" and the next "year", stripped. */
  function AgeText(content: string): string
    requires Contains(content, AgePhrase)
  {
    SplitMany(content, AgePhrase);
    Strip(Split(Split(content, AgePhrase)[1], "year")[0])
  }

  /** The age topic: when the content says "i am" and "year(s) old", the digits of the text
      between the first "i am" and the next "year", if there are any. */
  function AgeTopics(content: string): (r: set<string>)
    ensures forall t :: t in r ==> Personal(t)
    ensures r != {} ==> SaysAge(content)
    ensures SaysAge(content) && Digits(AgeText(content)) != "" ==> r == {AgeTopicPrefix + Digits(AgeText(content))}
    ensures !(SaysAge(content) && Digits(AgeText(content)) != "") ==> r == {}
  {
    if SaysAge(content) then
      var ageNum := Digits(AgeText(content));
      if ageNum != "" then {AgeTopic(ageNum)} else {}
    else {}
  }

  /** The topics of one human message, already lowercased: its keywords, its name and its age. */
  function MessageTopics(content: string): (r: Outcome<set<string>>)
    ensures r.Raise? <==> NameTopics(content).Raise?
    ensures r.Raise? ==> r.error == IndexError(ListIndexOutOfRange)
  {
    var name :- NameTopics(content);
    Ok(KeywordTopics(content) + name + AgeTopics(content))
  }

  /** The topics of a conversation: those of every human message, lowercased; the first
      message whose name lookup raises ends the extraction with that exception. */
  function Topics(ms: seq<Message>): Outcome<set<string>>
  {
    if |ms| == 0 then Ok({})
    else AddTopics(Topics(ms[..|ms| - 1]), ms[|ms| - 1])
  }

  /** One more message: a human message adds its topics or raises; any other message adds
      nothing; an exception already raised stays. */
  function AddTopics(sofar: Outcome<set<string>>, m: Message): Outcome<set<string>>
  {
    var prefix :- sofar;
    if m.HumanMessage? then
      var own :- MessageTopics(Lower(m.content));
      Ok(prefix + own)
    else Ok(prefix)
  }

  lemma TopicsAppend(ms: seq<Message>, m: Message)
    ensures Topics(ms + [m]) == AddTopics(Topics(ms), m)
  {
    assert (ms + [m])[..|ms|] == ms;
  }

  /** A list that holds each element of a set exactly once: `list(set)`. */
  predicate Listing(xs: seq<string>, s: set<string>)
  {
    && (forall x :: x in xs ==> x in s)
    && (forall x :: x in s ==> x in xs)
    && (forall i, j :: 0 <= i < j < |xs| ==> xs[i] != xs[j])
  }

  /** `list(topics)`: the elements of the set in some order, each once. */
  method ToList(s: set<string>) returns (xs: seq<string>)
    ensures Listing(xs, s)
  {
    xs := [];
    var rest := s;
    while rest != {}
      invariant forall x :: x in s ==> x in xs || x in rest
      invariant forall x :: x in xs || x in rest ==> x in s
      invariant forall x :: x in xs ==> x !in rest
      invariant forall i, j :: 0 <= i < j < |xs| ==> xs[i] != xs[j]
      decreases |rest|
    {
      var x :| x in rest;
      xs := xs + [x];
      rest := rest - {x};
    }
  }

  /** The keyword loop of `_extract_conversation_topics` for one message. */
  method KeywordsOf(content: string) returns (found: set<string>)
    ensures found == KeywordTopics(content)
  {
    found := {};
    var j := 0;
    while j < |Keywords|
      invariant 0 <= j <= |Keywords|
      invariant found == set k | k in Keywords[..j] && Contains(content, k)
    {
      assert Keywords[..j + 1] == Keywords[..j] + [Keywords[j]];
      if Contains(content, Keywords[j]) {
        found := found + {Keywords[j]};
      }
      j := j + 1;
    }
    assert Keywords[..j] == Keywords;
  }

  /** The body of the message loop of `_extract_conversation_topics` for one lowercased
      human message: keywords, then the name, then the age. */
  method TopicsOf(content: string) returns (r: Outcome<set<string>>)
    ensures r == MessageTopics(content)
  {
    var keywords := KeywordsOf(content);
    var name: set<string> := {};
    if Contains(content, NamePhrase) {
      var words := NameWords(content);
      if |words| == 0 {
        return Raise(IndexError(ListIndexOutOfRange));
      }
      name := {NameTopic(StripChars(words[0], NamePunctuation))};
    }
    assert NameTopics(content) == Ok(name);
    var age: set<string> := {};
    if SaysAge(content) {
      var ageNum := Digits(AgeText(content));
      if ageNum != "" {
        age := {AgeTopic(ageNum)};
      }
    }
    assert age == AgeTopics(content);
    r := Ok(keywords + name + age);
  }

  /** Once a prefix of the messages raises, the whole extraction raises the same way. */
  lemma {:induction false} TopicsRaisePersists(ms: seq<Message>, i: nat)
    requires i <= |ms| && Topics(ms[..i]).Raise?
    ensures Topics(ms) == Topics(ms[..i])
    decreases |ms| - i
  {
    if i < |ms| {
      assert ms[..i + 1][..i] == ms[..i];
      assert Topics(ms[..i + 1]) == Topics(ms[..i]);
      TopicsRaisePersists(ms, i + 1);
    } else {
      assert ms[..i] == ms;
    }
  }

  /** What `get_conversation_context` returns: `{}` without chat memory, and otherwise
      the formatted history and the topic list. */
  datatype MemoryContext =
    | NoContext
    | Context(conversation: string, topics: seq<string>)

  /** `ConversationBufferMemory`. */
  class ConversationBufferMemory {
    var threadId: Option<string>
    var chatMemory: ChatMessageHistory?

    /** A chat history is created, and loaded, only for a non-empty thread id. */
    constructor (threadId: Option<string>, store: ConversationStore, failed: bool)
      ensures this.threadId == threadId
      ensures chatMemory != null <==> threadId.Some? && threadId.value != ""
      ensures chatMemory != null ==>
        && fresh(chatMemory)
        && chatMemory.threadId == threadId.value
        && chatMemory.messages == Loaded(threadId.value, store, failed)
    {
      this.threadId := threadId;
      if threadId.Some? && threadId.value != "" {
        chatMemory := new ChatMessageHistory(threadId.value, store, failed);
      } else {
        chatMemory := null;
      }
    }

    /** `set_thread_id`: replaces the id and reloads, always creating a chat history. */
    method SetThreadId(threadId: string, store: ConversationStore, failed: bool)
      modifies this
      ensures this.threadId == Some(threadId)
      ensures chatMemory != null && fresh(chatMemory)
      ensures chatMemory.threadId == threadId && chatMemory.messages == Loaded(threadId, store, failed)
    {
      this.threadId := Some(threadId);
      chatMemory := new ChatMessageHistory(threadId, store, failed);
    }

    /** `get_chat_history`: one "Human: …" or "Assistant: …" line per human or AI message,
        other messages skipped; "" without chat memory. */
    method GetChatHistory() returns (text: string)
      ensures text == (if chatMemory == null then "" else FormatHistory(chatMemory.messages))
    {
      if chatMemory == null {
        return "";
      }
      var ms := chatMemory.messages;
      var lines: seq<string> := [];
      var i := 0;
      while i < |ms|
        invariant 0 <= i <= |ms|
        invariant lines == FormatLines(ms[..i])
      {
        assert ms[..i + 1][..i] == ms[..i];
        if ms[i].HumanMessage? {
          lines := lines + [HumanPrefix + ms[i].content];
        } else if ms[i].AIMessage? {
          lines := lines + [AssistantPrefix + ms[i].content];
        }
        i := i + 1;
      }
      assert ms[..i] == ms;
      text := Join("\n", lines);
    }

    /** `_extract_conversation_topics`: the topics of the human messages as a list without
        repetitions, `[]` without chat memory, or the IndexError of a name lookup. */
    method ExtractConversationTopics() returns (r: Outcome<seq<string>>)
      ensures chatMemory == null ==> r == Ok([])
      ensures chatMemory != null ==> (r.Raise? <==> Topics(chatMemory.messages).Raise?)
      ensures chatMemory != null && r.Raise? ==> r.error == Topics(chatMemory.messages).error
      ensures chatMemory != null && r.Ok? ==> Listing(r.value, Topics(chatMemory.messages).value)
    {
      if chatMemory == null {
        return Ok([]);
      }
      var ms := chatMemory.messages;
      var topics: set<string> := {};
      var i := 0;
      while i < |ms|
        invariant 0 <= i <= |ms|
        invariant Topics(ms[..i]) == Ok(topics)
      {
        assert ms[..i] + [ms[i]] == ms[..i + 1];
        TopicsAppend(ms[..i], ms[i]);
        if ms[i].HumanMessage? {
          var own := TopicsOf(Lower(ms[i].content));
          if own.Raise? {
            TopicsRaisePersists(ms, i + 1);
            return Raise(own.error);
          }
          topics := topics + own.value;
        }
        i := i + 1;
      }
      assert ms[..i] == ms;
      var list := ToList(topics);
      r := Ok(list);
    }

    /** `get_conversation_context`: `{}` without chat memory; otherwise the formatted
        history and the topic list, or the exception topic extraction raised. */
    method GetConversationContext() returns (r: Outcome<MemoryContext>)
      ensures chatMemory == null ==> r == Ok(NoContext)
      ensures chatMemory != null ==> (r.Raise? <==> Topics(chatMemory.messages).Raise?)
      ensures chatMemory != null && r.Raise? ==> r.error == Topics(chatMemory.messages).error
      ensures chatMemory != null && r.Ok? ==>
        && r.value.Context?
        && r.value.conversation == FormatHistory(chatMemory.messages)
        && Listing(r.value.topics, Topics(chatMemory.messages).value)
    {
      if chatMemory == null {
        return Ok(NoContext);
      }
      var conversation := GetChatHistory();
      var topics := ExtractConversationTopics();
      if topics.Raise? {
        return Raise(topics.error);
      }
      r := Ok(Context(conversation, topics.value));
    }
  }

  // ---------------------------------------------------------------- topic properties

  /** No keyword reads like a name or age topic. */
  lemma KeywordNotPersonal(k: string)
    requires k in Keywords
    ensures !Personal(k)
  {
  }

  /** In one message, a keyword is a topic exactly when the content mentions it: name
      and age topics are never keywords. */
  lemma MessageKeywordIff(content: string, k: string)
    requires MessageTopics(content).Ok? && k in Keywords
    ensures k in MessageTopics(content).value <==> Contains(content, k)
  {
    KeywordNotPersonal(k);
    var name := NameTopics(content).value;
    assert MessageTopics(content).value == KeywordTopics(content) + name + AgeTopics(content);
    assert k !in name && k !in AgeTopics(content);
  }

  /** The user's message `m` mentions `k`, once lowercased. */
  predicate Mentions(m: Message, k: string)
  {
    m.HumanMessage? && Contains(Lower(m.content), k)
  }

  /** Some user message of `ms` mentions `k`. */
  predicate MentionedIn(ms: seq<Message>, k: string)
  {
    exists i :: 0 <= i < |ms| && Mentions(ms[i], k)
  }

  lemma MentionedSnoc(ms: seq<Message>, k: string)
    requires |ms| > 0
    ensures MentionedIn(ms, k) <==> MentionedIn(ms[..|ms| - 1], k) || Mentions(ms[|ms| - 1], k)
  {
    var init := ms[..|ms| - 1];
    if MentionedIn(init, k) {
      var i :| 0 <= i < |init| && Mentions(init[i], k);
      assert ms[i] == init[i];
    }
    if MentionedIn(ms, k) {
      var i :| 0 <= i < |ms| && Mentions(ms[i], k);
      if i < |ms| - 1 {
        assert init[i] == ms[i];
      }
    }
  }

  /** The topics of a conversation are those before its last message and the last message's own. */
  lemma TopicsSnoc(ms: seq<Message>)
    requires |ms| > 0 && Topics(ms).Ok?
    ensures Topics(ms[..|ms| - 1]).Ok?
    ensures ms[|ms| - 1].HumanMessage? ==> MessageTopics(Lower(ms[|ms| - 1].content)).Ok?
    ensures Topics(ms).value == Topics(ms[..|ms| - 1]).value
      + (if ms[|ms| - 1].HumanMessage? then MessageTopics(Lower(ms[|ms| - 1].content)).value else {})
  {
  }

  /** A keyword is a topic of the conversation exactly when the lowercased content of some
      human message mentions it; other messages do not count. */
  lemma {:induction false} KeywordTopicIff(ms: seq<Message>, k: string)
    requires Topics(ms).Ok? && k in Keywords
    ensures k in Topics(ms).value <==> MentionedIn(ms, k)
  {
    if |ms| > 0 {
      var init := ms[..|ms| - 1];
      var last := ms[|ms| - 1];
      TopicsSnoc(ms);
      KeywordTopicIff(init, k);
      MentionedSnoc(ms, k);
      if last.HumanMessage? {
        MessageKeywordIff(Lower(last.content), k);
      }
    }
  }

  /** A message that is not the user's contributes no topic, wherever it is. */
  lemma {:induction false} NonHumanIgnored(a: seq<Message>, m: Message, b: seq<Message>)
    requires !m.HumanMessage?
    ensures Topics(a + [m] + b) == Topics(a + b)
    decreases |b|
  {
    if |b| == 0 {
      assert a + [m] + b == a + [m];
      assert a + b == a;
      TopicsAppend(a, m);
    } else {
      var init := b[..|b| - 1];
      var last := b[|b| - 1];
      assert a + [m] + b == (a + [m] + init) + [last];
      assert a + b == (a + init) + [last];
      TopicsAppend(a + [m] + init, last);
      TopicsAppend(a + init, last);
      NonHumanIgnored(a, m, init);
    }
  }

  /** When only whitespace follows the first "my name is", there is no name to read and
      the message's topic extraction raises IndexError. */
  lemma NameWithoutWordRaises(content: string)
    requires Contains(content, NamePhrase)
    requires forall i :: Find(content, NamePhrase) + |NamePhrase| <= i < |content| ==> IsSpace(content[i])
    ensures MessageTopics(content) == Raise(IndexError(ListIndexOutOfRange))
  {
    var k := Find(content, NamePhrase);
    SecondPiece(content, NamePhrase);
    var piece := Split(content, NamePhrase)[1];
    forall i | 0 <= i < |piece| ensures IsSpace(piece[i]) {
      assert piece[i] == content[k + |NamePhrase| + i];
    }
    var stripped := Strip(piece);
    StripBlank(piece);
    WordsOfBlank(stripped);
  }

  /** The name topic is the first word after the first "my name is", without the
      punctuation around it: for `pre + "my name is" + sep + w + tail` where the first
      phrase is the one after `pre`, `sep` is whitespace, `w` a word and `tail` empty or
      starting with whitespace, and no later "my name is" starts before `w` ends. */
  lemma NameAfterPhrase(pre: string, sep: string, w: string, tail: string)
    requires Find(pre + NamePhrase + sep + w + tail, NamePhrase) == |pre|
    requires forall i :: 0 <= i < |sep| ==> IsSpace(sep[i])
    requires w != "" && forall i :: 0 <= i < |w| ==> !IsSpace(w[i])
    requires tail == "" || IsSpace(tail[0])
    requires forall j :: 0 <= j < |sep| + |w| ==> !OccursAt(sep + w + tail, NamePhrase, j)
    ensures NameTopics(pre + NamePhrase + sep + w + tail) == Ok({NameTopicPrefix + StripChars(w, NamePunctuation)})
  {
    WordAfterSeparator(pre, NamePhrase, sep, w, tail);
  }

  /** When a second "my name is" follows the first one after a space, the piece between
      them is that space, so there is no word to read and the lookup raises IndexError. */
  lemma RepeatedPhraseRaises()
    ensures NameTopics("my name is my name is bob") == Raise(IndexError(ListIndexOutOfRange))
  {
    RepeatedPhrasePiece();
    StripBlank(" ");
    assert NameWords("my name is my name is bob") == Words("");
  }

  /** The piece between the two phrases of "my name is my name is bob" is one space. */
  lemma RepeatedPhrasePiece()
    ensures |Split("my name is my name is bob", NamePhrase)| > 1
    ensures Split("my name is my name is bob", NamePhrase)[1] == " "
  {
    assert "my name is my name is bob" == NamePhrase + " " + NamePhrase + " bob";
    var rest := " " + NamePhrase + " bob";
    assert rest[0..|NamePhrase|][0] == ' ' != NamePhrase[0];
    PieceBetween(NamePhrase, " ", " bob");
  }

  /** A user message that names the user puts the name topic among its topics. */
  lemma NameInMessage(pre: string, sep: string, w: string, tail: string)
    requires Find(pre + NamePhrase + sep + w + tail, NamePhrase) == |pre|
    requires forall i :: 0 <= i < |sep| ==> IsSpace(sep[i])
    requires w != "" && forall i :: 0 <= i < |w| ==> !IsSpace(w[i])
    requires tail == "" || IsSpace(tail[0])
    requires forall j :: 0 <= j < |sep| + |w| ==> !OccursAt(sep + w + tail, NamePhrase, j)
    ensures MessageTopics(pre + NamePhrase + sep + w + tail).Ok?
    ensures NameTopicPrefix + StripChars(w, NamePunctuation) in MessageTopics(pre + NamePhrase + sep + w + tail).value
  {
    NameAfterPhrase(pre, sep, w, tail);
  }

  /** The topics of each user message are among the topics of a conversation whose
      extraction completes. */
  lemma {:induction false} MessageTopicsInTopics(ms: seq<Message>, i: nat)
    requires Topics(ms).Ok? && i < |ms| && ms[i].HumanMessage?
    ensures MessageTopics(Lower(ms[i].content)).Ok?
    ensures MessageTopics(Lower(ms[i].content)).value <= Topics(ms).value
  {
    var init := ms[..|ms| - 1];
    TopicsSnoc(ms);
    if i < |ms| - 1 {
      assert init[i] == ms[i];
      MessageTopicsInTopics(init, i);
    }
  }

  /** A user message saying "my name is" followed by a word puts that name among the
      topics of the conversation, when the extraction completes. */
  lemma NameInConversation(ms: seq<Message>, i: nat, pre: string, sep: string, w: string, tail: string)
    requires Topics(ms).Ok? && i < |ms| && ms[i].HumanMessage?
    requires Lower(ms[i].content) == pre + NamePhrase + sep + w + tail
    requires Find(pre + NamePhrase + sep + w + tail, NamePhrase) == |pre|
    requires forall k :: 0 <= k < |sep| ==> IsSpace(sep[k])
    requires w != "" && forall k :: 0 <= k < |w| ==> !IsSpace(w[k])
    requires tail == "" || IsSpace(tail[0])
    requires forall j :: 0 <= j < |sep| + |w| ==> !OccursAt(sep + w + tail, NamePhrase, j)
    ensures NameTopicPrefix + StripChars(w, NamePunctuation) in Topics(ms).value
  {
    NameInMessage(pre, sep, w, tail);
    MessageTopicsInTopics(ms, i);
  }

  /** No "i am" starts in `mid + "year" + more` before the end of that "year" when `mid`
      holds none: one overlapping "year" would need an 'i' or a 'y' where there is none. */
  lemma NoAgePhraseBeforeYear(mid: string, more: string)
    requires !Contains(mid, AgePhrase)
    ensures forall j :: 0 <= j < |mid| + 4 ==> !OccursAt(mid + "year" + more, AgePhrase, j)
  {
    var s := mid + "year" + more;
    assert s[..|mid|] == mid;
    assert s[|mid|..|mid| + 4] == "year";
    forall j | 0 <= j < |mid| + 4 ensures !OccursAt(s, AgePhrase, j) {
      if j + 4 > |s| {
      } else if j + 4 <= |mid| {
        assert s[j..j + 4] == s[..|mid|][j..j + 4];
        assert !OccursAt(mid, AgePhrase, j);
      } else if j <= |mid| {
        assert s[j..j + 4][|mid| - j] == s[|mid|] == s[|mid|..|mid| + 4][0];
      } else {
        assert s[j..j + 4][0] == s[j] == s[|mid|..|mid| + 4][j - |mid|];
      }
    }
  }

  /** In `mid + "year" + t`, the first "year" is the one after `mid` when `mid` holds
      none: one overlapping it would need a 'y' where "year" has none. */
  lemma FirstYearAfter(mid: string, t: string)
    requires !Contains(mid, "year")
    ensures Find(mid + "year" + t, "year") == |mid|
    ensures Split(mid + "year" + t, "year")[0] == mid
  {
    var s := mid + "year" + t;
    assert s[..|mid|] == mid;
    assert s[|mid|..|mid| + 4] == "year";
    forall j | 0 <= j < |mid| ensures !OccursAt(s, "year", j) {
      if j + 4 <= |mid| {
        assert s[j..j + 4] == s[..|mid|][j..j + 4];
        assert !OccursAt(mid, "year", j);
      } else {
        assert s[j..j + 4][|mid| - j] == s[|mid|] == s[|mid|..|mid| + 4][0];
      }
    }
    FirstPiece(s, "year", |mid|);
  }

  /** The age topic holds the digits of the text between the first "i am" and the next
      "year" of a message that goes on with "years old" or "year old" there: for
      `pre + "i am" + mid + "year" + more`, "i am about 30 years old" giving "30". */
  lemma AgeAfterPhrase(pre: string, mid: string, more: string)
    requires Find(pre + AgePhrase + mid + "year" + more, AgePhrase) == |pre|
    requires !Contains(mid, AgePhrase) && !Contains(mid, "year")
    requires StartsWith(more, "s old") || StartsWith(more, " old")
    ensures AgeTopics(pre + AgePhrase + mid + "year" + more)
      == if Digits(mid) != "" then {AgeTopicPrefix + Digits(mid)} else {}
  {
    var content := pre + AgePhrase + mid + "year" + more;
    AgeTextAfterPhrase(pre, mid, more);
    DigitsOfStrip(mid);
    YearsOldSaid(pre + AgePhrase + mid, more);
    assert SaysAge(content);
    assert Digits(AgeText(content)) == Digits(mid);
  }

  /** The text between the first "i am" and the next "year" of
      `pre + "i am" + mid + "year" + more` is `mid`, stripped. */
  lemma AgeTextAfterPhrase(pre: string, mid: string, more: string)
    requires Find(pre + AgePhrase + mid + "year" + more, AgePhrase) == |pre|
    requires !Contains(mid, AgePhrase) && !Contains(mid, "year")
    ensures Contains(pre + AgePhrase + mid + "year" + more, AgePhrase)
    ensures AgeText(pre + AgePhrase + mid + "year" + more) == Strip(mid)
  {
    assert pre + AgePhrase + mid + "year" + more == pre + AgePhrase + (mid + "year") + more;
    NoAgePhraseBeforeYear(mid, more);
    var t := PieceAfterSeparator(pre, AgePhrase, mid + "year", more);
    assert mid + "year" + t == (mid + "year") + t;
    FirstYearAfter(mid, t);
  }

  /** "year" followed by "s old" or " old" says "years old" or "year old". */
  lemma YearsOldSaid(a: string, more: string)
    requires StartsWith(more, "s old") || StartsWith(more, " old")
    ensures Contains(a + "year" + more, "years old") || Contains(a + "year" + more, "year old")
  {
    var s := a + "year" + more;
    if StartsWith(more, "s old") {
      assert s[|a|..|a| + 9] == "year" + more[..5];
      assert OccursAt(s, "years old", |a|);
    } else {
      assert s[|a|..|a| + 8] == "year" + more[..4];
      assert OccursAt(s, "year old", |a|);
    }
  }

  /** A user message that says its age, in the form `AgeTopics` reads, puts the age
      among the topics of the conversation, when the extraction completes. */
  lemma AgeInConversation(ms: seq<Message>, i: nat)
    requires Topics(ms).Ok? && i < |ms| && ms[i].HumanMessage?
    requires SaysAge(Lower(ms[i].content)) && Digits(AgeText(Lower(ms[i].content))) != ""
    ensures AgeTopicPrefix + Digits(AgeText(Lower(ms[i].content))) in Topics(ms).value
  {
    MessageTopicsInTopics(ms, i);
  }

  /** With "years old" in the message, an age made only of digits between the first "i am"
      and the next "year" is the age topic. */
  lemma AgeFromDigits(content: string)
    requires Contains(content, AgePhrase) && Contains(content, "years old")
    requires AgeText(content) != "" && forall i :: 0 <= i < |AgeText(content)| ==> IsDigit(AgeText(content)[i])
    ensures AgeTopics(content) == {AgeTopicPrefix + AgeText(content)}
  {
    DigitsOfDigits(AgeText(content));
  }
}
