/** The names under which the chat interface lists stored conversations: a short name
    taken from the first user message, and the selector label that adds the start of
    the thread id. */
module UiRouter {
  import opened PyText
  import opened ConversationHandler

  /** "Cuộc hội thoại mới" ("new conversation"). */
  const DefaultName: string := "Cu\U{1ED9}c h\U{1ED9}i tho\U{1EA1}i m\U{1EDB}i"
  const MaxNameWords: nat := 4
  const MaxNameLength: nat := 30
  const Ellipsis: string := "..."

  /** Python's slice `xs[:n]`. */
  function Take<T>(xs: seq<T>, n: nat): (r: seq<T>)
    ensures |r| <= n && |r| <= |xs| && r == xs[..|r|]
    ensures |xs| <= n ==> r == xs
    ensures |xs| > n ==> |r| == n
  {
    if |xs| <= n then xs else xs[..n]
  }

  /** The name made from a user message: its first four words joined by single spaces,
      cut to 27 characters and "..." when longer than 30. */
  function NameOf(content: string): (name: string)
    ensures |name| <= MaxNameLength
    ensures var full := Join(" ", Take(Words(content), MaxNameWords));
      && (|full| <= MaxNameLength ==> name == full)
      && (|full| > MaxNameLength ==> name == full[..MaxNameLength - |Ellipsis|] + Ellipsis)
  {
    var full := Join(" ", Take(Words(content), MaxNameWords));
    if |full| > MaxNameLength then full[..MaxNameLength - |Ellipsis|] + Ellipsis else full
  }

  /** No message at an index from `i` up to `j` is the user's. */
  predicate NoUserBetween(messages: seq<Entry>, i: int, j: int)
    requires 0 <= i <= j <= |messages|
  {
    forall k :: i <= k < j ==> messages[k].role != UserRole
  }

  /** No message before index `i` is the user's. */
  predicate NoUserBefore(messages: seq<Entry>, i: int)
    requires 0 <= i <= |messages|
  {
    NoUserBetween(messages, 0, i)
  }

  /** The search of `generate_conversation_name` from message `i` on. */
  function NameFrom(messages: seq<Entry>, i: nat): (name: string)
    requires i <= |messages|
    ensures NoUserBetween(messages, i, |messages|) ==> name == DefaultName
    ensures forall j :: i <= j < |messages| && messages[j].role == UserRole && NoUserBetween(messages, i, j) ==>
      name == NameOf(messages[j].content)
    decreases |messages| - i
  {
    if i == |messages| then DefaultName
    else if messages[i].role == UserRole then NameOf(messages[i].content)
    else NameFrom(messages, i + 1)
  }

  /** `generate_conversation_name`: the name of the first user message, or the default
      name when the history is empty or has no user message. */
  function GenerateConversationName(messages: seq<Entry>): (name: string)
    ensures messages == [] ==> name == DefaultName
    ensures (forall j :: 0 <= j < |messages| ==> messages[j].role != UserRole) ==> name == DefaultName
    ensures forall j :: 0 <= j < |messages| && messages[j].role == UserRole && NoUserBefore(messages, j) ==>
      name == NameOf(messages[j].content)
  {
    if messages == [] then DefaultName else NameFrom(messages, 0)
  }

  /** `f"{friendly_name} ({thread_id[:6]})"`. */
  function SelectorLabel(name: string, threadId: string): (display: string)
    ensures StartsWith(display, name)
  {
    name + " (" + Take(threadId, 6) + ")"
  }

  // ---------------------------------------------------------------- properties

  /** Names never exceed 30 characters. */
  lemma NameFitsSelector(messages: seq<Entry>)
    ensures |GenerateConversationName(messages)| <= MaxNameLength
  {
    if messages != [] {
      NameFromFits(messages, 0);
    }
  }

  lemma {:induction false} NameFromFits(messages: seq<Entry>, i: nat)
    requires i <= |messages|
    ensures |NameFrom(messages, i)| <= MaxNameLength
    decreases |messages| - i
  {
    if i < |messages| && messages[i].role != UserRole {
      NameFromFits(messages, i + 1);
    }
  }

  /** Only the first user message counts: whatever follows it leaves the name as it is. */
  lemma FirstUserMessageOnly(before: seq<Entry>, first: Entry, after: seq<Entry>)
    requires first.role == UserRole
    requires forall j :: 0 <= j < |before| ==> before[j].role != UserRole
    ensures GenerateConversationName(before + [first] + after) == NameOf(first.content)
  {
    var ms := before + [first] + after;
    assert ms[|before|] == first;
    assert NoUserBefore(ms, |before|) by {
      forall j | 0 <= j < |before| ensures ms[j].role != UserRole {
        assert ms[j] == before[j];
      }
    }
  }

  /** A user message of no words names the conversation "", not the default name. */
  lemma BlankMessageNamesNothing(content: string)
    requires forall i :: 0 <= i < |content| ==> IsSpace(content[i])
    ensures NameOf(content) == ""
  {
    WordsOfBlank(content);
  }

  /** An untruncated name splits back into the first (at most four) words of the message. */
  lemma NameKeepsFirstWords(content: string)
    requires |Join(" ", Take(Words(content), MaxNameWords))| <= MaxNameLength
    ensures Words(NameOf(content)) == Take(Words(content), MaxNameWords)
  {
    var ws := Take(Words(content), MaxNameWords);
    forall w | w in ws ensures w != "" && forall i :: 0 <= i < |w| ==> !IsSpace(w[i]) {
      assert w in Words(content);
    }
    WordsOfJoin(ws);
  }

  /** A name over 30 characters keeps its first 27 and ends in "...". */
  lemma TruncatedName(content: string)
    requires |Join(" ", Take(Words(content), MaxNameWords))| > MaxNameLength
    ensures |NameOf(content)| == MaxNameLength
    ensures StartsWith(Join(" ", Take(Words(content), MaxNameWords)), NameOf(content)[..MaxNameLength - |Ellipsis|])
    ensures NameOf(content)[MaxNameLength - |Ellipsis|..] == Ellipsis
  {
  }

  /** The name of a stored conversation is the name of its first user input. */
  lemma StoredConversationName(turns: seq<Turn>)
    ensures GenerateConversationName(Flatten(turns))
         == (if turns == [] then DefaultName else NameOf(turns[0].userInput))
  {
    FlattenShape(turns);
    if turns != [] {
      var h := Flatten(turns);
      assert h[0] == Entry(UserRole, turns[0].userInput);
      assert NoUserBefore(h, 0);
    } else {
      assert Flatten(turns) == [];
    }
  }

  /** The label shows the name and at most six characters of the thread id, which begin it. */
  lemma LabelShowsIdPrefix(name: string, threadId: string)
    ensures var shown := SelectorLabel(name, threadId)[|name| + 2..|SelectorLabel(name, threadId)| - 1];
      && StartsWith(threadId, shown)
      && |shown| == (if |threadId| < 6 then |threadId| else 6)
  {
    var shown := Take(threadId, 6);
    var display := SelectorLabel(name, threadId);
    assert display[|name| + 2..|display| - 1] == shown;
  }
}
