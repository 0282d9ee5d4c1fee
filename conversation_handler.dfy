/** The conversation store: one Conversation per thread id, each holding the messages
    (a user input and the assistant's response) stored for it, in the order they were
    stored. The database statements are not modelled; each operation receives whether the
    database raised (`failed`), and follows the handler's return convention for that case. */
module ConversationHandler {

  /** One stored Message node: the user's input and the assistant's response. */
  datatype Turn = Turn(userInput: string, response: string)

  /** One history entry, the dictionary `{"role": role, "content": content}`. */
  datatype Entry = Entry(role: string, content: string)

  const UserRole: string := "user"
  const AssistantRole: string := "assistant"

  /** The history of a conversation: for every stored message, a user entry with its input
      followed by an assistant entry with its response. */
  function Flatten(turns: seq<Turn>): (h: seq<Entry>)
  {
    if |turns| == 0 then []
    else Flatten(turns[..|turns| - 1])
         + [Entry(UserRole, turns[|turns| - 1].userInput), Entry(AssistantRole, turns[|turns| - 1].response)]
  }

  /** Two entries per message, and entries 2i and 2i+1 are message i's input and response. */
  lemma {:induction false} FlattenShape(turns: seq<Turn>)
    ensures |Flatten(turns)| == 2 * |turns|
    ensures forall i :: 0 <= i < |turns| ==>
      && Flatten(turns)[2 * i] == Entry(UserRole, turns[i].userInput)
      && Flatten(turns)[2 * i + 1] == Entry(AssistantRole, turns[i].response)
  {
    if |turns| > 0 {
      var init := turns[..|turns| - 1];
      FlattenShape(init);
      forall i | 0 <= i < |turns|
        ensures Flatten(turns)[2 * i] == Entry(UserRole, turns[i].userInput)
        ensures Flatten(turns)[2 * i + 1] == Entry(AssistantRole, turns[i].response)
      {
        if i < |turns| - 1 {
          assert turns[i] == init[i];
        }
      }
    }
  }

  /** Storing one more message adds its two entries at the end of the history. */
  lemma FlattenAppend(turns: seq<Turn>, t: Turn)
    ensures Flatten(turns + [t]) == Flatten(turns) + [Entry(UserRole, t.userInput), Entry(AssistantRole, t.response)]
  {
    assert (turns + [t])[..|turns|] == turns;
  }

  /** The graph's Conversation and Message nodes. */
  class ConversationStore {
    /** The thread ids of the Conversation nodes, in the order they were created. */
    var threads: seq<string>
    /** The messages of each conversation, in the order they were stored. */
    var turns: map<string, seq<Turn>>

    /** Every conversation appears once, and has at least one message: a conversation is
        only ever created together with its first message. */
    ghost predicate Valid()
      reads this
    {
      && Distinct(threads)
      && (forall t :: t in turns <==> t in threads)
      && (forall t :: t in turns ==> |turns[t]| > 0)
    }

    /** The messages stored for a thread; none for an unknown thread. */
    function Messages(threadId: string): seq<Turn>
      reads this
    {
      if threadId in turns then turns[threadId] else []
    }

    constructor ()
      ensures Valid() && threads == [] && turns == map[]
    {
      threads := [];
      turns := map[];
    }

    /** `store_conversation`: merges the thread's conversation and adds one message to it;
        a database failure is logged and changes nothing. It never raises. */
    method StoreConversation(threadId: string, userInput: string, response: string, failed: bool)
      requires Valid()
      modifies this
      ensures Valid()
      ensures failed ==> threads == old(threads) && turns == old(turns)
      ensures !failed ==> Messages(threadId) == old(Messages(threadId)) + [Turn(userInput, response)]
      ensures !failed ==> threads == old(threads) + (if threadId in old(threads) then [] else [threadId])
      ensures forall t :: t != threadId ==> Messages(t) == old(Messages(t))
    {
      if failed {
        return;
      }
      if threadId !in turns {
        threads := threads + [threadId];
      }
      turns := turns[threadId := Messages(threadId) + [Turn(userInput, response)]];
    }

    /** `get_conversation_history`: one user and one assistant entry per stored message, in
        storage order; `[]` when the database fails. */
    method GetConversationHistory(threadId: string, failed: bool) returns (history: seq<Entry>)
      ensures history == (if failed then [] else Flatten(Messages(threadId)))
    {
      if failed {
        return [];
      }
      var records := Messages(threadId);
      history := [];
      var i := 0;
      while i < |records|
        invariant 0 <= i <= |records|
        invariant history == Flatten(records[..i])
      {
        assert records[..i + 1][..i] == records[..i];
        history := history + [Entry(UserRole, records[i].userInput), Entry(AssistantRole, records[i].response)];
        i := i + 1;
      }
      assert records[..i] == records;
    }

    /** `get_all_conversations`: the thread id of every conversation, `[]` when the
        database fails. */
    method GetAllConversations(failed: bool) returns (ids: seq<string>)
      ensures ids == (if failed then [] else threads)
    {
      if failed {
        return [];
      }
      ids := [];
      var i := 0;
      while i < |threads|
        invariant 0 <= i <= |threads|
        invariant ids == threads[..i]
      {
        ids := ids + [threads[i]];
        i := i + 1;
      }
    }

    /** `delete_conversation`: removes the conversation and its messages and answers True;
        a database failure changes nothing and answers False. */
    method DeleteConversation(threadId: string, failed: bool) returns (ok: bool)
      requires Valid()
      modifies this
      ensures Valid()
      ensures ok == !failed
      ensures failed ==> threads == old(threads) && turns == old(turns)
      ensures !failed ==> Messages(threadId) == [] && threadId !in threads
      ensures !failed ==> forall t :: t in old(threads) && t != threadId ==> t in threads
      ensures forall t :: t != threadId ==> Messages(t) == old(Messages(t))
    {
      if failed {
        return false;
      }
      RemoveDistinct(threads, threadId);
      threads := Remove(threads, threadId);
      turns := map t | t in turns && t != threadId :: turns[t];
      ok := true;
    }
  }

  /** The sequence without the given element, the others kept in order. */
  function Remove(xs: seq<string>, x: string): (r: seq<string>)
    ensures x !in r
    ensures forall y :: y in r <==> y in xs && y != x
  {
    if |xs| == 0 then []
    else if xs[0] == x then Remove(xs[1..], x)
    else [xs[0]] + Remove(xs[1..], x)
  }

  predicate Distinct(xs: seq<string>)
  {
    forall i, j :: 0 <= i < j < |xs| ==> xs[i] != xs[j]
  }

  /** Removing an element from a sequence without repetitions leaves none. */
  lemma {:induction false} RemoveDistinct(xs: seq<string>, x: string)
    requires Distinct(xs)
    ensures Distinct(Remove(xs, x))
  {
    if |xs| > 0 {
      assert Distinct(xs[1..]) by {
        forall i, j | 0 <= i < j < |xs[1..]| ensures xs[1..][i] != xs[1..][j] {
          assert xs[1..][i] == xs[i + 1] && xs[1..][j] == xs[j + 1];
        }
      }
      RemoveDistinct(xs[1..], x);
      if xs[0] != x {
        var rest := Remove(xs[1..], x);
        assert xs[0] !in xs[1..];
        assert xs[0] !in rest;
        var r := [xs[0]] + rest;
        forall i, j | 0 <= i < j < |r| ensures r[i] != r[j] {
          if i == 0 {
            assert r[j] == rest[j - 1];
            assert rest[j - 1] in rest;
          } else {
            assert r[i] == rest[i - 1] && r[j] == rest[j - 1];
          }
        }
      }
    }
  }

  // ---------------------------------------------------------------- round trips

  /** Storing a message and reading the history back gives the earlier history followed by
      the new input and response; other threads' histories are unchanged. */
  method StoreThenRead(store: ConversationStore, threadId: string, userInput: string, response: string)
    returns (before: seq<Entry>, after: seq<Entry>)
    requires store.Valid()
    modifies store
    ensures after == before + [Entry(UserRole, userInput), Entry(AssistantRole, response)]
    ensures |after| == 2 * |store.Messages(threadId)|
  {
    before := store.GetConversationHistory(threadId, false);
    store.StoreConversation(threadId, userInput, response, false);
    after := store.GetConversationHistory(threadId, false);
    FlattenAppend(old(store.Messages(threadId)), Turn(userInput, response));
    FlattenShape(store.Messages(threadId));
  }

  /** After a successful delete the thread's history is empty and the thread is no longer
      listed. */
  method DeleteThenRead(store: ConversationStore, threadId: string)
    returns (history: seq<Entry>, ids: seq<string>)
    requires store.Valid()
    modifies store
    ensures history == [] && threadId !in ids
  {
    var _ := store.DeleteConversation(threadId, false);
    history := store.GetConversationHistory(threadId, false);
    ids := store.GetAllConversations(false);
  }
}
