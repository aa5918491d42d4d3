/** The message list sent to the chat model: a system message, the last ten
    messages of the chat history, and the prompt as a user message unless the
    history shown already holds it. */
module Chat {

  /** The `role` of a chat message. */
  datatype Role = System | User | Assistant

  datatype Message = Message(role: Role, content: string)

  function SystemContent(): string
  {
    "You are a helpful assistant that can analyze transcripts."
  }

  /** At most this many history messages are sent. */
  const HistoryWindow: nat := 10

  /** `chat_history[-10:]` */
  function RecentHistory(history: seq<Message>): (r: seq<Message>)
    ensures |r| == if |history| < HistoryWindow then |history| else HistoryWindow
    ensures r == history[|history| - |r|..]
  {
    if |history| < HistoryWindow then history else history[|history| - HistoryWindow..]
  }

  predicate UserSaid(messages: seq<Message>, prompt: string)
  {
    exists i :: 0 <= i < |messages| && messages[i] == Message(User, prompt)
  }

  /** The contents of the user messages, in order. */
  function UserContents(messages: seq<Message>): seq<string>
  {
    if messages == [] then []
    else
      var rest := UserContents(messages[1..]);
      if messages[0].role == User then [messages[0].content] + rest else rest
  }

  /** A content is listed exactly when some user message has it. */
  lemma {:induction false} UserContentsIff(messages: seq<Message>, prompt: string)
    ensures prompt in UserContents(messages) <==> UserSaid(messages, prompt)
  {
    if messages != [] {
      UserContentsIff(messages[1..], prompt);
      if UserSaid(messages[1..], prompt) {
        var i :| 0 <= i < |messages| - 1 && messages[1..][i] == Message(User, prompt);
        assert messages[i + 1] == Message(User, prompt);
      }
      if UserSaid(messages, prompt) && messages[0] != Message(User, prompt) {
        var i :| 0 <= i < |messages| && messages[i] == Message(User, prompt);
        assert messages[1..][i - 1] == Message(User, prompt);
      }
    }
  }

  /** The system message followed by the recent history. */
  function Preamble(history: seq<Message>): seq<Message>
  {
    [Message(System, SystemContent())] + RecentHistory(history)
  }

  /** `prepare_messages`: the prompt is appended only when no user message of the
      list already has it as content. */
  function PrepareMessages(history: seq<Message>, prompt: string): seq<Message>
  {
    var messages := Preamble(history);
    if prompt !in UserContents(messages) then messages + [Message(User, prompt)] else messages
  }

  /** The system message is not a user message, so the preamble holds the prompt
      exactly when the recent history does. */
  lemma PreambleUserSaid(history: seq<Message>, prompt: string)
    ensures UserSaid(Preamble(history), prompt) <==> UserSaid(RecentHistory(history), prompt)
  {
    var recent := RecentHistory(history);
    var messages := Preamble(history);
    assert |messages| == |recent| + 1;
    assert forall i :: 0 <= i < |recent| ==> messages[i + 1] == recent[i];
    assert messages[0].role == System;
    if UserSaid(recent, prompt) {
      var i :| 0 <= i < |recent| && recent[i] == Message(User, prompt);
      assert messages[i + 1] == Message(User, prompt);
    }
    if UserSaid(messages, prompt) {
      var i :| 0 <= i < |messages| && messages[i] == Message(User, prompt);
      assert i != 0;
      assert recent[i - 1] == Message(User, prompt);
    }
  }

  /** The prompt is appended exactly when the recent history holds no user message
      with it. */
  lemma PromptAppendedIffMissing(history: seq<Message>, prompt: string)
    ensures UserSaid(RecentHistory(history), prompt) ==> PrepareMessages(history, prompt) == Preamble(history)
    ensures !UserSaid(RecentHistory(history), prompt) ==>
      PrepareMessages(history, prompt) == Preamble(history) + [Message(User, prompt)]
  {
    UserContentsIff(Preamble(history), prompt);
    PreambleUserSaid(history, prompt);
  }

  /** The list opens with the system message followed by the recent history. */
  lemma PrepareMessagesOpening(history: seq<Message>, prompt: string)
    ensures var r := PrepareMessages(history, prompt);
      && |r| >= 1 + |RecentHistory(history)|
      && r[0] == Message(System, SystemContent())
      && r[1..1 + |RecentHistory(history)|] == RecentHistory(history)
  {
    PromptAppendedIffMissing(history, prompt);
    var r := PrepareMessages(history, prompt);
    assert r[..|Preamble(history)|] == Preamble(history);
  }

  /** Whatever the history, the list holds the prompt as a user message. */
  lemma PromptAlwaysSent(history: seq<Message>, prompt: string)
    ensures UserSaid(PrepareMessages(history, prompt), prompt)
  {
    PromptAppendedIffMissing(history, prompt);
    var r := PrepareMessages(history, prompt);
    if UserSaid(RecentHistory(history), prompt) {
      PreambleUserSaid(history, prompt);
    } else {
      assert r[|r| - 1] == Message(User, prompt);
    }
  }

  /** Asking again right after an answer, which records the prompt and then the
      reply, does not send the prompt twice. */
  lemma RepeatedPromptNotDuplicated(history: seq<Message>, prompt: string, reply: string)
    ensures var h := history + [Message(User, prompt), Message(Assistant, reply)];
      PrepareMessages(h, prompt) == Preamble(h)
  {
    var h := history + [Message(User, prompt), Message(Assistant, reply)];
    var recent := RecentHistory(h);
    assert recent[|recent| - 2] == Message(User, prompt);
    PromptAppendedIffMissing(h, prompt);
  }
}
