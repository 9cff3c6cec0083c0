/** The chat panel (components/ChatWidget.tsx): an append-only transcript
    that starts with a welcome message, the input box, and the "typing" flag
    raised while the assistant's reply is awaited. `handleSend` is split at
    its `await` into SubmitMessage and ReceiveReply; the reply (or the
    rejection) of the awaited call is a parameter. */
module Chat {
  import opened Types
  import opened Text

  const WelcomeText: string :=
    "Olá! Sou seu assistente farmacêutico virtual. Como posso ajudar com dúvidas sobre medicamentos hoje?"

  /** The message appended when the assistant's call is rejected. */
  const ApologyText: string :=
    "Desculpe, estou com problemas técnicos no momento. Tente novamente mais tarde."

  const Welcome: ChatMessage := ChatMessage("welcome", Model, WelcomeText)

  /** One entry of the conversation history handed to the assistant:
      `{ role, parts: [{ text }] }`. */
  datatype HistoryEntry = HistoryEntry(role: Role, parts: seq<string>)

  /** `messages.map(m => ({ role: m.role, parts: [{ text: m.text }] }))`. */
  function History(messages: seq<ChatMessage>): (history: seq<HistoryEntry>)
    ensures |history| == |messages|
    ensures forall k :: 0 <= k < |messages| ==>
              history[k].role == messages[k].role && history[k].parts == [messages[k].text]
  {
    if messages == [] then []
    else [HistoryEntry(messages[0].role, [messages[0].text])] + History(messages[1..])
  }

  /** The projection keeps order: the history of a longer transcript extends
      the history of its prefix. */
  lemma {:induction false} HistoryConcat(a: seq<ChatMessage>, b: seq<ChatMessage>)
    ensures History(a + b) == History(a) + History(b)
  {
    if a == [] {
      assert a + b == b;
    } else {
      assert (a + b)[1..] == a[1..] + b;
      HistoryConcat(a[1..], b);
    }
  }

  /** The text of the message appended once the awaited call settles: the
      reply, or the fixed apology whatever the rejection's reason. */
  function ReplyText(outcome: Outcome): (text: string)
    ensures outcome.Failed? ==> text == ApologyText
    ensures outcome.Succeeded? ==> text == outcome.text
  {
    match outcome
    case Succeeded(reply) => reply
    case Failed(_) => ApologyText
  }

  /** The rejection's reason never reaches the transcript: two calls that
      fail for any reasons append the same message. */
  lemma ReplyIgnoresReason(r1: string, r2: string)
    ensures ReplyText(Failed(r1)) == ReplyText(Failed(r2)) == ApologyText
  {
  }

  /** A transcript as the panel builds it: the welcome message, then
      alternating user and assistant messages. */
  predicate Alternating(messages: seq<ChatMessage>) {
    && |messages| >= 1
    && messages[0] == Welcome
    && forall k :: 1 <= k < |messages| ==>
         messages[k].role == (if k % 2 == 1 then User else Model)
  }

  /** What SubmitMessage hands to the assistant: the history and the text. */
  datatype ChatRequest = ChatRequest(history: seq<HistoryEntry>, message: string)

  class ChatWidget {
    var input: string
    var messages: seq<ChatMessage>
    var isTyping: bool

    /** The transcript alternates, and the panel is typing exactly while the
        last message is a user message waiting for its reply. */
    ghost predicate Valid()
      reads this
    {
      Alternating(messages) && (isTyping <==> |messages| % 2 == 0)
    }

    constructor ()
      ensures Valid()
      ensures messages == [Welcome] && input == "" && !isTyping
    {
      input := "";
      messages := [Welcome];
      isTyping := false;
    }

    /** The input box's `onChange`. */
    method SetInput(text: string)
      modifies this`input
      ensures input == text
    {
      input := text;
    }

    /** The part of `handleSend` before the `await`. A blank input or a reply
        still pending changes nothing and sends nothing. Otherwise the input,
        untrimmed, is appended as a user message, the input is cleared, the
        flag is raised, and the request carries the history of the transcript
        as it was before the user message. */
    method SubmitMessage(userId: string) returns (request: Option<ChatRequest>)
      requires Valid()
      modifies this`input, this`messages, this`isTyping
      ensures Valid()
      ensures request.None? <==> Trim(old(input)) == [] || old(isTyping)
      ensures request.None? ==> unchanged(this)
      ensures request.Some? ==>
                && request.value == ChatRequest(History(old(messages)), old(input))
                && messages == old(messages) + [ChatMessage(userId, User, old(input))]
                && input == ""
                && isTyping
    {
      if Trim(input) == [] || isTyping {
        return None;
      }
      var userMsg := ChatMessage(userId, User, input);
      var history := History(messages);
      messages := messages + [userMsg];
      input := "";
      isTyping := true;
      request := Some(ChatRequest(history, userMsg.text));
    }

    /** The part of `handleSend` after the `await`, `finally` included: the
        reply or the apology is appended as an assistant message and the flag
        is lowered. */
    method ReceiveReply(botId: string, outcome: Outcome)
      requires Valid() && isTyping
      modifies this`messages, this`isTyping
      ensures Valid()
      ensures messages == old(messages) + [ChatMessage(botId, Model, ReplyText(outcome))]
      ensures !isTyping
    {
      messages := messages + [ChatMessage(botId, Model, ReplyText(outcome))];
      isTyping := false;
    }

    /** `handleSend`: a send appends exactly the user message and then
        exactly one assistant message after the existing transcript, and
        leaves the panel not typing. */
    method HandleSend(userId: string, botId: string, outcome: Outcome)
      returns (request: Option<ChatRequest>)
      requires Valid()
      modifies this
      ensures Valid()
      ensures request.None? <==> Trim(old(input)) == [] || old(isTyping)
      ensures request.None? ==> unchanged(this)
      ensures request.Some? ==>
                && request.value == ChatRequest(History(old(messages)), old(input))
                && messages == old(messages) + [ChatMessage(userId, User, old(input)),
                                                ChatMessage(botId, Model, ReplyText(outcome))]
                && input == ""
                && !isTyping
    {
      request := SubmitMessage(userId);
      if request.None? {
        return;
      }
      ReceiveReply(botId, outcome);
    }
  }
}
