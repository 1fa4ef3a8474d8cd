/** The tutor chat of features/ChatScreen.tsx: a transcript seeded with a
    welcome message, a guarded send that appends the question and, once the
    gateway answers, the reply or an apology; a clear that resets the
    transcript; and the rule that, once loaded, every change is persisted. */
module ChatScreen {
  import opened Types
  import Text
  import Codec
  import BackendService

  const WelcomeText := "Hello! I am your Engineering Tutor. How can I help you with your studies today?"
  const ApologyText := "Sorry, I encountered an error. Please try again."

  /** The message a fresh or cleared transcript holds. */
  function Welcome(now: nat): ChatMessage
  {
    ChatMessage("1", ModelRole, WelcomeText, now)
  }

  /** The guard of `handleSend`, also the disabled state of the send button:
      `!input.trim() || isLoading`. */
  predicate SendBlocked(input: string, isLoading: bool)
  {
    Text.Trim(input) == [] || isLoading
  }

  /** Sending is blocked exactly when the input is whitespace only or a reply
      is pending. */
  lemma SendBlockedIff(input: string, isLoading: bool)
    ensures SendBlocked(input, isLoading) <==> Text.IsBlank(input) || isLoading
  {
    Text.TrimEmptyIffBlank(input);
  }

  /** The question as appended: the raw input, untrimmed, with the clock
      reading as id and timestamp. */
  function QuestionMessage(input: string, now: nat): ChatMessage
  {
    ChatMessage(Text.NatToString(now), UserRole, input, now)
  }

  /** The answer as appended: the gateway's text, or the apology when the
      gateway failed (`None`). */
  function ReplyMessage(outcome: Option<string>, now: nat): ChatMessage
  {
    var text := match outcome case Some(t) => t case None => ApologyText;
    ChatMessage(Text.NatToString(now + 1), ModelRole, text, now)
  }

  /** The question read the clock at `sendNow`, its reply no earlier, at
      `replyNow`: the two get different ids (the reply's is `replyNow + 1`,
      larger than `sendNow`) and different roles. */
  lemma ExchangeIdsDistinct(input: string, outcome: Option<string>, sendNow: nat, replyNow: nat)
    requires sendNow <= replyNow
    ensures QuestionMessage(input, sendNow).id != ReplyMessage(outcome, replyNow).id
    ensures QuestionMessage(input, sendNow).role != ReplyMessage(outcome, replyNow).role
  {
    Text.NatToStringInjective(sendNow, replyNow + 1);
  }

  class Chat {
    var messages: seq<ChatMessage>
    var input: string
    var isLoading: bool
    var isLoaded: bool
    const backend: BackendService.Backend

    /** Once the history is loaded the store holds exactly the transcript on
        screen, and the transcript is never empty. */
    ghost predicate Valid()
      reads this, backend
    {
      && backend.Valid()
      && (isLoaded ==> BackendService.ChatIn(backend.store) == messages && messages != [])
    }

    /** The state on mount, before the history is read. */
    constructor (backend: BackendService.Backend)
      requires backend.Valid()
      ensures Valid() && this.backend == backend
      ensures messages == [] && input == "" && !isLoading && !isLoaded
    {
      this.backend := backend;
      messages := [];
      input := "";
      isLoading := false;
      isLoaded := false;
    }

    /** `loadHistory`: an empty stored history is replaced by the welcome
        message, a non-empty one is shown as it is; the list is then saved
        (the seeding write and the persist-on-change rule write the same). */
    method LoadHistory(now: nat)
      requires Valid()
      modifies this, backend
      ensures Valid() && isLoaded
      ensures old(BackendService.ChatIn(backend.store)) == [] ==> messages == [Welcome(now)]
      ensures old(BackendService.ChatIn(backend.store)) != [] ==> messages == old(BackendService.ChatIn(backend.store))
      ensures backend.store == old(backend.store)[BackendService.ChatKey := Codec.EncodeMessages(messages)]
      ensures input == old(input) && isLoading == old(isLoading)
    {
      var history := backend.GetChatHistory();
      if |history| == 0 {
        messages := [Welcome(now)];
      } else {
        messages := history;
      }
      isLoaded := true;
      backend.SaveChatHistory(messages);
    }

    /** The input field's `onChange`. */
    method EditInput(text: string)
      requires Valid()
      modifies this`input
      ensures Valid() && input == text
    {
      input := text;
    }

    /** The synchronous part of `handleSend`: when not blocked, append the
        question, clear the input, mark a reply as pending and hand the
        question to the gateway (`Some`). */
    method Send(now: nat) returns (question: Option<string>)
      requires Valid()
      modifies this`messages, this`input, this`isLoading, backend
      ensures Valid() && isLoaded == old(isLoaded)
      ensures SendBlocked(old(input), old(isLoading)) ==>
        && question == None && messages == old(messages) && input == old(input)
        && isLoading == old(isLoading) && backend.store == old(backend.store)
      ensures !SendBlocked(old(input), old(isLoading)) ==>
        && question == Some(old(input))
        && messages == old(messages) + [QuestionMessage(old(input), now)]
        && input == "" && isLoading
        && backend.store == if isLoaded
             then old(backend.store)[BackendService.ChatKey := Codec.EncodeMessages(messages)]
             else old(backend.store)
      ensures question.Some? ==> !Text.IsBlank(question.value)
    {
      SendBlockedIff(input, isLoading);
      if Text.Trim(input) == [] || isLoading {
        return None;
      }
      question := Some(input);
      messages := messages + [QuestionMessage(input, now)];
      input := "";
      isLoading := true;
      if isLoaded {
        backend.SaveChatHistory(messages);
      }
    }

    /** The continuation of `handleSend` once the gateway has answered
        (`Some`) or failed (`None`): exactly one model message is appended
        and the pending flag is cleared. */
    method Reply(outcome: Option<string>, now: nat)
      requires Valid() && isLoading
      modifies this, backend
      ensures Valid() && isLoaded == old(isLoaded)
      ensures messages == old(messages) + [ReplyMessage(outcome, now)]
      ensures messages[|messages| - 1].role == ModelRole
      ensures outcome.Some? ==> messages[|messages| - 1].text == outcome.value
      ensures outcome.None? ==> messages[|messages| - 1].text == ApologyText
      ensures !isLoading && input == old(input)
      ensures backend.store == if isLoaded
        then old(backend.store)[BackendService.ChatKey := Codec.EncodeMessages(messages)]
        else old(backend.store)
    {
      messages := messages + [ReplyMessage(outcome, now)];
      isLoading := false;
      if isLoaded {
        backend.SaveChatHistory(messages);
      }
    }

    /** `clearHistory`: when confirmed, the transcript becomes the single
        welcome message and is saved; otherwise nothing changes. */
    method ClearHistory(confirmed: bool, now: nat)
      requires Valid()
      modifies this, backend
      ensures Valid()
      ensures !confirmed ==> messages == old(messages) && backend.store == old(backend.store)
      ensures confirmed ==>
        && messages == [Welcome(now)]
        && backend.store == old(backend.store)[BackendService.ChatKey := Codec.EncodeMessages([Welcome(now)])]
      ensures input == old(input) && isLoading == old(isLoading) && isLoaded == old(isLoaded)
    {
      if confirmed {
        messages := [Welcome(now)];
        backend.SaveChatHistory(messages);
      }
    }
  }
}
