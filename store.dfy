/**
 * The application state the top-level component holds (`chatHistory`,
 * `activeChatId`, `isLoading`, `error`) and its handlers. Each handler is
 * specified by a transition function on an `AppState` snapshot; the class
 * `App` performs the same updates field by field, as the setters do.
 *
 * The asynchronous question is split into two events: `BeginSend` (the
 * user message is appended and loading starts) and `CompleteSend` (the
 * answer or the failure arrives for the chat id captured at send time).
 */
module AppStore {
  import opened Types
  import opened Sessions

  datatype AppState = AppState(
    chatHistory: seq<ChatSession>,
    activeChatId: Option<string>,
    isLoading: bool,
    error: Option<string>)

  /** The state the component starts in. */
  const InitialState: AppState := AppState([], None, false, None)

  /** What the question call threw: an `Error` object with its message, or any other value. */
  datatype Thrown = ErrorObject(message: string) | NonError

  /** How the question call ended. */
  datatype Outcome = Answered(text: string) | Failed(thrown: Thrown)

  /** The arguments the question call is made with, and the chat id captured with them. */
  datatype Request = Request(chatId: string, question: string, fileContent: string)

  /** The transcript entry appended when the question call fails. */
  const FailureReplyText: string := "Sorry, I encountered an error. Please try again."

  /** The message used when the thrown value is not an `Error`. */
  const UnknownErrorText: string := "An unknown error occurred."

  /** The fixed start of the error banner. */
  const BannerPrefix: string := "Error fetching response: "

  /** The error banner set when the question call fails: the fixed start, then the thrown error's message or the unknown-error text. */
  function ErrorBanner(t: Thrown): (r: string)
    ensures |BannerPrefix| <= |r| && r[..|BannerPrefix|] == BannerPrefix
    ensures t.ErrorObject? ==> r[|BannerPrefix|..] == t.message
    ensures t.NonError? ==> r[|BannerPrefix|..] == UnknownErrorText
  {
    BannerPrefix + match t
      case ErrorObject(msg) => msg
      case NonError => UnknownErrorText
  }

  /** `activeChatId` is truthy: present and not the empty string. */
  predicate IsSet(activeId: Option<string>)
    ensures IsSet(activeId) <==> activeId != None && activeId != Some("")
  {
    activeId.Some? && activeId.value != ""
  }

  /** The session the transcript surface shows. */
  function ActiveChat(s: AppState): (r: Option<ChatSession>)
    ensures r.Some? ==> r.value in s.chatHistory && s.activeChatId == Some(r.value.id)
    ensures s.activeChatId.Some? ==> (r.None? <==> !HasSession(s.chatHistory, s.activeChatId.value))
    ensures s.activeChatId.None? ==> r.None?
  {
    ActiveSession(s.chatHistory, s.activeChatId)
  }

  /** `handleFileUpload`: the seeded session is added after all the others and becomes active. */
  function UploadStep(s: AppState, content: string, name: string, newId: string): (r: AppState)
    ensures Extends(s.chatHistory, r.chatHistory) && |r.chatHistory| == |s.chatHistory| + 1
    ensures r.chatHistory[|s.chatHistory|] == NewSession(newId, name, content)
    ensures r.activeChatId == Some(newId) && r.error == None && r.isLoading == s.isLoading
  {
    s.(chatHistory := s.chatHistory + [NewSession(newId, name, content)],
       activeChatId := Some(newId),
       error := None)
  }

  /** `handleSelectChat`: only the active reference moves, with no existence check. */
  function SelectStep(s: AppState, id: string): (r: AppState)
    ensures r.activeChatId == Some(id)
    ensures r.chatHistory == s.chatHistory && r.isLoading == s.isLoading && r.error == s.error
  {
    s.(activeChatId := Some(id))
  }

  /** `handleNewChat`: only the active reference is cleared. */
  function NewChatStep(s: AppState): (r: AppState)
    ensures r.activeChatId == None
    ensures r.chatHistory == s.chatHistory && r.isLoading == s.isLoading && r.error == s.error
  {
    s.(activeChatId := None)
  }

  /** `handleDeleteChat`: the sessions with the id go, and the active reference is cleared whatever it was. */
  function DeleteStep(s: AppState, idToDelete: string): (r: AppState)
    ensures !HasSession(r.chatHistory, idToDelete) && |r.chatHistory| <= |s.chatHistory|
    ensures forall c :: c in r.chatHistory <==> c in s.chatHistory && c.id != idToDelete
    ensures r.activeChatId == None && r.isLoading == s.isLoading && r.error == s.error
  {
    var kept := RemoveSession(s.chatHistory, idToDelete);
    assert forall i :: 0 <= i < |kept| ==> kept[i] in kept;
    s.(chatHistory := kept, activeChatId := None)
  }

  /** The first half of `handleSendMessage`: without a truthy active id nothing happens. */
  function BeginSendStep(s: AppState, question: string, messageId: string): (r: AppState)
    ensures !IsSet(s.activeChatId) ==> r == s
    ensures IsSet(s.activeChatId) ==>
      && Extends(s.chatHistory, r.chatHistory)
      && r.isLoading && r.error == None && r.activeChatId == s.activeChatId
  {
    if !IsSet(s.activeChatId) then s
    else s.(chatHistory := AppendMessage(s.chatHistory, s.activeChatId.value, Message(messageId, User, question)),
            isLoading := true,
            error := None)
  }

  /** The question call a send makes, if it makes one. */
  function PendingRequest(s: AppState, question: string, fileContent: string): (r: Option<Request>)
    ensures r.Some? <==> IsSet(s.activeChatId)
    ensures r.Some? ==> Some(r.value.chatId) == s.activeChatId && r.value.chatId != ""
                        && r.value.question == question && r.value.fileContent == fileContent
  {
    if IsSet(s.activeChatId) then Some(Request(s.activeChatId.value, question, fileContent)) else None
  }

  /** The transcript entry a completed question call appends. */
  function ReplyMessage(outcome: Outcome, messageId: string): Message {
    match outcome
    case Answered(text) => Message(messageId, Ai, text)
    case Failed(_) => Message(messageId, Ai, FailureReplyText)
  }

  /** The second half of `handleSendMessage`: the reply goes to the captured chat and loading ends. */
  function CompleteSendStep(s: AppState, chatId: string, outcome: Outcome, messageId: string): (r: AppState)
    ensures Extends(s.chatHistory, r.chatHistory)
    ensures !r.isLoading && r.activeChatId == s.activeChatId
    ensures outcome.Answered? ==> r.error == s.error
    ensures outcome.Failed? ==> r.error == Some(ErrorBanner(outcome.thrown))
  {
    s.(chatHistory := AppendMessage(s.chatHistory, chatId, ReplyMessage(outcome, messageId)),
       isLoading := false,
       error := if outcome.Failed? then Some(ErrorBanner(outcome.thrown)) else s.error)
  }

  /** The events the store reacts to; ids come with the event instead of from the clock. */
  datatype Event =
    | FileUploaded(content: string, name: string, newId: string)
    | ChatSelected(id: string)
    | NewChatStarted
    | ChatDeleted(idToDelete: string)
    | SendBegun(question: string, messageId: string)
    | SendCompleted(chatId: string, outcome: Outcome, replyId: string)

  function Step(s: AppState, e: Event): AppState {
    match e
    case FileUploaded(content, name, newId) => UploadStep(s, content, name, newId)
    case ChatSelected(id) => SelectStep(s, id)
    case NewChatStarted => NewChatStep(s)
    case ChatDeleted(id) => DeleteStep(s, id)
    case SendBegun(question, messageId) => BeginSendStep(s, question, messageId)
    case SendCompleted(chatId, outcome, replyId) => CompleteSendStep(s, chatId, outcome, replyId)
  }

  /** The state after the events, in order. */
  function Run(s: AppState, events: seq<Event>): AppState
    decreases |events|
  {
    if events == [] then s else Run(Step(s, events[0]), events[1..])
  }

  /** The component: four state fields updated in place by the handlers. */
  class App {
    var chatHistory: seq<ChatSession>
    var activeChatId: Option<string>
    var isLoading: bool
    var error: Option<string>

    function State(): AppState
      reads this
    {
      AppState(chatHistory, activeChatId, isLoading, error)
    }

    constructor ()
      ensures State() == InitialState
    {
      chatHistory := [];
      activeChatId := None;
      isLoading := false;
      error := None;
    }

    /** `handleFileUpload`, with the new session's id supplied by the caller. */
    method HandleFileUpload(content: string, name: string, newId: string)
      modifies this
      ensures State() == UploadStep(old(State()), content, name, newId)
    {
      var newSession := NewSession(newId, name, content);
      chatHistory := chatHistory + [newSession];
      activeChatId := Some(newId);
      error := None;
    }

    /** The first half of `handleSendMessage`: returns the question call to make, if any. */
    method BeginSend(question: string, fileContent: string, messageId: string) returns (request: Option<Request>)
      modifies this
      ensures State() == BeginSendStep(old(State()), question, messageId)
      ensures request == PendingRequest(old(State()), question, fileContent)
    {
      if !IsSet(activeChatId) {
        return None;
      }
      var userMessage := Message(messageId, User, question);
      chatHistory := AppendMessage(chatHistory, activeChatId.value, userMessage);
      isLoading := true;
      error := None;
      request := Some(Request(activeChatId.value, question, fileContent));
    }

    /** The second half of `handleSendMessage`: the outcome arrives for the captured chat id. */
    method CompleteSend(chatId: string, outcome: Outcome, messageId: string)
      modifies this
      ensures State() == CompleteSendStep(old(State()), chatId, outcome, messageId)
    {
      match outcome {
        case Answered(answer) =>
          var aiMessage := Message(messageId, Ai, answer);
          chatHistory := AppendMessage(chatHistory, chatId, aiMessage);
        case Failed(thrown) =>
          error := Some(ErrorBanner(thrown));
          var aiErrorMessage := Message(messageId, Ai, FailureReplyText);
          chatHistory := AppendMessage(chatHistory, chatId, aiErrorMessage);
      }
      isLoading := false;
    }

    /** `handleSelectChat` */
    method HandleSelectChat(id: string)
      modifies this
      ensures State() == SelectStep(old(State()), id)
    {
      activeChatId := Some(id);
    }

    /** `handleNewChat` */
    method HandleNewChat()
      modifies this
      ensures State() == NewChatStep(old(State()))
    {
      activeChatId := None;
    }

    /** `handleDeleteChat` */
    method HandleDeleteChat(idToDelete: string)
      modifies this
      ensures State() == DeleteStep(old(State()), idToDelete)
    {
      chatHistory := RemoveSession(chatHistory, idToDelete);
      activeChatId := None;
    }
  }
}
