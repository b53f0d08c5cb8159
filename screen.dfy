/**
 * The main panel's wiring: the transcript surface is shown for the active
 * chat, and its submit and confirm-delete callbacks are the store's send
 * and delete handlers.
 */
module Screen {
  import opened Types
  import opened Text
  import opened Sessions
  import opened AppStore
  import opened ChatView

  /**
   * A submit in the transcript surface of the active chat: a rejected submit
   * (blank input or a question in flight) changes nothing in the store and
   * makes no question call; an accepted one begins a send of the trimmed
   * input about the active chat's document.
   */
  method SubmitOnActiveChat(app: App, view: ChatInterface, messageId: string) returns (request: Option<Request>)
    requires ActiveChat(app.State()).Some?
    modifies app, view
    ensures var chat := ActiveChat(old(app.State())).value;
      if SubmitAccepted(old(view.inputValue), old(app.isLoading)) then
        && app.State() == BeginSendStep(old(app.State()), Trim(old(view.inputValue)), messageId)
        && request == PendingRequest(old(app.State()), Trim(old(view.inputValue)), chat.fileContent)
        && view.inputValue == ""
      else
        && app.State() == old(app.State())
        && request == None
        && view.inputValue == old(view.inputValue)
    ensures view.isDeleteModalOpen == old(view.isDeleteModalOpen)
  {
    var chat := ActiveChat(app.State()).value;
    var sent := view.HandleSubmit(chat.fileContent, app.isLoading);
    match sent {
      case None =>
        request := None;
      case Some(Forwarded(question, fileContent)) =>
        request := app.BeginSend(question, fileContent, messageId);
    }
  }

  /** Confirming the dialog deletes the chat on screen and clears the active chat. */
  method ConfirmDeleteOnActiveChat(app: App, view: ChatInterface)
    requires ActiveChat(app.State()).Some?
    modifies app, view
    ensures app.State() == DeleteStep(old(app.State()), ActiveChat(old(app.State())).value.id)
    ensures !HasSession(app.chatHistory, ActiveChat(old(app.State())).value.id)
    ensures app.activeChatId == None && !view.isDeleteModalOpen
  {
    var chat := ActiveChat(app.State()).value;
    var id := view.HandleConfirmDelete(chat.id);
    app.HandleDeleteChat(id);
    assert forall i :: 0 <= i < |app.chatHistory| ==> app.chatHistory[i] in app.chatHistory;
  }
}
