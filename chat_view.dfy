/**
 * The transcript surface's own state: the text in the input box and whether
 * the delete-confirmation dialog is open. Its props (the chat's id and
 * document, and the store's loading flag) arrive with each event.
 */
module ChatView {
  import opened Types
  import opened Text

  /** The submit guard: the trimmed input is not blank and no question is in flight. */
  predicate SubmitAccepted(input: string, isLoading: bool)
    ensures SubmitAccepted(input, isLoading) <==> !isLoading && !AllWhiteSpace(input)
  {
    Trim(input) != "" && !isLoading
  }

  /** The send button's `disabled` attribute. */
  predicate SendButtonDisabled(input: string, isLoading: bool)
    ensures SendButtonDisabled(input, isLoading) <==> isLoading || AllWhiteSpace(input)
  {
    isLoading || Trim(input) == ""
  }

  /** The button is disabled exactly when a submit would be rejected; blank means all white space. */
  lemma SendButtonMatchesGuard(input: string, isLoading: bool)
    ensures SendButtonDisabled(input, isLoading) <==> !SubmitAccepted(input, isLoading)
    ensures SendButtonDisabled(input, isLoading) <==> isLoading || AllWhiteSpace(input)
  {
  }

  /** The arguments a forwarded submit hands to the store's send handler. */
  datatype Forwarded = Forwarded(question: string, fileContent: string)

  class ChatInterface {
    var inputValue: string
    var isDeleteModalOpen: bool

    constructor ()
      ensures inputValue == "" && !isDeleteModalOpen
    {
      inputValue := "";
      isDeleteModalOpen := false;
    }

    /** The input box's change handler; the box is disabled, and so takes no edits, while loading. */
    method ChangeInput(value: string, isLoading: bool)
      modifies this
      ensures inputValue == if isLoading then old(inputValue) else value
      ensures isDeleteModalOpen == old(isDeleteModalOpen)
    {
      if !isLoading {
        inputValue := value;
      }
    }

    /**
     * `handleSubmit`: when the guard passes, forward the trimmed input with
     * this chat's document and clear the box; otherwise do nothing at all.
     */
    method HandleSubmit(fileContent: string, isLoading: bool) returns (sent: Option<Forwarded>)
      modifies this
      ensures SubmitAccepted(old(inputValue), isLoading) ==>
        && sent == Some(Forwarded(Trim(old(inputValue)), fileContent))
        && inputValue == ""
      ensures !SubmitAccepted(old(inputValue), isLoading) ==>
        sent == None && inputValue == old(inputValue)
      ensures sent.Some? ==>
        && sent.value.question != ""
        && !IsWhiteSpace(sent.value.question[0])
        && !IsWhiteSpace(sent.value.question[|sent.value.question| - 1])
      ensures isDeleteModalOpen == old(isDeleteModalOpen)
    {
      if Trim(inputValue) != "" && !isLoading {
        sent := Some(Forwarded(Trim(inputValue), fileContent));
        inputValue := "";
      } else {
        sent := None;
      }
    }

    /** The delete button only opens the confirmation dialog. */
    method OpenDeleteModal()
      modifies this
      ensures isDeleteModalOpen
      ensures inputValue == old(inputValue)
    {
      isDeleteModalOpen := true;
    }

    /** Cancel or close: the dialog shuts and nothing is deleted. */
    method CloseDeleteModal()
      modifies this
      ensures !isDeleteModalOpen
      ensures inputValue == old(inputValue)
    {
      isDeleteModalOpen := false;
    }

    /** `handleConfirmDelete`: asks the store to delete this chat, then shuts the dialog. */
    method HandleConfirmDelete(chatId: string) returns (deleted: string)
      modifies this
      ensures deleted == chatId
      ensures !isDeleteModalOpen
      ensures inputValue == old(inputValue)
    {
      deleted := chatId;
      isDeleteModalOpen := false;
    }
  }
}
