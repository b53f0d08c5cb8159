/** What the store's handlers guarantee, one event at a time and over whole runs of events. */
module StoreProperties {
  import opened Types
  import opened Sessions
  import opened AppStore

  /** Upload adds exactly one session, at the end, and leaves the earlier ones in place and in order. */
  lemma UploadAppendsOneSession(s: AppState, content: string, name: string, newId: string)
    ensures var r := UploadStep(s, content, name, newId);
      && |r.chatHistory| == |s.chatHistory| + 1
      && r.chatHistory[..|s.chatHistory|] == s.chatHistory
      && r.chatHistory[|s.chatHistory|] == NewSession(newId, name, content)
      && r.activeChatId == Some(newId)
      && r.error == None
      && r.isLoading == s.isLoading
  {
  }

  /**
   * After an upload with an id no session has, the active chat is the new
   * session. With an id already in use the lookup finds the OLDER session.
   */
  lemma UploadActivatesNewSession(s: AppState, content: string, name: string, newId: string)
    ensures !HasSession(s.chatHistory, newId) ==>
      ActiveChat(UploadStep(s, content, name, newId)) == Some(NewSession(newId, name, content))
    ensures HasSession(s.chatHistory, newId) ==>
      ActiveChat(UploadStep(s, content, name, newId)) == FindSession(s.chatHistory, newId)
  {
    FindConcat(s.chatHistory, [NewSession(newId, name, content)], newId);
  }

  /** Deleting a freshly uploaded session gives back the history as it was before the upload. */
  lemma UploadThenDeleteRestoresHistory(s: AppState, content: string, name: string, newId: string)
    requires !HasSession(s.chatHistory, newId)
    ensures DeleteStep(UploadStep(s, content, name, newId), newId) == s.(activeChatId := None, error := None)
  {
    var added := NewSession(newId, name, content);
    RemoveConcat(s.chatHistory, [added], newId);
    RemoveAbsentIsIdentity(s.chatHistory, newId);
    assert RemoveSession([added], newId) == [];
    assert s.chatHistory + [] == s.chatHistory;
  }

  /** A send without an active chat changes nothing and makes no question call. */
  lemma SendWithoutActiveChatIsNoop(s: AppState, question: string, fileContent: string, messageId: string)
    requires !IsSet(s.activeChatId)
    ensures BeginSendStep(s, question, messageId) == s
    ensures PendingRequest(s, question, fileContent) == None
  {
  }

  /**
   * Beginning a send appends the user's question to the active session only,
   * sets loading, clears the error and asks about the captured chat.
   */
  lemma BeginSendAppendsQuestion(s: AppState, question: string, fileContent: string, messageId: string)
    requires IsSet(s.activeChatId)
    ensures var r := BeginSendStep(s, question, messageId);
      && r.isLoading
      && r.error == None
      && r.activeChatId == s.activeChatId
      && ActiveChat(r) == WithMessageIfFound(ActiveChat(s), Message(messageId, User, question))
      && (forall id :: id != s.activeChatId.value ==> FindSession(r.chatHistory, id) == FindSession(s.chatHistory, id))
    ensures PendingRequest(s, question, fileContent) == Some(Request(s.activeChatId.value, question, fileContent))
  {
    var r := BeginSendStep(s, question, messageId);
    var m := Message(messageId, User, question);
    FindAfterAppend(s.chatHistory, s.activeChatId.value, m);
    forall id | id != s.activeChatId.value
      ensures FindSession(r.chatHistory, id) == FindSession(s.chatHistory, id)
    {
      FindOtherAfterAppend(s.chatHistory, s.activeChatId.value, m, id);
    }
  }

  /**
   * Completion appends the reply to the captured chat: the answer text on
   * success, the fixed apology on failure, which also sets the banner.
   * Loading ends in both cases and the active chat is not touched.
   */
  lemma CompleteSendAppendsReply(s: AppState, chatId: string, outcome: Outcome, messageId: string)
    ensures var r := CompleteSendStep(s, chatId, outcome, messageId);
      && !r.isLoading
      && r.activeChatId == s.activeChatId
      && (outcome.Answered? ==> r.error == s.error)
      && (outcome.Failed? ==> r.error == Some(ErrorBanner(outcome.thrown)))
      && FindSession(r.chatHistory, chatId) == WithMessageIfFound(FindSession(s.chatHistory, chatId), ReplyMessage(outcome, messageId))
    ensures var reply := ReplyMessage(outcome, messageId);
      && reply.sender == Ai
      && reply.id == messageId
      && reply.text == (if outcome.Answered? then outcome.text else "Sorry, I encountered an error. Please try again.")
  {
    FindAfterAppend(s.chatHistory, chatId, ReplyMessage(outcome, messageId));
  }

  /** A reply for a chat that was deleted meanwhile leaves the history as it is. */
  lemma ReplyToDeletedChatIsNoop(s: AppState, chatId: string, outcome: Outcome, messageId: string)
    requires !HasSession(s.chatHistory, chatId)
    ensures CompleteSendStep(s, chatId, outcome, messageId).chatHistory == s.chatHistory
  {
    AppendToMissingIsNoop(s.chatHistory, chatId, ReplyMessage(outcome, messageId));
  }

  /**
   * A question on the active chat, answered or not, adds exactly two messages
   * to it, the question and then the reply, and leaves loading off.
   */
  lemma QuestionAddsTwoMessages(s: AppState, question: string, userId: string, outcome: Outcome, replyId: string)
    requires IsSet(s.activeChatId) && ActiveChat(s).Some?
    ensures var chatId := s.activeChatId.value;
      var r := CompleteSendStep(BeginSendStep(s, question, userId), chatId, outcome, replyId);
      var chat := ActiveChat(s).value;
      && FindSession(r.chatHistory, chatId)
         == Some(chat.(messages := chat.messages + [Message(userId, User, question), ReplyMessage(outcome, replyId)]))
      && !r.isLoading
      && r.error == (if outcome.Failed? then Some(ErrorBanner(outcome.thrown)) else None)
  {
    var chatId := s.activeChatId.value;
    QuestionTouchesOnlyHistory(s, question, userId, outcome, replyId);
    FindAfterTwoAppends(s.chatHistory, chatId, ActiveChat(s).value, Message(userId, User, question), ReplyMessage(outcome, replyId));
  }

  /** A begun and completed question appends the question and then the reply to the captured chat. */
  lemma QuestionTouchesOnlyHistory(s: AppState, question: string, userId: string, outcome: Outcome, replyId: string)
    requires IsSet(s.activeChatId)
    ensures var chatId := s.activeChatId.value;
      CompleteSendStep(BeginSendStep(s, question, userId), chatId, outcome, replyId).chatHistory
      == AppendMessage(AppendMessage(s.chatHistory, chatId, Message(userId, User, question)), chatId, ReplyMessage(outcome, replyId))
  {
  }

  /** Deletion removes every session with the id, keeps the rest, and always clears the active chat. */
  lemma DeleteRemovesAndClearsActive(s: AppState, idToDelete: string)
    ensures var r := DeleteStep(s, idToDelete);
      && r.activeChatId == None
      && ActiveChat(r) == None
      && !HasSession(r.chatHistory, idToDelete)
      && (forall c :: c in r.chatHistory <==> c in s.chatHistory && c.id != idToDelete)
      && r.isLoading == s.isLoading && r.error == s.error
  {
    var h := DeleteStep(s, idToDelete).chatHistory;
    forall i | 0 <= i < |h| ensures h[i].id != idToDelete {
      assert h[i] in h;
    }
  }

  /** Selecting does not check existence: an unknown id leaves no chat to show. */
  lemma SelectDoesNotCheckExistence(s: AppState, id: string)
    ensures SelectStep(s, id).activeChatId == Some(id)
    ensures SelectStep(s, id).chatHistory == s.chatHistory
    ensures ActiveChat(SelectStep(s, id)) == FindSession(s.chatHistory, id)
    ensures !HasSession(s.chatHistory, id) ==> ActiveChat(SelectStep(s, id)) == None
  {
  }

  /** A new chat shows no session and keeps every existing one. */
  lemma NewChatKeepsHistory(s: AppState)
    ensures NewChatStep(s).chatHistory == s.chatHistory
    ensures ActiveChat(NewChatStep(s)) == None
  {
  }

  /** Every event except a deletion only appends: sessions stay in place and transcripts only grow. */
  lemma StepExtends(s: AppState, e: Event)
    requires !e.ChatDeleted?
    ensures Extends(s.chatHistory, Step(s, e).chatHistory)
  {
    match e
    case FileUploaded(content, name, newId) =>
    case ChatSelected(id) =>
    case NewChatStarted =>
    case SendBegun(question, messageId) =>
    case SendCompleted(chatId, outcome, replyId) =>
  }

  predicate NoDeletion(events: seq<Event>) {
    forall i :: 0 <= i < |events| ==> !events[i].ChatDeleted?
  }

  /** Over any run without a deletion the history only grows by appends. */
  lemma {:induction false} RunWithoutDeletionExtends(s: AppState, events: seq<Event>)
    requires NoDeletion(events)
    ensures Extends(s.chatHistory, Run(s, events).chatHistory)
    decreases |events|
  {
    if events != [] {
      StepExtends(s, events[0]);
      assert NoDeletion(events[1..]) by {
        forall i | 0 <= i < |events[1..]| ensures !events[1..][i].ChatDeleted? {
          assert events[1..][i] == events[i + 1];
        }
      }
      RunWithoutDeletionExtends(Step(s, events[0]), events[1..]);
      ExtendsTransitive(s.chatHistory, Step(s, events[0]).chatHistory, Run(s, events).chatHistory);
    }
  }

  /** Only the two halves of a send touch the loading flag: beginning sets it, completing clears it. */
  lemma LoadingChangesOnlyOnSend(s: AppState, e: Event)
    ensures !e.SendBegun? && !e.SendCompleted? ==> Step(s, e).isLoading == s.isLoading
    ensures e.SendCompleted? ==> !Step(s, e).isLoading
    ensures e.SendBegun? ==> Step(s, e).isLoading == (s.isLoading || IsSet(s.activeChatId))
  {
  }

  /** Submitting from the chat on screen asks about that chat's own document. */
  lemma SubmitAsksAboutShownDocument(s: AppState, question: string)
    requires ActiveChat(s).Some? && ActiveChat(s).value.id != ""
    ensures var chat := ActiveChat(s).value;
      PendingRequest(s, question, chat.fileContent) == Some(Request(chat.id, question, chat.fileContent))
  {
  }

  /** Running three events is stepping through them in order. */
  lemma RunThree(s: AppState, a: Event, b: Event, c: Event)
    ensures Run(s, [a, b, c]) == Step(Step(Step(s, a), b), c)
  {
    assert [a, b, c][1..] == [b, c];
    assert [b, c][1..] == [c];
    assert Run(s, [a, b, c]) == Run(Step(s, a), [b, c]);
    assert Run(Step(s, a), [b, c]) == Run(Step(Step(s, a), b), [c]);
    assert Run(Step(Step(s, a), b), [c]) == Run(Step(Step(Step(s, a), b), c), []) by {
      assert [c][1..] == [];
    }
  }

  /** Appending to the only session of a one-session history. */
  lemma AppendToOnlySession(chat: ChatSession, m: Message)
    ensures AppendMessage([chat], chat.id, m) == [WithMessage(chat, m)]
  {
    assert [chat][1..] == [];
  }

  /** A question asked in the only, active session of an idle store is appended to it. */
  lemma AskInOnlySession(chat: ChatSession, question: string, messageId: string)
    requires chat.id != ""
    ensures Step(AppState([chat], Some(chat.id), false, None), SendBegun(question, messageId))
         == AppState([WithMessage(chat, Message(messageId, User, question))], Some(chat.id), true, None)
  {
    AppendToOnlySession(chat, Message(messageId, User, question));
  }

  /** An answer to the only, active session of a waiting store is appended to it and ends the wait. */
  lemma AnswerInOnlySession(chat: ChatSession, text: string, messageId: string)
    ensures Step(AppState([chat], Some(chat.id), true, None), SendCompleted(chat.id, Answered(text), messageId))
         == AppState([WithMessage(chat, Message(messageId, Ai, text))], Some(chat.id), false, None)
  {
    AppendToOnlySession(chat, Message(messageId, Ai, text));
  }

  /** Upload `notes.txt`, ask a question, receive "Blue.": the transcript is seed, question, answer. */
  lemma AnsweredQuestionScenario()
    ensures var r := Run(InitialState, [
        FileUploaded("The sky is blue.", "notes.txt", "chat_1"),
        SendBegun("What color is the sky?", "100"),
        SendCompleted("chat_1", Answered("Blue."), "101")]);
      && r.chatHistory == [ChatSession("chat_1", "notes.txt", "The sky is blue.", [
           Message("initial-ai-message", Ai, SeedText("notes.txt")),
           Message("100", User, "What color is the sky?"),
           Message("101", Ai, "Blue.")])]
      && !r.isLoading && r.error == None
  {
    var upload := FileUploaded("The sky is blue.", "notes.txt", "chat_1");
    var begin := SendBegun("What color is the sky?", "100");
    var complete := SendCompleted("chat_1", Answered("Blue."), "101");
    RunThree(InitialState, upload, begin, complete);
    var seeded := NewSession("chat_1", "notes.txt", "The sky is blue.");
    var asked := Message("100", User, "What color is the sky?");
    var answer := Message("101", Ai, "Blue.");
    assert Step(InitialState, upload) == AppState([seeded], Some("chat_1"), false, None) by {
      assert [] + [seeded] == [seeded];
    }
    AskInOnlySession(seeded, "What color is the sky?", "100");
    AnswerInOnlySession(WithMessage(seeded, asked), "Blue.", "101");
    WithTwoMessages(seeded, asked, answer);
    assert seeded.messages + [asked, answer] == [seeded.messages[0], asked, answer];
  }

  /** The same question failing: the last entry is the apology and the banner carries the message. */
  lemma FailedQuestionScenario(message: string)
    ensures var r := Run(InitialState, [
        FileUploaded("The sky is blue.", "notes.txt", "chat_1"),
        SendBegun("What color is the sky?", "100"),
        SendCompleted("chat_1", Failed(ErrorObject(message)), "101")]);
      && |r.chatHistory| == 1 && |r.chatHistory[0].messages| == 3
      && r.chatHistory[0].messages[2].text == "Sorry, I encountered an error. Please try again."
      && r.error == Some("Error fetching response: " + message)
      && !r.isLoading
  {
    var upload := FileUploaded("The sky is blue.", "notes.txt", "chat_1");
    var begin := SendBegun("What color is the sky?", "100");
    var complete := SendCompleted("chat_1", Failed(ErrorObject(message)), "101");
    RunThree(InitialState, upload, begin, complete);
  }

  /** Sessions A and B, A active, B deleted: no chat is active afterwards. */
  lemma DeletingOtherChatClearsActiveScenario()
    ensures var r := Run(InitialState, [
        FileUploaded("a", "a.txt", "chat_A"),
        FileUploaded("b", "b.txt", "chat_B"),
        ChatSelected("chat_A"),
        ChatDeleted("chat_B")]);
      && r.activeChatId == None
      && r.chatHistory == [NewSession("chat_A", "a.txt", "a")]
  {
    var events := [FileUploaded("a", "a.txt", "chat_A"), FileUploaded("b", "b.txt", "chat_B"),
                   ChatSelected("chat_A"), ChatDeleted("chat_B")];
    assert events[1..] == [FileUploaded("b", "b.txt", "chat_B"), ChatSelected("chat_A"), ChatDeleted("chat_B")];
    var s1 := Step(InitialState, events[0]);
    RunThree(s1, events[1], events[2], events[3]);
    var a := NewSession("chat_A", "a.txt", "a");
    var b := NewSession("chat_B", "b.txt", "b");
    assert s1 == AppState([a], Some("chat_A"), false, None) by {
      assert [] + [a] == [a];
    }
    var s2 := Step(s1, events[1]);
    assert s2 == AppState([a, b], Some("chat_B"), false, None) by {
      assert [a] + [b] == [a, b];
    }
    var s3 := Step(s2, events[2]);
    assert s3 == AppState([a, b], Some("chat_A"), false, None);
    RemoveSecondOfTwo(a, b);
  }

  /** Deleting the second of two sessions with different ids keeps the first. */
  lemma RemoveSecondOfTwo(a: ChatSession, b: ChatSession)
    requires a.id != b.id
    ensures RemoveSession([a, b], b.id) == [a]
  {
    assert [a, b][1..] == [b];
    assert [b][1..] == [];
  }
}
