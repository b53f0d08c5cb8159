# Document Q&A chat-session store — a Dafny model

This project models the part of the Intelligent Document Q&A web client that has behaviour
to state: the chat-session store held by the top-level `App` component and the submit and
delete guard of the `ChatInterface` component.

The store keeps four fields:
- `chatHistory`: the sessions in creation order, each an uploaded document and its transcript
- `activeChatId`: an optional reference to the session on screen
- `isLoading`: true while a question is in flight
- `error`: an optional banner text

Its handlers are upload, select, new chat and delete. Asking a question is split into two
discrete events. **Begin** appends the user's question and sets loading. **Complete** brings
the answer, or a failure, for the chat id captured when the question was asked.

Files:
- `types.dfy` (`Types`): `Message`, `ChatSession` and the two-variant `Sender`.
- `text.dfy` (`Text`): JavaScript's `String.prototype.trim`, over the ECMAScript WhiteSpace and
  LineTerminator code points.
- `sessions.dfy` (`Sessions`): the pure list transforms of the store.
  - the seeded new session
  - the `map` that appends a message to the sessions with a given id
  - the `filter` that deletes
  - the `find` that looks up the active session
- `store.dfy` (`AppStore`): the state record `AppState` and one transition function per handler,
  which is the specification. Also `Event`, `Step` and `Run` for sequences of events, and
  `class App`. Its fields are the four state fields and its methods make the setter calls in
  the source's order. Each method ensures `State() == <transition>(old(State()), …)`.
- `store_properties.dfy` (`StoreProperties`): what the transitions guarantee, one event at a
  time and over whole runs, plus the end-to-end scenarios.
- `chat_view.dfy` (`ChatView`): `class ChatInterface` with `inputValue` and `isDeleteModalOpen`.
  Its props (`fileContent`, `isLoading`, `chatId`) are passed with each event, as React passes
  them on each render.
- `screen.dfy` (`Screen`): the wiring of the two. The transcript surface is shown for the active
  chat, and its callbacks are the store's send and delete handlers.

Behaviour kept from the code:
- `if (!activeChatId)` rejects a missing id and also the empty string (`AppStore.IsSet`).
- The append `map` touches every session with a matching id. The `find` returns the first match.
- Deletion clears the active chat even when a different session was deleted. This is what
  `handleDeleteChat` does (App.tsx:80), and it is modelled as such
  (`DeletingOtherChatClearsActiveScenario`).
- The store's send handler does not itself check `isLoading`. Only the transcript surface's
  guard rejects a second question while one is in flight.
- A completion for a chat that no longer exists leaves the history unchanged.
- An answered question leaves `error` as it was at completion time. It is not cleared again.

- Ids come from `Date.now()` and nothing makes them unique. Here they are parameters, and
  uniqueness is not claimed. With an id already in use, the active-chat lookup after an upload
  finds the OLDER session (`UploadActivatesNewSession`, second ensures).
- An upload followed by one answered question leaves three messages in the transcript: seed,
  question, answer (`AnsweredQuestionScenario`).

## Model

| member | source | states |
|---|---|---|
| `Text.Trim` | components/ChatInterface.tsx:50 | the trimmed input starts and ends with a non-space, and it is blank exactly when the input is all white space |
| `Text.TrimIsInfix` | components/ChatInterface.tsx:51 | trimming keeps one contiguous piece of the input and drops only white space before and after it |
| `Sessions.NewSession` | App.tsx:22-33 | the new session has the given id, file name and content, and exactly one message: from the AI, with id `initial-ai-message` and the seed text |
| `Sessions.SeedTextInjective` | App.tsx:30 | different document names give different seed texts, so the seed names its document |
| `Sessions.AppendMessage` | App.tsx:45-46 | the list keeps its length, order, ids and documents; sessions with the id gain the message at the end; all others are untouched |
| `Sessions.AppendToMissingIsNoop` | App.tsx:55-57 | an append aimed at an id no session has leaves the history unchanged |
| `Sessions.RemoveSession` | App.tsx:79 | a session is kept exactly when it was there before and its id differs from the deleted one |
| `Sessions.RemoveConcat` | App.tsx:79 | deleting from a concatenation deletes from each part and keeps the parts in their order |
| `Sessions.RemoveAbsentIsIdentity` | App.tsx:79 | deleting an id no session has leaves the history as it was |
| `Sessions.RemoveIdempotent` | App.tsx:79 | deleting the same id twice is the same as deleting it once |
| `Sessions.FindSession` | App.tsx:83 | finds nothing exactly when no session has the id; otherwise finds a session with that id that no earlier session's id matches |
| `Sessions.FindConcat` | App.tsx:83 | a lookup in a concatenation uses the first part when it has the id, and the second part otherwise |
| `Sessions.FindAfterAppend` | App.tsx:45-46 | after an append to an id, looking that id up finds the same session with the message added |
| `Sessions.FindOtherAfterAppend` | App.tsx:55-56 | an append to one id does not change what a lookup of any other id finds |
| `Sessions.ActiveSession` | App.tsx:83 | no active id finds nothing; otherwise it finds nothing exactly when no session has the id, and whatever it finds is in the history and carries the active id |
| `AppStore.IsSet` | App.tsx:41 | the `!activeChatId` guard passes exactly when the id is present and not the empty string |
| `AppStore.ActiveChat` | App.tsx:83 | the chat on screen is a session of the history with the active id; there is none when no id is active or no session has it |
| `AppStore.ErrorBanner` | App.tsx:59-60 | the banner is `Error fetching response: ` followed by the thrown `Error`'s message, or by `An unknown error occurred.` for anything else thrown |
| `AppStore.PendingRequest` | App.tsx:41-53 | a question call is made exactly when the guard passes, and it carries the captured chat id, the question and the document passed in |
| `AppStore.UploadStep` | App.tsx:21-38 | upload keeps every earlier session in place, adds exactly the seeded session at the end, makes its id active and clears the error; loading is kept |
| `AppStore.SelectStep` | App.tsx:70-72 | select makes the given id active and changes nothing else |
| `AppStore.NewChatStep` | App.tsx:74-76 | a new chat clears the active id and changes nothing else |
| `AppStore.DeleteStep` | App.tsx:78-81 | no session with the id remains, a session is kept exactly when it was there and has another id, the active id is cleared; loading and error are kept |
| `AppStore.BeginSendStep` | App.tsx:40-50 | without a truthy active id the state is unchanged; otherwise sessions only grow, loading is set, the error cleared and the active id kept |
| `AppStore.CompleteSendStep` | App.tsx:52-67 | sessions only grow, loading ends false, the active id is kept; an answer keeps the error, a failure sets the banner |
| `AppStore.App.constructor` | App.tsx:15-18 | starts with no sessions, no active chat, not loading and no error |
| `AppStore.App.HandleFileUpload` | App.tsx:21-38 | the history gains the seeded session for the document at its end, the new id becomes active and the error is cleared; loading is untouched |
| `AppStore.App.BeginSend` | App.tsx:40-50 | without a truthy active id nothing changes and no call is made; otherwise the active session gains the user message, loading is set, the error cleared, and the returned call carries the captured chat id, the question and the document |
| `AppStore.App.CompleteSend` | App.tsx:52-67 | the captured chat gains the AI reply (the answer, or the fixed apology with the error banner set); loading ends false; the active id is untouched |
| `AppStore.App.HandleSelectChat` | App.tsx:70-72 | the active id becomes the given id, unchecked; nothing else changes |
| `AppStore.App.HandleNewChat` | App.tsx:74-76 | the active id is cleared; the history is untouched |
| `AppStore.App.HandleDeleteChat` | App.tsx:78-81 | the sessions with the id are filtered out and the active id is cleared unconditionally; loading and error are untouched |
| `StoreProperties.UploadAppendsOneSession` | App.tsx:35-37 | upload adds exactly the new session at the end, keeps the earlier ones in order, makes the new id active, clears the error and leaves loading alone |
| `StoreProperties.UploadActivatesNewSession` | App.tsx:36 | with an unused id the active chat becomes the new session; with a used id the lookup finds the older session |
| `StoreProperties.UploadThenDeleteRestoresHistory` | App.tsx:78-81 | deleting a freshly uploaded session gives back the previous history, with no active chat and no error |
| `StoreProperties.SendWithoutActiveChatIsNoop` | App.tsx:41 | with no active chat, or an empty active id, a send changes no field and makes no question call |
| `StoreProperties.BeginSendAppendsQuestion` | App.tsx:43-50 | the active session gains the user's question at the end and lookups of every other id are unchanged; loading is set, the error cleared, and the call is about the captured chat |
| `StoreProperties.CompleteSendAppendsReply` | App.tsx:52-67 | the captured chat gains an AI reply: the answer text, or the fixed apology together with the banner `Error fetching response: <msg>`; loading ends false either way |
| `StoreProperties.ReplyToDeletedChatIsNoop` | App.tsx:62-64 | a reply for a chat that was deleted meanwhile leaves the history unchanged |
| `StoreProperties.QuestionAddsTwoMessages` | App.tsx:40-68 | a question on the active chat adds exactly two messages, the question and then the reply, and ends with loading off |
| `StoreProperties.DeleteRemovesAndClearsActive` | App.tsx:78-81 | no session with the id remains, every other session stays, and the active chat is cleared whichever session was active |
| `StoreProperties.SelectDoesNotCheckExistence` | App.tsx:70-72 | select sets the active id without checking it; an unknown id leaves no chat on screen |
| `StoreProperties.NewChatKeepsHistory` | App.tsx:74-76 | a new chat clears the active chat and keeps every session |
| `StoreProperties.StepExtends` | App.tsx:35-64 | every event but a deletion keeps each session in its place and only appends to transcripts |
| `StoreProperties.RunWithoutDeletionExtends` | App.tsx:21-76 | over any run of events without a deletion, no session moves and no transcript shrinks |
| `StoreProperties.LoadingChangesOnlyOnSend` | App.tsx:49-66 | only beginning a send sets loading and only a completion clears it |
| `StoreProperties.SubmitAsksAboutShownDocument` | App.tsx:127-134 | a submit from the chat on screen asks about that chat's own document and id |
| `StoreProperties.AnsweredQuestionScenario` | App.tsx:21-67 | upload `notes.txt`, ask, get `Blue.`: the transcript is the seed, the question and the answer |
| `StoreProperties.FailedQuestionScenario` | App.tsx:58-64 | the same question failing: the last entry is the apology and the banner carries the error message |
| `StoreProperties.DeletingOtherChatClearsActiveScenario` | App.tsx:78-81 | with A active, deleting B leaves only A and no active chat |
| `ChatView.SubmitAccepted` | components/ChatInterface.tsx:50 | a submit is accepted exactly when not loading and the input is not all white space |
| `ChatView.SendButtonDisabled` | components/ChatInterface.tsx:116 | the send button is disabled exactly when loading or the input is all white space |
| `ChatView.SendButtonMatchesGuard` | components/ChatInterface.tsx:116 | the send button is disabled exactly when the submit guard would reject, that is when loading or the input is all white space |
| `ChatView.ChatInterface.constructor` | components/ChatInterface.tsx:38-39 | starts with an empty input and the dialog closed |
| `ChatView.ChatInterface.ChangeInput` | components/ChatInterface.tsx:106-109 | the input box holds the typed value; while loading the box is disabled and keeps what it held |
| `ChatView.ChatInterface.HandleSubmit` | components/ChatInterface.tsx:48-54 | an accepted submit forwards the trimmed, non-blank input and this chat's document, then empties the box; a rejected one forwards nothing and keeps the input |
| `ChatView.ChatInterface.OpenDeleteModal` | components/ChatInterface.tsx:73 | the delete button only opens the dialog |
| `ChatView.ChatInterface.CloseDeleteModal` | components/ChatInterface.tsx:125 | cancel or close shuts the dialog and deletes nothing |
| `ChatView.ChatInterface.HandleConfirmDelete` | components/ChatInterface.tsx:56-59 | confirming asks to delete this chat's id and shuts the dialog |
| `Screen.SubmitOnActiveChat` | App.tsx:127-137 | a rejected submit leaves the store unchanged and makes no call; an accepted one begins a send of the trimmed input about the active chat's document |
| `Screen.ConfirmDeleteOnActiveChat` | App.tsx:127-135 | confirming deletes the chat on screen, leaves no session with its id and clears the active chat |

## Left out

- Rendering is not modelled, except for the props App.tsx:127-137 hands to the transcript surface (`Screen`): JSX, CSS classes, icons, the sidebar flag `isSidebarOpen` and auto-scroll. They are presentation only.
- Screen: the mount and unmount of the transcript surface are not modelled. With no active chat it unmounts, and it mounts again with an empty input and the dialog closed (components/ChatInterface.tsx:38-39). A direct switch from one chat to another keeps the same instance (there is no `key`), so typed text carries over. `Screen` threads a single `view` through every event, which matches the direct switch but not the reset after an unmount.
- `components/MessageBubble.tsx` and `components/ChatHistory.tsx` are not part of this model. They are view code; clicking a history row is `HandleSelectChat`.
- `components/ConfirmationModal.tsx` is not part of this model. It is the window key listener and effect lifecycle; its Escape and cancel paths are `CloseDeleteModal`.
- `components/FileUpload.tsx` is not part of this model. It is browser file reading, drag and drop, and `alert`. The model starts at the `(content, name)` pair the upload hands over.
- `services/geminiService.ts` is not part of this model. The network call, the prompt template and the start-up check of the API key are replaced by the `Outcome` of a question, given as a parameter.
- Clock-based ids (`Date.now()`) are not modelled: session and message ids are parameters. Id uniqueness is not claimed, because the code does not guarantee it.
- React's batching of state updates, `useCallback` closure timing and real `await` interleaving are not modelled. A question is modelled only as the two discrete events begin and complete.
- Strings are sequences of Unicode scalar values, not UTF-16 code units. Every code point `trim` strips lies in the Basic Multilingual Plane, so trimming is unaffected.
