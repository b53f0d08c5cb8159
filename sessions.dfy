/**
 * The pure list transforms the session store applies to its history: the
 * seeded session built on upload, the `map` that appends a message to the
 * sessions with a given id, the `filter` that deletes, and the `find` that
 * looks up the active session.
 */
module Sessions {
  import opened Types

  /** The id every seeded message carries. */
  const InitialMessageId: string := "initial-ai-message"

  /** The text of the message a new session starts with. */
  function SeedText(name: string): string {
    "Document \"" + name + "\" is ready. What would you like to know?"
  }

  /** The session created for an uploaded document: its one message announces the document. */
  function NewSession(id: string, name: string, content: string): (r: ChatSession)
    ensures r.id == id && r.fileName == name && r.fileContent == content
    ensures |r.messages| == 1 && r.messages[0].sender == Ai && r.messages[0].id == InitialMessageId
    ensures r.messages[0].text == SeedText(name)
  {
    ChatSession(id, name, content, [Message(InitialMessageId, Ai, SeedText(name))])
  }

  /** Different document names give different seed texts. */
  lemma SeedTextInjective(a: string, b: string)
    requires SeedText(a) == SeedText(b)
    ensures a == b
  {
    assert |a| == |b|;
    assert a == SeedText(a)[10..10 + |a|];
  }

  /** `{ ...chat, messages: [...chat.messages, m] }` */
  function WithMessage(chat: ChatSession, m: Message): ChatSession {
    chat.(messages := chat.messages + [m])
  }

  /** A lookup result with `m` appended to the session found, if one was. */
  function WithMessageIfFound(found: Option<ChatSession>, m: Message): Option<ChatSession> {
    match found
    case None => None
    case Some(chat) => Some(WithMessage(chat, m))
  }

  /** Some session in `history` has the id `id`. */
  predicate HasSession(history: seq<ChatSession>, id: string) {
    exists i :: 0 <= i < |history| && history[i].id == id
  }

  /**
   * The `map` that appends `m` to every session whose id is `chatId`: the
   * list keeps its length, order, ids and documents; matching sessions gain
   * `m` at the end of their transcript and all others are untouched.
   */
  function AppendMessage(history: seq<ChatSession>, chatId: string, m: Message): (r: seq<ChatSession>)
    ensures |r| == |history|
    ensures forall i :: 0 <= i < |r| ==>
      && r[i].id == history[i].id
      && r[i].fileName == history[i].fileName
      && r[i].fileContent == history[i].fileContent
    ensures forall i :: 0 <= i < |r| && history[i].id == chatId ==> r[i].messages == history[i].messages + [m]
    ensures forall i :: 0 <= i < |r| && history[i].id != chatId ==> r[i] == history[i]
  {
    if history == [] then []
    else [if history[0].id == chatId then WithMessage(history[0], m) else history[0]]
         + AppendMessage(history[1..], chatId, m)
  }

  /** An append aimed at an id no session has changes nothing. */
  lemma AppendToMissingIsNoop(history: seq<ChatSession>, chatId: string, m: Message)
    requires !HasSession(history, chatId)
    ensures AppendMessage(history, chatId, m) == history
  {
    var r := AppendMessage(history, chatId, m);
    forall i | 0 <= i < |history| ensures r[i] == history[i] {
      assert history[i].id != chatId;
    }
  }

  /**
   * The `filter` that deletes: the sessions kept are exactly those whose id
   * differs from `idToDelete`.
   */
  function RemoveSession(history: seq<ChatSession>, idToDelete: string): (r: seq<ChatSession>)
    ensures |r| <= |history|
    ensures forall s :: s in r <==> s in history && s.id != idToDelete
  {
    if history == [] then []
    else (if history[0].id == idToDelete then [] else [history[0]]) + RemoveSession(history[1..], idToDelete)
  }

  /** Deleting from a concatenation deletes from each part and keeps the parts in order. */
  lemma {:induction false} RemoveConcat(a: seq<ChatSession>, b: seq<ChatSession>, idToDelete: string)
    ensures RemoveSession(a + b, idToDelete) == RemoveSession(a, idToDelete) + RemoveSession(b, idToDelete)
  {
    if a == [] {
      assert a + b == b;
    } else {
      assert (a + b)[1..] == a[1..] + b;
      RemoveConcat(a[1..], b, idToDelete);
    }
  }

  /** Deleting an id that no session has leaves the history as it was. */
  lemma {:induction false} RemoveAbsentIsIdentity(history: seq<ChatSession>, idToDelete: string)
    requires !HasSession(history, idToDelete)
    ensures RemoveSession(history, idToDelete) == history
  {
    if history != [] {
      assert !HasSession(history[1..], idToDelete) by {
        forall i | 0 <= i < |history[1..]| ensures history[1..][i].id != idToDelete {
          assert history[1..][i] == history[i + 1];
        }
      }
      RemoveAbsentIsIdentity(history[1..], idToDelete);
      assert history == [history[0]] + history[1..];
    }
  }

  /** Deleting the same id twice is the same as deleting it once. */
  lemma RemoveIdempotent(history: seq<ChatSession>, idToDelete: string)
    ensures RemoveSession(RemoveSession(history, idToDelete), idToDelete) == RemoveSession(history, idToDelete)
  {
    var r := RemoveSession(history, idToDelete);
    assert !HasSession(r, idToDelete) by {
      forall i | 0 <= i < |r| ensures r[i].id != idToDelete {
        assert r[i] in r;
      }
    }
    RemoveAbsentIsIdentity(r, idToDelete);
  }

  /**
   * The `find`: the first session whose id is `id`, or nothing when no
   * session has that id.
   */
  function FindSession(history: seq<ChatSession>, id: string): (r: Option<ChatSession>)
    ensures r.None? <==> !HasSession(history, id)
    ensures r.Some? ==> exists i :: 0 <= i < |history| && history[i] == r.value && r.value.id == id
                                    && forall j :: 0 <= j < i ==> history[j].id != id
  {
    if history == [] then None
    else if history[0].id == id then Some(history[0])
    else
      var r := FindSession(history[1..], id);
      assert HasSession(history[1..], id) ==> HasSession(history, id) by {
        if HasSession(history[1..], id) {
          var k :| 0 <= k < |history[1..]| && history[1..][k].id == id;
          assert history[k + 1].id == id;
        }
      }
      assert r.Some? ==> exists i :: 0 <= i < |history| && history[i] == r.value && r.value.id == id
                                    && forall j :: 0 <= j < i ==> history[j].id != id by {
        if r.Some? {
          var k :| 0 <= k < |history[1..]| && history[1..][k] == r.value
                   && forall j :: 0 <= j < k ==> history[1..][j].id != id;
          assert history[k + 1] == r.value;
          assert forall j :: 0 <= j < k + 1 ==> history[j].id != id by {
            forall j | 0 <= j < k + 1 ensures history[j].id != id {
              if j > 0 { assert history[j] == history[1..][j - 1]; }
            }
          }
        }
      }
      r
  }

  /** A lookup in a concatenation finds in the first part if it can, and otherwise in the second. */
  lemma {:induction false} FindConcat(a: seq<ChatSession>, b: seq<ChatSession>, id: string)
    ensures FindSession(a + b, id) == if HasSession(a, id) then FindSession(a, id) else FindSession(b, id)
  {
    if a == [] {
      assert a + b == b;
    } else {
      assert (a + b)[1..] == a[1..] + b;
      FindConcat(a[1..], b, id);
      if a[0].id != id {
        assert HasSession(a, id) == HasSession(a[1..], id) by {
          if HasSession(a, id) {
            var k :| 0 <= k < |a| && a[k].id == id;
            assert a[1..][k - 1] == a[k];
          }
          if HasSession(a[1..], id) {
            var k :| 0 <= k < |a[1..]| && a[1..][k].id == id;
            assert a[k + 1] == a[1..][k];
          }
        }
      }
    }
  }

  /** After an append to `chatId`, looking up `chatId` finds the same session with `m` appended. */
  lemma {:induction false} FindAfterAppend(history: seq<ChatSession>, chatId: string, m: Message)
    ensures FindSession(AppendMessage(history, chatId, m), chatId) == WithMessageIfFound(FindSession(history, chatId), m)
  {
    if history != [] {
      var r := AppendMessage(history, chatId, m);
      assert r[1..] == AppendMessage(history[1..], chatId, m);
      FindAfterAppend(history[1..], chatId, m);
    }
  }

  /** Two appends to the same id add both messages, in order, to the session a lookup finds. */
  lemma FindAfterTwoAppends(history: seq<ChatSession>, chatId: string, chat: ChatSession, first: Message, second: Message)
    requires FindSession(history, chatId) == Some(chat)
    ensures FindSession(AppendMessage(AppendMessage(history, chatId, first), chatId, second), chatId)
         == Some(chat.(messages := chat.messages + [first, second]))
  {
    var once := AppendMessage(history, chatId, first);
    FindAfterAppend(history, chatId, first);
    assert FindSession(once, chatId) == Some(WithMessage(chat, first));
    FindAfterAppend(once, chatId, second);
    WithTwoMessages(chat, first, second);
  }

  /** Appending two messages one after the other appends the pair. */
  lemma WithTwoMessages(chat: ChatSession, first: Message, second: Message)
    ensures WithMessage(WithMessage(chat, first), second) == chat.(messages := chat.messages + [first, second])
  {
    assert chat.messages + [first] + [second] == chat.messages + [first, second];
  }

  /** An append to `chatId` does not change what a lookup of any other id finds. */
  lemma {:induction false} FindOtherAfterAppend(history: seq<ChatSession>, chatId: string, m: Message, id: string)
    requires id != chatId
    ensures FindSession(AppendMessage(history, chatId, m), id) == FindSession(history, id)
  {
    if history != [] {
      var r := AppendMessage(history, chatId, m);
      assert r[1..] == AppendMessage(history[1..], chatId, m);
      FindOtherAfterAppend(history[1..], chatId, m, id);
    }
  }

  /** The `activeChat` lookup: no active id finds nothing; otherwise the first session with that id. */
  function ActiveSession(history: seq<ChatSession>, activeId: Option<string>): (r: Option<ChatSession>)
    ensures activeId.None? ==> r.None?
    ensures activeId.Some? ==> (r.None? <==> !HasSession(history, activeId.value))
    ensures r.Some? ==> r.value in history && activeId == Some(r.value.id)
  {
    match activeId
    case None => None
    case Some(id) =>
      var r := FindSession(history, id);
      assert r.Some? ==> r.value in history by {
        if r.Some? {
          var i :| 0 <= i < |history| && history[i] == r.value && r.value.id == id
                   && forall j :: 0 <= j < i ==> history[j].id != id;
        }
      }
      r
  }

  /**
   * `after` is `before` grown by appends only: every earlier session is
   * still at its place with the same id and document, and its transcript
   * is a prefix of the new one.
   */
  predicate Extends(before: seq<ChatSession>, after: seq<ChatSession>) {
    && |before| <= |after|
    && forall i :: 0 <= i < |before| ==>
         && after[i].id == before[i].id
         && after[i].fileName == before[i].fileName
         && after[i].fileContent == before[i].fileContent
         && before[i].messages <= after[i].messages
  }

  /** Growth by appends composes. */
  lemma ExtendsTransitive(a: seq<ChatSession>, b: seq<ChatSession>, c: seq<ChatSession>)
    requires Extends(a, b) && Extends(b, c)
    ensures Extends(a, c)
  {
  }
}
