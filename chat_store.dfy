/**
 The client conversation store (frontend/src/store/useChatStore.js).
 `Store` holds the store's fields; every `set` of the original is an
 assignment in one of its methods. Each `async` operation is split at its
 `await` into a `Begin…` step (everything before the request) and a
 `Complete…` step (the continuation, given how the request settled), so
 that any other step may run in between, exactly as the event loop allows.
 The live socket of the signed-in user is a `LiveSocket` whose `newMessage`
 listeners are the handlers the store registered; each handler is known by
 the peer it captured when it was registered.
 */
module ChatStore {
  import opened ChatTypes
  import opened JsString
  import opened Crypto
  import opened Sequences

  const ImageSent: string := "Image sent"
  const NoMessageText: string := "⚠️ No message text"
  const FailedToDecrypt: string := "⚠️ Failed to decrypt message"

  /** `!msg.text || typeof msg.text !== 'string' || msg.text.trim() === ""`:
      the text is missing, not a string, or blank. */
  function LacksText(t: Text): (b: bool)
    ensures b <==> !t.Str? || IsBlank(t.s)
  {
    if t.Str? then TrimEmptyIffBlank(t.s); Trim(t.s) == "" else true
  }

  /** `decryptMessage` applied to whatever value a `text` field holds. A
      value that is not a string makes CryptoJS fail inside the `try`, so
      it reads back as the fallback text like any other failure. */
  function DecryptValue(aes: Aes, t: Text): (r: Outcome<string>)
    ensures r.Returned? && r.value != ""
    ensures t.Str? ==> r == DecryptMessage(aes, t.s)
    ensures !t.Str? ==> r.value == DecryptFallback
  {
    if t.Str? then DecryptMessage(aes, t.s) else Returned(DecryptFallback)
  }

  /** The `map` callback of `getMessages`: a placeholder for an entry without
      usable text, otherwise the decrypted text (or the text of the `catch`
      branch, had `decryptMessage` thrown). */
  function HistoryEntry(aes: Aes, msg: Message): (r: Message)
    ensures r.(text := msg.text) == msg
    ensures r.text.Str? && r.text.s != ""
  {
    if LacksText(msg.text) then
      msg.(text := Str(if msg.image != "" then ImageSent else NoMessageText))
    else
      match DecryptMessage(aes, msg.text.s)
      case Returned(plain) => msg.(text := Str(plain))
      case Threw => msg.(text := Str(FailedToDecrypt))
  }

  /** What one history entry becomes: every field but `text` is kept; an
      entry whose text is missing, not a string or blank gets a placeholder
      chosen by its image, WITHOUT being decrypted; any other entry gets what
      `decryptMessage` returns, so the "failed to decrypt" text of the
      `catch` branch never appears. */
  lemma HistoryEntrySpec(aes: Aes, msg: Message)
    ensures HistoryEntry(aes, msg).(text := msg.text) == msg
    ensures (!msg.text.Str? || IsBlank(msg.text.s)) ==>
              HistoryEntry(aes, msg).text == Str(if msg.image != "" then ImageSent else NoMessageText)
    ensures (msg.text.Str? && !IsBlank(msg.text.s)) ==>
              HistoryEntry(aes, msg).text == Str(DecryptMessage(aes, msg.text.s).value)
  {
    if msg.text.Str? {
      TrimEmptyIffBlank(msg.text.s);
    }
  }

  /** An entry whose ciphertext cannot be decrypted is still kept, showing
      the fallback text of `decryptMessage`. */
  lemma CorruptEntryShowsFallback(aes: Aes, msg: Message)
    requires msg.text.Str? && !IsBlank(msg.text.s)
    requires aes.decrypt(msg.text.s, SecretKey).Threw?
    ensures HistoryEntry(aes, msg) == msg.(text := Str(DecryptFallback))
  {
    HistoryEntrySpec(aes, msg);
  }

  /** `res.data.map(...)`: the history, entry by entry, in the server's order. */
  function DecryptHistory(aes: Aes, data: seq<Message>): (r: seq<Message>)
    ensures |r| == |data|
    ensures forall i :: 0 <= i < |data| ==> r[i] == HistoryEntry(aes, data[i])
  {
    if data == [] then []
    else DecryptHistory(aes, data[..|data| - 1]) + [HistoryEntry(aes, data[|data| - 1])]
  }

  /** A history of three entries whose middle ciphertext is corrupt loads as
      three entries in the same order: two with their plaintext and one with
      the fallback text. */
  lemma {:induction false} HistoryWithCorruptEntry(aes: Aes, m1: Message, m2: Message, m3: Message)
    requires m1.text == Str("c1") && m2.text == Str("c2") && m3.text == Str("c3")
    requires aes.decrypt("c1", SecretKey) == Returned("hello")
    requires aes.decrypt("c2", SecretKey).Threw?
    requires aes.decrypt("c3", SecretKey) == Returned("bye")
    ensures |DecryptHistory(aes, [m1, m2, m3])| == 3
    ensures DecryptHistory(aes, [m1, m2, m3])[0] == m1.(text := Str("hello"))
    ensures DecryptHistory(aes, [m1, m2, m3])[1] == m2.(text := Str(DecryptFallback))
    ensures DecryptHistory(aes, [m1, m2, m3])[2] == m3.(text := Str("bye"))
  {
    var data := [m1, m2, m3];
    assert data[0] == m1 && data[1] == m2 && data[2] == m3;
    NonSpaceStartNotBlank("c1");
    NonSpaceStartNotBlank("c2");
    NonSpaceStartNotBlank("c3");
    DecryptedEntry(aes, m1, "hello");
    CorruptEntryShowsFallback(aes, m2);
    DecryptedEntry(aes, m3, "bye");
  }

  /** An entry whose ciphertext decrypts to non-empty text shows that text. */
  lemma DecryptedEntry(aes: Aes, msg: Message, plain: string)
    requires msg.text.Str? && !IsBlank(msg.text.s)
    requires aes.decrypt(msg.text.s, SecretKey) == Returned(plain) && plain != ""
    ensures HistoryEntry(aes, msg) == msg.(text := Str(plain))
  {
    HistoryEntrySpec(aes, msg);
  }

  /** A text whose first character is not white space is not blank. */
  lemma NonSpaceStartNotBlank(s: string)
    requires |s| > 0 && !IsSpace(s[0])
    ensures !IsBlank(s)
  {
    assert !IsSpace(s[0]);
  }

  /** `state.messages.filter((msg) => msg._id !== id)` */
  function RemoveById(ms: seq<Message>, id: string): (r: seq<Message>)
    ensures |r| <= |ms|
    ensures forall m :: m in r <==> m in ms && m.id != id
  {
    if ms == [] then []
    else if ms[0].id != id then [ms[0]] + RemoveById(ms[1..], id)
    else RemoveById(ms[1..], id)
  }

  /** The removal keeps the remaining messages in their order. */
  lemma {:induction false} RemoveByIdKeepsOrder(ms: seq<Message>, id: string)
    ensures IsSubsequence(RemoveById(ms, id), ms)
  {
    if ms != [] {
      RemoveByIdKeepsOrder(ms[1..], id);
      var rest := RemoveById(ms[1..], id);
      if ms[0].id != id {
        assert RemoveById(ms, id) == [ms[0]] + rest;
        assert ([ms[0]] + rest)[1..] == rest;
      } else if rest != [] {
        assert RemoveById(ms, id) == rest;
      }
    }
  }

  /** The removal keeps every other message exactly as often as it occurred
      (duplicates included) and drops every occurrence of the id. */
  lemma {:induction false} RemoveByIdCounts(ms: seq<Message>, id: string)
    ensures forall m :: multiset(RemoveById(ms, id))[m] == if m.id == id then 0 else multiset(ms)[m]
  {
    if ms != [] {
      RemoveByIdCounts(ms[1..], id);
      assert ms == [ms[0]] + ms[1..];
    }
  }

  /** Removing twice removes nothing more. */
  lemma {:induction false} RemoveByIdIdempotent(ms: seq<Message>, id: string)
    ensures RemoveById(RemoveById(ms, id), id) == RemoveById(ms, id)
  {
    if ms != [] {
      RemoveByIdIdempotent(ms[1..], id);
      if ms[0].id != id {
        assert RemoveById(ms, id)[1..] == RemoveById(ms[1..], id);
      }
    }
  }

  /** Removing an id no message has changes nothing. */
  lemma {:induction false} RemoveAbsentId(ms: seq<Message>, id: string)
    requires forall m :: m in ms ==> m.id != id
    ensures RemoveById(ms, id) == ms
  {
    if ms != [] {
      assert ms[0] in ms;
      assert forall m :: m in ms[1..] ==> m in ms;
      RemoveAbsentId(ms[1..], id);
      assert ms == [ms[0]] + ms[1..];
    }
  }

  /** A server message with its `text` run through `decryptMessage`:
      `{ ...m, text: decryptMessage(m.text) }`. It is both the echo of a
      successful `POST /messages/send/:id` and the message the `newMessage`
      handler appends. */
  function DecryptedCopy(aes: Aes, data: Message): (r: Message)
    ensures r.(text := data.text) == data
    ensures r.text.Str? && r.text.s != ""
    ensures data.text.Str? ==> r.text.s == DecryptMessage(aes, data.text.s).value
    ensures !data.text.Str? ==> r.text.s == DecryptFallback
  {
    data.(text := Str(DecryptValue(aes, data.text).value))
  }

  /** The message body `sendMessage` posts: `{...messageData, text: encrypted}`. */
  datatype Outgoing = Outgoing(text: string, image: string)

  /** What `sendMessage` holds across its `await`: the `messages` it read
      before the request, the peer it posts to, and the body it posted. */
  datatype SendRequest = SendRequest(snapshot: seq<Message>, to: UserId, body: Outgoing)

  /** When the server echoes the ciphertext it was sent, the appended echo
      shows the typed text; an image-only message (empty text) shows the
      decryption fallback instead. */
  lemma EchoShowsTypedText(aes: Aes, text: string, salt: Salt, data: Message)
    requires Inverse(aes)
    requires data.text == Str(EncryptMessage(aes, text, salt))
    ensures DecryptedCopy(aes, data).text == Str(if text == "" then DecryptFallback else text)
    ensures DecryptedCopy(aes, data).(text := data.text) == data
  {
  }

  /** How many of the registered listeners captured `peer`. */
  function CountOf(listeners: seq<UserId>, peer: UserId): (n: nat)
    ensures n <= |listeners|
    ensures n == 0 <==> peer !in listeners
  {
    if listeners == [] then 0
    else CountOf(listeners[..|listeners| - 1], peer)
         + (if listeners[|listeners| - 1] == peer then 1 else 0)
  }

  /** The signed-in user's socket, as far as the store uses it: the
      `newMessage` listeners, each known by the peer id it compares against. */
  class LiveSocket {
    var listeners: seq<UserId>

    constructor ()
      ensures listeners == []
    {
      listeners := [];
    }
  }

  class Store {
    const aes: Aes
    var messages: seq<Message>
    var users: seq<User>
    var selectedUser: Option<User>
    var isUsersLoading: bool
    var isMessagesLoading: bool

    constructor (aes: Aes)
      ensures this.aes == aes
      ensures messages == [] && users == [] && selectedUser == None
      ensures !isUsersLoading && !isMessagesLoading
    {
      this.aes := aes;
      messages := [];
      users := [];
      selectedUser := None;
      isUsersLoading := false;
      isMessagesLoading := false;
    }

    /** `getUsers`, up to its `await`: the loading flag is raised. */
    method BeginGetUsers()
      modifies this`isUsersLoading
      ensures isUsersLoading
    {
      isUsersLoading := true;
    }

    /** `getUsers` after its `await`: the contact list is replaced on
        success and kept on failure; the loading flag is lowered on both
        paths (the `finally`). */
    method CompleteGetUsers(res: Http<seq<User>>)
      modifies this`users, this`isUsersLoading
      ensures users == (if res.Ok? then res.data else old(users))
      ensures !isUsersLoading
    {
      if res.Ok? {
        users := res.data;
      }
      isUsersLoading := false;
    }

    /** `getMessages(conversationId)`, up to its `await`: the loading flag is
        raised and the history of `conversationId` is requested. */
    method BeginGetMessages(conversationId: UserId) returns (requested: UserId)
      modifies this`isMessagesLoading
      ensures isMessagesLoading
      ensures requested == conversationId
    {
      isMessagesLoading := true;
      requested := conversationId;
    }

    /** `getMessages` after its `await`. `res` is `Ok(None)` for a response
        without data. The list becomes the decrypted history only when data
        arrived; a missing body or a failed request leaves it as it is. The
        loading flag is lowered on every path. The response is applied
        whichever peer is selected by then. */
    method CompleteGetMessages(res: Http<Option<seq<Message>>>)
      modifies this`messages, this`isMessagesLoading
      ensures messages == (if res.Ok? && res.data.Some? then DecryptHistory(aes, res.data.value)
                           else old(messages))
      ensures !isMessagesLoading
    {
      if res.Ok? && res.data.Some? {
        messages := DecryptHistory(aes, res.data.value);
      }
      isMessagesLoading := false;
    }

    /** `setMessages(newMessages)` */
    method SetMessages(newMessages: seq<Message>)
      modifies this`messages
      ensures messages == newMessages
    {
      messages := newMessages;
    }

    /** `removeMessage(id)`: exactly the messages with that id go, the rest
        stay in order. */
    method RemoveMessage(id: string)
      modifies this`messages
      ensures messages == RemoveById(old(messages), id)
      ensures forall m :: m in messages <==> m in old(messages) && m.id != id
    {
      messages := RemoveById(messages, id);
    }

    /** `sendMessage(messageData)`, up to its `await`: the selected peer and
        the current list are read, the text is encrypted with a fresh salt,
        and the request is made. Nothing in the store changes. With no peer
        selected, `selectedUser._id` throws inside the `try`, the `catch`
        throws again, and no request is made. */
    method BeginSendMessage(text: string, image: string, salt: Salt)
      returns (request: Option<SendRequest>)
      ensures selectedUser.None? <==> request.None?
      ensures request.Some? ==>
                request.value.snapshot == messages
                && request.value.to == selectedUser.value.id
                && request.value.body == Outgoing(EncryptMessage(aes, text, salt), image)
      ensures Inverse(aes) && text != "" && request.Some? ==>
                DecryptMessage(aes, request.value.body.text) == Returned(text)
    {
      if selectedUser.None? {
        request := None;
      } else {
        var encrypted := EncryptMessage(aes, text, salt);
        request := Some(SendRequest(messages, selectedUser.value.id, Outgoing(encrypted, image)));
      }
    }

    /** `sendMessage` after its `await`. On success the list becomes the
        snapshot read BEFORE the request followed by the decrypted echo, so
        anything appended while the request was in flight is dropped. On
        failure the list is unchanged. */
    method CompleteSendMessage(request: SendRequest, res: Http<Message>)
      modifies this`messages
      ensures res.Ok? ==> messages == request.snapshot + [DecryptedCopy(aes, res.data)]
      ensures res.Failed? ==> messages == old(messages)
    {
      if res.Ok? {
        messages := request.snapshot + [DecryptedCopy(aes, res.data)];
      }
    }

    /** `subscribeToMessages`: with no peer selected nothing happens;
        otherwise one more `newMessage` listener is registered, capturing the
        currently selected peer. */
    method SubscribeToMessages(socket: LiveSocket)
      modifies socket
      ensures selectedUser.None? ==> socket.listeners == old(socket.listeners)
      ensures selectedUser.Some? ==> socket.listeners == old(socket.listeners) + [selectedUser.value.id]
    {
      if selectedUser.Some? {
        socket.listeners := socket.listeners + [selectedUser.value.id];
      }
    }

    /** `unsubscribeFromMessages`: `socket.off("newMessage")` drops EVERY
        `newMessage` listener. */
    method UnsubscribeFromMessages(socket: LiveSocket)
      modifies socket
      ensures socket.listeners == []
    {
      socket.listeners := [];
    }

    /** One `newMessage` listener, registered for `peer`, handling `event`:
        an event from another sender is ignored; otherwise the decrypted
        event is appended to the CURRENT list. `decryptMessage` never throws,
        so the `catch` that would drop the event is never taken. */
    method HandleNewMessage(peer: UserId, event: Message)
      modifies this`messages
      ensures event.senderId != peer ==> messages == old(messages)
      ensures event.senderId == peer ==> messages == old(messages) + [DecryptedCopy(aes, event)]
    {
      if event.senderId != peer {
        return;
      }
      match DecryptValue(aes, event.text)
      case Returned(decrypted) =>
        messages := messages + [event.(text := Str(decrypted))];
      case Threw =>
    }

    /** The socket delivering one `newMessage` event: every listener runs in
        registration order, so the event is appended once per listener that
        captured its sender. */
    method ReceiveNewMessage(socket: LiveSocket, event: Message)
      modifies this`messages
      ensures messages == old(messages)
                          + Repeat(DecryptedCopy(aes, event), CountOf(socket.listeners, event.senderId))
    {
      var i := 0;
      while i < |socket.listeners|
        invariant 0 <= i <= |socket.listeners|
        invariant messages == old(messages)
                              + Repeat(DecryptedCopy(aes, event), CountOf(socket.listeners[..i], event.senderId))
      {
        assert socket.listeners[..i + 1][..i] == socket.listeners[..i];
        HandleNewMessage(socket.listeners[i], event);
        i := i + 1;
      }
      assert socket.listeners[..i] == socket.listeners;
    }

    /** `setSelectedUser(selectedUser)` */
    method SetSelectedUser(user: Option<User>)
      modifies this`selectedUser
      ensures selectedUser == user
    {
      selectedUser := user;
    }
  }

  /** The identity cipher: a stand-in that inverts, for the scenarios below. */
  function Plain(): (aes: Aes)
    ensures Inverse(aes)
  {
    Aes((m: string, key: string, salt: Salt) => m, (c: string, key: string) => Returned(c))
  }

  /** A message from the peer arrives while a send is in flight: it is shown
      at once, and then the send's completion replaces the list with the
      pre-request snapshot plus the echo, so the arrived message disappears
      from the view (it comes back only with the next history load). */
  method SendDropsConcurrentArrival() returns (during: seq<Message>, after: seq<Message>)
    ensures |during| == 1 && during[0].id == "live"
    ensures |after| == 1 && after[0].id == "echo"
  {
    var store := new Store(Plain());
    var socket := new LiveSocket();
    store.SetSelectedUser(Some(User("P", "Peer", "")));
    store.SubscribeToMessages(socket);
    var request := store.BeginSendMessage("hi", "", 0);
    store.ReceiveNewMessage(socket, Message("live", "P", "me", Str("yo"), "", "t1"));
    during := store.messages;
    store.CompleteSendMessage(request.value, Ok(Message("echo", "me", "P", Str("hi"), "", "t2")));
    after := store.messages;
  }

  /** The user opens peer X, then peer Y before X's history has arrived. Y's
      history arrives, then X's: the stale response is applied, so the view
      shows X's history while Y is selected. */
  method StaleHistoryIsApplied(x: Message, y: Message)
    returns (selected: Option<User>, shown: seq<Message>, loading: bool)
    ensures selected == Some(User("Y", "Yan", ""))
    ensures shown == [HistoryEntry(Plain(), x)]
    ensures !loading
  {
    var store := new Store(Plain());
    store.SetSelectedUser(Some(User("X", "Xia", "")));
    var _ := store.BeginGetMessages("X");
    store.SetSelectedUser(Some(User("Y", "Yan", "")));
    var _ := store.BeginGetMessages("Y");
    store.CompleteGetMessages(Ok(Some([y])));
    store.CompleteGetMessages(Ok(Some([x])));
    selected := store.selectedUser;
    shown := store.messages;
    loading := store.isMessagesLoading;
  }
}
