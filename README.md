# Yappers chat: presence relay and client conversation store

A verified Dafny model of the logic at the heart of a small two-party chat
application (Express and socket.io server, React and zustand client):

- the server's presence registry and message relay: the map from user id to
  socket id, its connection, `send-message` and `disconnect` handlers, and
  the events they emit (`presence.dfy`);
- the client conversation store: history load with per-message decryption
  and placeholders, send with encrypt-before-post and echo, removal by id,
  the live `newMessage` subscription, the loading flags (`chat_store.dfy`);
- the body cipher wrapper `encryptMessage` / `decryptMessage`, with AES taken
  as a parameter that is only assumed to invert (`crypto.dfy`);
- the chat pane glue: the load/subscribe/cleanup effect, the delete handler
  and the own-message delete control (`chat_container.dfy`);
- the contact sidebar: online filter, online count, row flags
  (`sidebar.dfy`);
- the sign-up and login form validators (`signup_page.dfy`,
  `login_page.dfy`), over a model of JavaScript's `trim` and of the
  unanchored pattern `\S+@\S+\.\S+` (`js_string.dfy`).

Code that mutates state is modelled as classes: `Presence.PresenceServer`
holds `userSocketMap`; `ChatStore.Store` holds the store's fields and
`ChatStore.LiveSocket` the registered `newMessage` listeners;
`ChatContainer.Container` holds the effect's state. Each `await` of the
store splits an operation into a `Begin…` and a `Complete…` method, so
other steps can run in between and the snapshot `sendMessage` takes before
its request stays visible. `Container.HandleDelete` is the exception: it
takes how its request settled as an input and models only the step after
its `await`, because nothing before that request changes any state. Emitted socket events are returned as values. HTTP responses,
the socket, `onlineUsers`, `authUser` and the random salt are inputs.

Behaviour of the code worth knowing:
- a history response that arrives after the user switched peers is applied,
  not discarded (`ChatStore.StaleHistoryIsApplied`);
- a live message whose text cannot be decrypted is appended with the
  fallback text, not dropped, because `decryptMessage` never throws;
- `sendMessage` replaces the list with its pre-request snapshot plus the echo,
  so a live message that arrived during the request disappears
  (`ChatStore.SendDropsConcurrentArrival`);
- an older socket's `disconnect` deletes its user's entry even after a newer
  socket of the same user registered (`Presence.StaleDisconnectScenario`);
- decrypting the encryption of the empty text gives the fallback text, not
  the empty text, so, when the server echoes the posted text, an image-only
  message's echo reads "Error: Unable to decrypt message" (`ChatStore.EchoShowsTypedText`).

## Model

| member | source | states |
|---|---|---|
| `Presence.PresenceServer.constructor` | backend/src/lib/socket.js:6 | the registry starts empty |
| `Presence.PresenceServer.GetReceiverSocketId` | backend/src/lib/socket.js:8-10 | a socket id is returned exactly for a registered user, and it is the one registered |
| `Presence.PresenceServer.OnConnection` | backend/src/lib/socket.js:22-29 | a truthy handshake `userId` is mapped to the socket id, overwriting any earlier entry (last connection wins), and exactly one broadcast of the new key set follows; a missing or empty `userId` changes nothing and emits nothing |
| `Presence.PresenceServer.OnSendMessage` | backend/src/lib/socket.js:31-39 | exactly one `newMessage` is emitted iff the recipient has a (non-empty) registered socket id; it goes to that socket, carries the message unchanged and the sender's handshake `userId`; the map is not changed |
| `Presence.PresenceServer.OnDisconnect` | backend/src/lib/socket.js:41-46 | a registered socket's user id is deleted whatever socket id it maps to now, and the new key set is broadcast, also when the key was already gone; other sockets change and emit nothing |
| `Presence.RelayIffRegistered` | backend/src/lib/socket.js:31-33 | while all registered ids are non-empty, relaying happens iff the recipient is a key |
| `Presence.RelayScenario` | backend/src/lib/socket.js:22-46 | A and B connect, A sends to B: B alone gets one event from A; after B disconnects the same send emits nothing |
| `Presence.StaleDisconnectScenario` | backend/src/lib/socket.js:41-46 | a reconnecting user's old socket closing removes the new socket's entry; a repeated close leaves the map as is and re-broadcasts it |
| `Presence.AnonymousSenderScenario` | backend/src/lib/socket.js:25-37 | a socket without `userId` is never registered, yet its sends are relayed with an absent sender |
| `Crypto.DecryptMessage` | frontend/src/lib/crypto.js:9-21 | total: always returns a non-empty string; a thrown or empty decode gives the fallback text, a non-empty decode is returned unchanged |
| `Crypto.EncryptMessage` | frontend/src/lib/crypto.js:5-7 | with an inverting cipher, decrypting the result gives back a non-empty message, and the fallback text for the empty message |
| `Crypto.RoundTrip` | frontend/src/lib/crypto.js:5-21 | `decryptMessage(encryptMessage(m))` is `m` for non-empty `m` and the fallback for `m == ""`, for every salt |
| `Crypto.DecryptIgnoresSalt` | frontend/src/lib/crypto.js:5-7 | two encryptions of one text decrypt alike although the salt differs |
| `JsString.Trim` | frontend/src/pages/SignUpPage.jsx:33 | definition: `TrimEnd` after `TrimStart`; its properties are in `JsString.TrimShape`, `JsString.TrimEdges` and `JsString.TrimEmptyIffBlank` |
| `JsString.TrimStart` | frontend/src/pages/SignUpPage.jsx:33 | the result is a suffix cut only of leading white space and starts with a non-space character |
| `JsString.TrimEnd` | frontend/src/pages/SignUpPage.jsx:33 | the result is a prefix cut only of trailing white space and ends with a non-space character |
| `JsString.TrimShape` | frontend/src/pages/SignUpPage.jsx:33 | `trim` cuts a blank prefix and a blank suffix and keeps the rest of the string unchanged |
| `JsString.TrimEdges` | frontend/src/pages/SignUpPage.jsx:33 | a non-empty trimmed string neither starts nor ends with white space |
| `JsString.TrimEmptyIffBlank` | frontend/src/store/useChatStore.js:36 | `s.trim()` is empty iff every character of `s` is white space |
| `JsString.EmailPatternTest` | frontend/src/pages/SignUpPage.jsx:35 | definition: an index search for the `@` and the `.`; its agreement with the regular expression is `JsString.EmailPatternTestIsRegex` |
| `JsString.EmailPatternTestSound` | frontend/src/pages/SignUpPage.jsx:35 | an `@`/`.` index witness yields a substring the regular expression matches |
| `JsString.EmailPatternTestComplete` | frontend/src/pages/LoginPage.jsx:30 | any matched substring yields an index witness |
| `JsString.EmailPatternTestIsRegex` | frontend/src/pages/SignUpPage.jsx:35 | the index search decides exactly the unanchored test of `\S+@\S+\.\S+` |
| `JsString.EmailPatternNotBlank` | frontend/src/pages/SignUpPage.jsx:34-35 | an accepted email is never blank and contains `@` and `.`, so "required" and "format" never report the same input |
| `ChatStore.LacksText` | frontend/src/store/useChatStore.js:36 | the placeholder test holds iff the text is missing, not a string, or blank |
| `ChatStore.HistoryEntry` | frontend/src/store/useChatStore.js:35-56 | the `map` callback keeps every field but `text` and always yields a non-empty text |
| `ChatStore.DecryptedEntry` | frontend/src/store/useChatStore.js:43-48 | an entry whose ciphertext decrypts to non-empty text shows exactly that text |
| `ChatStore.DecryptValue` | frontend/src/store/useChatStore.js:85 | `decryptMessage` on any field value returns a non-empty string; a non-string gives the fallback |
| `ChatStore.HistoryEntrySpec` | frontend/src/store/useChatStore.js:35-56 | every field but `text` is kept; missing, non-string or blank text gets "Image sent" or "⚠️ No message text" by image, without decryption; other text gets `decryptMessage`'s result, so the "failed to decrypt" branch is dead |
| `ChatStore.CorruptEntryShowsFallback` | frontend/src/store/useChatStore.js:43-48 | an undecryptable entry is kept, with only its text replaced by the fallback text |
| `ChatStore.DecryptHistory` | frontend/src/store/useChatStore.js:35-56 | same length and order as the response, each entry mapped as above |
| `ChatStore.HistoryWithCorruptEntry` | frontend/src/store/useChatStore.js:35-58 | three entries with a corrupt middle one load as three entries in order: plaintext, fallback, plaintext |
| `ChatStore.RemoveById` | frontend/src/store/useChatStore.js:69-72 | a message stays iff it was there and its id differs |
| `ChatStore.RemoveByIdCounts` | frontend/src/store/useChatStore.js:71 | every message with another id stays exactly as often as it occurred, duplicates included; none with the id stays |
| `ChatStore.RemoveByIdKeepsOrder` | frontend/src/store/useChatStore.js:71 | the remaining messages keep their relative order |
| `ChatStore.RemoveByIdIdempotent` | frontend/src/store/useChatStore.js:69-72 | removing the same id twice equals removing it once |
| `ChatStore.RemoveAbsentId` | frontend/src/store/useChatStore.js:71 | removing an id no message has leaves the list unchanged |
| `ChatStore.DecryptedCopy` | frontend/src/store/useChatStore.js:85-109 | the send echo (lines 85-86) and a live event (lines 105-109) keep every field but `text`, whose value is what `decryptMessage` returns for it (the fallback for a non-string), never empty |
| `ChatStore.EchoShowsTypedText` | frontend/src/store/useChatStore.js:77-86 | if the server echoes the posted ciphertext, the appended echo shows the typed text (the fallback for empty text) and keeps its other fields |
| `ChatStore.Store.constructor` | frontend/src/store/useChatStore.js:8-12 | empty lists, no peer, both loading flags false |
| `ChatStore.Store.BeginGetUsers` | frontend/src/store/useChatStore.js:14-15 | raises `isUsersLoading` and changes nothing else |
| `ChatStore.Store.CompleteGetUsers` | frontend/src/store/useChatStore.js:16-23 | users replaced on success, kept on failure; the flag is false on both paths |
| `ChatStore.Store.BeginGetMessages` | frontend/src/store/useChatStore.js:26-29 | raises `isMessagesLoading` and requests the given conversation |
| `ChatStore.Store.CompleteGetMessages` | frontend/src/store/useChatStore.js:29-64 | the list becomes the decrypted history only when data arrived, else is unchanged; the flag is false on every path |
| `ChatStore.Store.SetMessages` | frontend/src/store/useChatStore.js:67 | the list is replaced |
| `ChatStore.Store.RemoveMessage` | frontend/src/store/useChatStore.js:69-72 | the list loses exactly the messages with that id |
| `ChatStore.Store.BeginSendMessage` | frontend/src/store/useChatStore.js:74-84 | with a peer, the request carries the current list as snapshot, the peer's id and the encrypted text, which decrypts back to non-empty typed text; without a peer there is no request; the store is unchanged |
| `ChatStore.Store.CompleteSendMessage` | frontend/src/store/useChatStore.js:84-89 | on success the list is the pre-request snapshot plus the decrypted echo; on failure it is unchanged |
| `ChatStore.Store.SubscribeToMessages` | frontend/src/store/useChatStore.js:92-98 | no peer: nothing; else one listener capturing the current peer is added |
| `ChatStore.Store.HandleNewMessage` | frontend/src/store/useChatStore.js:98-121 | an event from another sender is ignored; one from the captured peer is appended, decrypted, to the current list |
| `ChatStore.Store.ReceiveNewMessage` | frontend/src/store/useChatStore.js:98-113 | the event is appended once per listener that captured its sender |
| `ChatStore.Store.UnsubscribeFromMessages` | frontend/src/store/useChatStore.js:124-127 | all `newMessage` listeners are removed |
| `ChatStore.Store.SetSelectedUser` | frontend/src/store/useChatStore.js:129 | the selected peer is replaced |
| `ChatStore.SendDropsConcurrentArrival` | frontend/src/store/useChatStore.js:75-89 | a message shown during a send disappears when the send completes |
| `ChatStore.StaleHistoryIsApplied` | frontend/src/store/useChatStore.js:26-64 | a late history response for the previous peer overwrites the view while the new peer is selected, and loading ends |
| `ChatContainer.IsOwnMessage` | frontend/src/components/ChatContainer.jsx:101 | definition: the message's sender is the signed-in user; no contract of its own |
| `ChatContainer.DeleteTargets` | frontend/src/components/ChatContainer.jsx:100-171 | a delete control is offered for an id iff some message with that id is the signed-in user's own |
| `ChatContainer.MessagePane` | frontend/src/components/ChatContainer.jsx:97-99 | definition: the skeleton while loading, else the list when non-empty, else the empty-conversation prompt; no contract of its own |
| `ChatContainer.DeleteControls` | frontend/src/components/ChatContainer.jsx:97-171 | no delete control is on screen while loading or for an empty conversation; otherwise a control is shown for an id exactly when one of the user's own messages carries it |
| `ChatContainer.Container.constructor` | frontend/src/components/ChatContainer.jsx:13-27 | not mounted, no listener |
| `ChatContainer.Container.RunEffect` | frontend/src/components/ChatContainer.jsx:29-33 | history requested, for that id, iff the selected user has a truthy `_id` (the loading flag is then raised, else untouched); afterwards exactly the selected peer's listener is registered, none without a peer |
| `ChatContainer.Container.Cleanup` | frontend/src/components/ChatContainer.jsx:34 | all listeners removed |
| `ChatContainer.Container.Mount` | frontend/src/components/ChatContainer.jsx:29-35 | after mounting exactly the selected peer's listener exists (none without a peer) and history is requested iff the selected user has a truthy `_id` |
| `ChatContainer.Container.Rerender` | frontend/src/components/ChatContainer.jsx:29-35 | on a peer change the old listener is removed before the new peer's is added and the new peer's history is requested iff its `_id` is truthy; otherwise nothing happens |
| `ChatContainer.Container.SelectPeer` | frontend/src/components/ChatContainer.jsx:29-35 | after choosing a peer exactly that peer's listener is registered; its history is requested iff it differs from the active run's peer and its `_id` is truthy |
| `ChatContainer.Container.Unmount` | frontend/src/components/ChatContainer.jsx:34 | no listener remains |
| `ChatContainer.Container.HandleDelete` | frontend/src/components/ChatContainer.jsx:43-50 | only a resolved remote delete is followed by local removal of the same id; a rejection leaves the list unchanged |
| `ChatContainer.AtMostOneAppend` | frontend/src/components/ChatContainer.jsx:29-35 | under the container's single listener a message from the selected peer is appended once, others never |
| `ChatContainer.SwitchPeerScenario` | frontend/src/components/ChatContainer.jsx:29-35 | after switching from X to Y, X's live messages are not shown and Y's are shown once |
| `Sidebar.OnlineOnly` | frontend/src/components/Sidebar.jsx:28 | a contact is kept iff it is in the list and its id is online |
| `Sidebar.IsOnline` | frontend/src/components/Sidebar.jsx:115 | definition: the user's id is in `onlineUsers`; no contract of its own |
| `Sidebar.IsSelected` | frontend/src/components/Sidebar.jsx:114 | definition: a peer is selected and has the user's id; no contract of its own |
| `Sidebar.OnlineOnlyCounts` | frontend/src/components/Sidebar.jsx:28 | every online contact is kept exactly as often as it is listed, duplicates included; no other contact is kept |
| `Sidebar.FilteredUsers` | frontend/src/components/Sidebar.jsx:27-29 | definition: the online filter when the toggle is on, else all users; its properties are in `Sidebar.FilteredUsersSpec` |
| `Sidebar.OnlineOnlyKeepsOrder` | frontend/src/components/Sidebar.jsx:28 | the kept contacts are an order-preserving subsequence |
| `Sidebar.FilteredUsersSpec` | frontend/src/components/Sidebar.jsx:27-29 | toggle off: all users as is; toggle on: exactly the online users, in order and with their multiplicities; in both cases an order-preserving subsequence |
| `Sidebar.OnlineCount` | frontend/src/components/Sidebar.jsx:106 | never negative; the length of `onlineUsers` minus one when non-empty, 0 when empty or missing |
| `Sidebar.Rows` | frontend/src/components/Sidebar.jsx:113-115 | one row per user, highlighted iff its id is the selected user's, online iff its id is in `onlineUsers` |
| `Sidebar.Render` | frontend/src/components/Sidebar.jsx:27-202 | definition: the skeleton while loading, else the count, the rows of the filtered users and the "No online users" flag; its properties are in `Sidebar.RenderSpec` |
| `Sidebar.RenderSpec` | frontend/src/components/Sidebar.jsx:27-202 | rows are the filtered users in order with correct flags; with the toggle on all rows are online; "No online users" shows iff there is no row |
| `SignUpPage.ValidateForm` | frontend/src/pages/SignUpPage.jsx:32-38 | `true` iff name and email are non-blank, the email matches and the password is non-empty; otherwise exactly the first failing check (name, email blank, format, password) is reported |
| `SignUpPage.HandleSubmit` | frontend/src/pages/SignUpPage.jsx:40-44 | `signup` is called, with the form, exactly when the name is not blank, the email matches the pattern and the password is non-empty |
| `SignUpPage.ErrorText` | frontend/src/pages/SignUpPage.jsx:33-36 | definition: the toast text of each failed check; no contract of its own |
| `SignUpPage.SubmitToast` | frontend/src/pages/SignUpPage.jsx:32-44 | a submit shows no toast exactly when `signup` is called; each of the four texts is shown exactly when its check is the first to fail |
| `SignUpPage.WhitespaceCases` | frontend/src/pages/SignUpPage.jsx:33-36 | blank name or email is reported as missing, not as bad format; a password of spaces passes |
| `SignUpPage.EmbeddedAddressAccepted` | frontend/src/pages/SignUpPage.jsx:35 | the unanchored pattern accepts an address inside other text |
| `SignUpPage.DoubleAtAccepted` | frontend/src/pages/SignUpPage.jsx:35 | `a@@b.c` passes |
| `SignUpPage.MissingTopLevelRejected` | frontend/src/pages/SignUpPage.jsx:35 | `a@b.` is a format error |
| `LoginPage.ValidateForm` | frontend/src/pages/LoginPage.jsx:28-33 | `true` iff the email is non-blank and matches and the password is non-empty; otherwise the first failing check (email blank, format, password) is reported |
| `LoginPage.HandleSubmit` | frontend/src/pages/LoginPage.jsx:35-39 | `login` is called, with the form, exactly when the email matches the pattern and the password is non-empty |
| `LoginPage.ErrorText` | frontend/src/pages/LoginPage.jsx:29-31 | definition: the toast text of each failed check; no contract of its own |
| `LoginPage.SubmitToast` | frontend/src/pages/LoginPage.jsx:28-39 | a submit shows no toast exactly when `login` is called; each of the three texts is shown exactly when its check is the first to fail |
| `LoginPage.ValidIffPatternAndPassword` | frontend/src/pages/LoginPage.jsx:28-32 | acceptance needs only a matching email and a non-empty password, the blank check being implied |
| `LoginPage.WhitespaceCases` | frontend/src/pages/LoginPage.jsx:29-31 | a blank email is reported as missing; a password of spaces passes |

## Left out

- Transport and server setup: the socket.io `Server`, the HTTP server, CORS,
  `io.emit`/`io.to` delivery, and backend/src/index.js. Emits are returned as
  values; the presence broadcast is a set because the order of
  `Object.keys` is not modelled.
- Property names that JavaScript objects inherit (`__proto__`,
  `constructor`) as user ids: the model's map has no prototype.
- The `to` field of `send-message` is taken as a string; JavaScript's
  coercion of other values to property names is not modelled.
- `Presence.PresenceServer.OnSendMessage` takes the payload's `to` and
  `message` as given: a `send-message` whose payload is `undefined` or
  `null` makes the destructuring at backend/src/lib/socket.js:31 throw a
  `TypeError` that socket.js does not catch; that path is not modelled.
- `Presence.Socket`: the handshake `userId` is a string or absent. A
  repeated `userId` query key arrives as an array; as a key of the map it
  would act as its comma-joined string (which a caller can pass), but the
  `senderId` relayed with `newMessage` would be the array itself, which the
  model cannot express.
- HTTP calls (frontend/src/lib/axios.js, the store's `axiosInstance` calls):
  each settled request is an input (`Ok` or `Failed`). A response whose data
  is not an array or holds `null` entries (the `map` then throws) is not
  modelled.
- CryptoJS AES and UTF-8 decoding: a parameter assumed only to invert.
  The salt is an input, so `encryptMessage` is not assumed deterministic.
  What CryptoJS does with a non-string ciphertext is taken to be a failure
  caught by `decryptMessage`.
- Real concurrency: each `await` is two atomic steps.
- `toast` and `console` output; the `toast.error` in `sendMessage`'s `catch`
  that itself throws when the error has no response (the store is
  unchanged either way).
- `useAuthStore` is not part of this model: `socket`, `onlineUsers` and
  `authUser` are inputs.
- The store's own `deleteMessage` (useChatStore.js:131-138) is never called
  by the modelled components; the container uses the axios helper instead.
- MessageInput.jsx, whose blank-text-and-no-image guard decides whether
  `sendMessage` is called at all; the store model accepts any text.
- Presentation-only files (profile, settings, theme, navigation, skeletons)
  and styling.
- End-to-end delivery: the server relays `{message, senderId}` while the
  client reads `text` from the event, and no modelled client code emits
  `send-message`; the two ends are modelled separately.
