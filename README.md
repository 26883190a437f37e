# routelink messaging core, modelled in Dafny

routelink is a ride-sharing web application with a chat between users. This
project models the parts of it that move and select chat messages:

- the backend presence registry (`activeUsers`), a JavaScript `Map` from user
  id to socket id;
- the socket.io handlers `join`, `sendMessage`, `requestUpdate` and
  `disconnect`, as transitions of that registry plus an outbox of emitted
  events;
- the record `sendMessage` stores, and the per-conversation de-duplication
  of `getUserChats`;
- the conversation id `[a, b].sort().join('_')` of the chat page, the choice
  of the other participant, and the selection made from a `userId` URL
  parameter;
- the chat window: the filter that appends relayed messages, the guarded send
  handler, grouping by date key, and the "own message" test;
- the profile form: ordered password checks, the update payload, and the
  resets after success and on cancel.

The files, one Dafny module each:

| file | module | models |
|---|---|---|
| `wrappers.dfy` | `Wrappers` | `Option` |
| `assoc.dfy` | `Assoc` | insertion-ordered entries: the iteration order of a `Map` or an object |
| `js_strings.dfy` | `JsStrings` | the JavaScript string semantics used: UTF-16 code units, `.length`, the default `sort` order, `trim` |
| `presence.dfy` | `Presence` | `backend/utils/socket.js` |
| `relay.dfy` | `Relay` | `backend/server.js`, lines 101-143 |
| `message_controller.dfy` | `MessageController` | `backend/controllers/messageController.js` |
| `chat_page.dfy` | `ChatPage` | `frontend/src/pages/Chat.jsx` |
| `chat_window.dfy` | `ChatWindow` | `frontend/src/components/ChatWindow.jsx` |
| `profile.dfy` | `ProfileForm` | `frontend/src/pages/Profile.jsx`, lines 7-70 |

Modelling choices:

- **The registry is a sequence, not a map.** `ActiveUsers` holds a
  `seq<(UserId, SocketId)>` with distinct user ids. A `Map` iterates in
  insertion order, and overwriting a key keeps its place. Removal by socket
  deletes the *first* entry on that socket. All three facts are observable,
  so the registry is kept as a sequence.
- **Relay handlers are state transitions.** `Relay.Handle` gives the new
  registry entries and at most one emission for one handler run. The
  `Dispatcher` class runs the same handlers against an `ActiveUsers` object.
  Each of its methods is proved equal to `Relay.Apply` on the abstract state.
- **JavaScript truthiness is written out.**
  - `if (receiverSocketId)` holds for a lookup that found a non-empty socket id.
  - `if (formData.password)` holds for a non-empty password.
  - `if (userId && ...)` holds for a URL parameter that is present and non-empty.
- **JavaScript strings work on UTF-16 code units.** `Array.prototype.sort`
  (without a comparator) compares strings by code units, and `.length` counts code units, not characters. `JsStrings.Utf16`
  splits each character (a Unicode scalar value) into one or two code units.
  Ordering and length are defined on those units. `trim` strips the
  ECMAScript WhiteSpace and LineTerminator characters.
- **State setters are assignments.** The React handlers become class methods
  that assign the fields which `setState` would have set. The HTTP and socket
  calls they make become values:
  - the outcome of a call is a parameter (`saved`, `response`);
  - a request made is appended to a `requests` field.

One might expect "register, then remove by the same socket" to leave the
user absent. The code does not guarantee it: when another user id is
registered on the same socket earlier in iteration order, removal deletes
only that earlier entry, and the user just registered stays.
- `Presence.RegisterThenRemove` proves the property under the proviso that no
  other user holds the socket.
- `Presence.SharedSocketRemovesFirstOnly` shows a registry where the property
  fails without that proviso.

## Model

| member | source | states |
|---|---|---|
| `Assoc.IndexOfKey` | backend/utils/socket.js:14 | the position of the first entry for a key (a user in the registry, a date in the message groups), or the length when there is none; no earlier entry has that key |
| `Presence.IndexOfSocket` | backend/utils/socket.js:17-18 | the position of the first entry on a socket in iteration order, or the length when there is none |
| `Presence.Lookup` | backend/utils/socket.js:14 | `get(u)` is undefined iff no entry has `u`; otherwise it is the socket of the first entry for `u` |
| `Presence.Put` | backend/utils/socket.js:10-12 | after `set(u, s)` the pair `(u, s)` is present; other users' entries keep their places; the registry grows by one exactly when `u` was absent; no entry appears except `(u, s)` |
| `Presence.RemoveBySocket` | backend/utils/socket.js:16-23 | null and nothing changed iff no entry is on the socket; otherwise the first entry on it, in iteration order, is deleted and its user returned |
| `Assoc.IndexOfKeyIs` | backend/utils/socket.js:14 | the first-entry conditions determine the index uniquely |
| `Presence.LookupMeaning` | backend/utils/socket.js:14 | with distinct keys, `get(u)` is undefined iff no entry has `u`, the entry `(u, s)` is present iff `get(u)` is `s` |
| `Presence.PutLookup` | backend/utils/socket.js:10-14 | after `set(u, s)`, `get(u)` is `s` and every other user's lookup is unchanged |
| `Presence.PutDistinct` | backend/utils/socket.js:10-12 | `set` keeps the user ids distinct |
| `Presence.PutOverwritesInPlace` | backend/utils/socket.js:11 | overwriting a registered user keeps its position and the entry count; every other entry stays in place |
| `Presence.PutAppendsNewUser` | backend/utils/socket.js:11 | a new user is appended at the end |
| `Presence.PutIdempotent` | backend/utils/socket.js:10-12 | adding the same pair twice gives the registry that adding it once gives |
| `Presence.PutLastWins` | backend/utils/socket.js:10-14 | a second add for the same user replaces the first entirely: the last registration wins |
| `Presence.RemoveAbsent` | backend/utils/socket.js:16-23 | with no entry on the socket, removal returns null and changes nothing |
| `Presence.RemoveFirstMatch` | backend/utils/socket.js:17-21 | with an entry on the socket, removal deletes exactly the first such entry and returns its user; all other entries, other users on that socket included, are kept in order |
| `Presence.RemoveDistinct` | backend/utils/socket.js:16-22 | removal keeps user ids distinct |
| `Presence.RemoveLookup` | backend/utils/socket.js:16-22 | after removal the removed user has no entry and every other user's lookup is unchanged |
| `Presence.StaleHandle` | backend/utils/socket.js:10-21 | after `add(u, a)` and `add(u, b)`, `remove(a)` does not return `u` and leaves `u` on `b`; it returns null unless another user is on `a` |
| `Presence.RegisterThenRemove` | backend/utils/socket.js:10-22 | register then remove by the same socket leaves the user absent, when no other user is on that socket |
| `Presence.SharedSocketRemovesFirstOnly` | backend/utils/socket.js:17-21 | one socket joined under two ids: a disconnect removes only the first entry, and the second user stays online |
| `Presence.ActiveUsers.constructor` | backend/utils/socket.js:2 | the registry starts empty |
| `Presence.ActiveUsers.AddActiveUser` | backend/utils/socket.js:10-12 | new entries are the `set` of the old ones; the user maps to the socket, other lookups unchanged, keys stay distinct |
| `Presence.ActiveUsers.GetSocketId` | backend/utils/socket.js:14 | none iff no entry has the user, otherwise the registered pair's socket; the registry is not modified |
| `Presence.ActiveUsers.RemoveActiveUserBySocketId` | backend/utils/socket.js:16-24 | the scan with early return: null and nothing changed iff no entry is on the socket, otherwise the first such entry is deleted and its user returned |
| `Presence.ActiveUsers.ListActiveUsers` | backend/utils/socket.js:26 | exactly the current entries in order, with no duplicate user ids |
| `Relay.ReceiverSocket` | backend/server.js:112-114 | a target exists iff the receiver's lookup gives a non-empty socket id, and then it is that registered socket |
| `Relay.Handle` | backend/server.js:104-142 | `join` and `disconnect` emit nothing; `join` registers the connection for the given id; the forwarders keep the registry; any emission goes to a non-empty socket id of the registry |
| `Relay.Apply` | backend/server.js:104-142 | the outbox only grows, by at most one event, never on `join` or `disconnect`, and the new event targets a non-empty socket id |
| `Relay.Run` | backend/server.js:101-143 | over a whole trace the outbox only grows, by at most one event per delivery, each added event targeting a non-empty socket id |
| `Relay.JoinRegisters` | backend/server.js:104-105 | `join` registers the socket for whatever id it is given and emits nothing; other users' lookups are unchanged |
| `Relay.SendMessageForwards` | backend/server.js:109-121 | to a registered receiver, exactly one `receiveMessage` goes to its socket with sender, text and chat id unchanged and the server time; the registry is unchanged |
| `Relay.RequestUpdateForwards` | backend/server.js:127-136 | to a registered receiver, exactly one `requestStatusChanged {requestId, status}` goes to its socket; the registry is unchanged |
| `Relay.DropIfAbsent` | backend/server.js:112-136 | `sendMessage` or `requestUpdate` to an unregistered receiver emits nothing and changes nothing |
| `Relay.ForwardingIgnoresSender` | backend/server.js:110-116 | forwarding leaves the registry alone and does not depend on the incoming socket: the client's `senderId` is forwarded, and whether anything is sent depends on `receiverId` alone |
| `Relay.HandleKeepsDistinct` | backend/server.js:101-143 | every handler keeps the registry's user ids distinct |
| `Relay.StaleDisconnectKeepsCurrent` | backend/server.js:139-142 | a late disconnect of an old socket leaves the user on the current socket |
| `Relay.OfflineOnlyIfCurrent` | backend/server.js:139-142 | a disconnect takes a user offline only if it comes from the user's registered socket |
| `Relay.DisconnectOfCurrentGoesOffline` | backend/server.js:139-142 | a disconnect of the user's registered socket, with no earlier entry on it, takes the user offline and reports the user |
| `Relay.RepeatedJoinLastWins` | backend/server.js:104-105 | after any run of joins for one user, the user is on the last joining socket and nothing was emitted |
| `Relay.RelayScenario` | backend/server.js:101-143 | two users join, one message is delivered, the receiver disconnects, the next message is dropped; only the first is in the outbox |
| `Relay.Dispatcher.constructor` | backend/server.js:101 | the dispatcher starts with an empty outbox over the given registry |
| `Relay.Dispatcher.OnJoin` | backend/server.js:104-107 | the new state is `Apply` of a `join`; the registry is `set`, the outbox unchanged |
| `Relay.Dispatcher.OnSendMessage` | backend/server.js:109-125 | the new state is `Apply` of a `sendMessage`; registry unchanged, at most one `receiveMessage` appended |
| `Relay.Dispatcher.OnRequestUpdate` | backend/server.js:127-137 | the new state is `Apply` of a `requestUpdate`; registry unchanged, at most one `requestStatusChanged` appended |
| `Relay.Dispatcher.OnDisconnect` | backend/server.js:139-142 | the new state is `Apply` of a `disconnect`; the registry and the returned user are those of removal by the socket |
| `MessageController.NewRecord` | backend/controllers/messageController.js:10-15 | the stored sender is the authenticated user; chat id, receiver and text come from the body |
| `MessageController.NewRecordSender` | backend/controllers/messageController.js:8-15 | a body that claims a sender gives the same record as one that does not |
| `MessageController.FirstIndexOfChat` | backend/controllers/messageController.js:61 | the position of the first message of a conversation, or the length when there is none |
| `MessageController.FirstOfEachChat` | backend/controllers/messageController.js:56-66 | no more messages than the input, each of them from the input |
| `MessageController.FirstOfEachCovers` | backend/controllers/messageController.js:60-64 | every conversation of the input is in the output, and no other |
| `MessageController.FirstOfEachUnique` | backend/controllers/messageController.js:59-64 | at most one message per conversation is kept |
| `MessageController.FirstOfEachIsFirstOccurrences` | backend/controllers/messageController.js:56-66 | each kept message is its conversation's first occurrence (the newest), and the output follows the order of first occurrence |
| `MessageController.UniqueChats` | backend/controllers/messageController.js:58-66 | the loop returns the first occurrences in input order: unique conversation ids, all ids of the input, each kept message its conversation's first, in increasing input position |
| `ChatPage.SortPair` | frontend/src/pages/Chat.jsx:23 | `[a, b].sort()`: a permutation of the two ids, in code-unit order, with the original order kept unless `b` sorts strictly first |
| `ChatPage.ChatIdOf` | frontend/src/pages/Chat.jsx:23 | `[a, b].sort().join('_')` (also at lines 57 and 106) is one id, `_`, the other, one character longer than both together; the id that sorts first comes first |
| `ChatPage.ChatIdLayout` | frontend/src/pages/Chat.jsx:23 | the conversation id is the smaller id in code-unit order, then `_`, then the other |
| `ChatPage.ChatIdSymmetric` | frontend/src/pages/Chat.jsx:57 | both participants derive the same conversation id |
| `ChatPage.OtherParticipant` | frontend/src/pages/Chat.jsx:52-55 | one of the chat's two users; for a chat I take part in, I and the result are its two users, and the result is not me unless I wrote to myself |
| `ChatPage.SelectChat` | frontend/src/pages/Chat.jsx:51-60 | the selected user is the other participant; for a chat the user takes part in, the selected id is the conversation's own id, whoever sent its last message |
| `ChatPage.SidebarRow` | frontend/src/pages/Chat.jsx:104-107 | a row is highlighted iff the selection is its id; for a chat the user takes part in, its id is the conversation's own id |
| `ChatPage.SelectionMatchesSidebar` | frontend/src/pages/Chat.jsx:51-107 | selecting a chat highlights its sidebar row, and any other row exactly when that row has the same conversation id |
| `ChatPage.FindChatWith` | frontend/src/pages/Chat.jsx:65-68 | none iff no chat involves the user, otherwise the first chat that does |
| `ChatPage.UrlChatId` | frontend/src/pages/Chat.jsx:20-26 | with a truthy URL user id and a signed-in user, the selected id becomes their conversation id (the same from either side) and the selected user is kept; otherwise nothing changes |
| `ChatPage.UrlChatSelection` | frontend/src/pages/Chat.jsx:63-73 | without a truthy URL id, or with no chat involving it, nothing changes; otherwise the selection is that of the first chat involving the id |
| `ChatPage.UrlSelectionIsFirstMatch` | frontend/src/pages/Chat.jsx:63-73 | the URL lookup selects the first chat involving the id, and leaves the selection alone when none does |
| `ChatPage.UrlAndListAgree` | frontend/src/pages/Chat.jsx:20-73 | when every listed chat involves me and some chat involves the linked user, arriving by link selects the same conversation id as picking the chat from the list |
| `JsStrings.CodeUnits` | frontend/src/pages/Chat.jsx:23 | a character below U+10000 is one code unit equal to it; any other is a high then a low surrogate that decode back to it |
| `JsStrings.Utf16` | frontend/src/pages/Chat.jsx:23 | a string has between one and two code units per character |
| `JsStrings.Length` | frontend/src/pages/Profile.jsx:32 | `.length` is between the number of characters and twice that |
| `JsStrings.Utf16Injective` | frontend/src/pages/Chat.jsx:23 | distinct strings have distinct code-unit sequences |
| `JsStrings.StringLessStrictTotal` | frontend/src/pages/Chat.jsx:23 | the default sort order is asymmetric and total on distinct strings |
| `JsStrings.UnitsLessLexicographic` | frontend/src/pages/Chat.jsx:23 | the recursive code-unit comparison is the lexicographic order: agree up to some position, where the first sequence ends or has the smaller unit |
| `JsStrings.StringLess` | frontend/src/pages/Chat.jsx:23 | the default sort order is lexicographic on code units, and no string sorts before itself |
| `JsStrings.Trim` | frontend/src/components/ChatWindow.jsx:87-89 | the result is a slice of the input with only white space outside it, and neither starts nor ends with white space |
| `JsStrings.TrimBlank` | frontend/src/components/ChatWindow.jsx:87 | the trimmed string is empty iff every character is white space |
| `JsStrings.TrimIdempotent` | frontend/src/components/ChatWindow.jsx:89 | trimming twice is trimming once |
| `ChatWindow.IsOwn` | frontend/src/components/ChatWindow.jsx:204 | a message is mine iff its sender's id is mine, whether the sender is populated or a bare id |
| `ChatWindow.Receive` | frontend/src/components/ChatWindow.jsx:60-71 | a payload for another conversation changes nothing; one for this conversation appends exactly one entry with its chat id, populated sender, text and the payload's timestamp or else the local clock, keeping earlier entries |
| `ChatWindow.RelayedMessageReachesPeer` | frontend/src/components/ChatWindow.jsx:104-110 | what one window emits, relayed by the server, reaches the peer's socket, passes the peer window's filter and shows as not the peer's own |
| `ChatWindow.WithDateKeyMembers` | frontend/src/components/ChatWindow.jsx:150-157 | a message is in the list for a key iff it is in the input and has that key |
| `ChatWindow.AddToGroup` | frontend/src/components/ChatWindow.jsx:152-155 | the message is pushed onto the group of its key, which is created at the end when missing; every other group and every key is kept |
| `ChatWindow.GroupByDate` | frontend/src/components/ChatWindow.jsx:150-157 | one group per key, each non-empty and holding the messages with its key in input order; every message is in the group of its own key and in no other; the groups follow the order of their keys' first occurrences, which is the order in which `Object.keys` lists them because a `toDateString()` key is never an array index (index keys would be listed first) |
| `ChatWindow.Window.constructor` | frontend/src/components/ChatWindow.jsx:9-13 | the window starts with no messages, an empty input and no requests |
| `ChatWindow.Window.OnReceiveMessage` | frontend/src/components/ChatWindow.jsx:60-71 | the message list becomes `Receive` of the old one; nothing else changes |
| `ChatWindow.Window.HandleSendMessage` | frontend/src/components/ChatWindow.jsx:84-123 | blank input does nothing; otherwise the trimmed text is posted, emitted only after a successful save on a connected socket, shown after a save, and the input is cleared only on success |
| `ChatWindow.SendGuard` | frontend/src/components/ChatWindow.jsx:87-89 | the guard rejects exactly the all-white-space inputs, and the text sent is already trimmed |
| `ProfileForm.Validate` | frontend/src/pages/Profile.jsx:27-35 | a non-empty password unequal to its confirmation gives the mismatch message; a matching one shorter than 6 code units gives the length message; none iff the password is empty, or matches and is at least 6 long |
| `ProfileForm.MismatchReportedBeforeLength` | frontend/src/pages/Profile.jsx:27-35 | a short mismatched pair reports the mismatch |
| `ProfileForm.UpdatePayload` | frontend/src/pages/Profile.jsx:39-46 | the payload always has name and picture, and a password exactly when it is non-empty |
| `ProfileForm.SentPasswordIsValid` | frontend/src/pages/Profile.jsx:27-46 | a password that is sent equals its confirmation and is at least 6 code units long |
| `ProfileForm.ErrorText` | frontend/src/pages/Profile.jsx:54 | the server's message when it is non-empty, otherwise the fallback; never empty |
| `ProfileForm.FormFromUser` | frontend/src/pages/Profile.jsx:62-67 | name and picture from the user, or empty without one; both passwords empty |
| `ProfileForm.MergeUser` | frontend/src/context/AuthContext.jsx:61-65 | `{ ...user, ...updatedData }`: a field the answer carries replaces the old one, a field it lacks keeps the old value |
| `ProfileForm.MergeIdempotent` | frontend/src/context/AuthContext.jsx:61-65 | merging the same answer twice is merging it once |
| `ProfileForm.MergeFullAnswer` | frontend/src/context/AuthContext.jsx:61-65 | an answer with both fields replaces the user whatever it was |
| `ProfileForm.MergeEmptyAnswer` | frontend/src/context/AuthContext.jsx:61-65 | an answer with neither field keeps the user |
| `ProfileForm.Profile.constructor` | frontend/src/pages/Profile.jsx:7-16 | the form starts filled from the user, not editing, with no messages |
| `ProfileForm.Profile.HandleChange` | frontend/src/pages/Profile.jsx:18-20 | the changed field takes the new value and the others are kept |
| `ProfileForm.Profile.HandleSubmit` | frontend/src/pages/Profile.jsx:22-58 | a failed check sets its message and sends nothing; otherwise the payload is sent; on success the answer is merged into the user, the success message is shown and the passwords are cleared with the other fields kept; on failure the error text is shown and the form is kept |
| `ProfileForm.Profile.HandleCancel` | frontend/src/pages/Profile.jsx:60-70 | leaves edit mode, refills the form from the current user with empty passwords, clears both messages |

## Left out

- `setIo` and `getIo` (backend/utils/socket.js:1-8) only hold the socket.io server handle. They are not modelled.
- The socket.io transport is not modelled: connection set-up, rooms, reconnection and delivery. An emit is appended to an outbox and is treated as delivered. The client's `join` emit on connect (frontend/src/components/ChatWindow.jsx:54-57) is the `Join` event of `Relay`.
- Logging (`console.log`, `console.warn`, `console.error`) and `alert` are output only. They are left out.
- The `/api/socket/active` endpoint (backend/server.js:146-148) is an HTTP wrapper around `listActiveUsers`. Only `ListActiveUsers` is modelled.
- Database calls are not modelled. This covers `Message.create`, `findById`, `populate`, `find` with its sender-or-receiver filter, `sort`, and `getChatMessages`. `UniqueChats` takes the database's newest-first list as its input, and `NewRecord` builds the fields given to `create`.
- Dates are not modelled. `new Date()`, `Date.now()`, `toDateString`, `formatTime` and `formatDate` become integer timestamps, a caller-supplied local id, and an abstract date-key function.
- The asynchronous gaps between an `await` and the code after it are not modelled. Each handler runs to completion. Other events that could arrive during an `api.post` or `api.put` are not interleaved.
- Missing values are modelled as strings. An absent `receiverId`, `userId` or `user._id` (`undefined` in JavaScript) is an ordinary string id. `Join` registers any id, as the code does.
- ChatPage.SelectChat: takes the signed-in user's id as a plain value. A logged-out user (`user` null) makes `handleChatSelect` throw, and that case is not modelled.
- The page fetches (`fetchChats`, `fetchMessages`), the loading flags of the chat pages, scrolling and all rendering are left out. They are network and UI work.
- ProfileForm.Profile.HandleSubmit: the localStorage write of `updateUser` (frontend/src/context/AuthContext.jsx:63) is not modelled. The merge itself is `MergeUser`, over the two fields the page shows (`name`, `profilePic`); the user's other fields are not modelled.
- Relay.Handle: a `sendMessage` or `requestUpdate` whose payload is `null` or `undefined` throws a `TypeError` at the destructuring (backend/server.js:110, 128). The model's payloads are always records, so that error path is not modelled.
- JsStrings.Utf16: The model's strings hold Unicode scalar values. A JavaScript string with an unpaired surrogate cannot be represented.
