# Chat server presence registry and event router, in Dafny

This project models the real-time core of the chat application's backend,
`chat-app-backend/server.js`. The model has three parts:

- **The presence registry**: the in-memory `connectedUsers` map from a user id
  to the id of that user's live Socket.IO socket. A JavaScript `Map` keeps its
  keys in insertion order, so the model keeps that order too.
- **The socket handlers** of each connection:
  - `register` upserts the sender's entry.
  - `send_invite` asks the store to create an invite notification. Only if
    the create succeeds does it push `receive_invite` to the invited user,
    and only if that user is online. As written, the document it hands over
    never passes the schema, so the create always fails: nothing is stored
    and nothing is pushed (see Findings). `OnInviteStored` models the
    handler as written. `OnInviteStoredCorrected` models the corrected
    handler, which uses the schema's field names.
  - `accept_invite` pushes `invite_accepted` to the original inviter, if online.
  - `send-private-message` pushes the message to the recipient if online, and
    otherwise drops it.
  - `disconnect` scans the map in insertion order. It deletes the first entry
    that names the closing socket, then stops.
- **The notification create**: the document the invite handler hands to the
  store, and the checks the Notification schema makes before it stores anything.

Files:

- `PresenceRegistry.dfy`: the map as a value (`Registry`: entries plus
  insertion order). It holds the pure effects of `set` (`Registered`) and of
  the disconnect scan (`Unregistered`), and lemmas about them.
- `Events.dfy`: the payload shapes and the pushed events. It also holds the
  notification document, the schema check and the routing lemmas. Payloads
  differ by event: `send_invite` carries `{id, username}` objects, while
  `accept_invite` carries a bare `from` id and an object `to`.
- `Server.dfy`: the class `ChatServer`. Its fields are the map, its insertion
  order, the pushes emitted so far and the notifications stored so far. Each
  handler is a method that updates those fields in place. The disconnect
  handler keeps the source's loop with its early `break`.

Modelling choices:

- Socket ids are non-empty strings, because Socket.IO never issues an empty
  id. So the handlers' truthiness test on a looked-up id (`if (toSocketId)`)
  is exactly "the user is in the map".
- `send_invite` looks the recipient up before it awaits the notification
  create, and pushes after the await. Other handlers can run in between, so
  the model splits it in two:
  - `OnSendInvite` does the lookup and returns the pending invite.
  - `OnInviteStored` is the continuation as written, and
    `OnInviteStoredCorrected` is the corrected one. Both run `CompleteInvite`
    on their document, which pushes to the socket captured before the await,
    as the source does.
- Whether the store is reachable is a parameter (`storeUp`). The schema's
  checks are modelled, because they decide the outcome (see Findings).

## Model

| member | source | states |
|---|---|---|
| PresenceRegistry.Lookup | chat-app-backend/server.js:60 | `connectedUsers.get(u)` yields a socket exactly when `u` has an entry, and then the socket of that entry |
| PresenceRegistry.Registered | chat-app-backend/server.js:53-56 | after `set(u, s)`: the map stays well formed, `u` maps to `s`, the keys are the old keys plus `u`, every other entry is unchanged, old keys keep their positions, and only a new key adds one position |
| PresenceRegistry.FirstHolderFrom | chat-app-backend/server.js:103-104 | the scan's stopping point: no entry between the start and the result names the socket; if the result is inside the order, the entry there does |
| PresenceRegistry.Unregistered | chat-app-backend/server.js:102-110 | deleting the first holder of the closing socket keeps the map well formed; at most one key goes, and only one that named the socket; every remaining entry keeps its socket |
| PresenceRegistry.RegisteredLastWins | chat-app-backend/server.js:53-56 | registering `u` with `s1` then `s2` equals registering with `s2` alone, insertion order included |
| PresenceRegistry.RegisteredIdempotent | chat-app-backend/server.js:53-56 | registering the same user with the same socket twice equals registering once, insertion order included |
| PresenceRegistry.UnregisteredNoHolder | chat-app-backend/server.js:102-110 | when no entry names the socket, disconnect leaves the map unchanged |
| PresenceRegistry.UnregisteredRemovesFirstHolder | chat-app-backend/server.js:103-107 | when position `i` is the first, in insertion order, whose entry names the socket, disconnect removes exactly that key from the entries and the order |
| PresenceRegistry.UnregisteredNoPositionHolds | chat-app-backend/server.js:103-109 | when the scan finds no position naming the socket, the loop ends without a delete and the map is unchanged |
| PresenceRegistry.UnregisteredKeepsLaterHolders | chat-app-backend/server.js:103-108 | a later entry that also names the closing socket survives, with the same socket (the scan stops at the first match) |
| PresenceRegistry.StaleDisconnectKeepsNewerRegistration | chat-app-backend/server.js:102-110 | a user who re-registered from a new socket stays mapped to the new socket when the old socket disconnects |
| PresenceRegistry.RegisterThenDisconnectRestores | chat-app-backend/server.js:53-110 | an offline user registering on an unused socket that then disconnects leaves the map exactly as before, order included |
| Events.Emit | chat-app-backend/server.js:93-94 | the `if (id) io.to(id).emit(e)` guard: at most one push, made exactly when a socket was found, to that socket, carrying `e` |
| Events.RouteIffPresent | chat-app-backend/server.js:91-99 | a routed push happens iff the target user is present: at most one push, to that user's socket, carrying the event unchanged |
| Events.AsWrittenInviteDocument | chat-app-backend/server.js:63-68 | the document as written has exactly the fields `userId` (= `to.id`), `senderId` (= `from.id`), `type` = 'invite' and `message` = `from.username + " invited you to chat."` |
| Events.SchemaAccepts | chat-app-backend/models/Notification.js:4-7 | a document passes the schema only if it has `toUser`, `type` = 'invite' and a non-empty `message` |
| Events.SchemaIgnoresUndeclaredFields | chat-app-backend/models/Notification.js:3-10 | adding a field the schema does not declare leaves the schema's verdict unchanged, because strict mode drops such fields |
| Events.CreateSucceeds | chat-app-backend/models/Notification.js:3-10 | a create succeeds only if the store is up and the document has `toUser`; with the store down it always fails |
| Events.Stored | chat-app-backend/models/Notification.js:4-9 | the stored record copies `toUser`, `type` and `message`; `fromUser` is present iff the document had it; `isRead` defaults to false |
| Events.InvitePushes | chat-app-backend/server.js:70-75 | the invite handler pushes at most once, and only after a successful create to a recipient whose socket was found |
| Events.AsWrittenInviteNeverPushed | chat-app-backend/server.js:59-79 | as written, `send_invite` pushes nothing, for every invite, registry and store outcome |
| Events.InvitePushedIffCreatedAndPresent | chat-app-backend/server.js:60-78 | for the corrected document: `receive_invite` is pushed iff the store is up and the invited user was present at lookup; then exactly once, to that user's socket, carrying `from` |
| Events.AsWrittenInviteDocumentRejected | chat-app-backend/server.js:63-68 | the document as written (`userId`/`senderId`) fails the create whether or not the store is up |
| Events.AsWrittenInviteLosesOnlinePush | chat-app-backend/server.js:59-79 | for an online invited user and a reachable store, the as-written handler pushes nothing, while the corrected handler pushes `receive_invite` to that user's socket |
| Events.InviteDocumentAccepted | chat-app-backend/models/Notification.js:3-10 | with the schema's field names (`toUser`/`fromUser`), the create fails only when the store is down |
| Events.InviteStoredRecord | chat-app-backend/server.js:63-68 | for the corrected document: a stored invite is addressed to `to.id`, comes from `from.id`, has kind 'invite', starts unread, and reads `from.username + " invited you to chat."` |
| Server.ChatServer.constructor | chat-app-backend/server.js:47 | the server starts with an empty, well-formed map, nothing pushed and nothing stored |
| Server.ChatServer.OnRegister | chat-app-backend/server.js:53-56 | the new map is `Registered` of the old one, so the user maps to the calling socket and every other entry is unchanged; no push, nothing stored |
| Server.ChatServer.OnSendInvite | chat-app-backend/server.js:59-60 | the lookup before the await captures the recipient's socket iff the recipient is present; nothing changes |
| Server.ChatServer.CompleteInvite | chat-app-backend/server.js:62-78 | once the create of a given document settles: on success exactly one record is appended, whatever the presence, and `receive_invite` goes to the socket captured before the await; on failure the catch leaves nothing stored or pushed; presence unchanged |
| Server.ChatServer.OnInviteStored | chat-app-backend/server.js:62-78 | the handler as written, with the `userId`/`senderId` document: the outbox and the notifications stay exactly as they were, for every payload and store outcome; presence unchanged |
| Server.ChatServer.OnInviteStoredCorrected | chat-app-backend/server.js:62-78 | the corrected handler: when the store is up, one record for `to.id` is appended and `receive_invite` is pushed to the captured socket if there was one; when it is down, nothing happens; presence unchanged |
| Server.ChatServer.OnAcceptInvite | chat-app-backend/server.js:82-88 | appends `invite_accepted {by: to}` for the inviter's socket iff the bare `from` id is present, nothing otherwise; presence unchanged |
| Server.ChatServer.OnPrivateMessage | chat-app-backend/server.js:91-99 | appends `receive-private-message` with the message unchanged iff `to` is present; otherwise drops it (no push, nothing stored); presence unchanged |
| Server.ChatServer.OnDisconnect | chat-app-backend/server.js:102-110 | the loop with its early `break` leaves the map equal to `Unregistered` of the old one, and well formed; nothing is pushed or stored |

## Left out

- Express wiring, CORS, static files, the Socket.IO server set-up, the MongoDB connection and its logging (server.js:1-45, 113-137): transport and I/O.
- Console logging inside the handlers: no state.
- The persistence of `Notification.create`: it is modelled as an outcome only. The `storeUp` parameter says whether the store is reachable, and the schema checks decide the rest. `createdAt` (a clock) is not stored. Casting an id to a MongoDB ObjectId is not modelled: ids are taken as castable.
- The two halves of `send_invite` are each one step. Any other handler may run between them, as under Node's event loop; the model does not fix which.
- Events.InvitePushedIffCreatedAndPresent: describes the corrected handler, which uses the schema's field names. As written, `send_invite` never stores or pushes (Events.AsWrittenInviteNeverPushed).
- Events.InviteStoredRecord: describes the record the corrected handler stores. As written, no record is ever stored.
- Server.ChatServer.OnInviteStoredCorrected: models the handler with the schema's field names, not the program. The program as written is Server.ChatServer.OnInviteStored.
- Payloads are taken to be well formed, as the front end sends them (chat-app-frontend/src/pages/Chat.jsx:142-145, 163-166). The throw paths of malformed payloads are not modelled:
  - a `send_invite` without `to` throws at server.js:60, before the `try`, and its promise rejects unhandled;
  - an `accept_invite` with a null `to` throws in the log line at server.js:86, after the push;
  - a `send-private-message` with a null `message` throws at server.js:95, after the push.
- The private message object is forwarded unchanged. The server reads only its `senderId`, for the log; its other fields are carried as an opaque map.
- Which socket a handler belongs to is a parameter (`sock`) of `OnRegister` and `OnDisconnect`. The routing handlers do not use the caller's socket.
- Transport delivery of a push is recorded in the outbox and not modelled further. Socket.IO rooms, acknowledgements and loss are out of scope.
- The HTTP routes (auth, friends, invites, notifications, users, channel, message), `connect.cjs` and the React front ends are not part of this model. These are database queries, email, hashing, tokens and UI. The friend-accept, reciprocal-friendship and email-token flows have no handler in the core, so they are not modelled.

## Findings

| source | as written | input that shows it | evidently intended | confidence | as-written member | corrected member |
|---|---|---|---|---|---|---|
| chat-app-backend/server.js:63-68 | the invite notification is created with fields `userId` and `senderId`. The Notification schema declares `toUser` (required) and `fromUser` instead, so Mongoose's strict mode drops both fields and the required check on `toUser` fails. The create always rejects, nothing is stored, and `receive_invite` is never pushed. | `send_invite {from: {id: "a", username: "ann"}, to: {id: "b", username: "bob"}}` with the store up and `b` registered | the document uses `toUser`/`fromUser`, the same field the notification listing queries (chat-app-backend/routes/notifications.js:8). The store then keeps the record and the online recipient gets the push. | high that the schema rejects the document (not executed) | Events.AsWrittenInviteNeverPushed | Events.InvitePushedIffCreatedAndPresent |
