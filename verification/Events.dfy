/** The events the chat server's socket handlers receive and push, the
    notification record an invite stores, and the checks the Notification
    schema applies when that record is created. */
module Events {
  import opened PresenceRegistry

  /** A user as the client sends it inside an invite: `{ id, username }`. */
  datatype UserRef = UserRef(id: UserId, username: string)

  /** Payload of `send_invite`: both ends are user objects. */
  datatype InvitePayload = InvitePayload(from: UserRef, to: UserRef)

  /** Payload of `accept_invite`: `from` is the bare id of the user who sent
      the invite, `to` is the accepting user as an object. */
  datatype AcceptPayload = AcceptPayload(from: UserId, to: UserRef)

  /** A private chat message object. The server forwards it unchanged and
      reads only `senderId`, for its log; every other field of the object is
      kept, unread, in `otherFields`. */
  datatype ChatMessage = ChatMessage(senderId: UserId, otherFields: map<string, string>)

  /** Payload of `send-private-message`: `to` is a bare user id. */
  datatype MessagePayload = MessagePayload(to: UserId, message: ChatMessage)

  /** Events the server pushes to a client. */
  datatype ServerEvent =
    | ReceiveInvite(from: UserRef)            // 'receive_invite', { from }
    | InviteAccepted(acceptedBy: UserRef)     // 'invite_accepted', { by: to }
    | ReceivePrivateMessage(message: ChatMessage)  // 'receive-private-message', message

  /** `io.to(socket).emit(event)`, recorded in the server's outbox. */
  datatype Push = Push(socket: SocketId, event: ServerEvent)

  /** `if (target) io.to(target).emit(e)`: one push when the looked-up socket
      exists, none otherwise. */
  function Emit(target: Option<SocketId>, e: ServerEvent): (out: seq<Push>)
    ensures |out| <= 1
    ensures out != [] <==> target.Some?
    ensures forall q :: q in out ==> q.event == e && Some(q.socket) == target
  {
    if target.Some? then [Push(target.value, e)] else []
  }

  /** Routing by presence: the push for user `u` is emitted exactly when `u`
      is in the registry, goes to the socket the registry holds for `u`,
      carries the event unchanged, and is never more than one. */
  lemma RouteIffPresent(r: Registry, u: UserId, e: ServerEvent)
    ensures var out := Emit(Lookup(r, u), e);
      |out| <= 1
      && (out != [] <==> u in r.sockets)
      && (out != [] ==> out[0].socket == r.sockets[u] && out[0].event == e)
  {
  }

  /** A stored notification, with the Notification schema's field names. */
  datatype Notification = Notification(toUser: UserId, fromUser: Option<UserId>, kind: string, message: string, isRead: bool)

  /** A document handed to `Notification.create`: field name to value. */
  type Document = map<string, string>

  const InviteSuffix := " invited you to chat."

  /** The schema's checks on create: `toUser` is required, `type` is required
      and must be 'invite', `message` is required and, being a required
      string, must not be empty. Fields the schema does not declare are
      dropped (Mongoose's strict mode) and play no part. */
  predicate SchemaAccepts(d: Document)
    ensures SchemaAccepts(d) ==> "toUser" in d && "type" in d && d["type"] == "invite"
    ensures SchemaAccepts(d) ==> "message" in d && |d["message"]| > 0
  {
    "toUser" in d && "type" in d && d["type"] == "invite" && "message" in d && d["message"] != ""
  }

  /** The fields the Notification schema declares. */
  const DeclaredFields: set<string> := {"toUser", "fromUser", "type", "message", "isRead", "createdAt"}

  /** A field the schema does not declare neither helps nor hurts a document:
      adding one leaves the schema's verdict as it was. */
  lemma SchemaIgnoresUndeclaredFields(d: Document, k: string, v: string)
    requires k !in DeclaredFields
    ensures SchemaAccepts(d[k := v]) <==> SchemaAccepts(d)
  {
    assert k != "toUser" && k != "type" && k != "message";
  }

  /** `Notification.create(d)` succeeds when the store is reachable and the
      schema accepts the document. */
  predicate CreateSucceeds(d: Document, storeUp: bool)
    ensures CreateSucceeds(d, storeUp) ==> storeUp && "toUser" in d
    ensures !storeUp ==> !CreateSucceeds(d, storeUp)
  {
    storeUp && SchemaAccepts(d)
  }

  /** The document the `send_invite` handler builds as written: the recipient
      and sender under `userId` and `senderId`. */
  function AsWrittenInviteDocument(p: InvitePayload): (d: Document)
    ensures d.Keys == {"userId", "senderId", "type", "message"}
    ensures d["userId"] == p.to.id && d["senderId"] == p.from.id
    ensures d["type"] == "invite" && d["message"] == p.from.username + " invited you to chat."
  {
    map["userId" := p.to.id, "senderId" := p.from.id, "type" := "invite",
        "message" := p.from.username + InviteSuffix]
  }

  /** As written, the create always fails: the schema requires `toUser`, which
      the handler never sets, so no invite notification is stored and no
      `receive_invite` is ever pushed, whoever is online. */
  lemma AsWrittenInviteDocumentRejected(p: InvitePayload, storeUp: bool)
    ensures !CreateSucceeds(AsWrittenInviteDocument(p), storeUp)
  {
    assert "toUser" !in AsWrittenInviteDocument(p);
  }

  /** The invite document with the recipient and sender under the schema's
      names, `toUser` and `fromUser`, which is also the field the
      notification listing queries. */
  function InviteDocument(p: InvitePayload): Document
  {
    map["toUser" := p.to.id, "fromUser" := p.from.id, "type" := "invite",
        "message" := p.from.username + InviteSuffix]
  }

  /** With the schema's field names the create fails only when the store
      does. */
  lemma InviteDocumentAccepted(p: InvitePayload, storeUp: bool)
    ensures CreateSucceeds(InviteDocument(p), storeUp) <==> storeUp
  {
    var d := InviteDocument(p);
    assert d["message"] == p.from.username + InviteSuffix;
    assert |d["message"]| >= |InviteSuffix|;
  }

  /** The record the store keeps for a document the schema accepted: the
      declared fields copied over, `isRead` defaulting to false. */
  function Stored(d: Document): (n: Notification)
    requires SchemaAccepts(d)
    ensures n.toUser == d["toUser"] && n.kind == "invite" && n.message == d["message"]
    ensures n.fromUser.Some? <==> "fromUser" in d
    ensures !n.isRead
  {
    Notification(d["toUser"], if "fromUser" in d then Some(d["fromUser"]) else None,
                 d["type"], d["message"], false)
  }

  /** What a stored invite holds: it is addressed to the invited user, comes
      from the inviting user, is of kind 'invite', starts unread, and its
      message is the inviter's name followed by " invited you to chat.". */
  lemma InviteStoredRecord(p: InvitePayload)
    ensures SchemaAccepts(InviteDocument(p))
    ensures var n := Stored(InviteDocument(p));
      n.toUser == p.to.id && n.fromUser == Some(p.from.id) && n.kind == "invite" && !n.isRead
      && n.message == p.from.username + " invited you to chat."
  {
    InviteDocumentAccepted(p, true);
  }

  /** The pushes of a `send_invite` that handed document `d` to the create
      and found the recipient on socket `target`: `receive_invite { from }`
      to that socket if the create succeeded, nothing if it failed. At most
      one push, and only after a successful create. */
  function InvitePushes(d: Document, from: UserRef, target: Option<SocketId>, storeUp: bool): (out: seq<Push>)
    ensures |out| <= 1
    ensures out != [] ==> CreateSucceeds(d, storeUp) && target.Some?
  {
    if CreateSucceeds(d, storeUp) then Emit(target, ReceiveInvite(from)) else []
  }

  /** The handler as written pushes nothing for any invite, whoever is online
      and whether or not the store is up. */
  lemma AsWrittenInviteNeverPushed(r: Registry, p: InvitePayload, storeUp: bool)
    ensures InvitePushes(AsWrittenInviteDocument(p), p.from, Lookup(r, p.to.id), storeUp) == []
  {
    AsWrittenInviteDocumentRejected(p, storeUp);
  }

  /** With the schema's field names, `receive_invite` reaches the invited user
      exactly when the store took the notification and the user was present
      at lookup, and then once, on the user's socket, carrying the inviter. */
  lemma InvitePushedIffCreatedAndPresent(r: Registry, p: InvitePayload, storeUp: bool)
    ensures var out := InvitePushes(InviteDocument(p), p.from, Lookup(r, p.to.id), storeUp);
      |out| <= 1
      && (out != [] <==> storeUp && p.to.id in r.sockets)
      && (out != [] ==> out == [Push(r.sockets[p.to.id], ReceiveInvite(p.from))])
  {
    InviteDocumentAccepted(p, storeUp);
  }

  /** As written, the create fails even when the store is up and the invited
      user is online, so that user gets no `receive_invite`; with the
      schema's field names the same invite is pushed. */
  lemma AsWrittenInviteLosesOnlinePush(r: Registry, p: InvitePayload)
    requires p.to.id in r.sockets
    ensures InvitePushes(AsWrittenInviteDocument(p), p.from, Lookup(r, p.to.id), true) == []
    ensures InvitePushes(InviteDocument(p), p.from, Lookup(r, p.to.id), true)
            == [Push(r.sockets[p.to.id], ReceiveInvite(p.from))]
  {
    AsWrittenInviteNeverPushed(r, p, true);
    InviteDocumentAccepted(p, true);
  }
}
