/** The Socket.IO connection handlers of the chat server. Node runs each
    handler to completion on one thread, so each handler is one method of a
    single server object that owns the presence map, the pushes it has
    emitted and the notifications it has stored. `send_invite` is the one
    handler that awaits: it looks the recipient up, awaits the notification
    create, and only then pushes, so it is split into the part before the
    await and the continuation after it. */
module Server {
  import opened PresenceRegistry
  import opened Events

  /** A `send_invite` waiting for its notification create: the payload and the
      recipient's socket as it was when the handler looked it up. */
  datatype PendingInvite = PendingInvite(payload: InvitePayload, target: Option<SocketId>)

  class ChatServer {
    /** `connectedUsers`: user id to socket id ... */
    var connected: map<UserId, SocketId>
    /** ... and the map's keys in insertion order. */
    var order: seq<UserId>
    /** Every push emitted so far, oldest first. */
    var outbox: seq<Push>
    /** Every notification stored so far, oldest first. */
    var notifications: seq<Notification>

    function Users(): Registry
      reads this
    {
      Registry(connected, order)
    }

    ghost predicate Valid()
      reads this
    {
      Users().Valid()
    }

    /** Server start: an empty map, nothing pushed, nothing stored. */
    constructor ()
      ensures Valid() && Users() == Empty
      ensures outbox == [] && notifications == []
    {
      connected := map[];
      order := [];
      outbox := [];
      notifications := [];
    }

    /** `register`: the user now maps to the socket that sent the event,
        whether or not it was present before. */
    method OnRegister(sock: SocketId, u: UserId)
      requires Valid()
      modifies this`connected, this`order
      ensures Valid()
      ensures Users() == Registered(old(Users()), u, sock)
    {
      if u !in connected {
        order := order + [u];
      }
      connected := connected[u := sock];
    }

    /** `send_invite`, up to the await: the recipient's socket is looked up
        before the notification create is started. Nothing changes yet. */
    method OnSendInvite(p: InvitePayload) returns (pending: PendingInvite)
      ensures pending.payload == p
      ensures pending.target.Some? <==> p.to.id in connected
      ensures pending.target.Some? ==> pending.target.value == connected[p.to.id]
    {
      pending := PendingInvite(p, Lookup(Users(), p.to.id));
    }

    /** The continuation of `send_invite` once `Notification.create(d)` has
        settled: on success the stored record is appended, whatever the
        recipient's presence, and `receive_invite` goes to the socket looked
        up before the await if there was one; on failure the catch swallows
        the error and nothing is stored or pushed. Presence is untouched. */
    method CompleteInvite(pending: PendingInvite, d: Document, storeUp: bool)
      modifies this`outbox, this`notifications
      ensures Users() == old(Users())
      ensures outbox == old(outbox) + InvitePushes(d, pending.payload.from, pending.target, storeUp)
      ensures notifications == old(notifications) + (if CreateSucceeds(d, storeUp) then [Stored(d)] else [])
    {
      if CreateSucceeds(d, storeUp) {
        notifications := notifications + [Stored(d)];
        outbox := outbox + Emit(pending.target, ReceiveInvite(pending.payload.from));
      }
    }

    /** `send_invite` after the await, as written: the create is handed the
        document with `userId`/`senderId`, which the schema rejects, so
        nothing is ever stored or pushed, whoever is online. */
    method OnInviteStored(pending: PendingInvite, storeUp: bool)
      modifies this`outbox, this`notifications
      ensures Users() == old(Users())
      ensures outbox == old(outbox) + InvitePushes(AsWrittenInviteDocument(pending.payload), pending.payload.from, pending.target, storeUp)
      ensures outbox == old(outbox) && notifications == old(notifications)
    {
      AsWrittenInviteDocumentRejected(pending.payload, storeUp);
      CompleteInvite(pending, AsWrittenInviteDocument(pending.payload), storeUp);
    }

    /** `send_invite` after the await, with the document under the schema's
        field names: when the store is up exactly one notification for the
        invited user is stored, whatever the presence, and `receive_invite`
        is pushed to the socket captured before the await if there was one;
        when the store is down nothing happens. */
    method OnInviteStoredCorrected(pending: PendingInvite, storeUp: bool)
      modifies this`outbox, this`notifications
      ensures Users() == old(Users())
      ensures outbox == old(outbox) + (if storeUp then Emit(pending.target, ReceiveInvite(pending.payload.from)) else [])
      ensures notifications == old(notifications) + (if storeUp then [Stored(InviteDocument(pending.payload))] else [])
    {
      InviteDocumentAccepted(pending.payload, storeUp);
      CompleteInvite(pending, InviteDocument(pending.payload), storeUp);
    }

    /** `accept_invite`: `invite_accepted { by: to }` is pushed to the original
        sender's socket when the sender is present; nothing happens otherwise.
        Presence is untouched. */
    method OnAcceptInvite(p: AcceptPayload)
      modifies this`outbox
      ensures Users() == old(Users())
      ensures outbox == old(outbox) + Emit(Lookup(Users(), p.from), InviteAccepted(p.to))
    {
      var fromSocket := Lookup(Users(), p.from);
      outbox := outbox + Emit(fromSocket, InviteAccepted(p.to));
    }

    /** `send-private-message`: the message is pushed unchanged to the
        recipient's socket when the recipient is present; otherwise it is
        dropped, neither pushed nor stored. Presence is untouched. */
    method OnPrivateMessage(p: MessagePayload)
      modifies this`outbox
      ensures Users() == old(Users())
      ensures outbox == old(outbox) + Emit(Lookup(Users(), p.to), ReceivePrivateMessage(p.message))
    {
      var toSocket := Lookup(Users(), p.to);
      outbox := outbox + Emit(toSocket, ReceivePrivateMessage(p.message));
    }

    /** `disconnect`: scan the entries in insertion order and delete the first
        one that names the closing socket, then stop. */
    method OnDisconnect(sock: SocketId)
      requires Valid()
      modifies this`connected, this`order
      ensures Valid()
      ensures Users() == Unregistered(old(Users()), sock)
    {
      ghost var before := Users();
      ghost var removed := false;
      var i := 0;
      while i < |order|
        invariant 0 <= i <= |order|
        invariant !removed && connected == old(connected) && order == old(order)
        invariant forall j :: 0 <= j < i ==> !Holds(before, j, sock)
      {
        var u := order[i];
        if connected[u] == sock {
          UnregisteredRemovesFirstHolder(before, sock, i);
          connected := connected - {u};
          order := order[..i] + order[i + 1..];
          removed := true;
          break;
        }
        i := i + 1;
      }
      if !removed {
        UnregisteredNoPositionHolds(before, sock);
      }
    }
  }
}
