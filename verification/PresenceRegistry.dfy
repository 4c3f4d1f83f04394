/** The presence registry of the chat server: the in-memory JavaScript `Map`
    `connectedUsers` from a user id to the id of that user's live socket.
    A JavaScript `Map` remembers the order in which its keys were first
    inserted; `set` on a key already present keeps the key's position, and
    `delete` takes the key out of the order. The order matters because the
    disconnect handler scans the entries in that order and stops at the first
    match. This module models the map as a value; the class in module Server
    holds it in fields and updates it in place. */
module PresenceRegistry {

  type UserId = string

  /** A Socket.IO socket id. Socket.IO never issues an empty id, so the
      handlers' truthiness test on a looked-up id (`if (toSocketId)`) holds
      exactly when the lookup found an entry. */
  type SocketId = s: string | s != [] witness "0"

  datatype Option<T> = None | Some(value: T)

  predicate NoDuplicates(s: seq<UserId>)
  {
    forall i, j :: 0 <= i < j < |s| ==> s[i] != s[j]
  }

  /** The entries of the map and its keys in insertion order. */
  datatype Registry = Registry(sockets: map<UserId, SocketId>, order: seq<UserId>)
  {
    /** Every key appears exactly once in the insertion order. */
    ghost predicate Valid()
    {
      NoDuplicates(order) && (forall u :: u in sockets <==> u in order)
    }
  }

  /** `new Map()`. */
  const Empty := Registry(map[], [])

  /** `connectedUsers.get(u)`: the socket of `u`, or nothing when `u` is offline. */
  function Lookup(r: Registry, u: UserId): (s: Option<SocketId>)
    ensures s.Some? <==> u in r.sockets
    ensures s.Some? ==> r.sockets[u] == s.value
  {
    if u in r.sockets then Some(r.sockets[u]) else None
  }

  /** `connectedUsers.set(u, s)`: the entry of `u` now names `s`, every other
      entry is as before, existing keys keep their positions and a new key
      goes to the end of the order. */
  function Registered(r: Registry, u: UserId, s: SocketId): (r': Registry)
    requires r.Valid()
    ensures r'.Valid()
    ensures u in r'.sockets && r'.sockets[u] == s
    ensures r'.sockets.Keys == r.sockets.Keys + {u}
    ensures forall v :: v in r.sockets && v != u ==> r'.sockets[v] == r.sockets[v]
    ensures r.order <= r'.order
    ensures |r'.order| == if u in r.sockets then |r.order| else |r.order| + 1
  {
    Registry(r.sockets[u := s], if u in r.sockets then r.order else r.order + [u])
  }

  /** The entry at position `j` of the insertion order names socket `s`. */
  predicate Holds(r: Registry, j: int, s: SocketId)
  {
    0 <= j < |r.order| && r.order[j] in r.sockets && r.sockets[r.order[j]] == s
  }

  /** The first position at or after `k` whose entry names `s`, or the length
      of the order when there is none. */
  function FirstHolderFrom(r: Registry, s: SocketId, k: nat): (i: nat)
    requires k <= |r.order|
    ensures k <= i <= |r.order|
    ensures forall j :: k <= j < i ==> !Holds(r, j, s)
    ensures i < |r.order| ==> Holds(r, i, s)
    decreases |r.order| - k
  {
    if k == |r.order| then k
    else if Holds(r, k, s) then k
    else FirstHolderFrom(r, s, k + 1)
  }

  function FirstHolder(r: Registry, s: SocketId): nat
  {
    FirstHolderFrom(r, s, 0)
  }

  /** Position `k` of the order with position `i` taken out. */
  lemma RemoveAtIndex(o: seq<UserId>, i: nat, k: nat)
    requires i < |o| && k < |o| - 1
    ensures (o[..i] + o[i + 1..])[k] == if k < i then o[k] else o[k + 1]
  {
  }

  lemma RemoveAtNoDuplicates(o: seq<UserId>, i: nat)
    requires NoDuplicates(o) && i < |o|
    ensures NoDuplicates(o[..i] + o[i + 1..])
  {
    var o' := o[..i] + o[i + 1..];
    forall a, b | 0 <= a < b < |o'| ensures o'[a] != o'[b] {
      RemoveAtIndex(o, i, a);
      RemoveAtIndex(o, i, b);
    }
  }

  lemma RemoveAtMembers(o: seq<UserId>, i: nat, u: UserId)
    requires NoDuplicates(o) && i < |o|
    ensures u in o[..i] + o[i + 1..] <==> u in o && u != o[i]
  {
    var o' := o[..i] + o[i + 1..];
    if u in o' {
      var k :| 0 <= k < |o'| && o'[k] == u;
      RemoveAtIndex(o, i, k);
    }
    if u in o && u != o[i] {
      var k :| 0 <= k < |o| && o[k] == u;
      if k < i {
        RemoveAtIndex(o, i, k);
      } else {
        RemoveAtIndex(o, i, k - 1);
      }
    }
  }

  /** Removing the key at position `i` from a valid registry keeps it valid. */
  lemma RemoveAtValid(r: Registry, i: nat)
    requires r.Valid() && i < |r.order|
    ensures Registry(r.sockets - {r.order[i]}, r.order[..i] + r.order[i + 1..]).Valid()
  {
    RemoveAtNoDuplicates(r.order, i);
    forall u ensures u in r.sockets - {r.order[i]} <==> u in r.order[..i] + r.order[i + 1..] {
      RemoveAtMembers(r.order, i, u);
    }
  }

  /** The effect of the disconnect handler on the map: the first entry in
      insertion order that names `s` is deleted; when there is none the map
      is left as it was. At most one key goes, only one that named `s`, and
      every entry that stays keeps its socket. */
  function Unregistered(r: Registry, s: SocketId): (r': Registry)
    requires r.Valid()
    ensures r'.Valid()
    ensures r'.sockets.Keys <= r.sockets.Keys
    ensures forall u :: u in r'.sockets ==> r'.sockets[u] == r.sockets[u]
    ensures forall u :: u in r.sockets && u !in r'.sockets ==> r.sockets[u] == s
    ensures |r.sockets.Keys - r'.sockets.Keys| <= 1
  {
    var i := FirstHolder(r, s);
    if i == |r.order| then
      assert r.sockets.Keys - r.sockets.Keys == {};
      r
    else
      RemoveAtValid(r, i);
      assert r.sockets.Keys - (r.sockets - {r.order[i]}).Keys == {r.order[i]};
      Registry(r.sockets - {r.order[i]}, r.order[..i] + r.order[i + 1..])
  }

  /** The latest registration of a user wins: registering `u` with `s1` and
      then with `s2` is the same as registering it with `s2` only, position
      in the insertion order included. */
  lemma RegisteredLastWins(r: Registry, u: UserId, s1: SocketId, s2: SocketId)
    requires r.Valid()
    ensures Registered(Registered(r, u, s1), u, s2) == Registered(r, u, s2)
  {
    assert r.sockets[u := s1][u := s2] == r.sockets[u := s2];
  }

  /** Registering the same user with the same socket twice gives the same map
      as registering once. */
  lemma RegisteredIdempotent(r: Registry, u: UserId, s: SocketId)
    requires r.Valid()
    ensures Registered(Registered(r, u, s), u, s) == Registered(r, u, s)
  {
    RegisteredLastWins(r, u, s, s);
  }

  /** When no entry names `s`, disconnecting `s` changes nothing. */
  lemma UnregisteredNoHolder(r: Registry, s: SocketId)
    requires r.Valid()
    requires forall u :: u in r.sockets ==> r.sockets[u] != s
    ensures Unregistered(r, s) == r
  {
  }

  /** When no position of the order holds `s`, disconnecting `s` changes
      nothing. */
  lemma UnregisteredNoPositionHolds(r: Registry, s: SocketId)
    requires r.Valid()
    requires forall j :: 0 <= j < |r.order| ==> !Holds(r, j, s)
    ensures Unregistered(r, s) == r
  {
  }

  /** When position `i` holds the first entry naming `s`, disconnecting `s`
      deletes exactly that entry and takes its key out of the order. */
  lemma UnregisteredRemovesFirstHolder(r: Registry, s: SocketId, i: nat)
    requires r.Valid()
    requires Holds(r, i, s)
    requires forall j :: 0 <= j < i ==> !Holds(r, j, s)
    ensures Unregistered(r, s) == Registry(r.sockets - {r.order[i]}, r.order[..i] + r.order[i + 1..])
  {
  }

  /** A later entry that also names `s` survives the disconnect of `s`: the
      handler stops at the first match. */
  lemma UnregisteredKeepsLaterHolders(r: Registry, s: SocketId, i: nat, j: nat)
    requires r.Valid()
    requires i < j && Holds(r, i, s) && Holds(r, j, s)
    ensures var r' := Unregistered(r, s);
      r.order[j] in r'.sockets && r'.sockets[r.order[j]] == s
  {
    var f := FirstHolder(r, s);
    assert f <= i;
    assert f < |r.order| && Holds(r, f, s);
    assert r.order[f] != r.order[j];
  }

  /** A user who registered again from a new socket stays online with the new
      socket when the old socket disconnects. */
  lemma StaleDisconnectKeepsNewerRegistration(r: Registry, u: UserId, older: SocketId, newer: SocketId)
    requires r.Valid()
    requires older != newer
    ensures var r' := Unregistered(Registered(r, u, newer), older);
      u in r'.sockets && r'.sockets[u] == newer
  {
    var r1 := Registered(r, u, newer);
    var f := FirstHolder(r1, older);
    if f < |r1.order| {
      assert Holds(r1, f, older);
      assert r1.order[f] != u;
    }
  }

  /** A fresh registration on a socket nobody else uses is the only, and so
      the first, holder of that socket: it sits at the end of the order. */
  lemma FreshRegistrationIsFirstHolder(r: Registry, u: UserId, s: SocketId)
    requires r.Valid()
    requires u !in r.sockets
    requires forall v :: v in r.sockets ==> r.sockets[v] != s
    ensures var r1 := Registered(r, u, s);
      Holds(r1, |r.order|, s) && forall j :: 0 <= j < |r.order| ==> !Holds(r1, j, s)
  {
    var r1 := Registered(r, u, s);
    assert r1.order == r.order + [u];
    forall j | 0 <= j < |r.order| ensures !Holds(r1, j, s) {
      assert r1.order[j] == r.order[j];
      assert r.order[j] in r.sockets;
    }
  }

  /** Taking a freshly appended key out again gives back the map it was
      appended to. */
  lemma DropAppendedKey(r: Registry, u: UserId, s: SocketId)
    requires u !in r.sockets
    ensures var o := r.order + [u];
      Registry(r.sockets[u := s] - {u}, o[..|r.order|] + o[|r.order| + 1..]) == r
  {
    var o := r.order + [u];
    assert o[..|r.order|] == r.order;
    assert r.sockets[u := s] - {u} == r.sockets;
  }

  /** A user who was offline registers on a socket nobody else uses and that
      socket then disconnects: the map is back to what it was, insertion
      order included. */
  lemma {:induction false} RegisterThenDisconnectRestores(r: Registry, u: UserId, s: SocketId)
    requires r.Valid()
    requires u !in r.sockets
    requires forall v :: v in r.sockets ==> r.sockets[v] != s
    ensures Unregistered(Registered(r, u, s), s) == r
  {
    FreshRegistrationIsFirstHolder(r, u, s);
    UnregisteredRemovesFirstHolder(Registered(r, u, s), s, |r.order|);
    DropAppendedKey(r, u, s);
  }
}
