/**
 The server's presence registry and message relay (backend/src/lib/socket.js).
 One `PresenceServer` holds the module-level `userSocketMap` from user id to
 socket id; its three event handlers mutate it in place and return, in order,
 the events the real handlers emit through socket.io:
 - a presence broadcast `getOnlineUsers` to every connection, carrying the
   keys of the map;
 - a `newMessage` addressed to one socket id, carrying `{message, senderId}`.
 */
module Presence {
  import opened ChatTypes

  type SocketId = string

  /** The opaque JSON value a client puts in the `message` field. */
  datatype Json = JNull | JBool(b: bool) | JNum(n: int) | JStr(s: string)
                | JArr(items: seq<Json>) | JObj(fields: map<string, Json>)

  /** A live connection: its socket id and the `userId` query parameter of
      its handshake (`None` when the client sent none). */
  datatype Socket = Socket(id: SocketId, handshakeUserId: Option<string>)

  /** What the handlers emit. `Presence` goes to all connections;
      `NewMessage` goes to the one socket `to`. */
  datatype Emit =
    | Presence(online: set<UserId>)
    | NewMessage(to: SocketId, message: Json, senderId: Option<string>)

  /** JavaScript truthiness of the handshake `userId`: present and non-empty. */
  predicate Registers(socket: Socket)
  {
    socket.handshakeUserId.Some? && socket.handshakeUserId.value != ""
  }

  class PresenceServer {
    /** `userSocketMap`: at most one socket id per user id. */
    var userSocketMap: map<UserId, SocketId>

    /** Every registered socket id is non-empty (socket.io never hands out
        an empty id, and only handshake sockets are registered). */
    ghost predicate IdsNonEmpty()
      reads this
    {
      forall u :: u in userSocketMap ==> userSocketMap[u] != ""
    }

    constructor ()
      ensures userSocketMap == map[]
      ensures IdsNonEmpty()
    {
      userSocketMap := map[];
    }

    /** `getReceiverSocketId(userId)`: the socket id registered for the
        user, or `None` (`undefined`) for a user with no open connection. */
    function GetReceiverSocketId(userId: UserId): (r: Option<SocketId>)
      reads this
      ensures r.Some? <==> userId in userSocketMap
      ensures r.Some? ==> r.value == userSocketMap[userId]
    {
      if userId in userSocketMap then Some(userSocketMap[userId]) else None
    }

    /** The `connection` handler. A socket with a truthy handshake `userId`
        is registered under it, replacing any earlier socket of that user
        (the last connection wins), and the new key set is broadcast. Any
        other socket changes nothing and emits nothing. */
    method OnConnection(socket: Socket) returns (emits: seq<Emit>)
      modifies this
      ensures Registers(socket) ==>
                userSocketMap == old(userSocketMap)[socket.handshakeUserId.value := socket.id]
                && emits == [Presence(userSocketMap.Keys)]
      ensures !Registers(socket) ==> userSocketMap == old(userSocketMap) && emits == []
      ensures old(IdsNonEmpty()) && socket.id != "" ==> IdsNonEmpty()
    {
      if Registers(socket) {
        userSocketMap := userSocketMap[socket.handshakeUserId.value := socket.id];
        emits := [Presence(userSocketMap.Keys)];
      } else {
        emits := [];
      }
    }

    /** The `send-message` handler of `socket` for `{to, message}`. Exactly
        one `newMessage` is emitted, to the socket registered for `to`, when
        there is one; it carries the message unchanged and the SENDER'S
        handshake `userId` (not anything the client supplied). Otherwise
        nothing is emitted. The map is only read. */
    method OnSendMessage(socket: Socket, to: UserId, message: Json) returns (emits: seq<Emit>)
      ensures |emits| <= 1
      ensures |emits| == 1 <==> to in userSocketMap && userSocketMap[to] != ""
      ensures |emits| == 1 ==>
                emits[0] == NewMessage(userSocketMap[to], message, socket.handshakeUserId)
    {
      var receiverSocketId := GetReceiverSocketId(to);
      if receiverSocketId.Some? && receiverSocketId.value != "" {
        emits := [NewMessage(receiverSocketId.value, message, socket.handshakeUserId)];
      } else {
        emits := [];
      }
    }

    /** The `disconnect` handler. For a socket that registered, the entry of
        its user id is deleted WHATEVER socket id it now holds, and the new
        key set is broadcast (also when the entry was already gone). Any
        other socket changes nothing and emits nothing. */
    method OnDisconnect(socket: Socket) returns (emits: seq<Emit>)
      modifies this
      ensures Registers(socket) ==>
                userSocketMap == old(userSocketMap) - {socket.handshakeUserId.value}
                && emits == [Presence(userSocketMap.Keys)]
      ensures !Registers(socket) ==> userSocketMap == old(userSocketMap) && emits == []
      ensures old(IdsNonEmpty()) ==> IdsNonEmpty()
    {
      if Registers(socket) {
        userSocketMap := userSocketMap - {socket.handshakeUserId.value};
        emits := [Presence(userSocketMap.Keys)];
      } else {
        emits := [];
      }
    }
  }

  /** While every registered socket id is non-empty, a message is relayed
      exactly when its recipient is registered. */
  lemma RelayIffRegistered(server: PresenceServer, to: UserId)
    requires server.IdsNonEmpty()
    ensures (to in server.userSocketMap && server.userSocketMap[to] != "")
            <==> server.GetReceiverSocketId(to).Some?
  {
  }

  /** Users A and B connect, A sends "hi" to B: B's socket alone receives one
      `newMessage` from A. Then B disconnects and A sends again: nothing is
      emitted and the call completes normally. */
  method RelayScenario() returns (whileOnline: seq<Emit>, afterLeaving: seq<Emit>)
    ensures whileOnline == [NewMessage("socket-b", JStr("hi"), Some("A"))]
    ensures afterLeaving == []
  {
    var server := new PresenceServer();
    var a := Socket("socket-a", Some("A"));
    var b := Socket("socket-b", Some("B"));
    var _ := server.OnConnection(a);
    var _ := server.OnConnection(b);
    whileOnline := server.OnSendMessage(a, "B", JStr("hi"));
    var _ := server.OnDisconnect(b);
    afterLeaving := server.OnSendMessage(a, "B", JStr("hi"));
  }

  /** A user reconnects (socket 2) before the old connection (socket 1) has
      closed. When socket 1 closes it deletes the user's entry although that
      entry now belongs to socket 2, so the user shows as offline while
      connected and messages to them are dropped. A second close of the same
      socket leaves the map as it is and broadcasts it again. */
  method StaleDisconnectScenario()
    returns (online: set<UserId>, routed: Option<SocketId>, again: seq<Emit>)
    ensures online == {}
    ensures routed == None
    ensures again == [Presence({})]
  {
    var server := new PresenceServer();
    var first := Socket("socket-1", Some("U"));
    var second := Socket("socket-2", Some("U"));
    var _ := server.OnConnection(first);
    var _ := server.OnConnection(second);
    var _ := server.OnDisconnect(first);
    online := server.userSocketMap.Keys;
    routed := server.GetReceiverSocketId("U");
    again := server.OnDisconnect(first);
  }

  /** A connection without a usable `userId` is anonymous: it never appears
      in a presence broadcast, yet its `send-message` is still relayed, with
      the missing handshake value as sender. */
  method AnonymousSenderScenario() returns (joined: seq<Emit>, relayed: seq<Emit>)
    ensures joined == []
    ensures relayed == [NewMessage("socket-b", JNull, None)]
  {
    var server := new PresenceServer();
    var b := Socket("socket-b", Some("B"));
    var anonymous := Socket("socket-x", None);
    var _ := server.OnConnection(b);
    joined := server.OnConnection(anonymous);
    relayed := server.OnSendMessage(anonymous, "B", JNull);
  }
}
