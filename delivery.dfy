/**
 * What the relay pushes to which connection. An emission is one
 * `emit` call: the set of sockets it reaches and the event it carries.
 * The decisions depend only on the session directory and the set of
 * open connections.
 */
module Delivery {
  import opened Ids
  import opened Messages

  /** Server-to-client events. */
  datatype Event =
    | InitChat(messages: seq<Message>)
    | NewMessage(message: Message)
    | Notification(messageData: Message)
    | MessageSeenUpdate(userId: UserId, targetUserId: UserId)

  datatype Emission = Emission(to: set<SocketId>, event: Event)

  /** The events socket `s` receives from a run of emissions, in order. */
  function Received(es: seq<Emission>, s: SocketId): (r: seq<Event>)
    ensures |r| <= |es|
    ensures r == [] <==> forall i :: 0 <= i < |es| ==> s !in es[i].to
    ensures |r| == |es| <==> forall i :: 0 <= i < |es| ==> s in es[i].to
  {
    if es == [] then []
    else (if s in es[0].to then [es[0].event] else []) + Received(es[1..], s)
  }

  /** `userSocketMap[u]` is truthy: the user has a session entry with a non-empty socket id. */
  predicate Reachable(sockets: map<UserId, SocketId>, u: UserId) {
    u in sockets && sockets[u] != ""
  }

  /** Socket.io never issues an empty socket id. */
  predicate NonEmptyIds(sockets: map<UserId, SocketId>) {
    forall u :: u in sockets ==> sockets[u] != ""
  }

  /**
   * After a message is saved: `socket.broadcast.emit('newMessage')` to every
   * open connection except the sender's, then, when the recipient is mapped,
   * `notification` and `newMessage` to the recipient's socket.
   */
  function SendFanOut(sockets: map<UserId, SocketId>, connected: set<SocketId>, sender: SocketId, m: Message): (r: seq<Emission>)
    ensures |r| == if Reachable(sockets, m.targetUserId) then 3 else 1
    ensures r[0] == Emission(connected - {sender}, NewMessage(m))
  {
    [Emission(connected - {sender}, NewMessage(m))]
    + if Reachable(sockets, m.targetUserId) then
        var target := sockets[m.targetUserId];
        [Emission({target}, Notification(m)), Emission({target}, NewMessage(m))]
      else []
  }

  /** After the seen update: `messageSeenUpdate` to the sender of those messages, when mapped. */
  function SeenFanOut(sockets: map<UserId, SocketId>, asker: UserId, target: UserId): (r: seq<Emission>)
    ensures |r| <= 1
    ensures r != [] <==> Reachable(sockets, target)
  {
    if Reachable(sockets, target) then [Emission({sockets[target]}, MessageSeenUpdate(asker, target))] else []
  }

  /** `io.to(room).emit('initChat', history)`. */
  function InitChatFanOut(members: set<SocketId>, history: seq<Message>): (r: seq<Emission>)
    ensures forall s :: Received(r, s) == if s in members then [InitChat(history)] else []
  {
    [Emission(members, InitChat(history))]
  }

  lemma {:induction false} ReceivedAppend(a: seq<Emission>, b: seq<Emission>, s: SocketId)
    ensures Received(a + b, s) == Received(a, s) + Received(b, s)
  {
    if a != [] {
      assert (a + b)[0] == a[0] && (a + b)[1..] == a[1..] + b;
      ReceivedAppend(a[1..], b, s);
      var head := if s in a[0].to then [a[0].event] else [];
      calc {
        Received(a + b, s);
        head + Received(a[1..] + b, s);
        head + (Received(a[1..], s) + Received(b, s));
        (head + Received(a[1..], s)) + Received(b, s);
      }
    } else {
      assert a + b == b;
    }
  }

  /**
   * What each socket gets for one sent message: the broadcast copy unless it
   * is the sender's own or not open, and the direct notification and copy
   * exactly when it is the recipient's mapped socket.
   */
  lemma SendDelivery(sockets: map<UserId, SocketId>, connected: set<SocketId>, sender: SocketId, m: Message, s: SocketId)
    ensures Received(SendFanOut(sockets, connected, sender, m), s)
         == (if s in connected && s != sender then [NewMessage(m)] else [])
          + (if Reachable(sockets, m.targetUserId) && sockets[m.targetUserId] == s
             then [Notification(m), NewMessage(m)] else [])
  {
    var broadcast := [Emission(connected - {sender}, NewMessage(m))];
    var direct := SendFanOut(sockets, connected, sender, m)[1..];
    assert SendFanOut(sockets, connected, sender, m) == broadcast + direct;
    ReceivedAppend(broadcast, direct, s);
    if Reachable(sockets, m.targetUserId) {
      var target := sockets[m.targetUserId];
      ReceivedAppend([Emission({target}, Notification(m))], [Emission({target}, NewMessage(m))], s);
    }
  }

  /** The direct notification goes out iff the recipient has a session entry (socket ids being non-empty). */
  lemma NotificationIffMapped(sockets: map<UserId, SocketId>, connected: set<SocketId>, sender: SocketId, m: Message)
    requires NonEmptyIds(sockets)
    ensures (exists s :: Notification(m) in Received(SendFanOut(sockets, connected, sender, m), s))
        <==> m.targetUserId in sockets
    ensures m.targetUserId in sockets ==>
              Notification(m) in Received(SendFanOut(sockets, connected, sender, m), sockets[m.targetUserId])
  {
    if m.targetUserId in sockets {
      SendDelivery(sockets, connected, sender, m, sockets[m.targetUserId]);
    }
    forall s | Notification(m) in Received(SendFanOut(sockets, connected, sender, m), s)
      ensures m.targetUserId in sockets
    {
      SendDelivery(sockets, connected, sender, m, s);
    }
  }

  /** The sender's own connection gets no broadcast copy; every other open one does. */
  lemma BroadcastSkipsSender(sockets: map<UserId, SocketId>, connected: set<SocketId>, sender: SocketId, m: Message, s: SocketId)
    requires !(Reachable(sockets, m.targetUserId) && sockets[m.targetUserId] == s)
    ensures Received(SendFanOut(sockets, connected, sender, m), s)
         == if s in connected && s != sender then [NewMessage(m)] else []
  {
    SendDelivery(sockets, connected, sender, m, s);
  }

  /** The seen update reaches exactly the mapped socket of the original sender, once. */
  lemma SeenDelivery(sockets: map<UserId, SocketId>, asker: UserId, target: UserId, s: SocketId)
    requires NonEmptyIds(sockets)
    ensures Received(SeenFanOut(sockets, asker, target), s)
         == if target in sockets && sockets[target] == s then [MessageSeenUpdate(asker, target)] else []
  {
  }

  /** Every member of the room receives the history batch once, and no one else does. */
  lemma InitChatDelivery(members: set<SocketId>, history: seq<Message>, s: SocketId)
    ensures Received(InitChatFanOut(members, history), s) == if s in members then [InitChat(history)] else []
  {
  }
}
