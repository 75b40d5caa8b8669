/**
 * The relay's state and its event handlers: connection handshake and
 * disconnect, `ready`, `newMessage`, `messageSeen` and `register`. The set
 * of open connections and the room memberships are socket.io's own state;
 * they are fields here because the broadcast and the room emit read them.
 */
module Relay {
  import opened Wrappers
  import opened Ids
  import opened Rooms
  import opened Messages
  import opened Users
  import opened Delivery
  import opened Sessions
  import opened Stores

  /** How the handshake middleware answers a connection. */
  datatype Admission = Rejected | Anonymous | Authenticated(claims: Claims)

  /**
   * No token (or an empty one) is let through unauthenticated; otherwise
   * `verify` stands for `jwt.verify` and a failure rejects the connection.
   */
  function Admit(token: Option<string>, verify: string -> Option<Claims>): (a: Admission)
    ensures (token.None? || token.value == "") <==> a.Anonymous?
    ensures a.Rejected? <==> token.Some? && token.value != "" && verify(token.value).None?
    ensures a.Authenticated? ==> token.Some? && verify(token.value) == Some(a.claims)
  {
    if token.None? || token.value == "" then Anonymous
    else match verify(token.value)
      case None => Rejected
      case Some(c) => Authenticated(c)
  }

  class Relay {
    const sessions: SessionDirectory
    const store: MessageStore
    const accounts: UserStore
    var connected: set<SocketId>
    var rooms: map<string, set<SocketId>>

    /**
     * Every session entry points at an open connection and no connection
     * is the entry of two users; room members are open connections.
     */
    ghost predicate Valid()
      reads this, sessions, store, accounts
    {
      && store.Valid()
      && accounts.Valid()
      && "" !in connected
      && (forall u :: u in sessions.sockets ==> sessions.sockets[u] in connected)
      && Injective(sessions.sockets)
      && (forall r :: r in rooms ==> rooms[r] <= connected)
    }

    constructor ()
      ensures Valid()
      ensures sessions.sockets == map[] && store.messages == [] && store.clock == 0 && accounts.users == []
      ensures connected == {} && rooms == map[]
      ensures fresh(sessions) && fresh(store) && fresh(accounts)
    {
      sessions := new SessionDirectory();
      store := new MessageStore();
      accounts := new UserStore();
      connected, rooms := {}, map[];
    }

    /**
     * A new connection `s`: the middleware verifies the token and maps the
     * identity, then the connection handler verifies the same token and
     * maps it again.
     */
    method Handshake(s: SocketId, token: Option<string>, verify: string -> Option<Claims>) returns (a: Admission)
      requires Valid()
      requires s != "" && s !in connected
      modifies this, sessions
      ensures Valid()
      ensures a == Admit(token, verify)
      ensures connected == if a.Rejected? then old(connected) else old(connected) + {s}
      ensures sessions.sockets == if a.Authenticated? then old(sessions.sockets)[a.claims.id := s] else old(sessions.sockets)
      ensures rooms == old(rooms)
    {
      a := Admit(token, verify);
      if a.Rejected? {
        return;
      }
      if a.Authenticated? {
        sessions.Connect(a.claims.id, s);
      }
      connected := connected + {s};
      if token.Some? && token.value != "" {
        match verify(token.value)
        case Some(c) => sessions.Connect(c.id, s);
        case None =>
      }
    }

    /**
     * The connection `s` closed: the reverse-lookup delete of the session
     * entry, and socket.io drops the connection from every room.
     */
    method Disconnect(s: SocketId)
      requires Valid() && s in connected
      modifies this, sessions
      ensures Valid()
      ensures forall u :: u in sessions.sockets <==> u in old(sessions.sockets) && old(sessions.sockets)[u] != s
      ensures forall u :: u in sessions.sockets ==> sessions.sockets[u] == old(sessions.sockets)[u]
      ensures connected == old(connected) - {s}
      ensures rooms == map r | r in old(rooms) :: old(rooms)[r] - {s}
    {
      var _ := sessions.Disconnect(s);
      connected := connected - {s};
      rooms := map r | r in rooms :: rooms[r] - {s};
    }

    /** `ready`: join the pair's room and replay the pair's history to everyone in it. */
    method OpenRoom(s: SocketId, userId: UserId, targetUserId: UserId) returns (es: seq<Emission>)
      requires Valid() && s in connected
      modifies this
      ensures Valid()
      ensures var room := RoomId(userId, targetUserId);
              rooms == old(rooms)[room := (if room in old(rooms) then old(rooms)[room] else {}) + {s}]
              && es == InitChatFanOut(rooms[room], History(store.messages, userId, targetUserId))
      ensures connected == old(connected)
    {
      var room := RoomId(userId, targetUserId);
      var members := if room in rooms then rooms[room] else {};
      rooms := rooms[room := members + {s}];
      es := InitChatFanOut(rooms[room], History(store.messages, userId, targetUserId));
    }

    /** `newMessage` sent over connection `s`. */
    method SendMessage(s: SocketId, p: Payload) returns (es: seq<Emission>)
      requires Valid() && s in connected
      modifies store
      ensures Valid()
      ensures Validate(p).None? ==> store.messages == old(store.messages) && store.clock == old(store.clock) && es == []
      ensures Validate(p).Some? ==>
                var m := Stamp(Validate(p).value, old(store.clock));
                && store.messages == old(store.messages) + [m]
                && store.clock == old(store.clock) + 1
                && es == SendFanOut(sessions.sockets, connected, s, m)
    {
      var d := Validate(p);
      if d.None? {
        return [];
      }
      var m := store.Save(d.value);
      es := SendFanOut(sessions.sockets, connected, s, m);
    }

    /** `messageSeen({ userId: asker, targetUserId: target })`. */
    method MarkSeen(asker: UserId, target: UserId) returns (es: seq<Emission>)
      requires Valid()
      modifies store
      ensures Valid()
      ensures store.messages == MarkedSeen(old(store.messages), asker, target)
      ensures store.clock == old(store.clock)
      ensures es == SeenFanOut(sessions.sockets, asker, target)
    {
      store.UpdateSeen(asker, target);
      es := SeenFanOut(sessions.sockets, asker, target);
    }

    /**
     * `register`, from the point where the password hash and the random
     * id exist: the save fails when the id is taken.
     */
    method Register(username: string, hashedPassword: string, id: UserId, bundle: KeyBundle) returns (ok: bool)
      requires Valid()
      modifies accounts
      ensures Valid()
      ensures ok <==> !HasId(old(accounts.users), id)
      ensures accounts.users == if ok then old(accounts.users) + [User(id, username, hashedPassword, bundle)] else old(accounts.users)
    {
      ok := accounts.Save(User(id, username, hashedPassword, bundle));
    }
  }

  /** The replay B receives when the store holds three messages from A to B, oldest first. */
  lemma ReplayInSendOrder(es: seq<Emission>, members: set<SocketId>, ms: seq<Message>, m1: Message, m2: Message, m3: Message)
    requires ms == [m1, m2, m3] && m1.createdAt < m2.createdAt < m3.createdAt
    requires m1.userId == m2.userId == m3.userId == "AAAAA"
    requires m1.targetUserId == m2.targetUserId == m3.targetUserId == "BBBBB"
    requires es == InitChatFanOut(members, History(ms, "BBBBB", "AAAAA")) && "sb" in members
    ensures Received(es, "sb") == [InitChat([m1, m2, m3])]
  {
    assert forall i :: 0 <= i < |ms| ==> InPair(ms[i], "BBBBB", "AAAAA");
    HistoryOfPairOnlyStore(ms, "BBBBB", "AAAAA");
    InitChatDelivery(members, ms, "sb");
  }

  /**
   * A client of the relay: A sends three messages to B while B is offline;
   * B connects, opens the room and receives all three in the order sent.
   */
  method OfflineReplayScenario(verify: string -> Option<Claims>, tokenA: string, tokenB: string, t1: string, t2: string, t3: string)
    requires tokenA != "" && verify(tokenA) == Some(Claims("AAAAA", "alice"))
    requires tokenB != "" && verify(tokenB) == Some(Claims("BBBBB", "bob"))
    requires t1 != "" && t2 != "" && t3 != ""
  {
    var relay := new Relay();
    var a := relay.Handshake("sa", Some(tokenA), verify);
    var m1 := Message(t1, "AAAAA", "BBBBB", "alice", false, 0);
    var m2 := Message(t2, "AAAAA", "BBBBB", "alice", false, 1);
    var m3 := Message(t3, "AAAAA", "BBBBB", "alice", false, 2);
    var e1 := relay.SendMessage("sa", Payload(Some(t1), Some("AAAAA"), Some("BBBBB"), Some("alice")));
    var e2 := relay.SendMessage("sa", Payload(Some(t2), Some("AAAAA"), Some("BBBBB"), Some("alice")));
    var e3 := relay.SendMessage("sa", Payload(Some(t3), Some("AAAAA"), Some("BBBBB"), Some("alice")));
    assert relay.store.messages == [m1, m2, m3];

    var b := relay.Handshake("sb", Some(tokenB), verify);
    var init := relay.OpenRoom("sb", "BBBBB", "AAAAA");
    ReplayInSendOrder(init, relay.rooms[RoomId("BBBBB", "AAAAA")], relay.store.messages, m1, m2, m3);
    assert Received(init, "sb") == [InitChat([m1, m2, m3])];
  }

  /**
   * A client of the relay: A, connected, has sent B a message; B marks it
   * seen, the message is flagged and A is told so.
   */
  method SeenReceiptScenario(verify: string -> Option<Claims>, tokenA: string, tokenB: string, text: string)
    requires tokenA != "" && verify(tokenA) == Some(Claims("AAAAA", "alice"))
    requires tokenB != "" && verify(tokenB) == Some(Claims("BBBBB", "bob"))
    requires text != ""
  {
    var relay := new Relay();
    var a := relay.Handshake("sa", Some(tokenA), verify);
    var b := relay.Handshake("sb", Some(tokenB), verify);
    var sent := relay.SendMessage("sa", Payload(Some(text), Some("AAAAA"), Some("BBBBB"), Some("alice")));
    var m := Message(text, "AAAAA", "BBBBB", "alice", false, 0);
    assert relay.store.messages == [m];
    SendDelivery(relay.sessions.sockets, relay.connected, "sa", m, "sb");
    assert Received(sent, "sb") == [NewMessage(m), Notification(m), NewMessage(m)];

    var seen := relay.MarkSeen("BBBBB", "AAAAA");
    SeenDelivery(relay.sessions.sockets, "BBBBB", "AAAAA", "sa");
    assert Received(seen, "sa") == [MessageSeenUpdate("BBBBB", "AAAAA")];
    MarkedSeenAt([m], "BBBBB", "AAAAA", 0);
    assert relay.store.messages == [m.(seenStatus := true)];
  }
}
