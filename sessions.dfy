/**
 * The process-wide `userSocketMap`: user id to the socket id of that
 * user's current connection.
 */
module Sessions {
  import opened Wrappers
  import opened Ids

  /** No socket is the entry of two users. */
  predicate Injective(m: map<UserId, SocketId>) {
    forall u, v :: u in m && v in m && u != v ==> m[u] != m[v]
  }

  class SessionDirectory {
    var sockets: map<UserId, SocketId>

    constructor ()
      ensures sockets == map[]
    {
      sockets := map[];
    }

    /** `userSocketMap[id] = socket.id`: insert, or overwrite the earlier socket of `id`. */
    method Connect(id: UserId, s: SocketId)
      modifies this
      ensures sockets == old(sockets)[id := s]
    {
      sockets := sockets[id := s];
    }

    /**
     * The `for...in` scan of the disconnect handler: delete the first key
     * whose value is `s`, then stop. The enumeration order of the keys is
     * left open; `removed` reports which key, if any, was deleted.
     */
    method Disconnect(s: SocketId) returns (removed: Option<UserId>)
      modifies this
      ensures removed.None? ==> sockets == old(sockets)
      ensures removed.None? ==> forall u :: u in old(sockets) ==> old(sockets)[u] != s
      ensures removed.Some? ==> removed.value in old(sockets) && old(sockets)[removed.value] == s
      ensures removed.Some? ==> sockets == old(sockets) - {removed.value}
    {
      removed := None;
      var pending := sockets.Keys;
      while pending != {}
        invariant pending <= sockets.Keys
        invariant sockets == old(sockets) && removed.None?
        invariant forall u :: u in sockets && u !in pending ==> sockets[u] != s
        decreases pending
      {
        var u :| u in pending;
        if sockets[u] == s {
          sockets := sockets - {u};
          removed := Some(u);
          break;
        }
        pending := pending - {u};
      }
    }
  }

  /** Mapping the same identity twice, as the middleware and then the connection handler do, is mapping it once. */
  lemma ConnectTwice(m: map<UserId, SocketId>, id: UserId, s: SocketId)
    ensures m[id := s][id := s] == m[id := s]
  {
  }
}
