/**
 * In-memory stand-ins for the two collections: `Message` (saved on
 * `newMessage`, bulk-updated on `messageSeen`) and `User` (saved on
 * `register`, with a unique index on `id`).
 */
module Stores {
  import opened Ids
  import opened Messages
  import opened Users

  class MessageStore {
    var messages: seq<Message>
    /** The next `createdAt`; stands in for `Date.now`. */
    var clock: nat

    ghost predicate Valid()
      reads this
    {
      Chronological(messages) && forall i :: 0 <= i < |messages| ==> messages[i].createdAt < clock
    }

    constructor ()
      ensures Valid() && messages == [] && clock == 0
    {
      messages, clock := [], 0;
    }

    /** `new Message({ ..., seenStatus: false }).save()`. */
    method Save(d: Draft) returns (m: Message)
      requires Valid()
      modifies this
      ensures Valid()
      ensures m == Stamp(d, old(clock))
      ensures messages == old(messages) + [m] && clock == old(clock) + 1
    {
      m := Stamp(d, clock);
      messages, clock := messages + [m], clock + 1;
    }

    /** `Message.updateMany(...)` of the seen handler. */
    method UpdateSeen(asker: UserId, target: UserId)
      requires Valid()
      modifies this
      ensures Valid()
      ensures messages == MarkedSeen(old(messages), asker, target) && clock == old(clock)
    {
      MarkedSeenChronological(messages, asker, target);
      ghost var before := messages;
      messages := MarkedSeen(messages, asker, target);
      forall i | 0 <= i < |messages| ensures messages[i].createdAt == before[i].createdAt {
        MarkedSeenAt(before, asker, target, i);
      }
    }
  }

  class UserStore {
    var users: seq<User>

    ghost predicate Valid()
      reads this
    {
      UniqueIds(users)
    }

    constructor ()
      ensures Valid() && users == []
    {
      users := [];
    }

    /** `user.save()`: refused by the unique index when the id is taken. */
    method Save(u: User) returns (ok: bool)
      requires Valid()
      modifies this
      ensures Valid()
      ensures ok <==> !HasId(old(users), u.id)
      ensures users == if ok then old(users) + [u] else old(users)
    {
      ok := FindOne(users, ById(u.id)).None?;
      if ok {
        users := users + [u];
      }
    }
  }
}
