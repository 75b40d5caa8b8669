# Chat relay: session directory, message relay and seen receipts

A Dafny model of the stateful core of a socket.io chat relay for an
end-to-end encrypted two-party chat (one `server.js`). The server never reads
message payloads. It keeps a live directory from user id to socket id, stores
messages with a seen flag, groups two users into a room, replays a pair's
history, fans new messages out, propagates read receipts, and hands out each
user's published key material.

The model is one in-memory relay state:

- `Sessions.SessionDirectory` is the module-level `userSocketMap`. It is a
  class with a `map<UserId, SocketId>` field. `Connect` inserts or overwrites.
  `Disconnect` is the `for...in` scan: a loop over the keys that deletes the
  first key whose value is the closing socket and then stops.
- `Stores.MessageStore` and `Stores.UserStore` stand in for the two
  collections: a `seq<Message>` with an append counter for `createdAt`, and a
  `seq<User>` whose `Save` honours the unique index on `id`.
- `Relay.Relay` composes them with socket.io's own state: the set of open
  connections and the room memberships, which the broadcast and the room emit
  read. Its methods are the event handlers: handshake (the auth middleware
  plus the connection handler), `disconnect`, `ready`, `newMessage`,
  `messageSeen` and `register`. Every handler returns the emissions it makes.
  An emission is a set of recipient sockets plus an event, and
  `Delivery.Received` gives the events one socket receives, in order.
- The pure parts are functions with lemmas: the room id (`Rooms`), the
  history query and the bulk seen update (`Messages`), the payload check
  (`Messages.Validate`), the id- and username-keyed `findOne` lookups and
  `login` (`Users`), and the delivery decisions (`Delivery`).

The object invariant `Relay.Valid` has six parts:

- the message store's own invariant: stored messages are strictly ordered by
  `createdAt`, and every `createdAt` is below the store's clock;
- the user store's own invariant: no two users share an `id`;
- the empty string is not an open connection;
- every session entry points at an open connection;
- no socket is the entry of two users;
- room members are open connections.

The handlers preserve it. Because of it, a disconnect leaves no entry pointing
at the closed socket.

Two client methods, `Relay.OfflineReplayScenario` and
`Relay.SeenReceiptScenario`, run the relay through two scenarios and check,
by proof, what each socket receives. In the first, three messages are sent to
a user who is offline; the user connects, opens the room and receives all
three in send order. In the second, a message is marked seen and its
connected sender receives `messageSeenUpdate`.

Where the code differs from the intended design of such a relay, the model
follows the code:

- `register` does not reject a username that already exists. There is no
  uniqueness check in the handler or in the schema; only `id` has a unique
  index. Two accounts can share a username. `login` and `searchUser` then
  see the earlier one (`Users.LoginChecksFirstAccount`), under the insertion
  order assumed for `findOne` (see "## Left out").
- `register` does no field validation. A store failure is reported only as
  `{ success: false }`.
- `newMessage`, `ready` and `messageSeen` trust the `userId` the client
  sends. Nothing compares it with the identity in the token. The model takes
  the ids as given too.

## Model

| member | source | states |
|---|---|---|
| Rooms.RoomId | server.js:123 | the room id is the two ids joined by `_`, in one order or the other |
| Rooms.RoomIdSymmetric | server.js:123 | `RoomId(a, b) == RoomId(b, a)`: both participants compute the same room |
| Rooms.RoomIdDecodes | server.js:123 | for ids without `_`, the room id is the lexicographically smaller id, `_`, then the other, and its two parts are exactly the participants |
| Rooms.RoomIdInjective | server.js:123 | for ids without `_`, two pairs share a room iff they are the same unordered pair |
| Rooms.LexLeqTotal | server.js:123 | the string order used by the sort is total |
| Rooms.LexLeqAntisymmetric | server.js:123 | the string order used by the sort is antisymmetric, so equal-ranked ids are equal |
| Messages.Validate | server.js:302-305 | a payload passes iff all of `text`, `userId`, `targetUserId`, `username` are present and non-empty; a passing draft carries exactly those four values |
| Messages.Stamp | server.js:310 | the saved record has the payload's four fields, `seenStatus == false` and the store's current time |
| Messages.Select | server.js:127-131 | the selected records are stored messages of the pair in either direction, no more than the store holds |
| Messages.Insert | server.js:132 | inserting into an ascending-ordered sequence keeps it ascending and adds exactly the one record |
| Messages.SortByCreatedAt | server.js:132 | the sorted history is ascending by `createdAt` and a permutation of its input |
| Messages.SelectCount | server.js:127-131 | each message occurs in the selection as often as in the store if it is of the pair, and otherwise not at all |
| Messages.History | server.js:127-132 | its own contract says only that the history is ascending by `createdAt` and no longer than the store; `Messages.HistoryContents` and `Messages.HistoryMembers` state which records it holds |
| Messages.HistoryContents | server.js:127-132 | the replayed history is ascending by `createdAt` and holds exactly the stored messages of the pair (either direction), with multiplicity |
| Messages.HistoryMembers | server.js:127-131 | a message is in the history iff it is stored and belongs to the pair |
| Messages.SelectSymmetric | server.js:128-131 | the `$or` filter for `(u, t)` and for `(t, u)` selects the same records in the same order |
| Messages.HistorySymmetric | server.js:127-132 | the history for `(u, t)` equals the history for `(t, u)` |
| Messages.SortedIsFixed | server.js:132 | sorting an already ascending sequence leaves it unchanged |
| Messages.SelectChronological | server.js:127-131 | selecting from a strictly time-ordered store keeps strict time order |
| Messages.HistoryInAppendOrder | server.js:127-132 | with `createdAt` increasing on append, the history is the pair's messages in append order |
| Messages.HistoryOfPairOnlyStore | server.js:127-132 | when every stored message belongs to the pair, the history is the whole store in append order |
| Messages.HistoryAfterAppend | server.js:127-132 | appending a newer message of the pair extends its history by exactly that message at the end; a message of another pair leaves it unchanged |
| Messages.MarkedSeen | server.js:246-249 | the bulk seen update keeps the number of records |
| Messages.MarkedSeenAt | server.js:246-249 | each record keeps its position and every field but the flag; the flag becomes true exactly on records sent by `target` to `asker`, and is kept otherwise |
| Messages.MarkedSeenDirected | server.js:246-249 | a record not sent by `target` to `asker` is left unchanged |
| Messages.MarkedSeenReverseUntouched | server.js:246-249 | for two distinct users, the reverse direction (`asker` to `target`) is never touched |
| Messages.MarkedSeenMonotone | server.js:246-249 | a true flag never turns false, and every record of the directed pair is seen afterwards |
| Messages.MarkedSeenIdempotent | server.js:246-249 | a second `messageSeen` for the same pair changes nothing |
| Messages.MarkedSeenChronological | server.js:246-249 | the seen update keeps the store's creation order |
| Users.FindOne | server.js:107 | `findOne` returns the first matching position, or none exactly when nothing matches |
| Users.FetchUsername | server.js:107-111 | fails with `User not found` exactly when no user has the id; a success returns the stored field(s) of a user with that id |
| Users.GetSignedPreKey | server.js:147-156 | fails with `User not found` exactly when no user has the id; a success returns the stored field(s) of a user with that id |
| Users.GetPublicIdentityKeyX25519 | server.js:167-173 | fails with `User not found` exactly when no user has the id; a success returns the stored field(s) of a user with that id |
| Users.GetPublicIdentityKeyEd25519 | server.js:184-190 | fails with `User not found` exactly when no user has the id; a success returns the stored field(s) of a user with that id |
| Users.SearchUser | server.js:343-349 | exact username match: fails with `User not found` exactly when no user has that username; a hit carries the searched username |
| Users.Login | server.js:269-288 | every failure is `InvalidCredentials`, whose reply text is `Invalid username or password`; a success carries the requested username |
| Users.FindById | server.js:39 | under the unique index on `id`, `findOne` by id finds the user with that id |
| Users.LookupsReturnStoredFields | server.js:104-195 | on a stored id, each id-keyed lookup succeeds with that user's stored field(s), unchanged |
| Users.LoginChecksFirstAccount | server.js:269-288 | login with the earliest account's username succeeds iff the password matches that account's hash, and yields that account's `{id, username}`; search yields the same account |
| Users.LoginUnknownUser | server.js:269-272 | an unknown username is refused with the same error as a wrong password, whose reply text is `Invalid username or password` |
| Delivery.SendFanOut | server.js:314-330 | its own contract: the first emission is the broadcast `newMessage` to every open connection except the sender's, and two direct emissions follow iff the recipient is mapped; `Delivery.SendDelivery` states what each socket receives |
| Delivery.SendDelivery | server.js:314-330 | each socket gets the broadcast copy iff it is open and not the sender's, and then `notification` and `newMessage` iff it is the recipient's mapped socket |
| Delivery.NotificationIffMapped | server.js:317-330 | the direct notification is sent iff the recipient has a session entry, and then to that entry's socket |
| Delivery.BroadcastSkipsSender | server.js:314 | apart from the direct events, every open connection except the sender's gets exactly one `newMessage` |
| Delivery.SeenFanOut | server.js:253-256 | its own contract: at most one emission, and one iff the original sender is mapped; `Delivery.SeenDelivery` states who receives it |
| Delivery.SeenDelivery | server.js:253-256 | `messageSeenUpdate` reaches exactly the mapped socket of `targetUserId`, once, and nothing is sent when it is unmapped |
| Delivery.InitChatFanOut | server.js:137 | every room member receives the history batch once, and no one else does; `Delivery.InitChatDelivery` states the same per socket |
| Delivery.InitChatDelivery | server.js:137 | every room member receives the history batch once, and no one else does |
| Sessions.SessionDirectory.Connect | server.js:74 | the directory becomes the old one with `id` mapped to the socket; earlier socket overwritten, other entries unchanged |
| Sessions.SessionDirectory.Disconnect | server.js:201-206 | removes at most one entry, and only one whose value is the closing socket; unchanged when no entry has that value |
| Sessions.ConnectTwice | server.js:74-97 | mapping the same identity twice equals mapping it once |
| Stores.MessageStore.Save | server.js:310-311 | appends exactly one record, unseen, with the draft's fields and the next `createdAt`; store order stays strictly by time |
| Stores.MessageStore.UpdateSeen | server.js:246-249 | the store becomes the bulk seen update of the old store |
| Stores.UserStore.Save | server.js:228 | the save succeeds iff the id is unused, and then appends the user; otherwise nothing changes |
| Relay.Admit | server.js:61-84 | no or empty token: admitted unauthenticated; a token that fails verification: rejected; otherwise authenticated with the decoded claims |
| Relay.Relay.Handshake | server.js:61-102 | a rejected connection changes nothing; an admitted one is open; an authenticated one maps its id to the socket exactly as one assignment would |
| Relay.Relay.Disconnect | server.js:198-207 | exactly the entries pointing at the socket are removed and every other entry kept; the socket leaves the open set and every room |
| Relay.Relay.OpenRoom | server.js:119-141 | the socket joins the pair's room, and the pair's history is emitted to every member of that room |
| Relay.Relay.SendMessage | server.js:297-335 | an invalid payload changes nothing and emits nothing; a valid one appends one unseen record and emits the broadcast and the direct events |
| Relay.Relay.MarkSeen | server.js:237-262 | the store gets the directed bulk seen update and its clock is unchanged, and `messageSeenUpdate` goes to the sender's mapped socket |
| Relay.Relay.Register | server.js:209-235 | the user is saved iff the id is unused, with the given username, hash and key bundle |
| Relay.ReplayInSendOrder | server.js:127-137 | three messages from A to B, stored oldest first, replay to B in that order |

## Left out

- Express, the socket.io server, CORS, `server.listen` and the mongoose connection (server.js:13-36, 357-359) are transport and I/O.
- `jwt.verify` is the parameter `verify` of `Relay.Relay.Handshake`, a function from token to optional claims. Token expiry is not modelled. `jwt.sign` in `login` is not modelled: `Users.Login` returns the claims the token would carry.
- `bcrypt.hash` is not modelled: `Relay.Relay.Register` receives the hash. `bcrypt.compare` is the parameter `matches` of `Users.Login`.
- The random `nanoid` id is a parameter of `Relay.Relay.Register`. Its length and alphabet are not enforced. Its uniqueness comes only from the store's index, as in the code.
- `Date.now` is a counter that increases by one on each append. Equal timestamps and the stability of the store's sort are outside the model.
- The time between a handler's `await` points is not modelled: each handler runs as one atomic step. Store failures, the `catch` paths with their `Internal server error` / `Login failed` replies, and all console output are left out.
- The extra `userId` argument to `io.to(...)` (server.js:323) depends on the socket.io library, which is not part of this model. Only delivery to the target socket is modelled.
- The synchronous throw in `register` when `keyBundle` is absent (server.js:211-212) is not modelled. Register fields are taken as strings.
- The `friends` field of the user schema is never written or read by the handlers, and `socket.user` (server.js:82) is never read. Both are left out.
- `ready` and `messageSeen` with missing ids are not modelled: ids are strings. Payload fields of `newMessage` are strings or missing. Non-string values and their JavaScript truthiness are not modelled.
- Emitted messages are the stored record without the store's generated `_id` and other document metadata.
- Rooms.RoomId compares strings by code point. JavaScript's sort compares UTF-16 code units. The two orders differ only for characters outside the Basic Multilingual Plane.
- Sessions.SessionDirectory.Disconnect leaves the key enumeration order open. JavaScript's `for...in` lists integer-like keys first and then the others in insertion order. When several keys map to the closing socket, the model does not fix which one is deleted. Under `Relay.Valid` at most one key maps to a socket, so the choice does not matter in the relay.
- Users.FetchUsername, Users.GetSignedPreKey, Users.GetPublicIdentityKeyX25519 and Users.GetPublicIdentityKeyEd25519: their own contracts say a successful value is the field of some stored user with that id. That it is the field of the one user with that id is stated by `Users.LookupsReturnStoredFields`, under the store's unique id index.
- `findOne` (server.js:107, 269, 343) has no sort, and MongoDB does not promise that its natural order is insertion order. `Users.FindOne` scans the store in insertion order and returns the first match. So which of several same-username accounts `login` and `searchUser` see is a choice of the model.
