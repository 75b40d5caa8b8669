/**
 * Message records and the three queries the relay runs against the message
 * collection: validation of a `newMessage` payload, the history selection
 * of the `ready` handler, and the bulk seen update of `messageSeen`.
 */
module Messages {
  import opened Wrappers
  import opened Ids

  /** A stored message. `createdAt` is the store's append counter. */
  datatype Message = Message(
    text: string,
    userId: UserId,
    targetUserId: UserId,
    username: string,
    seenStatus: bool,
    createdAt: nat)

  /** The fields of a `newMessage` payload; `None` is a field the client left out. */
  datatype Payload = Payload(
    text: Option<string>,
    userId: Option<UserId>,
    targetUserId: Option<UserId>,
    username: Option<string>)

  /** A payload that passed validation. */
  datatype Draft = Draft(text: string, userId: UserId, targetUserId: UserId, username: string)

  /** JavaScript truthiness of a string field: present and not empty. */
  predicate Truthy(f: Option<string>) {
    f.Some? && f.value != ""
  }

  /** The guard `!text || !userId || !targetUserId || !username` and the record it lets through. */
  function Validate(p: Payload): (r: Option<Draft>)
    ensures r.Some? <==> Truthy(p.text) && Truthy(p.userId) && Truthy(p.targetUserId) && Truthy(p.username)
    ensures r.Some? ==> r.value == Draft(p.text.value, p.userId.value, p.targetUserId.value, p.username.value)
    ensures r.Some? ==> r.value.text != "" && r.value.userId != "" && r.value.targetUserId != "" && r.value.username != ""
  {
    if !Truthy(p.text) || !Truthy(p.userId) || !Truthy(p.targetUserId) || !Truthy(p.username) then None
    else Some(Draft(p.text.value, p.userId.value, p.targetUserId.value, p.username.value))
  }

  /** The record `new Message({...seenStatus: false})` saves at time `createdAt`. */
  function Stamp(d: Draft, createdAt: nat): (m: Message)
    ensures !m.seenStatus && m.createdAt == createdAt
    ensures m.text == d.text && m.userId == d.userId && m.targetUserId == d.targetUserId && m.username == d.username
  {
    Message(d.text, d.userId, d.targetUserId, d.username, false, createdAt)
  }

  // ----- History -----------------------------------------------------------

  /** The `$or` filter of the history query: the pair in either direction. */
  predicate InPair(m: Message, u: UserId, t: UserId) {
    (m.userId == u && m.targetUserId == t) || (m.userId == t && m.targetUserId == u)
  }

  /** The stored messages matching the filter, in store order. */
  function Select(ms: seq<Message>, u: UserId, t: UserId): (r: seq<Message>)
    ensures |r| <= |ms|
    ensures forall m :: m in r ==> m in ms && InPair(m, u, t)
  {
    if ms == [] then []
    else
      var last := ms[|ms| - 1];
      Select(ms[..|ms| - 1], u, t) + (if InPair(last, u, t) then [last] else [])
  }

  /** Ascending by `createdAt` (each record no later than the next). */
  predicate SortedByCreatedAt(s: seq<Message>) {
    forall i :: 0 <= i < |s| - 1 ==> s[i].createdAt <= s[i + 1].createdAt
  }

  /** Strictly ascending by `createdAt`: how the store assigns it on append. */
  predicate Chronological(s: seq<Message>) {
    forall i, j :: 0 <= i < j < |s| ==> s[i].createdAt < s[j].createdAt
  }

  function Insert(m: Message, s: seq<Message>): (r: seq<Message>)
    ensures multiset(r) == multiset(s) + multiset{m}
    ensures r[0] == m || (s != [] && r[0] == s[0])
    ensures SortedByCreatedAt(s) ==> SortedByCreatedAt(r)
  {
    if s == [] || m.createdAt <= s[0].createdAt then [m] + s
    else
      assert s == [s[0]] + s[1..];
      var rest := Insert(m, s[1..]);
      assert SortedByCreatedAt(s) ==> SortedByCreatedAt(s[1..]) && s[0].createdAt <= rest[0].createdAt;
      [s[0]] + rest
  }

  /** `.sort({ createdAt: 1 })`, as an insertion sort. */
  function SortByCreatedAt(s: seq<Message>): (r: seq<Message>)
    ensures SortedByCreatedAt(r)
    ensures multiset(r) == multiset(s)
  {
    if s == [] then []
    else
      assert s == [s[0]] + s[1..];
      Insert(s[0], SortByCreatedAt(s[1..]))
  }

  /** The messages `initChat` replays for the pair `(u, t)`. */
  function History(ms: seq<Message>, u: UserId, t: UserId): (r: seq<Message>)
    ensures SortedByCreatedAt(r)
    ensures |r| <= |ms|
  {
    var sel := Select(ms, u, t);
    assert |multiset(SortByCreatedAt(sel))| == |multiset(sel)|;
    SortByCreatedAt(sel)
  }

  lemma {:induction false} SelectCount(ms: seq<Message>, u: UserId, t: UserId, m: Message)
    ensures multiset(Select(ms, u, t))[m] == if InPair(m, u, t) then multiset(ms)[m] else 0
  {
    if ms != [] {
      var init, last := ms[..|ms| - 1], ms[|ms| - 1];
      assert ms == init + [last];
      SelectCount(init, u, t, m);
    }
  }

  /**
   * The history holds exactly the stored messages of the pair, in either
   * direction and with their multiplicity, and it is ascending by `createdAt`.
   */
  lemma HistoryContents(ms: seq<Message>, u: UserId, t: UserId)
    ensures SortedByCreatedAt(History(ms, u, t))
    ensures forall m :: multiset(History(ms, u, t))[m] == if InPair(m, u, t) then multiset(ms)[m] else 0
  {
    forall m ensures multiset(History(ms, u, t))[m] == if InPair(m, u, t) then multiset(ms)[m] else 0 {
      SelectCount(ms, u, t, m);
    }
  }

  lemma HistoryMembers(ms: seq<Message>, u: UserId, t: UserId, m: Message)
    ensures m in History(ms, u, t) <==> m in ms && InPair(m, u, t)
  {
    HistoryContents(ms, u, t);
    assert m in History(ms, u, t) <==> multiset(History(ms, u, t))[m] > 0;
    assert m in ms <==> multiset(ms)[m] > 0;
  }

  lemma {:induction false} SelectSymmetric(ms: seq<Message>, u: UserId, t: UserId)
    ensures Select(ms, u, t) == Select(ms, t, u)
  {
    if ms != [] {
      SelectSymmetric(ms[..|ms| - 1], u, t);
    }
  }

  /** Opening the room from either side replays the same history. */
  lemma HistorySymmetric(ms: seq<Message>, u: UserId, t: UserId)
    ensures History(ms, u, t) == History(ms, t, u)
  {
    SelectSymmetric(ms, u, t);
  }

  lemma {:induction false} SortedIsFixed(s: seq<Message>)
    requires SortedByCreatedAt(s)
    ensures SortByCreatedAt(s) == s
  {
    if s != [] {
      SortedIsFixed(s[1..]);
      assert s == [s[0]] + s[1..];
    }
  }

  lemma {:induction false} SelectChronological(ms: seq<Message>, u: UserId, t: UserId)
    requires Chronological(ms)
    ensures Chronological(Select(ms, u, t))
  {
    if ms != [] {
      var init, last := ms[..|ms| - 1], ms[|ms| - 1];
      assert Chronological(init);
      SelectChronological(init, u, t);
      var r := Select(init, u, t);
      forall x | x in r ensures x.createdAt < last.createdAt {
        var i :| 0 <= i < |init| && init[i] == x;
      }
    }
  }

  /**
   * With `createdAt` strictly increasing in store order, sorting is the
   * identity: the history is the pair's messages in append order.
   */
  lemma HistoryInAppendOrder(ms: seq<Message>, u: UserId, t: UserId)
    requires Chronological(ms)
    ensures History(ms, u, t) == Select(ms, u, t)
  {
    SelectChronological(ms, u, t);
    SortedIsFixed(Select(ms, u, t));
  }

  lemma {:induction false} SelectKeepsPair(ms: seq<Message>, u: UserId, t: UserId)
    requires forall i :: 0 <= i < |ms| ==> InPair(ms[i], u, t)
    ensures Select(ms, u, t) == ms
  {
    if ms != [] {
      var init := ms[..|ms| - 1];
      SelectKeepsPair(init, u, t);
      assert InPair(ms[|ms| - 1], u, t);
      assert ms == init + [ms[|ms| - 1]];
    }
  }

  /** When every stored message belongs to the pair, the history is the whole store, in append order. */
  lemma HistoryOfPairOnlyStore(ms: seq<Message>, u: UserId, t: UserId)
    requires Chronological(ms)
    requires forall i :: 0 <= i < |ms| ==> InPair(ms[i], u, t)
    ensures History(ms, u, t) == ms
  {
    HistoryInAppendOrder(ms, u, t);
    SelectKeepsPair(ms, u, t);
  }

  /** Appending a newer message extends the pair's history by exactly that message, at the end. */
  lemma HistoryAfterAppend(ms: seq<Message>, m: Message, u: UserId, t: UserId)
    requires Chronological(ms + [m])
    ensures History(ms + [m], u, t) == History(ms, u, t) + (if InPair(m, u, t) then [m] else [])
  {
    assert Chronological(ms);
    assert (ms + [m])[..|ms|] == ms;
    HistoryInAppendOrder(ms, u, t);
    HistoryInAppendOrder(ms + [m], u, t);
  }

  // ----- Seen status ---------------------------------------------------------

  /** The directed filter of `messageSeen(asker, target)`: sent by `target` to `asker`. */
  predicate SentTo(m: Message, asker: UserId, target: UserId) {
    m.userId == target && m.targetUserId == asker
  }

  /** `updateMany({ userId: target, targetUserId: asker, seenStatus: false }, { $set: { seenStatus: true } })`. */
  function MarkedSeen(ms: seq<Message>, asker: UserId, target: UserId): (r: seq<Message>)
    ensures |r| == |ms|
  {
    if ms == [] then []
    else
      var m := ms[0];
      var m' := if m.userId == target && m.targetUserId == asker && !m.seenStatus then m.(seenStatus := true) else m;
      [m'] + MarkedSeen(ms[1..], asker, target)
  }

  /**
   * Each record keeps its position and every field but `seenStatus`; its
   * flag is set exactly when it was sent by `target` to `asker`, and kept otherwise.
   */
  lemma {:induction false} MarkedSeenAt(ms: seq<Message>, asker: UserId, target: UserId, i: nat)
    requires i < |ms|
    ensures MarkedSeen(ms, asker, target)[i]
         == if SentTo(ms[i], asker, target) then ms[i].(seenStatus := true) else ms[i]
  {
    if i > 0 {
      MarkedSeenAt(ms[1..], asker, target, i - 1);
    }
  }

  /** Only the directed pair is touched; the reverse direction never is (for two distinct users). */
  lemma MarkedSeenDirected(ms: seq<Message>, asker: UserId, target: UserId, i: nat)
    requires i < |ms| && !SentTo(ms[i], asker, target)
    ensures MarkedSeen(ms, asker, target)[i] == ms[i]
  {
    MarkedSeenAt(ms, asker, target, i);
  }

  lemma MarkedSeenReverseUntouched(ms: seq<Message>, asker: UserId, target: UserId, i: nat)
    requires i < |ms| && asker != target
    requires ms[i].userId == asker && ms[i].targetUserId == target
    ensures MarkedSeen(ms, asker, target)[i] == ms[i]
  {
    MarkedSeenAt(ms, asker, target, i);
  }

  /** A true flag is never turned back to false, and afterwards none of the pair's messages is unseen. */
  lemma MarkedSeenMonotone(ms: seq<Message>, asker: UserId, target: UserId, i: nat)
    requires i < |ms|
    ensures ms[i].seenStatus ==> MarkedSeen(ms, asker, target)[i].seenStatus
    ensures SentTo(ms[i], asker, target) ==> MarkedSeen(ms, asker, target)[i].seenStatus
  {
    MarkedSeenAt(ms, asker, target, i);
  }

  /** A second, immediate `messageSeen` for the same pair changes nothing. */
  lemma MarkedSeenIdempotent(ms: seq<Message>, asker: UserId, target: UserId)
    ensures MarkedSeen(MarkedSeen(ms, asker, target), asker, target) == MarkedSeen(ms, asker, target)
  {
    var once := MarkedSeen(ms, asker, target);
    var twice := MarkedSeen(once, asker, target);
    forall i | 0 <= i < |ms| ensures twice[i] == once[i] {
      MarkedSeenAt(ms, asker, target, i);
      MarkedSeenAt(once, asker, target, i);
    }
  }

  /** The seen update keeps the store's creation order. */
  lemma MarkedSeenChronological(ms: seq<Message>, asker: UserId, target: UserId)
    requires Chronological(ms)
    ensures Chronological(MarkedSeen(ms, asker, target))
  {
    var r := MarkedSeen(ms, asker, target);
    forall i | 0 <= i < |ms| ensures r[i].createdAt == ms[i].createdAt {
      MarkedSeenAt(ms, asker, target, i);
    }
  }
}
