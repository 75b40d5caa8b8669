/**
 * The user collection and its read-only handlers: `fetchUsername`,
 * `getSignedPreKey`, `getPublicIdentityKeyX25519`,
 * `getPublicIdentityKeyEd25519`, `searchUser` and `login`. Each is a
 * `findOne` over the collection in store order, followed by the reply.
 */
module Users {
  import opened Wrappers
  import opened Ids

  /** The key-agreement material published at registration. */
  datatype KeyBundle = KeyBundle(
    publicIdentityKeyX25519: string,
    publicIdentityKeyEd25519: string,
    signedPreKey: string,
    signature: string)

  datatype User = User(id: UserId, username: string, hashedPassword: string, bundle: KeyBundle)

  /** The `{ success: false, error }` replies of the user handlers. */
  datatype Error = UserNotFound | InvalidCredentials

  /** The text the client receives in the `error` field. */
  function ErrorText(e: Error): string {
    match e
    case UserNotFound => "User not found"
    case InvalidCredentials => "Invalid username or password"
  }

  /** The `{ id, username }` pair of a search reply, also the claims a login token carries. */
  datatype Claims = Claims(id: UserId, username: string)

  /** The two `findOne` filters the handlers use. */
  datatype Query = ById(id: UserId) | ByUsername(username: string)

  predicate Matches(u: User, q: Query) {
    match q
    case ById(id) => u.id == id
    case ByUsername(name) => u.username == name
  }

  /** `findOne(q)`: the position of the first matching user, if any. */
  function FindOne(users: seq<User>, q: Query): (r: Option<nat>)
    ensures r.None? <==> forall i :: 0 <= i < |users| ==> !Matches(users[i], q)
    ensures r.Some? ==> r.value < |users| && Matches(users[r.value], q)
    ensures r.Some? ==> forall j :: 0 <= j < r.value ==> !Matches(users[j], q)
  {
    if users == [] then None
    else if Matches(users[0], q) then Some(0)
    else match FindOne(users[1..], q)
      case None => None
      case Some(i) => Some(i + 1)
  }

  /** The store's unique index on `id`. */
  predicate UniqueIds(users: seq<User>) {
    forall i, j :: 0 <= i < j < |users| ==> users[i].id != users[j].id
  }

  predicate HasId(users: seq<User>, id: UserId) {
    exists i :: 0 <= i < |users| && users[i].id == id
  }

  function FetchUsername(users: seq<User>, userId: UserId): (r: Result<string, Error>)
    ensures r.Failure? <==> !HasId(users, userId)
    ensures r.Failure? ==> r.error == UserNotFound && ErrorText(r.error) == "User not found"
    ensures r.Success? ==> exists i :: 0 <= i < |users| && users[i].id == userId && r.value == users[i].username
  {
    match FindOne(users, ById(userId))
    case None => Failure(UserNotFound)
    case Some(i) => Success(users[i].username)
  }

  /** The signed pre-key and its signature, as stored. */
  function GetSignedPreKey(users: seq<User>, targetUserId: UserId): (r: Result<(string, string), Error>)
    ensures r.Failure? <==> !HasId(users, targetUserId)
    ensures r.Failure? ==> r.error == UserNotFound && ErrorText(r.error) == "User not found"
    ensures r.Success? ==> exists i :: 0 <= i < |users| && users[i].id == targetUserId && r.value == (users[i].bundle.signedPreKey, users[i].bundle.signature)
  {
    match FindOne(users, ById(targetUserId))
    case None => Failure(UserNotFound)
    case Some(i) => Success((users[i].bundle.signedPreKey, users[i].bundle.signature))
  }

  function GetPublicIdentityKeyX25519(users: seq<User>, targetUserId: UserId): (r: Result<string, Error>)
    ensures r.Failure? <==> !HasId(users, targetUserId)
    ensures r.Failure? ==> r.error == UserNotFound && ErrorText(r.error) == "User not found"
    ensures r.Success? ==> exists i :: 0 <= i < |users| && users[i].id == targetUserId && r.value == users[i].bundle.publicIdentityKeyX25519
  {
    match FindOne(users, ById(targetUserId))
    case None => Failure(UserNotFound)
    case Some(i) => Success(users[i].bundle.publicIdentityKeyX25519)
  }

  function GetPublicIdentityKeyEd25519(users: seq<User>, targetUserId: UserId): (r: Result<string, Error>)
    ensures r.Failure? <==> !HasId(users, targetUserId)
    ensures r.Failure? ==> r.error == UserNotFound && ErrorText(r.error) == "User not found"
    ensures r.Success? ==> exists i :: 0 <= i < |users| && users[i].id == targetUserId && r.value == users[i].bundle.publicIdentityKeyEd25519
  {
    match FindOne(users, ById(targetUserId))
    case None => Failure(UserNotFound)
    case Some(i) => Success(users[i].bundle.publicIdentityKeyEd25519)
  }

  /** Exact username match; the first registration wins when a name was registered twice. */
  function SearchUser(users: seq<User>, searchTerm: string): (r: Result<Claims, Error>)
    ensures r.Failure? <==> forall i :: 0 <= i < |users| ==> users[i].username != searchTerm
    ensures r.Failure? ==> r.error == UserNotFound && ErrorText(r.error) == "User not found"
    ensures r.Success? ==> r.value.username == searchTerm
  {
    match FindOne(users, ByUsername(searchTerm))
    case None => Failure(UserNotFound)
    case Some(i) => Success(Claims(users[i].id, users[i].username))
  }

  /**
   * `login`: the first user with that username, then the password check.
   * `matches(password, hash)` stands for `bcrypt.compare`; on success the
   * reply carries a token signed over the returned claims.
   */
  function Login(users: seq<User>, username: string, password: string, matches: (string, string) -> bool): (r: Result<Claims, Error>)
    ensures r.Failure? ==> r.error == InvalidCredentials && ErrorText(r.error) == "Invalid username or password"
    ensures r.Success? ==> r.value.username == username
  {
    match FindOne(users, ByUsername(username))
    case None => Failure(InvalidCredentials)
    case Some(i) =>
      if matches(password, users[i].hashedPassword) then Success(Claims(users[i].id, users[i].username))
      else Failure(InvalidCredentials)
  }

  /** Under the unique id index, `findOne` by id returns the user with that id. */
  lemma FindById(users: seq<User>, i: nat)
    requires UniqueIds(users) && i < |users|
    ensures FindOne(users, ById(users[i].id)) == Some(i)
  {
  }

  /** Every id-keyed lookup returns the stored field(s) of the user with that id, unchanged. */
  lemma LookupsReturnStoredFields(users: seq<User>, i: nat)
    requires UniqueIds(users) && i < |users|
    ensures FetchUsername(users, users[i].id) == Success(users[i].username)
    ensures GetSignedPreKey(users, users[i].id) == Success((users[i].bundle.signedPreKey, users[i].bundle.signature))
    ensures GetPublicIdentityKeyX25519(users, users[i].id) == Success(users[i].bundle.publicIdentityKeyX25519)
    ensures GetPublicIdentityKeyEd25519(users, users[i].id) == Success(users[i].bundle.publicIdentityKeyEd25519)
  {
    FindById(users, i);
  }

  /**
   * Login and search see the earliest account with the username: login
   * succeeds exactly when the password matches that account's hash, and
   * then issues that account's claims.
   */
  lemma LoginChecksFirstAccount(users: seq<User>, i: nat, password: string, matches: (string, string) -> bool)
    requires i < |users|
    requires forall j :: 0 <= j < i ==> users[j].username != users[i].username
    ensures Login(users, users[i].username, password, matches).Success?
        <==> matches(password, users[i].hashedPassword)
    ensures Login(users, users[i].username, password, matches).Success? ==>
              Login(users, users[i].username, password, matches).value == Claims(users[i].id, users[i].username)
    ensures SearchUser(users, users[i].username) == Success(Claims(users[i].id, users[i].username))
  {
    assert FindOne(users, ByUsername(users[i].username)) == Some(i);
  }

  /** An unknown username is refused with the same error as a wrong password. */
  lemma LoginUnknownUser(users: seq<User>, username: string, password: string, matches: (string, string) -> bool)
    requires forall j :: 0 <= j < |users| ==> users[j].username != username
    ensures Login(users, username, password, matches) == Failure(InvalidCredentials)
    ensures ErrorText(Login(users, username, password, matches).error) == "Invalid username or password"
  {
    assert FindOne(users, ByUsername(username)).None?;
  }
}
