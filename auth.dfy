/** Login, token claims and account creation. The password hasher and the
    token codec are foreign libraries: the hasher is a pair of uninterpreted
    functions (`Crypt`), and a token reaches the server already decoded, as
    its claim set or a decoding error (`Decoded`). */
module Auth {
  import opened Outcomes
  import opened Models
  import opened Database

  /** The password hasher: `hash` salts and hashes, `verify` checks a
      password against a stored hash. */
  datatype Crypt = Crypt(hash: string -> Hash, verify: (string, Hash) -> bool)

  /** A hasher that accepts every password against its own hash. */
  ghost predicate VerifiesOwnHash(crypt: Crypt) {
    forall p :: crypt.verify(p, crypt.hash(p))
  }

  /** The claims of an access token; a decoded token may lack any of them. */
  datatype Claims = Claims(sub: Option<string>, id: Option<int>, role: Option<string>, exp: Option<Time>)

  /** What the token codec makes of a bearer token: its claims, or an error
      (bad signature, expired, malformed). */
  datatype Decoded = Payload(claims: Claims) | JwtError

  /** The caller, as the routers see it after the token check. */
  datatype Identity = Identity(username: string, id: int, role: Option<string>)

  /** Login tokens live for twenty minutes. */
  const LoginTokenLifetime: Time := 20 * 60

  /** The fields of the account-creation request. */
  datatype CreateUserRequest = CreateUserRequest(
    email: string,
    username: string,
    firstName: string,
    lastName: string,
    password: string,
    bio: string,
    profilePhoto: Option<string>,
    dateOfBirth: Date,
    phoneNumber: string,
    role: UserRole)

  // ---------------------------------------------------------------------------
  // Lookups and claim checks
  // ---------------------------------------------------------------------------

  /** The user row with this username, if any (usernames are unique). */
  function FindByUsername(users: map<int, User>, username: string): (r: Option<int>)
    requires UniqueLogins(users)
    ensures r.Some? <==> exists id :: id in users && users[id].username == username
    ensures r.Some? ==> r.value in users && users[r.value].username == username
  {
    if exists id :: id in users && users[id].username == username then
      var id :| id in users && users[id].username == username;
      Some(id)
    else
      None
  }

  /** User `id` may log in with these credentials. */
  ghost predicate CanLogIn(users: map<int, User>, crypt: Crypt, username: string, password: string, id: int) {
    && id in users
    && users[id].username == username
    && crypt.verify(password, users[id].password)
    && !users[id].isBlocked
  }

  /** The credential check: unknown username, wrong password and a blocked
      account all fail alike; otherwise the user's id is the answer. */
  function AuthenticateUser(users: map<int, User>, crypt: Crypt, username: string, password: string): (r: Option<int>)
    requires UniqueLogins(users)
    ensures r.Some? <==> exists id :: CanLogIn(users, crypt, username, password, id)
    ensures r.Some? ==> CanLogIn(users, crypt, username, password, r.value)
  {
    match FindByUsername(users, username)
    case None => None
    case Some(id) =>
      if !crypt.verify(password, users[id].password) then None
      else if users[id].isBlocked then None
      else assert CanLogIn(users, crypt, username, password, id); Some(id)
  }

  /** Turns decoded claims into the caller's identity; a decoding error or a
      missing `sub` or `id` claim is Unauthorized. The `role` claim may be
      absent. */
  function GetCurrentUser(token: Decoded): (r: Result<Identity>)
    ensures r.Failure? <==> token.JwtError? || token.claims.sub.None? || token.claims.id.None?
    ensures r.Failure? ==> r.status == Unauthorized
    ensures r.Success? ==> r.value.username == token.claims.sub.value && r.value.id == token.claims.id.value
    ensures r.Success? ==> r.value.role == token.claims.role
  {
    match token
    case JwtError => Failure(Unauthorized)
    case Payload(c) =>
      if c.sub.None? || c.id.None? then Failure(Unauthorized)
      else Success(Identity(c.sub.value, c.id.value, c.role))
  }

  /** The claim set of a new access token, expiring `expiresDelta` after `now`.
      Decoding it back gives exactly the identity it was issued for. */
  function AccessTokenClaims(username: string, userId: int, role: UserRole, now: Time, expiresDelta: Time): (c: Claims)
    ensures c.exp == Some(now + expiresDelta)
    ensures GetCurrentUser(Payload(c)) == Success(Identity(username, userId, Some(RoleValue(role))))
  {
    Claims(Some(username), Some(userId), Some(RoleValue(role)), Some(now + expiresDelta))
  }

  /** The login endpoint: a twenty-minute token for the authenticated user,
      or Unauthorized. */
  function LoginAccessToken(users: map<int, User>, crypt: Crypt, username: string, password: string, now: Time): (r: Result<Claims>)
    requires UniqueLogins(users)
    ensures r.Success? <==> exists id :: CanLogIn(users, crypt, username, password, id)
    ensures r.Failure? ==> r.status == Unauthorized
    ensures r.Success? ==>
              exists id :: (CanLogIn(users, crypt, username, password, id) &&
                            r.value == AccessTokenClaims(users[id].username, id, users[id].role, now, LoginTokenLifetime))
  {
    match AuthenticateUser(users, crypt, username, password)
    case None => Failure(Unauthorized)
    case Some(id) => Success(AccessTokenClaims(users[id].username, id, users[id].role, now, LoginTokenLifetime))
  }

  /** A blocked account cannot obtain a token, whatever password is offered. */
  lemma BlockedUserNeverLogsIn(users: map<int, User>, crypt: Crypt, password: string, now: Time, id: int)
    requires UniqueLogins(users)
    requires id in users && users[id].isBlocked
    ensures LoginAccessToken(users, crypt, users[id].username, password, now).Failure?
  {
  }

  /** With a sound hasher, a user whose stored hash is the hash of `password`
      and who is not blocked logs in with it and gets a token carrying their
      own id and role. */
  lemma {:induction false} StoredHashLogsIn(users: map<int, User>, crypt: Crypt, id: int, password: string, now: Time)
    requires UniqueLogins(users) && VerifiesOwnHash(crypt)
    requires id in users && users[id].password == crypt.hash(password) && !users[id].isBlocked
    ensures AuthenticateUser(users, crypt, users[id].username, password) == Some(id)
    ensures LoginAccessToken(users, crypt, users[id].username, password, now) ==
            Success(AccessTokenClaims(users[id].username, id, users[id].role, now, LoginTokenLifetime))
  {
    assert crypt.verify(password, crypt.hash(password));
    assert CanLogIn(users, crypt, users[id].username, password, id);
    var r := AuthenticateUser(users, crypt, users[id].username, password);
    assert r.Some?;
    assert users[r.value].username == users[id].username;
  }

  // ---------------------------------------------------------------------------
  // Account creation
  // ---------------------------------------------------------------------------

  /** Some user already has this username or this email. */
  predicate LoginTaken(users: map<int, User>, username: string, email: string) {
    exists id :: id in users && (users[id].username == username || users[id].email == email)
  }

  /** The row the creation endpoint inserts: the request's fields, the hash
      of its password, the role it asks for, and the column defaults. */
  function StoredUser(req: CreateUserRequest, crypt: Crypt): (u: User)
    ensures u.password == crypt.hash(req.password)
    ensures u.username == req.username && u.email == req.email && u.role == req.role
    ensures u.followersCount == 0 && u.followingCount == 0 && !u.isBlocked
  {
    NewUser(req.email, req.username, Some(req.firstName), Some(req.lastName), Some(req.bio),
            req.profilePhoto, Some(req.dateOfBirth), Some(req.phoneNumber),
            crypt.hash(req.password), req.role)
  }

  /** Inserting an account with fresh logins and zero counters at the next
      id keeps the users and follows tables consistent. */
  lemma NewAccountKeepsUserTables(users: map<int, User>, follows: set<Follow>, nextId: int, u: User)
    requires nextId >= 1 && UserTablesValid(users, follows, nextId)
    requires !LoginTaken(users, u.username, u.email)
    requires u.followersCount == 0 && u.followingCount == 0
    ensures nextId !in users
    ensures UserTablesValid(users[nextId := u], follows, nextId + 1)
  {
    NoFollowsOfFreshId(follows, nextId);
  }

  /** `POST /auth/create/user`. The request picks the account's role. */
  method CreateUser(db: Db, crypt: Crypt, req: CreateUserRequest) returns (s: Status)
    requires db.Valid()
    modifies db`users, db`nextId
    ensures db.Valid()
    ensures s == Ok || s == BadRequest
    ensures s == BadRequest <==> LoginTaken(old(db.users), req.username, req.email)
    ensures s == BadRequest ==> db.users == old(db.users) && db.nextId == old(db.nextId)
    ensures s == Ok ==> db.nextId == old(db.nextId) + 1 && old(db.nextId) !in old(db.users)
    ensures s == Ok ==> db.users == old(db.users)[old(db.nextId) := StoredUser(req, crypt)]
    ensures s == Ok && VerifiesOwnHash(crypt) ==>
              AuthenticateUser(db.users, crypt, req.username, req.password) == Some(old(db.nextId))
  {
    if LoginTaken(db.users, req.username, req.email) {
      return BadRequest;
    }
    var id := db.nextId;
    var users := db.users[id := StoredUser(req, crypt)];
    NewAccountKeepsUserTables(db.users, db.follows, id, StoredUser(req, crypt));
    if VerifiesOwnHash(crypt) {
      StoredHashLogsIn(users, crypt, id, req.password, 0);
    }
    db.users := users;
    db.nextId := id + 1;
    s := Ok;
  }
}
