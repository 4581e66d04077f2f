/** The `/user` endpoints: reading one's own row, following and unfollowing,
    changing the password and overwriting the profile.

    Following is specified twice over: `FollowStep` and `UnfollowStep` say
    what one request does to the users and follow tables, taken as a value
    (`Graph`), and the handler methods are proved to perform exactly that
    step on the store. The counter invariant is proved about the steps, for
    one request and for any sequence of them. */
module UserRoutes {
  import opened Outcomes
  import opened Models
  import opened Database
  import opened Auth

  /** The two tables the follow endpoints read and write. */
  datatype Graph = Graph(users: map<int, User>, follows: set<Follow>)

  /** Every counter agrees with the follow rows, and nobody follows themself. */
  ghost predicate CountersConsistent(g: Graph) {
    FollowCountersMatch(g.users, g.follows) && NoSelfFollow(g.follows)
  }

  /** `u` with `followers` added to its followers counter and `following` to
      its following counter. */
  function Shifted(u: User, followers: int, following: int): User {
    u.(followersCount := u.followersCount + followers, followingCount := u.followingCount + following)
  }

  /** `UPDATE users SET <counter> = <counter> + delta WHERE id = id`: a row
      that does not exist is not touched. */
  function ShiftRow(users: map<int, User>, id: int, followers: int, following: int): map<int, User> {
    if id in users then users[id := Shifted(users[id], followers, following)] else users
  }

  // ---------------------------------------------------------------------------
  // Follow and unfollow, as steps on the two tables
  // ---------------------------------------------------------------------------

  /** `POST /user/follow/{followee_id}`. Following oneself or a user already
      followed is a BadRequest; a follower or followee without a user row
      makes the insert violate its foreign keys, so the commit fails and
      nothing changes. Otherwise the pair is added and the two counters
      move by one. */
  function FollowStep(g: Graph, caller: Option<Identity>, followeeId: int): (r: (Status, Graph))
    ensures r.0 == Unauthorized <==> caller.None?
    ensures r.0 == BadRequest <==>
              caller.Some? && (caller.value.id == followeeId || Follow(caller.value.id, followeeId) in g.follows)
    ensures r.0 == Ok <==>
              && caller.Some? && caller.value.id != followeeId
              && Follow(caller.value.id, followeeId) !in g.follows
              && caller.value.id in g.users && followeeId in g.users
    ensures r.0 in {Ok, Unauthorized, BadRequest, ServerError}
    ensures r.0 != Ok ==> r.1 == g
    ensures r.0 == Ok ==> r.1.follows == g.follows + {Follow(caller.value.id, followeeId)}
    ensures r.0 == Ok ==> r.1.users.Keys == g.users.Keys
    ensures r.0 == Ok ==> forall u :: u in g.users ==>
              r.1.users[u] == Shifted(g.users[u], if u == followeeId then 1 else 0,
                                                  if u == caller.value.id then 1 else 0)
  {
    if caller.None? then (Unauthorized, g)
    else
      var followerId := caller.value.id;
      if followerId == followeeId then (BadRequest, g)
      else if Follow(followerId, followeeId) in g.follows then (BadRequest, g)
      else if followerId !in g.users || followeeId !in g.users then (ServerError, g)
      else
        var users := ShiftRow(g.users, followerId, 0, 1);
        (Ok, Graph(ShiftRow(users, followeeId, 1, 0), g.follows + {Follow(followerId, followeeId)}))
  }

  /** `POST /user/unfollow/{followee_id}`. Unfollowing a user not followed is
      a BadRequest; otherwise the pair is deleted and the two counters move
      back by one (a counter whose row is gone is not touched). */
  function UnfollowStep(g: Graph, caller: Option<Identity>, followeeId: int): (r: (Status, Graph))
    ensures r.0 == Unauthorized <==> caller.None?
    ensures r.0 == BadRequest <==> caller.Some? && Follow(caller.value.id, followeeId) !in g.follows
    ensures r.0 == Ok <==> caller.Some? && Follow(caller.value.id, followeeId) in g.follows
    ensures r.0 != Ok ==> r.1 == g
    ensures r.0 == Ok ==> r.1.follows == g.follows - {Follow(caller.value.id, followeeId)}
    ensures r.0 == Ok ==> r.1.users.Keys == g.users.Keys
    ensures r.0 == Ok ==> forall u :: u in g.users ==>
              r.1.users[u] == Shifted(g.users[u], if u == followeeId then -1 else 0,
                                                  if u == caller.value.id then -1 else 0)
  {
    if caller.None? then (Unauthorized, g)
    else
      var followerId := caller.value.id;
      if Follow(followerId, followeeId) !in g.follows then (BadRequest, g)
      else
        var users := ShiftRow(g.users, followerId, 0, -1);
        (Ok, Graph(ShiftRow(users, followeeId, -1, 0), g.follows - {Follow(followerId, followeeId)}))
  }

  /** A follow request keeps every counter equal to the number of follow
      rows on its side. */
  lemma FollowKeepsCounters(g: Graph, caller: Option<Identity>, followeeId: int)
    requires CountersConsistent(g)
    ensures CountersConsistent(FollowStep(g, caller, followeeId).1)
  {
    var r := FollowStep(g, caller, followeeId);
    if r.0 == Ok {
      var f := Follow(caller.value.id, followeeId);
      forall u | u in r.1.users
        ensures r.1.users[u].followersCount == |FollowersOf(r.1.follows, u)|
        ensures r.1.users[u].followingCount == |FollowingOf(r.1.follows, u)|
      {
        FollowCountsAfterInsert(g.follows, f, u);
      }
    }
  }

  /** An unfollow request keeps every counter equal to the number of follow
      rows on its side. */
  lemma UnfollowKeepsCounters(g: Graph, caller: Option<Identity>, followeeId: int)
    requires CountersConsistent(g)
    ensures CountersConsistent(UnfollowStep(g, caller, followeeId).1)
  {
    var r := UnfollowStep(g, caller, followeeId);
    if r.0 == Ok {
      var f := Follow(caller.value.id, followeeId);
      forall u | u in r.1.users
        ensures r.1.users[u].followersCount == |FollowersOf(r.1.follows, u)|
        ensures r.1.users[u].followingCount == |FollowingOf(r.1.follows, u)|
      {
        FollowCountsAfterDelete(g.follows, f, u);
      }
    }
  }

  /** Both steps keep the rest of the users-table rules: logins stay unique
      (only counters move) and every follow row names a handed-out id. */
  lemma StepsKeepUserTables(users: map<int, User>, follows: set<Follow>, nextId: int,
                            caller: Option<Identity>, followeeId: int)
    requires UserTablesValid(users, follows, nextId)
    ensures var g := FollowStep(Graph(users, follows), caller, followeeId).1;
              UserTablesValid(g.users, g.follows, nextId)
    ensures var g := UnfollowStep(Graph(users, follows), caller, followeeId).1;
              UserTablesValid(g.users, g.follows, nextId)
  {
    FollowKeepsCounters(Graph(users, follows), caller, followeeId);
    UnfollowKeepsCounters(Graph(users, follows), caller, followeeId);
  }

  /** The follow step on a request that passes every check: the rows the
      handler writes. */
  lemma FollowCommits(g: Graph, followerId: int, followeeId: int)
    requires followerId != followeeId && Follow(followerId, followeeId) !in g.follows
    requires followerId in g.users && followeeId in g.users
    ensures forall caller: Option<Identity> | caller.Some? && caller.value.id == followerId ::
              FollowStep(g, caller, followeeId) ==
              (Ok, Graph(ShiftRow(ShiftRow(g.users, followerId, 0, 1), followeeId, 1, 0),
                         g.follows + {Follow(followerId, followeeId)}))
  {
  }

  /** The unfollow step on a pair that exists: the rows the handler writes. */
  lemma UnfollowCommits(g: Graph, followerId: int, followeeId: int)
    requires Follow(followerId, followeeId) in g.follows
    ensures forall caller: Option<Identity> | caller.Some? && caller.value.id == followerId ::
              UnfollowStep(g, caller, followeeId) ==
              (Ok, Graph(ShiftRow(ShiftRow(g.users, followerId, 0, -1), followeeId, -1, 0),
                         g.follows - {Follow(followerId, followeeId)}))
  {
  }

  /** A follow that the handler commits keeps the users-table rules. */
  lemma FollowKeepsUserTables(users: map<int, User>, follows: set<Follow>, nextId: int, followerId: int, followeeId: int)
    requires UserTablesValid(users, follows, nextId)
    requires followerId != followeeId && Follow(followerId, followeeId) !in follows
    requires followerId in users && followeeId in users
    ensures UserTablesValid(ShiftRow(ShiftRow(users, followerId, 0, 1), followeeId, 1, 0),
                            follows + {Follow(followerId, followeeId)}, nextId)
  {
    StepsKeepUserTables(users, follows, nextId, Some(Identity(users[followerId].username, followerId, None)), followeeId);
  }

  /** One request to either endpoint. */
  datatype FollowRequest =
    | FollowRequest(caller: Option<Identity>, followeeId: int)
    | UnfollowRequest(caller: Option<Identity>, followeeId: int)

  /** Serves one request. */
  function Serve(g: Graph, request: FollowRequest): (Status, Graph) {
    match request
    case FollowRequest(c, f) => FollowStep(g, c, f)
    case UnfollowRequest(c, f) => UnfollowStep(g, c, f)
  }

  /** The tables after a sequence of requests, served one at a time. */
  function Replay(g: Graph, requests: seq<FollowRequest>): Graph
    decreases |requests|
  {
    if requests == [] then g else Replay(Serve(g, requests[0]).1, requests[1..])
  }

  /** Starting from consistent counters, any sequence of requests keeps them
      consistent, so no counter ever goes negative. */
  lemma {:induction false} ReplayKeepsCounters(g: Graph, requests: seq<FollowRequest>)
    requires CountersConsistent(g)
    ensures CountersConsistent(Replay(g, requests))
    ensures forall u :: u in Replay(g, requests).users ==>
              Replay(g, requests).users[u].followersCount >= 0 &&
              Replay(g, requests).users[u].followingCount >= 0
    decreases |requests|
  {
    if requests != [] {
      match requests[0] {
        case FollowRequest(c, f) => FollowKeepsCounters(g, c, f);
        case UnfollowRequest(c, f) => UnfollowKeepsCounters(g, c, f);
      }
      ReplayKeepsCounters(Serve(g, requests[0]).1, requests[1..]);
    }
  }

  // ---------------------------------------------------------------------------
  // Handlers
  // ---------------------------------------------------------------------------

  /** `GET /user/`: the caller's own row, or nothing when it is gone. */
  function GetUser(users: map<int, User>, caller: Option<Identity>): (r: Result<Option<User>>)
    ensures r.Failure? <==> caller.None?
    ensures r.Failure? ==> r.status == Unauthorized
    ensures r.Success? ==> (r.value.Some? <==> caller.value.id in users)
    ensures r.Success? && r.value.Some? ==> r.value.value == users[caller.value.id]
  {
    if caller.None? then Failure(Unauthorized)
    else if caller.value.id in users then Success(Some(users[caller.value.id]))
    else Success(None)
  }

  method FollowUser(db: Db, caller: Option<Identity>, followeeId: int) returns (s: Status)
    requires db.Valid()
    modifies db`users, db`follows
    ensures db.Valid()
    ensures (s, Graph(db.users, db.follows)) == FollowStep(old(Graph(db.users, db.follows)), caller, followeeId)
  {
    if caller.None? {
      return Unauthorized;
    }
    var followerId := caller.value.id;
    if followerId == followeeId {
      return BadRequest;
    }
    if Follow(followerId, followeeId) in db.follows {
      return BadRequest;
    }
    // The storage engine rejects the commit when either foreign key dangles.
    if followerId !in db.users || followeeId !in db.users {
      return ServerError;
    }
    FollowCommits(Graph(db.users, db.follows), followerId, followeeId);
    CommitFollow(db, followerId, followeeId);
    s := Ok;
  }

  /** The writes of a follow that passed every check: both counters move
      and the pair is inserted, in one commit. */
  method CommitFollow(db: Db, followerId: int, followeeId: int)
    requires db.Valid()
    requires followerId != followeeId && Follow(followerId, followeeId) !in db.follows
    requires followerId in db.users && followeeId in db.users
    modifies db`users, db`follows
    ensures db.Valid()
    ensures db.users == ShiftRow(ShiftRow(old(db.users), followerId, 0, 1), followeeId, 1, 0)
    ensures db.follows == old(db.follows) + {Follow(followerId, followeeId)}
  {
    FollowKeepsUserTables(db.users, db.follows, db.nextId, followerId, followeeId);
    var users := ShiftRow(db.users, followerId, 0, 1);
    db.users := ShiftRow(users, followeeId, 1, 0);
    db.follows := db.follows + {Follow(followerId, followeeId)};
  }

  method UnfollowUser(db: Db, caller: Option<Identity>, followeeId: int) returns (s: Status)
    requires db.Valid()
    modifies db`users, db`follows
    ensures db.Valid()
    ensures (s, Graph(db.users, db.follows)) == UnfollowStep(old(Graph(db.users, db.follows)), caller, followeeId)
  {
    if caller.None? {
      return Unauthorized;
    }
    var followerId := caller.value.id;
    if Follow(followerId, followeeId) !in db.follows {
      return BadRequest;
    }
    UnfollowCommits(Graph(db.users, db.follows), followerId, followeeId);
    CommitUnfollow(db, followerId, followeeId);
    s := Ok;
  }

  /** The writes of an unfollow of an existing pair: both counters move
      back and the pair is deleted, in one commit. */
  method CommitUnfollow(db: Db, followerId: int, followeeId: int)
    requires db.Valid()
    requires Follow(followerId, followeeId) in db.follows
    modifies db`users, db`follows
    ensures db.Valid()
    ensures db.users == ShiftRow(ShiftRow(old(db.users), followerId, 0, -1), followeeId, -1, 0)
    ensures db.follows == old(db.follows) - {Follow(followerId, followeeId)}
  {
    StepsKeepUserTables(db.users, db.follows, db.nextId, Some(Identity([], followerId, None)), followeeId);
    var users := ShiftRow(db.users, followerId, 0, -1);
    db.users := ShiftRow(users, followeeId, -1, 0);
    db.follows := db.follows - {Follow(followerId, followeeId)};
  }

  /** `PUT /user/password`. A caller whose row is gone makes the handler
      dereference nothing (ServerError). */
  method ChangePassword(db: Db, crypt: Crypt, caller: Option<Identity>, password: string, newPassword: string)
    returns (s: Status)
    requires db.Valid()
    modifies db`users
    ensures db.Valid()
    ensures caller.None? ==> s == Unauthorized
    ensures caller.Some? && caller.value.id !in old(db.users) ==> s == ServerError
    ensures caller.Some? && caller.value.id in old(db.users) ==>
              (s == Ok <==> crypt.verify(password, old(db.users)[caller.value.id].password))
    ensures caller.Some? && caller.value.id in old(db.users) && s != Ok ==> s == Unauthorized
    ensures s != Ok ==> db.users == old(db.users)
    ensures s == Ok ==>
              db.users == old(db.users)[caller.value.id := old(db.users)[caller.value.id].(password := crypt.hash(newPassword))]
    ensures s == Ok && VerifiesOwnHash(crypt) && !db.users[caller.value.id].isBlocked ==>
              AuthenticateUser(db.users, crypt, db.users[caller.value.id].username, newPassword) == Some(caller.value.id)
  {
    if caller.None? {
      return Unauthorized;
    }
    var id := caller.value.id;
    if id !in db.users {
      return ServerError;
    }
    if !crypt.verify(password, db.users[id].password) {
      return Unauthorized;
    }
    db.users := db.users[id := db.users[id].(password := crypt.hash(newPassword))];
    s := Ok;
    if VerifiesOwnHash(crypt) && !db.users[id].isBlocked {
      StoredHashLogsIn(db.users, crypt, id, newPassword, 0);
    }
  }

  /** The body of `PUT /user/profile`: eight optional fields. */
  datatype ProfileUpdate = ProfileUpdate(
    email: Option<string>,
    username: Option<string>,
    firstName: Option<string>,
    lastName: Option<string>,
    bio: Option<string>,
    profilePhoto: Option<string>,
    dateOfBirth: Option<Date>,
    phoneNumber: Option<string>)

  /** The profile of `u` overwritten by `p`, every field, absent ones too;
      the account part of the row is kept. */
  function WithProfile(u: User, p: ProfileUpdate): (r: User)
    requires p.email.Some? && p.username.Some?
    ensures r.password == u.password && r.role == u.role && r.isBlocked == u.isBlocked
    ensures r.followersCount == u.followersCount && r.followingCount == u.followingCount
    ensures r.email == p.email.value && r.username == p.username.value
    ensures r.firstName == p.firstName && r.lastName == p.lastName && r.bio == p.bio
    ensures r.profilePhoto == p.profilePhoto && r.dateOfBirth == p.dateOfBirth && r.phoneNumber == p.phoneNumber
  {
    u.(email := p.email.value, username := p.username.value, firstName := p.firstName,
       lastName := p.lastName, bio := p.bio, profilePhoto := p.profilePhoto,
       dateOfBirth := p.dateOfBirth, phoneNumber := p.phoneNumber)
  }

  /** Writing `p` into row `id` breaks a column constraint: an absent email
      or username hits NOT NULL, and one another user already has hits UNIQUE. */
  predicate ProfileRejected(users: map<int, User>, id: int, p: ProfileUpdate) {
    || p.email.None? || p.username.None?
    || exists other :: other in users && other != id &&
         (users[other].email == p.email.value || users[other].username == p.username.value)
  }

  /** `PUT /user/profile`. */
  method UpdateProfile(db: Db, caller: Option<Identity>, p: ProfileUpdate) returns (s: Status)
    requires db.Valid()
    modifies db`users
    ensures db.Valid()
    ensures caller.None? ==> s == Unauthorized
    ensures caller.Some? ==> (s == Ok <==> caller.value.id in old(db.users) && !ProfileRejected(old(db.users), caller.value.id, p))
    ensures caller.Some? && s != Ok ==> s == ServerError
    ensures s != Ok ==> db.users == old(db.users)
    ensures s == Ok ==> db.users == old(db.users)[caller.value.id := WithProfile(old(db.users)[caller.value.id], p)]
  {
    if caller.None? {
      return Unauthorized;
    }
    var id := caller.value.id;
    if id !in db.users {
      return ServerError;
    }
    if ProfileRejected(db.users, id, p) {
      return ServerError;
    }
    db.users := db.users[id := WithProfile(db.users[id], p)];
    s := Ok;
  }
}
