/** The `/admin` endpoints. Every one of them first checks that the token's
    role claim is "admin" and answers Unauthorized (not Forbidden) when it
    is not, before looking at the store. Hiding, soft-deleting and blocking
    flip a flag on the row; deleting a user or a comment removes the row. */
module AdminRoutes {
  import opened Outcomes
  import opened Models
  import opened Database
  import opened Auth
  import RecipeRoutes

  /** The gate in front of every admin endpoint. */
  predicate IsAdmin(caller: Option<Identity>) {
    caller.Some? && caller.value.role == Some("admin")
  }

  /** A token issued at login passes the gate exactly when the account's
      role is admin; a token without a role claim never does. */
  lemma AdminGateFollowsRole(username: string, id: int, role: UserRole, now: Time, lifetime: Time, claims: Claims)
    requires claims.role.None? && claims.sub.Some? && claims.id.Some?
    ensures IsAdmin(Some(GetCurrentUser(Payload(AccessTokenClaims(username, id, role, now, lifetime))).value)) <==> role == RoleAdmin
    ensures !IsAdmin(Some(GetCurrentUser(Payload(claims)).value))
  {
  }

  // ---------------------------------------------------------------------------
  // Row updates
  // ---------------------------------------------------------------------------

  /** The recipes with `isHide` of `id` set to `hidden`; nothing else
      differs. */
  function SetHidden(recipes: map<int, Recipe>, id: int, hidden: bool): (r: map<int, Recipe>)
    requires id in recipes
    ensures r.Keys == recipes.Keys
    ensures r[id].isHide == hidden && r[id].(isHide := recipes[id].isHide) == recipes[id]
    ensures forall j :: j in recipes && j != id ==> r[j] == recipes[j]
  {
    recipes[id := recipes[id].(isHide := hidden)]
  }

  /** Hiding or showing twice is the same as once, and showing a recipe
      that was hidden from view restores the table. */
  lemma {:induction false} SetHiddenIdempotent(recipes: map<int, Recipe>, id: int, hidden: bool)
    requires id in recipes
    ensures SetHidden(SetHidden(recipes, id, hidden), id, hidden) == SetHidden(recipes, id, hidden)
    ensures SetHidden(SetHidden(recipes, id, true), id, recipes[id].isHide) == recipes
  {
    var once := SetHidden(recipes, id, hidden);
    assert SetHidden(once, id, hidden).Keys == once.Keys;
    var back := SetHidden(SetHidden(recipes, id, true), id, recipes[id].isHide);
    assert back.Keys == recipes.Keys;
  }

  /** The recipes with `id` marked deleted; the row stays, and `deletedAt`
      is not set. */
  function SoftDeleted(recipes: map<int, Recipe>, id: int): (r: map<int, Recipe>)
    requires id in recipes
    ensures r.Keys == recipes.Keys
    ensures r[id].isDeleted && r[id].(isDeleted := recipes[id].isDeleted) == recipes[id]
    ensures r[id].deletedAt == recipes[id].deletedAt
    ensures forall j :: j in recipes && j != id ==> r[j] == recipes[j]
  {
    recipes[id := recipes[id].(isDeleted := true)]
  }

  /** A soft-deleted recipe is still served by the public listing and
      found by the same searches as before. */
  lemma SoftDeletedStillServed(recipes: map<int, Recipe>, id: int, query: string)
    requires id in recipes
    ensures id in RecipeRoutes.GetAllRecipes(SoftDeleted(recipes, id))
    ensures id in RecipeRoutes.SearchRecipes(SoftDeleted(recipes, id), query) <==>
            id in RecipeRoutes.SearchRecipes(recipes, query)
  {
  }

  /** The users with `isBlocked` of `id` set to `blocked`; nothing else
      differs. */
  function SetBlocked(users: map<int, User>, id: int, blocked: bool): (r: map<int, User>)
    requires id in users
    ensures r.Keys == users.Keys
    ensures r[id].isBlocked == blocked && r[id].(isBlocked := users[id].isBlocked) == users[id]
    ensures forall j :: j in users && j != id ==> r[j] == users[j]
  {
    users[id := users[id].(isBlocked := blocked)]
  }

  /** A blocked user cannot obtain a token whatever password they give;
      once unblocked, the password whose hash is stored works again. */
  lemma {:induction false} BlockingLocksOut(users: map<int, User>, crypt: Crypt, id: int, password: string, now: Time)
    requires UniqueLogins(users) && id in users
    ensures UniqueLogins(SetBlocked(users, id, true)) && UniqueLogins(SetBlocked(users, id, false))
    ensures LoginAccessToken(SetBlocked(users, id, true), crypt, users[id].username, password, now).Failure?
    ensures VerifiesOwnHash(crypt) && users[id].password == crypt.hash(password) ==>
              LoginAccessToken(SetBlocked(users, id, false), crypt, users[id].username, password, now).Success?
  {
    var blocked, unblocked := SetBlocked(users, id, true), SetBlocked(users, id, false);
    BlockedUserNeverLogsIn(blocked, crypt, password, now, id);
    if VerifiesOwnHash(crypt) && users[id].password == crypt.hash(password) {
      StoredHashLogsIn(unblocked, crypt, id, password, now);
    }
  }

  // ---------------------------------------------------------------------------
  // Queries
  // ---------------------------------------------------------------------------

  /** `GET /admin/recipes`: every row, hidden and soft-deleted included. */
  function GetAllRecipes(recipes: map<int, Recipe>, caller: Option<Identity>): (r: Result<map<int, Recipe>>)
    ensures r.Failure? <==> !IsAdmin(caller)
    ensures r.Failure? ==> r.status == Unauthorized
    ensures r.Success? ==> r.value == recipes
  {
    if !IsAdmin(caller) then Failure(Unauthorized) else Success(recipes)
  }

  /** `GET /admin/users`: every user row. */
  function GetAllUsers(users: map<int, User>, caller: Option<Identity>): (r: Result<map<int, User>>)
    ensures r.Failure? <==> !IsAdmin(caller)
    ensures r.Failure? ==> r.status == Unauthorized
    ensures r.Success? ==> r.value == users
  {
    if !IsAdmin(caller) then Failure(Unauthorized) else Success(users)
  }

  // ---------------------------------------------------------------------------
  // Handlers that write
  // ---------------------------------------------------------------------------

  /** `PUT /admin/recipes/{recipe_id}/hide`. */
  method HideRecipe(db: Db, caller: Option<Identity>, recipeId: int) returns (s: Status)
    requires db.Valid()
    modifies db`recipes
    ensures db.Valid()
    ensures !IsAdmin(caller) ==> s == Unauthorized
    ensures IsAdmin(caller) ==> (s == Ok <==> recipeId in old(db.recipes))
    ensures IsAdmin(caller) && s != Ok ==> s == NotFound
    ensures s != Ok ==> db.recipes == old(db.recipes)
    ensures s == Ok ==> db.recipes == SetHidden(old(db.recipes), recipeId, true)
  {
    if !IsAdmin(caller) {
      return Unauthorized;
    }
    if recipeId !in db.recipes {
      return NotFound;
    }
    db.recipes := SetHidden(db.recipes, recipeId, true);
    s := Ok;
  }

  /** `PUT /admin/recipes/{recipe_id}/show`. */
  method ShowRecipe(db: Db, caller: Option<Identity>, recipeId: int) returns (s: Status)
    requires db.Valid()
    modifies db`recipes
    ensures db.Valid()
    ensures !IsAdmin(caller) ==> s == Unauthorized
    ensures IsAdmin(caller) ==> (s == Ok <==> recipeId in old(db.recipes))
    ensures IsAdmin(caller) && s != Ok ==> s == NotFound
    ensures s != Ok ==> db.recipes == old(db.recipes)
    ensures s == Ok ==> db.recipes == SetHidden(old(db.recipes), recipeId, false)
  {
    if !IsAdmin(caller) {
      return Unauthorized;
    }
    if recipeId !in db.recipes {
      return NotFound;
    }
    db.recipes := SetHidden(db.recipes, recipeId, false);
    s := Ok;
  }

  /** `DELETE /admin/recipes/{recipe_id}`: a soft delete. */
  method DeleteRecipe(db: Db, caller: Option<Identity>, recipeId: int) returns (s: Status)
    requires db.Valid()
    modifies db`recipes
    ensures db.Valid()
    ensures !IsAdmin(caller) ==> s == Unauthorized
    ensures IsAdmin(caller) ==> (s == Ok <==> recipeId in old(db.recipes))
    ensures IsAdmin(caller) && s != Ok ==> s == NotFound
    ensures s != Ok ==> db.recipes == old(db.recipes)
    ensures s == Ok ==> db.recipes == SoftDeleted(old(db.recipes), recipeId)
  {
    if !IsAdmin(caller) {
      return Unauthorized;
    }
    if recipeId !in db.recipes {
      return NotFound;
    }
    db.recipes := SoftDeleted(db.recipes, recipeId);
    s := Ok;
  }

  /** `PUT /admin/users/{user_id}/block`. */
  method BlockUser(db: Db, caller: Option<Identity>, userId: int) returns (s: Status)
    requires db.Valid()
    modifies db`users
    ensures db.Valid()
    ensures !IsAdmin(caller) ==> s == Unauthorized
    ensures IsAdmin(caller) ==> (s == Ok <==> userId in old(db.users))
    ensures IsAdmin(caller) && s != Ok ==> s == NotFound
    ensures s != Ok ==> db.users == old(db.users)
    ensures s == Ok ==> db.users == SetBlocked(old(db.users), userId, true)
  {
    if !IsAdmin(caller) {
      return Unauthorized;
    }
    if userId !in db.users {
      return NotFound;
    }
    db.users := SetBlocked(db.users, userId, true);
    s := Ok;
  }

  /** `PUT /admin/users/{user_id}/unblock`. */
  method UnblockUser(db: Db, caller: Option<Identity>, userId: int) returns (s: Status)
    requires db.Valid()
    modifies db`users
    ensures db.Valid()
    ensures !IsAdmin(caller) ==> s == Unauthorized
    ensures IsAdmin(caller) ==> (s == Ok <==> userId in old(db.users))
    ensures IsAdmin(caller) && s != Ok ==> s == NotFound
    ensures s != Ok ==> db.users == old(db.users)
    ensures s == Ok ==> db.users == SetBlocked(old(db.users), userId, false)
  {
    if !IsAdmin(caller) {
      return Unauthorized;
    }
    if userId !in db.users {
      return NotFound;
    }
    db.users := SetBlocked(db.users, userId, false);
    s := Ok;
  }

  /** `DELETE /admin/users/{user_id}`: removes the user row. */
  method DeleteUser(db: Db, caller: Option<Identity>, userId: int) returns (s: Status)
    requires db.Valid()
    modifies db`users
    ensures db.Valid()
    ensures !IsAdmin(caller) ==> s == Unauthorized
    ensures IsAdmin(caller) ==> (s == Ok <==> userId in old(db.users))
    ensures IsAdmin(caller) && s != Ok ==> s == NotFound
    ensures s != Ok ==> db.users == old(db.users)
    ensures s == Ok ==> db.users == old(db.users) - {userId}
  {
    if !IsAdmin(caller) {
      return Unauthorized;
    }
    if userId !in db.users {
      return NotFound;
    }
    db.users := db.users - {userId};
    s := Ok;
  }

  /** `DELETE /admin/comments/{comment_id}`: removes anybody's comment. */
  method DeleteComment(db: Db, caller: Option<Identity>, commentId: int) returns (s: Status)
    requires db.Valid()
    modifies db`comments
    ensures db.Valid()
    ensures !IsAdmin(caller) ==> s == Unauthorized
    ensures IsAdmin(caller) ==> (s == Ok <==> commentId in old(db.comments))
    ensures IsAdmin(caller) && s != Ok ==> s == NotFound
    ensures s != Ok ==> db.comments == old(db.comments)
    ensures s == Ok ==> db.comments == old(db.comments) - {commentId}
  {
    if !IsAdmin(caller) {
      return Unauthorized;
    }
    if commentId !in db.comments {
      return NotFound;
    }
    db.comments := db.comments - {commentId};
    s := Ok;
  }
}
