/** The `/wishlists` endpoints. The add path checks for an existing entry
    before inserting, so a user has at most one entry per recipe, and the
    edit and remove paths address that entry by (user, recipe). */
module WishlistRoutes {
  import opened Outcomes
  import opened Models
  import opened Database
  import opened Auth

  /** The entry is `userId`'s entry for `recipeId`. */
  predicate EntryFor(w: Wishlist, userId: int, recipeId: int) {
    w.userId == userId && w.recipeId == recipeId
  }

  /** A request's visibility: private unless the request says otherwise. */
  function RequestVisibility(v: Option<Visibility>): (r: Visibility)
    ensures v.None? ==> r == Private
    ensures v.Some? ==> r == v.value
  {
    if v.Some? then v.value else Private
  }

  /** `GET /wishlists/public`: every public entry, whoever owns it. */
  function GetAllPublicWishlist(wishlists: map<int, Wishlist>, caller: Option<Identity>): (r: Result<map<int, Wishlist>>)
    ensures r.Failure? <==> caller.None?
    ensures r.Failure? ==> r.status == Unauthorized
    ensures r.Success? ==> forall id :: id in r.value <==> id in wishlists && wishlists[id].visibility == Public
    ensures r.Success? ==> forall id :: id in r.value ==> r.value[id] == wishlists[id]
  {
    if caller.None? then Failure(Unauthorized)
    else Success(Where(wishlists, (w: Wishlist) => w.visibility == Public))
  }

  /** `GET /wishlists/`: the caller's entries, public and private. */
  function GetUserWishlist(wishlists: map<int, Wishlist>, caller: Option<Identity>): (r: Result<map<int, Wishlist>>)
    ensures r.Failure? <==> caller.None?
    ensures r.Failure? ==> r.status == Unauthorized
    ensures r.Success? ==> forall id :: id in r.value <==> id in wishlists && wishlists[id].userId == caller.value.id
    ensures r.Success? ==> forall id :: id in r.value ==> r.value[id] == wishlists[id]
  {
    if caller.None? then Failure(Unauthorized)
    else Success(Where(wishlists, (w: Wishlist) => w.userId == caller.value.id))
  }

  /** A private entry never shows in the public list, and the caller's own
      list holds their private entries as well. */
  lemma PrivateEntriesStayPrivate(wishlists: map<int, Wishlist>, caller: Identity, id: int)
    requires id in wishlists && wishlists[id].visibility == Private
    ensures id !in GetAllPublicWishlist(wishlists, Some(caller)).value
    ensures wishlists[id].userId == caller.id ==> id in GetUserWishlist(wishlists, Some(caller)).value
  {
  }

  /** `POST /wishlists/`. A caller without a user row makes the insert
      violate its foreign key (ServerError). */
  method AddToWishlist(db: Db, caller: Option<Identity>, recipeId: int, visibility: Option<Visibility>) returns (s: Status)
    requires db.Valid()
    modifies db`wishlists, db`nextId
    ensures db.Valid()
    ensures caller.None? ==> s == Unauthorized
    ensures caller.Some? && recipeId !in db.recipes ==> s == NotFound
    ensures caller.Some? && recipeId in db.recipes ==>
              (s == BadRequest <==> exists id :: id in old(db.wishlists) && EntryFor(old(db.wishlists)[id], caller.value.id, recipeId))
    ensures s == Ok <==>
              && caller.Some? && recipeId in db.recipes && caller.value.id in db.users
              && !exists id :: id in old(db.wishlists) && EntryFor(old(db.wishlists)[id], caller.value.id, recipeId)
    ensures s != Ok ==> db.wishlists == old(db.wishlists) && db.nextId == old(db.nextId)
    ensures s == Ok ==> old(db.nextId) !in old(db.wishlists) && db.nextId == old(db.nextId) + 1
    ensures s == Ok ==>
              db.wishlists == old(db.wishlists)[old(db.nextId) := Wishlist(caller.value.id, recipeId, RequestVisibility(visibility))]
  {
    if caller.None? {
      return Unauthorized;
    }
    if recipeId !in db.recipes {
      return NotFound;
    }
    if exists id :: id in db.wishlists && EntryFor(db.wishlists[id], caller.value.id, recipeId) {
      return BadRequest;
    }
    if caller.value.id !in db.users {
      return ServerError;
    }
    var id := db.nextId;
    db.wishlists := db.wishlists[id := Wishlist(caller.value.id, recipeId, RequestVisibility(visibility))];
    db.nextId := id + 1;
    s := Ok;
  }

  /** `PUT /wishlists/{recipe_id}`: sets the visibility of the caller's
      entry for that recipe, and of nothing else. */
  method UpdateWishlistVisibility(db: Db, caller: Option<Identity>, recipeId: int, visibility: Option<Visibility>)
    returns (s: Status)
    requires db.Valid()
    modifies db`wishlists
    ensures db.Valid()
    ensures caller.None? ==> s == Unauthorized
    ensures caller.Some? ==>
              (s == Ok <==> exists id :: id in old(db.wishlists) && EntryFor(old(db.wishlists)[id], caller.value.id, recipeId))
    ensures caller.Some? && s != Ok ==> s == NotFound
    ensures s != Ok ==> db.wishlists == old(db.wishlists)
    ensures s == Ok ==> db.wishlists.Keys == old(db.wishlists).Keys
    ensures s == Ok ==> forall id :: id in old(db.wishlists) ==>
              db.wishlists[id] == if EntryFor(old(db.wishlists)[id], caller.value.id, recipeId)
                                  then old(db.wishlists)[id].(visibility := RequestVisibility(visibility))
                                  else old(db.wishlists)[id]
  {
    if caller.None? {
      return Unauthorized;
    }
    if !exists id :: id in db.wishlists && EntryFor(db.wishlists[id], caller.value.id, recipeId) {
      return NotFound;
    }
    var id :| id in db.wishlists && EntryFor(db.wishlists[id], caller.value.id, recipeId);
    db.wishlists := db.wishlists[id := db.wishlists[id].(visibility := RequestVisibility(visibility))];
    s := Ok;
  }

  /** `DELETE /wishlists/{recipe_id}`: removes the caller's entry for that
      recipe, and nothing else. */
  method RemoveFromWishlist(db: Db, caller: Option<Identity>, recipeId: int) returns (s: Status)
    requires db.Valid()
    modifies db`wishlists
    ensures db.Valid()
    ensures caller.None? ==> s == Unauthorized
    ensures caller.Some? ==>
              (s == Ok <==> exists id :: id in old(db.wishlists) && EntryFor(old(db.wishlists)[id], caller.value.id, recipeId))
    ensures caller.Some? && s != Ok ==> s == NotFound
    ensures s != Ok ==> db.wishlists == old(db.wishlists)
    ensures s == Ok ==> exists id :: id in old(db.wishlists) && db.wishlists == old(db.wishlists) - {id}
    ensures s == Ok ==> db.wishlists == Where(old(db.wishlists), (w: Wishlist) => !EntryFor(w, caller.value.id, recipeId))
  {
    if caller.None? {
      return Unauthorized;
    }
    if !exists id :: id in db.wishlists && EntryFor(db.wishlists[id], caller.value.id, recipeId) {
      return NotFound;
    }
    var id :| id in db.wishlists && EntryFor(db.wishlists[id], caller.value.id, recipeId);
    ghost var rest := Where(db.wishlists, (w: Wishlist) => !EntryFor(w, caller.value.id, recipeId));
    forall j | j in db.wishlists && j != id
      ensures !EntryFor(db.wishlists[j], caller.value.id, recipeId)
    {
      assert OneWishlistEntryPerRecipe(db.wishlists);
    }
    assert rest.Keys == (db.wishlists - {id}).Keys;
    db.wishlists := db.wishlists - {id};
    s := Ok;
  }
}
