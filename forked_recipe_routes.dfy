/** The `/forked-recipe` endpoints: a fork is the caller's private copy of a
    recipe. Making one bumps the source's `forkedCount`; deleting one does
    not take it back, so the counter counts forks ever made and bounds the
    live ones from above. */
module ForkedRecipeRoutes {
  import opened Outcomes
  import opened Models
  import opened Database
  import opened Auth

  /** The body of an update request; the diet tag is required, the rest may
      be left out. */
  datatype ForkUpdate = ForkUpdate(
    recipeName: Option<string>,
    description: Option<string>,
    recipeType: Tag,
    peopleCount: Option<int>)

  /** The fork row exists and belongs to `userId`. */
  predicate OwnsFork(forks: map<int, ForkedRecipe>, userId: int, forkedId: int) {
    forkedId in forks && forks[forkedId].userId == userId
  }

  /** `GET /forked-recipe/`: the caller's forks. */
  function GetAllForkedRecipes(forks: map<int, ForkedRecipe>, caller: Option<Identity>): (r: Result<map<int, ForkedRecipe>>)
    ensures r.Failure? <==> caller.None?
    ensures r.Failure? ==> r.status == Unauthorized
    ensures r.Success? ==> forall id :: id in r.value <==> OwnsFork(forks, caller.value.id, id)
    ensures r.Success? ==> forall id :: id in r.value ==> id in forks && r.value[id] == forks[id]
  {
    if caller.None? then Failure(Unauthorized)
    else Success(Where(forks, (f: ForkedRecipe) => f.userId == caller.value.id))
  }

  /** `GET /forked-recipe/{forked_id}`: another user's fork is not found. */
  function GetForkedRecipeById(forks: map<int, ForkedRecipe>, caller: Option<Identity>, forkedId: int): (r: Result<ForkedRecipe>)
    ensures caller.None? ==> r == Failure(Unauthorized)
    ensures caller.Some? ==> (r.Success? <==> OwnsFork(forks, caller.value.id, forkedId))
    ensures caller.Some? && r.Failure? ==> r.status == NotFound
    ensures r.Success? ==> r.value == forks[forkedId]
  {
    if caller.None? then Failure(Unauthorized)
    else if OwnsFork(forks, caller.value.id, forkedId) then Success(forks[forkedId])
    else Failure(NotFound)
  }

  /** The fork of `source` that `userId` gets: a copy of its name,
      description, diet tag and serving count, pointing back at it. */
  function ForkOf(source: Recipe, userId: int, recipeId: int): (f: ForkedRecipe)
    ensures f.userId == userId && f.recipeId == recipeId
    ensures f.recipeName == source.recipeName && f.description == source.description
    ensures f.recipeType == source.recipeType && f.peopleCount == source.peopleCount
  {
    ForkedRecipe(userId, recipeId, source.recipeName, source.description, source.recipeType, source.peopleCount)
  }

  /** A fork after an update request: the fields given are overwritten, the
      rest kept, and the fork stays with its owner and its source. */
  function WithForkUpdate(f: ForkedRecipe, u: ForkUpdate): (r: ForkedRecipe)
    ensures r.userId == f.userId && r.recipeId == f.recipeId
    ensures r.recipeName == (if u.recipeName.Some? then u.recipeName.value else f.recipeName)
    ensures r.description == (if u.description.Some? then u.description.value else f.description)
    ensures r.recipeType == u.recipeType
    ensures r.peopleCount == (if u.peopleCount.Some? then u.peopleCount.value else f.peopleCount)
  {
    var f1 := if u.recipeName.Some? then f.(recipeName := u.recipeName.value) else f;
    var f2 := if u.description.Some? then f1.(description := u.description.value) else f1;
    var f3 := f2.(recipeType := u.recipeType);
    if u.peopleCount.Some? then f3.(peopleCount := u.peopleCount.value) else f3
  }

  /** `POST /forked-recipe/fork-recipe/{recipe_id}`. A caller without a
      user row makes the insert violate its foreign key (ServerError). */
  method AddForkedRecipe(db: Db, caller: Option<Identity>, recipeId: int) returns (s: Status)
    requires db.Valid()
    modifies db`forkedRecipes, db`recipes, db`nextId
    ensures db.Valid()
    ensures caller.None? ==> s == Unauthorized
    ensures caller.Some? && recipeId !in old(db.recipes) ==> s == NotFound
    ensures caller.Some? && recipeId in old(db.recipes) ==> (s == Ok <==> caller.value.id in db.users)
    ensures caller.Some? && recipeId in old(db.recipes) && s != Ok ==> s == ServerError
    ensures s != Ok ==> db.forkedRecipes == old(db.forkedRecipes) && db.recipes == old(db.recipes) && db.nextId == old(db.nextId)
    ensures s == Ok ==> old(db.nextId) !in old(db.forkedRecipes) && db.nextId == old(db.nextId) + 1
    ensures s == Ok ==>
              db.forkedRecipes == old(db.forkedRecipes)[old(db.nextId) := ForkOf(old(db.recipes)[recipeId], caller.value.id, recipeId)]
    ensures s == Ok ==>
              db.recipes == old(db.recipes)[recipeId := old(db.recipes)[recipeId].(forkedCount := old(db.recipes)[recipeId].forkedCount + 1)]
  {
    if caller.None? {
      return Unauthorized;
    }
    if recipeId !in db.recipes {
      return NotFound;
    }
    if caller.value.id !in db.users {
      return ServerError;
    }
    var id := db.nextId;
    var source := db.recipes[recipeId];
    forall r | r in db.recipes
      ensures |ForksOf(db.forkedRecipes[id := ForkOf(source, caller.value.id, recipeId)], r)| ==
              |ForksOf(db.forkedRecipes, r)| + (if r == recipeId then 1 else 0)
    {
      ForkCountsAfterInsert(db.forkedRecipes, id, ForkOf(source, caller.value.id, recipeId), r);
    }
    db.forkedRecipes := db.forkedRecipes[id := ForkOf(source, caller.value.id, recipeId)];
    db.recipes := db.recipes[recipeId := source.(forkedCount := source.forkedCount + 1)];
    db.nextId := id + 1;
    s := Ok;
  }

  /** `PUT /forked-recipe/{forked_id}`: only the owner may edit. */
  method UpdateForkedRecipe(db: Db, caller: Option<Identity>, forkedId: int, u: ForkUpdate) returns (s: Status)
    requires db.Valid()
    modifies db`forkedRecipes
    ensures db.Valid()
    ensures caller.None? ==> s == Unauthorized
    ensures caller.Some? ==> (s == Ok <==> OwnsFork(old(db.forkedRecipes), caller.value.id, forkedId))
    ensures caller.Some? && s != Ok ==> s == NotFound
    ensures s != Ok ==> db.forkedRecipes == old(db.forkedRecipes)
    ensures s == Ok ==>
              db.forkedRecipes == old(db.forkedRecipes)[forkedId := WithForkUpdate(old(db.forkedRecipes)[forkedId], u)]
  {
    if caller.None? {
      return Unauthorized;
    }
    if !OwnsFork(db.forkedRecipes, caller.value.id, forkedId) {
      return NotFound;
    }
    var updated := WithForkUpdate(db.forkedRecipes[forkedId], u);
    forall r ensures ForksOf(db.forkedRecipes[forkedId := updated], r) == ForksOf(db.forkedRecipes, r) {
      ForkCountsAfterEdit(db.forkedRecipes, forkedId, updated, r);
    }
    db.forkedRecipes := db.forkedRecipes[forkedId := updated];
    s := Ok;
  }

  /** `DELETE /forked-recipe/{forked_id}`: only the owner may delete; the
      source's `forkedCount` is left as it is. */
  method DeleteForkedRecipe(db: Db, caller: Option<Identity>, forkedId: int) returns (s: Status)
    requires db.Valid()
    modifies db`forkedRecipes
    ensures db.Valid()
    ensures caller.None? ==> s == Unauthorized
    ensures caller.Some? ==> (s == Ok <==> OwnsFork(old(db.forkedRecipes), caller.value.id, forkedId))
    ensures caller.Some? && s != Ok ==> s == NotFound
    ensures s != Ok ==> db.forkedRecipes == old(db.forkedRecipes)
    ensures s == Ok ==> db.forkedRecipes == old(db.forkedRecipes) - {forkedId}
  {
    if caller.None? {
      return Unauthorized;
    }
    if !OwnsFork(db.forkedRecipes, caller.value.id, forkedId) {
      return NotFound;
    }
    forall r ensures |ForksOf(db.forkedRecipes - {forkedId}, r)| <= |ForksOf(db.forkedRecipes, r)| {
      ForkCountsAfterDelete(db.forkedRecipes, forkedId, r);
    }
    db.forkedRecipes := db.forkedRecipes - {forkedId};
    s := Ok;
  }
}
