/** The `/recipes` endpoints: the read-only queries, which are filters over
    the recipes table, and creating, editing and deleting one's own recipe.
    No query filters out hidden or soft-deleted rows. */
module RecipeRoutes {
  import opened Outcomes
  import opened Models
  import opened Database
  import opened Text
  import opened Auth

  /** The body of a create or update request. */
  datatype RecipeRequest = RecipeRequest(recipeName: string, description: string, recipeType: Tag, peopleCount: int)

  // ---------------------------------------------------------------------------
  // Queries
  // ---------------------------------------------------------------------------

  /** `GET /recipes/`: every row, hidden and soft-deleted ones included. */
  function GetAllRecipes(recipes: map<int, Recipe>): (r: map<int, Recipe>)
    ensures forall id :: id in recipes ==> id in r && r[id] == recipes[id]
    ensures forall id :: id in r ==> id in recipes
  {
    recipes
  }

  /** `GET /recipes/{recipe_id}`: the recipes whose OWNER id equals the path
      parameter, not the recipe with that id. */
  function GetRecipeById(recipes: map<int, Recipe>, recipeId: int): (r: map<int, Recipe>)
    ensures forall id :: id in r <==> id in recipes && recipes[id].userId == recipeId
    ensures forall id :: id in r ==> r[id] == recipes[id]
  {
    Where(recipes, (x: Recipe) => x.userId == recipeId)
  }

  /** `GET /recipes/by-user-id`: the caller's recipes. */
  function GetRecipesByUserId(recipes: map<int, Recipe>, caller: Option<Identity>): (r: Result<map<int, Recipe>>)
    ensures r.Failure? <==> caller.None?
    ensures r.Failure? ==> r.status == Unauthorized
    ensures r.Success? ==> forall id :: id in r.value <==> id in recipes && recipes[id].userId == caller.value.id
    ensures r.Success? ==> forall id :: id in r.value ==> r.value[id] == recipes[id]
  {
    if caller.None? then Failure(Unauthorized)
    else Success(Where(recipes, (x: Recipe) => x.userId == caller.value.id))
  }

  /** `GET /recipes/by-type/{recipetype}`. */
  function GetRecipesByType(recipes: map<int, Recipe>, caller: Option<Identity>, recipeType: Tag): (r: Result<map<int, Recipe>>)
    ensures r.Failure? <==> caller.None?
    ensures r.Failure? ==> r.status == Unauthorized
    ensures r.Success? ==> forall id :: id in r.value <==> id in recipes && recipes[id].recipeType == recipeType
    ensures r.Success? ==> forall id :: id in r.value ==> r.value[id] == recipes[id]
  {
    if caller.None? then Failure(Unauthorized)
    else Success(Where(recipes, (x: Recipe) => x.recipeType == recipeType))
  }

  /** `GET /recipes/by-people-count/{people_count}`. */
  function GetRecipesByPeopleCount(recipes: map<int, Recipe>, caller: Option<Identity>, peopleCount: int): (r: Result<map<int, Recipe>>)
    ensures r.Failure? <==> caller.None?
    ensures r.Failure? ==> r.status == Unauthorized
    ensures r.Success? ==> forall id :: id in r.value <==> id in recipes && recipes[id].peopleCount == peopleCount
    ensures r.Success? ==> forall id :: id in r.value ==> r.value[id] == recipes[id]
  {
    if caller.None? then Failure(Unauthorized)
    else Success(Where(recipes, (x: Recipe) => x.peopleCount == peopleCount))
  }

  /** `GET /recipes/search/?query=`: the recipes whose name or description
      contains the query. */
  function SearchRecipes(recipes: map<int, Recipe>, query: string): (r: map<int, Recipe>)
    ensures forall id :: id in r <==>
              id in recipes && (Contains(recipes[id].recipeName, query) || Contains(recipes[id].description, query))
    ensures forall id :: id in r ==> r[id] == recipes[id]
  {
    Where(recipes, (x: Recipe) => Contains(x.recipeName, query) || Contains(x.description, query))
  }

  /** The lookup by id answers with the owner's recipes: it is the by-user
      query for a caller whose id is the path parameter, and a recipe owned
      by anybody else is not found under its own id. */
  lemma GetRecipeByIdFiltersOnOwner(recipes: map<int, Recipe>, recipeId: int, username: string)
    ensures GetRecipeById(recipes, recipeId) ==
            GetRecipesByUserId(recipes, Some(Identity(username, recipeId, None))).value
    ensures recipeId in recipes && recipes[recipeId].userId != recipeId ==>
            recipeId !in GetRecipeById(recipes, recipeId)
  {
  }

  /** A recipe is found exactly when the query occurs at some position of
      its name or of its description. */
  lemma SearchFindsOccurrences(recipes: map<int, Recipe>, query: string, id: int)
    requires id in recipes
    ensures id in SearchRecipes(recipes, query) <==>
              (exists i :: MatchAt(recipes[id].recipeName, query, i)) ||
              (exists i :: MatchAt(recipes[id].description, query, i))
  {
    ContainsIff(recipes[id].recipeName, query);
    ContainsIff(recipes[id].description, query);
  }

  /** The empty query matches every recipe. */
  lemma EmptySearchFindsAll(recipes: map<int, Recipe>)
    ensures SearchRecipes(recipes, []) == recipes
  {
    forall id | id in recipes
      ensures Contains(recipes[id].recipeName, [])
    {
      assert MatchAt(recipes[id].recipeName, [], 0);
      ContainsIff(recipes[id].recipeName, []);
    }
  }

  // ---------------------------------------------------------------------------
  // Handlers that write
  // ---------------------------------------------------------------------------

  /** The row after an update request: the four requested fields are
      overwritten, owner, counters and flags are kept. */
  function WithRequest(x: Recipe, req: RecipeRequest): (r: Recipe)
    ensures r.recipeName == req.recipeName && r.description == req.description
    ensures r.recipeType == req.recipeType && r.peopleCount == req.peopleCount
    ensures r.userId == x.userId && r.likesCount == x.likesCount && r.forkedCount == x.forkedCount
    ensures r.isDeleted == x.isDeleted && r.isHide == x.isHide && r.deletedAt == x.deletedAt
  {
    x.(recipeName := req.recipeName, description := req.description,
       recipeType := req.recipeType, peopleCount := req.peopleCount)
  }

  /** `POST /recipes/recipe/`. A caller without a user row makes the insert
      violate its foreign key (ServerError). */
  method CreateRecipe(db: Db, caller: Option<Identity>, req: RecipeRequest) returns (s: Status)
    requires db.Valid()
    modifies db`recipes, db`nextId
    ensures db.Valid()
    ensures caller.None? ==> s == Unauthorized
    ensures caller.Some? ==> (s == Ok <==> caller.value.id in db.users)
    ensures caller.Some? && s != Ok ==> s == ServerError
    ensures s != Ok ==> db.recipes == old(db.recipes) && db.nextId == old(db.nextId)
    ensures s == Ok ==> old(db.nextId) !in old(db.recipes) && db.nextId == old(db.nextId) + 1
    ensures s == Ok ==> db.recipes == old(db.recipes)[old(db.nextId) :=
              NewRecipe(caller.value.id, req.recipeName, req.description, req.recipeType, Some(req.peopleCount))]
  {
    if caller.None? {
      return Unauthorized;
    }
    if caller.value.id !in db.users {
      return ServerError;
    }
    var id := db.nextId;
    NoLikesOfFreshId(db.likes, id);
    NoForksOfFreshId(db.forkedRecipes, id);
    db.recipes := db.recipes[id := NewRecipe(caller.value.id, req.recipeName, req.description, req.recipeType, Some(req.peopleCount))];
    db.nextId := id + 1;
    s := Ok;
  }

  /** `PUT /recipes/{recipe_id}`: only the owner may edit. */
  method UpdateRecipe(db: Db, caller: Option<Identity>, recipeId: int, req: RecipeRequest) returns (s: Status)
    requires db.Valid()
    modifies db`recipes
    ensures db.Valid()
    ensures caller.None? ==> s == Unauthorized
    ensures caller.Some? ==> (s == Ok <==> OwnsRecipe(old(db.recipes), caller.value.id, recipeId))
    ensures caller.Some? && s != Ok ==> s == NotFound
    ensures s != Ok ==> db.recipes == old(db.recipes)
    ensures s == Ok ==> db.recipes == old(db.recipes)[recipeId := WithRequest(old(db.recipes)[recipeId], req)]
  {
    if caller.None? {
      return Unauthorized;
    }
    if !OwnsRecipe(db.recipes, caller.value.id, recipeId) {
      return NotFound;
    }
    db.recipes := db.recipes[recipeId := WithRequest(db.recipes[recipeId], req)];
    s := Ok;
  }

  /** `DELETE /recipes/{recipe_id}`: only the owner may delete, and the row
      is removed for good. */
  method DeleteRecipe(db: Db, caller: Option<Identity>, recipeId: int) returns (s: Status)
    requires db.Valid()
    modifies db`recipes
    ensures db.Valid()
    ensures caller.None? ==> s == Unauthorized
    ensures caller.Some? ==> (s == Ok <==> OwnsRecipe(old(db.recipes), caller.value.id, recipeId))
    ensures caller.Some? && s != Ok ==> s == NotFound
    ensures s != Ok ==> db.recipes == old(db.recipes)
    ensures s == Ok ==> db.recipes == old(db.recipes) - {recipeId}
  {
    if caller.None? {
      return Unauthorized;
    }
    if !OwnsRecipe(db.recipes, caller.value.id, recipeId) {
      return NotFound;
    }
    db.recipes := db.recipes - {recipeId};
    s := Ok;
  }
}
