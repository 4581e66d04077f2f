/** The `/ingredients` endpoints. Ingredients form a shared catalog keyed by
    a normal form of their name (`Text.Capitalize`); a recipe lists its
    ingredients through link rows that carry a quantity and a unit. Only a
    recipe's owner may change its links. */
module IngredientRoutes {
  import opened Outcomes
  import opened Models
  import opened Text
  import opened Database
  import opened Auth

  /** One line of a recipe's ingredient list. */
  datatype Line = Line(ingredientName: string, quantity: Quantity, unit: WeightUnit)

  /** The link joins `recipeId` to catalog entry `ingredientId`. */
  predicate Links(l: RecipeIngredient, recipeId: int, ingredientId: int) {
    l.recipeId == recipeId && l.ingredientId == ingredientId
  }

  /** The catalog entry whose stored name is the normal form of `name`. */
  predicate NamedBy(ingredients: map<int, Ingredient>, i: int, name: string) {
    i in ingredients && ingredients[i].ingredientName == Capitalize(name)
  }

  // ---------------------------------------------------------------------------
  // Queries
  // ---------------------------------------------------------------------------

  /** `GET /ingredients/{recipe_id}/ingredients`: the recipe's links joined
      with the catalog, keyed by link id; NotFound when there are none. */
  function GetRecipeIngredients(ingredients: map<int, Ingredient>, links: map<int, RecipeIngredient>, recipeId: int)
    : (r: Result<map<int, Line>>)
    ensures r.Failure? <==> forall l :: l in links && links[l].recipeId == recipeId ==> links[l].ingredientId !in ingredients
    ensures r.Failure? ==> r.status == NotFound
    ensures r.Success? ==> forall l :: l in r.value <==>
              l in links && links[l].recipeId == recipeId && links[l].ingredientId in ingredients
    ensures r.Success? ==> forall l :: l in r.value ==>
              r.value[l] == Line(ingredients[links[l].ingredientId].ingredientName, links[l].quantity, links[l].unit)
  {
    if forall l :: l in links && links[l].recipeId == recipeId ==> links[l].ingredientId !in ingredients then
      Failure(NotFound)
    else
      Success(map l | l in links && links[l].recipeId == recipeId && links[l].ingredientId in ingredients ::
                Line(ingredients[links[l].ingredientId].ingredientName, links[l].quantity, links[l].unit))
  }

  /** `GET /ingredients/search`: catalog entries whose name contains the
      query, ignoring case. */
  function GetIngredientByName(ingredients: map<int, Ingredient>, caller: Option<Identity>, query: string)
    : (r: Result<map<int, Ingredient>>)
    ensures r.Failure? <==> caller.None?
    ensures r.Failure? ==> r.status == Unauthorized
    ensures r.Success? ==> forall i :: i in r.value <==>
              i in ingredients && Contains(Lower(ingredients[i].ingredientName), Lower(query))
    ensures r.Success? ==> forall i :: i in r.value ==> r.value[i] == ingredients[i]
  {
    if caller.None? then Failure(Unauthorized)
    else Success(Where(ingredients, (x: Ingredient) => ContainsIgnoringCase(x.ingredientName, query)))
  }

  /** The catalog lookup compares a stored name with the normal form of the
      request's name. Because stored names are themselves in normal form,
      the comparison gives the same answer whether or not the database
      compares strings ignoring case, and two requests that differ only in
      case find the same entry. */
  lemma LookupIgnoresCase(stored: string, name: string, other: string)
    requires Capitalize(stored) == stored
    ensures stored == Capitalize(name) <==> Lower(stored) == Lower(name)
    ensures Lower(name) == Lower(other) ==> Capitalize(name) == Capitalize(other)
  {
    CapitalizeMatchesIgnoringCase(stored, name);
    CapitalizeMatchesIgnoringCase(name, other);
  }

  // ---------------------------------------------------------------------------
  // Handlers that write
  // ---------------------------------------------------------------------------

  /** Adding the normal form of a name the catalog lacks keeps the catalog
      in normal form and free of duplicates. */
  lemma NewEntryKeepsCatalog(ingredients: map<int, Ingredient>, nextId: int, name: string)
    requires CatalogNormalized(ingredients) && nextId !in ingredients
    requires forall i :: !NamedBy(ingredients, i, name)
    ensures CatalogNormalized(ingredients[nextId := Ingredient(Capitalize(name))])
  {
    CapitalizeIdempotent(name);
    forall i | i in ingredients
      ensures ingredients[i].ingredientName != Capitalize(name)
    {
      assert !NamedBy(ingredients, i, name);
    }
  }

  /** The catalog lookup of `add_recipe_ingredient`, committed on its own:
      the entry named by the normal form of `name`, added first when the
      catalog has none. Afterwards the catalog has exactly one such entry. */
  method FindOrAddIngredient(db: Db, name: string) returns (ingredientId: int)
    requires db.Valid()
    modifies db`ingredients, db`nextId
    ensures db.Valid()
    ensures (exists i :: NamedBy(old(db.ingredients), i, name)) ==>
              NamedBy(old(db.ingredients), ingredientId, name) &&
              db.ingredients == old(db.ingredients) && db.nextId == old(db.nextId)
    ensures (forall i :: !NamedBy(old(db.ingredients), i, name)) ==>
              && ingredientId == old(db.nextId) && ingredientId !in old(db.ingredients)
              && db.ingredients == old(db.ingredients)[ingredientId := Ingredient(Capitalize(name))]
              && db.nextId == old(db.nextId) + 1
    ensures NamedBy(db.ingredients, ingredientId, name)
    ensures forall i :: NamedBy(db.ingredients, i, name) ==> i == ingredientId
  {
    if exists i :: i in db.ingredients && NamedBy(db.ingredients, i, name) {
      ingredientId :| ingredientId in db.ingredients && NamedBy(db.ingredients, ingredientId, name);
    } else {
      ingredientId := db.nextId;
      NewEntryKeepsCatalog(db.ingredients, ingredientId, name);
      db.ingredients := db.ingredients[ingredientId := Ingredient(Capitalize(name))];
      db.nextId := ingredientId + 1;
    }
  }

  /** `POST /ingredients/{recipe_id}/ingredients`: links the caller's recipe
      to the catalog entry for `name` (see `FindOrAddIngredient`) with the
      given quantity and unit. */
  method AddRecipeIngredient(db: Db, caller: Option<Identity>, recipeId: int, name: string, quantity: Quantity, unit: WeightUnit)
    returns (s: Status)
    requires db.Valid()
    modifies db`ingredients, db`recipeIngredients, db`nextId
    ensures db.Valid()
    ensures caller.None? ==> s == Unauthorized
    ensures caller.Some? ==> (s == Ok <==> OwnsRecipe(db.recipes, caller.value.id, recipeId))
    ensures caller.Some? && s != Ok ==> s == NotFound
    ensures s != Ok ==>
              db.ingredients == old(db.ingredients) && db.recipeIngredients == old(db.recipeIngredients) && db.nextId == old(db.nextId)
    ensures s == Ok ==> db.nextId > old(db.nextId)
    ensures s == Ok ==> (exists i :: NamedBy(old(db.ingredients), i, name)) ==> db.ingredients == old(db.ingredients)
    ensures s == Ok ==> (forall i :: !NamedBy(old(db.ingredients), i, name)) ==>
              db.ingredients == old(db.ingredients)[old(db.nextId) := Ingredient(Capitalize(name))]
    ensures s == Ok ==>
              exists i :: NamedBy(db.ingredients, i, name) &&
                (forall j :: NamedBy(db.ingredients, j, name) ==> j == i) &&
                db.nextId - 1 !in old(db.recipeIngredients) &&
                db.recipeIngredients == old(db.recipeIngredients)[db.nextId - 1 := RecipeIngredient(i, recipeId, quantity, unit)]
  {
    if caller.None? {
      return Unauthorized;
    }
    if !OwnsRecipe(db.recipes, caller.value.id, recipeId) {
      return NotFound;
    }
    var ingredientId := FindOrAddIngredient(db, name);
    InsertLink(db, RecipeIngredient(ingredientId, recipeId, quantity, unit));
    s := Ok;
  }

  /** Inserts a link row under the next id. */
  method InsertLink(db: Db, link: RecipeIngredient)
    requires db.Valid()
    modifies db`recipeIngredients, db`nextId
    ensures db.Valid()
    ensures old(db.nextId) !in old(db.recipeIngredients) && db.nextId == old(db.nextId) + 1
    ensures db.recipeIngredients == old(db.recipeIngredients)[old(db.nextId) := link]
  {
    var linkId := db.nextId;
    db.recipeIngredients := db.recipeIngredients[linkId := link];
    db.nextId := linkId + 1;
  }

  /** `PUT /ingredients/{recipe_id}/ingredients/{ingredient_id}`: sets the
      quantity and unit of a link between the caller's recipe and that
      catalog entry; nothing else changes. */
  method UpdateRecipeIngredient(db: Db, caller: Option<Identity>, recipeId: int, ingredientId: int, quantity: Quantity, unit: WeightUnit)
    returns (s: Status)
    requires db.Valid()
    modifies db`recipeIngredients
    ensures db.Valid()
    ensures caller.None? ==> s == Unauthorized
    ensures caller.Some? ==> (s == Ok <==>
              OwnsRecipe(db.recipes, caller.value.id, recipeId) &&
              exists l :: l in old(db.recipeIngredients) && Links(old(db.recipeIngredients)[l], recipeId, ingredientId))
    ensures caller.Some? && s != Ok ==> s == NotFound
    ensures s != Ok ==> db.recipeIngredients == old(db.recipeIngredients)
    ensures s == Ok ==>
              exists l :: l in old(db.recipeIngredients) && Links(old(db.recipeIngredients)[l], recipeId, ingredientId) &&
                db.recipeIngredients == old(db.recipeIngredients)[l := old(db.recipeIngredients)[l].(quantity := quantity, unit := unit)]
  {
    if caller.None? {
      return Unauthorized;
    }
    if !OwnsRecipe(db.recipes, caller.value.id, recipeId) {
      return NotFound;
    }
    if !exists l :: l in db.recipeIngredients && Links(db.recipeIngredients[l], recipeId, ingredientId) {
      return NotFound;
    }
    var l :| l in db.recipeIngredients && Links(db.recipeIngredients[l], recipeId, ingredientId);
    db.recipeIngredients := db.recipeIngredients[l := db.recipeIngredients[l].(quantity := quantity, unit := unit)];
    s := Ok;
  }

  /** `DELETE /ingredients/{recipe_id}/ingredients/{ingredient_id}`: removes
      one such link; the catalog keeps the ingredient. */
  method DeleteRecipeIngredient(db: Db, caller: Option<Identity>, recipeId: int, ingredientId: int) returns (s: Status)
    requires db.Valid()
    modifies db`recipeIngredients
    ensures db.Valid()
    ensures caller.None? ==> s == Unauthorized
    ensures caller.Some? ==> (s == Ok <==>
              OwnsRecipe(db.recipes, caller.value.id, recipeId) &&
              exists l :: l in old(db.recipeIngredients) && Links(old(db.recipeIngredients)[l], recipeId, ingredientId))
    ensures caller.Some? && s != Ok ==> s == NotFound
    ensures s != Ok ==> db.recipeIngredients == old(db.recipeIngredients)
    ensures s == Ok ==>
              exists l :: l in old(db.recipeIngredients) && Links(old(db.recipeIngredients)[l], recipeId, ingredientId) &&
                db.recipeIngredients == old(db.recipeIngredients) - {l}
  {
    if caller.None? {
      return Unauthorized;
    }
    if !OwnsRecipe(db.recipes, caller.value.id, recipeId) {
      return NotFound;
    }
    if !exists l :: l in db.recipeIngredients && Links(db.recipeIngredients[l], recipeId, ingredientId) {
      return NotFound;
    }
    var l :| l in db.recipeIngredients && Links(db.recipeIngredients[l], recipeId, ingredientId);
    db.recipeIngredients := db.recipeIngredients - {l};
    s := Ok;
  }
}
