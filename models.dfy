/** The record shapes, enumerations and column defaults of the schema.
    A row's primary key is not a field of its record: every table of the
    store maps the key to the record (see module Database). */
module Models {
  import opened Outcomes

  /** A reading of the server's clock, in seconds. */
  type Time = int
  /** A calendar date, as a day number. */
  type Date = int
  /** What the password hasher stores in the `password` column. */
  type Hash = string
  /** A DECIMAL(10, 2) quantity, in hundredths. */
  type Quantity = int

  // ---------------------------------------------------------------------------
  // Enumerations
  // ---------------------------------------------------------------------------

  datatype UserRole = RoleAdmin | RoleUser

  /** The value of a role, as written into a token's `role` claim. */
  function RoleValue(r: UserRole): string {
    match r
    case RoleAdmin => "admin"
    case RoleUser => "user"
  }

  function ParseRole(s: string): (r: Option<UserRole>)
    ensures r.Some? <==> s == "admin" || s == "user"
    ensures r.Some? ==> RoleValue(r.value) == s
  {
    if s == "admin" then Some(RoleAdmin)
    else if s == "user" then Some(RoleUser)
    else None
  }

  lemma RoleRoundTrip(r: UserRole)
    ensures ParseRole(RoleValue(r)) == Some(r)
  {
  }

  /** The diet tag of a recipe. The schema and the routers spell the second
      value differently: "non-veg" in the schema, "nonveg" in request bodies. */
  datatype Tag = Veg | NonVeg

  /** The value the schema's `tag` enumeration gives each member. */
  function TagValue(t: Tag): string {
    match t
    case Veg => "veg"
    case NonVeg => "non-veg"
  }

  /** The value a request body uses for each member. */
  function RequestTagValue(t: Tag): string {
    match t
    case Veg => "veg"
    case NonVeg => "nonveg"
  }

  /** Request-body validation of a diet tag. */
  function ParseRequestTag(s: string): (t: Option<Tag>)
    ensures t.Some? <==> s == "veg" || s == "nonveg"
    ensures t.Some? ==> RequestTagValue(t.value) == s
  {
    if s == "veg" then Some(Veg)
    else if s == "nonveg" then Some(NonVeg)
    else None
  }

  lemma RequestTagRoundTrip(t: Tag)
    ensures ParseRequestTag(RequestTagValue(t)) == Some(t)
  {
  }

  /** The schema's spelling of the non-vegetarian tag is not a valid request value. */
  lemma TagSpellingsDisagree()
    ensures TagValue(NonVeg) != RequestTagValue(NonVeg)
    ensures ParseRequestTag(TagValue(NonVeg)) == None
  {
  }

  datatype WeightUnit = Gram | Kilogram | Liter | Mililiter | Teaspoon | Tablespoon | Cup | Piece

  function UnitValue(u: WeightUnit): string {
    match u
    case Gram => "gram"
    case Kilogram => "kilogram"
    case Liter => "liter"
    case Mililiter => "mililiter"
    case Teaspoon => "teaspoon"
    case Tablespoon => "tablespoon"
    case Cup => "cup"
    case Piece => "piece"
  }

  /** Request-body validation of a unit. */
  function ParseUnit(s: string): (u: Option<WeightUnit>)
    ensures u.Some? ==> UnitValue(u.value) == s
    ensures u.None? ==> forall v :: UnitValue(v) != s
  {
    if s == "gram" then Some(Gram)
    else if s == "kilogram" then Some(Kilogram)
    else if s == "liter" then Some(Liter)
    else if s == "mililiter" then Some(Mililiter)
    else if s == "teaspoon" then Some(Teaspoon)
    else if s == "tablespoon" then Some(Tablespoon)
    else if s == "cup" then Some(Cup)
    else if s == "piece" then Some(Piece)
    else None
  }

  const AllUnits: seq<WeightUnit> :=
    [Gram, Kilogram, Liter, Mililiter, Teaspoon, Tablespoon, Cup, Piece]

  /** The unit column takes exactly eight values, each with its own spelling. */
  lemma ExactlyEightUnits()
    ensures |AllUnits| == 8
    ensures forall u: WeightUnit :: u in AllUnits
    ensures forall i, j :: 0 <= i < j < |AllUnits| ==> UnitValue(AllUnits[i]) != UnitValue(AllUnits[j])
  {
    forall u: WeightUnit
      ensures u in AllUnits
    {
      match u
      case Gram => assert AllUnits[0] == u;
      case Kilogram => assert AllUnits[1] == u;
      case Liter => assert AllUnits[2] == u;
      case Mililiter => assert AllUnits[3] == u;
      case Teaspoon => assert AllUnits[4] == u;
      case Tablespoon => assert AllUnits[5] == u;
      case Cup => assert AllUnits[6] == u;
      case Piece => assert AllUnits[7] == u;
    }
  }

  lemma UnitRoundTrip(u: WeightUnit)
    ensures ParseUnit(UnitValue(u)) == Some(u)
  {
  }

  datatype Visibility = Public | Private

  /** The column default of a wishlist entry's visibility. */
  const DefaultVisibility: Visibility := Private

  // ---------------------------------------------------------------------------
  // Records
  // ---------------------------------------------------------------------------

  datatype User = User(
    email: string,
    username: string,
    firstName: Option<string>,
    lastName: Option<string>,
    bio: Option<string>,
    profilePhoto: Option<string>,
    dateOfBirth: Option<Date>,
    phoneNumber: Option<string>,
    password: Hash,
    role: UserRole,
    followersCount: int,
    followingCount: int,
    isBlocked: bool)

  /** A row of `follows`; the pair is the primary key. */
  datatype Follow = Follow(followerId: int, followeeId: int)

  datatype Recipe = Recipe(
    userId: int,
    recipeName: string,
    description: string,
    recipeType: Tag,
    peopleCount: int,
    likesCount: int,
    forkedCount: int,
    isDeleted: bool,
    isHide: bool,
    deletedAt: Option<Time>)

  datatype ForkedRecipe = ForkedRecipe(
    userId: int,
    recipeId: int,
    recipeName: string,
    description: string,
    recipeType: Tag,
    peopleCount: int)

  datatype Ingredient = Ingredient(ingredientName: string)

  datatype RecipeIngredient = RecipeIngredient(
    ingredientId: int,
    recipeId: int,
    quantity: Quantity,
    unit: WeightUnit)

  datatype Comment = Comment(
    userId: int,
    comment: string,
    recipeId: int,
    parentCommentId: Option<int>)

  /** A row of `recipe_likes`; the pair is the primary key. */
  datatype Like = Like(userId: int, recipeId: int)

  datatype CookingHistory = CookingHistory(
    userId: int,
    recipeId: int,
    createdAt: Time,
    updatedAt: Option<Time>)

  datatype Wishlist = Wishlist(userId: int, recipeId: int, visibility: Visibility)

  // ---------------------------------------------------------------------------
  // Column defaults
  // ---------------------------------------------------------------------------

  /** A user row as inserted when the counters and the blocked flag are left
      to their column defaults. */
  function NewUser(email: string, username: string, firstName: Option<string>,
                   lastName: Option<string>, bio: Option<string>, profilePhoto: Option<string>,
                   dateOfBirth: Option<Date>, phoneNumber: Option<string>,
                   password: Hash, role: UserRole): (u: User)
    ensures u.followersCount == 0 && u.followingCount == 0 && !u.isBlocked
  {
    User(email, username, firstName, lastName, bio, profilePhoto, dateOfBirth, phoneNumber,
         password, role, 0, 0, false)
  }

  /** A recipe row as inserted when every column with a default is left to it,
      except `peopleCount` when one is given. */
  function NewRecipe(userId: int, recipeName: string, description: string,
                     recipeType: Tag, peopleCount: Option<int>): (r: Recipe)
    ensures r.peopleCount == (if peopleCount.Some? then peopleCount.value else 1)
    ensures r.likesCount == 0 && r.forkedCount == 0
    ensures !r.isDeleted && !r.isHide && r.deletedAt.None?
  {
    Recipe(userId, recipeName, description, recipeType,
           if peopleCount.Some? then peopleCount.value else 1,
           0, 0, false, false, None)
  }

  /** The `createdAt` default as the schema declares it: `datetime.now()` is
      called once, when the schema module is imported, so every row inserted
      by one server process gets the import time, whatever its insert time. */
  function CreatedAtAsWritten(importTime: Time, insertTime: Time): Time {
    importTime
  }

  /** The evidently intended default: the clock is read when the row is inserted. */
  function CreatedAt(insertTime: Time): Time {
    insertTime
  }
}
