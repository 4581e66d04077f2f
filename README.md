# Recipe API: a verified model of its request handlers

This project models the recipe-sharing web API: its users, follows, recipes,
forks, ingredient catalog, comments, wishlists, cooking history and the admin
endpoints. It models them as Dafny state transitions and proves properties of
those transitions.

The database is one object, `Database.Db`. It holds every table as a map from
primary key to row, or as a set of key pairs for the two tables whose key is a
pair (`follows`, `recipe_likes`). One counter, `nextId`, hands out fresh
primary keys. `Db.Valid()` collects the integrity rules every handler keeps:
- keys were handed out by the counter;
- usernames and emails are unique;
- follower and following counters equal the number of follow rows;
- `likesCount` equals the number of like rows;
- `forkedCount` is at least the number of live forks;
- catalog names are in normal form and distinct;
- a reply has a larger id than its parent and the same recipe;
- a user has at most one wishlist entry and one history mark per recipe.

Each endpoint is one of two things:
- A handler that writes is a `method`. It takes the store, the caller's
  identity (`None` when the bearer-token check rejects the request) and the
  request fields, returns a `Status`, and states the complete new value of
  every table it may modify.
- A read-only endpoint is a `function` over the table values that returns a
  `Result`.

Follow and unfollow are also written as pure steps on the users and follows
tables (`UserRoutes.FollowStep`, `UserRoutes.UnfollowStep`). The handler
methods are proved to perform exactly those steps. The counter invariant is
proved for any sequence of them.

Modules, one per source file:
- `Outcomes`: `Option`, `Status`, `Result`.
- `Models`: `models.py`, the rows, enumerations and column defaults.
- `Text`: Python's `str.capitalize`, ASCII case folding and SQL `LIKE '%q%'`.
- `Database`: the store, the integrity rules and counting lemmas.
- `Auth`: `routers/auth.py`.
- The router modules: `UserRoutes`, `RecipeRoutes`, `ForkedRecipeRoutes`,
  `WishlistRoutes`, `CookingHistoryRoutes`, `CommentRoutes`,
  `IngredientRoutes` and `AdminRoutes`, one for each file under `routers/`.

Where the handlers rely on the database, the model follows the MySQL schema:
- A commit that would store a row naming a missing user, recipe or comment
  fails with a foreign-key error. The model reports `ServerError` and changes
  nothing.
- An update that would break NOT NULL or UNIQUE on `users` fails the same way.
- A handler that dereferences a missing row fails with `ServerError`.

Things the code does that are easy to misread, modelled as written:
- There is no like endpoint, so `likesCount` never changes.
- Deleting a fork leaves its source's `forkedCount` as it was.
- `GET /recipes/{recipe_id}` filters on the owner id.
- Admin gate failures answer Unauthorized.
- Admin delete is a soft delete that leaves `deletedAt` unset.
- No query hides hidden or soft-deleted recipes.
- `create_user` lets the request choose the role.
- The comment update and delete handlers ignore the recipe id in the path.
- A `parentCommentId` of 0 skips the parent check in `add_comment`. The row
  then stores parent 0, so the insert fails its foreign key (`ServerError`);
  the parent is not treated as absent.
- A new cooking-history mark gets the `createdAt` column default, which was
  computed once when the schema module was imported. Every mark made by one
  server process has the same `createdAt`, so the list is not newest first
  (see "## Findings"). `AddCookingHistoryStampedAtInsert` is the corrected
  handler.

## Model

| member | source | states |
|---|---|---|
| Models.ParseRole | models.py:7-9 | a role string parses exactly when it is "admin" or "user", and back to that string |
| Models.RoleRoundTrip | models.py:7-9 | every role parses back from its value |
| Models.ParseRequestTag | routers/recipe.py:17-19 | a request diet tag parses exactly when it is "veg" or "nonveg", and back to that string |
| Models.RequestTagRoundTrip | routers/recipe.py:17-19 | every tag parses back from its request spelling |
| Models.TagSpellingsDisagree | models.py:46-48 | the schema spells the non-vegetarian tag "non-veg", which the request validation rejects |
| Models.ParseUnit | models.py:95-103 | a unit string parses exactly to the unit with that spelling, and fails when no unit has it |
| Models.ExactlyEightUnits | models.py:95-103 | the unit column has exactly eight values with eight distinct spellings |
| Models.UnitRoundTrip | models.py:95-103 | every unit parses back from its spelling |
| Models.NewUser | models.py:26-28 | a new user starts with both counters at 0 and not blocked |
| Models.NewRecipe | models.py:59-63 | a new recipe has peopleCount as given or 1, zero likes and forks, not deleted, not hidden, no deletedAt |
| Text.Lower | routers/ingredient.py:69-70 | same length, each character mapped to lower case |
| Text.Capitalize | routers/ingredient.py:89-94 | same length, first character upper-cased, the rest lower-cased |
| Text.CapitalizeIdempotent | routers/ingredient.py:89-94 | capitalizing a capitalized name changes nothing |
| Text.CapitalizeMatchesIgnoringCase | routers/ingredient.py:89-94 | two names capitalize to the same string exactly when they agree ignoring case |
| Text.Contains | routers/recipe.py:89-92 | `LIKE '%q%'` as a scan for the pattern at every starting position of the text |
| Text.ContainsIff | routers/recipe.py:89-92 | the substring test holds exactly when the pattern occurs at some position |
| Database.Where | routers/recipe.py:60 | a filtered table keeps exactly the rows satisfying the condition, with their keys and values |
| Database.FollowCountsAfterInsert | routers/user.py:82-92 | adding a follow row raises the followee's follower count and the follower's following count by one, no one else's |
| Database.FollowCountsAfterDelete | routers/user.py:118-127 | removing a follow row lowers the same two counts by one, no one else's |
| Database.NoFollowsOfFreshId | routers/auth.py:119-133 | no follow row names an id not yet handed out, so a new user starts with consistent counters |
| Database.NoLikesOfFreshId | routers/recipe.py:101-110 | no like row names a fresh id, so a new recipe's zero likesCount is right |
| Database.NoForksOfFreshId | routers/recipe.py:101-110 | no fork names a fresh id, so a new recipe's zero forkedCount covers its forks |
| Database.ForkCountsAfterInsert | routers/forked_recipe.py:81-92 | a new fork raises its source's fork count by one and no other recipe's |
| Database.ForkCountsAfterDelete | routers/forked_recipe.py:139-140 | removing a fork never raises a recipe's fork count |
| Database.ForkCountsAfterEdit | routers/forked_recipe.py:110-123 | editing a fork without changing its source leaves every fork count as it was |
| Database.Db.constructor | models.py:12-175 | an empty store satisfies every integrity rule |
| Auth.FindByUsername | routers/auth.py:62 | finds a user with that username exactly when one exists |
| Auth.AuthenticateUser | routers/auth.py:61-73 | succeeds exactly when the username exists, the password verifies and the user is not blocked, and returns that user |
| Auth.GetCurrentUser | routers/auth.py:85-102 | Unauthorized exactly on a decoding error or a missing sub or id; otherwise the identity is the claims' username, id and role |
| Auth.AccessTokenClaims | routers/auth.py:76-82 | the claim set expires delta after now and decodes to exactly the identity it was issued for |
| Auth.LoginAccessToken | routers/auth.py:136-152 | a token is issued exactly when some user can log in with the credentials; it carries that user's name, id and role and a twenty-minute lifetime; otherwise Unauthorized |
| Auth.BlockedUserNeverLogsIn | routers/auth.py:70-71 | a blocked user gets no token whatever the password |
| Auth.StoredHashLogsIn | routers/auth.py:141-150 | with a sound hasher, an unblocked user logs in with the password whose hash is stored and gets their own token |
| Auth.StoredUser | routers/auth.py:119-130 | the inserted row has the request's login fields and role, the hash of its password, and default counters |
| Auth.CreateUser | routers/auth.py:105-133 | BadRequest exactly when the username or email is taken; otherwise one row is added under a fresh key, and with a sound hasher the new account can log in with its password |
| UserRoutes.FollowStep | routers/user.py:54-92 | Unauthorized, BadRequest on self-follow or an existing pair, ServerError on a missing user, each changing nothing; otherwise adds the pair and raises exactly the two counters by one |
| UserRoutes.UnfollowStep | routers/user.py:95-127 | BadRequest and no change when the pair is absent; otherwise removes it and lowers exactly the two counters by one |
| UserRoutes.FollowKeepsCounters | routers/user.py:82-92 | a follow request keeps every counter equal to the number of its follow rows |
| UserRoutes.UnfollowKeepsCounters | routers/user.py:118-127 | an unfollow request keeps every counter equal to the number of its follow rows |
| UserRoutes.StepsKeepUserTables | routers/user.py:54-127 | both steps keep the users-table integrity rules |
| UserRoutes.ReplayKeepsCounters | routers/user.py:54-127 | any sequence of follow and unfollow requests keeps the counters consistent and non-negative |
| UserRoutes.GetUser | routers/user.py:44-51 | the caller's own row, nothing when it is gone, Unauthorized without a token |
| UserRoutes.FollowUser | routers/user.py:54-92 | the handler performs exactly FollowStep on the store and keeps it valid |
| UserRoutes.UnfollowUser | routers/user.py:95-127 | the handler performs exactly UnfollowStep on the store and keeps it valid |
| UserRoutes.CommitFollow | routers/user.py:82-92 | the follow commit raises the follower's following count and the followee's follower count, inserts the pair, and keeps the store valid |
| UserRoutes.CommitUnfollow | routers/user.py:118-127 | the unfollow commit lowers the same two counts, deletes the pair, and keeps the store valid |
| UserRoutes.ChangePassword | routers/user.py:130-149 | Unauthorized and no change on a wrong current password; ServerError when the caller's row is gone; otherwise only the caller's hash is replaced, and with a sound hasher the new password then authenticates |
| UserRoutes.WithProfile | routers/user.py:161-170 | all eight profile fields are overwritten, absent ones too; password, role, counters and isBlocked are kept |
| UserRoutes.ProfileRejected | models.py:16-17 | the commit of a profile fails when email or username is absent (NOT NULL) or already another user's (UNIQUE) |
| UserRoutes.UpdateProfile | routers/user.py:152-173 | Ok exactly when the row exists and the request breaks no NOT NULL or UNIQUE rule, and then only the caller's row changes; otherwise no change |
| RecipeRoutes.GetAllRecipes | routers/recipe.py:41-43 | every recipe row, hidden and deleted ones included |
| RecipeRoutes.GetRecipeById | routers/recipe.py:46-51 | exactly the recipes whose owner id is the path parameter |
| RecipeRoutes.GetRecipesByUserId | routers/recipe.py:54-62 | exactly the caller's recipes |
| RecipeRoutes.GetRecipesByType | routers/recipe.py:65-73 | exactly the recipes with that diet tag |
| RecipeRoutes.GetRecipesByPeopleCount | routers/recipe.py:76-84 | exactly the recipes with that serving count |
| RecipeRoutes.SearchRecipes | routers/recipe.py:87-92 | exactly the recipes whose name or description contains the query |
| RecipeRoutes.GetRecipeByIdFiltersOnOwner | routers/recipe.py:49 | the lookup by id is the by-owner query, so a recipe owned by someone else is not found under its own id |
| RecipeRoutes.SearchFindsOccurrences | routers/recipe.py:89-92 | a recipe is found exactly when the query occurs at some position of its name or description |
| RecipeRoutes.EmptySearchFindsAll | routers/recipe.py:89-92 | the empty query finds every recipe |
| RecipeRoutes.WithRequest | routers/recipe.py:125-129 | an update overwrites the four request fields and keeps owner, counters and flags |
| RecipeRoutes.CreateRecipe | routers/recipe.py:95-110 | inserts one recipe owned by the caller with the request fields and the column defaults under a fresh key |
| RecipeRoutes.UpdateRecipe | routers/recipe.py:113-132 | NotFound and no change unless the caller owns the recipe; otherwise only that row changes |
| RecipeRoutes.DeleteRecipe | routers/recipe.py:135-149 | NotFound and no change unless the caller owns the recipe; otherwise exactly that row is removed |
| ForkedRecipeRoutes.GetAllForkedRecipes | routers/forked_recipe.py:41-50 | exactly the caller's forks |
| ForkedRecipeRoutes.GetForkedRecipeById | routers/forked_recipe.py:53-66 | the fork when the caller owns it, NotFound otherwise |
| ForkedRecipeRoutes.ForkOf | routers/forked_recipe.py:81-88 | a fork copies name, description, tag and serving count, is owned by the caller and points at its source |
| ForkedRecipeRoutes.WithForkUpdate | routers/forked_recipe.py:110-120 | the fields given are overwritten, the others kept; owner and source never change |
| ForkedRecipeRoutes.AddForkedRecipe | routers/forked_recipe.py:69-94 | NotFound and no change for a missing recipe; otherwise one fork is added and only the source's forkedCount rises by one |
| ForkedRecipeRoutes.UpdateForkedRecipe | routers/forked_recipe.py:97-123 | NotFound and no change unless the caller owns the fork; otherwise only that fork changes, and no recipe does |
| ForkedRecipeRoutes.DeleteForkedRecipe | routers/forked_recipe.py:126-140 | NotFound and no change unless the caller owns the fork; otherwise exactly that fork is removed and no counter moves |
| WishlistRoutes.RequestVisibility | routers/wishlist.py:21-25 | visibility defaults to private |
| WishlistRoutes.GetAllPublicWishlist | routers/wishlist.py:40-51 | exactly the public entries |
| WishlistRoutes.GetUserWishlist | routers/wishlist.py:54-63 | exactly the caller's entries |
| WishlistRoutes.PrivateEntriesStayPrivate | routers/wishlist.py:47-63 | a private entry is never in the public list but is in its owner's list |
| WishlistRoutes.AddToWishlist | routers/wishlist.py:66-101 | NotFound for a missing recipe, BadRequest and no change on an existing pair; otherwise one entry with the requested visibility is added |
| WishlistRoutes.UpdateWishlistVisibility | routers/wishlist.py:104-124 | NotFound without the caller's entry; otherwise only that entry's visibility changes |
| WishlistRoutes.RemoveFromWishlist | routers/wishlist.py:127-144 | NotFound without the caller's entry; otherwise exactly that one entry is removed |
| CookingHistoryRoutes.EntriesFrom | routers/cooking_history.py:39-40 | exactly the user's rows in the id range, in increasing id order |
| CookingHistoryRoutes.InsertNewestFirst | routers/cooking_history.py:40 | inserting into a newest-first list keeps it newest first and adds exactly that entry |
| CookingHistoryRoutes.SortNewestFirst | routers/cooking_history.py:40 | the sorted list is newest first and a permutation of its input |
| CookingHistoryRoutes.IncreasingHasNoRepeats | routers/cooking_history.py:39-40 | a list with increasing ids holds each entry at most once |
| CookingHistoryRoutes.DistinctIdsKept | routers/cooking_history.py:39-40 | a permutation of a list with increasing ids repeats no id |
| CookingHistoryRoutes.GetUserCookingHistory | routers/cooking_history.py:33-42 | exactly the caller's rows, each once, ordered by createdAt descending |
| CookingHistoryRoutes.AddCookingHistory | routers/cooking_history.py:45-69 | NotFound for a missing recipe, BadRequest and no change on an existing mark; otherwise one mark is added, stamped with the import-time `createdAt` default of models.py:153 rather than the request time |
| CookingHistoryRoutes.AddCookingHistoryStampedAtInsert | models.py:153 | the evidently intended handler: the same outcomes, with the mark stamped at the request time |
| CookingHistoryRoutes.UpdateCookingHistory | routers/cooking_history.py:72-88 | NotFound without the caller's mark; otherwise only its updatedAt changes |
| CookingHistoryRoutes.DeleteCookingHistory | routers/cooking_history.py:91-106 | NotFound without the caller's mark; otherwise exactly that mark is removed |
| CookingHistoryRoutes.ListAsWrittenShowsOlderFirst | models.py:153 | with the default as written, two marks made one after the other are listed older first |
| CookingHistoryRoutes.ListCorrectedShowsNewerFirst | routers/cooking_history.py:39-40 | with insert-time stamps, the same two marks are listed newer first |
| CookingHistoryRoutes.MarksAsWrittenShareStamp | models.py:153 | two marks added one after the other by the handler as written carry the same `createdAt`, the import time |
| CookingHistoryRoutes.MarksStampedAtInsertOrdered | models.py:153 | with insert-time stamps, the later of two added marks has the later `createdAt` |
| CookingHistoryRoutes.ListNewestFirstWhenStampedAtInsert | routers/cooking_history.py:39-40 | when later rows carry later times, the list is in reverse insertion order |
| CommentRoutes.GetAllComments | routers/comment.py:30-41 | NotFound exactly when the recipe has no comments; otherwise exactly its comments |
| CommentRoutes.Thread | routers/comment.py:59-83 | the tree under a comment: each node's replies are exactly the comments naming it as parent, in id order, recursively |
| CommentRoutes.RepliesFrom | routers/comment.py:59-74 | the children query returns exactly the replies to the parent, each as its own tree |
| CommentRoutes.ThreadStaysOnRecipe | routers/comment.py:59-74 | every node of a tree is on the root's recipe, although the reply query does not filter on it |
| CommentRoutes.GetCommentThread | routers/comment.py:44-85 | NotFound unless the comment is on that recipe; otherwise a one-element list with its full reply tree |
| CommentRoutes.AddComment | routers/comment.py:88-131 | NotFound for a missing recipe or a non-zero parent not on it; otherwise one comment owned by the caller is added, keeping parents older than replies |
| CommentRoutes.UpdateComment | routers/comment.py:134-164 | NotFound and no change unless the caller owns the comment; otherwise only its text changes |
| CommentRoutes.DeleteComment | routers/comment.py:167-190 | NotFound for a missing comment, Forbidden for another user's; otherwise exactly that comment is removed |
| IngredientRoutes.GetRecipeIngredients | routers/ingredient.py:50-60 | NotFound exactly when the recipe has no joined ingredient; otherwise each link with its ingredient's name, quantity and unit |
| IngredientRoutes.GetIngredientByName | routers/ingredient.py:63-72 | exactly the catalog entries containing the query, ignoring case |
| IngredientRoutes.LookupIgnoresCase | routers/ingredient.py:89-90 | the lookup by normal form gives the same answer under a case-insensitive comparison, and names differing in case find the same entry |
| IngredientRoutes.NewEntryKeepsCatalog | routers/ingredient.py:92-98 | adding the normal form of a new name keeps the catalog normalized and free of duplicates |
| IngredientRoutes.FindOrAddIngredient | routers/ingredient.py:89-98 | returns the existing entry for the name or adds one at a fresh key; afterwards exactly one entry has that name |
| IngredientRoutes.AddRecipeIngredient | routers/ingredient.py:75-108 | NotFound and no change unless the caller owns the recipe; otherwise one link to the single catalog entry for the name is added |
| IngredientRoutes.UpdateRecipeIngredient | routers/ingredient.py:111-135 | NotFound unless the caller owns the recipe and a link exists; otherwise only that link's quantity and unit change |
| IngredientRoutes.DeleteRecipeIngredient | routers/ingredient.py:138-159 | NotFound unless the caller owns the recipe and a link exists; otherwise exactly that link is removed and the catalog is untouched |
| AdminRoutes.IsAdmin | routers/admin.py:35 | the admin gate passes only a caller with a token whose role claim is "admin" |
| AdminRoutes.AdminGateFollowsRole | routers/admin.py:35-38 | a login token passes the admin gate exactly when the account's role is admin; a token without a role never does |
| AdminRoutes.SetHidden | routers/admin.py:59 | only isHide of that recipe changes |
| AdminRoutes.SetHiddenIdempotent | routers/admin.py:52-78 | hiding or showing twice equals once, and hiding then restoring the original flag gives back the table |
| AdminRoutes.SoftDeleted | routers/admin.py:95 | only isDeleted of that recipe changes; the row stays and deletedAt is not set |
| AdminRoutes.SoftDeletedStillServed | routers/admin.py:88-96 | a soft-deleted recipe is still listed and found by the same searches |
| AdminRoutes.SetBlocked | routers/admin.py:126 | only isBlocked of that user changes |
| AdminRoutes.BlockingLocksOut | routers/admin.py:119-145 | a blocked user gets no token; once unblocked, the stored password works again |
| AdminRoutes.GetAllRecipes | routers/admin.py:33-42 | Unauthorized unless admin; otherwise every recipe |
| AdminRoutes.GetAllUsers | routers/admin.py:100-109 | Unauthorized unless admin; otherwise every user |
| AdminRoutes.HideRecipe | routers/admin.py:45-60 | Unauthorized unless admin, NotFound for a missing recipe, no change in either case; otherwise sets isHide |
| AdminRoutes.ShowRecipe | routers/admin.py:63-78 | Unauthorized unless admin, NotFound for a missing recipe, no change in either case; otherwise clears isHide |
| AdminRoutes.DeleteRecipe | routers/admin.py:81-96 | Unauthorized unless admin, NotFound for a missing recipe, no change in either case; otherwise a soft delete |
| AdminRoutes.BlockUser | routers/admin.py:112-127 | Unauthorized unless admin, NotFound for a missing user, no change in either case; otherwise sets isBlocked |
| AdminRoutes.UnblockUser | routers/admin.py:130-145 | Unauthorized unless admin, NotFound for a missing user, no change in either case; otherwise clears isBlocked |
| AdminRoutes.DeleteUser | routers/admin.py:148-163 | Unauthorized unless admin, NotFound for a missing user, no change in either case; otherwise removes exactly that row |
| AdminRoutes.DeleteComment | routers/admin.py:167-182 | Unauthorized unless admin, NotFound for a missing comment, no change in either case; otherwise removes it whoever wrote it |

## Left out

- Delete cascades and restrictions are not modelled. The migrations declare `ON DELETE CASCADE` on several foreign keys, and the other foreign keys refuse the delete. Deleting a user, recipe or comment removes only that row, and rows that point at it stay.
- Delete cascades also hide a counter drift. Once follow rows cascade away with a deleted user, the other users' counters are no longer decremented. The model keeps the follow rows, so it does not show this.
- The password hasher and the token codec are parameters. Hashing is a pair of uninterpreted functions. A token arrives already decoded as claims or an error. Signatures and expiry checks are not modelled.
- Clocks are parameters. `now` gives a token's `exp` and the `updatedAt` that the cooking-history update writes. A cooking-history `createdAt` is not a clock reading: it is the import time of the schema module, passed to `AddCookingHistory` as `importTime`. The `createdAt` and `updatedAt` columns of the other tables are not modelled, since no handler reads them.
- Primary keys come from one counter, `nextId`, shared by every table, where MySQL keeps one auto-increment per table. Each table's keys still increase in insert order, so the invariants and the tie order are the same, but the concrete ids differ from the program's.
- Decimal quantities are integers, standing for hundredths. They are only stored, never computed on.
- Case folding is ASCII only, and there is no Unicode or collation handling. `ILIKE` is modelled as a substring test on lower-cased text. The recipe search (`LIKE`) is a plain, case-sensitive substring test. `%` and `_` inside a query are not treated as wildcards.
- Result order is not modelled for queries without `ORDER BY`: they return maps keyed by id. The reply list of a comment is in id order. The cooking-history list is ordered by its sort; rows with equal `createdAt` stay in id order.
- ForkedRecipeRoutes.WithForkUpdate: the request's `peopleCount` is a string that the database converts to an integer. The model takes the integer directly and leaves out what happens to a non-numeric string.
- String lengths (`String(255)` and similar) and integer widths are not modelled.
- FastAPI routing, dependency injection, sessions and the response bodies' JSON shapes are left out. A request that fails request validation never reaches a handler.
- RecipeRoutes.GetRecipesByUserId models a handler no request reaches. In routers/recipe.py the route `/{recipe_id}` (line 46) is declared before `/by-user-id` (line 54), so `GET /recipes/by-user-id` matches the first, fails its integer validation and is answered 422.
- Concurrent requests are out of scope. Each handler runs alone, so the check-then-insert paths are atomic here.
- `likesCount` is modelled only through the invariant that it equals the number of like rows. No handler writes either of them.
- Among the handlers that look a row up with `.first()`, the ingredient-link update and delete may find several matching links. The model picks any one of them, and the contract says which one changed.

## Findings

| source | as written | input that shows it | evidently intended | confidence | as-written member | corrected member |
|---|---|---|---|---|---|---|
| models.py:153 | `createdAt` defaults to `datetime.now()` evaluated once, when the module is imported | one user marks recipe 1 at time 10 and recipe 2 at time 20 in one server process; both rows get the import time, so `ORDER BY createdAt DESC` cannot put the newer mark first, and the model's stable order lists the older first | each row stamped with its insert time (`Models.CreatedAt`, used by `AddCookingHistoryStampedAtInsert`; `AddCookingHistory` keeps the import-time stamp), so the list is most recent first | not executed; with equal stamps the order is the database's choice, and the model shows one permitted outcome | CookingHistoryRoutes.ListAsWrittenShowsOlderFirst | CookingHistoryRoutes.ListCorrectedShowsNewerFirst |
