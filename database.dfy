/** The relational store as one in-memory state. Each id-keyed table is a
    map from primary key to row; the two tables whose primary key is a pair
    (follows, recipe likes) are sets of pairs, so a duplicate pair cannot
    exist. A single counter hands out fresh primary keys in increasing order,
    standing in for the tables' auto-increment columns.

    The predicates below are the integrity rules the handlers maintain
    between them (unique logins, counter bookkeeping, at most one wishlist
    or history entry per user and recipe, the normalized ingredient catalog,
    acyclic reply links); `Db.Valid` is their conjunction. */
module Database {
  import opened Outcomes
  import opened Models
  import opened Text

  // ---------------------------------------------------------------------------
  // Integrity rules, stated over table values
  // ---------------------------------------------------------------------------

  /** Every key was handed out by the id counter (ids start at 1). */
  ghost predicate Allocated(keys: set<int>, nextId: int) {
    forall k :: k in keys ==> 1 <= k < nextId
  }

  /** `email` and `username` are each unique across users. */
  ghost predicate UniqueLogins(users: map<int, User>) {
    forall a, b :: a in users && b in users && a != b ==>
      users[a].username != users[b].username && users[a].email != users[b].email
  }

  /** The follow rows naming `u` as followee. */
  ghost function FollowersOf(follows: set<Follow>, u: int): set<Follow> {
    set f | f in follows && f.followeeId == u
  }

  /** The follow rows naming `u` as follower. */
  ghost function FollowingOf(follows: set<Follow>, u: int): set<Follow> {
    set f | f in follows && f.followerId == u
  }

  /** Each user's two counters equal the number of follow rows on each side. */
  ghost predicate FollowCountersMatch(users: map<int, User>, follows: set<Follow>) {
    forall u :: u in users ==>
      users[u].followersCount == |FollowersOf(follows, u)| &&
      users[u].followingCount == |FollowingOf(follows, u)|
  }

  ghost predicate NoSelfFollow(follows: set<Follow>) {
    forall f :: f in follows ==> f.followerId != f.followeeId
  }

  /** Follow rows only name ids the counter has handed out. */
  ghost predicate FollowsAllocated(follows: set<Follow>, nextId: int) {
    forall f :: f in follows ==> f.followerId < nextId && f.followeeId < nextId
  }

  ghost function LikesOf(likes: set<Like>, r: int): set<Like> {
    set l | l in likes && l.recipeId == r
  }

  ghost predicate LikeCountersMatch(recipes: map<int, Recipe>, likes: set<Like>) {
    forall r :: r in recipes ==> recipes[r].likesCount == |LikesOf(likes, r)|
  }

  ghost predicate LikesAllocated(likes: set<Like>, nextId: int) {
    forall l :: l in likes ==> l.recipeId < nextId
  }

  /** The ids of the live forks of recipe `r`. */
  ghost function ForksOf(forks: map<int, ForkedRecipe>, r: int): set<int> {
    set id | id in forks && forks[id].recipeId == r
  }

  /** `forkedCount` counts every fork ever made, so it bounds the live ones. */
  ghost predicate ForkCountersCover(recipes: map<int, Recipe>, forks: map<int, ForkedRecipe>) {
    forall r :: r in recipes ==> recipes[r].forkedCount >= |ForksOf(forks, r)|
  }

  ghost predicate ForksAllocated(forks: map<int, ForkedRecipe>, nextId: int) {
    forall id :: id in forks ==> forks[id].recipeId < nextId
  }

  /** Every catalog name is in capitalized form, and no two entries share one. */
  ghost predicate CatalogNormalized(ingredients: map<int, Ingredient>) {
    && (forall i :: i in ingredients ==>
          Capitalize(ingredients[i].ingredientName) == ingredients[i].ingredientName)
    && (forall i, j :: i in ingredients && j in ingredients && i != j ==>
          ingredients[i].ingredientName != ingredients[j].ingredientName)
  }

  /** A reply's parent has a smaller id, so parent links cannot form a cycle. */
  ghost predicate RepliesAfterParents(comments: map<int, Comment>) {
    forall c :: c in comments && comments[c].parentCommentId.Some? ==>
      comments[c].parentCommentId.value < c
  }

  /** A reply whose parent is still there is on the same recipe as it. */
  ghost predicate RepliesShareRecipe(comments: map<int, Comment>) {
    forall c :: c in comments && comments[c].parentCommentId.Some? && comments[c].parentCommentId.value in comments ==>
      comments[comments[c].parentCommentId.value].recipeId == comments[c].recipeId
  }

  ghost predicate OneWishlistEntryPerRecipe(wishlists: map<int, Wishlist>) {
    forall a, b :: a in wishlists && b in wishlists && a != b ==>
      wishlists[a].userId != wishlists[b].userId || wishlists[a].recipeId != wishlists[b].recipeId
  }

  ghost predicate OneHistoryPerRecipe(history: map<int, CookingHistory>) {
    forall a, b :: a in history && b in history && a != b ==>
      history[a].userId != history[b].userId || history[a].recipeId != history[b].recipeId
  }

  // ---------------------------------------------------------------------------
  // The integrity rules, grouped by the tables they constrain
  // ---------------------------------------------------------------------------

  ghost predicate UserTablesValid(users: map<int, User>, follows: set<Follow>, nextId: int) {
    && Allocated(users.Keys, nextId)
    && UniqueLogins(users)
    && FollowsAllocated(follows, nextId)
    && NoSelfFollow(follows)
    && FollowCountersMatch(users, follows)
  }

  ghost predicate RecipeTablesValid(recipes: map<int, Recipe>, forks: map<int, ForkedRecipe>,
                                    likes: set<Like>, nextId: int) {
    && Allocated(recipes.Keys, nextId)
    && Allocated(forks.Keys, nextId)
    && LikesAllocated(likes, nextId)
    && LikeCountersMatch(recipes, likes)
    && ForksAllocated(forks, nextId)
    && ForkCountersCover(recipes, forks)
  }

  ghost predicate CatalogValid(ingredients: map<int, Ingredient>, links: map<int, RecipeIngredient>, nextId: int) {
    && Allocated(ingredients.Keys, nextId)
    && Allocated(links.Keys, nextId)
    && CatalogNormalized(ingredients)
  }

  ghost predicate CommentsValid(comments: map<int, Comment>, nextId: int) {
    Allocated(comments.Keys, nextId) && RepliesAfterParents(comments) && RepliesShareRecipe(comments)
  }

  ghost predicate ListsValid(history: map<int, CookingHistory>, wishlists: map<int, Wishlist>, nextId: int) {
    && Allocated(history.Keys, nextId)
    && Allocated(wishlists.Keys, nextId)
    && OneHistoryPerRecipe(history)
    && OneWishlistEntryPerRecipe(wishlists)
  }

  // ---------------------------------------------------------------------------
  // Shared queries
  // ---------------------------------------------------------------------------

  /** `SELECT * FROM table WHERE p(row)`; the rows keep their keys. */
  function Where<R>(table: map<int, R>, p: R -> bool): (r: map<int, R>)
    ensures forall id :: id in r <==> id in table && p(table[id])
    ensures forall id :: id in r ==> r[id] == table[id]
  {
    map id | id in table && p(table[id]) :: table[id]
  }

  /** The recipe exists and belongs to `userId`. */
  predicate OwnsRecipe(recipes: map<int, Recipe>, userId: int, recipeId: int) {
    recipeId in recipes && recipes[recipeId].userId == userId
  }

  // ---------------------------------------------------------------------------
  // Counting lemmas
  // ---------------------------------------------------------------------------

  /** Inserting a new follow row adds one to the count on each of its two sides. */
  lemma FollowCountsAfterInsert(follows: set<Follow>, f: Follow, u: int)
    requires f !in follows
    ensures |FollowersOf(follows + {f}, u)| ==
            |FollowersOf(follows, u)| + (if f.followeeId == u then 1 else 0)
    ensures |FollowingOf(follows + {f}, u)| ==
            |FollowingOf(follows, u)| + (if f.followerId == u then 1 else 0)
  {
    if f.followeeId == u {
      assert FollowersOf(follows + {f}, u) == FollowersOf(follows, u) + {f};
    } else {
      assert FollowersOf(follows + {f}, u) == FollowersOf(follows, u);
    }
    if f.followerId == u {
      assert FollowingOf(follows + {f}, u) == FollowingOf(follows, u) + {f};
    } else {
      assert FollowingOf(follows + {f}, u) == FollowingOf(follows, u);
    }
  }

  /** Deleting a follow row takes one from the count on each of its two sides. */
  lemma FollowCountsAfterDelete(follows: set<Follow>, f: Follow, u: int)
    requires f in follows
    ensures |FollowersOf(follows - {f}, u)| ==
            |FollowersOf(follows, u)| - (if f.followeeId == u then 1 else 0)
    ensures |FollowingOf(follows - {f}, u)| ==
            |FollowingOf(follows, u)| - (if f.followerId == u then 1 else 0)
  {
    var rest := follows - {f};
    assert follows == rest + {f};
    FollowCountsAfterInsert(rest, f, u);
  }

  /** No follow row names an id the counter has not handed out yet. */
  lemma NoFollowsOfFreshId(follows: set<Follow>, nextId: int)
    requires FollowsAllocated(follows, nextId)
    ensures FollowersOf(follows, nextId) == {} && FollowingOf(follows, nextId) == {}
  {
    assert forall f :: f in FollowersOf(follows, nextId) ==> f.followeeId == nextId;
    assert forall f :: f in FollowingOf(follows, nextId) ==> f.followerId == nextId;
  }

  lemma NoLikesOfFreshId(likes: set<Like>, nextId: int)
    requires LikesAllocated(likes, nextId)
    ensures LikesOf(likes, nextId) == {}
  {
    assert forall l :: l in LikesOf(likes, nextId) ==> l.recipeId == nextId;
  }

  lemma NoForksOfFreshId(forks: map<int, ForkedRecipe>, nextId: int)
    requires ForksAllocated(forks, nextId)
    ensures ForksOf(forks, nextId) == {}
  {
    assert forall id :: id in forks ==> id !in ForksOf(forks, nextId);
  }

  /** A new fork row adds one to the live forks of its source recipe only. */
  lemma ForkCountsAfterInsert(forks: map<int, ForkedRecipe>, id: int, f: ForkedRecipe, r: int)
    requires id !in forks
    ensures |ForksOf(forks[id := f], r)| == |ForksOf(forks, r)| + (if f.recipeId == r then 1 else 0)
  {
    if f.recipeId == r {
      assert ForksOf(forks[id := f], r) == ForksOf(forks, r) + {id};
    } else {
      assert ForksOf(forks[id := f], r) == ForksOf(forks, r);
    }
  }

  /** Deleting a fork row never adds to any recipe's live forks. */
  lemma ForkCountsAfterDelete(forks: map<int, ForkedRecipe>, id: int, r: int)
    ensures |ForksOf(forks - {id}, r)| <= |ForksOf(forks, r)|
  {
    assert ForksOf(forks - {id}, r) <= ForksOf(forks, r);
    SubsetCardinality(ForksOf(forks - {id}, r), ForksOf(forks, r));
  }

  /** Rewriting a fork row without moving it to another source recipe keeps
      every recipe's live forks. */
  lemma ForkCountsAfterEdit(forks: map<int, ForkedRecipe>, id: int, f: ForkedRecipe, r: int)
    requires id in forks && forks[id].recipeId == f.recipeId
    ensures ForksOf(forks[id := f], r) == ForksOf(forks, r)
  {
  }

  lemma SubsetCardinality<T>(a: set<T>, b: set<T>)
    requires a <= b
    ensures |a| <= |b|
  {
    assert b == a + (b - a);
  }

  // ---------------------------------------------------------------------------
  // The store
  // ---------------------------------------------------------------------------

  class Db {
    var users: map<int, User>
    var follows: set<Follow>
    var recipes: map<int, Recipe>
    var forkedRecipes: map<int, ForkedRecipe>
    var ingredients: map<int, Ingredient>
    var recipeIngredients: map<int, RecipeIngredient>
    var comments: map<int, Comment>
    var likes: set<Like>
    var cookingHistory: map<int, CookingHistory>
    var wishlists: map<int, Wishlist>
    /** The next primary key the store hands out. */
    var nextId: int

    ghost predicate Valid()
      reads this
    {
      && nextId >= 1
      && UserTablesValid(users, follows, nextId)
      && RecipeTablesValid(recipes, forkedRecipes, likes, nextId)
      && CatalogValid(ingredients, recipeIngredients, nextId)
      && CommentsValid(comments, nextId)
      && ListsValid(cookingHistory, wishlists, nextId)
    }

    /** An empty database. */
    constructor ()
      ensures Valid()
      ensures users == map[] && follows == {} && recipes == map[] && forkedRecipes == map[]
      ensures ingredients == map[] && recipeIngredients == map[] && comments == map[]
      ensures likes == {} && cookingHistory == map[] && wishlists == map[]
    {
      users, follows, recipes, forkedRecipes := map[], {}, map[], map[];
      ingredients, recipeIngredients, comments := map[], map[], map[];
      likes, cookingHistory, wishlists := {}, map[], map[];
      nextId := 1;
    }
  }
}
