/** The `/comments` endpoints: flat comment lists per recipe, a comment with
    its nested replies, and adding, editing and deleting one's own comment.

    A reply's parent must already exist on the same recipe when the reply
    is added, so a reply always has a larger id than its parent and, while
    the parent is there, the same recipe (`Database.CommentsValid`). The
    first fact is what makes the reply tree finite. */
module CommentRoutes {
  import opened Outcomes
  import opened Models
  import opened Database
  import opened Auth

  /** A node of the reply tree: a comment and the replies to it. */
  datatype Reply = Reply(id: int, userId: int, comment: string, replies: seq<Reply>)

  /** The node for comment `t.id`: its fields are that row's, its replies are
      in id order, and they are exactly the comments whose parent is
      `t.id`, each with its own replies below it. */
  ghost predicate IsThread(comments: map<int, Comment>, t: Reply)
    decreases t
  {
    && t.id in comments
    && t.userId == comments[t.id].userId
    && t.comment == comments[t.id].comment
    && (forall i, j :: 0 <= i < j < |t.replies| ==> t.replies[i].id < t.replies[j].id)
    && (forall c :: c in comments && comments[c].parentCommentId == Some(t.id) <==> c in IdsOf(t.replies))
    && (forall i :: 0 <= i < |t.replies| ==> IsThread(comments, t.replies[i]))
  }

  /** The ids of a list of nodes. */
  function IdsOf(rs: seq<Reply>): (ids: set<int>)
    ensures forall c :: c in ids <==> exists i :: 0 <= i < |rs| && rs[i].id == c
  {
    set i | 0 <= i < |rs| :: rs[i].id
  }

  lemma IdsOfCons(t: Reply, rest: seq<Reply>)
    ensures IdsOf([t] + rest) == {t.id} + IdsOf(rest)
  {
    assert ([t] + rest)[0] == t;
    forall c | c in IdsOf(rest)
      ensures c in IdsOf([t] + rest)
    {
      var i :| 0 <= i < |rest| && rest[i].id == c;
      assert ([t] + rest)[i + 1] == rest[i];
    }
    forall c | c in IdsOf([t] + rest) && c != t.id
      ensures c in IdsOf(rest)
    {
      var i :| 0 <= i < |[t] + rest| && ([t] + rest)[i].id == c;
      assert rest[i - 1] == ([t] + rest)[i];
    }
  }

  /** Every node of the tree is a comment on `recipeId`. */
  ghost predicate ThreadOnRecipe(comments: map<int, Comment>, t: Reply, recipeId: int)
    decreases t
  {
    && t.id in comments
    && comments[t.id].recipeId == recipeId
    && (forall i :: 0 <= i < |t.replies| ==> ThreadOnRecipe(comments, t.replies[i], recipeId))
  }

  // ---------------------------------------------------------------------------
  // Queries
  // ---------------------------------------------------------------------------

  /** `GET /comments/{recipe_id}`: the recipe's comments, replies included;
      NotFound when there are none. */
  function GetAllComments(comments: map<int, Comment>, recipeId: int): (r: Result<map<int, Comment>>)
    ensures r.Failure? <==> forall c :: c in comments ==> comments[c].recipeId != recipeId
    ensures r.Failure? ==> r.status == NotFound
    ensures r.Success? ==> forall c :: c in r.value <==> c in comments && comments[c].recipeId == recipeId
    ensures r.Success? ==> forall c :: c in r.value ==> r.value[c] == comments[c]
  {
    if forall c :: c in comments ==> comments[c].recipeId != recipeId then Failure(NotFound)
    else Success(Where(comments, (x: Comment) => x.recipeId == recipeId))
  }

  /** The tree under comment `id`, built from the rows below `bound`. */
  function Thread(comments: map<int, Comment>, bound: int, id: int): (t: Reply)
    requires RepliesAfterParents(comments) && Allocated(comments.Keys, bound)
    requires id in comments
    ensures t.id == id && IsThread(comments, t)
    decreases bound - id, 1
  {
    var kids := RepliesFrom(comments, bound, id, id + 1);
    Reply(id, comments[id].userId, comments[id].comment, kids)
  }

  /** The trees under the replies to `parent` whose ids are in [k, bound),
      in id order: the query for the children of one node. */
  function RepliesFrom(comments: map<int, Comment>, bound: int, parent: int, k: int): (r: seq<Reply>)
    requires RepliesAfterParents(comments) && Allocated(comments.Keys, bound)
    requires parent < k
    ensures forall i :: 0 <= i < |r| ==> k <= r[i].id && IsThread(comments, r[i])
    ensures forall i, j :: 0 <= i < j < |r| ==> r[i].id < r[j].id
    ensures forall c :: c in comments && c >= k && comments[c].parentCommentId == Some(parent) <==> c in IdsOf(r)
    decreases bound - k, 2
  {
    if k >= bound then []
    else
      var rest := RepliesFrom(comments, bound, parent, k + 1);
      if k in comments && comments[k].parentCommentId == Some(parent) then
        var t := Thread(comments, bound, k);
        ConsReplies(comments, t, rest);
        [t] + rest
      else
        rest
  }

  /** Putting the tree of reply `t` in front of the trees of the later
      replies keeps the list in id order and adds exactly `t.id`. */
  lemma ConsReplies(comments: map<int, Comment>, t: Reply, rest: seq<Reply>)
    requires IsThread(comments, t)
    requires forall i :: 0 <= i < |rest| ==> t.id < rest[i].id && IsThread(comments, rest[i])
    requires forall i, j :: 0 <= i < j < |rest| ==> rest[i].id < rest[j].id
    ensures forall i :: 0 <= i < |[t] + rest| ==> t.id <= ([t] + rest)[i].id && IsThread(comments, ([t] + rest)[i])
    ensures forall i, j :: 0 <= i < j < |[t] + rest| ==> ([t] + rest)[i].id < ([t] + rest)[j].id
    ensures IdsOf([t] + rest) == {t.id} + IdsOf(rest)
  {
    var r := [t] + rest;
    assert forall i :: 0 < i < |r| ==> r[i] == rest[i - 1];
    IdsOfCons(t, rest);
  }

  /** Every comment in a tree is on the root's recipe, although the reply
      query does not filter on the recipe. */
  lemma {:induction false} ThreadStaysOnRecipe(comments: map<int, Comment>, t: Reply)
    requires RepliesShareRecipe(comments) && IsThread(comments, t)
    ensures ThreadOnRecipe(comments, t, comments[t.id].recipeId)
    decreases t
  {
    forall i | 0 <= i < |t.replies|
      ensures ThreadOnRecipe(comments, t.replies[i], comments[t.id].recipeId)
    {
      var child := t.replies[i];
      assert child.id in IdsOf(t.replies);
      ThreadStaysOnRecipe(comments, child);
    }
  }

  /** `GET /comments/{recipe_id}/{comment_id}`: a one-element list holding the
      comment and its replies, nested; NotFound unless the comment is on that
      recipe. `bound` is the store's next id. */
  function GetCommentThread(comments: map<int, Comment>, bound: int, recipeId: int, commentId: int): (r: Result<seq<Reply>>)
    requires CommentsValid(comments, bound)
    ensures r.Failure? <==> !(commentId in comments && comments[commentId].recipeId == recipeId)
    ensures r.Failure? ==> r.status == NotFound
    ensures r.Success? ==> |r.value| == 1 && r.value[0].id == commentId && IsThread(comments, r.value[0])
    ensures r.Success? ==> ThreadOnRecipe(comments, r.value[0], recipeId)
  {
    if commentId in comments && comments[commentId].recipeId == recipeId then
      var t := Thread(comments, bound, commentId);
      ThreadStaysOnRecipe(comments, t);
      Success([t])
    else
      Failure(NotFound)
  }

  // ---------------------------------------------------------------------------
  // Handlers that write
  // ---------------------------------------------------------------------------

  /** The parent named by a request is rejected: it is given and non-zero,
      and is not a comment on the recipe. */
  predicate ParentMissing(comments: map<int, Comment>, recipeId: int, parent: Option<int>) {
    parent.Some? && parent.value != 0 &&
    !(parent.value in comments && comments[parent.value].recipeId == recipeId)
  }

  /** `POST /comments/{recipe_id}`. A parent id of 0 skips the parent check
      but is stored, and a caller without a user row cannot be stored
      either: both make the insert violate a foreign key (ServerError). */
  method AddComment(db: Db, caller: Option<Identity>, recipeId: int, text: string, parent: Option<int>) returns (s: Status)
    requires db.Valid()
    modifies db`comments, db`nextId
    ensures db.Valid()
    ensures caller.None? ==> s == Unauthorized
    ensures caller.Some? && recipeId !in db.recipes ==> s == NotFound
    ensures caller.Some? && recipeId in db.recipes ==>
              (s == NotFound <==> ParentMissing(old(db.comments), recipeId, parent))
    ensures s == Ok <==>
              && caller.Some? && recipeId in db.recipes
              && !ParentMissing(old(db.comments), recipeId, parent)
              && parent != Some(0) && caller.value.id in db.users
    ensures s != Ok ==> db.comments == old(db.comments) && db.nextId == old(db.nextId)
    ensures s == Ok ==> old(db.nextId) !in old(db.comments) && db.nextId == old(db.nextId) + 1
    ensures s == Ok ==> db.comments == old(db.comments)[old(db.nextId) := Comment(caller.value.id, text, recipeId, parent)]
  {
    if caller.None? {
      return Unauthorized;
    }
    if recipeId !in db.recipes {
      return NotFound;
    }
    if ParentMissing(db.comments, recipeId, parent) {
      return NotFound;
    }
    if parent == Some(0) || caller.value.id !in db.users {
      return ServerError;
    }
    var id := db.nextId;
    db.comments := db.comments[id := Comment(caller.value.id, text, recipeId, parent)];
    db.nextId := id + 1;
    s := Ok;
  }

  /** The comment exists and was written by `userId`. */
  predicate OwnsComment(comments: map<int, Comment>, userId: int, commentId: int) {
    commentId in comments && comments[commentId].userId == userId
  }

  /** `PUT /comments/{recipe_id}/{comment_id}`: replaces the text of one of
      the caller's comments; the recipe in the path is not looked at. */
  method UpdateComment(db: Db, caller: Option<Identity>, recipeId: int, commentId: int, text: string) returns (s: Status)
    requires db.Valid()
    modifies db`comments
    ensures db.Valid()
    ensures caller.None? ==> s == Unauthorized
    ensures caller.Some? ==> (s == Ok <==> OwnsComment(old(db.comments), caller.value.id, commentId))
    ensures caller.Some? && s != Ok ==> s == NotFound
    ensures s != Ok ==> db.comments == old(db.comments)
    ensures s == Ok ==> db.comments == old(db.comments)[commentId := old(db.comments)[commentId].(comment := text)]
  {
    if caller.None? {
      return Unauthorized;
    }
    if !OwnsComment(db.comments, caller.value.id, commentId) {
      return NotFound;
    }
    db.comments := db.comments[commentId := db.comments[commentId].(comment := text)];
    s := Ok;
  }

  /** `DELETE /comments/{recipe_id}/{comment_id}`: NotFound for a missing
      comment, Forbidden for somebody else's; the recipe in the path is not
      looked at. */
  method DeleteComment(db: Db, caller: Option<Identity>, recipeId: int, commentId: int) returns (s: Status)
    requires db.Valid()
    modifies db`comments
    ensures db.Valid()
    ensures caller.None? ==> s == Unauthorized
    ensures caller.Some? && commentId !in old(db.comments) ==> s == NotFound
    ensures caller.Some? && commentId in old(db.comments) && old(db.comments)[commentId].userId != caller.value.id ==>
              s == Forbidden
    ensures s == Ok <==> caller.Some? && OwnsComment(old(db.comments), caller.value.id, commentId)
    ensures s != Ok ==> db.comments == old(db.comments)
    ensures s == Ok ==> db.comments == old(db.comments) - {commentId}
  {
    if caller.None? {
      return Unauthorized;
    }
    if commentId !in db.comments {
      return NotFound;
    }
    if db.comments[commentId].userId != caller.value.id {
      return Forbidden;
    }
    db.comments := db.comments - {commentId};
    s := Ok;
  }
}
