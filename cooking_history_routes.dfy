/** The `/cooking-history` endpoints: a user marks a recipe as cooked (at
    most once), touches the mark, removes it, and lists their marks newest
    first.

    The list is the caller's rows in primary-key order (`EntriesFrom`),
    then sorted on `createdAt`, latest first (`SortNewestFirst`, an
    insertion sort that keeps rows with equal times in the order it got
    them). Whether "latest first" means "most recently cooked first"
    depends on how `createdAt` is filled in: see `Models.CreatedAt` and
    the lemmas at the end of this module. */
module CookingHistoryRoutes {
  import opened Outcomes
  import opened Models
  import opened Database
  import opened Auth

  /** A listed row with its primary key. */
  type Entry = (int, CookingHistory)

  /** The entry is `userId`'s mark on `recipeId`. */
  predicate MarkFor(h: CookingHistory, userId: int, recipeId: int) {
    h.userId == userId && h.recipeId == recipeId
  }

  // ---------------------------------------------------------------------------
  // The list
  // ---------------------------------------------------------------------------

  /** Ids strictly increase along the sequence. */
  predicate IdsIncreasing(s: seq<Entry>) {
    forall i, j :: 0 <= i < j < |s| ==> s[i].0 < s[j].0
  }

  /** No id occurs twice. */
  predicate IdsDistinct(s: seq<Entry>) {
    forall i, j :: 0 <= i < j < |s| ==> s[i].0 != s[j].0
  }

  /** `createdAt` never increases along the sequence. */
  predicate NewestFirst(s: seq<Entry>) {
    forall i, j :: 0 <= i < j < |s| ==> s[i].1.createdAt >= s[j].1.createdAt
  }

  /** `userId`'s rows with ids in [k, bound), in id order. */
  function EntriesFrom(history: map<int, CookingHistory>, userId: int, k: int, bound: int): (r: seq<Entry>)
    ensures forall e :: e in r <==> k <= e.0 < bound && e.0 in history && history[e.0] == e.1 && e.1.userId == userId
    ensures IdsIncreasing(r)
    decreases bound - k
  {
    if k >= bound then []
    else if k in history && history[k].userId == userId then [(k, history[k])] + EntriesFrom(history, userId, k + 1, bound)
    else EntriesFrom(history, userId, k + 1, bound)
  }

  /** Puts `x` before the first entry that is not later than it. */
  function InsertNewestFirst(x: Entry, s: seq<Entry>): (r: seq<Entry>)
    requires NewestFirst(s)
    ensures NewestFirst(r)
    ensures multiset(r) == multiset(s) + multiset{x}
    ensures r[0] == x || (s != [] && r[0] == s[0])
    decreases |s|
  {
    if s == [] || s[0].1.createdAt <= x.1.createdAt then
      [x] + s
    else
      var rest := InsertNewestFirst(x, s[1..]);
      assert s == [s[0]] + s[1..];
      assert rest[0].1.createdAt <= s[0].1.createdAt;
      [s[0]] + rest
  }

  /** `ORDER BY createdAt DESC`, as an insertion sort. */
  function SortNewestFirst(s: seq<Entry>): (r: seq<Entry>)
    ensures NewestFirst(r)
    ensures multiset(r) == multiset(s)
    decreases |s|
  {
    if s == [] then []
    else
      assert s == [s[0]] + s[1..];
      InsertNewestFirst(s[0], SortNewestFirst(s[1..]))
  }

  /** An entry occurs at most once in a sequence whose ids increase. */
  lemma {:induction false} IncreasingHasNoRepeats(s: seq<Entry>, x: Entry)
    requires IdsIncreasing(s)
    ensures multiset(s)[x] <= 1
    decreases |s|
  {
    if s != [] {
      assert s == [s[0]] + s[1..];
      IncreasingHasNoRepeats(s[1..], x);
      if s[0] == x {
        assert x !in s[1..];
      }
    }
  }

  /** Reordering a sequence without repeated ids repeats none. */
  lemma DistinctIdsKept(a: seq<Entry>, b: seq<Entry>)
    requires IdsIncreasing(a) && multiset(a) == multiset(b)
    ensures IdsDistinct(b)
  {
    forall i, j | 0 <= i < j < |b|
      ensures b[i].0 != b[j].0
    {
      if b[i].0 == b[j].0 {
        assert b[i] in multiset(a) && b[j] in multiset(a);
        var p :| 0 <= p < |a| && a[p] == b[i];
        var q :| 0 <= q < |a| && a[q] == b[j];
        assert p == q;
        assert b == b[..j] + b[j..];
        assert b[i] in b[..j] && b[j] in b[j..];
        assert multiset(b)[b[i]] == multiset(b[..j])[b[i]] + multiset(b[j..])[b[i]];
        IncreasingHasNoRepeats(a, b[i]);
        assert false;
      }
    }
  }

  /** `GET /cooking-history/`: the caller's rows, latest `createdAt` first.
      `bound` is the store's next id, above every key. */
  function GetUserCookingHistory(history: map<int, CookingHistory>, caller: Option<Identity>, bound: int): (r: Result<seq<Entry>>)
    requires Allocated(history.Keys, bound)
    ensures r.Failure? <==> caller.None?
    ensures r.Failure? ==> r.status == Unauthorized
    ensures r.Success? ==> forall e :: e in r.value <==> e.0 in history && history[e.0] == e.1 && e.1.userId == caller.value.id
    ensures r.Success? ==> IdsDistinct(r.value)
    ensures r.Success? ==> NewestFirst(r.value)
  {
    if caller.None? then Failure(Unauthorized)
    else
      var rows := EntriesFrom(history, caller.value.id, 1, bound);
      var sorted := SortNewestFirst(rows);
      DistinctIdsKept(rows, sorted);
      assert forall e :: e in sorted <==> e in multiset(rows);
      Success(sorted)
  }

  // ---------------------------------------------------------------------------
  // Handlers that write
  // ---------------------------------------------------------------------------

  /** `POST /cooking-history/`. The row is built without a `createdAt`, so
      the column default fills it in: the time the schema module was
      imported (`importTime`), not the time of the request (`now`). A caller
      without a user row makes the insert violate its foreign key
      (ServerError). */
  method AddCookingHistory(db: Db, caller: Option<Identity>, recipeId: int, importTime: Time, now: Time) returns (s: Status)
    requires db.Valid()
    modifies db`cookingHistory, db`nextId
    ensures db.Valid()
    ensures caller.None? ==> s == Unauthorized
    ensures caller.Some? && recipeId !in db.recipes ==> s == NotFound
    ensures caller.Some? && recipeId in db.recipes ==>
              (s == BadRequest <==> exists id :: id in old(db.cookingHistory) && MarkFor(old(db.cookingHistory)[id], caller.value.id, recipeId))
    ensures s == Ok <==>
              && caller.Some? && recipeId in db.recipes && caller.value.id in db.users
              && !exists id :: id in old(db.cookingHistory) && MarkFor(old(db.cookingHistory)[id], caller.value.id, recipeId)
    ensures s != Ok ==> db.cookingHistory == old(db.cookingHistory) && db.nextId == old(db.nextId)
    ensures s == Ok ==> old(db.nextId) !in old(db.cookingHistory) && db.nextId == old(db.nextId) + 1
    ensures s == Ok ==>
              db.cookingHistory == old(db.cookingHistory)[old(db.nextId) := CookingHistory(caller.value.id, recipeId, CreatedAtAsWritten(importTime, now), None)]
  {
    if caller.None? {
      return Unauthorized;
    }
    if recipeId !in db.recipes {
      return NotFound;
    }
    if exists id :: id in db.cookingHistory && MarkFor(db.cookingHistory[id], caller.value.id, recipeId) {
      return BadRequest;
    }
    if caller.value.id !in db.users {
      return ServerError;
    }
    var id := db.nextId;
    db.cookingHistory := db.cookingHistory[id := CookingHistory(caller.value.id, recipeId, CreatedAtAsWritten(importTime, now), None)];
    db.nextId := id + 1;
    s := Ok;
  }

  /** `POST /cooking-history/` as evidently intended: the same checks, but
      the row is stamped with the time of the request. */
  method AddCookingHistoryStampedAtInsert(db: Db, caller: Option<Identity>, recipeId: int, now: Time) returns (s: Status)
    requires db.Valid()
    modifies db`cookingHistory, db`nextId
    ensures db.Valid()
    ensures caller.None? ==> s == Unauthorized
    ensures caller.Some? && recipeId !in db.recipes ==> s == NotFound
    ensures caller.Some? && recipeId in db.recipes ==>
              (s == BadRequest <==> exists id :: id in old(db.cookingHistory) && MarkFor(old(db.cookingHistory)[id], caller.value.id, recipeId))
    ensures s == Ok <==>
              && caller.Some? && recipeId in db.recipes && caller.value.id in db.users
              && !exists id :: id in old(db.cookingHistory) && MarkFor(old(db.cookingHistory)[id], caller.value.id, recipeId)
    ensures s != Ok ==> db.cookingHistory == old(db.cookingHistory) && db.nextId == old(db.nextId)
    ensures s == Ok ==> old(db.nextId) !in old(db.cookingHistory) && db.nextId == old(db.nextId) + 1
    ensures s == Ok ==>
              db.cookingHistory == old(db.cookingHistory)[old(db.nextId) := CookingHistory(caller.value.id, recipeId, CreatedAt(now), None)]
  {
    if caller.None? {
      return Unauthorized;
    }
    if recipeId !in db.recipes {
      return NotFound;
    }
    if exists id :: id in db.cookingHistory && MarkFor(db.cookingHistory[id], caller.value.id, recipeId) {
      return BadRequest;
    }
    if caller.value.id !in db.users {
      return ServerError;
    }
    var id := db.nextId;
    db.cookingHistory := db.cookingHistory[id := CookingHistory(caller.value.id, recipeId, CreatedAt(now), None)];
    db.nextId := id + 1;
    s := Ok;
  }

  /** `PUT /cooking-history/{recipe_id}`: stamps `updatedAt` on the caller's
      mark for that recipe, and changes nothing else. */
  method UpdateCookingHistory(db: Db, caller: Option<Identity>, recipeId: int, now: Time) returns (s: Status)
    requires db.Valid()
    modifies db`cookingHistory
    ensures db.Valid()
    ensures caller.None? ==> s == Unauthorized
    ensures caller.Some? ==>
              (s == Ok <==> exists id :: id in old(db.cookingHistory) && MarkFor(old(db.cookingHistory)[id], caller.value.id, recipeId))
    ensures caller.Some? && s != Ok ==> s == NotFound
    ensures s != Ok ==> db.cookingHistory == old(db.cookingHistory)
    ensures s == Ok ==> db.cookingHistory.Keys == old(db.cookingHistory).Keys
    ensures s == Ok ==> forall id :: id in old(db.cookingHistory) ==>
              db.cookingHistory[id] == if MarkFor(old(db.cookingHistory)[id], caller.value.id, recipeId)
                                       then old(db.cookingHistory)[id].(updatedAt := Some(now))
                                       else old(db.cookingHistory)[id]
  {
    if caller.None? {
      return Unauthorized;
    }
    if !exists id :: id in db.cookingHistory && MarkFor(db.cookingHistory[id], caller.value.id, recipeId) {
      return NotFound;
    }
    var id :| id in db.cookingHistory && MarkFor(db.cookingHistory[id], caller.value.id, recipeId);
    db.cookingHistory := db.cookingHistory[id := db.cookingHistory[id].(updatedAt := Some(now))];
    s := Ok;
  }

  /** `DELETE /cooking-history/{recipe_id}`: removes the caller's mark for
      that recipe, and nothing else. */
  method DeleteCookingHistory(db: Db, caller: Option<Identity>, recipeId: int) returns (s: Status)
    requires db.Valid()
    modifies db`cookingHistory
    ensures db.Valid()
    ensures caller.None? ==> s == Unauthorized
    ensures caller.Some? ==>
              (s == Ok <==> exists id :: id in old(db.cookingHistory) && MarkFor(old(db.cookingHistory)[id], caller.value.id, recipeId))
    ensures caller.Some? && s != Ok ==> s == NotFound
    ensures s != Ok ==> db.cookingHistory == old(db.cookingHistory)
    ensures s == Ok ==> exists id :: id in old(db.cookingHistory) && db.cookingHistory == old(db.cookingHistory) - {id}
    ensures s == Ok ==>
              db.cookingHistory == Where(old(db.cookingHistory), (h: CookingHistory) => !MarkFor(h, caller.value.id, recipeId))
  {
    if caller.None? {
      return Unauthorized;
    }
    if !exists id :: id in db.cookingHistory && MarkFor(db.cookingHistory[id], caller.value.id, recipeId) {
      return NotFound;
    }
    var id :| id in db.cookingHistory && MarkFor(db.cookingHistory[id], caller.value.id, recipeId);
    ghost var rest := Where(db.cookingHistory, (h: CookingHistory) => !MarkFor(h, caller.value.id, recipeId));
    forall j | j in db.cookingHistory && j != id
      ensures !MarkFor(db.cookingHistory[j], caller.value.id, recipeId)
    {
      assert OneHistoryPerRecipe(db.cookingHistory);
    }
    assert rest.Keys == (db.cookingHistory - {id}).Keys;
    db.cookingHistory := db.cookingHistory - {id};
    s := Ok;
  }

  // ---------------------------------------------------------------------------
  // What the ordering means
  // ---------------------------------------------------------------------------

  /** Two marks by one user on two recipes, stored in that order, with
      the given `createdAt` values. */
  function TwoMarks(userId: int, r1: int, r2: int, c1: Time, c2: Time): map<int, CookingHistory> {
    map[1 := CookingHistory(userId, r1, c1, None), 2 := CookingHistory(userId, r2, c2, None)]
  }

  /** With the schema's default as written, both marks get the import time,
      so the list cannot tell them apart and shows the OLDER mark first. */
  lemma ListAsWrittenShowsOlderFirst(caller: Identity, r1: int, r2: int, importTime: Time, t1: Time, t2: Time)
    requires t1 < t2
    ensures var h := TwoMarks(caller.id, r1, r2, CreatedAtAsWritten(importTime, t1), CreatedAtAsWritten(importTime, t2));
            GetUserCookingHistory(h, Some(caller), 3).value == [(1, h[1]), (2, h[2])]
  {
    var h := TwoMarks(caller.id, r1, r2, CreatedAtAsWritten(importTime, t1), CreatedAtAsWritten(importTime, t2));
    var rows := EntriesFrom(h, caller.id, 1, 3);
    assert rows == [(1, h[1]), (2, h[2])];
    assert rows[1..] == [(2, h[2])];
    assert SortNewestFirst(rows[1..]) == [(2, h[2])];
    assert InsertNewestFirst((1, h[1]), [(2, h[2])]) == rows;
  }

  /** With the clock read at insert time, the later mark comes first. */
  lemma ListCorrectedShowsNewerFirst(caller: Identity, r1: int, r2: int, t1: Time, t2: Time)
    requires t1 < t2
    ensures var h := TwoMarks(caller.id, r1, r2, CreatedAt(t1), CreatedAt(t2));
            GetUserCookingHistory(h, Some(caller), 3).value == [(2, h[2]), (1, h[1])]
  {
    var h := TwoMarks(caller.id, r1, r2, CreatedAt(t1), CreatedAt(t2));
    var rows := EntriesFrom(h, caller.id, 1, 3);
    assert rows == [(1, h[1]), (2, h[2])];
    assert rows[1..] == [(2, h[2])];
    assert SortNewestFirst(rows[1..]) == [(2, h[2])];
    assert InsertNewestFirst((1, h[1]), [(2, h[2])]) == [(2, h[2]), (1, h[1])];
  }

  /** Whenever later rows carry later times, as they do when each row is
      stamped with its insert time by a clock that moves forward, the list
      is in reverse insertion order: most recently cooked first. */
  lemma ListNewestFirstWhenStampedAtInsert(history: map<int, CookingHistory>, caller: Identity, bound: int)
    requires Allocated(history.Keys, bound)
    requires forall a, b :: a in history && b in history && a < b ==> history[a].createdAt < history[b].createdAt
    ensures var s := GetUserCookingHistory(history, Some(caller), bound).value;
            forall i, j :: 0 <= i < j < |s| ==> s[i].0 > s[j].0
  {
    var s := GetUserCookingHistory(history, Some(caller), bound).value;
    forall i, j | 0 <= i < j < |s|
      ensures s[i].0 > s[j].0
    {
      assert s[i] in s && s[j] in s;
    }
  }

  /** Two marks made one after the other by the handler as written carry the
      same `createdAt`, however far apart the requests are. */
  method MarksAsWrittenShareStamp(db: Db, caller: Identity, r1: int, r2: int, importTime: Time, t1: Time, t2: Time)
    returns (s1: Status, s2: Status, k1: int, k2: int)
    requires db.Valid()
    requires t1 < t2
    modifies db`cookingHistory, db`nextId
    ensures db.Valid()
    ensures s1 == Ok && s2 == Ok ==>
              && k1 < k2 && k1 in db.cookingHistory && k2 in db.cookingHistory
              && db.cookingHistory[k1].createdAt == db.cookingHistory[k2].createdAt == importTime
  {
    k1 := db.nextId;
    s1 := AddCookingHistory(db, Some(caller), r1, importTime, t1);
    k2 := db.nextId;
    s2 := AddCookingHistory(db, Some(caller), r2, importTime, t2);
  }

  /** With the row stamped at insert time, the later of two marks carries
      the later `createdAt`. */
  method MarksStampedAtInsertOrdered(db: Db, caller: Identity, r1: int, r2: int, t1: Time, t2: Time)
    returns (s1: Status, s2: Status, k1: int, k2: int)
    requires db.Valid()
    requires t1 < t2
    modifies db`cookingHistory, db`nextId
    ensures db.Valid()
    ensures s1 == Ok && s2 == Ok ==>
              && k1 < k2 && k1 in db.cookingHistory && k2 in db.cookingHistory
              && db.cookingHistory[k1].createdAt < db.cookingHistory[k2].createdAt
  {
    k1 := db.nextId;
    s1 := AddCookingHistoryStampedAtInsert(db, Some(caller), r1, t1);
    k2 := db.nextId;
    s2 := AddCookingHistoryStampedAtInsert(db, Some(caller), r2, t2);
  }
}
