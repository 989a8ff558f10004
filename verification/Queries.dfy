/**
 The read side: like statuses, single and in batches, and the pages of a user's likes.
 */
module Queries {
  import opened Basics
  import opened Ledger
  import opened Pagination
  import opened Keys
  import opened Cache

  datatype BatchStatusResult = BatchStatusResult(item: Content, liked: bool, likedAt: Option<int>)

  type Likes = map<LikeKey, LikeRow>

  /** `get_like_status` */
  function StatusOf(likes: Likes, user: Uuid, item: Content): Option<int> {
    var key := LikeKey(user, item);
    if key in likes then Some(likes[key].createdAt) else None
  }

  /** The rows of one user. */
  function TableOf(likes: Likes, user: Uuid): set<LikeRow> {
    set key | key in likes && key.user == user :: likes[key]
  }

  /** Rows carry their own item and a unique id. */
  ghost predicate RowsOk(likes: Likes) {
    && (forall key :: key in likes ==> likes[key].item == key.item)
    && (forall j, k :: j in likes && k in likes && likes[j].id == likes[k].id ==> j == k)
  }

  lemma UserRowsUnique(likes: Likes, user: Uuid)
    requires RowsOk(likes)
    ensures UniqueIds(TableOf(likes, user))
  {
  }

  /** A cached status: a timestamp is "liked", the empty string "not liked", and a corrupt
      text counts as not liked. */
  function ParseStatus(value: Value): Option<int> {
    if value.StatusText? then value.likedAt else None
  }

  function SingleStatus(l1: Entries, redis: Entries, up: bool, likes: Likes, user: Uuid, item: Content): Option<int> {
    var cached := Find(l1, redis, up, StatusKey(user, item));
    if cached.Some? then ParseStatus(cached.value) else StatusOf(likes, user, item)
  }

  /** A stored text that is no status is answered rightly if and only if there is no like. */
  lemma CorruptStatusIff(l1: Entries, redis: Entries, up: bool, likes: Likes, user: Uuid, item: Content)
    requires var cached := Find(l1, redis, up, StatusKey(user, item)); cached.Some? && !cached.value.StatusText?
    ensures SingleStatus(l1, redis, up, likes, user, item) == StatusOf(likes, user, item)
       <==> LikeKey(user, item) !in likes
  {
  }

  predicate AnyAbsent(l1: Entries, redis: Entries, up: bool, user: Uuid, items: seq<Content>) {
    exists i :: 0 <= i < |items| && Find(l1, redis, up, StatusKey(user, items[i])).None?
  }

  function StatusFacts(likes: Likes, user: Uuid, items: seq<Content>): set<(string, Value)> {
    set item | item in items :: (StatusKey(user, item), StatusText(StatusOf(likes, user, item)))
  }

  function ResultOf(item: Content, at: Option<int>): BatchStatusResult {
    BatchStatusResult(item, at.Some?, at)
  }

  /** Positions with a cached value have its status; the others have the one in `stored`,
      once that is given. */
  ghost predicate Answered(results: seq<BatchStatusResult>, items: seq<Content>, cached: seq<Option<Value>>,
                           stored: seq<Option<int>>)
  {
    && |results| == |items| == |cached|
    && forall i :: 0 <= i < |items| ==>
         && (cached[i].Some? ==> results[i] == ResultOf(items[i], ParseStatus(cached[i].value)))
         && (cached[i].None? && i < |stored| ==> results[i] == ResultOf(items[i], stored[i]))
  }

  /** `missing` are the positions below n without a cached value. */
  ghost predicate Absent(missing: seq<nat>, cached: seq<Option<Value>>, n: nat)
    requires n <= |cached|
  {
    && (forall m :: 0 <= m < |missing| ==> missing[m] < n && cached[missing[m]].None?)
    && (forall i :: 0 <= i < n && cached[i].None? ==> i in missing)
  }

  /** What the first page answers, given what is stored under its key. */
  ghost function FirstPageAnswer(cached: Option<Value>, table: set<LikeRow>, filter: Option<string>, limit: int): Page
    requires UniqueIds(table)
  {
    var page := if cached.Some? && cached.value.PageText? then cached.value.page else FullFirstPage(table, filter);
    BuildPaginatedResponse(page, Clamp(limit, 1, MAX_LIMIT))
  }

  /** What is stored under the key of the first page once it has been served. */
  ghost function ServedPage(cached: Option<Value>, table: set<LikeRow>, filter: Option<string>): Value
    requires UniqueIds(table)
  {
    if cached.Some? && cached.value.PageText? then cached.value else PageText(FullFirstPage(table, filter))
  }

  ghost function PageFacts(table: set<LikeRow>, user: Uuid, filter: Option<string>): set<(string, Value)>
    requires UniqueIds(table)
  {
    {(PageKey(user, filter), PageText(FullFirstPage(table, filter)))}
  }

  class LikeQueryService {
    const cache: CacheManager

    constructor (cache: CacheManager)
      ensures this.cache == cache
    {
      this.cache := cache;
    }

    method GetStatus(user: Uuid, item: Content, likes: Likes, dbOk: bool, up: bool)
        returns (r: Result<Option<int>, AppError>)
      modifies cache
      ensures r == if dbOk || old(cache.Lookup(StatusKey(user, item), up)).Some?
        then Ok(SingleStatus(old(cache.l1), old(cache.redis), up, likes, user, item)) else Err(Database)
      ensures Grown(cache.l1, cache.redis, old(cache.l1), old(cache.redis), StatusFacts(likes, user, [item]))
    {
      var key := StatusKey(user, item);
      var cached := cache.Get(key, up);
      if cached.Some? {
        return Ok(ParseStatus(cached.value));
      }
      if !dbOk {
        return Err(Database);
      }
      var likedAt := StatusOf(likes, user, item);
      assert (key, StatusText(likedAt)) in StatusFacts(likes, user, [item]);
      cache.Set(key, StatusText(likedAt), up);
      return Ok(likedAt);
    }

    /** Cached positions get their status; the others a placeholder, to be filled later. */
    method FromCache(items: seq<Content>, cached: seq<Option<Value>>)
        returns (results: seq<BatchStatusResult>, missing: seq<nat>)
      requires |items| == |cached|
      ensures Answered(results, items, cached, [])
      ensures Absent(missing, cached, |cached|)
    {
      results, missing := [], [];
      for i := 0 to |items|
        invariant |results| == i && Answered(results, items[..i], cached[..i], [])
        invariant Absent(missing, cached, i)
      {
        if cached[i].Some? {
          results := results + [ResultOf(items[i], ParseStatus(cached[i].value))];
        } else {
          missing := missing + [i];
          results := results + [BatchStatusResult(items[i], false, None)];
        }
      }
      assert items[..|items|] == items && cached[..|items|] == cached;
    }

    /** Fill the placeholders from the database, and remember what to cache. */
    method FromDatabase(filled: seq<BatchStatusResult>, missing: seq<nat>, user: Uuid, items: seq<Content>,
                        ghost cached: seq<Option<Value>>, likes: Likes)
        returns (results: seq<BatchStatusResult>, entries: seq<(string, Value)>)
      requires |items| == |cached| && Answered(filled, items, cached, []) && Absent(missing, cached, |cached|)
      ensures Answered(results, items, cached,
                       seq(|items|, i requires 0 <= i < |items| => StatusOf(likes, user, items[i])))
      ensures forall e :: e in entries ==> e in StatusFacts(likes, user, items)
    {
      results, entries := filled, [];
      for n := 0 to |missing|
        invariant Answered(results, items, cached, [])
        invariant forall j :: j in missing[..n] ==> results[j] == ResultOf(items[j], StatusOf(likes, user, items[j]))
        invariant forall e :: e in entries ==> e in StatusFacts(likes, user, items)
      {
        var i := missing[n];
        var at := StatusOf(likes, user, items[i]);
        results := results[i := ResultOf(items[i], at)];
        entries := entries + [(StatusKey(user, items[i]), StatusText(at))];
      }
      assert missing[..|missing|] == missing;
    }

    /** Up to 100 items: each position gets what a single read of its item answers. */
    method BatchStatuses(user: Uuid, items: seq<Content>, likes: Likes, dbOk: bool, up: bool)
        returns (r: Result<seq<BatchStatusResult>, AppError>)
      modifies cache
      ensures r.Err? <==> |items| > 100 || (!dbOk && AnyAbsent(old(cache.l1), old(cache.redis), up, user, items))
      ensures r.Err? ==> r.error == if |items| > 100 then BatchTooLarge(|items|) else Database
      ensures r.Ok? ==>
        && |r.value| == |items|
        && forall i :: 0 <= i < |items| ==>
             r.value[i] == ResultOf(items[i], SingleStatus(old(cache.l1), old(cache.redis), up, likes, user, items[i]))
      ensures Grown(cache.l1, cache.redis, old(cache.l1), old(cache.redis), StatusFacts(likes, user, items))
    {
      if |items| > 100 {
        return Err(BatchTooLarge(|items|));
      }
      var keys := seq(|items|, i requires 0 <= i < |items| => StatusKey(user, items[i]));
      var cached := cache.MGet(keys, up);
      assert forall i :: 0 <= i < |items| ==>
        cached[i] == old(Find(cache.l1, cache.redis, up, StatusKey(user, items[i])));
      var filled, missing := FromCache(items, cached);
      if missing == [] {
        return Ok(filled);
      }
      if !dbOk {
        assert cached[missing[0]].None?;
        return Err(Database);
      }
      var results, entries := FromDatabase(filled, missing, user, items, cached, likes);
      ghost var l1, redis := cache.l1, cache.redis;
      PutGrown(l1, redis, entries, up, StatusFacts(likes, user, items));
      cache.SetMany(entries, up);
      GrownTwice(cache.l1, cache.redis, l1, redis, old(cache.l1), old(cache.redis), StatusFacts(likes, user, items));
      return Ok(results);
    }

    /** The first page is answered from the cached 100-row page, or fills it. */
    method FirstLikesPage(user: Uuid, filter: Option<string>, limit: int, likes: Likes, dbOk: bool, up: bool)
        returns (r: Result<Page, AppError>)
      requires UniqueIds(TableOf(likes, user))
      modifies cache
      ensures var cached := old(cache.Lookup(PageKey(user, filter), up));
        r == if dbOk || (cached.Some? && cached.value.PageText?)
             then Ok(FirstPageAnswer(cached, TableOf(likes, user), filter, limit)) else Err(Database)
      ensures r.Ok? ==>
        cache.l1 == old(cache.l1)[PageKey(user, filter) :=
          ServedPage(old(cache.Lookup(PageKey(user, filter), up)), TableOf(likes, user), filter)]
      ensures Grown(cache.l1, cache.redis, old(cache.l1), old(cache.redis),
                    PageFacts(TableOf(likes, user), user, filter))
    {
      var limit := Clamp(limit, 1, MAX_LIMIT);
      var key := PageKey(user, filter);
      ghost var facts := PageFacts(TableOf(likes, user), user, filter);
      var cached := cache.Get(key, up);
      if cached.Some? {
        HitGrown(old(cache.l1), old(cache.redis), up, key, facts);
      }
      if cached.Some? && cached.value.PageText? {
        return Ok(BuildPaginatedResponse(cached.value.page, limit));
      }
      if !dbOk {
        return Err(Database);
      }
      var page := FetchFullFirstPage(TableOf(likes, user), filter);
      SetGrown(cache.l1, cache.redis, up, key, PageText(page), facts);
      ghost var l1, redis := cache.l1, cache.redis;
      cache.Set(key, PageText(page), up);
      GrownTwice(cache.l1, cache.redis, l1, redis, old(cache.l1), old(cache.redis), facts);
      return Ok(BuildPaginatedResponse(page, limit));
    }

    /** Pages after the first go to the database. */
    method LaterLikesPage(user: Uuid, filter: Option<string>, cursor: Option<Cursor>, limit: int,
                          likes: Likes, dbOk: bool) returns (r: Result<Page, AppError>)
      requires UniqueIds(TableOf(likes, user))
      ensures cursor.None? ==> r == Err(InvalidCursor)
      ensures cursor.Some? ==>
        r == if dbOk then Ok(DirectPage(TableOf(likes, user), filter, cursor, limit)) else Err(Database)
    {
      if cursor.None? {
        return Err(InvalidCursor);
      }
      if !dbOk {
        return Err(Database);
      }
      var page := FetchPage(TableOf(likes, user), filter, cursor, limit);
      return Ok(page);
    }
  }
}
