/**
 The likes service of one process with its caches: commands and reads over the database, the
 two-level cache and the content circuit breaker.
 */
module Service {
  import opened Basics
  import opened Ledger
  import opened Repository
  import opened Pagination
  import opened Keys
  import opened Cache
  import opened CountCache
  import opened Queries
  import opened Coherence
  import opened CircuitBreaker
  import opened DirectService
  import opened Commands

  /** The service without a cache, and what the two layers of the cache hold. */
  datatype World = World(direct: Direct, l1: Entries, redis: Entries)

  function TablesOf(d: Direct): Tables {
    Tables(d.likes, d.counts)
  }

  function CachedCounts(w: World, items: seq<Content>): seq<BatchCountResult> {
    seq(|items|, i requires 0 <= i < |items| =>
      BatchCountResult(items[i], SingleCount(w.l1, w.redis, true, w.direct.counts, items[i])))
  }

  function CachedStatuses(w: World, user: Uuid, items: seq<Content>): seq<BatchStatusResult> {
    seq(|items|, i requires 0 <= i < |items| =>
      ResultOf(items[i], SingleStatus(w.l1, w.redis, true, w.direct.likes, user, items[i])))
  }

  /** The entries that a read may add: what the database says now. */
  ghost function FactsOf(d: Direct, op: Operation): set<(string, Value)>
    requires DirectOk(d)
  {
    match op
    case CountOp(item) => CountFacts(d.counts, [item])
    case CountsOp(items) => CountFacts(d.counts, items)
    case StatusOp(user, item) => StatusFacts(d.likes, user, [item])
    case StatusesOp(user, items) => StatusFacts(d.likes, user, items)
    case PageOp(user, filter, _) =>
      UserRowsUnique(d.likes, user);
      PageFacts(TableOf(d.likes, user), user, filter)
    case _ => {}
  }

  /** What the service answers from what its caches hold. */
  ghost function CachedAnswer(config: Config, w: World, op: Operation): Answer
    requires DirectOk(w.direct)
  {
    match op
    case CountOp(item) => CountAnswer(Ok(SingleCount(w.l1, w.redis, true, w.direct.counts, item)))
    case CountsOp(items) =>
      CountsAnswer(if |items| > 100 then Err(BatchTooLarge(|items|)) else Ok(CachedCounts(w, items)))
    case StatusOp(user, item) => StatusAnswer(Ok(SingleStatus(w.l1, w.redis, true, w.direct.likes, user, item)))
    case StatusesOp(user, items) =>
      StatusesAnswer(if |items| > 100 then Err(BatchTooLarge(|items|)) else Ok(CachedStatuses(w, user, items)))
    case PageOp(user, filter, limit) =>
      UserRowsUnique(w.direct.likes, user);
      PageAnswer(Ok(FirstPageAnswer(Find(w.l1, w.redis, true, PageKey(user, filter)),
                                    TableOf(w.direct.likes, user), filter, limit)))
    case _ => DirectAnswer(config, w.direct, op)
  }

  /** A first page that was served is in L1 afterwards. */
  ghost predicate PageKept(w: World, w': World, user: Uuid, filter: Option<string>)
    requires DirectOk(w.direct)
  {
    UserRowsUnique(w.direct.likes, user);
    w'.l1 == w.l1[PageKey(user, filter) :=
      ServedPage(Find(w.l1, w.redis, true, PageKey(user, filter)), TableOf(w.direct.likes, user), filter)]
  }

  /** What a command leaves of a layer. */
  ghost predicate CommandKeeps(config: Config, d: Direct, op: Ledger.Op, key: LikeKey, now: int, check: Check,
                               m: Entries, m': Entries)
    requires DirectOk(d)
  {
    if CheckError(config, d.breaker, check).Some? then
      forall k :: k in m' && !Foreign(k) ==> k in m && m'[k] == m[k]
    else
      var after := AfterCommand(config, d, op, key, now, check);
      WrittenBy(m, m', TablesOf(after), key, op.Unlike? || CommandOutcome(d, op, key, now).Inserted?)
  }

  /** What the two layers may hold after an operation. */
  ghost predicate CachesAfter(config: Config, w: World, op: Operation, w': World)
    requires DirectOk(w.direct)
  {
    match op
    case LikeOp(user, item, now, check) =>
      && CommandKeeps(config, w.direct, Like, LikeKey(user, item), now, check, w.l1, w'.l1)
      && CommandKeeps(config, w.direct, Like, LikeKey(user, item), now, check, w.redis, w'.redis)
    case UnlikeOp(user, item, now, check) =>
      && CommandKeeps(config, w.direct, Unlike, LikeKey(user, item), now, check, w.l1, w'.l1)
      && CommandKeeps(config, w.direct, Unlike, LikeKey(user, item), now, check, w.redis, w'.redis)
    case _ =>
      && Grown(w'.l1, w'.redis, w.l1, w.redis, FactsOf(w.direct, op))
      && (op.PageOp? ==> PageKept(w, w', op.user, op.filter))
  }

  /** One operation of the service with its caches. */
  ghost predicate CachedStep(config: Config, w: World, op: Operation, answer: Answer, w': World)
    requires DirectOk(w.direct)
  {
    && w'.direct == DirectNext(config, w.direct, op)
    && answer == CachedAnswer(config, w, op)
    && CachesAfter(config, w, op, w')
  }

  /** A layer after the count and the status of a command were written to it. */
  function Noted(m: Entries, after: Tables, key: LikeKey): Entries {
    m[CountKey(key.item) := CountText(Count(after.counts, key.item))]
     [StatusKey(key.user, key.item) := StatusText(StatusOf(after.likes, key.user, key.item))]
  }

  lemma NotedIsWritten(m: Entries, m': Entries, after: Tables, key: LikeKey, purged: bool)
    requires forall k :: k in m' ==> k in Noted(m, after, key) && m'[k] == Noted(m, after, key)[k]
    requires purged ==> PageKey(key.user, None) !in m' && PageKey(key.user, Some(key.item.contentType)) !in m'
    ensures WrittenBy(m, m', after, key, purged)
  {
    KeysDisjoint(key.item, key.user, key.item, key.user, None);
  }

  lemma CommandIsStep(config: Config, w: World, op: Operation, answer: Answer, w': World)
    requires DirectOk(w.direct) && IsCommand(op)
    requires w'.direct == DirectNext(config, w.direct, op)
    requires answer == DirectAnswer(config, w.direct, op)
    requires CachesAfter(config, w, op, w')
    ensures CachedStep(config, w, op, answer, w')
  {
  }

  /** A run of operations that do not overlap. */
  ghost predicate IsCachedRun(config: Config, worlds: seq<World>, ops: seq<Operation>, answers: seq<Answer>) {
    && |worlds| == |ops| + 1 && |answers| == |ops|
    && (forall i :: 0 <= i < |worlds| ==> DirectOk(worlds[i].direct))
    && (forall i :: 0 <= i < |ops| ==> CachedStep(config, worlds[i], ops[i], answers[i], worlds[i + 1]))
  }

  class LikesService {
    const config: Config
    const db: LikesDatabase
    const cache: CacheManager
    const countCache: LikeCountCache
    const queries: LikeQueryService
    const breaker: Breaker
    var events: seq<LikeEvent>

    ghost function Value(): Direct
      reads this, db, breaker
    {
      Direct(db.likes, db.counts, db.nextId, breaker.Value(), events)
    }

    ghost function TheWorld(): World
      reads this, db, breaker, cache
    {
      World(Value(), cache.l1, cache.redis)
    }

    ghost predicate Valid()
      reads this, db, breaker
    {
      && countCache.cache == cache && queries.cache == cache && breaker.config == config
      && DirectOk(Value())
    }

    constructor (config: Config)
      ensures Valid() && this.config == config
      ensures TheWorld() == World(Direct(map[], map[], 1, CircuitBreaker.Initial, []), map[], map[])
      ensures fresh(db) && fresh(cache) && fresh(countCache) && fresh(queries) && fresh(breaker)
    {
      this.config := config;
      db := new LikesDatabase();
      var cache := new CacheManager();
      this.cache := cache;
      countCache := new LikeCountCache(cache);
      queries := new LikeQueryService(cache);
      breaker := new Breaker(config);
      events := [];
    }

    /** Validation is gated by the breaker; a cached answer does not report to it. */
    method ValidateContent(check: Check) returns (error: Option<AppError>)
      requires breaker.config == config
      modifies breaker
      ensures breaker.Value() == AfterCheck(config, old(breaker.Value()), check)
      ensures error == CheckError(config, old(breaker.Value()), check)
    {
      var allowed := breaker.AllowRequest(check.askedAt);
      if !allowed {
        return Some(DependencyUnavailable);
      }
      match check.answer {
        case Remote(valid) =>
          breaker.RecordSuccess(check.answeredAt);
          return if valid then None else Some(ContentNotFound);
        case Cached(valid) =>
          return if valid then None else Some(ContentNotFound);
        case Failed =>
          breaker.RecordFailure(check.failedAt, check.answeredAt);
          return Some(ContentApiFailed);
      }
    }

    method UpdateStatusCache(user: Uuid, item: Content, likedAt: Option<int>)
      modifies cache
      ensures cache.l1 == old(cache.l1)[StatusKey(user, item) := StatusText(likedAt)]
      ensures cache.redis == old(cache.redis)[StatusKey(user, item) := StatusText(likedAt)]
    {
      cache.Set(StatusKey(user, item), StatusText(likedAt), true);
    }

    /** The prefix invalidation of L1 is best effort. The two keys leave L1 for sure, and Redis
        if it is reachable. */
    method InvalidateUserLikes(user: Uuid, contentType: string, dropped: set<string>, up: bool)
      modifies cache
      ensures forall k :: k in cache.l1 ==>
        && k in old(cache.l1) && cache.l1[k] == old(cache.l1)[k]
        && k != PageKey(user, None) && k != PageKey(user, Some(contentType))
      ensures cache.redis ==
        if up then old(cache.redis) - {PageKey(user, None), PageKey(user, Some(contentType))} else old(cache.redis)
    {
      cache.InvalidateL1Prefix("ul:" + user + ":", dropped);
      var keyAll := "ul:" + user + ":" + "_";
      var keyTyped := "ul:" + user + ":" + contentType;
      cache.DelMany([keyAll, keyTyped], up);
      assert (set k | k in [keyAll, keyTyped]) == {keyAll, keyTyped};
    }

    method DoLike(user: Uuid, item: Content, now: int, check: Check, dropped: set<string>)
        returns (r: Result<ActionResponse, AppError>)
      requires Valid()
      modifies this`events, db, breaker, cache
      ensures Valid()
      ensures Value() == old(AfterCommand(config, Value(), Like, LikeKey(user, item), now, check))
      ensures ActionAnswer(r) == old(CommandAnswer(config, Value(), Like, LikeKey(user, item), now, check))
      ensures LikeFits(config, old(Value()), LikeKey(user, item), now, check, ActionAnswer(r), Value())
      ensures CommandKeeps(config, old(Value()), Like, LikeKey(user, item), now, check, old(cache.l1), cache.l1)
      ensures CommandKeeps(config, old(Value()), Like, LikeKey(user, item), now, check, old(cache.redis), cache.redis)
    {
      var key := LikeKey(user, item);
      ghost var before, l1, redis := Value(), cache.l1, cache.redis;
      LikeMeans(config, before, user, item, now, check);
      var error := ValidateContent(check);
      if error.Some? {
        return Err(error.value);
      }
      LikeKeeps(before, key, now);
      var outcome := db.InsertLike(key, now);
      countCache.WriteCount(item, outcome.count, true);
      UpdateStatusCache(user, item, Some(outcome.row.createdAt));
      if outcome.Inserted? {
        InvalidateUserLikes(user, item.contentType, dropped, true);
        events := events + [Liked(user, item, outcome.count, outcome.row.createdAt)];
      }
      NotedIsWritten(l1, cache.l1, TablesOf(Value()), key, outcome.Inserted?);
      NotedIsWritten(redis, cache.redis, TablesOf(Value()), key, outcome.Inserted?);
      return Ok(ActionResponse(true, Some(!outcome.Inserted?), None, outcome.count, Some(outcome.row.createdAt)));
    }

    method DoUnlike(user: Uuid, item: Content, now: int, check: Check, dropped: set<string>)
        returns (r: Result<ActionResponse, AppError>)
      requires Valid()
      modifies this`events, db, breaker, cache
      ensures Valid()
      ensures Value() == old(AfterCommand(config, Value(), Unlike, LikeKey(user, item), now, check))
      ensures ActionAnswer(r) == old(CommandAnswer(config, Value(), Unlike, LikeKey(user, item), now, check))
      ensures UnlikeFits(config, old(Value()), LikeKey(user, item), now, check, ActionAnswer(r), Value())
      ensures CommandKeeps(config, old(Value()), Unlike, LikeKey(user, item), now, check, old(cache.l1), cache.l1)
      ensures CommandKeeps(config, old(Value()), Unlike, LikeKey(user, item), now, check, old(cache.redis), cache.redis)
    {
      var key := LikeKey(user, item);
      ghost var before, l1, redis := Value(), cache.l1, cache.redis;
      UnlikeMeans(config, before, user, item, now, check);
      var error := ValidateContent(check);
      if error.Some? {
        return Err(error.value);
      }
      UnlikeKeeps(before, key, now);
      var outcome := db.DeleteLike(key, now);
      countCache.WriteCount(item, outcome.count, true);
      UpdateStatusCache(user, item, None);
      InvalidateUserLikes(user, item.contentType, dropped, true);
      if outcome.Deleted? {
        events := events + [Unliked(user, item, outcome.count, now)];
      }
      NotedIsWritten(l1, cache.l1, TablesOf(Value()), key, true);
      NotedIsWritten(redis, cache.redis, TablesOf(Value()), key, true);
      return Ok(ActionResponse(false, None, Some(outcome.Deleted?), outcome.count, None));
    }

    method ReadCount(item: Content) returns (r: Result<int, AppError>)
      requires Valid()
      modifies countCache, cache
      ensures Valid()
      ensures CachedStep(config, old(TheWorld()), CountOp(item), CountAnswer(r), TheWorld())
    {
      r := countCache.GetCountValue(item, db.counts, true, true);
    }

    method ReadCounts(items: seq<Content>) returns (r: Result<seq<BatchCountResult>, AppError>)
      requires Valid()
      modifies countCache, cache
      ensures Valid()
      ensures CachedStep(config, old(TheWorld()), CountsOp(items), CountsAnswer(r), TheWorld())
    {
      ghost var w := TheWorld();
      r := countCache.BatchCounts(items, db.counts, Outages(false, {}), true);
      if r.Ok? {
        assert r.value == CachedCounts(w, items);
      }
    }

    method ReadStatus(user: Uuid, item: Content) returns (r: Result<Option<int>, AppError>)
      requires Valid()
      modifies cache
      ensures Valid()
      ensures CachedStep(config, old(TheWorld()), StatusOp(user, item), StatusAnswer(r), TheWorld())
    {
      r := queries.GetStatus(user, item, db.likes, true, true);
    }

    method ReadStatuses(user: Uuid, items: seq<Content>) returns (r: Result<seq<BatchStatusResult>, AppError>)
      requires Valid()
      modifies cache
      ensures Valid()
      ensures CachedStep(config, old(TheWorld()), StatusesOp(user, items), StatusesAnswer(r), TheWorld())
    {
      ghost var w := TheWorld();
      r := queries.BatchStatuses(user, items, db.likes, true, true);
      if r.Ok? {
        assert r.value == CachedStatuses(w, user, items);
      }
    }

    method ReadFirstPage(user: Uuid, filter: Option<string>, limit: int) returns (r: Result<Page, AppError>)
      requires Valid()
      modifies cache
      ensures Valid()
      ensures CachedStep(config, old(TheWorld()), PageOp(user, filter, limit), PageAnswer(r), TheWorld())
    {
      UserRowsUnique(db.likes, user);
      r := queries.FirstLikesPage(user, filter, limit, db.likes, true, true);
    }

    method ReadLaterPage(user: Uuid, filter: Option<string>, cursor: Option<Cursor>, limit: int)
        returns (r: Result<Page, AppError>)
      requires Valid()
      ensures CachedStep(config, old(TheWorld()), NextPageOp(user, filter, cursor, limit), PageAnswer(r), TheWorld())
    {
      UserRowsUnique(db.likes, user);
      r := queries.LaterLikesPage(user, filter, cursor, limit, db.likes, true);
    }

    method Evict(fromL1: set<string>, fromRedis: set<string>)
      requires Valid()
      modifies cache
      ensures Valid()
      ensures CachedStep(config, old(TheWorld()), EvictOp(fromL1, fromRedis), NoAnswer, TheWorld())
    {
      cache.Evict(fromL1, fromRedis);
    }

    /** Whatever the operation, the fields make a step of the specification. */
    method Execute(op: Operation, dropped: set<string>) returns (answer: Answer)
      requires Valid()
      modifies this`events, db, breaker, countCache, cache
      ensures Valid()
      ensures CachedStep(config, old(TheWorld()), op, answer, TheWorld())
    {
      match op {
        case LikeOp(user, item, now, check) =>
          ghost var w := TheWorld();
          var r := DoLike(user, item, now, check, dropped);
          CommandIsStep(config, w, op, ActionAnswer(r), TheWorld());
          return ActionAnswer(r);
        case UnlikeOp(user, item, now, check) =>
          ghost var w := TheWorld();
          var r := DoUnlike(user, item, now, check, dropped);
          CommandIsStep(config, w, op, ActionAnswer(r), TheWorld());
          return ActionAnswer(r);
        case CountOp(item) =>
          var r := ReadCount(item);
          return CountAnswer(r);
        case CountsOp(items) =>
          var r := ReadCounts(items);
          return CountsAnswer(r);
        case StatusOp(user, item) =>
          var r := ReadStatus(user, item);
          return StatusAnswer(r);
        case StatusesOp(user, items) =>
          var r := ReadStatuses(user, items);
          return StatusesAnswer(r);
        case PageOp(user, filter, limit) =>
          var r := ReadFirstPage(user, filter, limit);
          return PageAnswer(r);
        case NextPageOp(user, filter, cursor, limit) =>
          var r := ReadLaterPage(user, filter, cursor, limit);
          return PageAnswer(r);
        case EvictOp(fromL1, fromRedis) =>
          Evict(fromL1, fromRedis);
          return NoAnswer;
      }
    }

    /** Executing operations one after another is a run of the specification. */
    method Run(ops: seq<Operation>, dropped: seq<set<string>>) returns (answers: seq<Answer>, ghost worlds: seq<World>)
      requires Valid() && |dropped| == |ops|
      modifies this`events, db, breaker, countCache, cache
      ensures Valid()
      ensures IsCachedRun(config, worlds, ops, answers)
      ensures worlds[0] == old(TheWorld()) && worlds[|ops|] == TheWorld()
    {
      answers, worlds := [], [TheWorld()];
      for i := 0 to |ops|
        invariant Valid()
        invariant IsCachedRun(config, worlds, ops[..i], answers)
        invariant worlds[0] == old(TheWorld()) && worlds[i] == TheWorld()
      {
        var answer := Execute(ops[i], dropped[i]);
        RunGrows(config, worlds, ops[..i], answers, ops[i], answer, TheWorld());
        assert ops[..i + 1] == ops[..i] + [ops[i]];
        answers, worlds := answers + [answer], worlds + [TheWorld()];
      }
      assert ops[..|ops|] == ops;
    }
  }

  lemma RunGrows(config: Config, worlds: seq<World>, ops: seq<Operation>, answers: seq<Answer>,
                 op: Operation, answer: Answer, w: World)
    requires IsCachedRun(config, worlds, ops, answers) && DirectOk(w.direct)
    requires CachedStep(config, worlds[|ops|], op, answer, w)
    ensures IsCachedRun(config, worlds + [w], ops + [op], answers + [answer])
  {
  }
}
