/**
 What a like and an unlike answer and store, said about the tables before and after.
 */
module Commands {
  import opened Basics
  import opened Ledger
  import opened Repository
  import opened CircuitBreaker
  import opened DirectService

  predicate SaidValid(answer: Validation) {
    answer == Remote(true) || answer == Cached(true)
  }

  predicate SaidInvalid(answer: Validation) {
    answer == Remote(false) || answer == Cached(false)
  }

  predicate SameStore(d: Direct, d': Direct) {
    d'.likes == d.likes && d'.counts == d.counts && d'.nextId == d.nextId && d'.events == d.events
  }

  /** The breaker and the validation decide who gets through, and only a command that gets
      through touches the tables and the events. */
  ghost predicate Screened(config: Config, d: Direct, check: Check, r: Result<ActionResponse, AppError>, d': Direct) {
    var admitted := Allows(config, d.breaker, check.askedAt);
    && (r.Ok? <==> admitted && SaidValid(check.answer))
    && (r == Err(DependencyUnavailable) <==> !admitted)
    && (r == Err(ContentNotFound) <==> admitted && SaidInvalid(check.answer))
    && (r == Err(ContentApiFailed) <==> admitted && check.answer.Failed?)
    && (r.Err? ==> SameStore(d, d'))
  }

  ghost predicate LikeStored(d: Direct, key: LikeKey, now: int, r: ActionResponse, d': Direct) {
    && d'.likes == (if key in d.likes then d.likes else d.likes[key := LikeRow(d.nextId, key.item, now)])
    && r.liked
    && r.alreadyExisted == Some(key in d.likes)
    && r.wasLiked.None?
    && r.count == NumLikes(d'.likes, key.item)
    && r.likedAt == Some(d'.likes[key].createdAt)
    && d'.events == d.events + if key in d.likes then [] else [Liked(key.user, key.item, r.count, now)]
  }

  ghost predicate UnlikeStored(d: Direct, key: LikeKey, now: int, r: ActionResponse, d': Direct) {
    && d'.likes == d.likes - {key}
    && !r.liked
    && r.alreadyExisted.None?
    && r.wasLiked == Some(key in d.likes)
    && r.count == NumLikes(d'.likes, key.item)
    && r.likedAt.None?
    && d'.events == d.events + if key in d.likes then [Unliked(key.user, key.item, r.count, now)] else []
  }

  lemma LikeStores(config: Config, d: Direct, key: LikeKey, now: int, check: Check)
    requires DirectOk(d) && CommandAnswer(config, d, Like, key, now, check).action.Ok?
    ensures LikeStored(d, key, now, CommandAnswer(config, d, Like, key, now, check).action.value,
                       AfterCommand(config, d, Like, key, now, check))
  {
    LoneLike(d.likes, d.counts, d.nextId, key, now);
    NumLikesInsertOrSame(d, key, now);
  }

  lemma UnlikeStores(config: Config, d: Direct, key: LikeKey, now: int, check: Check)
    requires DirectOk(d) && CommandAnswer(config, d, Unlike, key, now, check).action.Ok?
    ensures UnlikeStored(d, key, now, CommandAnswer(config, d, Unlike, key, now, check).action.value,
                         AfterCommand(config, d, Unlike, key, now, check))
  {
    LoneUnlike(d.likes, d.counts, d.nextId, key, now);
    if key in d.likes {
      NumLikesRemove(d.likes, key, key.item);
    } else {
      assert d.likes - {key} == d.likes;
    }
  }

  /** What a like does, given its answer and what it leaves. */
  ghost predicate LikeFits(config: Config, d: Direct, key: LikeKey, now: int, check: Check,
                           answer: Answer, d': Direct) {
    && answer.ActionAnswer?
    && Screened(config, d, check, answer.action, d')
    && (answer.action.Ok? ==> LikeStored(d, key, now, answer.action.value, d'))
  }

  ghost predicate UnlikeFits(config: Config, d: Direct, key: LikeKey, now: int, check: Check,
                             answer: Answer, d': Direct) {
    && answer.ActionAnswer?
    && Screened(config, d, check, answer.action, d')
    && (answer.action.Ok? ==> UnlikeStored(d, key, now, answer.action.value, d'))
  }

  /** A like is stored and answered if and only if it was admitted and its content was
      answered as valid; the answer is read off the tables before and after. */
  lemma LikeMeans(config: Config, d: Direct, user: Uuid, item: Content, now: int, check: Check)
    requires DirectOk(d)
    ensures var op := LikeOp(user, item, now, check);
      LikeFits(config, d, LikeKey(user, item), now, check, DirectAnswer(config, d, op), DirectNext(config, d, op))
  {
    if CommandAnswer(config, d, Like, LikeKey(user, item), now, check).action.Ok? {
      LikeStores(config, d, LikeKey(user, item), now, check);
    }
  }

  /** The same for an unlike. */
  lemma UnlikeMeans(config: Config, d: Direct, user: Uuid, item: Content, now: int, check: Check)
    requires DirectOk(d)
    ensures var op := UnlikeOp(user, item, now, check);
      UnlikeFits(config, d, LikeKey(user, item), now, check, DirectAnswer(config, d, op), DirectNext(config, d, op))
  {
    if CommandAnswer(config, d, Unlike, LikeKey(user, item), now, check).action.Ok? {
      UnlikeStores(config, d, LikeKey(user, item), now, check);
    }
  }

  /** What the breaker hears of a command: nothing of one that it rejects, no report of one
      that the content cache answers, and the outcome of the others. */
  lemma BreakerHears(config: Config, s: Inner, check: Check)
    ensures var s', answer := AfterCheck(config, s, check), check.answer;
      if !Allows(config, s, check.askedAt) then s' == s
      else if s.state.Closed? then
        && (answer.Cached? ==> s' == s)
        && (answer.Remote? ==> s'.state.Closed? && s'.consecutiveFailures == 0)
        && (answer.Failed? ==> s'.lastFailureTime == Some(check.failedAt))
        && (answer.Failed? ==> s'.state.Open? || s'.consecutiveFailures == s.consecutiveFailures + 1)
      else
        && (answer.Cached? ==> ProbeIsOut(s'))
        && (answer.Remote? ==> s'.state.Closed? || (s'.state.HalfOpen? && !s'.probeInFlight))
        && (answer.Failed? ==> s'.state.Open? && s'.lastFailureTime == Some(check.failedAt))
  {
  }
}
