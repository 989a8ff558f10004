/**
 The likes service of one process without any cache: commands gated by the content circuit
 breaker, and reads that are direct queries.
 */
module DirectService {
  import opened Basics
  import opened Ledger
  import opened Repository
  import opened Pagination
  import opened CountCache
  import opened Queries
  import opened Coherence
  import opened CircuitBreaker
  import BreakerProofs
  import Probes

  /** What the content API, or its cache, answers. */
  datatype Validation = Remote(valid: bool) | Cached(valid: bool) | Failed

  /** One validation: when admission was asked, the answer, and the clock when it came. */
  datatype Check = Check(askedAt: int, answer: Validation, failedAt: int, answeredAt: int)

  datatype ActionResponse = ActionResponse(
    liked: bool, alreadyExisted: Option<bool>, wasLiked: Option<bool>, count: int, likedAt: Option<int>)

  datatype LikeEvent =
    | Liked(user: Uuid, item: Content, count: int, timestamp: int)
    | Unliked(user: Uuid, item: Content, count: int, timestamp: int)

  datatype Operation =
    | LikeOp(user: Uuid, item: Content, now: int, check: Check)
    | UnlikeOp(user: Uuid, item: Content, now: int, check: Check)
    | CountOp(item: Content)
    | CountsOp(items: seq<Content>)
    | StatusOp(user: Uuid, item: Content)
    | StatusesOp(user: Uuid, items: seq<Content>)
    | PageOp(user: Uuid, filter: Option<string>, limit: int)
    | NextPageOp(user: Uuid, filter: Option<string>, cursor: Option<Cursor>, limit: int)
    | EvictOp(fromL1: set<string>, fromRedis: set<string>)

  datatype Answer =
    | ActionAnswer(action: Result<ActionResponse, AppError>)
    | CountAnswer(count: Result<int, AppError>)
    | CountsAnswer(counts: Result<seq<BatchCountResult>, AppError>)
    | StatusAnswer(status: Result<Option<int>, AppError>)
    | StatusesAnswer(statuses: Result<seq<BatchStatusResult>, AppError>)
    | PageAnswer(page: Result<Page, AppError>)
    | NoAnswer

  /** Everything but the caches. */
  datatype Direct = Direct(
    likes: Likes, counts: Counts, nextId: int, breaker: Inner, events: seq<LikeEvent>)

  ghost predicate DirectOk(d: Direct) {
    && CountsMatch(State(d.likes, d.counts, [], d.nextId))
    && RowsOk(d.likes)
    && forall key :: key in d.likes ==> d.likes[key].id < d.nextId
  }

  function AfterCheck(config: Config, s: Inner, check: Check): Inner {
    var asked := AfterAllow(config, s, check.askedAt);
    if !Allows(config, s, check.askedAt) then asked
    else match check.answer
      case Remote(_) => AfterSuccess(config, asked, check.answeredAt)
      case Cached(_) => asked
      case Failed => AfterFailure(config, asked, check.failedAt, check.answeredAt)
  }

  function CheckError(config: Config, s: Inner, check: Check): Option<AppError> {
    if !Allows(config, s, check.askedAt) then Some(DependencyUnavailable)
    else match check.answer
      case Failed => Some(ContentApiFailed)
      case Remote(valid) => if valid then None else Some(ContentNotFound)
      case Cached(valid) => if valid then None else Some(ContentNotFound)
  }

  function ResponseTo(outcome: Outcome): ActionResponse {
    match outcome
    case Inserted(row, count) => ActionResponse(true, Some(false), None, count, Some(row.createdAt))
    case AlreadyExisted(row, count) => ActionResponse(true, Some(true), None, count, Some(row.createdAt))
    case ConcurrentlyRemoved(count) => ActionResponse(true, Some(true), None, count, None)
    case Deleted(count) => ActionResponse(false, None, Some(true), count, None)
    case NotLiked(count) => ActionResponse(false, None, Some(false), count, None)
  }

  function EventsOf(key: LikeKey, outcome: Outcome, now: int): seq<LikeEvent> {
    match outcome
    case Inserted(row, count) => [Liked(key.user, key.item, count, row.createdAt)]
    case Deleted(count) => [Unliked(key.user, key.item, count, now)]
    case _ => []
  }

  ghost function CommandRun(d: Direct, op: Ledger.Op, key: LikeKey, now: int): State {
    RunAlone(Alone(d.likes, d.counts, d.nextId, op, key, now))
  }

  ghost function CommandOutcome(d: Direct, op: Ledger.Op, key: LikeKey, now: int): Outcome
    requires DirectOk(d)
  {
    LoneLike(d.likes, d.counts, d.nextId, key, now);
    LoneUnlike(d.likes, d.counts, d.nextId, key, now);
    CommandRun(d, op, key, now).txs[0].phase.outcome
  }

  ghost function AfterCommand(config: Config, d: Direct, op: Ledger.Op, key: LikeKey, now: int, check: Check): Direct
    requires DirectOk(d)
  {
    var breaker := AfterCheck(config, d.breaker, check);
    if CheckError(config, d.breaker, check).Some? then d.(breaker := breaker)
    else
      var end := CommandRun(d, op, key, now);
      Direct(end.likes, end.counts, end.nextId, breaker,
             d.events + EventsOf(key, CommandOutcome(d, op, key, now), now))
  }

  ghost function CommandAnswer(config: Config, d: Direct, op: Ledger.Op, key: LikeKey, now: int, check: Check): Answer
    requires DirectOk(d)
  {
    var error := CheckError(config, d.breaker, check);
    ActionAnswer(if error.Some? then Err(error.value) else Ok(ResponseTo(CommandOutcome(d, op, key, now))))
  }

  ghost function DirectNext(config: Config, d: Direct, op: Operation): (d': Direct)
    requires DirectOk(d)
    ensures DirectOk(d')
  {
    match op
    case LikeOp(user, item, now, check) =>
      LikeKeeps(d, LikeKey(user, item), now);
      AfterCommand(config, d, Like, LikeKey(user, item), now, check)
    case UnlikeOp(user, item, now, check) =>
      UnlikeKeeps(d, LikeKey(user, item), now);
      AfterCommand(config, d, Unlike, LikeKey(user, item), now, check)
    case _ => d
  }

  ghost function DirectAfter(config: Config, d: Direct, ops: seq<Operation>): (d': Direct)
    requires DirectOk(d)
    ensures DirectOk(d')
  {
    if ops == [] then d
    else DirectNext(config, DirectAfter(config, d, ops[..|ops| - 1]), ops[|ops| - 1])
  }

  /** The answers of the service without a cache to a whole run. */
  ghost function DirectAnswers(config: Config, d: Direct, ops: seq<Operation>): seq<Answer>
    requires DirectOk(d)
  {
    if ops == [] then []
    else
      var before := ops[..|ops| - 1];
      DirectAnswers(config, d, before) + [DirectAnswer(config, DirectAfter(config, d, before), ops[|ops| - 1])]
  }

  /** The answer of the service without a cache. */
  ghost function DirectAnswer(config: Config, d: Direct, op: Operation): Answer
    requires DirectOk(d)
  {
    match op
    case LikeOp(user, item, now, check) => CommandAnswer(config, d, Like, LikeKey(user, item), now, check)
    case UnlikeOp(user, item, now, check) => CommandAnswer(config, d, Unlike, LikeKey(user, item), now, check)
    case CountOp(item) => CountAnswer(Ok(Count(d.counts, item)))
    case CountsOp(items) =>
      CountsAnswer(if |items| > 100 then Err(BatchTooLarge(|items|)) else Ok(DirectCounts(d, items)))
    case StatusOp(user, item) => StatusAnswer(Ok(StatusOf(d.likes, user, item)))
    case StatusesOp(user, items) =>
      StatusesAnswer(if |items| > 100 then Err(BatchTooLarge(|items|)) else Ok(DirectStatuses(d, user, items)))
    case PageOp(user, filter, limit) =>
      UserRowsUnique(d.likes, user);
      PageAnswer(Ok(DirectPage(TableOf(d.likes, user), filter, None, limit)))
    case NextPageOp(user, filter, cursor, limit) =>
      UserRowsUnique(d.likes, user);
      PageAnswer(if cursor.None? then Err(InvalidCursor)
                 else Ok(DirectPage(TableOf(d.likes, user), filter, cursor, limit)))
    case EvictOp(_, _) => NoAnswer
  }

  function DirectCounts(d: Direct, items: seq<Content>): seq<BatchCountResult> {
    seq(|items|, i requires 0 <= i < |items| => BatchCountResult(items[i], Count(d.counts, items[i])))
  }

  function DirectStatuses(d: Direct, user: Uuid, items: seq<Content>): seq<BatchStatusResult> {
    seq(|items|, i requires 0 <= i < |items| => ResultOf(items[i], StatusOf(d.likes, user, items[i])))
  }

  /** A lone like keeps the database good and changes only its own row and count. */
  lemma LikeKeeps(d: Direct, key: LikeKey, now: int)
    requires DirectOk(d)
    ensures var end := CommandRun(d, Like, key, now);
      && DirectOk(Direct(end.likes, end.counts, end.nextId, d.breaker, d.events))
      && ChangesOnly(Tables(d.likes, d.counts), Tables(end.likes, end.counts), key)
      && end.txs[0].phase == Finished(CommandOutcome(d, Like, key, now))
      && key in end.likes
      && CommandOutcome(d, Like, key, now).count == Count(end.counts, key.item)
      && (if key in d.likes
          then end.likes == d.likes && CommandOutcome(d, Like, key, now).AlreadyExisted?
          else CommandOutcome(d, Like, key, now).Inserted?)
      && CommandOutcome(d, Like, key, now).row == end.likes[key]
  {
    LoneLike(d.likes, d.counts, d.nextId, key, now);
    var end := CommandRun(d, Like, key, now);
    NumLikesInsertOrSame(d, key, now);
    CountsAgreeElsewhere(d, end, key);
    SameTablesMatch(end);
  }

  lemma NumLikesInsertOrSame(d: Direct, key: LikeKey, now: int)
    requires DirectOk(d)
    ensures key !in d.likes ==> forall item: Content ::
      NumLikes(d.likes[key := LikeRow(d.nextId, key.item, now)], item)
        == NumLikes(d.likes, item) + if item == key.item then 1 else 0
  {
    if key !in d.likes {
      forall item: Content {
        NumLikesInsert(d.likes, key, LikeRow(d.nextId, key.item, now), item);
      }
    }
  }

  /** Tables that count rows agree on the items whose rows agree. */
  lemma CountsAgreeElsewhere(d: Direct, end: State, key: LikeKey)
    requires DirectOk(d) && CountsMatch(end) && d.likes - {key} == end.likes - {key}
    ensures forall item: Content :: item != key.item ==> Count(end.counts, item) == Count(d.counts, item)
  {
    forall item: Content | item != key.item ensures Count(end.counts, item) == Count(d.counts, item) {
      var s := State(d.likes, d.counts, [], d.nextId);
      assert Count(s.counts, item) == NumLikes(s.likes, item);
      assert forall k :: k in end.likes && k != key <==> k in end.likes - {key};
      assert forall k :: k in d.likes && k != key <==> k in d.likes - {key};
      assert (set k | k in d.likes && k.item == item) == (set k | k in end.likes && k.item == item);
    }
  }

  lemma UnlikeKeeps(d: Direct, key: LikeKey, now: int)
    requires DirectOk(d)
    ensures var end := CommandRun(d, Unlike, key, now);
      && DirectOk(Direct(end.likes, end.counts, end.nextId, d.breaker, d.events))
      && ChangesOnly(Tables(d.likes, d.counts), Tables(end.likes, end.counts), key)
      && end.txs[0].phase == Finished(CommandOutcome(d, Unlike, key, now))
      && key !in end.likes
      && CommandOutcome(d, Unlike, key, now).count == Count(end.counts, key.item)
      && (CommandOutcome(d, Unlike, key, now).Deleted? || CommandOutcome(d, Unlike, key, now).NotLiked?)
  {
    LoneUnlike(d.likes, d.counts, d.nextId, key, now);
    var end := CommandRun(d, Unlike, key, now);
    if key in d.likes {
      NumLikesRemove(d.likes, key, key.item);
    } else {
      assert end.likes == d.likes;
    }
    CountsAgreeElsewhere(d, end, key);
    SameTablesMatch(end);
    assert Count(end.counts, key.item) == NumLikes(end.likes, key.item);
  }

  // ---------------------------------------------------------------- the content breaker

  predicate IsCommand(op: Operation) {
    op.LikeOp? || op.UnlikeOp?
  }

  /** A half-open breaker whose probe is out. */
  predicate ProbeIsOut(s: Inner) {
    s.state.HalfOpen? && s.probeInFlight
  }

  lemma {:induction false} OneAnswerEach(config: Config, d: Direct, ops: seq<Operation>)
    requires DirectOk(d)
    ensures |DirectAnswers(config, d, ops)| == |ops|
  {
    if ops != [] {
      OneAnswerEach(config, d, ops[..|ops| - 1]);
    }
  }

  lemma LastAnswer(config: Config, d: Direct, ops: seq<Operation>)
    requires DirectOk(d) && ops != []
    ensures var n := |ops| - 1;
      && |DirectAnswers(config, d, ops)| == n + 1
      && DirectAnswers(config, d, ops)[..n] == DirectAnswers(config, d, ops[..n])
      && DirectAnswers(config, d, ops)[n] == DirectAnswer(config, DirectAfter(config, d, ops[..n]), ops[n])
  {
    OneAnswerEach(config, d, ops[..|ops| - 1]);
  }

  lemma {:induction false} DirectAnswersAt(config: Config, d: Direct, ops: seq<Operation>, i: nat)
    requires DirectOk(d) && i < |ops|
    ensures |DirectAnswers(config, d, ops)| == |ops|
    ensures DirectAnswers(config, d, ops)[i] == DirectAnswer(config, DirectAfter(config, d, ops[..i]), ops[i])
  {
    var n := |ops| - 1;
    LastAnswer(config, d, ops);
    if i < n {
      DirectAnswersAt(config, d, ops[..n], i);
      assert ops[..n][..i] == ops[..i];
    }
  }

  lemma RejectedChangesNothing(config: Config, d: Direct, op: Operation)
    requires DirectOk(d) && ProbeIsOut(d.breaker)
    ensures DirectNext(config, d, op) == d
    ensures IsCommand(op) ==> DirectAnswer(config, d, op) == ActionAnswer(Err(DependencyUnavailable))
  {
  }

  lemma {:induction false} NothingChanges(config: Config, d: Direct, ops: seq<Operation>)
    requires DirectOk(d) && ProbeIsOut(d.breaker)
    ensures DirectAfter(config, d, ops) == d
  {
    if ops != [] {
      NothingChanges(config, d, ops[..|ops| - 1]);
      RejectedChangesNothing(config, d, ops[|ops| - 1]);
    }
  }

  /** Only commands ask the breaker and report to it, so a probe that does not report is
      never made good: in every later run every like and unlike is rejected. */
  lemma LostProbeRejectsCommands(config: Config, d: Direct, ops: seq<Operation>, i: nat)
    requires DirectOk(d) && ProbeIsOut(d.breaker) && i < |ops| && IsCommand(ops[i])
    ensures DirectAfter(config, d, ops) == d
    ensures |DirectAnswers(config, d, ops)| == |ops|
    ensures DirectAnswers(config, d, ops)[i] == ActionAnswer(Err(DependencyUnavailable))
  {
    NothingChanges(config, d, ops);
    NothingChanges(config, d, ops[..i]);
    DirectAnswersAt(config, d, ops, i);
    RejectedChangesNothing(config, d, ops[i]);
  }

  /** While the breaker is not closed, one admitted command that is answered from the content
      cache is such a probe: from then on every like and unlike of every run is rejected. */
  lemma CachedProbeStopsCommands(config: Config, d: Direct, op: Operation, ops: seq<Operation>, i: nat)
    requires DirectOk(d) && IsCommand(op) && op.check.answer.Cached?
    requires !d.breaker.state.Closed? && Allows(config, d.breaker, op.check.askedAt)
    requires i < |ops| && IsCommand(ops[i])
    ensures |DirectAnswers(config, DirectNext(config, d, op), ops)| == |ops|
    ensures DirectAnswers(config, DirectNext(config, d, op), ops)[i] == ActionAnswer(Err(DependencyUnavailable))
  {
    var after := DirectNext(config, d, op);
    assert after.breaker == AfterAllow(config, d.breaker, op.check.askedAt);
    LostProbeRejectsCommands(config, after, ops, i);
  }

  /** An admitted command, while the breaker is not closed, that is answered from the content
      cache. */
  predicate LosesProbe(config: Config, d: Direct, op: Operation) {
    && IsCommand(op) && op.check.answer.Cached?
    && !d.breaker.state.Closed? && Allows(config, d.breaker, op.check.askedAt)
  }

  lemma ProbeAfterCheck(config: Config, s: Inner, check: Check)
    requires !ProbeIsOut(s)
    ensures ProbeIsOut(AfterCheck(config, s, check))
       <==> check.answer.Cached? && !s.state.Closed? && Allows(config, s, check.askedAt)
  {
  }

  lemma CommandBreaker(config: Config, d: Direct, op: Operation)
    requires DirectOk(d)
    ensures DirectNext(config, d, op).breaker
         == if IsCommand(op) then AfterCheck(config, d.breaker, op.check) else d.breaker
  {
  }

  lemma LockoutStep(config: Config, d: Direct, op: Operation)
    requires DirectOk(d)
    ensures ProbeIsOut(DirectNext(config, d, op).breaker) <==> ProbeIsOut(d.breaker) || LosesProbe(config, d, op)
  {
    CommandBreaker(config, d, op);
    if ProbeIsOut(d.breaker) {
      RejectedChangesNothing(config, d, op);
    } else if IsCommand(op) {
      ProbeAfterCheck(config, d.breaker, op.check);
    }
  }

  lemma LastOperation(config: Config, d: Direct, ops: seq<Operation>)
    requires DirectOk(d) && ops != []
    ensures var n := |ops| - 1;
      DirectAfter(config, d, ops) == DirectNext(config, DirectAfter(config, d, ops[..n]), ops[n])
  {
  }

  ghost predicate LostAt(config: Config, d: Direct, ops: seq<Operation>, i: nat)
    requires DirectOk(d)
  {
    i < |ops| && LosesProbe(config, DirectAfter(config, d, ops[..i]), ops[i])
  }

  ghost predicate SomeProbeLost(config: Config, d: Direct, ops: seq<Operation>)
    requires DirectOk(d)
  {
    exists i: nat :: LostAt(config, d, ops, i)
  }

  lemma LostAtPrefix(config: Config, d: Direct, ops: seq<Operation>, n: nat, i: nat)
    requires DirectOk(d) && n <= |ops|
    ensures LostAt(config, d, ops[..n], i) <==> i < n && LostAt(config, d, ops, i)
  {
    if i < n {
      assert ops[..n][..i] == ops[..i] && ops[..n][i] == ops[i];
    }
  }

  lemma SomeProbeLostStep(config: Config, d: Direct, ops: seq<Operation>)
    requires DirectOk(d) && ops != []
    ensures var n := |ops| - 1;
      SomeProbeLost(config, d, ops) <==> SomeProbeLost(config, d, ops[..n]) || LostAt(config, d, ops, n)
  {
    var n := |ops| - 1;
    if i: nat :| LostAt(config, d, ops, i) {
      LostAtPrefix(config, d, ops, n, i);
    }
    if i: nat :| LostAt(config, d, ops[..n], i) {
      LostAtPrefix(config, d, ops, n, i);
    }
  }

  /** A run ends with the probe out if and only if some command on the way lost it. */
  lemma {:induction false} LockoutIff(config: Config, d: Direct, ops: seq<Operation>)
    requires DirectOk(d) && !ProbeIsOut(d.breaker)
    ensures ProbeIsOut(DirectAfter(config, d, ops).breaker) <==> SomeProbeLost(config, d, ops)
  {
    if ops != [] {
      var n := |ops| - 1;
      LockoutIff(config, d, ops[..n]);
      LastOperation(config, d, ops);
      LockoutStep(config, DirectAfter(config, d, ops[..n]), ops[n]);
      SomeProbeLostStep(config, d, ops);
    }
  }

  /** Every like and unlike, whenever it is asked and whatever the content API would say, is
      turned away. */
  ghost predicate AllRejected(config: Config, d: Direct)
    requires DirectOk(d)
  {
    forall op :: IsCommand(op) ==> DirectAnswer(config, d, op) == ActionAnswer(Err(DependencyUnavailable))
  }

  /** That is so exactly when the probe is out; from then on it stays so. */
  lemma AllRejectedIff(config: Config, d: Direct)
    requires DirectOk(d) && (d.breaker.state.Open? ==> d.breaker.lastFailureTime.Some?)
    ensures AllRejected(config, d) <==> ProbeIsOut(d.breaker)
  {
    if ProbeIsOut(d.breaker) {
      forall op | IsCommand(op) ensures DirectAnswer(config, d, op) == ActionAnswer(Err(DependencyUnavailable)) {
        RejectedChangesNothing(config, d, op);
      }
    } else {
      var s := d.breaker;
      var askedAt := if s.state.Open? then s.lastFailureTime.value + config.recoveryTimeout else 0;
      var op := SomeLike(askedAt, Remote(true));
      assert Allows(config, s, askedAt);
      assert DirectAnswer(config, d, op) != ActionAnswer(Err(DependencyUnavailable));
    }
  }

  // ---------------------------------------------------------------- a run that gets there

  const SomeUser: Uuid := "00000000-0000-0000-0000-000000000000"
  const SomePost := Content("post", SomeUser)

  function SomeLike(time: int, answer: Validation): Operation {
    LikeOp(SomeUser, SomePost, time, Check(time, answer, time, time))
  }

  /** A service that has just started on empty tables. */
  const NewService := Direct(map[], map[], 1, CircuitBreaker.Initial, [])

  lemma NewServiceOk()
    ensures DirectOk(NewService)
  {
    forall item: Content ensures Count(NewService.counts, item) == NumLikes(NewService.likes, item) {
      assert (set k | k in NewService.likes && k.item == item) == {};
    }
  }

  /** n likes at time 0 whose validation fails. */
  function Failing(n: nat): (ops: seq<Operation>)
    ensures |ops| == n
  {
    if n == 0 then [] else Failing(n - 1) + [SomeLike(0, Failed)]
  }

  lemma FailedCheck(config: Config, s: Inner, check: Check)
    requires s.state.Closed? && check.answer.Failed?
    ensures var s' := AfterCheck(config, s, check);
      if s'.state.Closed? then
        s'.consecutiveFailures == s.consecutiveFailures + 1 && s'.consecutiveFailures < config.failureThreshold
      else s'.state.Open? && s'.lastFailureTime == Some(check.failedAt)
  {
  }

  ghost predicate OpenedAt(config: Config, m: nat)
    requires DirectOk(NewService)
  {
    var s := DirectAfter(config, NewService, Failing(m)).breaker;
    s.state.Open? && s.lastFailureTime == Some(0)
  }

  ghost predicate StillClosed(config: Config, n: nat)
    requires DirectOk(NewService)
  {
    var s := DirectAfter(config, NewService, Failing(n)).breaker;
    s.state.Closed? && s.consecutiveFailures == n && (n > 0 ==> n < config.failureThreshold)
  }

  lemma OneMoreFailure(config: Config, n: nat)
    requires DirectOk(NewService) && StillClosed(config, n)
    ensures StillClosed(config, n + 1) || OpenedAt(config, n + 1)
  {
    var d, op := DirectAfter(config, NewService, Failing(n)), SomeLike(0, Failed);
    LastOperation(config, NewService, Failing(n + 1));
    assert Failing(n + 1)[..n] == Failing(n);
    CommandBreaker(config, d, op);
    FailedCheck(config, d.breaker, op.check);
  }

  lemma {:induction false} FailuresOpen(config: Config, n: nat) returns (m: nat)
    requires DirectOk(NewService)
    ensures StillClosed(config, n) || OpenedAt(config, m)
  {
    m := 0;
    if n > 0 {
      m := FailuresOpen(config, n - 1);
      if StillClosed(config, n - 1) && !StillClosed(config, n) {
        OneMoreFailure(config, n - 1);
        m := n;
      }
    }
  }

  /** Whatever the configuration, a fresh service can be locked out: its first likes fail until
      the breaker opens, and the first one after the timeout is answered from the content
      cache. */
  lemma LockoutIsReachable(config: Config) returns (ops: seq<Operation>)
    ensures DirectOk(NewService) && ProbeIsOut(DirectAfter(config, NewService, ops).breaker)
    ensures AllRejected(config, DirectAfter(config, NewService, ops))
  {
    NewServiceOk();
    var m := FailuresOpen(config, config.failureThreshold + 1);
    var d, op := DirectAfter(config, NewService, Failing(m)), SomeLike(config.recoveryTimeout, Cached(true));
    assert OpenedAt(config, m);
    ops := Failing(m) + [op];
    assert ops[..m] == Failing(m);
    LastOperation(config, NewService, ops);
    LockoutStep(config, d, op);
    AllRejectedIff(config, DirectAfter(config, NewService, ops));
  }

  /** What a validation asks of the breaker and reports to it, as event n and the next. */
  function CheckEvents(config: Config, s: Inner, check: Check, n: nat): seq<BreakerProofs.Event> {
    var asked := [BreakerProofs.Allow(check.askedAt)];
    if !Allows(config, s, check.askedAt) then asked
    else match check.answer
      case Remote(_) => asked + [BreakerProofs.Success(n, check.answeredAt)]
      case Cached(_) => asked
      case Failed => asked + [BreakerProofs.Failure(n, check.failedAt, check.answeredAt)]
  }

  /** The breaker's history in a run of the service. */
  ghost function History(config: Config, d: Direct, ops: seq<Operation>): seq<BreakerProofs.Event>
    requires DirectOk(d)
  {
    if ops == [] then []
    else
      var before, op := ops[..|ops| - 1], ops[|ops| - 1];
      var past := History(config, d, before);
      if IsCommand(op)
      then past + CheckEvents(config, DirectAfter(config, d, before).breaker, op.check, |past|)
      else past
  }

  lemma CheckIsReplayed(config: Config, past: seq<BreakerProofs.Event>, check: Check)
    ensures var s := BreakerProofs.After(config, past, |past|);
      var events := past + CheckEvents(config, s, check, |past|);
      BreakerProofs.After(config, events, |events|) == AfterCheck(config, s, check)
  {
    var s := BreakerProofs.After(config, past, |past|);
    var later := CheckEvents(config, s, check, |past|);
    Probes.AfterPrefix(config, past, later, |past|);
    assert (past + later)[|past|] == later[0];
    assert BreakerProofs.After(config, past + later, |past| + 1) == AfterAllow(config, s, check.askedAt);
  }

  lemma CheckReportsMatch(config: Config, past: seq<BreakerProofs.Event>, check: Check)
    requires Probes.ReportsMatch(config, past)
    ensures var s := BreakerProofs.After(config, past, |past|);
      Probes.ReportsMatch(config, past + CheckEvents(config, s, check, |past|))
  {
    var s := BreakerProofs.After(config, past, |past|);
    var later := CheckEvents(config, s, check, |past|);
    var events := past + later;
    forall k: nat | k < |events| && !events[k].Allow?
      ensures Probes.Unreported(config, events, events[k].request, k)
    {
      if k < |past| {
        Probes.UnreportedPrefix(config, past, later, past[k].request, k);
      } else {
        Probes.AfterPrefix(config, past, later, |past|);
        assert events[|past|] == later[0] && k == |past| + 1;
      }
    }
  }

  /** The breaker of every run of the service is one of the histories that the theorems on
      breakers are about: each validation asks once, and reports once if and only if it was
      admitted and not answered from the content cache. */
  lemma {:induction false} BreakerHasHistory(config: Config, d: Direct, ops: seq<Operation>)
    requires DirectOk(d) && d.breaker == CircuitBreaker.Initial
    ensures var events := History(config, d, ops);
      && BreakerProofs.After(config, events, |events|) == DirectAfter(config, d, ops).breaker
      && Probes.ReportsMatch(config, events)
  {
    if ops != [] {
      var before, op := ops[..|ops| - 1], ops[|ops| - 1];
      BreakerHasHistory(config, d, before);
      CommandBreaker(config, DirectAfter(config, d, before), op);
      if IsCommand(op) {
        CheckIsReplayed(config, History(config, d, before), op.check);
        CheckReportsMatch(config, History(config, d, before), op.check);
      }
    }
  }

  /** A service that started with a closed breaker turns every command away, for ever, if and
      only if some command of its run lost a probe. */
  lemma CommandsStopIff(config: Config, d: Direct, ops: seq<Operation>)
    requires DirectOk(d) && d.breaker == CircuitBreaker.Initial
    ensures AllRejected(config, DirectAfter(config, d, ops)) <==> SomeProbeLost(config, d, ops)
  {
    BreakerHasHistory(config, d, ops);
    var events := History(config, d, ops);
    Probes.NotClosedHasFailed(config, events, |events|);
    AllRejectedIff(config, DirectAfter(config, d, ops));
    LockoutIff(config, d, ops);
  }
}
