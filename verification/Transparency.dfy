/**
 The caches of the likes service are transparent: what it answers is what the same service
 would answer without them. Exactly when this holds of first pages is the last theorem.
 */
module Transparency {
  import opened Basics
  import opened Ledger
  import opened Pagination
  import opened Keys
  import opened Cache
  import opened CountCache
  import opened Queries
  import opened Coherence
  import opened CircuitBreaker
  import opened DirectService
  import opened Service

  /** First pages are asked for the served filters only. */
  predicate Serves(served: Served, op: Operation) {
    op.PageOp? ==> op.filter in served
  }

  ghost predicate CoherentWorld(served: Served, w: World)
    requires DirectOk(w.direct)
  {
    Coherent(served, TablesOf(w.direct), w.l1) && Coherent(served, TablesOf(w.direct), w.redis)
  }

  // ---------------------------------------------------------------- one operation

  lemma SameCounts(served: Served, w: World, items: seq<Content>)
    requires DirectOk(w.direct) && CoherentWorld(served, w)
    ensures CachedCounts(w, items) == DirectCounts(w.direct, items)
  {
    forall i | 0 <= i < |items| ensures CachedCounts(w, items)[i] == DirectCounts(w.direct, items)[i] {
      CoherentCount(served, TablesOf(w.direct), w.l1, w.redis, true, items[i]);
    }
  }

  lemma SameStatuses(served: Served, w: World, user: Uuid, items: seq<Content>)
    requires DirectOk(w.direct) && CoherentWorld(served, w)
    ensures CachedStatuses(w, user, items) == DirectStatuses(w.direct, user, items)
  {
    forall i | 0 <= i < |items| ensures CachedStatuses(w, user, items)[i] == DirectStatuses(w.direct, user, items)[i] {
      CoherentStatus(served, TablesOf(w.direct), w.l1, w.redis, true, user, items[i]);
    }
  }

  lemma SameAnswer(config: Config, served: Served, w: World, op: Operation)
    requires DirectOk(w.direct) && CoherentWorld(served, w) && Serves(served, op)
    ensures CachedAnswer(config, w, op) == DirectAnswer(config, w.direct, op)
  {
    match op
    case CountOp(item) => CoherentCount(served, TablesOf(w.direct), w.l1, w.redis, true, item);
    case CountsOp(items) => SameCounts(served, w, items);
    case StatusOp(user, item) => CoherentStatus(served, TablesOf(w.direct), w.l1, w.redis, true, user, item);
    case StatusesOp(user, items) => SameStatuses(served, w, user, items);
    case PageOp(user, filter, limit) =>
      UserRowsUnique(w.direct.likes, user);
      CoherentPage(served, TablesOf(w.direct), w.l1, w.redis, true, user, filter, limit);
    case _ =>
  }

  lemma FactsAreFresh(served: Served, d: Direct, op: Operation)
    requires DirectOk(d) && Serves(served, op) && Unambiguous(served)
    ensures forall fact :: fact in FactsOf(d, op) ==> Fresh(served, TablesOf(d), fact.0, fact.1)
  {
    match op
    case CountOp(item) => CountFactsFresh(served, TablesOf(d), [item]);
    case CountsOp(items) => CountFactsFresh(served, TablesOf(d), items);
    case StatusOp(user, item) => StatusFactsFresh(served, TablesOf(d), user, [item]);
    case StatusesOp(user, items) => StatusFactsFresh(served, TablesOf(d), user, items);
    case PageOp(user, filter, _) => PageFactFresh(served, TablesOf(d), user, filter);
    case _ =>
  }

  lemma LikeStaysCoherent(config: Config, served: Served, d: Direct, key: LikeKey, now: int, check: Check,
                          m: Entries, m': Entries)
    requires DirectOk(d) && Coherent(served, TablesOf(d), m)
    requires CommandKeeps(config, d, Like, key, now, check, m, m')
    ensures var after := DirectNext(config, d, LikeOp(key.user, key.item, now, check));
      Coherent(served, TablesOf(after), m')
  {
    LikeKeeps(d, key, now);
    if CheckError(config, d.breaker, check).None? {
      var after := AfterCommand(config, d, Like, key, now, check);
      var purged := CommandOutcome(d, Like, key, now).Inserted?;
      WrittenStaysCoherent(served, TablesOf(d), TablesOf(after), key, m, m', purged);
    } else {
      ForeignAddedStaysCoherent(served, TablesOf(d), m, m');
    }
  }

  lemma UnlikeStaysCoherent(config: Config, served: Served, d: Direct, key: LikeKey, now: int, check: Check,
                            m: Entries, m': Entries)
    requires DirectOk(d) && Coherent(served, TablesOf(d), m)
    requires CommandKeeps(config, d, Unlike, key, now, check, m, m')
    ensures var after := DirectNext(config, d, UnlikeOp(key.user, key.item, now, check));
      Coherent(served, TablesOf(after), m')
  {
    UnlikeKeeps(d, key, now);
    if CheckError(config, d.breaker, check).None? {
      var after := AfterCommand(config, d, Unlike, key, now, check);
      WrittenStaysCoherent(served, TablesOf(d), TablesOf(after), key, m, m', true);
    } else {
      ForeignAddedStaysCoherent(served, TablesOf(d), m, m');
    }
  }

  lemma StaysCoherent(config: Config, served: Served, w: World, op: Operation, w': World)
    requires DirectOk(w.direct) && CoherentWorld(served, w) && Serves(served, op) && Unambiguous(served)
    requires w'.direct == DirectNext(config, w.direct, op) && CachesAfter(config, w, op, w')
    ensures CoherentWorld(served, w')
  {
    match op
    case LikeOp(user, item, now, check) =>
      LikeStaysCoherent(config, served, w.direct, LikeKey(user, item), now, check, w.l1, w'.l1);
      LikeStaysCoherent(config, served, w.direct, LikeKey(user, item), now, check, w.redis, w'.redis);
    case UnlikeOp(user, item, now, check) =>
      UnlikeStaysCoherent(config, served, w.direct, LikeKey(user, item), now, check, w.l1, w'.l1);
      UnlikeStaysCoherent(config, served, w.direct, LikeKey(user, item), now, check, w.redis, w'.redis);
    case _ =>
      FactsAreFresh(served, w.direct, op);
      GrownStaysCoherent(served, TablesOf(w.direct), w'.l1, w'.redis, w.l1, w.redis, FactsOf(w.direct, op));
  }

  // ---------------------------------------------------------------- whole runs

  lemma RunPrefix(config: Config, worlds: seq<World>, ops: seq<Operation>, answers: seq<Answer>)
    requires IsCachedRun(config, worlds, ops, answers) && ops != []
    ensures var n := |ops| - 1; IsCachedRun(config, worlds[..n + 1], ops[..n], answers[..n])
  {
  }

  /** If the served filters are unambiguous, a run that starts with coherent caches answers
      as the service without a cache, and leaves its tables, breaker and events. */
  lemma {:induction false} RunIsTransparent(config: Config, served: Served, worlds: seq<World>,
                                            ops: seq<Operation>, answers: seq<Answer>)
    requires IsCachedRun(config, worlds, ops, answers) && CoherentWorld(served, worlds[0])
    requires Unambiguous(served) && forall op :: op in ops ==> Serves(served, op)
    ensures answers == DirectAnswers(config, worlds[0].direct, ops)
    ensures worlds[|ops|].direct == DirectAfter(config, worlds[0].direct, ops)
    ensures CoherentWorld(served, worlds[|ops|])
    decreases |ops|
  {
    if ops != [] {
      var n := |ops| - 1;
      RunPrefix(config, worlds, ops, answers);
      RunIsTransparent(config, served, worlds[..n + 1], ops[..n], answers[..n]);
      assert CachedStep(config, worlds[n], ops[n], answers[n], worlds[n + 1]);
      SameAnswer(config, served, worlds[n], ops[n]);
      StaysCoherent(config, served, worlds[n], ops[n], worlds[n + 1]);
      assert answers == answers[..n] + [answers[n]];
    }
  }

  /** A process that starts on any good database has nothing cached. */
  ghost predicate ColdStart(w: World) {
    DirectOk(w.direct) && w.l1 == map[] && w.redis == map[]
  }

  /** Every run that serves these filters is answered as without a cache. */
  ghost predicate Transparent(config: Config, served: Served) {
    forall worlds: seq<World>, ops: seq<Operation>, answers: seq<Answer> ::
      IsCachedRun(config, worlds, ops, answers) && ColdStart(worlds[0])
      && (forall op :: op in ops ==> Serves(served, op)) ==>
        answers == DirectAnswers(config, worlds[0].direct, ops)
  }

  // ---------------------------------------------------------------- a type named "_"

  lemma NewestOnPage(table: set<LikeRow>, filter: Option<string>, limit: int, newest: LikeRow)
    requires UniqueIds(table) && IsNewest(newest, Selected(table, filter, None))
    ensures DirectPage(table, filter, None, limit).rows != []
    ensures DirectPage(table, filter, None, limit).rows[0] == newest
  {
    var rows, n := PageIsPrefix(table, filter, None, limit);
    OrderedHead(Selected(table, filter, None), newest);
  }

  lemma PageMatches(table: set<LikeRow>, filter: Option<string>, limit: int)
    requires UniqueIds(table)
    ensures forall row :: row in DirectPage(table, filter, None, limit).rows ==> Matches(row, filter)
  {
    var rows, n := PageIsPrefix(table, filter, None, limit);
    assert forall row :: row in rows[..n] ==> row in rows;
  }

  /** With the page of all types cached, the first page of "_" is answered wrongly, at every
      limit, for every user whose newest like is of another type. */
  lemma WrongPageServed(l1: Entries, redis: Entries, user: Uuid, table: set<LikeRow>, limit: int, newest: LikeRow)
    requires UniqueIds(table) && IsNewest(newest, table) && newest.item.contentType != "_"
    requires Find(l1, redis, true, PageKey(user, None)) == Some(PageText(FullFirstPage(table, None)))
    ensures FirstPageAnswer(Find(l1, redis, true, PageKey(user, Some("_"))), table, Some("_"), limit)
         != DirectPage(table, Some("_"), None, limit)
  {
    PageKeyInjective(user, None, user, Some("_"));
    SliceIsDirect(table, None, limit);
    assert Selected(table, None, None) == table;
    NewestOnPage(table, None, limit, newest);
    PageMatches(table, Some("_"), limit);
    assert newest in DirectPage(table, None, None, limit).rows;
  }

  const SomeRow := LikeRow(1, SomePost, 0)

  /** One user has liked one post. */
  const OneLike := Direct(map[LikeKey(SomeUser, SomePost) := SomeRow], map[SomePost := 1], 2,
                          CircuitBreaker.Initial, [])

  lemma OneLikeOk()
    ensures DirectOk(OneLike) && TableOf(OneLike.likes, SomeUser) == {SomeRow}
  {
    var key := LikeKey(SomeUser, SomePost);
    forall item: Content ensures Count(OneLike.counts, item) == NumLikes(OneLike.likes, item) {
      assert (set k | k in OneLike.likes && k.item == item) == if item == SomePost then {key} else {};
    }
    assert OneLike.likes[key] == SomeRow && key in OneLike.likes;
  }

  /** The user asks for the first page of all types, then for that of "_". */
  const TwoPages := [PageOp(SomeUser, None, 1), PageOp(SomeUser, Some("_"), 1)]

  ghost function AfterFirstPage(): World {
    World(OneLike, map[PageKey(SomeUser, None) := PageText(FullFirstPage({SomeRow}, None))], map[])
  }

  lemma FirstPageStep(config: Config)
    ensures DirectOk(OneLike)
    ensures var w, w' := World(OneLike, map[], map[]), AfterFirstPage();
      CachedStep(config, w, TwoPages[0], CachedAnswer(config, w, TwoPages[0]), w')
  {
    OneLikeOk();
    UserRowsUnique(OneLike.likes, SomeUser);
    var key := PageKey(SomeUser, None);
    assert AfterFirstPage().l1 == map[][key := PageText(FullFirstPage({SomeRow}, None))];
  }

  lemma SecondPageStep(config: Config)
    ensures DirectOk(OneLike)
    ensures CachedStep(config, AfterFirstPage(), TwoPages[1],
                       CachedAnswer(config, AfterFirstPage(), TwoPages[1]), AfterFirstPage())
    ensures CachedAnswer(config, AfterFirstPage(), TwoPages[1]) != DirectAnswer(config, OneLike, TwoPages[1])
  {
    OneLikeOk();
    UserRowsUnique(OneLike.likes, SomeUser);
    var w, key := AfterFirstPage(), PageKey(SomeUser, None);
    assert PageKey(SomeUser, Some("_")) == key;
    WrongPageServed(w.l1, w.redis, SomeUser, {SomeRow}, 1, SomeRow);
    assert w.l1 == w.l1[key := w.l1[key]];
  }

  ghost function TwoWorlds(): seq<World> {
    [World(OneLike, map[], map[]), AfterFirstPage(), AfterFirstPage()]
  }

  ghost function TwoAnswers(config: Config): seq<Answer>
    requires DirectOk(OneLike)
  {
    [CachedAnswer(config, TwoWorlds()[0], TwoPages[0]), CachedAnswer(config, TwoWorlds()[1], TwoPages[1])]
  }

  lemma OneStep(config: Config, w: World, op: Operation, answer: Answer, w': World)
    requires DirectOk(w.direct) && DirectOk(w'.direct) && CachedStep(config, w, op, answer, w')
    ensures IsCachedRun(config, [w, w'], [op], [answer])
  {
  }

  lemma TwoSteps(config: Config, w: World, op: Operation, answer: Answer, w': World,
                 op': Operation, answer': Answer, w'': World)
    requires IsCachedRun(config, [w, w'], [op], [answer]) && DirectOk(w'.direct) && DirectOk(w''.direct)
    requires CachedStep(config, w', op', answer', w'')
    ensures IsCachedRun(config, [w, w', w''], [op, op'], [answer, answer'])
  {
    RunGrows(config, [w, w'], [op], [answer], op', answer', w'');
    assert [w, w'] + [w''] == [w, w', w''] && [op] + [op'] == [op, op'] && [answer] + [answer'] == [answer, answer'];
  }

  lemma TwoPagesRun(config: Config)
    ensures DirectOk(OneLike)
    ensures IsCachedRun(config, TwoWorlds(), TwoPages, TwoAnswers(config))
  {
    FirstPageStep(config);
    SecondPageStep(config);
    var w, w', answers := World(OneLike, map[], map[]), AfterFirstPage(), TwoAnswers(config);
    OneStep(config, w, TwoPages[0], answers[0], w');
    TwoSteps(config, w, TwoPages[0], answers[0], w', TwoPages[1], answers[1], w');
  }

  lemma SecondAnswerDiffers(config: Config)
    ensures DirectOk(OneLike)
    ensures TwoAnswers(config) != DirectAnswers(config, OneLike, TwoPages)
  {
    SecondPageStep(config);
    DirectAnswersAt(config, OneLike, TwoPages, 1);
    assert TwoPages[..1][..0] == [];
  }

  /** A process that serves both filters can answer wrongly. */
  lemma AmbiguousIsNotTransparent(config: Config, served: Served)
    requires None in served && Some("_") in served
    ensures !Transparent(config, served)
  {
    TwoPagesRun(config);
    SecondAnswerDiffers(config);
    assert ColdStart(TwoWorlds()[0]);
  }

  /** The caches are transparent in every run of a process if and only if it does not serve
      both the first page of all types and that of a type named "_". */
  lemma TransparentIff(config: Config, served: Served)
    ensures Transparent(config, served) <==> Unambiguous(served)
  {
    if Unambiguous(served) {
      forall worlds: seq<World>, ops: seq<Operation>, answers: seq<Answer>
        | IsCachedRun(config, worlds, ops, answers) && ColdStart(worlds[0])
          && (forall op :: op in ops ==> Serves(served, op))
        ensures answers == DirectAnswers(config, worlds[0].direct, ops)
      {
        RunIsTransparent(config, served, worlds, ops, answers);
      }
    } else {
      AmbiguousIsNotTransparent(config, served);
    }
  }

  /** The service itself: from coherent caches, any operations one after another are answered
      as without a cache. */
  method RunTransparently(service: LikesService, ops: seq<Operation>, dropped: seq<set<string>>,
                          ghost served: Served) returns (answers: seq<Answer>)
    requires service.Valid() && CoherentWorld(served, service.TheWorld())
    requires |dropped| == |ops| && Unambiguous(served) && forall op :: op in ops ==> Serves(served, op)
    modifies service`events, service.db, service.breaker, service.countCache, service.cache
    ensures service.Valid() && CoherentWorld(served, service.TheWorld())
    ensures answers == old(DirectAnswers(service.config, service.Value(), ops))
    ensures service.Value() == old(DirectAfter(service.config, service.Value(), ops))
  {
    ghost var worlds;
    answers, worlds := service.Run(ops, dropped);
    RunIsTransparent(service.config, served, worlds, ops, answers);
  }
}
