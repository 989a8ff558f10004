/**
 What the calls of a run answer: where each count was found, when it was current, that
 leaders and followers agree, and why a follower may query on its own.
 */
module SingleFlightAnswers {
  import opened Basics
  import Ledger
  import opened SingleFlight
  import opened SingleFlightProofs
  import opened SingleFlightSources

  // ---------------------------------------------------------------- why a follower queries

  /** The owner of the channel still has it to send to. */
  predicate Carried(s: State, c: nat)
    requires c < |s.channels|
  {
    var item, u := s.channels[c].item, s.channels[c].owner;
    && u < |s.tasks|
    && (LeadsBy(s.tasks[u].leads, item, c) || (s.tasks[u].half.Some? && s.tasks[u].half.value.channel == c))
  }

  predicate LeadsBy(leads: map<Content, nat>, item: Content, c: nat) {
    item in leads && leads[item] == c
  }

  /** Its value has been sent, or will be, or its owner's query failed. */
  ghost predicate Resolved(s: State, j: iset<Fact>, c: nat)
    requires c < |s.channels|
  {
    s.channels[c].sent.Some? || Carried(s, c) || FetchFailed(s.channels[c].owner) in j
  }

  /** A single leader that has sent has sent to all it leads; one that removes its entries
      without sending has failed. */
  ghost predicate LeaderOk(s: State, j: iset<Fact>, t: nat)
    requires t < |s.tasks|
  {
    var task := s.tasks[t];
    && (task.phase.Sent? ==> forall item :: item in task.leads ==>
          task.leads[item] < |s.channels| && s.channels[task.leads[item]].sent.Some?)
    && (task.phase.Failing? ==> FetchFailed(t) in j)
  }

  ghost predicate ChannelsResolved(s: State, j: iset<Fact>) {
    && (forall c: nat :: c < |s.channels| ==> Resolved(s, j, c))
    && (forall t: nat :: t < |s.tasks| ==> LeaderOk(s, j, t))
  }

  lemma SentStays(s: State, a: Action, c: nat)
    requires Enabled(s, a) && c < |s.channels| && s.channels[c].sent.Some?
    ensures c < |Do(s, a).channels| && Do(s, a).channels[c].sent.Some?
  {
  }

  /** The only item of a call that is no batch. */
  lemma SingleLead(task: Task, item: Content, other: Content)
    requires TaskFine(task) && task.phase.Publishing? && task.kind.Single?
    requires item in task.leads && other in task.leads
    ensures item == other
  {
    assert task.leads.Keys <= task.items;
    OnlyElement(task.items, task.items, item);
    assert other in task.items - {item} || other == item;
  }

  lemma LeaderOkPublished(s: State, a: Action, j: iset<Fact>)
    requires Enabled(s, a) && Inv(s) && a.Publish? && s.tasks[a.t].kind.Single?
    ensures LeaderOk(Do(s, a), j, a.t)
  {
    ActsAlone(s, a);
    var task := s.tasks[a.t];
    assert TaskFine(task);
    forall item | item in task.leads ensures item == a.item {
      SingleLead(task, item, a.item);
    }
  }

  lemma EntersPhase(s: State, a: Action)
    requires Enabled(s, a) && IsTaskAction(a) && a != Fetch(a.t, None)
    requires a.Publish? ==> !s.tasks[a.t].kind.Single?
    ensures var phase := Settle(TaskAfter(s, a, s.tasks[a.t])).phase;
      !phase.Sent? && (phase.Failing? ==> s.tasks[a.t].phase.Failing?)
  {
  }

  lemma LeaderOkActing(s: State, a: Action, j: iset<Fact>)
    requires Enabled(s, a) && IsTaskAction(a) && Inv(s) && LeaderOk(s, j, a.t)
    requires forall fact :: Says(s, a, fact) ==> fact in j
    ensures LeaderOk(Do(s, a), j, a.t)
  {
    ActsAlone(s, a);
    if a.Publish? && s.tasks[a.t].kind.Single? {
      LeaderOkPublished(s, a, j);
    } else if a == Fetch(a.t, None) {
      assert Says(s, a, FetchFailed(a.t));
    } else {
      EntersPhase(s, a);
    }
  }

  lemma LeaderOkWaiting(s: State, a: Action, j: iset<Fact>, t: nat)
    requires Enabled(s, a) && t < |s.tasks| && LeaderOk(s, j, t)
    requires t < |Do(s, a).tasks| && Do(s, a).tasks[t] == s.tasks[t]
    ensures LeaderOk(Do(s, a), j, t)
  {
    var leads := s.tasks[t].leads;
    forall item | s.tasks[t].phase.Sent? && item in leads
      ensures leads[item] < |Do(s, a).channels| && Do(s, a).channels[leads[item]].sent.Some?
    {
      SentStays(s, a, leads[item]);
    }
  }

  lemma LeaderOkAfter(s: State, a: Action, j: iset<Fact>, t: nat)
    requires Enabled(s, a) && Inv(s) && t < |Do(s, a).tasks|
    requires t < |s.tasks| ==> LeaderOk(s, j, t)
    requires forall fact :: Says(s, a, fact) ==> fact in j
    ensures LeaderOk(Do(s, a), j, t)
  {
    if IsTaskAction(a) && t == a.t {
      LeaderOkActing(s, a, j);
    } else if t < |s.tasks| {
      LeaderOkWaiting(s, a, j, t);
    }
  }

  lemma LeadDropped(s: State, a: Action, j: iset<Fact>, item: Content, c: nat)
    requires Enabled(s, a) && IsTaskAction(a) && Inv(s) && LeaderOk(s, j, a.t)
    requires LeadsBy(s.tasks[a.t].leads, item, c) && Opened(s, c, a.t, item) && item in Dropped(s, a)
    ensures c < |Do(s, a).channels| && Resolved(Do(s, a), j, c)
  {
    OriginsKept(s, a);
    ActsAlone(s, a);
    if a.PublishRest? {
      SentStays(s, a, c);
    }
  }

  lemma LeadKept(s: State, a: Action, j: iset<Fact>, item: Content, c: nat)
    requires Enabled(s, a) && IsTaskAction(a) && Inv(s)
    requires LeadsBy(s.tasks[a.t].leads, item, c) && Opened(s, c, a.t, item) && item !in Dropped(s, a)
    ensures c < |Do(s, a).channels| && Resolved(Do(s, a), j, c)
  {
    OriginsKept(s, a);
    ActsAlone(s, a);
    assert Leads(s, a.t, item);
    if !OpensChannel(s, a) {
      DroppedLeads(s, a);
    }
    assert LeadsBy(TaskAfter(s, a, s.tasks[a.t]).leads, item, c);
  }

  lemma HalfKept(s: State, a: Action, j: iset<Fact>, c: nat)
    requires Enabled(s, a) && IsTaskAction(a) && Inv(s)
    requires s.tasks[a.t].half.Some? && s.tasks[a.t].half.value.channel == c
    requires c < |s.channels| && s.channels[c].owner == a.t
    ensures c < |Do(s, a).channels| && Resolved(Do(s, a), j, c)
  {
    OriginsKept(s, a);
    ActsAlone(s, a);
    assert TaskFine(s.tasks[a.t]);
    OnlyPublishes(s, a);
  }

  lemma CarriedAfter(s: State, a: Action, j: iset<Fact>, c: nat)
    requires Enabled(s, a) && IsTaskAction(a) && Inv(s) && c < |s.channels|
    requires Carried(s, c) && s.channels[c].owner == a.t && LeaderOk(s, j, a.t)
    ensures c < |Do(s, a).channels| && Resolved(Do(s, a), j, c)
  {
    var item := s.channels[c].item;
    if !LeadsBy(s.tasks[a.t].leads, item, c) {
      HalfKept(s, a, j, c);
    } else if item in Dropped(s, a) {
      LeadDropped(s, a, j, item, c);
    } else {
      LeadKept(s, a, j, item, c);
    }
  }

  lemma CarriedElsewhere(s: State, a: Action, j: iset<Fact>, c: nat)
    requires Enabled(s, a) && c < |s.channels| && Carried(s, c)
    requires IsTaskAction(a) ==> s.channels[c].owner != a.t
    ensures c < |Do(s, a).channels| && Resolved(Do(s, a), j, c)
  {
    OriginsKept(s, a);
    if IsTaskAction(a) {
      ActsAlone(s, a);
    }
  }

  lemma NewChannelResolved(s: State, a: Action, j: iset<Fact>, c: nat)
    requires Enabled(s, a) && |s.channels| <= c < |Do(s, a).channels|
    ensures Resolved(Do(s, a), j, c)
  {
    assert OpensChannel(s, a);
    ActsAlone(s, a);
  }

  lemma ResolvedAfter(s: State, a: Action, j: iset<Fact>, c: nat)
    requires Enabled(s, a) && Inv(s) && c < |Do(s, a).channels| && ChannelsResolved(s, j)
    ensures Resolved(Do(s, a), j, c)
  {
    OriginsKept(s, a);
    if c >= |s.channels| {
      NewChannelResolved(s, a, j, c);
    } else if s.channels[c].sent.Some? {
      SentStays(s, a, c);
    } else if Carried(s, c) && IsTaskAction(a) && s.channels[c].owner == a.t {
      CarriedAfter(s, a, j, c);
    } else if Carried(s, c) {
      CarriedElsewhere(s, a, j, c);
    } else {
      assert Resolved(s, j, c);
    }
  }

  lemma ResolvedWithMore(s: State, j: iset<Fact>, j': iset<Fact>)
    requires ChannelsResolved(s, j) && j <= j'
    ensures ChannelsResolved(s, j')
  {
    forall c: nat | c < |s.channels| ensures Resolved(s, j', c) {
      assert Resolved(s, j, c);
    }
    forall t: nat | t < |s.tasks| ensures LeaderOk(s, j', t) {
      assert LeaderOk(s, j, t);
    }
  }

  lemma ChannelsResolvedAfter(s: State, a: Action, j: iset<Fact>, j': iset<Fact>)
    requires Enabled(s, a) && Inv(s) && ChannelsResolved(s, j) && Noted(s, a, j, j')
    ensures ChannelsResolved(Do(s, a), j')
  {
    ResolvedWithMore(s, j, j');
    forall c: nat | c < |Do(s, a).channels| ensures Resolved(Do(s, a), j', c) {
      ResolvedAfter(s, a, j', c);
    }
    forall t: nat | t < |Do(s, a).tasks| ensures LeaderOk(Do(s, a), j', t) {
      LeaderOkAfter(s, a, j', t);
    }
  }

  /** The call gave up waiting, or joined when the value had been sent, or the owner's query
      failed. */
  ghost predicate Cause(s: State, j: iset<Fact>, t: nat, item: Content, c: nat, late: bool) {
    && c < |s.channels| && s.channels[c].item == item
    && Joined(t, item, c, late) in j
    && (late || GaveUp(t, item) in j || FetchFailed(s.channels[c].owner) in j)
  }

  ghost predicate HasCause(s: State, j: iset<Fact>, t: nat, item: Content) {
    exists c: nat, late: bool :: Cause(s, j, t, item, c, late)
  }

  ghost predicate FallsCaused(s: State, j: iset<Fact>) {
    forall t: nat, item :: t < |s.tasks| && item in s.tasks[t].falling ==> HasCause(s, j, t, item)
  }

  /** A channel that is closed without a value belongs to a leader that failed. */
  lemma ClosedMeansFailed(s: State, j: iset<Fact>, c: nat)
    requires Inv(s) && ChannelsResolved(s, j) && c < |s.channels| && !Open(s, c) && s.channels[c].sent.None?
    ensures FetchFailed(s.channels[c].owner) in j
  {
    assert Resolved(s, j, c);
    var item, u := s.channels[c].item, s.channels[c].owner;
    if u < |s.tasks| && LeadsBy(s.tasks[u].leads, item, c) {
      assert Leads(s, u, item);
    }
  }

  lemma FallingHasCause(s: State, a: Action, j: iset<Fact>)
    requires Enabled(s, a) && (a.SeeClosed? || a.TimeOut?) && Inv(s) && ChannelsResolved(s, j)
    requires FollowsSourced(j, a.t, s.tasks[a.t])
    requires forall fact :: Says(s, a, fact) ==> fact in j
    ensures HasCause(s, j, a.t, s.tasks[a.t].follows[0].item)
  {
    var f := s.tasks[a.t].follows[0];
    assert HandlesOk(s, a.t) && FollowOk(s, f);
    if a.TimeOut? {
      assert Says(s, a, GaveUp(a.t, f.item));
    } else if s.channels[f.channel].sent.None? {
      ClosedMeansFailed(s, j, f.channel);
    }
    assert Cause(s, j, a.t, f.item, f.channel, f.stale);
  }

  lemma CauseStays(s: State, s': State, j: iset<Fact>, j': iset<Fact>, t: nat, item: Content)
    requires HasCause(s, j, t, item) && SameOrigins(s, s') && j <= j'
    ensures HasCause(s', j', t, item)
  {
    var c: nat, late: bool :| Cause(s, j, t, item, c, late);
    assert Cause(s', j', t, item, c, late);
  }

  lemma FallingAfter(s: State, a: Action, item: Content)
    requires Enabled(s, a) && IsTaskAction(a) && item in TaskAfter(s, a, s.tasks[a.t]).falling
    ensures item in s.tasks[a.t].falling || ((a.SeeClosed? || a.TimeOut?) && item == s.tasks[a.t].follows[0].item)
  {
  }

  lemma FallsCausedAfter(s: State, a: Action, j: iset<Fact>, j': iset<Fact>, t: nat, item: Content)
    requires Enabled(s, a) && Inv(s) && FallsCaused(s, j) && ChannelsResolved(s, j') && Noted(s, a, j, j')
    requires IsTaskAction(a) ==> FollowsSourced(j', a.t, s.tasks[a.t])
    requires t < |Do(s, a).tasks| && item in Do(s, a).tasks[t].falling
    ensures HasCause(Do(s, a), j', t, item)
  {
    OriginsKept(s, a);
    if IsTaskAction(a) {
      ActsAlone(s, a);
    }
    if IsTaskAction(a) && t == a.t {
      FallingAfter(s, a, item);
      if item !in s.tasks[t].falling {
        FallingHasCause(s, a, j');
        CauseStays(s, Do(s, a), j', j', t, item);
      } else {
        CauseStays(s, Do(s, a), j, j', t, item);
      }
    } else if t < |s.tasks| {
      CauseStays(s, Do(s, a), j, j', t, item);
    }
  }

  // ---------------------------------------------------------------- what must be stored

  /** The count for this item has been written to both levels, or the call still has to. */
  ghost predicate StoreDue(j: iset<Fact>, t: nat, task: Task, item: Content) {
    || ((task.phase.Publishing? || task.phase.Sent?) && item in task.leads)
    || ((item in task.toL1 || WroteL1(t, item) in j) && (item in task.toRedis || WroteRedis(t, item) in j))
  }

  /** A count that Redis had is in L1, or the call still has to copy it. */
  ghost predicate FillDue(j: iset<Fact>, t: nat, task: Task, item: Content) {
    (task.phase.Reading? && item in task.toFill) || FilledL1(t, item) in j
  }

  /** Followers of a single read return without storing. */
  ghost predicate DueFact(s: State, j: iset<Fact>, fact: Fact) {
    match fact
    case Fetched(t, item, _, _) => t < |s.tasks| && StoreDue(j, t, s.tasks[t], item)
    case Queried(t, item, _) => t < |s.tasks| && (s.tasks[t].kind.Batch? ==> StoreDue(j, t, s.tasks[t], item))
    case DecidedToStore(t, item) => t < |s.tasks| && StoreDue(j, t, s.tasks[t], item)
    case InRedis(t, item, _) => t < |s.tasks| && FillDue(j, t, s.tasks[t], item)
    case _ => true
  }

  ghost predicate StoresDue(s: State, j: iset<Fact>) {
    forall fact :: fact in j ==> DueFact(s, j, fact)
  }

  lemma StoreDueSettled(j: iset<Fact>, t: nat, task: Task, item: Content)
    requires StoreDue(j, t, task, item)
    ensures StoreDue(j, t, Settle(task), item)
  {
  }

  lemma PublishedIsDue(s: State, a: Action, j: iset<Fact>, item: Content)
    requires Enabled(s, a) && (a.Publish? || a.PublishRest?) && TaskFine(s.tasks[a.t])
    requires StoreDue(j, a.t, s.tasks[a.t], item)
    ensures StoreDue(j, a.t, TaskAfter(s, a, s.tasks[a.t]), item)
  {
  }

  lemma StoredIsDue(s: State, a: Action, j: iset<Fact>, item: Content)
    requires Enabled(s, a) && (a.StoreL1? || a.StoreRedis?) && StoreDue(j, a.t, s.tasks[a.t], item)
    requires forall fact :: Says(s, a, fact) ==> fact in j
    ensures StoreDue(j, a.t, TaskAfter(s, a, s.tasks[a.t]), item)
  {
    if a.StoreL1? {
      assert Says(s, a, WroteL1(a.t, a.item));
    } else {
      assert Says(s, a, WroteRedis(a.t, a.item));
    }
  }

  lemma OthersLeaveStores(s: State, a: Action, j: iset<Fact>, item: Content)
    requires Enabled(s, a) && IsTaskAction(a) && TaskFine(s.tasks[a.t])
    requires !a.Publish? && !a.PublishRest? && !a.StoreL1? && !a.StoreRedis?
    requires StoreDue(j, a.t, s.tasks[a.t], item)
    ensures StoreDue(j, a.t, TaskAfter(s, a, s.tasks[a.t]), item)
  {
  }

  lemma StoreDueAfter(s: State, a: Action, j: iset<Fact>, item: Content)
    requires Enabled(s, a) && IsTaskAction(a) && TaskFine(s.tasks[a.t]) && StoreDue(j, a.t, s.tasks[a.t], item)
    requires forall fact :: Says(s, a, fact) ==> fact in j
    ensures StoreDue(j, a.t, Settle(TaskAfter(s, a, s.tasks[a.t])), item)
  {
    if a.Publish? || a.PublishRest? {
      PublishedIsDue(s, a, j, item);
    } else if a.StoreL1? || a.StoreRedis? {
      StoredIsDue(s, a, j, item);
    } else {
      OthersLeaveStores(s, a, j, item);
    }
    StoreDueSettled(j, a.t, TaskAfter(s, a, s.tasks[a.t]), item);
  }

  lemma FillDueAfter(s: State, a: Action, j: iset<Fact>, item: Content)
    requires Enabled(s, a) && IsTaskAction(a) && FillDue(j, a.t, s.tasks[a.t], item)
    requires forall fact :: Says(s, a, fact) ==> fact in j
    ensures FillDue(j, a.t, Settle(TaskAfter(s, a, s.tasks[a.t])), item)
  {
    if a.FillL1? {
      assert Says(s, a, FilledL1(a.t, a.item));
    }
    var task' := TaskAfter(s, a, s.tasks[a.t]);
    assert item in task'.toFill ==> task'.toFill != map[];
  }

  lemma KindStays(s: State, a: Action)
    requires Enabled(s, a) && IsTaskAction(a)
    ensures Settle(TaskAfter(s, a, s.tasks[a.t])).kind == s.tasks[a.t].kind
  {
  }

  lemma OthersFactDue(s: State, a: Action, j: iset<Fact>, fact: Fact)
    requires Enabled(s, a) && DueFact(s, j, fact)
    requires fact.Fetched? || fact.Queried? || fact.DecidedToStore? || fact.InRedis?
    requires IsTaskAction(a) ==> fact.t != a.t
    ensures DueFact(Do(s, a), j, fact)
  {
    if IsTaskAction(a) {
      ActsAlone(s, a);
    }
  }

  lemma OwnFactDue(s: State, a: Action, j: iset<Fact>, fact: Fact)
    requires Enabled(s, a) && IsTaskAction(a) && TaskFine(s.tasks[a.t]) && DueFact(s, j, fact)
    requires (fact.Fetched? || fact.Queried? || fact.DecidedToStore?) && fact.t == a.t
    requires forall f :: Says(s, a, f) ==> f in j
    ensures DueFact(Do(s, a), j, fact)
  {
    ActsAlone(s, a);
    KindStays(s, a);
    if StoreDue(j, a.t, s.tasks[a.t], fact.item) {
      StoreDueAfter(s, a, j, fact.item);
    }
  }

  lemma OldFactDue(s: State, a: Action, j: iset<Fact>, fact: Fact)
    requires Enabled(s, a) && Inv(s) && DueFact(s, j, fact)
    requires forall f :: Says(s, a, f) ==> f in j
    ensures DueFact(Do(s, a), j, fact)
  {
    if fact.Fetched? || fact.Queried? || fact.DecidedToStore? || fact.InRedis? {
      if !IsTaskAction(a) || fact.t != a.t {
        OthersFactDue(s, a, j, fact);
      } else if fact.InRedis? {
        ActsAlone(s, a);
        FillDueAfter(s, a, j, fact.item);
      } else {
        assert s.tasks[a.t] in s.tasks;
        OwnFactDue(s, a, j, fact);
      }
    }
  }

  lemma FoundIsDue(s: State, a: Action, j: iset<Fact>, fact: Fact)
    requires Enabled(s, a) && Says(s, a, fact) && (fact.Queried? || fact.DecidedToStore?)
    ensures DueFact(Do(s, a), j, fact)
  {
    ActsAlone(s, a);
    KindStays(s, a);
  }

  lemma FetchedIsDue(s: State, a: Action, j: iset<Fact>, fact: Fact)
    requires Enabled(s, a) && Says(s, a, fact) && (fact.Fetched? || fact.InRedis?)
    ensures DueFact(Do(s, a), j, fact)
  {
    ActsAlone(s, a);
    var task' := TaskAfter(s, a, s.tasks[a.t]);
    if fact.Fetched? {
      StoreDueSettled(j, a.t, task', fact.item);
    } else {
      assert fact.item in task'.toFill;
    }
  }

  lemma NewFactDue(s: State, a: Action, j: iset<Fact>, fact: Fact)
    requires Enabled(s, a) && Says(s, a, fact)
    ensures DueFact(Do(s, a), j, fact)
  {
    if fact.Fetched? || fact.InRedis? {
      FetchedIsDue(s, a, j, fact);
    } else if fact.Queried? || fact.DecidedToStore? {
      FoundIsDue(s, a, j, fact);
    }
  }

  lemma StoresDueAfter(s: State, a: Action, j: iset<Fact>, j': iset<Fact>)
    requires Enabled(s, a) && Inv(s) && StoresDue(s, j) && Noted(s, a, j, j')
    requires forall fact :: fact in j' ==> fact in j || Says(s, a, fact)
    ensures StoresDue(Do(s, a), j')
  {
    forall fact | fact in j' ensures DueFact(Do(s, a), j', fact) {
      if Says(s, a, fact) {
        NewFactDue(s, a, j', fact);
      } else {
        assert DueFact(s, j, fact);
        OldFactDue(s, a, j', fact);
      }
    }
  }

  // ---------------------------------------------------------------- runs

  ghost predicate AllSourced(s: State, j: iset<Fact>, stored: map<Content, int>) {
    && (forall t: nat :: t < |s.tasks| ==> TaskSourced(j, t, s.tasks[t]))
    && ChannelsSourced(j, s.channels)
    && CachesSourced(j, stored, s.l1, s.redis)
  }

  ghost predicate SourceInv(s: State, j: iset<Fact>, stored: map<Content, int>) {
    && AllSourced(s, j, stored) && AllInOnePlace(s) && FactsKept(s, j)
    && ChannelsResolved(s, j) && FallsCaused(s, j) && StoresDue(s, j)
  }

  lemma CachesWithMore(j: iset<Fact>, j': iset<Fact>, stored: map<Content, int>,
                       l1: map<Content, int>, redis: map<Content, int>)
    requires CachesSourced(j, stored, l1, redis) && j <= j'
    ensures CachesSourced(j', stored, l1, redis)
  {
    forall item, count | Written(j, item, count) ensures Written(j', item, count) {
      var t: nat :| FromDatabase(j, t, item, count);
      assert FromDatabase(j', t, item, count);
    }
  }

  lemma SourcedWithMore(s: State, j: iset<Fact>, j': iset<Fact>, stored: map<Content, int>)
    requires AllSourced(s, j, stored) && j <= j'
    ensures AllSourced(s, j', stored)
  {
    forall t: nat | t < |s.tasks| ensures TaskSourced(j', t, s.tasks[t]) {
      TaskStaysSourced(j, j', t, s.tasks[t]);
    }
    CachesWithMore(j, j', stored, s.l1, s.redis);
  }

  lemma TasksSourcedAfter(s: State, a: Action, j: iset<Fact>, t: nat)
    requires Enabled(s, a) && Inv(s) && t < |Do(s, a).tasks| && ChannelsSourced(j, s.channels)
    requires t < |s.tasks| ==> TaskSourced(j, t, s.tasks[t])
    requires forall fact :: Says(s, a, fact) ==> fact in j
    ensures TaskSourced(j, t, Do(s, a).tasks[t])
  {
    if IsTaskAction(a) {
      ActsAlone(s, a);
    }
    if IsTaskAction(a) && t == a.t {
      assert HandlesOk(s, t) && TaskFine(s.tasks[t]);
      TaskSourcedAfter(s, a, j);
    }
  }

  lemma AllSourcedAfter(s: State, a: Action, j: iset<Fact>, stored: map<Content, int>)
    requires Enabled(s, a) && Inv(s) && AllSourced(s, j, stored)
    requires forall fact :: Says(s, a, fact) ==> fact in j
    ensures AllSourced(Do(s, a), j, stored)
  {
    forall t: nat | t < |Do(s, a).tasks| ensures TaskSourced(j, t, Do(s, a).tasks[t]) {
      TasksSourcedAfter(s, a, j, t);
    }
    ChannelsSourcedAfter(s, a, j);
    L1SourcedAfter(s, a, j, stored);
    RedisSourcedAfter(s, a, j, stored, L1After(s, a));
  }

  lemma SourceInvAfter(s: State, a: Action, j: iset<Fact>, j': iset<Fact>, stored: map<Content, int>)
    requires Enabled(s, a) && Inv(s) && SourceInv(s, j, stored) && Noted(s, a, j, j')
    requires forall fact :: fact in j' ==> fact in j || Says(s, a, fact)
    ensures SourceInv(Do(s, a), j', stored)
  {
    SourcedWithMore(s, j, j', stored);
    AllSourcedAfter(s, a, j', stored);
    AllInOnePlaceAfter(s, a);
    FactsKeptAfter(s, a, j, j');
    StoresDueAfter(s, a, j, j');
    ResolvedWithMore(s, j, j');
    ChannelsResolvedAfter(s, a, j, j');
    forall t: nat, item | t < |Do(s, a).tasks| && item in Do(s, a).tasks[t].falling
      ensures HasCause(Do(s, a), j', t, item)
    {
      FallsCausedAfter(s, a, j, j', t, item);
    }
  }

  /** Step k finds this out. */
  ghost predicate SaidAt(states: seq<State>, actions: seq<Action>, k: nat, fact: Fact) {
    k < |states| && k < |actions| && Says(states[k], actions[k], fact)
  }

  ghost predicate SaidBefore(states: seq<State>, actions: seq<Action>, n: nat, fact: Fact) {
    exists k: nat :: k < n && SaidAt(states, actions, k, fact)
  }

  /** What the first n steps found out. */
  ghost function Journal(states: seq<State>, actions: seq<Action>, n: nat): iset<Fact> {
    iset fact: Fact | SaidBefore(states, actions, n, fact)
  }

  lemma JournalGrows(states: seq<State>, actions: seq<Action>, n: nat)
    requires n < |states| && n < |actions|
    ensures Noted(states[n], actions[n], Journal(states, actions, n), Journal(states, actions, n + 1))
    ensures forall fact :: fact in Journal(states, actions, n + 1) ==>
      fact in Journal(states, actions, n) || Says(states[n], actions[n], fact)
  {
    forall fact | Says(states[n], actions[n], fact) ensures fact in Journal(states, actions, n + 1) {
      assert SaidAt(states, actions, n, fact);
    }
    forall fact | fact in Journal(states, actions, n + 1)
      ensures fact in Journal(states, actions, n) || Says(states[n], actions[n], fact)
    {
      var k: nat :| k < n + 1 && SaidAt(states, actions, k, fact);
    }
  }

  lemma {:induction false} AlwaysSourced(states: seq<State>, actions: seq<Action>, n: nat)
    requires IsRun(states, actions) && n < |states|
    ensures SourceInv(states[n], Journal(states, actions, n), states[0].redis)
  {
    if n > 0 {
      var m := n - 1;
      AlwaysSourced(states, actions, m);
      AlwaysInv(states, actions, m);
      JournalGrows(states, actions, m);
      SourceInvAfter(states[m], actions[m], Journal(states, actions, m), Journal(states, actions, n), states[0].redis);
    }
  }

  // ---------------------------------------------------------------- what calls answer

  /** Whatever a finished call answers for an item was found by a step of the run: it is what
      L1 or Redis held when this call read them, what this call's own query found, or what
      the owner of the channel that this call joined fetched for it. */
  lemma AnswerHasSource(states: seq<State>, actions: seq<Action>, i: nat, t: nat, item: Content)
    requires IsRun(states, actions) && i < |states|
    requires TaskIn(states[i], t, Finished) && item in states[i].tasks[t].items
    ensures item in states[i].tasks[t].results
    ensures Sourced(Journal(states, actions, i), t, item, states[i].tasks[t].results[item])
  {
    FinishedAnswersAll(states, actions, i, t);
    AlwaysSourced(states, actions, i);
  }

  /** A step of call t found this count for the item. */
  ghost predicate FoundBy(j: iset<Fact>, t: nat, item: Content, count: int) {
    || InL1(t, item, count) in j || InRedis(t, item, count) in j
    || Queried(t, item, count) in j || Decided(t, item, count) in j
  }

  lemma FoundIsKept(s: State, j: iset<Fact>, t: nat, item: Content, count: int)
    requires FactsKept(s, j) && FoundBy(j, t, item, count)
    ensures t < |s.tasks| && Has(s.tasks[t].results, item, count)
  {
    if InL1(t, item, count) in j {
      assert FactKept(s, InL1(t, item, count));
    } else if InRedis(t, item, count) in j {
      assert FactKept(s, InRedis(t, item, count));
    } else if Queried(t, item, count) in j {
      assert FactKept(s, Queried(t, item, count));
    } else {
      assert FactKept(s, Decided(t, item, count));
    }
  }

  /** The other way round: whatever a step of a finished call found is its answer. */
  lemma FoundIsAnswered(states: seq<State>, actions: seq<Action>, i: nat, t: nat, item: Content, count: int)
    requires IsRun(states, actions) && i < |states| && TaskIn(states[i], t, Finished)
    requires var j := Journal(states, actions, i);
      FoundBy(j, t, item, count) || exists c: nat :: Fetched(t, item, c, count) in j
    ensures Has(states[i].tasks[t].results, item, count)
  {
    AlwaysSourced(states, actions, i);
    var j := Journal(states, actions, i);
    if c: nat :| Fetched(t, item, c, count) in j {
      assert FactKept(states[i], Fetched(t, item, c, count));
    } else {
      FoundIsKept(states[i], j, t, item, count);
    }
  }

  /** A call that found nothing by itself answers what the owner of its channel answers. */
  lemma FollowerAgrees(states: seq<State>, actions: seq<Action>, i: nat, t: nat, item: Content)
      returns (c: nat, u: nat)
    requires IsRun(states, actions) && i < |states|
    requires TaskIn(states[i], t, Finished) && item in states[i].tasks[t].items
    requires forall count :: !FoundBy(Journal(states, actions, i), t, item, count)
    ensures Opened(states[i], c, u, item)
    ensures exists late: bool :: Joined(t, item, c, late) in Journal(states, actions, i)
    ensures item in states[i].tasks[t].results
    ensures Fetched(u, item, c, states[i].tasks[t].results[item]) in Journal(states, actions, i)
    ensures TaskIn(states[i], u, Finished) ==> Has(states[i].tasks[u].results, item, states[i].tasks[t].results[item])
  {
    AnswerHasSource(states, actions, i, t, item);
    AlwaysSourced(states, actions, i);
    var j, count := Journal(states, actions, i), states[i].tasks[t].results[item];
    assert !FoundBy(j, t, item, count) && FromChannel(j, t, item, count);
    var late: bool;
    c, late, u :| Joined(t, item, c, late) in j && Fetched(u, item, c, count) in j;
    assert FactKept(states[i], Fetched(u, item, c, count));
  }

  /** The queries of this step read the counts of the moment. */
  ghost predicate ReadsNow(s: State, a: Action) {
    match a
    case Fetch(_, fetched) =>
      fetched.Some? ==> forall item :: item in fetched.value ==> fetched.value[item] == Ledger.Count(s.counts, item)
    case Query(t, found) =>
      found.Some? && t < |s.tasks| ==>
        forall item :: item in s.tasks[t].falling ==> found.value == Ledger.Count(s.counts, item)
    case _ => true
  }

  lemma ReadNowIsCurrent(s: State, a: Action, fact: Fact)
    requires ReadsNow(s, a) && Says(s, a, fact) && (fact.Fetched? || fact.Queried?)
    ensures fact.count == Ledger.Count(s.counts, fact.item)
  {
  }

  /** If every query reads the counts of its moment, an answer that neither a cache nor the
      call's own transaction gave was current when it was queried: by this call, or by the
      owner of the channel that it joined. */
  lemma AnswerWasCurrent(states: seq<State>, actions: seq<Action>, i: nat, t: nat, item: Content)
      returns (k: nat, fact: Fact)
    requires IsRun(states, actions) && i < |states|
    requires forall m :: 0 <= m < |actions| ==> ReadsNow(states[m], actions[m])
    requires TaskIn(states[i], t, Finished) && item in states[i].tasks[t].items
    requires forall count ::
      InL1(t, item, count) !in Journal(states, actions, i) && InRedis(t, item, count) !in Journal(states, actions, i)
      && Decided(t, item, count) !in Journal(states, actions, i)
    ensures item in states[i].tasks[t].results && k < i && SaidAt(states, actions, k, fact)
    ensures states[i].tasks[t].results[item] == Ledger.Count(states[k].counts, item)
    ensures
      || fact == Queried(t, item, states[i].tasks[t].results[item])
      || (fact.Fetched? && fact.item == item && fact.count == states[i].tasks[t].results[item]
          && exists late: bool :: Joined(t, item, fact.channel, late) in Journal(states, actions, i))
  {
    AnswerHasSource(states, actions, i, t, item);
    var j, count := Journal(states, actions, i), states[i].tasks[t].results[item];
    if Queried(t, item, count) in j {
      fact := Queried(t, item, count);
    } else {
      var c: nat, late: bool, u: nat :| Joined(t, item, c, late) in j && Fetched(u, item, c, count) in j;
      fact := Fetched(u, item, c, count);
    }
    assert SaidBefore(states, actions, i, fact);
    k :| k < i && SaidAt(states, actions, k, fact);
    ReadNowIsCurrent(states[k], actions[k], fact);
  }

  /** Coalescing: a follower queries on its own only if it gave up waiting, or joined when the
      value had been sent, or the owner's query failed. */
  lemma QueryHasCause(states: seq<State>, actions: seq<Action>, k: nat, item: Content)
    requires IsRun(states, actions) && k < |actions| && actions[k].Query?
    requires actions[k].t < |states[k].tasks| && item in states[k].tasks[actions[k].t].falling
    ensures HasCause(states[k], Journal(states, actions, k), actions[k].t, item)
  {
    AlwaysSourced(states, actions, k);
  }

  /** Nobody is elected for an item that it has not missed in L1 and then in Redis. */
  lemma OnlyMissesAreElected(states: seq<State>, actions: seq<Action>, k: nat)
    requires IsRun(states, actions) && k < |actions| && actions[k].Elect?
    ensures MissedL1(actions[k].t, actions[k].item) in Journal(states, actions, k)
    ensures MissedRedis(actions[k].t, actions[k].item) in Journal(states, actions, k)
  {
    AlwaysSourced(states, actions, k);
  }

  /** A call has failed if and only if one of its own queries has. */
  lemma FailsIffQueryFailed(states: seq<State>, actions: seq<Action>, i: nat, t: nat)
    requires IsRun(states, actions) && i < |states| && t < |states[i].tasks|
    ensures var phase, j := states[i].tasks[t].phase, Journal(states, actions, i);
      phase.Failing? || phase.Failed? <==> FetchFailed(t) in j || QueryFailed(t) in j
  {
    AlwaysSourced(states, actions, i);
    assert FetchFailed(t) in Journal(states, actions, i) ==> FactKept(states[i], FetchFailed(t));
    assert QueryFailed(t) in Journal(states, actions, i) ==> FactKept(states[i], QueryFailed(t));
  }

  /** In every reachable state each count in L1 was read from Redis or from the database by a
      call, and each count in Redis was there at the start, or another process wrote it, or a
      call read it from the database. */
  lemma CachesHaveSource(states: seq<State>, actions: seq<Action>, i: nat)
    requires IsRun(states, actions) && i < |states|
    ensures CachesSourced(Journal(states, actions, i), states[0].redis, states[i].l1, states[i].redis)
  {
    AlwaysSourced(states, actions, i);
  }

  lemma NothingDue(s: State, j: iset<Fact>, fact: Fact)
    requires DueFact(s, j, fact) && (fact.Fetched? || fact.Queried? || fact.DecidedToStore? || fact.InRedis?)
    requires TaskIn(s, fact.t, Finished) && TaskOk(s.tasks[fact.t])
    requires fact.Queried? ==> s.tasks[fact.t].kind.Batch?
    ensures if fact.InRedis? then FilledL1(fact.t, fact.item) in j
      else WroteL1(fact.t, fact.item) in j && WroteRedis(fact.t, fact.item) in j
  {
  }

  /** A call that has finished has stored at both levels what it fetched, what a batch queried
      for an item it followed, and what a command decided to store, and has copied to L1 what
      it found in Redis. */
  lemma FinishedHasStored(states: seq<State>, actions: seq<Action>, i: nat, fact: Fact)
    requires IsRun(states, actions) && i < |states| && fact in Journal(states, actions, i)
    requires fact.Fetched? || fact.Queried? || fact.DecidedToStore? || fact.InRedis?
    requires TaskIn(states[i], fact.t, Finished)
    requires fact.Queried? ==> states[i].tasks[fact.t].kind.Batch?
    ensures var j := Journal(states, actions, i);
      if fact.InRedis? then FilledL1(fact.t, fact.item) in j
      else WroteL1(fact.t, fact.item) in j && WroteRedis(fact.t, fact.item) in j
  {
    AlwaysSourced(states, actions, i);
    AlwaysInv(states, actions, i);
    var task := states[i].tasks[fact.t];
    assert task in states[i].tasks && TaskFine(task);
    NothingDue(states[i], Journal(states, actions, i), fact);
  }

  /** What these writes leave in a cache is what the call found for the item. */
  lemma WrittenWasFound(states: seq<State>, actions: seq<Action>, k: nat) returns (count: int)
    requires IsRun(states, actions) && k < |actions|
    requires actions[k].StoreL1? || (actions[k].StoreRedis? && actions[k].up) || actions[k].FillL1?
    ensures var j, t, item := Journal(states, actions, k), actions[k].t, actions[k].item;
      if actions[k].FillL1? then InRedis(t, item, count) in j
      else t < |states[k].tasks| && ToStore(j, t, states[k].tasks[t].kind, item, count)
    ensures Has(if actions[k].StoreRedis? then states[k + 1].redis else states[k + 1].l1, actions[k].item, count)
  {
    AlwaysSourced(states, actions, k);
    var task := states[k].tasks[actions[k].t];
    count := if actions[k].FillL1? then task.toFill[actions[k].item] else task.values[actions[k].item];
  }
}
