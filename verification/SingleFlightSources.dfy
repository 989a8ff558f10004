/**
 Where the counts come from: what a call answers, and what the caches hold, was found by a
 step of the run, and a follower queries only for a cause.
 */
module SingleFlightSources {
  import opened Basics
  import Ledger
  import opened SingleFlight
  import opened SingleFlightProofs

  /** What a step can find out. */
  datatype Fact =
    | InL1(t: nat, item: Content, count: int)
    | InRedis(t: nat, item: Content, count: int)
    | MissedL1(t: nat, item: Content)
    | MissedRedis(t: nat, item: Content)
    | Joined(t: nat, item: Content, channel: nat, late: bool)
    | Fetched(t: nat, item: Content, channel: nat, count: int)
    | FetchFailed(t: nat)
    | GaveUp(t: nat, item: Content)
    | Queried(t: nat, item: Content, count: int)
    | QueryFailed(t: nat)
    | Decided(t: nat, item: Content, count: int)
    | DecidedToStore(t: nat, item: Content)
    | FilledL1(t: nat, item: Content)
    | WroteL1(t: nat, item: Content)
    | WroteRedis(t: nat, item: Content)
    | Elsewhere(item: Content, count: int)

  predicate Has(counts: map<Content, int>, item: Content, count: int) {
    item in counts && counts[item] == count
  }

  /** Task t joins the channel that is pending for the item, late if its value has been sent,
      or opens the next one. */
  predicate Joins(s: State, item: Content, channel: nat, late: bool) {
    if item in s.pending
    then channel == s.pending[item] && (late <==> channel < |s.channels| && s.channels[channel].sent.Some?)
    else channel == |s.channels| && !late
  }

  /** Action `a` in state `s` is the step that finds this out. */
  predicate Says(s: State, a: Action, fact: Fact) {
    match fact
    case InL1(t, item, count) => a == CheckL1(t, item) && Has(s.l1, item, count)
    case InRedis(t, item, count) => a == AskRedis(t, item, true) && Has(s.redis, item, count)
    case MissedL1(t, item) => a == CheckL1(t, item) && item !in s.l1
    case MissedRedis(t, item) => a.AskRedis? && a.t == t && a.item == item && (!a.up || item !in s.redis)
    case Joined(t, item, channel, late) => a == Elect(t, item) && Joins(s, item, channel, late)
    case Fetched(t, item, channel, count) =>
      && a.Fetch? && a.t == t && a.fetched.Some? && Has(a.fetched.value, item, count)
      && t < |s.tasks| && item in s.tasks[t].leads && s.tasks[t].leads[item] == channel
    case FetchFailed(t) => a == Fetch(t, None)
    case GaveUp(t, item) =>
      a == TimeOut(t) && t < |s.tasks| && s.tasks[t].follows != [] && s.tasks[t].follows[0].item == item
    case Queried(t, item, count) => a == Query(t, Some(count)) && t < |s.tasks| && item in s.tasks[t].falling
    case QueryFailed(t) => a == Query(t, None)
    case DecidedToStore(t, item) =>
      a.Decide? && a.t == t && a.writes && t < |s.tasks| && item in s.tasks[t].items
    case FilledL1(t, item) => a == FillL1(t, item)
    case WroteL1(t, item) => a == StoreL1(t, item)
    case WroteRedis(t, item) => a.StoreRedis? && a.t == t && a.item == item
    case Decided(t, item, count) =>
      a.Decide? && a.t == t && a.count == count && t < |s.tasks| && item in s.tasks[t].items
    case Elsewhere(item, count) => a == WriteElsewhere(item, count)
  }

  // ---------------------------------------------------------------- what a task holds

  ghost predicate LeadsSourced(j: iset<Fact>, t: nat, task: Task) {
    && (forall item :: item in task.leads ==> Joined(t, item, task.leads[item], false) in j)
    && (task.half.Some? ==> Joined(t, task.half.value.item, task.half.value.channel, false) in j)
  }

  ghost predicate FollowsSourced(j: iset<Fact>, t: nat, task: Task) {
    forall f :: f in task.follows ==> Joined(t, f.item, f.channel, f.stale) in j
  }

  /** While values are published, they are those fetched for the channels. */
  ghost predicate PublishedSourced(j: iset<Fact>, t: nat, task: Task) {
    && (task.phase.Publishing? || task.phase.Sent? ==>
          forall item :: item in task.leads && item in task.values ==>
            Fetched(t, item, task.leads[item], task.values[item]) in j)
    && (task.half.Some? && task.half.value.item in task.values ==>
          var half := task.half.value;
          Fetched(t, half.item, half.channel, task.values[half.item]) in j)
  }

  /** The call itself got this count from the database. */
  ghost predicate FromDatabase(j: iset<Fact>, t: nat, item: Content, count: int) {
    || (exists c: nat :: Fetched(t, item, c, count) in j)
    || Queried(t, item, count) in j
    || Decided(t, item, count) in j
  }

  /** What a call stores: what it fetched as a leader, what a batch queried for an item that
      it followed, and what a command decided to store. */
  ghost predicate ToStore(j: iset<Fact>, t: nat, kind: Kind, item: Content, count: int) {
    || (exists c: nat :: Fetched(t, item, c, count) in j)
    || (kind.Batch? && Queried(t, item, count) in j)
    || (DecidedToStore(t, item) in j && Decided(t, item, count) in j)
  }

  ghost predicate ValuesSourced(j: iset<Fact>, t: nat, task: Task) {
    && (forall item :: item in task.values ==> ToStore(j, t, task.kind, item, task.values[item]))
    && (forall item :: item in task.toFill ==> InRedis(t, item, task.toFill[item]) in j)
  }

  /** The call joined a channel, and this count was fetched for it. */
  ghost predicate FromChannel(j: iset<Fact>, t: nat, item: Content, count: int) {
    exists c: nat, late: bool, u: nat :: Joined(t, item, c, late) in j && Fetched(u, item, c, count) in j
  }

  /** Where an answer can come from. */
  ghost predicate Sourced(j: iset<Fact>, t: nat, item: Content, count: int) {
    || InL1(t, item, count) in j
    || InRedis(t, item, count) in j
    || Queried(t, item, count) in j
    || Decided(t, item, count) in j
    || FromChannel(j, t, item, count)
  }

  ghost predicate ResultsSourced(j: iset<Fact>, t: nat, task: Task) {
    forall item :: item in task.results ==> Sourced(j, t, item, task.results[item])
  }

  /** What is asked further on was missed before. */
  ghost predicate MissesSourced(j: iset<Fact>, t: nat, task: Task) {
    && (forall item :: item in task.toAsk + task.missing ==> MissedL1(t, item) in j)
    && (forall item :: item in task.missing ==> MissedRedis(t, item) in j)
  }

  /** A call fails when one of its own queries has failed. */
  ghost predicate FailureSourced(j: iset<Fact>, t: nat, task: Task) {
    task.phase.Failing? || task.phase.Failed? ==> FetchFailed(t) in j || QueryFailed(t) in j
  }

  ghost predicate TaskSourced(j: iset<Fact>, t: nat, task: Task) {
    && FailureSourced(j, t, task)
    && MissesSourced(j, t, task)
    && LeadsSourced(j, t, task) && FollowsSourced(j, t, task) && PublishedSourced(j, t, task)
    && ValuesSourced(j, t, task) && ResultsSourced(j, t, task)
  }

  /** What was sent was fetched for the channel by its owner. */
  ghost predicate ChannelsSourced(j: iset<Fact>, channels: seq<Channel>) {
    forall c: nat :: c < |channels| && channels[c].sent.Some? ==>
      Fetched(channels[c].owner, channels[c].item, c, channels[c].sent.value) in j
  }

  /** The journal after a step has what it had, and what the step says. */
  ghost predicate Noted(s: State, a: Action, j: iset<Fact>, j': iset<Fact>) {
    j <= j' && forall fact :: Says(s, a, fact) ==> fact in j'
  }

  lemma SettledIsSourced(j: iset<Fact>, t: nat, task: Task)
    requires TaskSourced(j, t, task)
    ensures TaskSourced(j, t, Settle(task))
  {
  }

  lemma TaskStaysSourced(j: iset<Fact>, j': iset<Fact>, t: nat, task: Task)
    requires TaskSourced(j, t, task) && j <= j'
    ensures TaskSourced(j', t, task)
  {
    forall item | item in task.results ensures Sourced(j', t, item, task.results[item]) {
      assert Sourced(j, t, item, task.results[item]);
    }
  }

  lemma MissesSourcedAfter(s: State, a: Action, j: iset<Fact>)
    requires Enabled(s, a) && IsTaskAction(a) && MissesSourced(j, a.t, s.tasks[a.t])
    requires forall fact :: Says(s, a, fact) ==> fact in j
    ensures MissesSourced(j, a.t, TaskAfter(s, a, s.tasks[a.t]))
  {
    if a.CheckL1? && a.item !in s.l1 {
      assert Says(s, a, MissedL1(a.t, a.item));
    } else if a.AskRedis? && (!a.up || a.item !in s.redis) {
      assert Says(s, a, MissedRedis(a.t, a.item));
    }
  }

  lemma FailureSourcedAfter(s: State, a: Action, j: iset<Fact>)
    requires Enabled(s, a) && IsTaskAction(a) && FailureSourced(j, a.t, s.tasks[a.t])
    requires forall fact :: Says(s, a, fact) ==> fact in j
    ensures FailureSourced(j, a.t, TaskAfter(s, a, s.tasks[a.t]))
  {
    if a == Fetch(a.t, None) {
      assert Says(s, a, FetchFailed(a.t));
    } else if a == Query(a.t, None) {
      assert Says(s, a, QueryFailed(a.t));
    }
  }

  lemma LeadsSourcedAfter(s: State, a: Action, j: iset<Fact>)
    requires Enabled(s, a) && IsTaskAction(a) && LeadsSourced(j, a.t, s.tasks[a.t])
    requires forall fact :: Says(s, a, fact) ==> fact in j
    ensures LeadsSourced(j, a.t, TaskAfter(s, a, s.tasks[a.t]))
  {
    if a.Elect? && a.item !in s.pending {
      assert Says(s, a, Joined(a.t, a.item, |s.channels|, false));
    }
  }

  lemma FollowsSourcedAfter(s: State, a: Action, j: iset<Fact>)
    requires Enabled(s, a) && IsTaskAction(a) && FollowsSourced(j, a.t, s.tasks[a.t])
    requires forall fact :: Says(s, a, fact) ==> fact in j
    ensures FollowsSourced(j, a.t, TaskAfter(s, a, s.tasks[a.t]))
  {
    if a.Elect? && a.item in s.pending {
      var c := s.pending[a.item];
      assert Says(s, a, Joined(a.t, a.item, c, c < |s.channels| && s.channels[c].sent.Some?));
    }
  }

  lemma PublishedSourcedAfter(s: State, a: Action, j: iset<Fact>)
    requires Enabled(s, a) && IsTaskAction(a) && PublishedSourced(j, a.t, s.tasks[a.t])
    requires TaskOk(s.tasks[a.t])
    requires forall fact :: Says(s, a, fact) ==> fact in j
    ensures PublishedSourced(j, a.t, TaskAfter(s, a, s.tasks[a.t]))
  {
    var task := s.tasks[a.t];
    if a.Fetch? && a.fetched.Some? {
      forall item | item in task.leads ensures Fetched(a.t, item, task.leads[item], a.fetched.value[item]) in j {
        assert Says(s, a, Fetched(a.t, item, task.leads[item], a.fetched.value[item]));
      }
    }
  }

  lemma FetchedValuesSourced(s: State, a: Action, j: iset<Fact>)
    requires Enabled(s, a) && a.Fetch? && a.fetched.Some? && ValuesSourced(j, a.t, s.tasks[a.t])
    requires forall fact :: Says(s, a, fact) ==> fact in j
    ensures ValuesSourced(j, a.t, TaskAfter(s, a, s.tasks[a.t]))
  {
    var leads := s.tasks[a.t].leads;
    forall item | item in leads ensures ToStore(j, a.t, s.tasks[a.t].kind, item, a.fetched.value[item]) {
      assert Says(s, a, Fetched(a.t, item, leads[item], a.fetched.value[item]));
    }
  }

  lemma QueriedValuesSourced(s: State, a: Action, j: iset<Fact>)
    requires Enabled(s, a) && (a.Query? || a.Decide?) && TaskOk(s.tasks[a.t]) && ValuesSourced(j, a.t, s.tasks[a.t])
    requires forall fact :: Says(s, a, fact) ==> fact in j
    ensures ValuesSourced(j, a.t, TaskAfter(s, a, s.tasks[a.t]))
  {
    var task := s.tasks[a.t];
    if a.Query? && a.found.Some? {
      assert forall item :: item in task.falling ==> Says(s, a, Queried(a.t, item, a.found.value));
    } else if a.Decide? && a.writes {
      assert forall item :: item in task.items ==> Says(s, a, Decided(a.t, item, a.count));
      assert forall item :: item in task.items ==> Says(s, a, DecidedToStore(a.t, item));
    }
  }

  lemma ValuesSourcedAfter(s: State, a: Action, j: iset<Fact>)
    requires Enabled(s, a) && IsTaskAction(a) && TaskOk(s.tasks[a.t]) && ValuesSourced(j, a.t, s.tasks[a.t])
    requires forall fact :: Says(s, a, fact) ==> fact in j
    ensures ValuesSourced(j, a.t, TaskAfter(s, a, s.tasks[a.t]))
  {
    if a.Fetch? && a.fetched.Some? {
      FetchedValuesSourced(s, a, j);
    } else if a.AskRedis? && a.up && a.item in s.redis {
      assert Says(s, a, InRedis(a.t, a.item, s.redis[a.item]));
    } else if a.Query? || a.Decide? {
      QueriedValuesSourced(s, a, j);
    }
  }

  lemma ChannelGivesSource(j: iset<Fact>, t: nat, item: Content, c: nat, late: bool, u: nat, count: int)
    requires Joined(t, item, c, late) in j && Fetched(u, item, c, count) in j
    ensures Sourced(j, t, item, count)
  {
    assert FromChannel(j, t, item, count);
  }

  lemma LookedUpIsSourced(s: State, a: Action, j: iset<Fact>)
    requires Enabled(s, a) && (a.CheckL1? || a.AskRedis?) && ResultsSourced(j, a.t, s.tasks[a.t])
    requires forall fact :: Says(s, a, fact) ==> fact in j
    ensures ResultsSourced(j, a.t, TaskAfter(s, a, s.tasks[a.t]))
  {
    if a.CheckL1? && a.item in s.l1 {
      assert Says(s, a, InL1(a.t, a.item, s.l1[a.item]));
    } else if a.AskRedis? && a.up && a.item in s.redis {
      assert Says(s, a, InRedis(a.t, a.item, s.redis[a.item]));
    }
  }

  lemma QueriedIsSourced(s: State, a: Action, j: iset<Fact>)
    requires Enabled(s, a) && (a.Query? || a.Decide?) && ResultsSourced(j, a.t, s.tasks[a.t])
    requires forall fact :: Says(s, a, fact) ==> fact in j
    ensures ResultsSourced(j, a.t, TaskAfter(s, a, s.tasks[a.t]))
  {
    var task := s.tasks[a.t];
    if a.Query? && a.found.Some? {
      assert forall item :: item in task.falling ==> Says(s, a, Queried(a.t, item, a.found.value));
    } else if a.Decide? {
      assert forall item :: item in task.items ==> Says(s, a, Decided(a.t, item, a.count));
    }
  }

  lemma PublishedResult(j: iset<Fact>, t: nat, task: Task, item: Content)
    requires LeadsSourced(j, t, task) && PublishedSourced(j, t, task)
    requires (task.phase.Publishing? || task.phase.Sent?) && item in task.leads && item in task.values
    ensures Sourced(j, t, item, task.values[item])
  {
    ChannelGivesSource(j, t, item, task.leads[item], false, t, task.values[item]);
  }

  lemma PublishedIsSourced(s: State, a: Action, j: iset<Fact>)
    requires Enabled(s, a) && (a.Publish? || a.PublishRest?)
    requires TaskOk(s.tasks[a.t]) && TaskSourced(j, a.t, s.tasks[a.t])
    ensures ResultsSourced(j, a.t, TaskAfter(s, a, s.tasks[a.t]))
  {
    var task := s.tasks[a.t];
    if a.Publish? {
      PublishedResult(j, a.t, task, a.item);
    } else if task.phase.Sent? {
      forall item | item in task.values ensures Sourced(j, a.t, item, task.values[item]) {
        PublishedResult(j, a.t, task, item);
      }
    }
  }

  lemma ReceivedIsSourced(s: State, a: Action, j: iset<Fact>)
    requires Enabled(s, a) && a.Receive?
    requires HandlesOk(s, a.t) && ChannelsSourced(j, s.channels) && TaskSourced(j, a.t, s.tasks[a.t])
    ensures ResultsSourced(j, a.t, TaskAfter(s, a, s.tasks[a.t]))
  {
    var f := s.tasks[a.t].follows[0];
    var channel := s.channels[f.channel];
    assert FollowOk(s, f);
    ChannelGivesSource(j, a.t, f.item, f.channel, f.stale, channel.owner, channel.sent.value);
  }

  lemma ResultsSourcedAfter(s: State, a: Action, j: iset<Fact>)
    requires Enabled(s, a) && IsTaskAction(a)
    requires TaskOk(s.tasks[a.t]) && HandlesOk(s, a.t)
    requires ChannelsSourced(j, s.channels) && TaskSourced(j, a.t, s.tasks[a.t])
    requires forall fact :: Says(s, a, fact) ==> fact in j
    ensures ResultsSourced(j, a.t, TaskAfter(s, a, s.tasks[a.t]))
  {
    if a.CheckL1? || a.AskRedis? {
      LookedUpIsSourced(s, a, j);
    } else if a.Query? || a.Decide? {
      QueriedIsSourced(s, a, j);
    } else if a.Publish? || a.PublishRest? {
      PublishedIsSourced(s, a, j);
    } else if a.Receive? {
      ReceivedIsSourced(s, a, j);
    } else {
      assert TaskAfter(s, a, s.tasks[a.t]).results == s.tasks[a.t].results;
    }
  }

  lemma TaskSourcedAfter(s: State, a: Action, j: iset<Fact>)
    requires Enabled(s, a) && IsTaskAction(a)
    requires TaskOk(s.tasks[a.t]) && HandlesOk(s, a.t)
    requires ChannelsSourced(j, s.channels) && TaskSourced(j, a.t, s.tasks[a.t])
    requires forall fact :: Says(s, a, fact) ==> fact in j
    ensures TaskSourced(j, a.t, Settle(TaskAfter(s, a, s.tasks[a.t])))
  {
    FailureSourcedAfter(s, a, j);
    MissesSourcedAfter(s, a, j);
    LeadsSourcedAfter(s, a, j);
    FollowsSourcedAfter(s, a, j);
    PublishedSourcedAfter(s, a, j);
    ValuesSourcedAfter(s, a, j);
    ResultsSourcedAfter(s, a, j);
    SettledIsSourced(j, a.t, TaskAfter(s, a, s.tasks[a.t]));
  }

  // ---------------------------------------------------------------- what the channels and caches hold

  lemma SendSourced(j: iset<Fact>, channels: seq<Channel>, c: nat, count: int)
    requires ChannelsSourced(j, channels) && c < |channels|
    requires Fetched(channels[c].owner, channels[c].item, c, count) in j
    ensures ChannelsSourced(j, Send(channels, c, count))
  {
  }

  lemma ChannelsSourcedAfter(s: State, a: Action, j: iset<Fact>)
    requires Enabled(s, a) && Inv(s) && ChannelsSourced(j, s.channels)
    requires IsTaskAction(a) ==> TaskSourced(j, a.t, s.tasks[a.t])
    ensures ChannelsSourced(j, ChannelsAfter(s, a))
  {
    if a.Publish? {
      assert Leads(s, a.t, a.item);
      var task := s.tasks[a.t];
      SendSourced(j, s.channels, task.leads[a.item], task.values[a.item]);
    } else if a.PublishRest? && s.tasks[a.t].half.Some? {
      assert HandlesOk(s, a.t);
      var task := s.tasks[a.t];
      assert TaskFine(task);
      SendSourced(j, s.channels, task.half.value.channel, task.values[task.half.value.item]);
    }
  }

  /** Some call got this count from the database. */
  ghost predicate Written(j: iset<Fact>, item: Content, count: int) {
    exists t: nat :: FromDatabase(j, t, item, count)
  }

  /** What L1 holds was read from Redis or from the database; what Redis holds was there at
      the start, or another process or a call of this one wrote it. */
  ghost predicate CachesSourced(j: iset<Fact>, stored: map<Content, int>, l1: map<Content, int>,
                                redis: map<Content, int>) {
    && (forall item :: item in l1 ==>
          (exists t: nat :: InRedis(t, item, l1[item]) in j) || Written(j, item, l1[item]))
    && (forall item :: item in redis ==>
          Has(stored, item, redis[item]) || Elsewhere(item, redis[item]) in j || Written(j, item, redis[item]))
  }

  lemma L1SourcedAfter(s: State, a: Action, j: iset<Fact>, stored: map<Content, int>)
    requires Enabled(s, a) && CachesSourced(j, stored, s.l1, s.redis)
    requires IsTaskAction(a) ==> ValuesSourced(j, a.t, s.tasks[a.t])
    ensures CachesSourced(j, stored, L1After(s, a), s.redis)
  {
    if a.StoreL1? {
      assert ToStore(j, a.t, s.tasks[a.t].kind, a.item, s.tasks[a.t].values[a.item]);
      assert FromDatabase(j, a.t, a.item, s.tasks[a.t].values[a.item]);
    }
  }

  lemma RedisSourcedAfter(s: State, a: Action, j: iset<Fact>, stored: map<Content, int>, l1: map<Content, int>)
    requires Enabled(s, a) && CachesSourced(j, stored, l1, s.redis)
    requires IsTaskAction(a) ==> ValuesSourced(j, a.t, s.tasks[a.t])
    requires forall fact :: Says(s, a, fact) ==> fact in j
    ensures CachesSourced(j, stored, l1, RedisAfter(s, a))
  {
    if a.StoreRedis? {
      assert ToStore(j, a.t, s.tasks[a.t].kind, a.item, s.tasks[a.t].values[a.item]);
      assert FromDatabase(j, a.t, a.item, s.tasks[a.t].values[a.item]);
    } else if a.WriteElsewhere? {
      assert Says(s, a, Elsewhere(a.item, a.count));
    }
  }

  // ---------------------------------------------------------------- an item is in one place

  function Times(follows: seq<Follow>, item: Content): nat {
    if follows == [] then 0 else (if follows[0].item == item then 1 else 0) + Times(follows[1..], item)
  }

  lemma {:induction false} TimesAppend(follows: seq<Follow>, f: Follow, item: Content)
    ensures Times(follows + [f], item) == Times(follows, item) + if f.item == item then 1 else 0
  {
    if follows != [] {
      assert (follows + [f])[1..] == follows[1..] + [f];
      TimesAppend(follows[1..], f, item);
    }
  }

  function One(b: bool): nat {
    if b then 1 else 0
  }

  /** How often the item is answered or on its way to an answer. */
  function Places(task: Task, item: Content): nat {
    One(item in task.results) + One(item in task.toCheck) + One(item in task.toAsk) + One(item in task.missing)
    + One(item in task.leads) + One(item in task.falling) + Times(task.follows, item)
  }

  ghost predicate OnePlace(task: Task) {
    && (forall item :: Places(task, item) <= 1)
    && (task.phase.Deciding? ==> task.results == map[])
  }

  lemma PlacesElected(s: State, a: Action, item: Content)
    requires Enabled(s, a) && a.Elect?
    ensures Places(TaskAfter(s, a, s.tasks[a.t]), item) <= Places(s.tasks[a.t], item)
  {
    var task, task' := s.tasks[a.t], TaskAfter(s, a, s.tasks[a.t]);
    if a.item in s.pending {
      TimesAppend(task.follows, task'.follows[|task.follows|], item);
    }
  }

  lemma PlacesAfter(s: State, a: Action, item: Content)
    requires Enabled(s, a) && IsTaskAction(a) && !a.Decide? && TaskOk(s.tasks[a.t])
    ensures Places(TaskAfter(s, a, s.tasks[a.t]), item) <= Places(s.tasks[a.t], item)
  {
    if a.Elect? {
      PlacesElected(s, a, item);
    }
  }

  lemma OnePlaceDecided(s: State, a: Action)
    requires Enabled(s, a) && a.Decide? && TaskOk(s.tasks[a.t]) && Placed(s.tasks[a.t])
    ensures OnePlace(TaskAfter(s, a, s.tasks[a.t]))
  {
    var task' := TaskAfter(s, a, s.tasks[a.t]);
    forall item ensures Places(task', item) <= 1 {
      assert Times([], item) == 0;
    }
  }

  lemma OnePlaceSettled(task: Task)
    requires OnePlace(task)
    ensures OnePlace(Settle(task))
  {
    forall item ensures Places(Settle(task), item) <= 1 {
      assert Places(task, item) <= 1;
    }
  }

  lemma OnePlaceAfter(s: State, a: Action)
    requires Enabled(s, a) && IsTaskAction(a) && TaskFine(s.tasks[a.t]) && OnePlace(s.tasks[a.t])
    ensures OnePlace(Settle(TaskAfter(s, a, s.tasks[a.t])))
  {
    if a.Decide? {
      OnePlaceDecided(s, a);
    } else {
      forall item ensures Places(TaskAfter(s, a, s.tasks[a.t]), item) <= 1 {
        PlacesAfter(s, a, item);
      }
      assert !TaskAfter(s, a, s.tasks[a.t]).phase.Deciding?;
    }
    OnePlaceSettled(TaskAfter(s, a, s.tasks[a.t]));
  }

  lemma OnePlaceNew(kind: Kind, items: set<Content>)
    ensures OnePlace(NewTask(kind, items))
  {
  }

  // ---------------------------------------------------------------- what is found is answered

  /** The call has the count as its answer, or is about to publish it. */
  predicate Keeps(task: Task, item: Content, count: int) {
    || Has(task.results, item, count)
    || ((task.phase.Publishing? || task.phase.Sent?) && item in task.leads && Has(task.values, item, count))
  }

  /** What is answered is not on its way any more. */
  predicate Done(task: Task, item: Content) {
    && item !in task.toCheck && item !in task.toAsk && item !in task.missing && item !in task.leads
    && item !in task.falling && !task.phase.Deciding?
    && (task.follows != [] ==> task.follows[0].item != item)
  }

  lemma AnsweredIsDone(task: Task, item: Content)
    requires OnePlace(task) && item in task.results
    ensures Done(task, item)
  {
    assert Places(task, item) <= 1;
  }

  lemma DoneStays(s: State, a: Action, item: Content, count: int)
    requires Enabled(s, a) && IsTaskAction(a) && TaskOk(s.tasks[a.t]) && Done(s.tasks[a.t], item)
    requires Has(s.tasks[a.t].results, item, count)
    ensures Has(TaskAfter(s, a, s.tasks[a.t]).results, item, count)
  {
  }

  lemma ResultStays(s: State, a: Action, item: Content, count: int)
    requires Enabled(s, a) && IsTaskAction(a) && TaskFine(s.tasks[a.t]) && OnePlace(s.tasks[a.t])
    requires Has(s.tasks[a.t].results, item, count)
    ensures Has(TaskAfter(s, a, s.tasks[a.t]).results, item, count)
  {
    AnsweredIsDone(s.tasks[a.t], item);
    DoneStays(s, a, item, count);
  }

  lemma SettledKeeps(task: Task, item: Content, count: int)
    requires Keeps(task, item, count)
    ensures Keeps(Settle(task), item, count)
  {
  }

  lemma OnlyPublishes(s: State, a: Action)
    requires Enabled(s, a) && IsTaskAction(a) && (s.tasks[a.t].phase.Publishing? || s.tasks[a.t].phase.Sent?)
    ensures a.Publish? || a.PublishRest?
  {
  }

  lemma PublishingKeeps(s: State, a: Action, item: Content, count: int)
    requires Enabled(s, a) && (a.Publish? || a.PublishRest?)
    requires item in s.tasks[a.t].leads && Has(s.tasks[a.t].values, item, count)
    ensures Keeps(TaskAfter(s, a, s.tasks[a.t]), item, count)
  {
  }

  lemma KeepsAfter(s: State, a: Action, item: Content, count: int)
    requires Enabled(s, a) && IsTaskAction(a) && TaskFine(s.tasks[a.t]) && OnePlace(s.tasks[a.t])
    requires Keeps(s.tasks[a.t], item, count)
    ensures Keeps(Settle(TaskAfter(s, a, s.tasks[a.t])), item, count)
  {
    if Has(s.tasks[a.t].results, item, count) {
      ResultStays(s, a, item, count);
    } else {
      OnlyPublishes(s, a);
      PublishingKeeps(s, a, item, count);
    }
    SettledKeeps(TaskAfter(s, a, s.tasks[a.t]), item, count);
  }


  /** What was found is the answer of the call, or on its way to it. */
  ghost predicate FactKept(s: State, fact: Fact) {
    match fact
    case InL1(t, item, count) => t < |s.tasks| && Has(s.tasks[t].results, item, count)
    case InRedis(t, item, count) => t < |s.tasks| && Has(s.tasks[t].results, item, count)
    case Queried(t, item, count) => t < |s.tasks| && Has(s.tasks[t].results, item, count)
    case Decided(t, item, count) => t < |s.tasks| && Has(s.tasks[t].results, item, count)
    case Fetched(t, item, c, count) => Opened(s, c, t, item) && t < |s.tasks| && Keeps(s.tasks[t], item, count)
    case Joined(t, item, c, _) => c < |s.channels| && s.channels[c].item == item
    case FetchFailed(t) => TaskIn(s, t, Failing) || TaskIn(s, t, Phase.Failed)
    case QueryFailed(t) => TaskIn(s, t, Phase.Failed)
    case _ => true
  }

  lemma KeptByOthers(s: State, a: Action, fact: Fact)
    requires Enabled(s, a) && FactKept(s, fact)
    requires IsTaskAction(a) && !fact.Joined? && !fact.Elsewhere? ==> fact.t != a.t
    ensures FactKept(Do(s, a), fact)
  {
    OriginsKept(s, a);
    if IsTaskAction(a) {
      ActsAlone(s, a);
    }
  }

  lemma KeptByItself(s: State, a: Action, fact: Fact)
    requires Enabled(s, a) && IsTaskAction(a) && FactKept(s, fact)
    requires !fact.Joined? && !fact.Elsewhere? && fact.t == a.t
    requires TaskFine(s.tasks[a.t]) && OnePlace(s.tasks[a.t])
    ensures FactKept(Do(s, a), fact)
  {
    OriginsKept(s, a);
    ActsAlone(s, a);
    if fact.Fetched? {
      KeepsAfter(s, a, fact.item, fact.count);
    } else if fact.InL1? || fact.InRedis? || fact.Queried? || fact.Decided? {
      ResultStays(s, a, fact.item, fact.count);
    }
  }

  lemma NewJoinKept(s: State, a: Action, fact: Fact)
    requires Enabled(s, a) && Inv(s) && fact.Joined? && Says(s, a, fact)
    ensures FactKept(Do(s, a), fact)
  {
    OriginsKept(s, a);
    assert a.item in s.pending ==> Leads(s, s.channels[s.pending[a.item]].owner, a.item);
  }

  lemma NewFetchKept(s: State, a: Action, fact: Fact)
    requires Enabled(s, a) && Inv(s) && fact.Fetched? && Says(s, a, fact)
    ensures FactKept(Do(s, a), fact)
  {
    OriginsKept(s, a);
    ActsAlone(s, a);
    assert Leads(s, a.t, fact.item);
    assert Keeps(TaskAfter(s, a, s.tasks[a.t]), fact.item, fact.count);
    SettledKeeps(TaskAfter(s, a, s.tasks[a.t]), fact.item, fact.count);
  }

  lemma NewFoundKept(s: State, a: Action, fact: Fact)
    requires Enabled(s, a) && Says(s, a, fact) && !fact.Joined? && !fact.Fetched? && !fact.Elsewhere?
    ensures FactKept(Do(s, a), fact)
  {
    ActsAlone(s, a);
  }

  lemma NewFactKept(s: State, a: Action, fact: Fact)
    requires Enabled(s, a) && Inv(s) && Says(s, a, fact)
    ensures FactKept(Do(s, a), fact)
  {
    if fact.Joined? {
      NewJoinKept(s, a, fact);
    } else if fact.Fetched? {
      NewFetchKept(s, a, fact);
    } else if !fact.Elsewhere? {
      NewFoundKept(s, a, fact);
    }
  }

  ghost predicate FactsKept(s: State, j: iset<Fact>) {
    forall fact :: fact in j ==> FactKept(s, fact)
  }

  ghost predicate AllInOnePlace(s: State) {
    forall t: nat :: t < |s.tasks| ==> OnePlace(s.tasks[t])
  }

  lemma AllInOnePlaceAfter(s: State, a: Action)
    requires Enabled(s, a) && Inv(s) && AllInOnePlace(s)
    ensures AllInOnePlace(Do(s, a))
  {
    if IsTaskAction(a) {
      ActsAlone(s, a);
      OnePlaceAfter(s, a);
    } else if a.Spawn? {
      OnePlaceNew(a.kind, a.items);
    }
  }

  lemma FactsKeptAfter(s: State, a: Action, j: iset<Fact>, j': iset<Fact>)
    requires Enabled(s, a) && Inv(s) && AllInOnePlace(s) && FactsKept(s, j)
    requires forall fact :: fact in j' ==> fact in j || Says(s, a, fact)
    ensures FactsKept(Do(s, a), j')
  {
    forall fact | fact in j' ensures FactKept(Do(s, a), fact) {
      if Says(s, a, fact) {
        NewFactKept(s, a, fact);
      } else if IsTaskAction(a) && !fact.Joined? && !fact.Elsewhere? && fact.t == a.t {
        KeptByItself(s, a, fact);
      } else {
        KeptByOthers(s, a, fact);
      }
    }
  }
}
