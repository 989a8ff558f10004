/**
 What every interleaving of count readers keeps: one leader for each key in flight, no
 count that was never committed, and somebody who can step until everybody has finished.
 */
module SingleFlightProofs {
  import opened Basics
  import Ledger
  import opened SingleFlight

  // ---------------------------------------------------------------- tasks

  ghost predicate TaskFine(task: Task) {
    TaskOk(task) && Placed(task) && Covered(task)
  }

  lemma TaskFineAfter(s: State, a: Action)
    requires Enabled(s, a) && IsTaskAction(a) && TaskFine(s.tasks[a.t])
    ensures TaskFine(Settle(TaskAfter(s, a, s.tasks[a.t])))
  {
    TaskOkAfter(s, a);
    PlacedAfter(s, a);
    CoveredAfter(s, a);
  }

  lemma TaskFineNew(kind: Kind, items: set<Content>)
    requires items != {} && (!kind.Batch? ==> |items| == 1)
    ensures TaskFine(NewTask(kind, items))
  {
    assert FollowItems([]) == {};
  }

  // ---------------------------------------------------------------- leaders

  /** Who created channel `c`, and for which item. */
  predicate Opened(s: State, c: nat, t: nat, item: Content) {
    c < |s.channels| && s.channels[c].owner == t && s.channels[c].item == item
  }

  predicate Leads(s: State, t: nat, item: Content) {
    t < |s.tasks| && item in s.tasks[t].leads
  }

  /** The pending map and the tasks' leads say the same. */
  ghost predicate LeadsMatch(s: State) {
    && (forall item :: item in s.pending ==>
          var c := s.pending[item];
          && c < |s.channels| && Leads(s, s.channels[c].owner, item))
    && (forall t: nat, item :: Leads(s, t, item) ==>
          && item in s.pending && s.pending[item] == s.tasks[t].leads[item]
          && Opened(s, s.tasks[t].leads[item], t, item))
  }

  predicate HandlesOk(s: State, t: nat)
    requires t < |s.tasks|
  {
    var task := s.tasks[t];
    && (task.half.Some? ==> Opened(s, task.half.value.channel, t, task.half.value.item))
    && (task.tx.Some? ==> task.tx.value < |s.channels| && s.channels[task.tx.value].owner == t)
    && (forall f :: f in task.follows ==> FollowOk(s, f))
  }

  predicate FollowOk(s: State, f: Follow) {
    f.channel < |s.channels| && s.channels[f.channel].item == f.item
  }

  ghost predicate Inv(s: State) {
    && LeadsMatch(s)
    && (forall t: nat :: t < |s.tasks| ==> HandlesOk(s, t))
    && (forall task :: task in s.tasks ==> TaskFine(task))
  }

  predicate SameOrigins(s: State, s': State) {
    && |s.channels| <= |s'.channels|
    && forall c :: 0 <= c < |s.channels| ==>
         s'.channels[c].owner == s.channels[c].owner && s'.channels[c].item == s.channels[c].item
  }

  lemma OriginsKept(s: State, a: Action)
    requires Enabled(s, a)
    ensures SameOrigins(s, Do(s, a))
  {
    assert SameOrigins(s, s.(channels := ChannelsAfter(s, a)));
  }

  lemma DroppedLeads(s: State, a: Action)
    requires Enabled(s, a) && IsTaskAction(a) && !OpensChannel(s, a)
    ensures Dropped(s, a) <= s.tasks[a.t].leads.Keys
    ensures TaskAfter(s, a, s.tasks[a.t]).leads == s.tasks[a.t].leads - Dropped(s, a)
  {
  }

  /** Every task other than `t` is the same, and none is gone. */
  ghost predicate OthersSame(s: State, s': State, t: nat) {
    |s'.tasks| == |s.tasks| && forall u: nat :: u < |s.tasks| && u != t ==> s'.tasks[u] == s.tasks[u]
  }

  lemma ActsAlone(s: State, a: Action)
    requires Enabled(s, a) && IsTaskAction(a)
    ensures a.t < |s.tasks| && OthersSame(s, Do(s, a), a.t)
    ensures Do(s, a).tasks[a.t] == Settle(TaskAfter(s, a, s.tasks[a.t]))
  {
  }

  lemma LeadsMatchDrop(s: State, s': State, t: nat, dropped: set<Content>)
    requires LeadsMatch(s) && SameOrigins(s, s') && t < |s.tasks| && OthersSame(s, s', t)
    requires dropped <= s.tasks[t].leads.Keys
    requires s'.pending == s.pending - dropped && s'.tasks[t].leads == s.tasks[t].leads - dropped
    ensures LeadsMatch(s')
  {
    forall item | item in s'.pending
      ensures s'.pending[item] < |s'.channels| && Leads(s', s'.channels[s'.pending[item]].owner, item)
    {
      assert Leads(s, s.channels[s.pending[item]].owner, item);
    }
    forall u: nat, item | Leads(s', u, item)
      ensures item in s'.pending && s'.pending[item] == s'.tasks[u].leads[item]
      ensures Opened(s', s'.tasks[u].leads[item], u, item)
    {
      assert Leads(s, u, item);
      assert item in dropped ==> Leads(s, t, item);
    }
  }

  lemma LeadsMatchOpen(s: State, a: Action)
    requires Enabled(s, a) && LeadsMatch(s) && OpensChannel(s, a)
    ensures LeadsMatch(Do(s, a))
  {
    var s' := Do(s, a);
    ActsAlone(s, a);
    assert s'.pending == s.pending[a.item := |s.channels|];
    assert s'.channels == s.channels + [Channel(a.item, a.t, None)];
    assert s'.tasks[a.t].leads == s.tasks[a.t].leads[a.item := |s.channels|];
    forall item | item in s'.pending
      ensures s'.pending[item] < |s'.channels| && Leads(s', s'.channels[s'.pending[item]].owner, item)
    {
      assert item != a.item ==> Leads(s, s.channels[s.pending[item]].owner, item);
    }
    forall u: nat, item | Leads(s', u, item)
      ensures item in s'.pending && s'.pending[item] == s'.tasks[u].leads[item]
      ensures Opened(s', s'.tasks[u].leads[item], u, item)
    {
      assert u != a.t || item != a.item ==> Leads(s, u, item);
    }
  }

  lemma LeadsMatchAround(s: State, a: Action)
    requires Enabled(s, a) && LeadsMatch(s) && !IsTaskAction(a)
    ensures LeadsMatch(Do(s, a))
  {
    var s' := Do(s, a);
    assert s'.pending == s.pending && s'.channels == s.channels;
    assert forall u: nat, item :: Leads(s', u, item) <==> Leads(s, u, item);
  }

  lemma LeadsMatchPreserved(s: State, a: Action)
    requires Enabled(s, a) && LeadsMatch(s)
    ensures LeadsMatch(Do(s, a))
  {
    if OpensChannel(s, a) {
      LeadsMatchOpen(s, a);
    } else if IsTaskAction(a) {
      ActsAlone(s, a);
      OriginsKept(s, a);
      DroppedLeads(s, a);
      LeadsMatchDrop(s, Do(s, a), a.t, Dropped(s, a));
    } else {
      LeadsMatchAround(s, a);
    }
  }

  /** Nothing new to hold or to wait for. */
  ghost predicate FewerHandles(task: Task, task': Task) {
    && (task'.half.None? || task'.half == task.half)
    && (task'.tx.None? || task'.tx == task.tx)
    && (forall f :: f in task'.follows ==> f in task.follows)
  }

  lemma HandlesKept(s: State, s': State, t: nat)
    requires t < |s.tasks| && t < |s'.tasks| && HandlesOk(s, t)
    requires SameOrigins(s, s') && FewerHandles(s.tasks[t], s'.tasks[t])
    ensures HandlesOk(s', t)
  {
  }

  lemma HandlesFewer(s: State, a: Action)
    requires Enabled(s, a) && IsTaskAction(a) && !a.Elect?
    requires a.Publish? ==> s.tasks[a.t].kind.Single?
    ensures FewerHandles(s.tasks[a.t], Settle(TaskAfter(s, a, s.tasks[a.t])))
  {
    assert FewerHandles(s.tasks[a.t], TaskAfter(s, a, s.tasks[a.t]));
  }

  lemma HandlesFollowed(s: State, a: Action)
    requires Enabled(s, a) && a.Elect? && a.item in s.pending && LeadsMatch(s) && HandlesOk(s, a.t)
    ensures HandlesOk(s.(tasks := s.tasks[a.t := TaskAfter(s, a, s.tasks[a.t])]), a.t)
  {
    assert Leads(s, s.channels[s.pending[a.item]].owner, a.item);
    var task := TaskAfter(s, a, s.tasks[a.t]);
    assert task.half == s.tasks[a.t].half && task.tx == s.tasks[a.t].tx;
    assert FollowOk(s, task.follows[|task.follows| - 1]);
  }

  lemma HandlesSettled(s: State, s': State, t: nat, task: Task)
    requires t < |s.tasks| && t < |s'.tasks| && SameOrigins(s, s')
    requires HandlesOk(s.(tasks := s.tasks[t := task]), t) && s'.tasks[t] == Settle(task)
    ensures HandlesOk(s', t)
  {
  }

  lemma HandlesOpened(s: State, a: Action)
    requires Enabled(s, a) && OpensChannel(s, a) && HandlesOk(s, a.t)
    ensures HandlesOk(Do(s, a), a.t)
  {
    ActsAlone(s, a);
    OriginsKept(s, a);
    var task := TaskAfter(s, a, s.tasks[a.t]);
    assert task.half == s.tasks[a.t].half && task.follows == s.tasks[a.t].follows;
    assert Opened(Do(s, a), |s.channels|, a.t, a.item);
  }

  lemma HandlesPublished(s: State, a: Action)
    requires Enabled(s, a) && a.Publish? && !s.tasks[a.t].kind.Single? && LeadsMatch(s) && HandlesOk(s, a.t)
    ensures HandlesOk(Do(s, a), a.t)
  {
    ActsAlone(s, a);
    OriginsKept(s, a);
    assert Leads(s, a.t, a.item);
    var task := TaskAfter(s, a, s.tasks[a.t]);
    assert task.tx == s.tasks[a.t].tx && task.follows == s.tasks[a.t].follows;
    assert task.half == Some(Follow(a.item, s.tasks[a.t].leads[a.item], false));
  }

  lemma HandlesOkPreserved(s: State, a: Action, t: nat)
    requires Enabled(s, a) && Inv(s) && t < |Do(s, a).tasks|
    ensures HandlesOk(Do(s, a), t)
  {
    OriginsKept(s, a);
    if IsTaskAction(a) {
      ActsAlone(s, a);
    }
    if IsTaskAction(a) && t == a.t {
      if OpensChannel(s, a) {
        HandlesOpened(s, a);
      } else if a.Elect? {
        HandlesFollowed(s, a);
        HandlesSettled(s, Do(s, a), t, TaskAfter(s, a, s.tasks[t]));
      } else if a.Publish? && !s.tasks[t].kind.Single? {
        HandlesPublished(s, a);
      } else {
        HandlesFewer(s, a);
        HandlesKept(s, Do(s, a), t);
      }
    } else if t < |s.tasks| {
      HandlesKept(s, Do(s, a), t);
    }
  }

  /** Every step of every interleaving keeps the invariant. */
  lemma InvPreserved(s: State, a: Action)
    requires Enabled(s, a) && Inv(s)
    ensures Inv(Do(s, a))
  {
    LeadsMatchPreserved(s, a);
    forall t: nat | t < |Do(s, a).tasks| ensures HandlesOk(Do(s, a), t) {
      HandlesOkPreserved(s, a, t);
    }
    if IsTaskAction(a) {
      ActsAlone(s, a);
      TaskFineAfter(s, a);
    } else if a.Spawn? {
      TaskFineNew(a.kind, a.items);
    }
  }

  // ---------------------------------------------------------------- values

  /** Every count in the map was committed for its item. */
  ghost predicate Known(s: State, counts: map<Content, int>) {
    forall item :: item in counts ==> WasCommitted(s, item, counts[item])
  }

  ghost predicate TaskKnown(s: State, task: Task) {
    Known(s, task.toFill) && Known(s, task.values) && Known(s, task.results)
  }

  ghost predicate CachesKnown(s: State) {
    && Known(s, s.counts) && s.initial.Keys <= s.counts.Keys
    && Known(s, s.l1) && Known(s, s.redis)
  }

  ghost predicate ChannelsKnown(s: State, channels: seq<Channel>) {
    forall channel :: channel in channels && channel.sent.Some? ==>
      WasCommitted(s, channel.item, channel.sent.value)
  }

  ghost predicate SharedKnown(s: State) {
    CachesKnown(s) && ChannelsKnown(s, s.channels)
  }

  ghost predicate ValuesOk(s: State) {
    SharedKnown(s) && forall task :: task in s.tasks ==> TaskKnown(s, task)
  }

  predicate Remembers(s: State, s': State) {
    s'.initial == s.initial && s.seen <= s'.seen
  }

  lemma KnownStays(s: State, s': State, counts: map<Content, int>)
    requires Remembers(s, s') && Known(s, counts)
    ensures Known(s', counts)
  {
  }

  lemma SettledIsKnown(s: State, task: Task)
    requires TaskKnown(s, task)
    ensures TaskKnown(s, Settle(task))
  {
  }

  lemma ReceiveKnown(s: State, a: Action)
    requires Enabled(s, a) && a.Receive?
    requires HandlesOk(s, a.t) && ChannelsKnown(s, s.channels) && TaskKnown(s, s.tasks[a.t])
    ensures TaskKnown(s, TaskAfter(s, a, s.tasks[a.t]))
  {
    var f := s.tasks[a.t].follows[0];
    assert FollowOk(s, f);
    assert s.channels[f.channel] in s.channels;
  }

  lemma ReadingKnown(s: State, a: Action)
    requires Enabled(s, a) && (a.CheckL1? || a.AskRedis? || a.FillL1?)
    requires CachesKnown(s) && TaskKnown(s, s.tasks[a.t])
    ensures TaskKnown(s, TaskAfter(s, a, s.tasks[a.t]))
  {
  }

  lemma LeadingKnown(s: State, a: Action)
    requires Enabled(s, a) && (a.Fetch? || a.Publish? || a.PublishRest?)
    requires TaskKnown(s, s.tasks[a.t])
    ensures TaskKnown(s, TaskAfter(s, a, s.tasks[a.t]))
  {
  }

  lemma QueriedKnown(s: State, a: Action)
    requires Enabled(s, a) && (a.Query? || a.Decide?)
    requires TaskKnown(s, s.tasks[a.t])
    ensures TaskKnown(s, TaskAfter(s, a, s.tasks[a.t]))
  {
  }

  lemma TaskKnownAfter(s: State, a: Action)
    requires Enabled(s, a) && IsTaskAction(a) && Inv(s) && SharedKnown(s) && TaskKnown(s, s.tasks[a.t])
    ensures TaskKnown(s, TaskAfter(s, a, s.tasks[a.t]))
  {
    var task, task' := s.tasks[a.t], TaskAfter(s, a, s.tasks[a.t]);
    if a.Receive? {
      assert HandlesOk(s, a.t);
      ReceiveKnown(s, a);
    } else if a.CheckL1? || a.AskRedis? || a.FillL1? {
      ReadingKnown(s, a);
    } else if a.Fetch? || a.Publish? || a.PublishRest? {
      LeadingKnown(s, a);
    } else if a.Query? || a.Decide? {
      QueriedKnown(s, a);
    } else {
      assert task'.toFill == task.toFill && task'.values == task.values && task'.results == task.results;
    }
  }

  lemma L1KnownAfter(s: State, a: Action)
    requires Enabled(s, a) && Known(s, s.l1)
    requires IsTaskAction(a) ==> TaskKnown(s, s.tasks[a.t])
    ensures Known(s, L1After(s, a))
  {
  }

  lemma RedisKnownAfter(s: State, a: Action)
    requires Enabled(s, a) && Known(s, s.redis)
    requires IsTaskAction(a) ==> TaskKnown(s, s.tasks[a.t])
    ensures Known(s, RedisAfter(s, a))
  {
  }

  lemma CachesKnownAfter(s: State, a: Action)
    requires Enabled(s, a) && CachesKnown(s)
    requires IsTaskAction(a) ==> TaskKnown(s, s.tasks[a.t])
    ensures CachesKnown(Do(s, a))
  {
    L1KnownAfter(s, a);
    RedisKnownAfter(s, a);
    var s' := Do(s, a);
    KnownStays(s, s', L1After(s, a));
    KnownStays(s, s', RedisAfter(s, a));
    KnownStays(s, s', s.counts);
  }

  lemma SendKnown(s: State, channels: seq<Channel>, c: nat, count: int)
    requires ChannelsKnown(s, channels) && c < |channels| && WasCommitted(s, channels[c].item, count)
    ensures ChannelsKnown(s, Send(channels, c, count))
  {
  }

  lemma ChannelsKnownAfter(s: State, a: Action)
    requires Enabled(s, a) && Inv(s) && ChannelsKnown(s, s.channels)
    requires IsTaskAction(a) ==> TaskKnown(s, s.tasks[a.t])
    ensures ChannelsKnown(s, ChannelsAfter(s, a))
  {
    if a.Publish? {
      assert Leads(s, a.t, a.item);
      var task := s.tasks[a.t];
      SendKnown(s, s.channels, task.leads[a.item], task.values[a.item]);
    } else if a.PublishRest? && s.tasks[a.t].half.Some? {
      assert HandlesOk(s, a.t);
      var task := s.tasks[a.t];
      assert TaskFine(task);
      SendKnown(s, s.channels, task.half.value.channel, task.values[task.half.value.item]);
    }
  }

  /** No step makes up a count. */
  lemma ValuesPreserved(s: State, a: Action)
    requires Enabled(s, a) && Inv(s) && ValuesOk(s)
    ensures ValuesOk(Do(s, a))
  {
    var s' := Do(s, a);
    CachesKnownAfter(s, a);
    ChannelsKnownAfter(s, a);
    if IsTaskAction(a) {
      ActsAlone(s, a);
      TaskKnownAfter(s, a);
      SettledIsKnown(s, TaskAfter(s, a, s.tasks[a.t]));
    }
    forall task | task in s'.tasks ensures TaskKnown(s', task) {
      assert TaskKnown(s, task);
    }
  }

  // ---------------------------------------------------------------- runs

  /** A process starts with nothing in flight. `seen` are the commits of the past, and Redis
      may hold any of their counts. */
  ghost predicate Start(s: State) {
    && s.counts == s.initial
    && s.l1 == map[] && Known(s, s.redis)
    && s.pending == map[] && s.channels == [] && s.tasks == []
  }

  ghost predicate IsRun(states: seq<State>, actions: seq<Action>) {
    && |states| == |actions| + 1
    && Start(states[0])
    && forall i :: 0 <= i < |actions| ==> Enabled(states[i], actions[i]) && states[i + 1] == Do(states[i], actions[i])
  }

  lemma {:induction false} AlwaysInv(states: seq<State>, actions: seq<Action>, i: nat)
    requires IsRun(states, actions) && i < |states|
    ensures Inv(states[i]) && ValuesOk(states[i])
  {
    if i > 0 {
      AlwaysInv(states, actions, i - 1);
      InvPreserved(states[i - 1], actions[i - 1]);
      ValuesPreserved(states[i - 1], actions[i - 1]);
    }
  }

  /** In every reachable state a key is pending exactly if some task leads it, that task is
      the only one, and it is still running and not waiting for anybody. */
  lemma OneLeaderPerKey(states: seq<State>, actions: seq<Action>, i: nat, item: Content)
    requires IsRun(states, actions) && i < |states|
    ensures item in states[i].pending <==> exists t: nat :: Leads(states[i], t, item)
    ensures forall t: nat, u: nat :: Leads(states[i], t, item) && Leads(states[i], u, item) ==> t == u
    ensures forall t: nat :: Leads(states[i], t, item) ==> Leading(states[i].tasks[t].phase)
  {
    AlwaysInv(states, actions, i);
    var s := states[i];
    if item in s.pending {
      assert Leads(s, s.channels[s.pending[item]].owner, item);
    }
    forall t: nat | Leads(s, t, item) ensures Leading(s.tasks[t].phase) {
      assert TaskFine(s.tasks[t]);
    }
  }

  /** Whoever waits, or has finished or failed, has published or removed everything it led. */
  lemma WaitersHoldNothing(states: seq<State>, actions: seq<Action>, i: nat, t: nat)
    requires IsRun(states, actions) && i < |states| && t < |states[i].tasks|
    requires !Leading(states[i].tasks[t].phase) && !states[i].tasks[t].phase.Storing?
    ensures states[i].tasks[t].leads == map[] && states[i].tasks[t].half.None? && states[i].tasks[t].tx.None?
    ensures forall c: nat :: c < |states[i].channels| && states[i].channels[c].owner == t ==> !Open(states[i], c)
  {
    AlwaysInv(states, actions, i);
    var s := states[i];
    assert TaskFine(s.tasks[t]);
    forall c: nat | c < |s.channels| && s.channels[c].owner == t ensures !Open(s, c) {
      var item := s.channels[c].item;
      assert item in s.pending && s.pending[item] == c ==> Leads(s, t, item);
    }
  }

  /** A finished call answers every item it was asked for and nothing else. */
  lemma FinishedAnswersAll(states: seq<State>, actions: seq<Action>, i: nat, t: nat)
    requires IsRun(states, actions) && i < |states| && TaskIn(states[i], t, Finished)
    ensures states[i].tasks[t].results.Keys == states[i].tasks[t].items
  {
    AlwaysInv(states, actions, i);
    var task := states[i].tasks[t];
    assert TaskFine(task);
    assert FollowItems(task.follows) == {};
  }

  lemma NewlyCommitted(s: State, a: Action, item: Content, count: int)
    requires Enabled(s, a) && WasCommitted(Do(s, a), item, count) && !WasCommitted(s, item, count)
    ensures Ledger.Count(Do(s, a).counts, item) == count
  {
    assert a == Commit(item, count);
  }

  ghost predicate FirstSeen(states: seq<State>, j: nat, item: Content, count: int) {
    && j < |states| && WasCommitted(states[j], item, count)
    && (j > 0 ==> !WasCommitted(states[j - 1], item, count))
  }

  lemma {:induction false} FirstMoment(states: seq<State>, i: nat, item: Content, count: int) returns (j: nat)
    requires i < |states| && WasCommitted(states[i], item, count)
    ensures j <= i && FirstSeen(states, j, item, count)
    decreases i
  {
    j := i;
    if i > 0 && WasCommitted(states[i - 1], item, count) {
      j := FirstMoment(states, i - 1, item, count);
    }
  }

  lemma FirstSeenIsCurrent(states: seq<State>, actions: seq<Action>, j: nat, item: Content, count: int)
    requires IsRun(states, actions) && FirstSeen(states, j, item, count)
    ensures (item, count) in states[0].seen || Ledger.Count(states[j].counts, item) == count
  {
    if j > 0 {
      NewlyCommitted(states[j - 1], actions[j - 1], item, count);
    } else {
      assert Start(states[0]);
    }
  }

  /** No fabricated counts: whatever a finished call answers, through L1, Redis, its own
      query, a leader or the fallback, was committed before the process started, or was the
      committed count at some moment of the run. */
  lemma AnswerWasCommitted(states: seq<State>, actions: seq<Action>, i: nat, t: nat, item: Content)
      returns (j: nat)
    requires IsRun(states, actions) && i < |states|
    requires TaskIn(states[i], t, Finished) && item in states[i].tasks[t].items
    ensures item in states[i].tasks[t].results && j <= i
    ensures var count := states[i].tasks[t].results[item];
      (item, count) in states[0].seen || count == Ledger.Count(states[j].counts, item)
  {
    AlwaysInv(states, actions, i);
    FinishedAnswersAll(states, actions, i, t);
    assert TaskKnown(states[i], states[i].tasks[t]);
    var count := states[i].tasks[t].results[item];
    j := FirstMoment(states, i, item, count);
    FirstSeenIsCurrent(states, actions, j, item, count);
  }

  /** State i of the readers' run has the tables of state clock[i] of the ledger's run, and what
      was committed before the readers started was in an earlier state of the ledger. */
  ghost predicate OverLedger(states: seq<State>, ledger: seq<Ledger.State>, clock: seq<nat>) {
    && |clock| == |states| > 0
    && (forall k :: 0 <= k < |states| ==> clock[k] < |ledger| && states[k].counts == ledger[clock[k]].counts)
    && forall past :: past in states[0].seen ==>
         exists m: nat :: m <= clock[0] && Ledger.Count(ledger[m].counts, past.0) == past.1
  }

  /** Over a ledger whose transactions interleave with the readers, every count answered was
      the number of committed `likes` rows at some moment up to the answer. */
  lemma AnswerCountedRows(states: seq<State>, actions: seq<Action>,
      ledger: seq<Ledger.State>, steps: seq<Ledger.Action>, clock: seq<nat>,
      i: nat, t: nat, item: Content)
      returns (m: nat)
    requires IsRun(states, actions) && Ledger.IsRun(ledger, steps) && OverLedger(states, ledger, clock)
    requires i < |states| && TaskIn(states[i], t, Finished) && item in states[i].tasks[t].items
    ensures item in states[i].tasks[t].results && m < |ledger|
    ensures m <= clock[0] || m in clock[..i + 1]
    ensures states[i].tasks[t].results[item] == Ledger.NumLikes(ledger[m].likes, item)
  {
    var j := AnswerWasCommitted(states, actions, i, t, item);
    var past := (item, states[i].tasks[t].results[item]);
    if past in states[0].seen {
      m :| m <= clock[0] && Ledger.Count(ledger[m].counts, past.0) == past.1;
    } else {
      m := clock[j];
      assert clock[..i + 1][j] == m;
    }
    Ledger.CountsMatchAlways(ledger, steps, m);
  }
}
