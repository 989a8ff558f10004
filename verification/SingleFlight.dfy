/**
 Concurrent count reads: single and batch readers elect one leader for each missing key,
 leaders query and publish, followers wait on the leader's channel, and commands and
 evictions run in between. One action is one access to shared state.
 */
module SingleFlight {
  import opened Basics
  import Ledger

  datatype Kind = Single | Batch | Command

  datatype Phase =
    | Reading      // L1, then Redis, for each item
    | Electing     // lead or follow each missing item
    | Fetching     // one query for the led items
    | Publishing   // send the value and remove the pending entry
    | Sent         // a single reader has sent; the removal comes next
    | Failing      // the query failed: remove the pending entries
    | Storing      // write the values to L1, then to Redis
    | Awaiting     // wait for the first followed channel
    | FallingBack  // its leader gave no value: query it
    | Deciding     // a like or unlike before its transaction is decided
    | Finished
    | Failed

  /** A subscription; a value sent before it counts as seen. */
  datatype Follow = Follow(item: Content, channel: nat, stale: bool)

  datatype Task = Task(
    kind: Kind,
    items: set<Content>,
    phase: Phase,
    toCheck: set<Content>,
    toAsk: set<Content>,
    toFill: map<Content, int>,
    missing: set<Content>,
    leads: map<Content, nat>,
    half: Option<Follow>,
    tx: Option<nat>,
    values: map<Content, int>,
    toL1: set<Content>,
    toRedis: set<Content>,
    follows: seq<Follow>,
    falling: set<Content>,
    results: map<Content, int>)

  /** A watch channel: who created it, and what has been sent. */
  datatype Channel = Channel(item: Content, owner: nat, sent: Option<int>)

  datatype State = State(
    initial: map<Content, int>,
    counts: map<Content, int>,
    seen: set<(Content, int)>,
    l1: map<Content, int>,
    redis: map<Content, int>,
    pending: map<Content, nat>,
    channels: seq<Channel>,
    tasks: seq<Task>)

  datatype Action =
    // the environment
    | Commit(item: Content, count: int)
    | Evict(items: set<Content>)
    | WriteElsewhere(item: Content, count: int)   // another process writes Redis
    | Spawn(kind: Kind, items: set<Content>)
    // a task
    | CheckL1(t: nat, item: Content)
    | AskRedis(t: nat, item: Content, up: bool)
    | FillL1(t: nat, item: Content)
    | Elect(t: nat, item: Content)
    | Fetch(t: nat, fetched: Option<map<Content, int>>)
    | Publish(t: nat, item: Content)
    | PublishRest(t: nat)
    | Unlead(t: nat, item: Content)
    | StoreL1(t: nat, item: Content)
    | StoreRedis(t: nat, item: Content, up: bool)
    | Receive(t: nat)
    | SeeClosed(t: nat)
    | TimeOut(t: nat)
    | Query(t: nat, found: Option<int>)
    | Decide(t: nat, count: int, writes: bool)

  /** This count of the item has been committed at some moment. */
  predicate WasCommitted(s: State, item: Content, count: int) {
    (item, count) in s.seen || count == Ledger.Count(s.initial, item)
  }

  function NewTask(kind: Kind, items: set<Content>): Task {
    Task(kind, items, if kind.Command? then Deciding else Reading, if kind.Command? then {} else items,
         {}, map[], {}, map[], None, None, map[], {}, {}, [], {}, map[])
  }

  predicate Leading(phase: Phase) {
    phase.Electing? || phase.Fetching? || phase.Publishing? || phase.Sent? || phase.Failing?
  }

  /** The phase to be in: the next one once this one has nothing left to do. */
  function SettledPhase(task: Task): Phase {
    match task.phase
    case Reading =>
      if task.toCheck != {} || task.toAsk != {} || task.toFill != map[] then Reading
      else if task.missing == {} then Finished
      else Electing
    case Electing =>
      if task.missing != {} then Electing else if task.leads == map[] then Awaiting else Fetching
    case Publishing => if task.leads == map[] && task.half.None? then Storing else Publishing
    case Failing => if task.leads == map[] then Failed else Failing
    case Storing =>
      if task.toL1 != {} || task.toRedis != {} then Storing
      else if task.follows == [] then Finished
      else Awaiting
    case Awaiting => if task.follows == [] then Finished else Awaiting
    case _ => task.phase
  }

  /** A single leader drops its sender when it returns; a call that fails waits for nobody. */
  function Settle(task: Task): Task {
    var phase := SettledPhase(task);
    task.(phase := phase,
          tx := if Leading(phase) || phase.Storing? then task.tx else None,
          follows := if phase.Failed? then [] else task.follows)
  }

  // ---------------------------------------------------------------- channels

  /** Some sender of the channel is alive: the one in the map of pending fetches, the one a
      batch has just removed, or the one a single leader keeps until it returns. */
  predicate Open(s: State, c: nat)
    requires c < |s.channels|
  {
    var item, owner := s.channels[c].item, s.channels[c].owner;
    || (item in s.pending && s.pending[item] == c)
    || (owner < |s.tasks| && s.tasks[owner].half.Some? && s.tasks[owner].half.value.channel == c)
    || (owner < |s.tasks| && s.tasks[owner].tx == Some(c))
  }

  predicate Ready(s: State, f: Follow)
    requires f.channel < |s.channels|
  {
    s.channels[f.channel].sent.Some? && !f.stale
  }

  // ---------------------------------------------------------------- steps

  predicate TaskIn(s: State, t: nat, phase: Phase) {
    t < |s.tasks| && s.tasks[t].phase == phase
  }

  predicate Following(s: State, t: nat) {
    TaskIn(s, t, Awaiting) && s.tasks[t].follows != [] && s.tasks[t].follows[0].channel < |s.channels|
  }

  ghost predicate Enabled(s: State, a: Action) {
    match a
    case Commit(_, count) => true
    case Evict(_) => true
    case WriteElsewhere(item, count) => WasCommitted(s, item, count)
    case Spawn(kind, items) => items != {} && (!kind.Batch? ==> |items| == 1)
    case CheckL1(t, item) => TaskIn(s, t, Reading) && item in s.tasks[t].toCheck
    case AskRedis(t, item, _) => TaskIn(s, t, Reading) && s.tasks[t].toCheck == {} && item in s.tasks[t].toAsk
    case FillL1(t, item) => TaskIn(s, t, Reading) && item in s.tasks[t].toFill
    case Elect(t, item) => TaskIn(s, t, Electing) && item in s.tasks[t].missing
    case Fetch(t, fetched) =>
      && TaskIn(s, t, Fetching)
      && (fetched.Some? ==> fetched.value.Keys == s.tasks[t].leads.Keys)
      && (fetched.Some? ==> forall item :: item in fetched.value ==> WasCommitted(s, item, fetched.value[item]))
    case Publish(t, item) =>
      && TaskIn(s, t, Publishing) && item in s.tasks[t].leads && s.tasks[t].half.None?
      && item in s.tasks[t].values && s.tasks[t].leads[item] < |s.channels|
    case PublishRest(t) =>
      || (TaskIn(s, t, Sent) && s.tasks[t].leads != map[])
      || (TaskIn(s, t, Publishing) && s.tasks[t].half.Some? && s.tasks[t].half.value.item in s.tasks[t].values
          && s.tasks[t].half.value.channel < |s.channels|)
    case Unlead(t, item) => TaskIn(s, t, Failing) && item in s.tasks[t].leads
    case StoreL1(t, item) =>
      TaskIn(s, t, Storing) && item in s.tasks[t].toL1 && item in s.tasks[t].values
    case StoreRedis(t, item, _) =>
      TaskIn(s, t, Storing) && s.tasks[t].toL1 == {} && item in s.tasks[t].toRedis && item in s.tasks[t].values
    case Receive(t) => Following(s, t) && Ready(s, s.tasks[t].follows[0])
    case SeeClosed(t) =>
      Following(s, t) && !Ready(s, s.tasks[t].follows[0]) && !Open(s, s.tasks[t].follows[0].channel)
    case TimeOut(t) => Following(s, t)
    case Query(t, found) =>
      && TaskIn(s, t, FallingBack)
      && (found.Some? ==> forall item :: item in s.tasks[t].falling ==> WasCommitted(s, item, found.value))
    case Decide(t, count, _) =>
      TaskIn(s, t, Deciding) && forall item :: item in s.tasks[t].items ==> WasCommitted(s, item, count)
  }

  predicate IsTaskAction(a: Action) {
    !a.Commit? && !a.Evict? && !a.WriteElsewhere? && !a.Spawn?
  }

  /** One count as the answer for these items. */
  function Answers(items: set<Content>, count: int): (answers: map<Content, int>)
    ensures answers.Keys == items
  {
    map item | item in items :: count
  }

  /** The task of a task action after it. */
  ghost function TaskAfter(s: State, a: Action, task: Task): Task
    requires Enabled(s, a) && IsTaskAction(a)
    requires task == s.tasks[a.t]
  {
    match a
    case CheckL1(_, item) =>
      if item in s.l1 then task.(toCheck := task.toCheck - {item}, results := task.results[item := s.l1[item]])
      else task.(toCheck := task.toCheck - {item}, toAsk := task.toAsk + {item})
    case AskRedis(_, item, up) =>
      if up && item in s.redis
      then task.(toAsk := task.toAsk - {item}, toFill := task.toFill[item := s.redis[item]],
                 results := task.results[item := s.redis[item]])
      else task.(toAsk := task.toAsk - {item}, missing := task.missing + {item})
    case FillL1(_, item) => task.(toFill := task.toFill - {item})
    case Elect(_, item) =>
      if item in s.pending then
        var c := s.pending[item];
        var stale := c < |s.channels| && s.channels[c].sent.Some?;
        task.(missing := task.missing - {item}, follows := task.follows + [Follow(item, c, stale)])
      else
        task.(missing := task.missing - {item}, leads := task.leads[item := |s.channels|],
              tx := if task.kind.Single? then Some(|s.channels|) else task.tx)
    case Fetch(_, fetched) =>
      if fetched.Some? then task.(phase := Publishing, values := fetched.value) else task.(phase := Failing)
    case Publish(_, item) =>
      if task.kind.Single? then task.(phase := Sent)
      else task.(half := Some(Follow(item, task.leads[item], false)), leads := task.leads - {item},
                 results := task.results[item := task.values[item]],
                 toL1 := task.toL1 + {item}, toRedis := task.toRedis + {item})
    case PublishRest(_) =>
      if task.phase.Sent?
      then task.(phase := Storing, leads := map[], results := task.results + task.values,
                 toL1 := task.values.Keys, toRedis := task.values.Keys)
      else task.(half := None)
    case Unlead(_, item) => task.(leads := task.leads - {item})
    case StoreL1(_, item) => task.(toL1 := task.toL1 - {item})
    case StoreRedis(_, item, _) => task.(toRedis := task.toRedis - {item})
    case Receive(_) =>
      var f := task.follows[0];
      task.(follows := task.follows[1..], results := task.results[f.item := s.channels[f.channel].sent.value])
    case SeeClosed(_) =>
      task.(phase := FallingBack, falling := {task.follows[0].item}, follows := task.follows[1..])
    case TimeOut(_) =>
      task.(phase := FallingBack, falling := {task.follows[0].item}, follows := task.follows[1..])
    case Query(_, found) =>
      if found.None? then task.(phase := Failed, follows := [], falling := {})
      else
        var answers := Answers(task.falling, found.value);
        if task.kind.Single?
        then task.(phase := Finished, falling := {}, results := task.results + answers)
        else task.(phase := Storing, falling := {}, results := task.results + answers, values := answers,
                   toL1 := answers.Keys, toRedis := answers.Keys)
    case Decide(_, count, writes) =>
      var answers := Answers(task.items, count);
      if writes
      then task.(phase := Storing, results := answers, values := answers, toL1 := answers.Keys, toRedis := answers.Keys)
      else task.(phase := Finished, results := answers)
  }

  function Send(channels: seq<Channel>, c: nat, count: int): seq<Channel>
    requires c < |channels|
  {
    channels[c := channels[c].(sent := Some(count))]
  }

  ghost function L1After(s: State, a: Action): map<Content, int>
    requires Enabled(s, a)
  {
    if a.Evict? then s.l1 - a.items
    else if a.FillL1? then s.l1[a.item := s.tasks[a.t].toFill[a.item]]
    else if a.StoreL1? then s.l1[a.item := s.tasks[a.t].values[a.item]]
    else s.l1
  }

  ghost function RedisAfter(s: State, a: Action): map<Content, int>
    requires Enabled(s, a)
  {
    if a.Evict? then s.redis - a.items
    else if a.WriteElsewhere? then s.redis[a.item := a.count]
    else if a.StoreRedis? && a.up then s.redis[a.item := s.tasks[a.t].values[a.item]]
    else s.redis
  }

  /** This election finds no entry, inserts one and leads. */
  predicate OpensChannel(s: State, a: Action) {
    a.Elect? && a.item !in s.pending
  }

  /** The items that the acting task stops leading: their entries are removed. */
  ghost function Dropped(s: State, a: Action): set<Content>
    requires Enabled(s, a)
  {
    if a.Publish? && !s.tasks[a.t].kind.Single? then {a.item}
    else if a.PublishRest? && s.tasks[a.t].phase.Sent? then s.tasks[a.t].leads.Keys
    else if a.Unlead? then {a.item}
    else {}
  }

  ghost function PendingAfter(s: State, a: Action): map<Content, nat>
    requires Enabled(s, a)
  {
    if OpensChannel(s, a) then s.pending[a.item := |s.channels|] else s.pending - Dropped(s, a)
  }

  /** A single leader sends before it removes its entry, a batch afterwards. */
  ghost function ChannelsAfter(s: State, a: Action): seq<Channel>
    requires Enabled(s, a)
  {
    if OpensChannel(s, a) then s.channels + [Channel(a.item, a.t, None)]
    else if a.Publish? && s.tasks[a.t].kind.Single? then
      Send(s.channels, s.tasks[a.t].leads[a.item], s.tasks[a.t].values[a.item])
    else if a.PublishRest? && !s.tasks[a.t].phase.Sent? then
      var half := s.tasks[a.t].half.value;
      Send(s.channels, half.channel, s.tasks[a.t].values[half.item])
    else s.channels
  }

  ghost function TasksAfter(s: State, a: Action): seq<Task>
    requires Enabled(s, a)
  {
    if a.Spawn? then s.tasks + [NewTask(a.kind, a.items)]
    else if IsTaskAction(a) then s.tasks[a.t := Settle(TaskAfter(s, a, s.tasks[a.t]))]
    else s.tasks
  }

  ghost function Do(s: State, a: Action): State
    requires Enabled(s, a)
  {
    State(s.initial,
          if a.Commit? then s.counts[a.item := a.count] else s.counts,
          if a.Commit? then s.seen + {(a.item, a.count)} else s.seen,
          L1After(s, a), RedisAfter(s, a), PendingAfter(s, a), ChannelsAfter(s, a), TasksAfter(s, a))
  }

  // ---------------------------------------------------------------- invariants of a task

  /** The phase has something to do. */
  predicate HasWork(task: Task) {
    match task.phase
    case Reading => task.toCheck != {} || task.toAsk != {} || task.toFill != map[]
    case Electing => task.missing != {}
    case Fetching => task.leads != map[]
    case Publishing => task.leads != map[] || task.half.Some?
    case Sent => task.leads != map[]
    case Failing => task.leads != map[]
    case Storing => task.toL1 != {} || task.toRedis != {}
    case Awaiting => task.follows != []
    case FallingBack => task.falling != {}
    case _ => true
  }

  /** Senders are held only while leading; whoever waits holds none. */
  ghost predicate TaskOk(task: Task) {
    && task.items != {}
    && HasWork(task)
    && (task.phase.Deciding? ==> task.kind.Command?)
    && (task.kind.Command? ==>
          && (task.phase.Deciding? || task.phase.Storing? || task.phase.Finished? || task.phase.Failed?)
          && task.follows == [])
    && (!Leading(task.phase) ==> task.leads == map[])
    && (task.half.Some? ==> task.phase.Publishing? && task.kind.Batch?)
    && (task.half.Some? ==> task.half.value.item in task.values && task.half.value.item in task.toL1)
    && (task.tx.Some? ==> task.kind.Single?)
    && (task.tx.Some? ==> task.phase.Storing? || (Leading(task.phase) && task.leads != map[]))
    && (task.phase.Publishing? || task.phase.Sent? ==> task.leads.Keys <= task.values.Keys)
    && (task.phase.Sent? ==> task.values.Keys == task.leads.Keys)
    && (task.phase.Publishing? && task.kind.Single? ==> task.values.Keys == task.leads.Keys)
    && (!task.phase.Publishing? && !task.phase.Storing? ==> task.toL1 == {} && task.toRedis == {})
    && (task.phase.Publishing? && task.kind.Single? ==> task.toL1 == {} && task.toRedis == {})
    && task.toL1 <= task.values.Keys && task.toRedis <= task.values.Keys
  }

  function FollowItems(follows: seq<Follow>): set<Content> {
    set f | f in follows :: f.item
  }

  /** The items that are answered or still on their way to an answer. */
  ghost function Accounted(task: Task): set<Content> {
    task.results.Keys + task.toCheck + task.toAsk + task.missing + task.leads.Keys
    + FollowItems(task.follows) + task.falling
  }

  /** Every requested item is accounted for, unless the call fails. */
  ghost predicate Covered(task: Task) {
    task.phase.Failed? || task.phase.Failing? || task.phase.Deciding? || task.items == Accounted(task)
  }

  /** Which phase handles which items. */
  ghost predicate Placed(task: Task) {
    && (!task.phase.Reading? ==> task.toCheck == {} && task.toAsk == {})
    && (!task.phase.Reading? && !task.phase.Electing? ==> task.missing == {})
    && (!task.phase.FallingBack? ==> task.falling == {})
    && (task.phase.Reading? || task.phase.Finished? ==> task.follows == [])
    && (task.kind.Single? && (task.phase.Electing? || task.phase.FallingBack?) ==> task.follows == [])
    && (!task.kind.Batch? ==> |task.items| == 1)
    && (task.kind.Single? ==> |task.follows| <= 1)
    && |task.falling| <= 1
    && task.missing <= task.items
    && (task.phase.Publishing? || task.phase.Sent? ==> task.values.Keys <= task.items)
  }

  lemma TaskOkReading(s: State, a: Action)
    requires Enabled(s, a) && (a.CheckL1? || a.AskRedis? || a.FillL1?) && TaskOk(s.tasks[a.t])
    ensures TaskOk(Settle(TaskAfter(s, a, s.tasks[a.t])))
  {
  }

  lemma TaskOkElect(s: State, a: Action)
    requires Enabled(s, a) && a.Elect? && TaskOk(s.tasks[a.t])
    ensures TaskOk(Settle(TaskAfter(s, a, s.tasks[a.t])))
  {
    var task := TaskAfter(s, a, s.tasks[a.t]);
    assert a.item in task.leads || |task.follows| > 0;
  }

  lemma TaskOkLeading(s: State, a: Action)
    requires Enabled(s, a) && (a.Fetch? || a.Publish?) && TaskOk(s.tasks[a.t])
    ensures TaskOk(Settle(TaskAfter(s, a, s.tasks[a.t])))
  {
  }

  lemma TaskOkUnleading(s: State, a: Action)
    requires Enabled(s, a) && (a.PublishRest? || a.Unlead?) && TaskOk(s.tasks[a.t])
    ensures TaskOk(Settle(TaskAfter(s, a, s.tasks[a.t])))
  {
    var task := s.tasks[a.t];
    assert task.phase.Sent? ==> task.leads.Keys != {};
  }

  predicate IsFollowing(a: Action) {
    a.Receive? || a.SeeClosed? || a.TimeOut?
  }

  lemma TaskOkFollowing(s: State, a: Action)
    requires Enabled(s, a) && IsFollowing(a) && TaskOk(s.tasks[a.t])
    ensures TaskOk(Settle(TaskAfter(s, a, s.tasks[a.t])))
  {
  }

  predicate IsStoring(a: Action) {
    a.StoreL1? || a.StoreRedis? || a.Query? || a.Decide?
  }

  lemma TaskOkStoring(s: State, a: Action)
    requires Enabled(s, a) && (a.StoreL1? || a.StoreRedis?) && TaskOk(s.tasks[a.t])
    ensures TaskOk(Settle(TaskAfter(s, a, s.tasks[a.t])))
  {
  }

  lemma TaskOkQuery(s: State, a: Action)
    requires Enabled(s, a) && a.Query? && TaskOk(s.tasks[a.t])
    ensures TaskOk(Settle(TaskAfter(s, a, s.tasks[a.t])))
  {
  }

  lemma TaskOkDecide(s: State, a: Action)
    requires Enabled(s, a) && a.Decide? && TaskOk(s.tasks[a.t])
    ensures TaskOk(Settle(TaskAfter(s, a, s.tasks[a.t])))
  {
  }

  lemma FollowItemsAppend(follows: seq<Follow>, f: Follow)
    ensures FollowItems(follows + [f]) == FollowItems(follows) + {f.item}
  {
    assert forall g :: g in follows + [f] <==> g in follows || g == f;
    assert f in follows + [f];
  }

  lemma FollowItemsHead(follows: seq<Follow>)
    requires follows != []
    ensures FollowItems(follows) == FollowItems(follows[1..]) + {follows[0].item}
  {
    assert forall g :: g in follows <==> g in follows[1..] || g == follows[0];
  }

  lemma OnlyElement(items: set<Content>, some: set<Content>, item: Content)
    requires |items| == 1 && item in some && some <= items
    ensures some - {item} == {}
  {
    assert |items - {item}| == 0;
  }

  lemma SettledIsCovered(task: Task)
    requires Covered(task)
    ensures Covered(Settle(task))
  {
  }

  lemma SettledIsPlaced(task: Task)
    requires Placed(task)
    ensures Placed(Settle(task))
  {
  }

  lemma CoveredReading(s: State, a: Action)
    requires Enabled(s, a) && (a.CheckL1? || a.AskRedis? || a.FillL1?) && Covered(s.tasks[a.t])
    ensures Covered(TaskAfter(s, a, s.tasks[a.t]))
  {
    assert Accounted(TaskAfter(s, a, s.tasks[a.t])) == Accounted(s.tasks[a.t]);
  }

  lemma CoveredElect(s: State, a: Action)
    requires Enabled(s, a) && a.Elect? && Covered(s.tasks[a.t])
    ensures Covered(TaskAfter(s, a, s.tasks[a.t]))
  {
    var task := TaskAfter(s, a, s.tasks[a.t]);
    if a.item in s.pending {
      FollowItemsAppend(s.tasks[a.t].follows, task.follows[|task.follows| - 1]);
    }
    assert Accounted(task) == Accounted(s.tasks[a.t]);
  }

  lemma CoveredLeading(s: State, a: Action)
    requires Enabled(s, a) && (a.Fetch? || a.Publish? || a.Unlead?) && Covered(s.tasks[a.t])
    ensures Covered(TaskAfter(s, a, s.tasks[a.t]))
  {
    assert !a.Unlead? ==> Accounted(TaskAfter(s, a, s.tasks[a.t])) == Accounted(s.tasks[a.t]);
  }

  lemma CoveredPublishRest(s: State, a: Action)
    requires Enabled(s, a) && a.PublishRest? && Covered(s.tasks[a.t])
    requires s.tasks[a.t].phase.Sent? ==> s.tasks[a.t].values.Keys == s.tasks[a.t].leads.Keys
    ensures Covered(TaskAfter(s, a, s.tasks[a.t]))
  {
    assert Accounted(TaskAfter(s, a, s.tasks[a.t])) == Accounted(s.tasks[a.t]);
  }

  lemma CoveredFollowing(s: State, a: Action)
    requires Enabled(s, a) && IsFollowing(a) && s.tasks[a.t].falling == {} && Covered(s.tasks[a.t])
    ensures Covered(TaskAfter(s, a, s.tasks[a.t]))
  {
    FollowItemsHead(s.tasks[a.t].follows);
    assert Accounted(TaskAfter(s, a, s.tasks[a.t])) == Accounted(s.tasks[a.t]);
  }

  lemma CoveredStoring(s: State, a: Action)
    requires Enabled(s, a) && (a.StoreL1? || a.StoreRedis? || a.Query?) && Covered(s.tasks[a.t])
    ensures Covered(TaskAfter(s, a, s.tasks[a.t]))
  {
    var task := TaskAfter(s, a, s.tasks[a.t]);
    assert !task.phase.Failed? ==> Accounted(task) == Accounted(s.tasks[a.t]);
  }

  lemma CoveredDeciding(s: State, a: Action)
    requires Enabled(s, a) && a.Decide? && TaskOk(s.tasks[a.t]) && Placed(s.tasks[a.t])
    ensures Covered(TaskAfter(s, a, s.tasks[a.t]))
  {
    var task := TaskAfter(s, a, s.tasks[a.t]);
    assert task.results.Keys == task.items;
    assert FollowItems(task.follows) == {};
  }

  lemma PlacedReading(s: State, a: Action)
    requires Enabled(s, a) && (a.CheckL1? || a.AskRedis? || a.FillL1?)
    requires Placed(s.tasks[a.t]) && Covered(s.tasks[a.t])
    ensures Placed(TaskAfter(s, a, s.tasks[a.t]))
  {
  }

  lemma PlacedElect(s: State, a: Action)
    requires Enabled(s, a) && a.Elect? && Placed(s.tasks[a.t])
    ensures Placed(Settle(TaskAfter(s, a, s.tasks[a.t])))
  {
    var task := s.tasks[a.t];
    if task.kind.Single? {
      OnlyElement(task.items, task.missing, a.item);
    }
  }

  lemma PlacedLeading(s: State, a: Action)
    requires Enabled(s, a) && (a.Fetch? || a.Publish? || a.Unlead? || a.PublishRest?)
    requires Placed(s.tasks[a.t]) && Covered(s.tasks[a.t])
    ensures Placed(TaskAfter(s, a, s.tasks[a.t]))
  {
  }

  lemma PlacedFollowing(s: State, a: Action)
    requires Enabled(s, a) && IsFollowing(a) && Placed(s.tasks[a.t])
    ensures Placed(TaskAfter(s, a, s.tasks[a.t]))
  {
  }

  lemma PlacedStoring(s: State, a: Action)
    requires Enabled(s, a) && IsStoring(a) && Placed(s.tasks[a.t]) && TaskOk(s.tasks[a.t])
    ensures Placed(TaskAfter(s, a, s.tasks[a.t]))
  {
  }

  lemma TaskOkAfter(s: State, a: Action)
    requires Enabled(s, a) && IsTaskAction(a) && TaskOk(s.tasks[a.t])
    ensures TaskOk(Settle(TaskAfter(s, a, s.tasks[a.t])))
  {
    if a.CheckL1? || a.AskRedis? || a.FillL1? {
      TaskOkReading(s, a);
    } else if a.Elect? {
      TaskOkElect(s, a);
    } else if a.Fetch? || a.Publish? {
      TaskOkLeading(s, a);
    } else if a.PublishRest? || a.Unlead? {
      TaskOkUnleading(s, a);
    } else if IsFollowing(a) {
      TaskOkFollowing(s, a);
    } else if a.Query? {
      TaskOkQuery(s, a);
    } else if a.Decide? {
      TaskOkDecide(s, a);
    } else {
      TaskOkStoring(s, a);
    }
  }

  lemma PlacedAfter(s: State, a: Action)
    requires Enabled(s, a) && IsTaskAction(a)
    requires TaskOk(s.tasks[a.t]) && Placed(s.tasks[a.t]) && Covered(s.tasks[a.t])
    ensures Placed(Settle(TaskAfter(s, a, s.tasks[a.t])))
  {
    if a.Elect? {
      PlacedElect(s, a);
    } else {
      if a.CheckL1? || a.AskRedis? || a.FillL1? {
        PlacedReading(s, a);
      } else if IsFollowing(a) {
        PlacedFollowing(s, a);
      } else if IsStoring(a) {
        PlacedStoring(s, a);
      } else {
        PlacedLeading(s, a);
      }
      SettledIsPlaced(TaskAfter(s, a, s.tasks[a.t]));
    }
  }

  lemma CoveredAfter(s: State, a: Action)
    requires Enabled(s, a) && IsTaskAction(a)
    requires TaskOk(s.tasks[a.t]) && Placed(s.tasks[a.t]) && Covered(s.tasks[a.t])
    ensures Covered(Settle(TaskAfter(s, a, s.tasks[a.t])))
  {
    if a.CheckL1? || a.AskRedis? || a.FillL1? {
      CoveredReading(s, a);
    } else if a.Elect? {
      CoveredElect(s, a);
    } else if IsFollowing(a) {
      CoveredFollowing(s, a);
    } else if a.Decide? {
      CoveredDeciding(s, a);
    } else if IsStoring(a) {
      CoveredStoring(s, a);
    } else if a.PublishRest? {
      CoveredPublishRest(s, a);
    } else {
      CoveredLeading(s, a);
    }
    SettledIsCovered(TaskAfter(s, a, s.tasks[a.t]));
  }
}
