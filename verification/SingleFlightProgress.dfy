/**
 Nobody waits in a circle: as long as a count reader is unfinished, it or the leader it
 waits for can step without a timeout, and every step brings the end nearer.
 */
module SingleFlightProgress {
  import opened Basics
  import Ledger
  import opened SingleFlight
  import opened SingleFlightProofs

  predicate Running(task: Task) {
    !task.phase.Finished? && !task.phase.Failed?
  }

  /** A step in which nothing times out and no query fails. */
  ghost predicate Smooth(a: Action) {
    IsTaskAction(a) && !a.TimeOut? && (a.Fetch? ==> a.fetched.Some?) && (a.Query? ==> a.found.Some?)
  }

  /** The committed counts are counts that were committed. */
  lemma CurrentIsCommitted(s: State, item: Content)
    requires CachesKnown(s)
    ensures WasCommitted(s, item, Ledger.Count(s.counts, item))
  {
  }

  function Current(s: State, items: set<Content>): map<Content, int> {
    map item | item in items :: Ledger.Count(s.counts, item)
  }

  lemma ReadingSteps(s: State, t: nat) returns (a: Action)
    requires TaskIn(s, t, Reading) && HasWork(s.tasks[t])
    ensures Enabled(s, a) && Smooth(a) && a.t == t
  {
    var task := s.tasks[t];
    if item :| item in task.toCheck {
      a := CheckL1(t, item);
    } else if item :| item in task.toAsk {
      a := AskRedis(t, item, true);
    } else {
      assert task.toFill.Keys != {};
      var filled :| filled in task.toFill;
      a := FillL1(t, filled);
    }
  }

  lemma FetchingSteps(s: State, t: nat) returns (a: Action)
    requires CachesKnown(s) && TaskIn(s, t, Fetching)
    ensures Enabled(s, a) && Smooth(a) && a.t == t
  {
    var counts := Current(s, s.tasks[t].leads.Keys);
    forall item | item in counts ensures WasCommitted(s, item, counts[item]) {
      CurrentIsCommitted(s, item);
    }
    a := Fetch(t, Some(counts));
  }

  lemma DroppingSteps(s: State, t: nat) returns (a: Action)
    requires LeadsMatch(s) && t < |s.tasks| && TaskOk(s.tasks[t]) && s.tasks[t].leads != map[]
    requires TaskIn(s, t, Failing) || (TaskIn(s, t, Publishing) && s.tasks[t].half.None?)
    ensures Enabled(s, a) && Smooth(a) && a.t == t
  {
    var task := s.tasks[t];
    assert task.leads.Keys != {};
    var item :| item in task.leads;
    assert Leads(s, t, item);
    a := if task.phase.Failing? then Unlead(t, item) else Publish(t, item);
  }

  lemma LeadingSteps(s: State, t: nat) returns (a: Action)
    requires LeadsMatch(s) && CachesKnown(s) && t < |s.tasks| && Leading(s.tasks[t].phase)
    requires HandlesOk(s, t) && TaskOk(s.tasks[t])
    ensures Enabled(s, a) && Smooth(a) && a.t == t
  {
    var task := s.tasks[t];
    if task.phase.Electing? {
      var item :| item in task.missing;
      a := Elect(t, item);
    } else if task.phase.Fetching? {
      a := FetchingSteps(s, t);
    } else if task.half.Some? || task.phase.Sent? {
      a := PublishRest(t);
    } else {
      a := DroppingSteps(s, t);
    }
  }

  lemma StoringSteps(s: State, t: nat) returns (a: Action)
    requires TaskIn(s, t, Storing) && TaskOk(s.tasks[t])
    ensures Enabled(s, a) && Smooth(a) && a.t == t
  {
    var task := s.tasks[t];
    if item :| item in task.toL1 {
      a := StoreL1(t, item);
    } else {
      var item :| item in task.toRedis;
      a := StoreRedis(t, item, true);
    }
  }

  /** The one item of a command, or the one item a reader queries by itself. */
  lemma OnlyItem(items: set<Content>) returns (item: Content)
    requires items != {} && |items| <= 1
    ensures items == {item}
  {
    item :| item in items;
    assert |items - {item}| == 0;
  }

  lemma FallingBackSteps(s: State, t: nat) returns (a: Action)
    requires CachesKnown(s) && TaskIn(s, t, FallingBack) && HasWork(s.tasks[t]) && Placed(s.tasks[t])
    ensures Enabled(s, a) && Smooth(a) && a.t == t
  {
    var item := OnlyItem(s.tasks[t].falling);
    CurrentIsCommitted(s, item);
    a := Query(t, Some(Ledger.Count(s.counts, item)));
  }

  lemma DecidingSteps(s: State, t: nat) returns (a: Action)
    requires CachesKnown(s) && TaskIn(s, t, Deciding) && TaskOk(s.tasks[t]) && Placed(s.tasks[t])
    ensures Enabled(s, a) && Smooth(a) && a.t == t
  {
    var item := OnlyItem(s.tasks[t].items);
    CurrentIsCommitted(s, item);
    a := Decide(t, Ledger.Count(s.counts, item), true);
  }

  /** Whoever does not wait can step by itself. */
  lemma BusyCanStep(s: State, t: nat) returns (a: Action)
    requires Inv(s) && CachesKnown(s) && t < |s.tasks|
    requires Running(s.tasks[t]) && !s.tasks[t].phase.Awaiting?
    ensures Enabled(s, a) && Smooth(a) && a.t == t
  {
    var task := s.tasks[t];
    assert TaskFine(task) && HandlesOk(s, t);
    if task.phase.Reading? {
      a := ReadingSteps(s, t);
    } else if Leading(task.phase) {
      a := LeadingSteps(s, t);
    } else if task.phase.Storing? {
      a := StoringSteps(s, t);
    } else if task.phase.Deciding? {
      a := DecidingSteps(s, t);
    } else {
      a := FallingBackSteps(s, t);
    }
  }

  /** Does `t` wait for `u` to send on, or to drop, a channel? */
  predicate WaitsFor(s: State, t: nat, u: nat) {
    && Following(s, t)
    && var c := s.tasks[t].follows[0].channel;
       Open(s, c) && s.channels[c].owner == u
  }

  predicate HoldsSender(task: Task) {
    task.leads != map[] || task.half.Some? || task.tx.Some?
  }

  lemma OpenIsHeld(s: State, c: nat)
    requires LeadsMatch(s) && c < |s.channels| && Open(s, c)
    ensures s.channels[c].owner < |s.tasks| && HoldsSender(s.tasks[s.channels[c].owner])
  {
    var item := s.channels[c].item;
    assert item in s.pending && s.pending[item] == c ==> Leads(s, s.channels[c].owner, item);
  }

  lemma HoldersAreBusy(task: Task)
    requires TaskOk(task) && HoldsSender(task)
    ensures Running(task) && !task.phase.Awaiting? && !task.phase.FallingBack?
  {
  }

  /** Waits have depth one: whoever is waited for is busy, so no waits form a cycle. */
  lemma WaitedForIsBusy(s: State, t: nat, u: nat)
    requires Inv(s) && WaitsFor(s, t, u)
    ensures u < |s.tasks| && Running(s.tasks[u]) && !s.tasks[u].phase.Awaiting? && u != t
  {
    OpenIsHeld(s, s.tasks[t].follows[0].channel);
    assert TaskFine(s.tasks[u]);
    HoldersAreBusy(s.tasks[u]);
  }

  /** While a task is unfinished, it or the leader it waits for can step without a timeout. */
  lemma NoWaitCycle(s: State, t: nat) returns (a: Action)
    requires Inv(s) && CachesKnown(s) && t < |s.tasks| && Running(s.tasks[t])
    ensures Enabled(s, a) && Smooth(a) && (a.t == t || WaitsFor(s, t, a.t))
  {
    var task := s.tasks[t];
    if task.phase.Awaiting? {
      assert TaskFine(task) && HandlesOk(s, t);
      assert FollowOk(s, task.follows[0]);
      var f := task.follows[0];
      if Ready(s, f) {
        a := Receive(t);
      } else if !Open(s, f.channel) {
        a := SeeClosed(t);
      } else {
        var u := s.channels[f.channel].owner;
        WaitedForIsBusy(s, t, u);
        a := BusyCanStep(s, u);
      }
    } else {
      a := BusyCanStep(s, t);
    }
  }

  /** If no task can step without a timeout, all have finished or failed. */
  lemma StuckMeansDone(states: seq<State>, actions: seq<Action>, i: nat)
    requires IsRun(states, actions) && i < |states|
    requires forall a :: Smooth(a) ==> !Enabled(states[i], a)
    ensures forall task :: task in states[i].tasks ==> !Running(task)
  {
    AlwaysInv(states, actions, i);
    forall t: nat | t < |states[i].tasks| ensures !Running(states[i].tasks[t]) {
      if Running(states[i].tasks[t]) {
        var a := NoWaitCycle(states[i], t);
      }
    }
  }

  // ---------------------------------------------------------------- termination

  function Rank(phase: Phase): nat {
    match phase
    case Reading => 9
    case Electing => 8
    case Fetching => 7
    case Publishing => 6
    case Failing => 6
    case Sent => 5
    case FallingBack => 4
    case Deciding => 4
    case Storing => 3
    case Awaiting => 2
    case Finished => 0
    case Failed => 0
  }

  /** An upper bound for the steps a task still has to take. */
  ghost function Weight(task: Task): (weight: int)
    ensures 0 <= weight
  {
    Rank(task.phase)
    + 30 * |task.toCheck| + 28 * |task.toAsk| + |task.toFill| + 25 * |task.missing|
    + 14 * |task.leads| + (if task.half.Some? then 4 else 0) + 2 * |task.toL1| + |task.toRedis|
    + 8 * |task.follows| + 3 * |task.falling| + (if task.phase.Deciding? then 3 * |task.items| else 0)
  }

  lemma SettledWeighsLess(task: Task)
    ensures Weight(Settle(task)) <= Weight(task)
  {
  }

  lemma ReadingShrinks(s: State, a: Action)
    requires Enabled(s, a) && (a.CheckL1? || a.AskRedis? || a.FillL1?)
    ensures Weight(TaskAfter(s, a, s.tasks[a.t])) < Weight(s.tasks[a.t])
  {
  }

  lemma ElectShrinks(s: State, a: Action)
    requires Enabled(s, a) && (a.Elect? || a.Fetch?)
    ensures Weight(TaskAfter(s, a, s.tasks[a.t])) < Weight(s.tasks[a.t])
  {
  }

  lemma PublishShrinks(s: State, a: Action)
    requires Enabled(s, a) && (a.Publish? || a.Unlead?)
    ensures Weight(TaskAfter(s, a, s.tasks[a.t])) < Weight(s.tasks[a.t])
  {
  }

  lemma LeadsShrink(task: Task, task': Task)
    requires task.phase.Sent? && task'.phase.Storing? && task'.leads == map[]
    requires task'.toL1 == task.leads.Keys && task'.toRedis == task.leads.Keys
    requires task'.toCheck == task.toCheck && task'.toAsk == task.toAsk && task'.toFill == task.toFill
    requires task'.missing == task.missing && task'.falling == task.falling && task'.half == task.half
    requires task'.follows == task.follows
    ensures Weight(task') < Weight(task)
  {
    assert |task.leads| == |task.leads.Keys|;
  }

  lemma SentShrinks(s: State, a: Action)
    requires Enabled(s, a) && a.PublishRest? && s.tasks[a.t].phase.Sent?
    requires s.tasks[a.t].values.Keys == s.tasks[a.t].leads.Keys
    requires s.tasks[a.t].toL1 == {} && s.tasks[a.t].toRedis == {}
    ensures Weight(TaskAfter(s, a, s.tasks[a.t])) < Weight(s.tasks[a.t])
  {
    LeadsShrink(s.tasks[a.t], TaskAfter(s, a, s.tasks[a.t]));
  }

  lemma HalfShrinks(s: State, a: Action)
    requires Enabled(s, a) && a.PublishRest? && !s.tasks[a.t].phase.Sent?
    ensures Weight(TaskAfter(s, a, s.tasks[a.t])) < Weight(s.tasks[a.t])
  {
  }

  lemma FollowingShrinks(s: State, a: Action)
    requires Enabled(s, a) && IsFollowing(a)
    ensures Weight(TaskAfter(s, a, s.tasks[a.t])) < Weight(s.tasks[a.t])
  {
  }

  lemma StoringShrinks(s: State, a: Action)
    requires Enabled(s, a) && (a.StoreL1? || a.StoreRedis?)
    ensures Weight(TaskAfter(s, a, s.tasks[a.t])) < Weight(s.tasks[a.t])
  {
  }

  /** What is still to be answered and stored costs 3 a piece; storing it costs no more. */
  lemma AnswersShrink(task: Task, items: set<Content>, task': Task)
    requires || (task.phase.FallingBack? && task'.falling == {} && items == task.falling)
             || (task.phase.Deciding? && task'.falling == task.falling && items == task.items)
    requires task.toL1 == {} && task.toRedis == {}
    requires || (task'.phase.Finished? && task'.toL1 == {} && task'.toRedis == {})
             || (task'.phase.Storing? && task'.toL1 == items && task'.toRedis == items)
    requires task'.toCheck == task.toCheck && task'.toAsk == task.toAsk && task'.toFill == task.toFill
    requires task'.missing == task.missing && task'.leads == task.leads && task'.half == task.half
    requires task'.follows == task.follows
    ensures Weight(task') < Weight(task)
  {
  }

  lemma QueryShrinks(s: State, a: Action)
    requires Enabled(s, a) && a.Query?
    requires s.tasks[a.t].toL1 == {} && s.tasks[a.t].toRedis == {}
    ensures Weight(TaskAfter(s, a, s.tasks[a.t])) < Weight(s.tasks[a.t])
  {
    if a.found.Some? {
      AnswersShrink(s.tasks[a.t], s.tasks[a.t].falling, TaskAfter(s, a, s.tasks[a.t]));
    }
  }

  lemma DecideShrinks(s: State, a: Action)
    requires Enabled(s, a) && a.Decide?
    requires s.tasks[a.t].toL1 == {} && s.tasks[a.t].toRedis == {}
    ensures Weight(TaskAfter(s, a, s.tasks[a.t])) < Weight(s.tasks[a.t])
  {
    AnswersShrink(s.tasks[a.t], s.tasks[a.t].items, TaskAfter(s, a, s.tasks[a.t]));
  }

  lemma TaskShrinks(s: State, a: Action)
    requires Enabled(s, a) && IsTaskAction(a) && TaskOk(s.tasks[a.t])
    ensures Weight(Settle(TaskAfter(s, a, s.tasks[a.t]))) < Weight(s.tasks[a.t])
  {
    SettledWeighsLess(TaskAfter(s, a, s.tasks[a.t]));
    if a.CheckL1? || a.AskRedis? || a.FillL1? {
      ReadingShrinks(s, a);
    } else if a.Elect? || a.Fetch? {
      ElectShrinks(s, a);
    } else if a.Publish? || a.Unlead? {
      PublishShrinks(s, a);
    } else if a.PublishRest? && s.tasks[a.t].phase.Sent? {
      SentShrinks(s, a);
    } else if a.PublishRest? {
      HalfShrinks(s, a);
    } else if IsFollowing(a) {
      FollowingShrinks(s, a);
    } else if a.Query? {
      QueryShrinks(s, a);
    } else if a.Decide? {
      DecideShrinks(s, a);
    } else {
      StoringShrinks(s, a);
    }
  }

  ghost function TotalWeight(s: State): int {
    Sum(s.tasks, Weight)
  }

  lemma TaskStepShrinks(s: State, a: Action)
    requires Enabled(s, a) && IsTaskAction(a) && TaskOk(s.tasks[a.t])
    ensures TotalWeight(Do(s, a)) < TotalWeight(s)
  {
    TaskShrinks(s, a);
    SumUpdate(s.tasks, a.t, Settle(TaskAfter(s, a, s.tasks[a.t])), Weight);
  }

  ghost function SpawnCost(a: Action): int {
    if a.Spawn? then 9 + 30 * |a.items| else 0
  }

  ghost function TaskStep(a: Action): int {
    if IsTaskAction(a) then 1 else 0
  }

  lemma NewTaskWeighs(kind: Kind, items: set<Content>)
    ensures Weight(NewTask(kind, items)) <= 9 + 30 * |items|
  {
  }

  lemma SpawnWeighs(s: State, a: Action)
    requires Enabled(s, a) && a.Spawn?
    ensures TotalWeight(Do(s, a)) <= TotalWeight(s) + SpawnCost(a)
  {
    NewTaskWeighs(a.kind, a.items);
    assert Do(s, a).tasks == s.tasks + [NewTask(a.kind, a.items)];
    SumAppend(s.tasks, NewTask(a.kind, a.items), Weight);
  }

  /** Every step of a task brings the end nearer, timeouts and failed queries included; what
      the environment does never moves it away, except by beginning a call. */
  lemma WeightShrinks(s: State, a: Action)
    requires Enabled(s, a) && Inv(s)
    ensures TotalWeight(Do(s, a)) + TaskStep(a) <= TotalWeight(s) + SpawnCost(a)
  {
    if IsTaskAction(a) {
      assert TaskFine(s.tasks[a.t]);
      TaskStepShrinks(s, a);
    } else if a.Spawn? {
      SpawnWeighs(s, a);
    } else {
      assert TasksAfter(s, a) == s.tasks;
    }
  }

  lemma SumOfPrefix<T>(xs: seq<T>, i: nat, f: T -> int)
    requires i < |xs|
    ensures Sum(xs[..i + 1], f) == Sum(xs[..i], f) + f(xs[i])
  {
    assert xs[..i + 1][..i] == xs[..i];
  }

  lemma RunShrinks(states: seq<State>, actions: seq<Action>, i: nat)
    requires IsRun(states, actions) && i < |actions|
    ensures TotalWeight(states[i + 1]) + TaskStep(actions[i]) <= TotalWeight(states[i]) + SpawnCost(actions[i])
  {
    AlwaysInv(states, actions, i);
    WeightShrinks(states[i], actions[i]);
  }

  /** Every run is finite work: the calls take, all together, at most a number of steps fixed
      when they begin, however they interleave, whatever is committed or evicted meanwhile. */
  lemma {:induction false} StepsAreBounded(states: seq<State>, actions: seq<Action>, i: nat)
    requires IsRun(states, actions) && i < |states|
    ensures Sum(actions[..i], TaskStep) + TotalWeight(states[i]) <= Sum(actions[..i], SpawnCost)
    ensures 0 <= TotalWeight(states[i])
  {
    SumNonNegative(states[i].tasks, Weight);
    if i > 0 {
      StepsAreBounded(states, actions, i - 1);
      RunShrinks(states, actions, i - 1);
      SumOfPrefix(actions, i - 1, TaskStep);
      SumOfPrefix(actions, i - 1, SpawnCost);
    }
  }

  // ---------------------------------------------------------------- completion

  ghost predicate Reaches(s: State, actions: seq<Action>, end: State)
    decreases |actions|
  {
    if actions == [] then s == end
    else Enabled(s, actions[0]) && Reaches(Do(s, actions[0]), actions[1..], end)
  }

  /** From every reachable state all calls can finish with nothing timing out and no query
      failing: no call ever waits for something that will not come. */
  lemma {:induction false} EveryoneCanFinish(s: State) returns (actions: seq<Action>, end: State)
    requires Inv(s) && ValuesOk(s)
    ensures Reaches(s, actions, end) && forall a :: a in actions ==> Smooth(a)
    ensures |end.tasks| == |s.tasks| && forall task :: task in end.tasks ==> !Running(task)
    decreases TotalWeight(s)
  {
    actions, end := [], s;
    if t: nat :| t < |s.tasks| && Running(s.tasks[t]) {
      var a := NoWaitCycle(s, t);
      SumNonNegative(s.tasks, Weight);
      assert TaskFine(s.tasks[a.t]);
      TaskStepShrinks(s, a);
      InvPreserved(s, a);
      ValuesPreserved(s, a);
      var rest;
      rest, end := EveryoneCanFinish(Do(s, a));
      actions := [a] + rest;
    }
  }
}
