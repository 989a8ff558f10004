/**
 The like ledger: the transactions of `insert_like` and `delete_like`, interleaved
 statement by statement under Read Committed (section 13.2.1 of the PostgreSQL
 documentation).

 A transaction that changed its `likes` row holds that key until it ends; one that
 wrote its `like_counts` row holds the counter until it ends. Reads see committed data.
 */
module Ledger {
  import opened Basics

  datatype Op = Like | Unlike

  datatype Outcome =
    | Inserted(row: LikeRow, count: int)
    | AlreadyExisted(row: LikeRow, count: int)
    | ConcurrentlyRemoved(count: int)
    | Deleted(count: int)
    | NotLiked(count: int)

  datatype Phase =
    // BEGIN done, the statement on `likes` comes next
    | Begun
    // the DELETE has taken its snapshot and saw this row id, or no row
    | RowSought(seen: Option<int>)
    // the statement on `likes` inserted or deleted this row, the counter comes next
    | RowChanged(row: LikeRow)
    // the statement on `likes` changed nothing, a SELECT comes next
    | NothingChanged
    // COMMIT comes next; `counter` is the uncommitted new version of the counter row
    | ReadyToCommit(outcome: Outcome, counter: Option<int>)
    // the SELECT after a conflict found no row: COMMIT, then read the count once more
    | ReadyToReread
    | Rereading
    | Finished(outcome: Outcome)
    | Aborted

  datatype Tx = Tx(op: Op, key: LikeKey, startedAt: int, phase: Phase)

  /** Committed tables, the transactions begun so far, and the id sequence. */
  datatype State = State(
    likes: map<LikeKey, LikeRow>,
    counts: map<Content, int>,
    txs: seq<Tx>,
    nextId: int)

  datatype Action = Begin(op: Op, key: LikeKey, now: int) | Advance(tx: nat) | Abort(tx: nat)

  /** What a reader of `like_counts` sees: the committed total, 0 when there is no row. */
  function Count(counts: map<Content, int>, item: Content): int {
    if item in counts then counts[item] else 0
  }

  /** The number of rows of `likes` for an item. */
  function NumLikes(likes: map<LikeKey, LikeRow>, item: Content): nat {
    |set k | k in likes && k.item == item|
  }

  predicate Unfinished(tx: Tx) {
    !tx.phase.Finished? && !tx.phase.Aborted?
  }

  predicate HoldsKey(tx: Tx) {
    || tx.phase.RowChanged?
    || (tx.phase.ReadyToCommit? && (tx.phase.outcome.Inserted? || tx.phase.outcome.Deleted?))
  }

  predicate HoldsCounter(tx: Tx) {
    tx.phase.ReadyToCommit? && tx.phase.counter.Some?
  }

  /** Does the next statement need the lock on its `likes` key? A DELETE skips the row it
      sought, without waiting, once that row is gone. */
  predicate WantsKey(s: State, tx: Tx) {
    || (tx.phase.Begun? && tx.op.Like?)
    || (tx.phase.RowSought? && tx.key in s.likes && tx.phase.seen == Some(s.likes[tx.key].id))
  }

  /** Does the next statement of `t` need the lock on its counter row? The UPDATE of an
      absent counter row matches nothing and waits for nobody. */
  predicate WantsCounter(s: State, tx: Tx) {
    tx.phase.RowChanged? && (tx.op.Like? || tx.key.item in s.counts)
  }

  predicate WaitsFor(s: State, t: nat, u: nat)
    requires t < |s.txs| && u < |s.txs|
  {
    var a, b := s.txs[t], s.txs[u];
    t != u &&
    ((WantsKey(s, a) && HoldsKey(b) && a.key == b.key) ||
     (WantsCounter(s, a) && HoldsCounter(b) && a.key.item == b.key.item))
  }

  predicate Blocked(s: State, t: nat)
    requires t < |s.txs|
  {
    exists u: nat :: u < |s.txs| && WaitsFor(s, t, u)
  }

  predicate Enabled(s: State, a: Action) {
    match a
    case Begin(_, _, _) => true
    case Advance(t) => t < |s.txs| && Unfinished(s.txs[t]) && !Blocked(s, t)
    case Abort(t) => t < |s.txs| && Unfinished(s.txs[t])
  }

  /** The phase that the next statement of an unblocked transaction leads to. */
  function NextPhase(s: State, tx: Tx): Phase
    requires Unfinished(tx)
  {
    var key, item := tx.key, tx.key.item;
    match tx.phase
    case Begun =>
      if tx.op.Unlike? then RowSought(if key in s.likes then Some(s.likes[key].id) else None)
      else if key in s.likes then NothingChanged
      else RowChanged(LikeRow(s.nextId, item, tx.startedAt))
    case RowSought(seen) =>
      if seen.Some? && key in s.likes && s.likes[key].id == seen.value
      then RowChanged(s.likes[key])
      else NothingChanged
    case RowChanged(row) =>
      if tx.op.Like? then
        var total := if item in s.counts then s.counts[item] + 1 else 1;
        ReadyToCommit(Inserted(row, total), Some(total))
      else if item in s.counts then
        var total := Max(s.counts[item] - 1, 0);
        ReadyToCommit(Deleted(total), Some(total))
      else
        ReadyToCommit(Deleted(0), None)
    case NothingChanged =>
      if tx.op.Unlike? then ReadyToCommit(NotLiked(Count(s.counts, item)), None)
      else if key in s.likes then ReadyToCommit(AlreadyExisted(s.likes[key], Count(s.counts, item)), None)
      else ReadyToReread
    case ReadyToCommit(outcome, _) => Finished(outcome)
    case ReadyToReread => Rereading
    case Rereading => Finished(ConcurrentlyRemoved(Count(s.counts, item)))
    case Finished(_) => tx.phase
    case Aborted => tx.phase
  }

  /** COMMIT publishes the row change and the new counter version together. */
  function CommittedLikes(s: State, tx: Tx): map<LikeKey, LikeRow> {
    if tx.phase.ReadyToCommit? && tx.phase.outcome.Inserted? then s.likes[tx.key := tx.phase.outcome.row]
    else if tx.phase.ReadyToCommit? && tx.phase.outcome.Deleted? then s.likes - {tx.key}
    else s.likes
  }

  function CommittedCounts(s: State, tx: Tx): map<Content, int> {
    if HoldsCounter(tx) then s.counts[tx.key.item := tx.phase.counter.value] else s.counts
  }

  function Do(s: State, a: Action): State
    requires Enabled(s, a)
  {
    match a
    case Begin(op, key, now) => s.(txs := s.txs + [Tx(op, key, now, Begun)])
    case Abort(t) => s.(txs := s.txs[t := s.txs[t].(phase := Aborted)])
    case Advance(t) =>
      var tx := s.txs[t];
      State(
        CommittedLikes(s, tx),
        CommittedCounts(s, tx),
        s.txs[t := tx.(phase := NextPhase(s, tx))],
        if tx.phase.Begun? && tx.op.Like? then s.nextId + 1 else s.nextId)
  }

  // ---------------------------------------------------------------- the invariant

  /** The materialized counters agree with the rows they count. */
  ghost predicate CountsMatch(s: State) {
    forall item: Content :: Count(s.counts, item) == NumLikes(s.likes, item)
  }

  ghost predicate Exclusive(s: State) {
    forall t: nat, u: nat {:trigger s.txs[t], s.txs[u]} :: t < |s.txs| && u < |s.txs| && t != u ==>
      && !(HoldsKey(s.txs[t]) && HoldsKey(s.txs[u]) && s.txs[t].key == s.txs[u].key)
      && !(HoldsCounter(s.txs[t]) && HoldsCounter(s.txs[u]) && s.txs[t].key.item == s.txs[u].key.item)
  }

  /** What a transaction knows about the committed tables while it holds its locks. */
  ghost predicate TxOk(s: State, tx: Tx) {
    var count := Count(s.counts, tx.key.item);
    match tx.phase
    case RowSought(_) => tx.op.Unlike?
    case RowChanged(row) => if tx.op.Like? then tx.key !in s.likes else tx.key in s.likes
    case ReadyToCommit(Inserted(_, c), counter) =>
      tx.op.Like? && tx.key !in s.likes && c == count + 1 && counter == Some(c)
    case ReadyToCommit(Deleted(c), counter) =>
      tx.op.Unlike? && tx.key in s.likes && c == count - 1 && counter == Some(c)
    case ReadyToCommit(_, counter) => counter == None
    case _ => true
  }

  ghost predicate Inv(s: State) {
    && CountsMatch(s)
    && Exclusive(s)
    && forall t: nat :: t < |s.txs| ==> TxOk(s, s.txs[t])
  }

  lemma NumLikesInsert(likes: map<LikeKey, LikeRow>, key: LikeKey, row: LikeRow, item: Content)
    requires key !in likes
    ensures NumLikes(likes[key := row], item) == NumLikes(likes, item) + if item == key.item then 1 else 0
  {
    var before := set k | k in likes && k.item == item;
    var after := set k | k in likes[key := row] && k.item == item;
    assert after == if item == key.item then before + {key} else before;
  }

  lemma NumLikesRemove(likes: map<LikeKey, LikeRow>, key: LikeKey, item: Content)
    requires key in likes
    ensures NumLikes(likes - {key}, item) == NumLikes(likes, item) - if item == key.item then 1 else 0
  {
    var before := set k | k in likes && k.item == item;
    var after := set k | k in likes - {key} && k.item == item;
    assert before == if item == key.item then after + {key} else after;
  }

  /** A liked item has a counter row, and it is at least 1. */
  lemma LikedItemHasCounter(s: State, key: LikeKey)
    requires CountsMatch(s) && key in s.likes
    ensures key.item in s.counts && s.counts[key.item] >= 1
  {
    assert {key} <= (set k | k in s.likes && k.item == key.item);
    SubsetSize({key}, set k | k in s.likes && k.item == key.item);
    assert Count(s.counts, key.item) == NumLikes(s.likes, key.item);
  }

  lemma CountsMatchAfter(s: State, t: nat)
    requires Inv(s) && Enabled(s, Advance(t))
    ensures CountsMatch(Do(s, Advance(t)))
  {
    var tx, s' := s.txs[t], Do(s, Advance(t));
    assert TxOk(s, tx);
    forall item: Content ensures Count(s'.counts, item) == NumLikes(s'.likes, item) {
      assert Count(s.counts, item) == NumLikes(s.likes, item);
      if tx.phase.ReadyToCommit? && tx.phase.outcome.Inserted? {
        NumLikesInsert(s.likes, tx.key, tx.phase.outcome.row, item);
      } else if tx.phase.ReadyToCommit? && tx.phase.outcome.Deleted? {
        NumLikesRemove(s.likes, tx.key, item);
      }
    }
  }

  lemma TxOkAfterSelf(s: State, t: nat)
    requires Inv(s) && Enabled(s, Advance(t))
    ensures TxOk(Do(s, Advance(t)), Do(s, Advance(t)).txs[t])
  {
    var tx := s.txs[t];
    assert TxOk(s, tx);
    if tx.phase.RowChanged? && tx.op.Unlike? {
      LikedItemHasCounter(s, tx.key);
    }
  }

  /** A commit cannot change what another transaction's locks protect. */
  lemma TxOkAfterOther(s: State, t: nat, u: nat)
    requires Inv(s) && Enabled(s, Advance(t)) && u < |s.txs| && u != t
    ensures TxOk(Do(s, Advance(t)), s.txs[u])
  {
    var tx, other := s.txs[t], s.txs[u];
    assert TxOk(s, tx) && TxOk(s, other);
    if tx.phase.ReadyToCommit? && other.key == tx.key {
      assert !(HoldsKey(tx) && HoldsKey(other));
    }
  }

  lemma ExclusiveAfter(s: State, t: nat)
    requires Inv(s) && Enabled(s, Advance(t))
    ensures Exclusive(Do(s, Advance(t)))
  {
    var tx, tx' := s.txs[t], Do(s, Advance(t)).txs[t];
    assert TxOk(s, tx);
    forall u: nat | u < |s.txs| && u != t
      ensures !(HoldsKey(tx') && HoldsKey(s.txs[u]) && tx'.key == s.txs[u].key)
      ensures !(HoldsCounter(tx') && HoldsCounter(s.txs[u]) && tx'.key.item == s.txs[u].key.item)
    {
      assert !WaitsFor(s, t, u);
      if tx.phase.Begun? && tx.op.Unlike? {
        assert !HoldsKey(tx');
      }
    }
  }

  lemma InvPreserved(s: State, a: Action)
    requires Inv(s) && Enabled(s, a)
    ensures Inv(Do(s, a))
  {
    match a
    case Begin(_, _, _) =>
    case Abort(t) =>
    case Advance(t) =>
      CountsMatchAfter(s, t);
      ExclusiveAfter(s, t);
      TxOkAfterSelf(s, t);
      forall u: nat | u < |s.txs| && u != t ensures TxOk(Do(s, a), Do(s, a).txs[u]) {
        TxOkAfterOther(s, t, u);
      }
  }

  // ---------------------------------------------------------------- whole runs

  ghost predicate Initial(s: State) {
    s.txs == [] && CountsMatch(s)
  }

  /** `states` is the history of an interleaved execution of `actions`. */
  ghost predicate IsRun(states: seq<State>, actions: seq<Action>) {
    && |states| == |actions| + 1
    && Initial(states[0])
    && forall i :: 0 <= i < |actions| ==>
      Enabled(states[i], actions[i]) && states[i + 1] == Do(states[i], actions[i])
  }

  /** Every reachable state satisfies the invariant, so counters always match rows. */
  lemma {:induction false} CountsMatchAlways(states: seq<State>, actions: seq<Action>, i: nat)
    requires IsRun(states, actions) && i < |states|
    ensures Inv(states[i])
    ensures forall item: Content :: Count(states[i].counts, item) == NumLikes(states[i].likes, item)
  {
    if i > 0 {
      CountsMatchAlways(states, actions, i - 1);
      InvPreserved(states[i - 1], actions[i - 1]);
    }
  }

  /** While an unlike has its row and has not yet written the counter, the counter row is
      there and at least 1: neither GREATEST nor the missing-row default ever decides. */
  lemma ClampNeverFires(states: seq<State>, actions: seq<Action>, i: nat, t: nat)
    requires IsRun(states, actions) && i < |states| && t < |states[i].txs|
    requires states[i].txs[t].op.Unlike? && states[i].txs[t].phase.RowChanged?
    ensures var s := states[i]; var item := s.txs[t].key.item;
      && item in s.counts && s.counts[item] >= 1
      && NextPhase(s, s.txs[t]) == ReadyToCommit(Deleted(s.counts[item] - 1), Some(s.counts[item] - 1))
  {
    CountsMatchAlways(states, actions, i);
    assert TxOk(states[i], states[i].txs[t]);
    LikedItemHasCounter(states[i], states[i].txs[t].key);
  }

  /** A successful like or unlike changes exactly its own row, and the count it returns is
      the number of committed rows at the instant of its commit. */
  lemma CountExactAtCommit(states: seq<State>, actions: seq<Action>, i: nat, t: nat)
    requires IsRun(states, actions) && i < |actions| && actions[i] == Advance(t)
    requires states[i].txs[t].phase.ReadyToCommit? && HoldsKey(states[i].txs[t])
    ensures var key := states[i].txs[t].key; var outcome := states[i].txs[t].phase.outcome;
      var before, after := states[i].likes, states[i + 1].likes;
      && states[i + 1].txs[t].phase == Finished(outcome)
      && outcome.count == NumLikes(after, key.item)
      && (outcome.Inserted? ==> key !in before && after == before[key := outcome.row])
      && (outcome.Deleted? ==> key in before && after == before - {key})
  {
    CountsMatchAlways(states, actions, i);
    CountsMatchAlways(states, actions, i + 1);
    assert TxOk(states[i], states[i].txs[t]);
    assert Count(states[i + 1].counts, states[i].txs[t].key.item) == states[i].txs[t].phase.outcome.count;
  }

  /** The count of an outcome that is decided, whether or not it is committed yet. */
  ghost predicate Decided(tx: Tx, outcome: Outcome) {
    || tx.phase == Finished(outcome)
    || (tx.phase.ReadyToCommit? && tx.phase.outcome == outcome && !HoldsKey(tx))
  }

  /** Is `a` the step that decides the outcome of `t`? */
  ghost predicate JustDecided(s: State, a: Action, t: nat, outcome: Outcome) {
    a == Advance(t) && t < |s.txs| && !Decided(s.txs[t], outcome)
  }

  lemma DecidedBefore(s: State, a: Action, t: nat, outcome: Outcome)
    requires Enabled(s, a) && t < |Do(s, a).txs| && Decided(Do(s, a).txs[t], outcome)
    requires !JustDecided(s, a, t, outcome)
    ensures t < |s.txs| && Decided(s.txs[t], outcome) && s.txs[t].key == Do(s, a).txs[t].key
  {
  }

  lemma DecidedCount(s: State, t: nat, outcome: Outcome)
    requires Inv(s) && Enabled(s, Advance(t)) && JustDecided(s, Advance(t), t, outcome)
    requires Decided(Do(s, Advance(t)).txs[t], outcome)
    ensures outcome.count == NumLikes(
      (if outcome.Inserted? || outcome.Deleted? then Do(s, Advance(t)) else s).likes, s.txs[t].key.item)
  {
    var item := s.txs[t].key.item;
    assert TxOk(s, s.txs[t]);
    assert Count(s.counts, item) == NumLikes(s.likes, item);
    InvPreserved(s, Advance(t));
    assert Count(Do(s, Advance(t)).counts, item) == NumLikes(Do(s, Advance(t)).likes, item);
  }

  /** Every count that a finished call returned, changed anything or not, was the number
      of committed rows of its item at some moment of the call. */
  lemma {:induction false} ReturnedCountWasCommitted(
      states: seq<State>, actions: seq<Action>, i: nat, t: nat, outcome: Outcome) returns (j: nat)
    requires IsRun(states, actions) && i < |states| && t < |states[i].txs|
    requires Decided(states[i].txs[t], outcome)
    ensures j <= i && t < |states[j].txs|
    ensures outcome.count == NumLikes(states[j].likes, states[i].txs[t].key.item)
  {
    CountsMatchAlways(states, actions, i);
    if JustDecided(states[i - 1], actions[i - 1], t, outcome) {
      j := if outcome.Inserted? || outcome.Deleted? then i else i - 1;
      CountsMatchAlways(states, actions, i - 1);
      DecidedCount(states[i - 1], t, outcome);
    } else {
      DecidedBefore(states[i - 1], actions[i - 1], t, outcome);
      j := ReturnedCountWasCommitted(states, actions, i - 1, t, outcome);
    }
  }

  // ---------------------------------------------------------------- what an answer says

  /** A moment of the call of transaction t, up to state i. */
  ghost predicate During(states: seq<State>, j: nat, i: nat, t: nat) {
    j <= i < |states| && t < |states[j].txs|
  }

  ghost predicate WasThere(states: seq<State>, i: nat, t: nat, key: LikeKey) {
    exists j: nat :: During(states, j, i, t) && key in states[j].likes
  }

  ghost predicate RowWasThere(states: seq<State>, i: nat, t: nat, key: LikeKey, row: LikeRow) {
    exists j: nat :: During(states, j, i, t) && key in states[j].likes && states[j].likes[key] == row
  }

  ghost predicate WasAbsent(states: seq<State>, i: nat, t: nat, key: LikeKey) {
    exists j: nat :: During(states, j, i, t) && key !in states[j].likes
  }

  /** The key was there at one moment of the call, and gone at a later one. */
  ghost predicate WasRemoved(states: seq<State>, i: nat, t: nat, key: LikeKey) {
    exists j: nat, k: nat ::
      j < k && During(states, j, i, t) && During(states, k, i, t) && key in states[j].likes && key !in states[k].likes
  }

  ghost predicate OutcomeFits(states: seq<State>, i: nat, t: nat, op: Op, key: LikeKey, outcome: Outcome) {
    match outcome
    case Inserted(_, _) => op.Like?
    case AlreadyExisted(row, _) => op.Like? && RowWasThere(states, i, t, key, row)
    case ConcurrentlyRemoved(_) => op.Like? && WasRemoved(states, i, t, key)
    case Deleted(_) => op.Unlike?
    case NotLiked(_) => op.Unlike? && WasAbsent(states, i, t, key)
  }

  /** What a transaction on its way has seen so far. */
  ghost predicate PhaseFits(states: seq<State>, i: nat, t: nat, op: Op, key: LikeKey, phase: Phase)
    requires i < |states|
  {
    match phase
    case RowSought(None) => op.Unlike? && WasAbsent(states, i, t, key)
    case RowSought(Some(id)) =>
      op.Unlike? && (WasAbsent(states, i, t, key) || (key in states[i].likes && states[i].likes[key].id == id))
    case NothingChanged => if op.Like? then WasThere(states, i, t, key) else WasAbsent(states, i, t, key)
    case ReadyToReread => op.Like? && WasRemoved(states, i, t, key)
    case Rereading => op.Like? && WasRemoved(states, i, t, key)
    case ReadyToCommit(outcome, _) => OutcomeFits(states, i, t, op, key, outcome)
    case Finished(outcome) => OutcomeFits(states, i, t, op, key, outcome)
    case _ => true
  }

  lemma SeenStays(states: seq<State>, i: nat, t: nat, key: LikeKey)
    requires i + 1 < |states|
    ensures WasThere(states, i, t, key) ==> WasThere(states, i + 1, t, key)
    ensures WasAbsent(states, i, t, key) ==> WasAbsent(states, i + 1, t, key)
    ensures WasRemoved(states, i, t, key) ==> WasRemoved(states, i + 1, t, key)
    ensures forall row :: RowWasThere(states, i, t, key, row) ==> RowWasThere(states, i + 1, t, key, row)
  {
    forall j: nat | During(states, j, i, t) ensures During(states, j, i + 1, t) {
    }
  }

  lemma OutcomeStillFits(states: seq<State>, i: nat, t: nat, op: Op, key: LikeKey, outcome: Outcome)
    requires i + 1 < |states| && OutcomeFits(states, i, t, op, key, outcome)
    ensures OutcomeFits(states, i + 1, t, op, key, outcome)
  {
    SeenStays(states, i, t, key);
  }

  /** A row is never replaced under its key: it goes first. */
  lemma RowGoesFirst(s: State, a: Action, key: LikeKey)
    requires Inv(s) && Enabled(s, a) && key in s.likes && key in Do(s, a).likes
    ensures Do(s, a).likes[key] == s.likes[key]
  {
    if a.Advance? {
      assert TxOk(s, s.txs[a.tx]);
    }
  }

  lemma PhaseStillFits(states: seq<State>, actions: seq<Action>, i: nat, t: nat, op: Op, key: LikeKey, phase: Phase)
    requires IsRun(states, actions) && i < |actions| && Inv(states[i]) && t < |states[i].txs|
    requires PhaseFits(states, i, t, op, key, phase)
    ensures PhaseFits(states, i + 1, t, op, key, phase)
  {
    SeenStays(states, i, t, key);
    if phase.RowSought? && phase.seen.Some? && key in states[i].likes {
      if key in states[i + 1].likes {
        RowGoesFirst(states[i], actions[i], key);
      } else {
        assert During(states, i + 1, i + 1, t);
      }
    }
    if phase.Finished? || phase.ReadyToCommit? {
      OutcomeStillFits(states, i, t, op, key, phase.outcome);
    }
  }

  /** The step of the transaction itself. */
  lemma NextPhaseFits(states: seq<State>, i: nat, t: nat)
    requires i < |states| && t < |states[i].txs| && Unfinished(states[i].txs[t])
    requires var tx := states[i].txs[t]; PhaseFits(states, i, t, tx.op, tx.key, tx.phase) && TxOk(states[i], tx)
    ensures var tx := states[i].txs[t]; PhaseFits(states, i, t, tx.op, tx.key, NextPhase(states[i], tx))
  {
    var s, tx := states[i], states[i].txs[t];
    assert During(states, i, i, t);
    if tx.phase.NothingChanged? && tx.op.Like? && tx.key !in s.likes {
      var j: nat :| During(states, j, i, t) && tx.key in states[j].likes;
      assert j < i;
    }
  }

  lemma {:induction false} PhaseFitsAlways(states: seq<State>, actions: seq<Action>, i: nat, t: nat)
    requires IsRun(states, actions) && i < |states| && t < |states[i].txs|
    ensures var tx := states[i].txs[t]; PhaseFits(states, i, t, tx.op, tx.key, tx.phase)
  {
    if i > 0 && t < |states[i - 1].txs| {
      var m := i - 1;
      var tx := states[m].txs[t];
      PhaseFitsAlways(states, actions, m, t);
      CountsMatchAlways(states, actions, m);
      if actions[m] == Advance(t) {
        assert TxOk(states[m], tx);
        NextPhaseFits(states, m, t);
        PhaseStillFits(states, actions, m, t, tx.op, tx.key, NextPhase(states[m], tx));
      } else {
        PhaseStillFits(states, actions, m, t, tx.op, tx.key, tx.phase);
      }
    }
  }

  /** What a finished call answered, over every interleaving. A like: that it inserted the row,
      or that it found this row, or that it found a row that was gone when it looked again. An
      unlike: that it deleted the row, or that there was a moment without one. */
  lemma AnswerFitsCall(states: seq<State>, actions: seq<Action>, i: nat, t: nat, outcome: Outcome)
    requires IsRun(states, actions) && i < |states| && t < |states[i].txs|
    requires states[i].txs[t].phase == Finished(outcome)
    ensures var tx := states[i].txs[t];
      && (tx.op.Like? <==> outcome.Inserted? || outcome.AlreadyExisted? || outcome.ConcurrentlyRemoved?)
      && (outcome.AlreadyExisted? ==> RowWasThere(states, i, t, tx.key, outcome.row))
      && (outcome.ConcurrentlyRemoved? ==> WasRemoved(states, i, t, tx.key))
      && (outcome.NotLiked? ==> WasAbsent(states, i, t, tx.key))
  {
    PhaseFitsAlways(states, actions, i, t);
  }

  // ---------------------------------------------------------------- row ids

  /** The row that a transaction has inserted and not yet committed. */
  function NewRow(tx: Tx): Option<LikeRow> {
    match tx.phase
    case RowChanged(row) => if tx.op.Like? then Some(row) else None
    case ReadyToCommit(Inserted(row, _), _) => Some(row)
    case _ => None
  }

  ghost predicate NewRowOk(s: State, tx: Tx) {
    NewRow(tx).Some? ==>
      && tx.op.Like? && NewRow(tx).value.item == tx.key.item && NewRow(tx).value.id < s.nextId
      && NewRow(tx).value.createdAt == tx.startedAt
      && forall key :: key in s.likes ==> s.likes[key].id != NewRow(tx).value.id
  }

  ghost predicate NewIdsDiffer(a: Tx, b: Tx) {
    NewRow(a).Some? && NewRow(b).Some? ==> NewRow(a).value.id != NewRow(b).value.id
  }

  /** Every row carries its own item, new rows their transaction's start, and the ids of
      committed and uncommitted rows are distinct and below the sequence. */
  ghost predicate IdsOk(s: State) {
    && (forall key :: key in s.likes ==> s.likes[key].item == key.item && s.likes[key].id < s.nextId)
    && (forall j, k :: j in s.likes && k in s.likes && s.likes[j].id == s.likes[k].id ==> j == k)
    && (forall t: nat :: t < |s.txs| ==> NewRowOk(s, s.txs[t]))
    && (forall t: nat, u: nat {:trigger s.txs[t], s.txs[u]} :: t < |s.txs| && u < |s.txs| && t != u ==>
          NewIdsDiffer(s.txs[t], s.txs[u]))
  }

  /** A new row is the one that took the next id, or the one that was already there. */
  lemma NewRowAfter(s: State, t: nat)
    requires Enabled(s, Advance(t)) && TxOk(s, s.txs[t]) && NewRow(Do(s, Advance(t)).txs[t]).Some?
    ensures var tx, tx' := s.txs[t], Do(s, Advance(t)).txs[t];
      if NewRow(tx).Some? then
        NewRow(tx') == NewRow(tx) && Do(s, Advance(t)).likes == s.likes && Do(s, Advance(t)).nextId == s.nextId
      else
        && tx.op.Like? && NewRow(tx').value == LikeRow(s.nextId, tx.key.item, tx.startedAt)
        && Do(s, Advance(t)).likes == s.likes && Do(s, Advance(t)).nextId == s.nextId + 1
  {
  }

  lemma CommittedIdsAfter(s: State, t: nat)
    requires IdsOk(s) && Enabled(s, Advance(t))
    ensures var s' := Do(s, Advance(t));
      && (forall key :: key in s'.likes ==> s'.likes[key].item == key.item && s'.likes[key].id < s'.nextId)
      && (forall j, k :: j in s'.likes && k in s'.likes && s'.likes[j].id == s'.likes[k].id ==> j == k)
  {
    assert NewRowOk(s, s.txs[t]);
  }

  lemma NewRowsAfter(s: State, t: nat, u: nat)
    requires IdsOk(s) && Enabled(s, Advance(t)) && TxOk(s, s.txs[t]) && u < |s.txs|
    ensures NewRowOk(Do(s, Advance(t)), Do(s, Advance(t)).txs[u])
  {
    assert NewRowOk(s, s.txs[t]) && NewRowOk(s, s.txs[u]);
    if u == t {
      if NewRow(Do(s, Advance(t)).txs[t]).Some? {
        NewRowAfter(s, t);
      }
    } else {
      assert NewIdsDiffer(s.txs[t], s.txs[u]);
    }
  }

  lemma NewIdsAfter(s: State, t: nat, u: nat)
    requires IdsOk(s) && Enabled(s, Advance(t)) && TxOk(s, s.txs[t]) && u < |s.txs| && u != t
    ensures NewIdsDiffer(Do(s, Advance(t)).txs[t], s.txs[u])
  {
    assert NewRowOk(s, s.txs[u]) && NewIdsDiffer(s.txs[t], s.txs[u]);
    if NewRow(Do(s, Advance(t)).txs[t]).Some? {
      NewRowAfter(s, t);
    }
  }

  lemma IdsOkBegun(s: State, tx: Tx)
    requires IdsOk(s) && tx.phase.Begun?
    ensures IdsOk(s.(txs := s.txs + [tx]))
  {
  }

  lemma IdsOkAborted(s: State, t: nat)
    requires IdsOk(s) && t < |s.txs|
    ensures IdsOk(s.(txs := s.txs[t := s.txs[t].(phase := Aborted)]))
  {
  }

  lemma IdsPreserved(s: State, a: Action)
    requires Inv(s) && IdsOk(s) && Enabled(s, a)
    ensures IdsOk(Do(s, a))
  {
    match a
    case Begin(op, key, now) => IdsOkBegun(s, Tx(op, key, now, Begun));
    case Abort(t) => IdsOkAborted(s, t);
    case Advance(t) =>
      CommittedIdsAfter(s, t);
      assert TxOk(s, s.txs[t]);
      forall u: nat | u < |s.txs| ensures NewRowOk(Do(s, a), Do(s, a).txs[u]) {
        NewRowsAfter(s, t, u);
      }
      forall u: nat | u < |s.txs| && u != t ensures NewIdsDiffer(Do(s, a).txs[t], Do(s, a).txs[u]) {
        NewIdsAfter(s, t, u);
      }
  }

  /** Row ids stay unique under every interleaving. */
  lemma {:induction false} IdsAlways(states: seq<State>, actions: seq<Action>, i: nat)
    requires IsRun(states, actions) && IdsOk(states[0]) && i < |states|
    ensures IdsOk(states[i])
  {
    if i > 0 {
      IdsAlways(states, actions, i - 1);
      CountsMatchAlways(states, actions, i - 1);
      IdsPreserved(states[i - 1], actions[i - 1]);
    }
  }

  // ---------------------------------------------------------------- conservation

  ghost function Effect(tx: Tx): int {
    if tx.phase.Finished? && tx.phase.outcome.Inserted? then 1
    else if tx.phase.Finished? && tx.phase.outcome.Deleted? then -1
    else 0
  }

  ghost function ItemEffect(item: Content): Tx -> int {
    (tx: Tx) => if tx.key.item == item then Effect(tx) else 0
  }

  ghost function KeyEffect(key: LikeKey): Tx -> int {
    (tx: Tx) => if tx.key == key then Effect(tx) else 0
  }

  ghost function Presence(likes: map<LikeKey, LikeRow>, key: LikeKey): int {
    if key in likes then 1 else 0
  }

  lemma AdvanceEffect(s: State, t: nat, item: Content, key: LikeKey)
    requires Inv(s) && Enabled(s, Advance(t))
    ensures var tx, s' := s.txs[t], Do(s, Advance(t)); var change := Effect(s'.txs[t]) - Effect(tx);
      && NumLikes(s'.likes, item) == NumLikes(s.likes, item) + (if tx.key.item == item then change else 0)
      && Presence(s'.likes, key) == Presence(s.likes, key) + (if tx.key == key then change else 0)
  {
    var tx := s.txs[t];
    assert TxOk(s, tx);
    if tx.phase.ReadyToCommit? && tx.phase.outcome.Inserted? {
      NumLikesInsert(s.likes, tx.key, tx.phase.outcome.row, item);
    } else if tx.phase.ReadyToCommit? && tx.phase.outcome.Deleted? {
      NumLikesRemove(s.likes, tx.key, item);
    }
  }

  lemma EffectStep(s: State, a: Action, item: Content, key: LikeKey)
    requires Inv(s) && Enabled(s, a)
    ensures NumLikes(Do(s, a).likes, item) - NumLikes(s.likes, item)
         == Sum(Do(s, a).txs, ItemEffect(item)) - Sum(s.txs, ItemEffect(item))
    ensures Presence(Do(s, a).likes, key) - Presence(s.likes, key)
         == Sum(Do(s, a).txs, KeyEffect(key)) - Sum(s.txs, KeyEffect(key))
  {
    match a
    case Begin(op, k, now) =>
      SumAppend(s.txs, Tx(op, k, now, Begun), ItemEffect(item));
      SumAppend(s.txs, Tx(op, k, now, Begun), KeyEffect(key));
    case Abort(t) =>
      SumUpdate(s.txs, t, s.txs[t].(phase := Aborted), ItemEffect(item));
      SumUpdate(s.txs, t, s.txs[t].(phase := Aborted), KeyEffect(key));
    case Advance(t) =>
      AdvanceEffect(s, t, item, key);
      SumUpdate(s.txs, t, Do(s, a).txs[t], ItemEffect(item));
      SumUpdate(s.txs, t, Do(s, a).txs[t], KeyEffect(key));
  }

  /** No like is lost or counted twice: the rows of an item are the initial ones plus the
      calls that answered Inserted minus those that answered Deleted, and for one user and
      item these answers alternate, since the key is present 0 or 1 times. */
  lemma {:induction false} AnswersAccountForRows(
      states: seq<State>, actions: seq<Action>, i: nat, item: Content, key: LikeKey)
    requires IsRun(states, actions) && i < |states|
    ensures NumLikes(states[i].likes, item)
         == NumLikes(states[0].likes, item) + Sum(states[i].txs, ItemEffect(item))
    ensures Presence(states[i].likes, key)
         == Presence(states[0].likes, key) + Sum(states[i].txs, KeyEffect(key))
  {
    if i > 0 {
      AnswersAccountForRows(states, actions, i - 1, item, key);
      CountsMatchAlways(states, actions, i - 1);
      EffectStep(states[i - 1], actions[i - 1], item, key);
    }
  }

  // ---------------------------------------------------------------- progress

  /** Locks are taken in the order key, counter: whoever is waited for is further on. */
  function LockLevel(tx: Tx): nat {
    if HoldsCounter(tx) then 2 else if HoldsKey(tx) then 1 else 0
  }

  lemma WaitsGoUp(s: State, t: nat, u: nat)
    requires t < |s.txs| && u < |s.txs| && WaitsFor(s, t, u)
    ensures LockLevel(s.txs[t]) < LockLevel(s.txs[u]) && Unfinished(s.txs[u])
  {
  }

  /** Following the waits from any unfinished transaction ends at one that can run. */
  lemma {:induction false} NoDeadlock(s: State, t: nat) returns (u: nat)
    requires t < |s.txs| && Unfinished(s.txs[t])
    ensures u < |s.txs| && Enabled(s, Advance(u))
    ensures u == t || LockLevel(s.txs[t]) < LockLevel(s.txs[u])
    decreases 2 - LockLevel(s.txs[t])
  {
    u := t;
    if Blocked(s, t) {
      var v: nat :| v < |s.txs| && WaitsFor(s, t, v);
      WaitsGoUp(s, t, v);
      u := NoDeadlock(s, v);
    }
  }

  /** How many statements a transaction can still execute. */
  ghost function StepsLeft(tx: Tx): int {
    match tx.phase
    case Begun => 5
    case RowSought(_) => 4
    case RowChanged(_) => 3
    case NothingChanged => 3
    case ReadyToReread => 2
    case ReadyToCommit(_, _) => 1
    case Rereading => 1
    case Finished(_) => 0
    case Aborted => 0
  }

  lemma StepsLeftShrinks(s: State, a: Action)
    requires Enabled(s, a)
    ensures a.Begin? ==> Sum(Do(s, a).txs, StepsLeft) == Sum(s.txs, StepsLeft) + 5
    ensures !a.Begin? ==> Sum(Do(s, a).txs, StepsLeft) < Sum(s.txs, StepsLeft)
  {
    match a
    case Begin(op, k, now) => SumAppend(s.txs, Tx(op, k, now, Begun), StepsLeft);
    case Abort(t) => SumUpdate(s.txs, t, Do(s, a).txs[t], StepsLeft);
    case Advance(t) => SumUpdate(s.txs, t, Do(s, a).txs[t], StepsLeft);
  }

  /** Every schedule ends: with n transactions begun, at most 6n actions happened. */
  lemma {:induction false} SchedulesEnd(states: seq<State>, actions: seq<Action>, i: nat)
    requires IsRun(states, actions) && i < |states|
    ensures i <= i + Sum(states[i].txs, StepsLeft) <= 6 * |states[i].txs|
  {
    SumNonNegative(states[i].txs, StepsLeft);
    if i > 0 {
      SchedulesEnd(states, actions, i - 1);
      StepsLeftShrinks(states[i - 1], actions[i - 1]);
    }
  }

  /** If nobody can advance, everybody has finished or aborted. */
  lemma StuckMeansDone(s: State)
    requires forall t: nat :: t < |s.txs| ==> !Enabled(s, Advance(t))
    ensures forall t: nat :: t < |s.txs| ==> !Unfinished(s.txs[t])
  {
    forall t: nat | t < |s.txs| ensures !Unfinished(s.txs[t]) {
      if Unfinished(s.txs[t]) {
        var u := NoDeadlock(s, t);
      }
    }
  }
}
