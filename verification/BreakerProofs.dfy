/**
 What the circuit breaker guarantees over whole histories of requests and reports.
 */
module BreakerProofs {
  import opened Basics
  import opened CircuitBreaker

  /** One critical section. A report names its request by the index of the event that asked
      for admission; a failure reads the clock twice. */
  datatype Event =
    | Allow(now: int)
    | Success(request: nat, now: int)
    | Failure(request: nat, at: int, now: int)

  function Start(e: Event): int {
    if e.Failure? then e.at else e.now
  }

  /** The clock never goes back. */
  ghost predicate Monotone(events: seq<Event>) {
    && (forall i :: 0 <= i < |events| ==> Start(events[i]) <= events[i].now)
    && (forall i, j :: 0 <= i < j < |events| ==> events[i].now <= Start(events[j]))
  }

  function Next(config: Config, s: Inner, e: Event): Inner {
    match e
    case Allow(now) => AfterAllow(config, s, now)
    case Success(_, now) => AfterSuccess(config, s, now)
    case Failure(_, at, now) => AfterFailure(config, s, at, now)
  }

  /** The breaker after the first n events. */
  function After(config: Config, events: seq<Event>, n: nat): Inner
    requires n <= |events|
  {
    if n == 0 then Initial else Next(config, After(config, events, n - 1), events[n - 1])
  }

  /** Event i asks for admission and gets it. */
  predicate Admitted(config: Config, events: seq<Event>, i: nat)
    requires i < |events|
  {
    events[i].Allow? && Allows(config, After(config, events, i), events[i].now)
  }

  // ---------------------------------------------------------------- the reference machine

  /** The breaker as it is described: a log of every outcome since it last closed, the
      successes since it became half-open, and the latest failure. */
  datatype Reference = Reference(
    state: CircuitState,
    log: seq<CallRecord>,
    successes: nat,
    probing: bool,
    lastFailure: Option<int>)

  const ReferenceInitial := Reference(Closed, [], 0, false, None)

  function TrailingFailures(log: seq<CallRecord>): nat {
    if log == [] || log[|log| - 1].success then 0 else 1 + TrailingFailures(log[..|log| - 1])
  }

  /** The records of a log that are not older than `cutoff`. */
  function Recent(log: seq<CallRecord>, cutoff: int): seq<CallRecord> {
    if log == [] then []
    else
      var last := log[|log| - 1];
      Recent(log[..|log| - 1], cutoff) + if last.timestamp >= cutoff then [last] else []
  }

  predicate Trips(config: Config, log: seq<CallRecord>, now: int) {
    || TrailingFailures(log) >= config.failureThreshold
    || RateExceeded(config, Recent(log, now - config.rateWindow))
  }

  predicate ReferenceAllows(config: Config, r: Reference, now: int) {
    match r.state
    case Closed => true
    case HalfOpen => !r.probing
    case Open => r.lastFailure.Some? && now - r.lastFailure.value >= config.recoveryTimeout
  }

  function ReferenceNext(config: Config, r: Reference, e: Event): Reference {
    match (r.state, e)
    case (Closed, Allow(_)) => r
    case (Closed, Success(_, now)) => r.(log := r.log + [CallRecord(now, true)])
    case (Closed, Failure(_, at, now)) =>
      var log := r.log + [CallRecord(now, false)];
      if Trips(config, log, now) then Reference(Open, [], 0, false, Some(at))
      else r.(log := log, lastFailure := Some(at))
    case (HalfOpen, Allow(_)) => r.(probing := true)
    case (HalfOpen, Success(_, _)) =>
      if r.successes + 1 >= config.successThreshold then Reference(Closed, [], 0, false, r.lastFailure)
      else r.(successes := r.successes + 1, probing := false)
    case (HalfOpen, Failure(_, at, _)) => Reference(Open, [], 0, false, Some(at))
    case (Open, Allow(now)) =>
      if ReferenceAllows(config, r, now) then r.(state := HalfOpen, successes := 0, probing := true) else r
    case (Open, Success(_, _)) => r
    case (Open, Failure(_, at, _)) => r.(lastFailure := Some(at))
  }

  function ReferenceAfter(config: Config, events: seq<Event>, n: nat): Reference
    requires n <= |events|
  {
    if n == 0 then ReferenceInitial
    else ReferenceNext(config, ReferenceAfter(config, events, n - 1), events[n - 1])
  }

  ghost predicate InOrder(log: seq<CallRecord>) {
    forall i, j :: 0 <= i < j < |log| ==> log[i].timestamp <= log[j].timestamp
  }

  /** The deque is the part of the log within the window at the last push. */
  ghost predicate WindowMatches(config: Config, window: seq<CallRecord>, log: seq<CallRecord>) {
    && InOrder(log)
    && (log == [] ==> window == [])
    && (log != [] ==> window == Recent(log, log[|log| - 1].timestamp - config.rateWindow))
  }

  ghost predicate Refines(config: Config, s: Inner, r: Reference) {
    && s.state == r.state
    && s.lastFailureTime == r.lastFailure
    && s.probeInFlight == r.probing
    && (s.probeInFlight ==> s.state.HalfOpen?)
    && (s.state.Closed? ==>
          && s.consecutiveFailures == TrailingFailures(r.log)
          && WindowMatches(config, s.callWindow, r.log))
    && (s.state.HalfOpen? ==> s.consecutiveSuccesses == r.successes)
  }

  lemma RecentAppend(log: seq<CallRecord>, last: CallRecord, cutoff: int)
    ensures Recent(log + [last], cutoff)
         == if last.timestamp >= cutoff then Recent(log, cutoff) + [last] else Recent(log, cutoff)
  {
    assert (log + [last])[..|log|] == log;
  }

  lemma {:induction false} RecentInOrder(log: seq<CallRecord>, cutoff: int)
    requires InOrder(log)
    ensures InOrder(Recent(log, cutoff))
    ensures forall c :: c in Recent(log, cutoff) ==> c in log && c.timestamp >= cutoff
  {
    if log != [] {
      RecentInOrder(log[..|log| - 1], cutoff);
    }
  }

  lemma {:induction false} RecentOfFresh(log: seq<CallRecord>, cutoff: int)
    requires forall c :: c in log ==> c.timestamp >= cutoff
    ensures Recent(log, cutoff) == log
  {
    if log != [] {
      var rest, last := log[..|log| - 1], log[|log| - 1];
      assert last in log && forall c :: c in rest ==> c in log;
      RecentOfFresh(rest, cutoff);
      assert log == rest + [last];
    }
  }

  lemma {:induction false} RecentTail(log: seq<CallRecord>, cutoff: int)
    requires log != [] && log[0].timestamp < cutoff
    ensures Recent(log, cutoff) == Recent(log[1..], cutoff)
  {
    var n := |log|;
    if n > 1 {
      RecentTail(log[..n - 1], cutoff);
      assert log[..n - 1][1..] == log[1..][..n - 2];
    }
  }

  /** On a log in order, popping the stale front leaves exactly the recent records. */
  lemma {:induction false} DropStaleIsRecent(log: seq<CallRecord>, cutoff: int)
    requires InOrder(log)
    ensures DropStale(log, cutoff) == Recent(log, cutoff)
  {
    if log != [] && log[0].timestamp < cutoff {
      RecentTail(log, cutoff);
      DropStaleIsRecent(log[1..], cutoff);
    } else {
      RecentOfFresh(log, cutoff);
    }
  }

  /** What an earlier prune dropped, a later one drops too. */
  lemma {:induction false} RecentTwice(log: seq<CallRecord>, early: int, late: int)
    requires early <= late
    ensures Recent(Recent(log, early), late) == Recent(log, late)
  {
    if log != [] {
      var rest, last := log[..|log| - 1], log[|log| - 1];
      RecentTwice(rest, early, late);
      RecentAppend(rest, last, early);
      RecentAppend(rest, last, late);
      if last.timestamp >= early {
        RecentAppend(Recent(rest, early), last, late);
      }
      assert log == rest + [last];
    }
  }

  /** Pruning as one goes keeps what one final prune of the log would keep. */
  lemma DropStaleOfRecent(log: seq<CallRecord>, early: int, late: int)
    requires InOrder(log) && early <= late
    ensures DropStale(Recent(log, early), late) == Recent(log, late)
  {
    RecentInOrder(log, early);
    RecentTwice(log, early, late);
    DropStaleIsRecent(Recent(log, early), late);
  }

  lemma PrunedWindowIsRecent(config: Config, window: seq<CallRecord>, log: seq<CallRecord>, now: int)
    requires WindowMatches(config, window, log)
    requires log != [] ==> log[|log| - 1].timestamp <= now
    ensures DropStale(window, now - config.rateWindow) == Recent(log, now - config.rateWindow)
  {
    if log != [] {
      DropStaleOfRecent(log, log[|log| - 1].timestamp - config.rateWindow, now - config.rateWindow);
    }
  }

  lemma PushOntoPruned(config: Config, window: seq<CallRecord>, log: seq<CallRecord>, last: CallRecord)
    requires DropStale(window, last.timestamp - config.rateWindow) == Recent(log, last.timestamp - config.rateWindow)
    ensures Push(config, window, last.timestamp, last.success)
         == Recent(log + [last], last.timestamp - config.rateWindow)
  {
    RecentAppend(log, last, last.timestamp - config.rateWindow);
  }

  lemma PushIsRecent(config: Config, window: seq<CallRecord>, log: seq<CallRecord>, last: CallRecord)
    requires WindowMatches(config, window, log)
    requires log != [] ==> log[|log| - 1].timestamp <= last.timestamp
    ensures Push(config, window, last.timestamp, last.success)
         == Recent(log + [last], last.timestamp - config.rateWindow)
  {
    PrunedWindowIsRecent(config, window, log, last.timestamp);
    PushOntoPruned(config, window, log, last);
  }

  lemma PushMatches(config: Config, window: seq<CallRecord>, log: seq<CallRecord>, last: CallRecord)
    requires WindowMatches(config, window, log)
    requires log != [] ==> log[|log| - 1].timestamp <= last.timestamp
    ensures WindowMatches(config, Push(config, window, last.timestamp, last.success), log + [last])
  {
    PushIsRecent(config, window, log, last);
    assert forall i :: 0 <= i < |log| ==> log[i].timestamp <= log[|log| - 1].timestamp;
  }

  lemma TrailingAppend(log: seq<CallRecord>, last: CallRecord)
    ensures TrailingFailures(log + [last]) == if last.success then 0 else TrailingFailures(log) + 1
  {
    assert (log + [last])[..|log|] == log;
  }

  /** While closed, the incremental decision is the reference's decision on the full log. */
  lemma ClosedDecision(config: Config, s: Inner, r: Reference, at: int, now: int)
    requires s.state.Closed? && r.state.Closed? && s.consecutiveFailures == TrailingFailures(r.log)
    requires Push(config, s.callWindow, now, false)
          == Recent(r.log + [CallRecord(now, false)], now - config.rateWindow)
    ensures AfterFailure(config, s, at, now).state.Open?
       <==> Trips(config, r.log + [CallRecord(now, false)], now)
  {
    TrailingAppend(r.log, CallRecord(now, false));
  }

  lemma ClosedFailureRefines(config: Config, s: Inner, r: Reference, request: nat, at: int, now: int)
    requires s.state.Closed? && r.state.Closed? && !r.probing
    requires s.consecutiveFailures == TrailingFailures(r.log)
    requires AfterFailure(config, s, at, now).state.Open? <==> Trips(config, r.log + [CallRecord(now, false)], now)
    requires WindowMatches(config, Push(config, s.callWindow, now, false), r.log + [CallRecord(now, false)])
    ensures Refines(config, AfterFailure(config, s, at, now), ReferenceNext(config, r, Failure(request, at, now)))
  {
    TrailingAppend(r.log, CallRecord(now, false));
    var s', r' := AfterFailure(config, s, at, now), ReferenceNext(config, r, Failure(request, at, now));
    if Trips(config, r.log + [CallRecord(now, false)], now) {
      assert r'.state.Open?;
    } else {
      assert s'.state.Closed? && s'.callWindow == Push(config, s.callWindow, now, false);
      assert r'.log == r.log + [CallRecord(now, false)];
    }
  }

  lemma ClosedSuccessRefines(config: Config, s: Inner, r: Reference, request: nat, now: int)
    requires Refines(config, s, r) && s.state.Closed?
    requires WindowMatches(config, Push(config, s.callWindow, now, true), r.log + [CallRecord(now, true)])
    ensures Refines(config, AfterSuccess(config, s, now), ReferenceNext(config, r, Success(request, now)))
  {
    TrailingAppend(r.log, CallRecord(now, true));
  }

  lemma ClosedRecordRefines(config: Config, s: Inner, r: Reference, e: Event)
    requires Refines(config, s, r) && s.state.Closed? && !e.Allow?
    requires r.log != [] ==> r.log[|r.log| - 1].timestamp <= e.now
    ensures Refines(config, Next(config, s, e), ReferenceNext(config, r, e))
  {
    var last := CallRecord(e.now, e.Success?);
    PushIsRecent(config, s.callWindow, r.log, last);
    PushMatches(config, s.callWindow, r.log, last);
    if e.Failure? {
      ClosedDecision(config, s, r, e.at, e.now);
      ClosedFailureRefines(config, s, r, e.request, e.at, e.now);
    } else {
      ClosedSuccessRefines(config, s, r, e.request, e.now);
    }
  }

  lemma RefinesStep(config: Config, s: Inner, r: Reference, e: Event)
    requires Refines(config, s, r)
    requires r.log != [] ==> r.log[|r.log| - 1].timestamp <= e.now
    ensures Refines(config, Next(config, s, e), ReferenceNext(config, r, e))
    ensures Allows(config, s, e.now) == ReferenceAllows(config, r, e.now)
  {
    if s.state.Closed? && !e.Allow? {
      ClosedRecordRefines(config, s, r, e);
    }
  }

  lemma LogIsPast(config: Config, r: Reference, e: Event)
    requires r.log != [] ==> r.log[|r.log| - 1].timestamp <= Start(e) <= e.now
    ensures var log := ReferenceNext(config, r, e).log;
      log != [] ==> log[|log| - 1].timestamp <= e.now
  {
  }

  lemma {:induction false} LogIsAlwaysPast(config: Config, events: seq<Event>, n: nat)
    requires Monotone(events) && n <= |events|
    ensures var log := ReferenceAfter(config, events, n).log;
      log != [] ==> n > 0 && log[|log| - 1].timestamp <= events[n - 1].now
  {
    if n > 0 {
      LogIsAlwaysPast(config, events, n - 1);
      LogIsPast(config, ReferenceAfter(config, events, n - 1), events[n - 1]);
    }
  }

  lemma RefinesAllows(config: Config, s: Inner, r: Reference, now: int)
    requires Refines(config, s, r)
    ensures Allows(config, s, now) == ReferenceAllows(config, r, now)
  {
  }

  /** The incremental breaker refines the reference machine on every history with a
      monotone clock: same state at every moment, same answer to every request. */
  lemma {:induction false} BreakerRefinesReference(config: Config, events: seq<Event>, n: nat)
    requires Monotone(events) && n <= |events|
    ensures Refines(config, After(config, events, n), ReferenceAfter(config, events, n))
    ensures n < |events| && events[n].Allow? ==>
      Admitted(config, events, n) == ReferenceAllows(config, ReferenceAfter(config, events, n), events[n].now)
  {
    if n > 0 {
      BreakerRefinesReference(config, events, n - 1);
      LogIsAlwaysPast(config, events, n - 1);
      RefinesStep(config, After(config, events, n - 1), ReferenceAfter(config, events, n - 1), events[n - 1]);
    }
    if n < |events| {
      RefinesAllows(config, After(config, events, n), ReferenceAfter(config, events, n), events[n].now);
    }
  }

  /** When the breaker last became closed, if it is closed after n events. */
  function ClosedSince(config: Config, events: seq<Event>, n: nat): (a: nat)
    requires n <= |events|
    ensures a <= n
  {
    if n == 0 || !After(config, events, n - 1).state.Closed? then n else ClosedSince(config, events, n - 1)
  }

  function OutcomeOf(e: Event): seq<CallRecord> {
    if e.Allow? then [] else [CallRecord(e.now, e.Success?)]
  }

  lemma LogStep(config: Config, r: Reference, e: Event)
    requires ReferenceNext(config, r, e).state.Closed?
    ensures ReferenceNext(config, r, e).log == if r.state.Closed? then r.log + OutcomeOf(e) else []
  {
  }

  /** The outcomes reported by the events from a to n. */
  function Outcomes(events: seq<Event>, a: nat, n: nat): seq<CallRecord>
    requires a <= n <= |events|
  {
    if n == a then [] else Outcomes(events, a, n - 1) + OutcomeOf(events[n - 1])
  }

  lemma SameState(config: Config, events: seq<Event>, n: nat)
    requires Monotone(events) && n <= |events|
    ensures ReferenceAfter(config, events, n).state == After(config, events, n).state
  {
    BreakerRefinesReference(config, events, n);
  }

  lemma OutcomesGrow(events: seq<Event>, a: nat, n: nat)
    requires a <= n < |events|
    ensures Outcomes(events, a, n + 1) == Outcomes(events, a, n) + OutcomeOf(events[n])
    ensures Outcomes(events, n, n) == []
  {
  }

  lemma ClosedSinceStep(config: Config, events: seq<Event>, n: nat)
    requires n < |events|
    ensures ClosedSince(config, events, n + 1)
         == if After(config, events, n).state.Closed? then ClosedSince(config, events, n) else n + 1
  {
  }

  lemma {:induction false} LogIsOutcomes(config: Config, events: seq<Event>, n: nat)
    requires Monotone(events) && n <= |events| && After(config, events, n).state.Closed?
    ensures ReferenceAfter(config, events, n).log == Outcomes(events, ClosedSince(config, events, n), n)
  {
    if n > 0 {
      var m := n - 1;
      SameState(config, events, m);
      SameState(config, events, n);
      LogStep(config, ReferenceAfter(config, events, m), events[m]);
      ClosedSinceStep(config, events, m);
      if After(config, events, m).state.Closed? {
        LogIsOutcomes(config, events, m);
        OutcomesGrow(events, ClosedSince(config, events, m), m);
      } else {
        assert Outcomes(events, n, n) == [];
      }
    }
  }

  /** While closed, the deque holds exactly the outcomes since the breaker last closed that
      were within the window at the last push, and the failure counter is the trailing run
      of failures among all of them. */
  lemma ClosedWindow(config: Config, events: seq<Event>, n: nat)
    requires Monotone(events) && n <= |events| && After(config, events, n).state.Closed?
    ensures var s, log := After(config, events, n), Outcomes(events, ClosedSince(config, events, n), n);
      && s.consecutiveFailures == TrailingFailures(log)
      && WindowMatches(config, s.callWindow, log)
  {
    BreakerRefinesReference(config, events, n);
    LogIsOutcomes(config, events, n);
    assert Refines(config, After(config, events, n), ReferenceAfter(config, events, n));
  }

  // ---------------------------------------------------------------- opening and recovery

  lemma LastFailureStep(config: Config, s: Inner, e: Event)
    ensures Next(config, s, e).lastFailureTime == if e.Failure? then Some(e.at) else s.lastFailureTime
  {
  }

  lemma {:induction false} LastFailureIsLatest(config: Config, events: seq<Event>, n: nat, i: nat)
    requires Monotone(events) && i < n <= |events| && events[i].Failure?
    ensures After(config, events, n).lastFailureTime.Some?
    ensures After(config, events, n).lastFailureTime.value >= events[i].at
  {
    LastFailureStep(config, After(config, events, n - 1), events[n - 1]);
    if i < n - 1 {
      LastFailureIsLatest(config, events, n - 1, i);
    }
  }

  /** An open breaker admits nobody until `recoveryTimeout` after the latest failure that
      anybody reported. */
  lemma NoEarlyProbe(config: Config, events: seq<Event>, n: nat, i: nat)
    requires Monotone(events) && i < n < |events| && events[i].Failure?
    requires After(config, events, n).state.Open? && Admitted(config, events, n)
    ensures events[n].now - events[i].at >= config.recoveryTimeout
  {
    LastFailureIsLatest(config, events, n, i);
  }

  function Successes(events: seq<Event>, a: nat, n: nat): nat
    requires a <= n <= |events|
  {
    if n == a then 0 else Successes(events, a, n - 1) + if events[n - 1].Success? then 1 else 0
  }

  /** Since event `a`, which admitted a probe to the open breaker, it has been half-open and
      nothing failed. */
  ghost predicate HalfOpenSince(config: Config, events: seq<Event>, a: nat, n: nat)
    requires n <= |events|
  {
    && a < n
    && After(config, events, a).state.Open? && Admitted(config, events, a)
    && forall k: nat :: a < k <= n ==>
         After(config, events, k).state.HalfOpen? && !events[k - 1].Failure?
  }

  lemma HalfOpenStep(config: Config, s: Inner, e: Event)
    requires Next(config, s, e).state.HalfOpen?
    requires s.state.HalfOpen? ==> s.consecutiveSuccesses < Max(1, config.successThreshold)
    ensures Next(config, s, e).consecutiveSuccesses < Max(1, config.successThreshold)
    ensures if s.state.HalfOpen?
      then !e.Failure?
        && Next(config, s, e).consecutiveSuccesses == s.consecutiveSuccesses + (if e.Success? then 1 else 0)
      else s.state.Open? && e.Allow? && Allows(config, s, e.now) && Next(config, s, e).consecutiveSuccesses == 0
  {
  }

  lemma HalfOpenBegins(config: Config, events: seq<Event>, a: nat)
    requires a < |events| && After(config, events, a).state.Open? && Admitted(config, events, a)
    requires After(config, events, a + 1).state.HalfOpen? && !events[a].Failure?
    ensures HalfOpenSince(config, events, a, a + 1)
  {
  }

  lemma HalfOpenGoesOn(config: Config, events: seq<Event>, a: nat, n: nat)
    requires n < |events| && HalfOpenSince(config, events, a, n)
    requires After(config, events, n + 1).state.HalfOpen? && !events[n].Failure?
    ensures HalfOpenSince(config, events, a, n + 1)
  {
    forall k: nat | a < k <= n + 1
      ensures After(config, events, k).state.HalfOpen? && !events[k - 1].Failure?
    {
      assert k == n + 1 || After(config, events, k).state.HalfOpen?;
    }
  }

  lemma SuccessesGrow(events: seq<Event>, a: nat, n: nat)
    requires a <= n < |events|
    ensures Successes(events, a, n + 1) == Successes(events, a, n) + (if events[n].Success? then 1 else 0)
    ensures Successes(events, n, n) == 0
  {
  }

  lemma {:induction false} HalfOpenHistory(config: Config, events: seq<Event>, n: nat) returns (a: nat)
    requires n <= |events| && After(config, events, n).state.HalfOpen?
    ensures HalfOpenSince(config, events, a, n)
    ensures Successes(events, a, n) == After(config, events, n).consecutiveSuccesses
    ensures After(config, events, n).consecutiveSuccesses < Max(1, config.successThreshold)
  {
    var m := n - 1;
    var s := After(config, events, m);
    if s.state.HalfOpen? {
      a := HalfOpenHistory(config, events, m);
      HalfOpenStep(config, s, events[m]);
      HalfOpenGoesOn(config, events, a, m);
    } else {
      a := m;
      HalfOpenStep(config, s, events[m]);
      HalfOpenBegins(config, events, m);
    }
    SuccessesGrow(events, a, m);
  }

  /** Every return to closed follows `successThreshold` half-open successes (one, when the
      threshold is 0) with no failure among them. */
  lemma ClosingIsEarned(config: Config, events: seq<Event>, n: nat) returns (a: nat)
    requires n < |events|
    requires !After(config, events, n).state.Closed? && After(config, events, n + 1).state.Closed?
    ensures HalfOpenSince(config, events, a, n) && events[n].Success?
    ensures Successes(events, a, n + 1) == Max(1, config.successThreshold)
  {
    a := HalfOpenHistory(config, events, n);
  }

  /** One request that is admitted at `.0` and reports success at `.1`. */
  function Round(config: Config, s: Inner, round: (int, int)): Inner {
    AfterSuccess(config, AfterAllow(config, s, round.0), round.1)
  }

  function AfterRounds(config: Config, s: Inner, rounds: seq<(int, int)>): Inner {
    if rounds == [] then s
    else Round(config, AfterRounds(config, s, rounds[..|rounds| - 1]), rounds[|rounds| - 1])
  }

  lemma {:induction false} RoundsCount(config: Config, s: Inner, rounds: seq<(int, int)>)
    requires s.state.Open? && rounds != [] && Allows(config, s, rounds[0].0)
    requires |rounds| <= Max(1, config.successThreshold)
    ensures var end := AfterRounds(config, s, rounds);
      if |rounds| == Max(1, config.successThreshold) then end.state.Closed?
      else end.state.HalfOpen? && !end.probeInFlight && end.consecutiveSuccesses == |rounds|
  {
    var rest := rounds[..|rounds| - 1];
    if rest == [] {
      assert AfterRounds(config, s, rest) == s;
    } else {
      RoundsCount(config, s, rest);
    }
  }

  /** From open, after the timeout: if every admitted request reports success, exactly
      `successThreshold` rounds close the breaker, and none of them is rejected. */
  lemma Recovery(config: Config, s: Inner, rounds: seq<(int, int)>)
    requires s.state.Open? && s.lastFailureTime.Some?
    requires |rounds| == Max(1, config.successThreshold)
    requires rounds[0].0 - s.lastFailureTime.value >= config.recoveryTimeout
    ensures AfterRounds(config, s, rounds).state.Closed?
    ensures forall i :: 0 <= i < |rounds| ==>
      Allows(config, AfterRounds(config, s, rounds[..i]), rounds[i].0)
  {
    RoundsCount(config, s, rounds);
    forall i | 0 <= i < |rounds| ensures Allows(config, AfterRounds(config, s, rounds[..i]), rounds[i].0) {
      if i > 0 {
        assert rounds[..i][0] == rounds[0];
        RoundsCount(config, s, rounds[..i]);
      }
    }
  }

  /** A half-open breaker whose probe never reports rejects every request for ever: only a
      report moves it, the passing of time does not. */
  lemma {:induction false} LostProbeRejectsAll(config: Config, events: seq<Event>, a: nat, n: nat)
    requires a <= n <= |events|
    requires After(config, events, a).state.HalfOpen? && After(config, events, a).probeInFlight
    requires forall i :: a <= i < n ==> events[i].Allow?
    ensures After(config, events, n) == After(config, events, a)
    ensures forall i :: a <= i < n ==> !Admitted(config, events, i)
  {
    if n > a {
      LostProbeRejectsAll(config, events, a, n - 1);
    }
  }
}
