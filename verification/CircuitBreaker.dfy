/**
 The circuit breaker: the incremental state machine with its pruned call window, and the
 reference machine that decides on the full log of outcomes.
 */
module CircuitBreaker {
  import opened Basics

  datatype CircuitState = Closed | HalfOpen | Open

  datatype Config = Config(
    failureThreshold: nat,
    recoveryTimeout: nat,
    successThreshold: nat,
    rateWindow: nat,
    failureRateThreshold: real,
    minCallsForRate: nat)

  datatype CallRecord = CallRecord(timestamp: int, success: bool)

  /** The state under the lock. */
  datatype Inner = Inner(
    state: CircuitState,
    consecutiveFailures: nat,
    consecutiveSuccesses: nat,
    lastFailureTime: Option<int>,
    callWindow: seq<CallRecord>,
    probeInFlight: bool)

  const Initial := Inner(Closed, 0, 0, None, [], false)

  /** Pop stale records off the front. */
  function DropStale(window: seq<CallRecord>, cutoff: int): seq<CallRecord> {
    if window != [] && window[0].timestamp < cutoff then DropStale(window[1..], cutoff) else window
  }

  function Push(config: Config, window: seq<CallRecord>, now: int, success: bool): seq<CallRecord> {
    DropStale(window, now - config.rateWindow) + [CallRecord(now, success)]
  }

  function Failures(calls: seq<CallRecord>): nat {
    if calls == [] then 0
    else Failures(calls[..|calls| - 1]) + if calls[|calls| - 1].success then 0 else 1
  }

  predicate RateExceeded(config: Config, calls: seq<CallRecord>) {
    && |calls| >= config.minCallsForRate
    && |calls| > 0
    && Failures(calls) as real / |calls| as real > config.failureRateThreshold
  }

  function Transition(s: Inner, next: CircuitState): Inner {
    if s.state == next then s
    else if next.Closed? then Inner(Closed, 0, 0, s.lastFailureTime, [], false)
    else s.(state := next, consecutiveSuccesses := 0, probeInFlight := false)
  }

  predicate Allows(config: Config, s: Inner, now: int) {
    match s.state
    case Closed => true
    case HalfOpen => !s.probeInFlight
    case Open => s.lastFailureTime.Some? && now - s.lastFailureTime.value >= config.recoveryTimeout
  }

  function AfterAllow(config: Config, s: Inner, now: int): Inner {
    if s.state.Closed? || !Allows(config, s, now) then s
    else Transition(s, HalfOpen).(probeInFlight := true)
  }

  function AfterSuccess(config: Config, s: Inner, now: int): Inner {
    var s1 := s.(consecutiveFailures := 0, probeInFlight := false,
                 callWindow := if s.state.Open? then s.callWindow else Push(config, s.callWindow, now, true));
    if !s.state.HalfOpen? then s1
    else
      var s2 := s1.(consecutiveSuccesses := s1.consecutiveSuccesses + 1);
      if s2.consecutiveSuccesses >= config.successThreshold then Transition(s2, Closed) else s2
  }

  /** The clock is read twice: at `at` for the last failure, at `now` for the window. */
  function AfterFailure(config: Config, s: Inner, at: int, now: int): Inner {
    var s1 := s.(consecutiveSuccesses := 0, probeInFlight := false, lastFailureTime := Some(at),
                 callWindow := if s.state.Open? then s.callWindow else Push(config, s.callWindow, now, false));
    match s.state
    case Closed =>
      var s2 := s1.(consecutiveFailures := s1.consecutiveFailures + 1);
      if s2.consecutiveFailures >= config.failureThreshold || RateExceeded(config, s2.callWindow)
      then Transition(s2, Open) else s2
    case HalfOpen => Transition(s1, Open)
    case Open => s1.(consecutiveFailures := s1.consecutiveFailures + 1)
  }

  class Breaker {
    const config: Config
    var state: CircuitState
    var consecutiveFailures: nat
    var consecutiveSuccesses: nat
    var lastFailureTime: Option<int>
    var callWindow: seq<CallRecord>
    var probeInFlight: bool

    function Value(): Inner
      reads this
    {
      Inner(state, consecutiveFailures, consecutiveSuccesses, lastFailureTime, callWindow, probeInFlight)
    }

    constructor (config: Config)
      ensures this.config == config && Value() == Initial
    {
      this.config := config;
      state, consecutiveFailures, consecutiveSuccesses := Closed, 0, 0;
      lastFailureTime, callWindow, probeInFlight := None, [], false;
    }

    method AllowRequest(now: int) returns (allowed: bool)
      modifies this
      ensures allowed == Allows(config, old(Value()), now)
      ensures Value() == AfterAllow(config, old(Value()), now)
    {
      match state {
        case Closed =>
          return true;
        case HalfOpen =>
          if probeInFlight {
            return false;
          }
          probeInFlight := true;
          return true;
        case Open =>
          var elapsed := lastFailureTime.Some? && now - lastFailureTime.value >= config.recoveryTimeout;
          if elapsed {
            DoTransition(HalfOpen);
            probeInFlight := true;
          }
          return elapsed;
      }
    }

    method RecordSuccess(now: int)
      modifies this
      ensures Value() == AfterSuccess(config, old(Value()), now)
    {
      consecutiveFailures := 0;
      probeInFlight := false;
      if state != Open {
        PushCall(now, true);
      }
      if state == HalfOpen {
        consecutiveSuccesses := consecutiveSuccesses + 1;
        if consecutiveSuccesses >= config.successThreshold {
          DoTransition(Closed);
        }
      }
    }

    method RecordFailure(at: int, now: int)
      modifies this
      ensures Value() == AfterFailure(config, old(Value()), at, now)
    {
      consecutiveSuccesses := 0;
      probeInFlight := false;
      lastFailureTime := Some(at);
      if state != Open {
        PushCall(now, false);
      }
      match state {
        case Closed =>
          consecutiveFailures := consecutiveFailures + 1;
          if consecutiveFailures >= config.failureThreshold {
            DoTransition(Open);
            return;
          }
          var exceeded := FailureRateExceeded();
          if exceeded {
            DoTransition(Open);
          }
        case HalfOpen =>
          DoTransition(Open);
        case Open =>
          consecutiveFailures := consecutiveFailures + 1;
      }
    }

    method PushCall(now: int, success: bool)
      modifies this`callWindow
      ensures callWindow == Push(config, old(callWindow), now, success)
    {
      var cutoff := now - config.rateWindow;
      while callWindow != [] && callWindow[0].timestamp < cutoff
        invariant DropStale(callWindow, cutoff) == DropStale(old(callWindow), cutoff)
        decreases |callWindow|
      {
        callWindow := callWindow[1..];
      }
      callWindow := callWindow + [CallRecord(now, success)];
    }

    method FailureRateExceeded() returns (exceeded: bool)
      ensures exceeded == RateExceeded(config, callWindow)
    {
      var total := |callWindow|;
      if total < config.minCallsForRate || total == 0 {
        return false;
      }
      var failures := 0;
      for i := 0 to total
        invariant failures == Failures(callWindow[..i])
      {
        assert callWindow[..i + 1][..i] == callWindow[..i];
        if !callWindow[i].success {
          failures := failures + 1;
        }
      }
      assert callWindow[..total] == callWindow;
      return failures as real / total as real > config.failureRateThreshold;
    }

    method DoTransition(next: CircuitState)
      modifies this
      ensures Value() == Transition(old(Value()), next)
    {
      if state == next {
        return;
      }
      state := next;
      match next {
        case Closed =>
          consecutiveFailures := 0;
          consecutiveSuccesses := 0;
          probeInFlight := false;
          callWindow := [];
        case HalfOpen =>
          consecutiveSuccesses := 0;
          probeInFlight := false;
        case Open =>
          consecutiveSuccesses := 0;
          probeInFlight := false;
      }
    }
  }
}
