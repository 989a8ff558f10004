/**
 Probes of a breaker that is not closed: how many can be outstanding, that is, admitted and
 not yet reported.
 */
module Probes {
  import opened Basics
  import opened CircuitBreaker
  import opened BreakerProofs

  predicate ReportFor(e: Event, request: nat) {
    !e.Allow? && e.request == request
  }

  /** The request was admitted before event n and has not reported before it. */
  ghost predicate Unreported(config: Config, events: seq<Event>, request: nat, n: nat)
    requires n <= |events|
  {
    && request < n && Admitted(config, events, request)
    && forall k: nat :: request < k < n ==> !ReportFor(events[k], request)
  }

  /** Only admitted requests report, and each at most once. */
  ghost predicate ReportsMatch(config: Config, events: seq<Event>) {
    forall k: nat :: k < |events| && !events[k].Allow? ==> Unreported(config, events, events[k].request, k)
  }

  ghost predicate NotClosedDuring(config: Config, events: seq<Event>, a: nat, n: nat)
    requires n <= |events|
  {
    forall k: nat :: a <= k <= n ==> !After(config, events, k).state.Closed?
  }

  /** The requests admitted by events a to n that have not reported. */
  ghost function Outstanding(config: Config, events: seq<Event>, a: nat, n: nat): set<nat>
    requires a <= n <= |events|
  {
    set request: nat | a <= request < n && Unreported(config, events, request, n)
  }

  predicate StaleReport(e: Event, a: nat) {
    !e.Allow? && e.request < a
  }

  /** The reports among events a to n that come from requests admitted before. */
  ghost function Stale(events: seq<Event>, a: nat, n: nat): set<nat>
    requires a <= n <= |events|
  {
    set k: nat | a <= k < n && StaleReport(events[k], a)
  }

  function ProbeFlag(s: Inner): nat {
    if s.probeInFlight then 1 else 0
  }

  lemma ProbeStep(config: Config, s: Inner, e: Event)
    requires s.probeInFlight ==> s.state.HalfOpen?
    ensures var s' := Next(config, s, e);
      && (s'.probeInFlight ==> s'.state.HalfOpen?)
      && (!s.state.Closed? ==>
            (if e.Allow? && Allows(config, s, e.now) then 1 else 0) + ProbeFlag(s)
              <= (if e.Allow? then 0 else 1) + ProbeFlag(s'))
  {
  }

  lemma {:induction false} ProbeOnlyHalfOpen(config: Config, events: seq<Event>, n: nat)
    requires n <= |events|
    ensures After(config, events, n).probeInFlight ==> After(config, events, n).state.HalfOpen?
  {
    if n > 0 {
      ProbeOnlyHalfOpen(config, events, n - 1);
      ProbeStep(config, After(config, events, n - 1), events[n - 1]);
    }
  }

  /** What one event does to the outstanding requests. */
  lemma OutstandingStep(config: Config, events: seq<Event>, a: nat, n: nat)
    requires ReportsMatch(config, events) && a <= n < |events|
    ensures var before, after := Outstanding(config, events, a, n), Outstanding(config, events, a, n + 1);
      if Admitted(config, events, n) then after == before + {n} && n !in before
      else if events[n].Allow? || events[n].request < a then after == before
      else events[n].request in before && after == before - {events[n].request}
  {
    var before, after := Outstanding(config, events, a, n), Outstanding(config, events, a, n + 1);
    forall request: nat | request < n
      ensures Unreported(config, events, request, n + 1)
         <==> Unreported(config, events, request, n) && !ReportFor(events[n], request)
    {
    }
    assert Admitted(config, events, n) <==> Unreported(config, events, n, n + 1);
  }

  lemma StaleStep(events: seq<Event>, a: nat, n: nat)
    requires a <= n < |events|
    ensures |Stale(events, a, n + 1)| == |Stale(events, a, n)| + if StaleReport(events[n], a) then 1 else 0
  {
    assert Stale(events, a, n + 1) == Stale(events, a, n) + if StaleReport(events[n], a) then {n} else {};
  }

  /** Outstanding requests and the flag never outgrow stale reports and the flag. */
  ghost predicate Balanced(config: Config, events: seq<Event>, a: nat, n: nat)
    requires a <= n <= |events|
  {
    |Outstanding(config, events, a, n)| + ProbeFlag(After(config, events, a))
      <= |Stale(events, a, n)| + ProbeFlag(After(config, events, n))
  }

  lemma BalancedStep(config: Config, events: seq<Event>, a: nat, n: nat)
    requires ReportsMatch(config, events) && a <= n < |events| && !After(config, events, n).state.Closed?
    requires Balanced(config, events, a, n)
    ensures Balanced(config, events, a, n + 1)
  {
    OutstandingStep(config, events, a, n);
    StaleStep(events, a, n);
    ProbeOnlyHalfOpen(config, events, n);
    ProbeStep(config, After(config, events, n), events[n]);
  }

  lemma BalancedStart(config: Config, events: seq<Event>, a: nat)
    requires a <= |events|
    ensures Balanced(config, events, a, a)
  {
    assert Outstanding(config, events, a, a) == {};
  }

  /** Balance is kept as far as event n, from one event to the next. */
  ghost predicate BalancedAt(config: Config, events: seq<Event>, a: nat, m: nat, n: nat) {
    a <= m <= n <= |events| ==> Balanced(config, events, a, m)
  }

  lemma BalancedNext(config: Config, events: seq<Event>, a: nat, m: nat, n: nat)
    requires ReportsMatch(config, events) && a <= m < n <= |events| && NotClosedDuring(config, events, a, n)
    requires BalancedAt(config, events, a, m, n)
    ensures BalancedAt(config, events, a, m + 1, n)
  {
    assert !After(config, events, m).state.Closed?;
    BalancedStep(config, events, a, m);
  }

  lemma {:induction false} KeptAlong(p: nat -> bool, a: nat, n: nat)
    requires a <= n && p(a) && forall m: nat :: a <= m < n && p(m) ==> p(m + 1)
    ensures p(n)
  {
    if a < n {
      KeptAlong(p, a, n - 1);
    }
  }

  lemma AlwaysBalanced(config: Config, events: seq<Event>, a: nat, n: nat)
    requires ReportsMatch(config, events) && a <= n <= |events| && NotClosedDuring(config, events, a, n)
    ensures BalancedAt(config, events, a, n, n)
  {
    var balanced := (m: nat) => BalancedAt(config, events, a, m, n);
    BalancedStart(config, events, a);
    forall m: nat | a <= m < n && balanced(m) ensures balanced(m + 1) {
      BalancedNext(config, events, a, m, n);
    }
    KeptAlong(balanced, a, n);
  }

  /** While the breaker is not closed, at most one request is outstanding, and one more for
      each report that came from a request admitted before. */
  lemma OutstandingBound(config: Config, events: seq<Event>, a: nat, n: nat)
    requires ReportsMatch(config, events) && a <= n <= |events| && NotClosedDuring(config, events, a, n)
    ensures |Outstanding(config, events, a, n)| <= 1 + |Stale(events, a, n)|
  {
    AlwaysBalanced(config, events, a, n);
  }

  // ---------------------------------------------------------------- exactly when there is one at most

  /** The requests that are out when a history ends. */
  ghost function InFlight(config: Config, past: seq<Event>): set<nat> {
    Outstanding(config, past, 0, |past|)
  }

  /** Since event a the breaker has not been closed; the clock never goes back, and reports
      come from admitted requests, each once. */
  ghost predicate Span(config: Config, events: seq<Event>, a: nat) {
    a <= |events| && Monotone(events) && ReportsMatch(config, events) && NotClosedDuring(config, events, a, |events|)
  }

  /** However the history goes on, as long as the breaker does not close, at most one of the
      requests it admits is outstanding at a time. */
  ghost predicate KeepsOne(config: Config, past: seq<Event>) {
    forall later :: Span(config, past + later, |past|) ==>
      |Outstanding(config, past + later, |past|, |past + later|)| <= 1
  }

  lemma {:induction false} AfterPrefix(config: Config, past: seq<Event>, later: seq<Event>, n: nat)
    requires n <= |past|
    ensures After(config, past + later, n) == After(config, past, n)
  {
    if n > 0 {
      AfterPrefix(config, past, later, n - 1);
    }
  }

  lemma UnreportedPrefix(config: Config, past: seq<Event>, later: seq<Event>, request: nat, n: nat)
    requires n <= |past|
    ensures Unreported(config, past + later, request, n) <==> Unreported(config, past, request, n)
  {
    if request < n {
      AfterPrefix(config, past, later, request);
      assert forall k: nat :: k < n ==> (past + later)[k] == past[k];
    }
  }

  lemma OutstandingPrefix(config: Config, past: seq<Event>, later: seq<Event>, a: nat, n: nat)
    requires a <= n <= |past|
    ensures Outstanding(config, past + later, a, n) == Outstanding(config, past, a, n)
  {
    forall request: nat {
      UnreportedPrefix(config, past, later, request, n);
    }
  }

  // ---------------------------------------------------------------- enough: nobody else in flight

  /** The requests admitted before event a that have not reported before event n. */
  ghost function Left(config: Config, events: seq<Event>, a: nat, n: nat): set<nat>
    requires a <= n <= |events|
  {
    set request: nat | request < a && Unreported(config, events, request, n)
  }

  lemma LeftStep(config: Config, events: seq<Event>, a: nat, n: nat)
    requires ReportsMatch(config, events) && a <= n < |events|
    ensures |Left(config, events, a, n + 1)|
         == |Left(config, events, a, n)| - if StaleReport(events[n], a) then 1 else 0
  {
    var before, after := Left(config, events, a, n), Left(config, events, a, n + 1);
    forall request: nat | request < a
      ensures Unreported(config, events, request, n + 1)
         <==> Unreported(config, events, request, n) && !ReportFor(events[n], request)
    {
    }
    if StaleReport(events[n], a) {
      assert events[n].request in before && after == before - {events[n].request};
    } else {
      assert after == before;
    }
  }

  /** What was left is left, or has reported. */
  ghost predicate LeftAccounted(config: Config, events: seq<Event>, a: nat, m: nat, n: nat) {
    a <= m <= n <= |events| ==>
      |Stale(events, a, m)| + |Left(config, events, a, m)| == |Left(config, events, a, a)|
  }

  lemma LeftAccountedNext(config: Config, events: seq<Event>, a: nat, m: nat, n: nat)
    requires ReportsMatch(config, events) && a <= m < n <= |events| && LeftAccounted(config, events, a, m, n)
    ensures LeftAccounted(config, events, a, m + 1, n)
  {
    StaleStep(events, a, m);
    LeftStep(config, events, a, m);
  }

  /** Stale reports come from distinct requests that were in flight. */
  lemma StaleWereLeft(config: Config, events: seq<Event>, a: nat, n: nat)
    requires ReportsMatch(config, events) && a <= n <= |events|
    ensures LeftAccounted(config, events, a, n, n)
  {
    var accounted := (m: nat) => LeftAccounted(config, events, a, m, n);
    assert Stale(events, a, a) == {};
    forall m: nat | a <= m < n && accounted(m) ensures accounted(m + 1) {
      LeftAccountedNext(config, events, a, m, n);
    }
    KeptAlong(accounted, a, n);
  }

  lemma LeftIsInFlight(config: Config, past: seq<Event>, later: seq<Event>)
    ensures Left(config, past + later, |past|, |past|) == InFlight(config, past)
  {
    forall request: nat {
      UnreportedPrefix(config, past, later, request, |past|);
    }
  }

  lemma FewInFlightKeepOne(config: Config, past: seq<Event>, later: seq<Event>)
    requires |InFlight(config, past)| <= ProbeFlag(After(config, past, |past|))
    requires Span(config, past + later, |past|)
    ensures |Outstanding(config, past + later, |past|, |past + later|)| <= 1
  {
    var events, a := past + later, |past|;
    AlwaysBalanced(config, events, a, |events|);
    StaleWereLeft(config, events, a, |events|);
    LeftIsInFlight(config, past, later);
    AfterPrefix(config, past, later, a);
  }

  // ---------------------------------------------------------------- needed: a witness otherwise

  lemma MonotoneGrows(events: seq<Event>, e: Event)
    requires Monotone(events) && Start(e) <= e.now
    requires events != [] ==> events[|events| - 1].now <= Start(e)
    ensures Monotone(events + [e])
  {
    assert forall i :: 0 <= i < |events| - 1 ==> events[i].now <= Start(events[|events| - 1]);
  }

  lemma ReportsMatchGrows(config: Config, events: seq<Event>, e: Event)
    requires ReportsMatch(config, events) && (!e.Allow? ==> e.request in InFlight(config, events))
    ensures ReportsMatch(config, events + [e])
  {
    var longer := events + [e];
    forall k: nat | k < |longer| && !longer[k].Allow? ensures Unreported(config, longer, longer[k].request, k) {
      UnreportedPrefix(config, events, [e], longer[k].request, k);
    }
  }

  lemma NotClosedGrows(config: Config, events: seq<Event>, e: Event, a: nat)
    requires a <= |events| && NotClosedDuring(config, events, a, |events|)
    requires !Next(config, After(config, events, |events|), e).state.Closed?
    ensures After(config, events + [e], |events| + 1) == Next(config, After(config, events, |events|), e)
    ensures NotClosedDuring(config, events + [e], a, |events| + 1)
  {
    forall k: nat | k <= |events| ensures After(config, events + [e], k) == After(config, events, k) {
      AfterPrefix(config, events, [e], k);
    }
  }

  lemma OutstandingGrows(config: Config, events: seq<Event>, e: Event, b: nat)
    requires b <= |events| && ReportsMatch(config, events + [e])
    ensures var n, before := |events|, Outstanding(config, events, b, |events|);
      Outstanding(config, events + [e], b, n + 1)
        == if e.Allow? then (if Allows(config, After(config, events, n), e.now) then before + {n} else before)
           else before - {e.request}
  {
    OutstandingPrefix(config, events, [e], b, |events|);
    OutstandingStep(config, events + [e], b, |events|);
    AfterPrefix(config, events, [e], |events|);
  }

  /** One more event of a span. */
  lemma SpanGrows(config: Config, events: seq<Event>, e: Event, a: nat)
    requires Span(config, events, a) && Start(e) <= e.now
    requires events != [] ==> events[|events| - 1].now <= Start(e)
    requires !e.Allow? ==> e.request in InFlight(config, events)
    requires !Next(config, After(config, events, |events|), e).state.Closed?
    ensures Span(config, events + [e], a)
    ensures After(config, events + [e], |events| + 1) == Next(config, After(config, events, |events|), e)
  {
    MonotoneGrows(events, e);
    ReportsMatchGrows(config, events, e);
    NotClosedGrows(config, events, e, a);
  }

  lemma FailedStep(s: Inner, s': Inner, e: Event, config: Config)
    requires s' == Next(config, s, e) && (!s.state.Closed? ==> s.lastFailureTime.Some?)
    ensures !s'.state.Closed? ==> s'.lastFailureTime.Some?
  {
  }

  /** A breaker that is not closed knows its last failure. */
  lemma {:induction false} NotClosedHasFailed(config: Config, events: seq<Event>, n: nat)
    requires n <= |events|
    ensures !After(config, events, n).state.Closed? ==> After(config, events, n).lastFailureTime.Some?
  {
    if n > 0 {
      NotClosedHasFailed(config, events, n - 1);
      FailedStep(After(config, events, n - 1), After(config, events, n), events[n - 1], config);
    }
  }

  /** A time at which a breaker without an outstanding probe admits. */
  function AdmissionTime(config: Config, events: seq<Event>, s: Inner): (t: int)
    requires s.lastFailureTime.Some?
    ensures events != [] ==> events[|events| - 1].now <= t
    ensures !s.probeInFlight ==> Allows(config, s, t)
  {
    var earliest := s.lastFailureTime.value + config.recoveryTimeout;
    if events == [] then earliest else Max(earliest, events[|events| - 1].now)
  }

  /** With a request from before a in flight, and no probe out: a probe is admitted, and then
      the old request fails. */
  lemma ProbeThenFailure(config: Config, events: seq<Event>, a: nat, u: nat) returns (one: seq<Event>, t: int)
    requires Span(config, events, a) && !After(config, events, |events|).probeInFlight
    requires u < a && u in InFlight(config, events) && Outstanding(config, events, a, |events|) == {}
    ensures one == events + [Allow(t)] && Span(config, one, a) && u in InFlight(config, one)
    ensures !After(config, one, |one|).state.Closed? && Outstanding(config, one, a, |one|) == {|events|}
  {
    NotClosedHasFailed(config, events, |events|);
    t := AdmissionTime(config, events, After(config, events, |events|));
    one := events + [Allow(t)];
    SpanGrows(config, events, Allow(t), a);
    OutstandingGrows(config, events, Allow(t), a);
    OutstandingGrows(config, events, Allow(t), 0);
  }

  lemma FailureOpens(config: Config, events: seq<Event>, a: nat, u: nat, t: int) returns (s: Inner)
    requires Span(config, events, a) && u < a && u in InFlight(config, events)
    requires events != [] && events[|events| - 1].now <= t && !After(config, events, |events|).state.Closed?
    ensures var longer := events + [Failure(u, t, t)];
      && Span(config, longer, a) && After(config, longer, |longer|) == s
      && s.state.Open? && s.lastFailureTime == Some(t) && !s.probeInFlight
      && Outstanding(config, longer, a, |longer|) == Outstanding(config, events, a, |events|)
      && InFlight(config, longer) == InFlight(config, events) - {u}
  {
    s := AfterFailure(config, After(config, events, |events|), t, t);
    SpanGrows(config, events, Failure(u, t, t), a);
    OutstandingGrows(config, events, Failure(u, t, t), a);
    OutstandingGrows(config, events, Failure(u, t, t), 0);
  }

  lemma TimeoutAdmits(config: Config, events: seq<Event>, a: nat, t: int)
    requires Span(config, events, a) && After(config, events, |events|).state.Open?
    requires After(config, events, |events|).lastFailureTime == Some(t)
    requires events != [] && events[|events| - 1].now == t
    ensures var longer := events + [Allow(t + config.recoveryTimeout)];
      && Span(config, longer, a)
      && Outstanding(config, longer, a, |longer|) == Outstanding(config, events, a, |events|) + {|events|}
  {
    SpanGrows(config, events, Allow(t + config.recoveryTimeout), a);
    OutstandingGrows(config, events, Allow(t + config.recoveryTimeout), a);
  }

  /** After the timeout another probe is admitted, and both are outstanding. */
  lemma SecondProbe(config: Config, events: seq<Event>, a: nat, u: nat) returns (longer: seq<Event>)
    requires Span(config, events, a) && !After(config, events, |events|).probeInFlight
    requires u < a && u in InFlight(config, events) && Outstanding(config, events, a, |events|) == {}
    ensures |events| <= |longer| && longer[..|events|] == events && Span(config, longer, a)
    ensures |Outstanding(config, longer, a, |longer|)| == 2
  {
    var one, t := ProbeThenFailure(config, events, a, u);
    var s := FailureOpens(config, one, a, u, t);
    var two := one + [Failure(u, t, t)];
    TimeoutAdmits(config, two, a, t);
    longer := two + [Allow(t + config.recoveryTimeout)];
    assert |two| != |events|;
  }

  lemma NothingAdmittedYet(config: Config, past: seq<Event>)
    ensures Outstanding(config, past, |past|, |past|) == {}
  {
  }

  lemma TwoOf(s: set<nat>) returns (u: nat, v: nat)
    requires |s| >= 2
    ensures u in s && v in s && u != v
  {
    u :| u in s;
    assert |s - {u}| >= 1;
    v :| v in s - {u};
  }

  /** One of the requests in flight fails, which opens the breaker. */
  lemma OldRequestFails(config: Config, past: seq<Event>, v: nat) returns (one: seq<Event>)
    requires Span(config, past, |past|) && v in InFlight(config, past)
    ensures |one| == |past| + 1 && one[..|past|] == past && Span(config, one, |past|)
    ensures !After(config, one, |one|).probeInFlight && InFlight(config, one) == InFlight(config, past) - {v}
    ensures Outstanding(config, one, |past|, |one|) == {}
  {
    var a := |past|;
    NothingAdmittedYet(config, past);
    NotClosedHasFailed(config, past, a);
    var t := AdmissionTime(config, past, After(config, past, a));
    one := past + [Failure(v, t, t)];
    var failed := FailureOpens(config, past, a, v, t);
  }

  lemma PrefixOfPrefix(past: seq<Event>, one: seq<Event>, longer: seq<Event>)
    requires |past| <= |one| <= |longer| && one[..|past|] == past && longer[..|one|] == one
    ensures longer[..|past|] == past
  {
    assert longer[..|past|] == longer[..|one|][..|past|];
  }

  /** The probe is out, and two requests are in flight: one fails first. */
  lemma FailureThenSecondProbe(config: Config, past: seq<Event>, u: nat, v: nat) returns (longer: seq<Event>)
    requires Span(config, past, |past|) && u != v && u in InFlight(config, past) && v in InFlight(config, past)
    ensures |past| <= |longer| && longer[..|past|] == past && Span(config, longer, |past|)
    ensures |Outstanding(config, longer, |past|, |longer|)| == 2
  {
    var one := OldRequestFails(config, past, v);
    longer := SecondProbe(config, one, |past|, u);
    PrefixOfPrefix(past, one, longer);
  }

  lemma ManyInFlightLoseOne(config: Config, past: seq<Event>) returns (longer: seq<Event>)
    requires Span(config, past, |past|)
    requires |InFlight(config, past)| > ProbeFlag(After(config, past, |past|))
    ensures |past| <= |longer| && longer[..|past|] == past && Span(config, longer, |past|)
    ensures |Outstanding(config, longer, |past|, |longer|)| == 2
  {
    if After(config, past, |past|).probeInFlight {
      var u, v := TwoOf(InFlight(config, past));
      longer := FailureThenSecondProbe(config, past, u, v);
    } else {
      var u :| u in InFlight(config, past);
      NothingAdmittedYet(config, past);
      longer := SecondProbe(config, past, |past|, u);
    }
  }

  /** One probe at a time is guaranteed from now on, until the breaker closes, if and only if
      no request is in flight but the probe itself: just after opening, none at all. */
  lemma OneProbeIff(config: Config, past: seq<Event>)
    requires Span(config, past, |past|)
    ensures KeepsOne(config, past) <==> |InFlight(config, past)| <= ProbeFlag(After(config, past, |past|))
  {
    if |InFlight(config, past)| <= ProbeFlag(After(config, past, |past|)) {
      forall later | Span(config, past + later, |past|)
        ensures |Outstanding(config, past + later, |past|, |past + later|)| <= 1
      {
        FewInFlightKeepOne(config, past, later);
      }
    } else {
      var longer := ManyInFlightLoseOne(config, past);
      assert past + longer[|past|..] == longer;
    }
  }

  // ---------------------------------------------------------------- two probes

  const TwoProbesConfig := Config(1, 10, 2, 30, 0.5, 10)

  /** Request 1 is admitted at 0 and reports at 12, after request 0 has failed, which opened
      the breaker at 1, and probe 3 was admitted at 11: its report clears the flag, and probe
      5 is admitted at 13. */
  const TwoProbesEvents :=
    [Allow(0), Allow(0), Failure(0, 1, 1), Allow(11), Success(1, 12), Allow(13)]

  lemma TwoProbesOpen()
    ensures After(TwoProbesConfig, TwoProbesEvents, 1) == Initial
    ensures After(TwoProbesConfig, TwoProbesEvents, 0) == Initial
    ensures After(TwoProbesConfig, TwoProbesEvents, 3)
         == Inner(Open, 1, 0, Some(1), [CallRecord(1, false)], false)
  {
    var c, e := TwoProbesConfig, TwoProbesEvents;
    assert After(c, e, 0) == Initial;
    assert After(c, e, 1) == Initial;
    assert After(c, e, 2) == Initial;
  }

  lemma TwoProbesAdmitted()
    ensures After(TwoProbesConfig, TwoProbesEvents, 4).state.HalfOpen?
    ensures After(TwoProbesConfig, TwoProbesEvents, 5).state.HalfOpen?
    ensures !After(TwoProbesConfig, TwoProbesEvents, 5).probeInFlight
    ensures Admitted(TwoProbesConfig, TwoProbesEvents, 3)
  {
    var c, e := TwoProbesConfig, TwoProbesEvents;
    TwoProbesOpen();
    assert After(c, e, 4) == Inner(HalfOpen, 1, 0, Some(1), [CallRecord(1, false)], true);
  }

  lemma TwoProbesReport()
    ensures Admitted(TwoProbesConfig, TwoProbesEvents, 5) && After(TwoProbesConfig, TwoProbesEvents, 6).state.HalfOpen?
    ensures ReportsMatch(TwoProbesConfig, TwoProbesEvents)
  {
    var c, e := TwoProbesConfig, TwoProbesEvents;
    TwoProbesOpen();
    TwoProbesAdmitted();
    assert e[5] == Allow(13);
    assert Admitted(c, e, 0) && Admitted(c, e, 1);
    assert Unreported(c, e, 0, 2) && Unreported(c, e, 1, 4);
  }

  /** Half-open does not mean one probe at a time: with one stale report, probes 3 and 5 are
      both outstanding. */
  lemma TwoProbesOutstanding()
    ensures Monotone(TwoProbesEvents) && ReportsMatch(TwoProbesConfig, TwoProbesEvents)
    ensures NotClosedDuring(TwoProbesConfig, TwoProbesEvents, 3, 6)
    ensures Outstanding(TwoProbesConfig, TwoProbesEvents, 3, 6) == {3, 5}
    ensures Stale(TwoProbesEvents, 3, 6) == {4}
  {
    TwoProbesOpen();
    TwoProbesAdmitted();
    TwoProbesReport();
    assert Unreported(TwoProbesConfig, TwoProbesEvents, 3, 6);
    assert Unreported(TwoProbesConfig, TwoProbesEvents, 5, 6);
  }
}
