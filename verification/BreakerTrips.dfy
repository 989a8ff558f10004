/**
 When a closed breaker opens, said about the reports of its history and nothing else.
 */
module BreakerTrips {
  import opened Basics
  import opened CircuitBreaker
  import opened BreakerProofs

  predicate IsReport(e: Event) {
    !e.Allow?
  }

  /** The reports among events a to n that are not older than `cutoff`. */
  ghost function ReportsSince(events: seq<Event>, a: nat, n: nat, cutoff: int): set<nat>
    requires a <= n <= |events|
  {
    set k: nat | a <= k < n && IsReport(events[k]) && events[k].now >= cutoff
  }

  /** Those of them that are failures. */
  ghost function FailuresSince(events: seq<Event>, a: nat, n: nat, cutoff: int): set<nat>
    requires a <= n <= |events|
  {
    set k: nat | a <= k < n && events[k].Failure? && events[k].now >= cutoff
  }

  lemma FailuresAppend(calls: seq<CallRecord>, last: CallRecord)
    ensures Failures(calls + [last]) == Failures(calls) + if last.success then 0 else 1
  {
    assert (calls + [last])[..|calls|] == calls;
  }

  lemma OneMore(before: set<nat>, after: set<nat>, n: nat, counts: bool)
    requires n !in before && after == before + if counts then {n} else {}
    ensures |after| == |before| + if counts then 1 else 0
  {
  }

  lemma ReportsSinceGrow(events: seq<Event>, a: nat, n: nat, cutoff: int)
    requires a <= n < |events|
    ensures |ReportsSince(events, a, n + 1, cutoff)|
         == |ReportsSince(events, a, n, cutoff)| + if IsReport(events[n]) && events[n].now >= cutoff then 1 else 0
  {
    OneMore(ReportsSince(events, a, n, cutoff), ReportsSince(events, a, n + 1, cutoff), n,
      IsReport(events[n]) && events[n].now >= cutoff);
  }

  lemma FailuresSinceGrow(events: seq<Event>, a: nat, n: nat, cutoff: int)
    requires a <= n < |events|
    ensures |FailuresSince(events, a, n + 1, cutoff)|
         == |FailuresSince(events, a, n, cutoff)| + if events[n].Failure? && events[n].now >= cutoff then 1 else 0
  {
    OneMore(FailuresSince(events, a, n, cutoff), FailuresSince(events, a, n + 1, cutoff), n,
      events[n].Failure? && events[n].now >= cutoff);
  }

  /** The recent part of the log, counted by events. */
  lemma {:induction false} RecentCounts(events: seq<Event>, a: nat, n: nat, cutoff: int)
    requires a <= n <= |events|
    ensures |Recent(Outcomes(events, a, n), cutoff)| == |ReportsSince(events, a, n, cutoff)|
    ensures Failures(Recent(Outcomes(events, a, n), cutoff)) == |FailuresSince(events, a, n, cutoff)|
  {
    if n == a {
      assert ReportsSince(events, a, n, cutoff) == {} && FailuresSince(events, a, n, cutoff) == {};
    } else {
      var m := n - 1;
      RecentCounts(events, a, m, cutoff);
      OutcomesGrow(events, a, m);
      ReportsSinceGrow(events, a, m, cutoff);
      FailuresSinceGrow(events, a, m, cutoff);
      var log := Outcomes(events, a, m);
      if IsReport(events[m]) {
        var last := CallRecord(events[m].now, events[m].Success?);
        RecentAppend(log, last, cutoff);
        FailuresAppend(Recent(log, cutoff), last);
      } else {
        assert log + [] == log;
      }
    }
  }

  /** The last k outcomes of the log are failures. */
  ghost predicate LastFailed(log: seq<CallRecord>, k: nat) {
    k <= |log| && forall i :: |log| - k <= i < |log| ==> !log[i].success
  }

  lemma {:induction false} TrailingMeans(log: seq<CallRecord>, k: nat)
    ensures TrailingFailures(log) >= k <==> LastFailed(log, k)
  {
    if log != [] && !log[|log| - 1].success && k > 0 {
      TrailingMeans(log[..|log| - 1], k - 1);
      var rest := log[..|log| - 1];
      assert LastFailed(log, k) ==> forall i :: |rest| - (k - 1) <= i < |rest| ==> !log[i].success;
      assert LastFailed(rest, k - 1) ==>
        forall i :: |log| - k <= i < |log| ==> i == |log| - 1 || log[i] == rest[i];
    }
  }

  /** There are enough of these reports, and too large a share of them are failures. */
  ghost predicate TooManyFailed(config: Config, reports: set<nat>, failures: set<nat>) {
    && |reports| > 0
    && |reports| >= config.minCallsForRate
    && |failures| as real / |reports| as real > config.failureRateThreshold
  }

  lemma RateMeans(config: Config, calls: seq<CallRecord>, reports: set<nat>, failures: set<nat>)
    requires |calls| == |reports| && Failures(calls) == |failures|
    ensures RateExceeded(config, calls) <==> TooManyFailed(config, reports, failures)
  {
  }

  lemma FailureDecides(config: Config, events: seq<Event>, n: nat)
    requires Monotone(events) && n < |events| && events[n].Failure? && After(config, events, n).state.Closed?
    ensures After(config, events, n + 1).state.Open?
       <==> Trips(config, Outcomes(events, ClosedSince(config, events, n), n + 1), events[n].now)
  {
    BreakerRefinesReference(config, events, n);
    BreakerRefinesReference(config, events, n + 1);
    LogIsOutcomes(config, events, n);
    OutcomesGrow(events, ClosedSince(config, events, n), n);
  }

  /** The failure at event n ends a long enough row of failures since event a, or lifts the
      failure rate of the window too high. */
  ghost predicate OpensNow(config: Config, events: seq<Event>, a: nat, n: nat)
    requires a <= n < |events|
  {
    var cutoff := events[n].now - config.rateWindow;
    || LastFailed(Outcomes(events, a, n + 1), config.failureThreshold)
    || TooManyFailed(config, ReportsSince(events, a, n + 1, cutoff), FailuresSince(events, a, n + 1, cutoff))
  }

  lemma TripsBy(config: Config, log: seq<CallRecord>, now: int, reports: set<nat>, failures: set<nat>)
    requires var calls := Recent(log, now - config.rateWindow);
      |calls| == |reports| && Failures(calls) == |failures|
    ensures Trips(config, log, now)
       <==> LastFailed(log, config.failureThreshold) || TooManyFailed(config, reports, failures)
  {
    RateMeans(config, Recent(log, now - config.rateWindow), reports, failures);
    TrailingMeans(log, config.failureThreshold);
  }

  lemma TripsMeans(config: Config, events: seq<Event>, a: nat, n: nat)
    requires a <= n < |events|
    ensures Trips(config, Outcomes(events, a, n + 1), events[n].now) <==> OpensNow(config, events, a, n)
  {
    var cutoff := events[n].now - config.rateWindow;
    RecentCounts(events, a, n + 1, cutoff);
    TripsBy(config, Outcomes(events, a, n + 1), events[n].now,
      ReportsSince(events, a, n + 1, cutoff), FailuresSince(events, a, n + 1, cutoff));
  }

  /** On every history with a monotone clock, a failure reported to a closed breaker opens it
      if and only if the last `failureThreshold` reports since it closed were failures, or the
      reports of the window are at least `minCallsForRate` and the failures among them more
      than the threshold share. */
  lemma OpensIff(config: Config, events: seq<Event>, n: nat)
    requires Monotone(events) && n < |events| && events[n].Failure? && After(config, events, n).state.Closed?
    ensures ClosedSince(config, events, n) <= n
    ensures After(config, events, n + 1).state.Open? <==> OpensNow(config, events, ClosedSince(config, events, n), n)
  {
    FailureDecides(config, events, n);
    TripsMeans(config, events, ClosedSince(config, events, n), n);
  }

  /** Nothing else opens a closed breaker. */
  lemma OnlyFailureOpens(config: Config, events: seq<Event>, n: nat)
    requires n < |events| && !events[n].Failure? && After(config, events, n).state.Closed?
    ensures After(config, events, n + 1).state.Closed?
  {
  }
}
