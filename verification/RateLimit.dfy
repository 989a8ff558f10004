/**
 The sliding-window rate limiter: the Lua script over one sorted set, and
 `check_rate_limit_inner` around it. Times are milliseconds.
 */
module RateLimit {
  import opened Basics

  /** A member of the sorted set: the caller's clock and a per-process sequence number. */
  datatype Member = Member(now: int, seqNo: nat)

  /** A Redis key: the sorted set, and the server time at which EXPIRE removes it. */
  datatype Key = Key(zset: map<Member, int>, expireAt: Option<int>)

  datatype Reply = Reply(allowed: bool, count: int, limit: int, resetMs: int)

  const Absent := Key(map[], None)

  /** ZREMRANGEBYSCORE key 0 (now - window) */
  function Prune(zset: map<Member, int>, now: int, window: int): map<Member, int> {
    map m | m in zset && !(0 <= zset[m] <= now - window) :: zset[m]
  }

  ghost predicate IsOldest(low: int, scores: set<int>) {
    low in scores && forall x :: x in scores ==> low <= x
  }

  lemma {:induction false} OldestExists(scores: set<int>, x: int)
    requires x in scores
    ensures exists low :: IsOldest(low, scores)
  {
    if y :| y in scores && y < x {
      OldestExists(scores - {x}, y);
      var low :| IsOldest(low, scores - {x});
      assert forall z :: z in scores ==> z == x || z in scores - {x};
      assert IsOldest(Min(low, x), scores);
    } else {
      assert IsOldest(x, scores);
    }
  }

  /** ZRANGE key 0 0 WITHSCORES */
  function OldestScore(zset: map<Member, int>): (oldest: Option<int>)
    ensures oldest.None? <==> zset == map[]
    ensures oldest.Some? ==> oldest.value in zset.Values && forall m :: m in zset ==> oldest.value <= zset[m]
  {
    if zset == map[] then None
    else
      var m :| m in zset;
      assert forall k :: k in zset ==> zset[k] in zset.Values;
      OldestExists(zset.Values, zset[m]);
      var low :| low in zset.Values && forall x :: x in zset.Values ==> low <= x;
      Some(low)
  }

  function ResetMs(zset: map<Member, int>, now: int, window: int, whenEmpty: int): int {
    var oldest := OldestScore(zset);
    if oldest.Some? then Max(oldest.value + window - now, 0) else whenEmpty
  }

  /** The script on a set that EXPIRE has not removed. */
  function ScriptReply(zset: map<Member, int>, now: int, window: int, limit: int, member: Member): Reply {
    var live := Prune(zset, now, window);
    if |live| >= limit then Reply(false, |live|, limit, ResetMs(live, now, window, 0))
    else Reply(true, |live| + 1, limit, ResetMs(live[member := now], now, window, window))
  }

  function ScriptSet(zset: map<Member, int>, now: int, window: int, limit: int, member: Member): map<Member, int> {
    var live := Prune(zset, now, window);
    if |live| >= limit then live else live[member := now]
  }

  /** math.ceil(window / 1000) + 10 seconds */
  function ExpireMs(window: int): (lifetime: int)
    ensures window + 10000 <= lifetime < window + 11000
  {
    1000 * ((window + 999) / 1000 + 10)
  }

  /** What is left of a key at server time `redisNow`. */
  function Unexpired(key: Key, redisNow: int): Key {
    if key.expireAt.Some? && redisNow >= key.expireAt.value then Absent else key
  }

  function ScriptKey(key: Key, now: int, redisNow: int, window: int, limit: int, member: Member): Key {
    var k := Unexpired(key, redisNow);
    Key(ScriptSet(k.zset, now, window, limit, member),
        if ScriptReply(k.zset, now, window, limit, member).allowed
        then Some(redisNow + ExpireMs(window)) else k.expireAt)
  }

  // ---------------------------------------------------------------- histories of one key

  datatype Call = Call(now: int, redisNow: int, member: Member)

  /** The sorted set after a history of calls, when keys never expire. */
  function SetAfter(calls: seq<Call>, window: int, limit: int): map<Member, int> {
    if calls == [] then map[]
    else
      var last := calls[|calls| - 1];
      ScriptSet(SetAfter(calls[..|calls| - 1], window, limit), last.now, window, limit, last.member)
  }

  function ReplyTo(calls: seq<Call>, window: int, limit: int, i: nat): Reply
    requires i < |calls|
  {
    ScriptReply(SetAfter(calls[..i], window, limit), calls[i].now, window, limit, calls[i].member)
  }

  predicate Accepted(calls: seq<Call>, window: int, limit: int, i: nat)
    requires i < |calls|
  {
    ReplyTo(calls, window, limit, i).allowed
  }

  /** Members are distinct and clocks are after the epoch. */
  ghost predicate WellFormed(calls: seq<Call>) {
    && (forall i, j :: 0 <= i < j < |calls| ==> calls[i].member != calls[j].member)
    && (forall i :: 0 <= i < |calls| ==> calls[i].now >= 0)
  }

  /** Call i is in the set before call n: accepted, and no call in between pruned it. */
  ghost predicate Live(calls: seq<Call>, window: int, limit: int, i: nat, n: nat)
    requires n <= |calls|
  {
    && i < n
    && Accepted(calls, window, limit, i)
    && forall k :: i < k < n ==> calls[k].now - window < calls[i].now
  }

  lemma {:induction false} MembersAreCalls(calls: seq<Call>, window: int, limit: int, n: nat, m: Member)
      returns (i: nat)
    requires WellFormed(calls) && n <= |calls| && m in SetAfter(calls[..n], window, limit)
    ensures Live(calls, window, limit, i, n)
    ensures m == calls[i].member && SetAfter(calls[..n], window, limit)[m] == calls[i].now
  {
    assert n > 0;
    assert calls[..n][..n - 1] == calls[..n - 1];
    if m == calls[n - 1].member && m !in SetAfter(calls[..n - 1], window, limit) {
      i := n - 1;
    } else {
      i := MembersAreCalls(calls, window, limit, n - 1, m);
    }
  }

  lemma {:induction false} LiveCallsAreMembers(calls: seq<Call>, window: int, limit: int, n: nat, i: nat)
    requires WellFormed(calls) && n <= |calls| && Live(calls, window, limit, i, n)
    ensures calls[i].member in SetAfter(calls[..n], window, limit)
    ensures SetAfter(calls[..n], window, limit)[calls[i].member] == calls[i].now
  {
    assert calls[..n][..n - 1] == calls[..n - 1];
    if i < n - 1 {
      LiveCallsAreMembers(calls, window, limit, n - 1, i);
    }
  }

  /** Call j still occupies the set when call i is decided. */
  ghost predicate Occupies(calls: seq<Call>, window: int, limit: int, j: nat, i: nat)
    requires i < |calls|
  {
    Live(calls, window, limit, j, i) && calls[i].now - window < calls[j].now
  }

  ghost function LiveAt(calls: seq<Call>, window: int, limit: int, i: nat): set<nat>
    requires i < |calls|
  {
    set j: nat | j < i && Occupies(calls, window, limit, j, i)
  }

  lemma {:induction false} DistinctMembersCount(calls: seq<Call>, js: set<nat>, ms: set<Member>)
    requires WellFormed(calls)
    requires forall j :: j in js ==> j < |calls| && calls[j].member in ms
    requires forall m :: m in ms ==> exists j :: j in js && calls[j].member == m
    ensures |js| == |ms|
  {
    if j :| j in js {
      DistinctMembersCount(calls, js - {j}, ms - {calls[j].member});
    } else {
      assert js == {} && ms == {};
    }
  }

  lemma PrunedMember(calls: seq<Call>, window: int, limit: int, i: nat, m: Member) returns (j: nat)
    requires WellFormed(calls) && i < |calls|
    requires m in Prune(SetAfter(calls[..i], window, limit), calls[i].now, window)
    ensures j < i && Occupies(calls, window, limit, j, i) && calls[j].member == m
  {
    j := MembersAreCalls(calls, window, limit, i, m);
  }

  lemma OccupantIsPrunedMember(calls: seq<Call>, window: int, limit: int, i: nat, j: nat)
    requires WellFormed(calls) && i < |calls| && Occupies(calls, window, limit, j, i)
    ensures calls[j].member in Prune(SetAfter(calls[..i], window, limit), calls[i].now, window)
    ensures SetAfter(calls[..i], window, limit)[calls[j].member] == calls[j].now
  {
    LiveCallsAreMembers(calls, window, limit, i, j);
  }

  lemma LiveAtIsPrunedSet(calls: seq<Call>, window: int, limit: int, i: nat)
    requires WellFormed(calls) && i < |calls|
    ensures |LiveAt(calls, window, limit, i)|
         == |Prune(SetAfter(calls[..i], window, limit), calls[i].now, window)|
  {
    var pruned := Prune(SetAfter(calls[..i], window, limit), calls[i].now, window).Keys;
    var js := LiveAt(calls, window, limit, i);
    forall j | j in js ensures calls[j].member in pruned {
      OccupantIsPrunedMember(calls, window, limit, i, j);
    }
    forall m | m in pruned ensures exists j :: j in js && calls[j].member == m {
      var j := PrunedMember(calls, window, limit, i, m);
    }
    DistinctMembersCount(calls, js, pruned);
  }

  /** A request is accepted exactly when fewer than `limit` earlier ones are live. */
  lemma AcceptedIff(calls: seq<Call>, window: int, limit: int, i: nat)
    requires WellFormed(calls) && i < |calls|
    ensures Accepted(calls, window, limit, i) <==> |LiveAt(calls, window, limit, i)| < limit
  {
    LiveAtIsPrunedSet(calls, window, limit, i);
  }

  // ---------------------------------------------------------------- replies

  ghost predicate IsEarliest(calls: seq<Call>, js: set<nat>, e: nat) {
    e in js && e < |calls| && forall j :: j in js && j < |calls| ==> calls[e].now <= calls[j].now
  }

  /** The time from call i until the earliest of these calls leaves the window. */
  ghost predicate ResetMeans(calls: seq<Call>, window: int, i: nat, js: set<nat>, resetMs: int)
    requires i < |calls|
  {
    if js == {} then resetMs == 0
    else exists e: nat :: IsEarliest(calls, js, e) && resetMs == Max(calls[e].now + window - calls[i].now, 0)
  }

  /** What the reply to call i says about the calls before it. */
  ghost predicate ReplyMeans(calls: seq<Call>, window: int, limit: int, i: nat, reply: Reply)
    requires i < |calls|
  {
    var live := LiveAt(calls, window, limit, i);
    && (reply.allowed <==> |live| < limit)
    && reply.count == |live| + (if reply.allowed then 1 else 0)
    && reply.limit == limit
    && ResetMeans(calls, window, i, if reply.allowed then live + {i} else live, reply.resetMs)
  }

  /** The set has the members of these calls, with their clocks as scores. */
  ghost predicate HoldsCalls(calls: seq<Call>, js: set<nat>, zset: map<Member, int>) {
    && (forall j :: j in js ==> j < |calls| && calls[j].member in zset && zset[calls[j].member] == calls[j].now)
    && (forall m :: m in zset ==> exists j :: j in js && j < |calls| && calls[j].member == m)
  }

  lemma OldestIsEarliest(calls: seq<Call>, js: set<nat>, zset: map<Member, int>) returns (e: nat)
    requires HoldsCalls(calls, js, zset) && zset != map[]
    ensures IsEarliest(calls, js, e) && OldestScore(zset) == Some(calls[e].now)
  {
    var oldest := OldestScore(zset).value;
    var m :| m in zset && zset[m] == oldest;
    e :| e in js && e < |calls| && calls[e].member == m;
    forall j | j in js && j < |calls| ensures oldest <= calls[j].now {
      assert calls[j].member in zset;
    }
  }

  lemma OldestGivesReset(calls: seq<Call>, window: int, i: nat, js: set<nat>, zset: map<Member, int>, whenEmpty: int)
    requires HoldsCalls(calls, js, zset) && i < |calls| && (js == {} ==> whenEmpty == 0)
    ensures ResetMeans(calls, window, i, js, ResetMs(zset, calls[i].now, window, whenEmpty))
  {
    if j :| j in js {
      assert calls[j].member in zset;
    }
    if zset != map[] {
      var e := OldestIsEarliest(calls, js, zset);
      assert js != {};
    }
  }

  lemma LiveMembers(calls: seq<Call>, window: int, limit: int, i: nat)
    requires WellFormed(calls) && i < |calls|
    ensures var pruned := Prune(SetAfter(calls[..i], window, limit), calls[i].now, window);
      && HoldsCalls(calls, LiveAt(calls, window, limit, i), pruned)
      && calls[i].member !in pruned
  {
    var pruned := Prune(SetAfter(calls[..i], window, limit), calls[i].now, window);
    forall m | m in pruned
      ensures m != calls[i].member
      ensures exists j :: j in LiveAt(calls, window, limit, i) && j < |calls| && calls[j].member == m
    {
      var j := PrunedMember(calls, window, limit, i, m);
      assert j in LiveAt(calls, window, limit, i);
    }
    forall j | j in LiveAt(calls, window, limit, i)
      ensures calls[j].member in pruned && pruned[calls[j].member] == calls[j].now
    {
      OccupantIsPrunedMember(calls, window, limit, i, j);
    }
  }

  lemma HoldsOneMore(calls: seq<Call>, js: set<nat>, zset: map<Member, int>, i: nat)
    requires HoldsCalls(calls, js, zset) && i < |calls| && calls[i].member !in zset
    ensures HoldsCalls(calls, js + {i}, zset[calls[i].member := calls[i].now])
  {
    var js', zset' := js + {i}, zset[calls[i].member := calls[i].now];
    forall m | m in zset' ensures exists j :: j in js' && j < |calls| && calls[j].member == m {
      if m == calls[i].member {
        assert i in js';
      } else {
        var j :| j in js && j < |calls| && calls[j].member == m;
        assert j in js';
      }
    }
  }

  /** In every run: the count is the number of live calls, with this one if it is accepted;
      the reset time is when the earliest of these leaves the window. */
  lemma ReplyCountsLive(calls: seq<Call>, window: int, limit: int, i: nat)
    requires WellFormed(calls) && i < |calls|
    ensures ReplyMeans(calls, window, limit, i, ReplyTo(calls, window, limit, i))
  {
    var pruned := Prune(SetAfter(calls[..i], window, limit), calls[i].now, window);
    var live := LiveAt(calls, window, limit, i);
    LiveAtIsPrunedSet(calls, window, limit, i);
    LiveMembers(calls, window, limit, i);
    if |live| < limit {
      HoldsOneMore(calls, live, pruned, i);
      assert i in live + {i};
      OldestGivesReset(calls, window, i, live + {i}, pruned[calls[i].member := calls[i].now], window);
    } else {
      OldestGivesReset(calls, window, i, live, pruned, 0);
    }
  }

  // ---------------------------------------------------------------- the window bound

  /** No call's clock is more than d behind an earlier call's. */
  ghost predicate SkewAtMost(calls: seq<Call>, d: int) {
    forall i, j :: 0 <= i < j < |calls| ==> calls[i].now <= calls[j].now + d
  }

  lemma {:induction false} LastOf(s: set<nat>, n: nat) returns (last: nat)
    requires s != {} && forall i :: i in s ==> i < n
    ensures last in s && forall i :: i in s ==> i <= last
  {
    if n > 0 && n - 1 in s {
      last := n - 1;
    } else {
      last := LastOf(s, n - 1);
    }
  }

  /** Accepted calls of one short interval occupy the set together. */
  lemma NeighboursOccupy(calls: seq<Call>, window: int, limit: int, d: int, start: int, j: nat, i: nat)
    requires 0 <= d < window && SkewAtMost(calls, d) && j < i < |calls|
    requires Accepted(calls, window, limit, j)
    requires start <= calls[j].now < start + window - d && start <= calls[i].now < start + window - d
    ensures Occupies(calls, window, limit, j, i)
  {
    forall k | j < k < i ensures calls[k].now - window < calls[j].now {
      assert calls[k].now <= calls[i].now + d;
    }
  }

  /** With clock skew at most d, no interval of length window - d contains more than
      `limit` accepted requests. */
  lemma WindowBound(calls: seq<Call>, window: int, limit: nat, d: int, start: int, inside: set<nat>)
    requires WellFormed(calls) && 0 <= d < window && SkewAtMost(calls, d)
    requires forall i :: i in inside ==> i < |calls| && Accepted(calls, window, limit, i)
    requires forall i :: i in inside ==> start <= calls[i].now < start + window - d
    ensures |inside| <= limit
  {
    if inside != {} {
      var last := LastOf(inside, |calls|);
      AcceptedIff(calls, window, limit, last);
      var live := LiveAt(calls, window, limit, last);
      forall j | j in inside - {last} ensures j in live {
        NeighboursOccupy(calls, window, limit, d, start, j, last);
      }
      SubsetSize(inside - {last}, live);
    }
  }

  /** The accepted calls of the last `window` milliseconds before call i. */
  ghost function InWindow(calls: seq<Call>, window: int, limit: int, i: nat): set<nat>
    requires i < |calls|
  {
    set j: nat | j < i && Accepted(calls, window, limit, j) && calls[i].now - window < calls[j].now
  }

  /** With clocks that never go back this is the exact sliding window: a request is
      rejected only when `limit` accepted ones lie in the window before it. */
  lemma ExactSlidingWindow(calls: seq<Call>, window: int, limit: int, i: nat)
    requires WellFormed(calls) && SkewAtMost(calls, 0) && i < |calls|
    ensures Accepted(calls, window, limit, i) <==> |InWindow(calls, window, limit, i)| < limit
  {
    AcceptedIff(calls, window, limit, i);
    assert LiveAt(calls, window, limit, i) == InWindow(calls, window, limit, i);
  }

  // ---------------------------------------------------------------- the exact bound

  /** Accepted calls whose clocks lie in one interval. */
  ghost predicate Within(calls: seq<Call>, window: int, limit: int, start: int, length: int, inside: set<nat>) {
    forall i :: i in inside ==>
      i < |calls| && Accepted(calls, window, limit, i) && start <= calls[i].now < start + length
  }

  ghost predicate BoundHolds(calls: seq<Call>, window: int, limit: int, length: int) {
    forall start: int, inside: set<nat> :: Within(calls, window, limit, start, length, inside) ==> |inside| <= limit
  }

  /** No run whose clocks are at most d behind puts more than `limit` accepted requests into
      an interval of this length. */
  ghost predicate AlwaysBounded(window: int, limit: int, d: int, length: int) {
    forall calls :: WellFormed(calls) && SkewAtMost(calls, d) ==> BoundHolds(calls, window, limit, length)
  }

  /** What call i finds gone stays gone. */
  lemma NothingOlder(calls: seq<Call>, window: int, i: nat, k: nat, j: nat)
    requires WellFormed(calls) && j < i < k < |calls| && Accepted(calls, window, 1, i)
    ensures !Occupies(calls, window, 1, j, k)
  {
    AcceptedIff(calls, window, 1, i);
    var live := LiveAt(calls, window, 1, i);
    assert j !in live;
  }

  /** With limit 1, whoever removes the only member is accepted. */
  lemma RemoverIsAccepted(calls: seq<Call>, window: int, i: nat, k: nat)
    requires WellFormed(calls) && i < k < |calls| && Accepted(calls, window, 1, i)
    requires forall m :: i < m < k ==> !Accepted(calls, window, 1, m)
    requires calls[k].now - window >= calls[i].now
    ensures Accepted(calls, window, 1, k)
  {
    AcceptedIff(calls, window, 1, k);
    forall j: nat | j < k ensures !Occupies(calls, window, 1, j, k) {
      if j < i {
        NothingOlder(calls, window, i, k, j);
      }
    }
    assert LiveAt(calls, window, 1, k) == {};
  }

  /** With limit 1, accepted requests are a window apart, however far clocks go back. */
  lemma {:induction false} OneAtATime(calls: seq<Call>, window: int, i: nat, j: nat)
    requires WellFormed(calls) && window > 0 && i < j < |calls|
    requires Accepted(calls, window, 1, i) && Accepted(calls, window, 1, j)
    ensures calls[j].now >= calls[i].now + window
    decreases j - i
  {
    if m :| i < m < j && Accepted(calls, window, 1, m) {
      OneAtATime(calls, window, i, m);
      OneAtATime(calls, window, m, j);
    } else {
      AcceptedIff(calls, window, 1, j);
      assert i !in LiveAt(calls, window, 1, j);
      if k: nat :| i < k < j && calls[k].now - window >= calls[i].now {
        RemoverIsAccepted(calls, window, i, k);
      }
    }
  }

  lemma LimitOneBound(calls: seq<Call>, window: int, start: int, inside: set<nat>)
    requires WellFormed(calls) && window > 0 && Within(calls, window, 1, start, window, inside)
    ensures |inside| <= 1
  {
    if i :| i in inside {
      forall j | j in inside ensures j == i {
        if j != i {
          OneAtATime(calls, window, if i < j then i else j, if i < j then j else i);
        }
      }
      assert inside == {i};
    }
  }

  /** The longest interval that is sure to hold at most `limit` accepted requests. */
  function SureLength(window: int, limit: int, d: int): int {
    if limit == 1 then window else window - d
  }

  lemma SureLengthIsSure(window: int, limit: nat, d: int, length: int)
    requires 0 <= d < window && limit >= 1 && length <= SureLength(window, limit, d)
    ensures AlwaysBounded(window, limit, d, length)
  {
    forall calls, start: int, inside: set<nat>
      | WellFormed(calls) && SkewAtMost(calls, d) && Within(calls, window, limit, start, length, inside)
      ensures |inside| <= limit
    {
      if limit == 1 {
        assert Within(calls, window, limit, start, window, inside);
        LimitOneBound(calls, window, start, inside);
      } else {
        WindowBound(calls, window, limit, d, start, inside);
      }
    }
  }

  /** `limit` calls at 0, one at `window` that prunes them, and one that is d behind it. */
  function SkewedCall(window: int, limit: nat, d: int, i: nat): Call {
    var now := if i < limit then 0 else if i == limit then window else window - d;
    Call(now, 0, Member(now, i))
  }

  function SkewedCalls(window: int, limit: nat, d: int): (calls: seq<Call>)
    ensures |calls| == limit + 2
    ensures forall i: nat :: i < |calls| ==> calls[i] == SkewedCall(window, limit, d, i)
  {
    seq(limit + 2, i requires i >= 0 => SkewedCall(window, limit, d, i))
  }

  function UpTo(n: nat): (below: set<nat>)
    ensures |below| == n
    ensures forall i: nat :: i in below <==> i < n
  {
    if n == 0 then {} else UpTo(n - 1) + {n - 1}
  }

  lemma SkewedRunIsSkewed(window: int, limit: nat, d: int)
    requires 0 <= d < window
    ensures WellFormed(SkewedCalls(window, limit, d)) && SkewAtMost(SkewedCalls(window, limit, d), d)
  {
    var calls := SkewedCalls(window, limit, d);
    forall i, j | 0 <= i < j < |calls| ensures calls[i].member != calls[j].member {
      assert calls[i].member.seqNo == i && calls[j].member.seqNo == j;
    }
  }

  lemma SkewedAccepted(window: int, limit: nat, d: int, i: nat)
    requires 0 <= d < window && limit >= 1 && i < limit + 2 && (i == limit + 1 ==> limit >= 2)
    ensures Accepted(SkewedCalls(window, limit, d), window, limit, i)
  {
    var calls := SkewedCalls(window, limit, d);
    var live := LiveAt(calls, window, limit, i);
    SkewedRunIsSkewed(window, limit, d);
    AcceptedIff(calls, window, limit, i);
    if i < limit {
      SubsetSize(live, UpTo(i));
    } else if i == limit {
      assert live == {};
    } else {
      assert calls[limit].now - window >= 0;
      SubsetSize(live, {limit});
    }
  }

  /** The calls at 0, and the last one that is accepted. */
  function Crowd(limit: nat): (crowd: set<nat>)
    requires limit >= 1
    ensures |crowd| == limit + 1
  {
    UpTo(limit) + {if limit == 1 then limit else limit + 1}
  }

  lemma CrowdWithin(window: int, limit: nat, d: int, length: int)
    requires 0 <= d < window && limit >= 1 && length > SureLength(window, limit, d)
    ensures Within(SkewedCalls(window, limit, d), window, limit, 0, length, Crowd(limit))
  {
    var calls := SkewedCalls(window, limit, d);
    forall i | i in Crowd(limit)
      ensures i < |calls| && Accepted(calls, window, limit, i) && 0 <= calls[i].now < 0 + length
    {
      SkewedAccepted(window, limit, d, i);
    }
  }

  lemma LongerIsNotSure(window: int, limit: nat, d: int, length: int)
    requires 0 <= d < window && limit >= 1 && length > SureLength(window, limit, d)
    ensures !AlwaysBounded(window, limit, d, length)
  {
    SkewedRunIsSkewed(window, limit, d);
    CrowdWithin(window, limit, d, length);
    assert !BoundHolds(SkewedCalls(window, limit, d), window, limit, length);
  }

  /** Exactly how long an interval is protected under clock skew at most d: a full window if
      the limit is 1, and `window - d` otherwise. */
  lemma BoundedIff(window: int, limit: nat, d: int, length: int)
    requires 0 <= d < window && limit >= 1
    ensures AlwaysBounded(window, limit, d, length) <==> length <= SureLength(window, limit, d)
  {
    if length <= SureLength(window, limit, d) {
      SureLengthIsSure(window, limit, d, length);
    } else {
      LongerIsNotSure(window, limit, d, length);
    }
  }

  /** The full window is kept in every run if and only if clocks never go back or the limit
      is 1. */
  lemma FullWindowIff(window: int, limit: nat, d: int)
    requires 0 <= d < window && limit >= 1
    ensures AlwaysBounded(window, limit, d, window) <==> d == 0 || limit == 1
  {
    BoundedIff(window, limit, d, window);
  }

  // ---------------------------------------------------------------- Retry-After

  /** The least of 1 to `windowSecs` that covers these milliseconds, and the largest if none does. */
  ghost predicate SecsMean(resetMs: int, windowSecs: int, secs: int) {
    && 1 <= secs <= windowSecs
    && (secs < windowSecs ==> 1000 * secs >= resetMs)
    && (secs > 1 ==> 1000 * (secs - 1) < resetMs)
  }

  /** Milliseconds to seconds, rounded up, in 1..windowSecs. */
  function ResetSecs(resetMs: int, windowSecs: int): (secs: int)
    ensures windowSecs >= 1 ==> SecsMean(resetMs, windowSecs, secs)
  {
    Clamp((resetMs + 999) / 1000, 1, windowSecs)
  }

  lemma {:induction false} SetNeverOverfull(calls: seq<Call>, window: int, limit: nat)
    ensures |SetAfter(calls, window, limit)| <= limit
  {
    if calls != [] {
      var last := calls[|calls| - 1];
      var before := SetAfter(calls[..|calls| - 1], window, limit);
      SetNeverOverfull(calls[..|calls| - 1], window, limit);
      var live := Prune(before, last.now, window);
      SubsetSize(live.Keys, before.Keys);
      assert |live.Keys| == |live| && |before.Keys| == |before|;
    }
  }

  /** A rejected call finds exactly `limit` occupants, and its reset time is when the
      oldest of them leaves the window. */
  lemma OldestOccupant(calls: seq<Call>, window: int, limit: nat, i: nat) returns (oldest: nat)
    requires WellFormed(calls) && SkewAtMost(calls, 0) && i < |calls|
    requires limit >= 1 && window > 0 && !Accepted(calls, window, limit, i)
    ensures |LiveAt(calls, window, limit, i)| == limit
    ensures oldest in LiveAt(calls, window, limit, i)
    ensures forall j :: j in LiveAt(calls, window, limit, i) ==> calls[oldest].now <= calls[j].now
    ensures ReplyTo(calls, window, limit, i).resetMs == calls[oldest].now + window - calls[i].now
  {
    var before := SetAfter(calls[..i], window, limit);
    var pruned := Prune(before, calls[i].now, window);
    LiveAtIsPrunedSet(calls, window, limit, i);
    SetNeverOverfull(calls[..i], window, limit);
    SubsetSize(pruned.Keys, before.Keys);
    assert |pruned.Keys| == |pruned| && |before.Keys| == |before|;
    var m :| m in pruned && pruned[m] == OldestScore(pruned).value;
    oldest := PrunedMember(calls, window, limit, i, m);
    OccupantIsPrunedMember(calls, window, limit, i, oldest);
    forall j | j in LiveAt(calls, window, limit, i) ensures calls[oldest].now <= calls[j].now {
      OccupantIsPrunedMember(calls, window, limit, i, j);
    }
  }

  /** After a rejection, and until the next acceptance, the next accepted request is the
      first one made `resetMs` or more after it. */
  lemma RetryIff(calls: seq<Call>, window: int, limit: nat, i: nat, n: nat)
    requires WellFormed(calls) && SkewAtMost(calls, 0) && i < n < |calls|
    requires limit >= 1 && window > 0
    requires forall k :: i <= k < n ==> !Accepted(calls, window, limit, k)
    ensures Accepted(calls, window, limit, n)
       <==> calls[n].now >= calls[i].now + ReplyTo(calls, window, limit, i).resetMs
    ensures 0 < ReplyTo(calls, window, limit, i).resetMs <= window
  {
    var oldest := OldestOccupant(calls, window, limit, i);
    var earlier, later := LiveAt(calls, window, limit, i), LiveAt(calls, window, limit, n);
    AcceptedIff(calls, window, limit, n);
    assert later <= earlier;
    if calls[n].now >= calls[oldest].now + window {
      assert oldest !in later;
      SubsetSize(later, earlier - {oldest});
    } else {
      assert later == earlier;
    }
  }

  /** The Retry-After answer is honest to the second. */
  lemma RetryAfterIsTight(calls: seq<Call>, windowSecs: int, limit: nat, i: nat, n: nat)
    requires WellFormed(calls) && SkewAtMost(calls, 0) && i < n < |calls|
    requires limit >= 1 && windowSecs >= 1
    requires forall k :: i <= k < n ==> !Accepted(calls, 1000 * windowSecs, limit, k)
    ensures var secs := ResetSecs(ReplyTo(calls, 1000 * windowSecs, limit, i).resetMs, windowSecs);
      && 1 <= secs <= windowSecs
      && (calls[n].now >= calls[i].now + 1000 * secs ==> Accepted(calls, 1000 * windowSecs, limit, n))
      && (calls[n].now <= calls[i].now + 1000 * (secs - 1) ==> !Accepted(calls, 1000 * windowSecs, limit, n))
  {
    RetryIff(calls, 1000 * windowSecs, limit, i, n);
  }

  // ---------------------------------------------------------------- EXPIRE

  /** The Redis key after a history of calls, with EXPIRE. */
  function KeyAfter(calls: seq<Call>, window: int, limit: int): Key {
    if calls == [] then Absent
    else
      var last := calls[|calls| - 1];
      ScriptKey(KeyAfter(calls[..|calls| - 1], window, limit), last.now, last.redisNow, window, limit, last.member)
  }

  /** The callers' clocks and the server's advance together, up to ten seconds. */
  ghost predicate ClocksAgree(calls: seq<Call>) {
    forall i, j :: 0 <= i < j < |calls| ==>
      && calls[i].redisNow <= calls[j].redisNow
      && calls[j].now - calls[i].now >= calls[j].redisNow - calls[i].redisNow - 10000
  }

  ghost predicate ExpiresAfter(key: Key, time: int) {
    key.expireAt.Some? && key.expireAt.value >= time
  }

  /** The expiring key holds the same set, and lives long enough for every accepted call. */
  ghost predicate KeyTracks(calls: seq<Call>, window: int, limit: int, n: nat)
    requires n <= |calls|
  {
    var key := KeyAfter(calls[..n], window, limit);
    && key.zset == SetAfter(calls[..n], window, limit)
    && forall i :: 0 <= i < n && Accepted(calls, window, limit, i) ==>
         ExpiresAfter(key, calls[i].redisNow + ExpireMs(window))
  }

  /** A member that is still in the window keeps its key from expiring. */
  lemma ExpiredMeansPruned(calls: seq<Call>, window: int, limit: int, n: nat)
    requires WellFormed(calls) && ClocksAgree(calls) && window > 0 && n < |calls|
    requires KeyTracks(calls, window, limit, n)
    ensures Prune(Unexpired(KeyAfter(calls[..n], window, limit), calls[n].redisNow).zset, calls[n].now, window)
         == Prune(SetAfter(calls[..n], window, limit), calls[n].now, window)
  {
    var key := KeyAfter(calls[..n], window, limit);
    var pruned := Prune(SetAfter(calls[..n], window, limit), calls[n].now, window);
    if m :| m in pruned {
      var i := PrunedMember(calls, window, limit, n, m);
      assert ExpiresAfter(key, calls[i].redisNow + ExpireMs(window));
      assert Unexpired(key, calls[n].redisNow) == key;
    } else {
      assert pruned == map[];
    }
  }

  ghost function ReplyWithExpiry(calls: seq<Call>, window: int, limit: int, n: nat): Reply
    requires n < |calls|
  {
    var key := Unexpired(KeyAfter(calls[..n], window, limit), calls[n].redisNow);
    ScriptReply(key.zset, calls[n].now, window, limit, calls[n].member)
  }

  lemma ScriptSeesPruned(key: Key, zset: map<Member, int>, c: Call, window: int, limit: int)
    requires Prune(Unexpired(key, c.redisNow).zset, c.now, window) == Prune(zset, c.now, window)
    ensures var reply := ScriptReply(zset, c.now, window, limit, c.member);
      var key' := ScriptKey(key, c.now, c.redisNow, window, limit, c.member);
      && key'.zset == ScriptSet(zset, c.now, window, limit, c.member)
      && (reply.allowed ==> key'.expireAt == Some(c.redisNow + ExpireMs(window)))
      && (!reply.allowed && limit > 0 ==> key'.expireAt == key.expireAt)
  {
  }

  lemma KeyTracksStep(calls: seq<Call>, window: int, limit: int, n: nat)
    requires WellFormed(calls) && ClocksAgree(calls) && window > 0 && n < |calls|
    requires KeyTracks(calls, window, limit, n)
    ensures KeyTracks(calls, window, limit, n + 1)
  {
    ExpiredMeansPruned(calls, window, limit, n);
    assert calls[..n + 1][..n] == calls[..n];
    var key, key' := KeyAfter(calls[..n], window, limit), KeyAfter(calls[..n + 1], window, limit);
    ScriptSeesPruned(key, SetAfter(calls[..n], window, limit), calls[n], window, limit);
    assert key' == ScriptKey(key, calls[n].now, calls[n].redisNow, window, limit, calls[n].member);
    assert key'.zset == SetAfter(calls[..n + 1], window, limit);
    forall i | 0 <= i < n + 1 && Accepted(calls, window, limit, i)
      ensures ExpiresAfter(key', calls[i].redisNow + ExpireMs(window))
    {
      assert limit > 0;
      assert i < n ==> ExpiresAfter(key, calls[i].redisNow + ExpireMs(window));
    }
  }

  lemma {:induction false} KeyTracksAlways(calls: seq<Call>, window: int, limit: int, n: nat)
    requires WellFormed(calls) && ClocksAgree(calls) && window > 0 && n <= |calls|
    ensures KeyTracks(calls, window, limit, n)
  {
    if n > 0 {
      KeyTracksAlways(calls, window, limit, n - 1);
      KeyTracksStep(calls, window, limit, n - 1);
    }
  }

  /** EXPIRE never changes an answer. */
  lemma ExpiryNeverDecides(calls: seq<Call>, window: int, limit: int, n: nat)
    requires WellFormed(calls) && ClocksAgree(calls) && window > 0 && n < |calls|
    ensures ReplyWithExpiry(calls, window, limit, n) == ReplyTo(calls, window, limit, n)
  {
    KeyTracksAlways(calls, window, limit, n);
    ExpiredMeansPruned(calls, window, limit, n);
  }

  // ---------------------------------------------------------------- the limiter

  datatype RateLimitResult = RateLimitResult(allowed: bool, current: int, limit: int, resetSecs: int)

  /** What the answer to call i says about the calls before it. */
  ghost predicate ResultMeans(calls: seq<Call>, windowSecs: int, limit: int, i: nat, r: RateLimitResult)
    requires i < |calls|
  {
    exists resetMs: int ::
      && ReplyMeans(calls, 1000 * windowSecs, limit, i, Reply(r.allowed, r.current, r.limit, resetMs))
      && SecsMean(resetMs, windowSecs, r.resetSecs)
  }

  /** The answer to call i: the script's, with its reset time in seconds. */
  ghost function AnswerTo(calls: seq<Call>, windowSecs: int, limit: int, i: nat): RateLimitResult
    requires i < |calls|
  {
    var reply := ReplyWithExpiry(calls, 1000 * windowSecs, limit, i);
    RateLimitResult(reply.allowed, reply.count, limit, ResetSecs(reply.resetMs, windowSecs))
  }

  lemma AnswerCountsLive(calls: seq<Call>, windowSecs: int, limit: int, i: nat)
    requires WellFormed(calls) && ClocksAgree(calls) && windowSecs >= 1 && i < |calls|
    ensures ResultMeans(calls, windowSecs, limit, i, AnswerTo(calls, windowSecs, limit, i))
  {
    ExpiryNeverDecides(calls, 1000 * windowSecs, limit, i);
    ReplyCountsLive(calls, 1000 * windowSecs, limit, i);
    var reply := ReplyTo(calls, 1000 * windowSecs, limit, i);
    assert reply == Reply(reply.allowed, reply.count, limit, reply.resetMs);
  }

  /** A key is what its own calls made of it; its members are numbered below `counter`, so
      they are distinct. */
  ghost predicate KeyOk(key: Key, calls: seq<Call>, window: int, limit: int, counter: nat) {
    && key == KeyAfter(calls, window, limit)
    && WellFormed(calls)
    && forall i :: 0 <= i < |calls| ==> calls[i].member.seqNo < counter
  }

  lemma KeyOkAppend(key: Key, calls: seq<Call>, c: Call, window: int, limit: int, counter: nat)
    requires KeyOk(key, calls, window, limit, counter)
    requires c.now >= 0 && c.member.seqNo == counter
    ensures KeyOk(ScriptKey(key, c.now, c.redisNow, window, limit, c.member), calls + [c], window, limit, counter + 1)
    ensures ReplyWithExpiry(calls + [c], window, limit, |calls|)
         == ScriptReply(Unexpired(key, c.redisNow).zset, c.now, window, limit, c.member)
  {
    assert (calls + [c])[..|calls|] == calls;
  }

  ghost function CallsOf(history: map<string, seq<Call>>, key: string): seq<Call> {
    if key in history then history[key] else []
  }

  function Stored(keys: map<string, Key>, key: string): Key {
    if key in keys then keys[key] else Absent
  }

  ghost predicate AllKeysOk(keys: map<string, Key>, history: map<string, seq<Call>>,
                            window: int, limit: int, counter: nat)
  {
    forall key: string :: KeyOk(Stored(keys, key), CallsOf(history, key), window, limit, counter)
  }

  lemma OtherKeysStayOk(keys: map<string, Key>, history: map<string, seq<Call>>,
                        keys': map<string, Key>, history': map<string, seq<Call>>,
                        window: int, limit: int, counter: nat, key: string)
    requires AllKeysOk(keys, history, window, limit, counter)
    requires forall k: string :: k != key ==>
      Stored(keys', k) == Stored(keys, k) && CallsOf(history', k) == CallsOf(history, k)
    requires KeyOk(Stored(keys', key), CallsOf(history', key), window, limit, counter + 1)
    ensures AllKeysOk(keys', history', window, limit, counter + 1)
  {
    forall k: string ensures KeyOk(Stored(keys', k), CallsOf(history', k), window, limit, counter + 1) {
      assert KeyOk(Stored(keys, k), CallsOf(history, k), window, limit, counter);
    }
  }

  /** One process's limiter with a fixed limit and window, over the keys in Redis. */
  class RateLimiter {
    const limit: nat
    const windowSecs: int
    var counter: nat
    var keys: map<string, Key>
    ghost var history: map<string, seq<Call>>

    ghost predicate Valid()
      reads this
    {
      windowSecs >= 1 && AllKeysOk(keys, history, 1000 * windowSecs, limit, counter)
    }

    constructor (limit: nat, windowSecs: int)
      requires windowSecs >= 1
      ensures Valid() && this.limit == limit && this.windowSecs == windowSecs
      ensures history == map[]
    {
      this.limit, this.windowSecs := limit, windowSecs;
      counter, keys, history := 0, map[], map[];
    }

    /** The Lua script, which Redis runs atomically. */
    method Script(key: string, now: int, redisNow: int, window: int, member: Member) returns (reply: Reply)
      modifies this`keys
      ensures keys == old(keys)[key := ScriptKey(Stored(old(keys), key), now, redisNow, window, limit, member)]
      ensures reply ==
        ScriptReply(Unexpired(Stored(old(keys), key), redisNow).zset, now, window, limit, member)
    {
      var k := Unexpired(Stored(keys, key), redisNow);
      var zset := Prune(k.zset, now, window);
      keys := keys[key := k.(zset := zset)];
      var count := |zset|;
      if count >= limit {
        var resetMs := 0;
        var oldest := OldestScore(zset);
        if oldest.Some? {
          resetMs := oldest.value + window - now;
          if resetMs < 0 { resetMs := 0; }
        }
        return Reply(false, count, limit, resetMs);
      }
      zset := zset[member := now];
      keys := keys[key := Key(zset, Some(redisNow + ExpireMs(window)))];
      var resetMs := window;
      var oldest := OldestScore(zset);
      if oldest.Some? {
        resetMs := oldest.value + window - now;
        if resetMs < 0 { resetMs := 0; }
      }
      return Reply(true, count + 1, limit, resetMs);
    }

    /** `check_rate_limit_inner`: the answer is the script's for this key's own history,
        other keys are untouched, and an unreachable Redis lets the request pass. */
    method CheckRateLimit(key: string, now: int, redisNow: int, redisUp: bool) returns (r: RateLimitResult)
      requires Valid() && now >= 0
      modifies this
      ensures Valid() && counter == old(counter) + 1
      ensures !redisUp ==>
        history == old(history) && keys == old(keys) && r == RateLimitResult(true, 0, limit, windowSecs)
      ensures redisUp ==>
        var calls := CallsOf(old(history), key) + [Call(now, redisNow, Member(now, old(counter)))];
        && history == old(history)[key := calls]
        && r == AnswerTo(calls, windowSecs, limit, |calls| - 1)
        && (ClocksAgree(calls) ==> ResultMeans(calls, windowSecs, limit, |calls| - 1, r))
    {
      var member := Member(now, counter);
      ghost var calls, call := CallsOf(history, key), Call(now, redisNow, member);
      assert KeyOk(Stored(keys, key), calls, 1000 * windowSecs, limit, counter);
      KeyOkAppend(Stored(keys, key), calls, call, 1000 * windowSecs, limit, counter);
      counter := counter + 1;
      if !redisUp {
        OtherKeysStayOk(keys, history, keys, history, 1000 * windowSecs, limit, member.seqNo, key);
        return RateLimitResult(true, 0, limit, windowSecs);
      }
      var reply := Script(key, now, redisNow, 1000 * windowSecs, member);
      history := history[key := calls + [call]];
      OtherKeysStayOk(old(keys), old(history), keys, history, 1000 * windowSecs, limit, member.seqNo, key);
      if ClocksAgree(calls + [call]) {
        AnswerCountsLive(calls + [call], windowSecs, limit, |calls|);
      }
      return RateLimitResult(reply.allowed, reply.count, reply.limit, ResetSecs(reply.resetMs, windowSecs));
    }
  }
}
