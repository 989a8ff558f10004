/**
 `LikeCountCache`, as one task runs it while the others stand still: single and batch reads
 of like counts, with the map of pending fetches.
 */
module CountCache {
  import opened Basics
  import opened Ledger
  import opened Keys
  import opened Cache

  datatype BatchCountResult = BatchCountResult(item: Content, count: int)

  type Counts = map<Content, int>

  /** cached.parse::<i64>().ok() */
  function ParseCount(value: Option<Value>): Option<int> {
    if value.Some? && value.value.CountText? then Some(value.value.count) else None
  }

  /** A read that the cache cannot answer. */
  predicate Misses(l1: Entries, redis: Entries, up: bool, item: Content) {
    ParseCount(Find(l1, redis, up, CountKey(item))).None?
  }

  /** Which queries of a batch fail: the one for all led keys, and the fallbacks of these keys. */
  datatype Outages = Outages(led: bool, fallbacks: set<string>)

  /** The query that a missing key depends on fails. */
  predicate QueryFails(key: string, pending: set<string>, outages: Outages) {
    if key in pending then key in outages.fallbacks else outages.led
  }

  predicate AnyFails(l1: Entries, redis: Entries, up: bool, items: seq<Content>, pending: set<string>,
                     outages: Outages)
  {
    exists i :: 0 <= i < |items| && Misses(l1, redis, up, items[i]) && QueryFails(CountKey(items[i]), pending, outages)
  }

  /** What a single read of the item answers. */
  function SingleCount(l1: Entries, redis: Entries, up: bool, counts: Counts, item: Content): int {
    var cached := ParseCount(Find(l1, redis, up, CountKey(item)));
    if cached.Some? then cached.value else Count(counts, item)
  }

  /** The cache entries that a database read of these items justifies. */
  function CountFacts(counts: Counts, items: seq<Content>): set<(string, Value)> {
    set item | item in items :: (CountKey(item), CountText(Count(counts, item)))
  }

  /** SELECT ... FROM unnest(...) LEFT JOIN like_counts */
  function BatchGetCounts(counts: Counts, items: seq<Content>): seq<(Content, int)> {
    seq(|items|, i requires 0 <= i < |items| => (items[i], Count(counts, items[i])))
  }

  function ToSet(keys: seq<string>): set<string> {
    set key | key in keys
  }

  lemma ToSetNext(keys: seq<string>, n: nat)
    requires n < |keys|
    ensures ToSet(keys[..n + 1]) == ToSet(keys[..n]) + {keys[n]}
  {
  }

  /** rows.into_iter().collect::<HashMap<_, _>>() */
  function CollectRows(rows: seq<(Content, int)>): map<Content, int> {
    if rows == [] then map[]
    else
      var last := rows[|rows| - 1];
      CollectRows(rows[..|rows| - 1])[last.0 := last.1]
  }

  lemma {:induction false} CollectedCounts(counts: Counts, rows: seq<(Content, int)>)
    requires forall row :: row in rows ==> row.1 == Count(counts, row.0)
    ensures forall row :: row in rows ==> row.0 in CollectRows(rows)
    ensures forall item :: item in CollectRows(rows) ==> CollectRows(rows)[item] == Count(counts, item)
  {
    if rows != [] {
      assert rows[|rows| - 1] in rows;
      CollectedCounts(counts, rows[..|rows| - 1]);
    }
  }

  /** The count an item should get: the cached one, or the database's. */
  function Wanted(cached: Option<Value>, counts: Counts, item: Content): int {
    var count := ParseCount(cached);
    if count.Some? then count.value else Count(counts, item)
  }

  /** `missing` groups the positions that missed, below n, by their cache key. */
  ghost predicate Grouped(missing: map<string, seq<nat>>, items: seq<Content>, cached: seq<Option<Value>>, n: nat)
    requires n <= |items| == |cached|
  {
    && (forall key :: key in missing ==> missing[key] != [])
    && (forall key, m :: key in missing && 0 <= m < |missing[key]| ==>
          && missing[key][m] < n
          && CountKey(items[missing[key][m]]) == key
          && ParseCount(cached[missing[key][m]]).None?)
    && (forall i :: 0 <= i < n && ParseCount(cached[i]).None? ==>
          CountKey(items[i]) in missing && i in missing[CountKey(items[i])])
  }

  lemma MissingMeansMiss(missing: map<string, seq<nat>>, items: seq<Content>, cached: seq<Option<Value>>,
                         key: string) returns (i: nat)
    requires |items| == |cached| && Grouped(missing, items, cached, |items|) && key in missing
    ensures i < |items| && ParseCount(cached[i]).None? && CountKey(items[i]) == key
  {
    i := missing[key][0];
  }

  /** Every position has its item; those that hit, or whose key is done, their count too. */
  ghost predicate Filled(results: seq<BatchCountResult>, items: seq<Content>, cached: seq<Option<Value>>,
                         counts: Counts, done: set<string>)
  {
    && |results| == |items| == |cached|
    && (forall i :: 0 <= i < |items| ==> results[i].item == items[i])
    && (forall i :: 0 <= i < |items| && (ParseCount(cached[i]).Some? || CountKey(items[i]) in done) ==>
          results[i].count == Wanted(cached[i], counts, items[i]))
  }

  function Group(missing: map<string, seq<nat>>, key: string): seq<nat> {
    if key in missing then missing[key] else []
  }

  lemma GroupedNext(missing: map<string, seq<nat>>, items: seq<Content>, cached: seq<Option<Value>>, i: nat)
    requires i < |items| == |cached| && Grouped(missing, items, cached, i) && ParseCount(cached[i]).None?
    ensures var key := CountKey(items[i]);
      Grouped(missing[key := Group(missing, key) + [i]], items, cached, i + 1)
  {
    var key := CountKey(items[i]);
    var group := Group(missing, key) + [i];
    assert group[|group| - 1] == i;
    forall j | j in Group(missing, key) ensures j in group {
    }
  }

  /** The first n positions are collected. */
  ghost predicate Collected(results: seq<BatchCountResult>, missing: map<string, seq<nat>>, items: seq<Content>,
                            cached: seq<Option<Value>>, counts: Counts, n: nat)
    requires n <= |items| == |cached|
  {
    && |results| == n && Grouped(missing, items, cached, n)
    && (forall i :: 0 <= i < n ==> results[i].item == items[i])
    && (forall i :: 0 <= i < n && ParseCount(cached[i]).Some? ==>
          results[i].count == Wanted(cached[i], counts, items[i]))
  }

  lemma CollectedHit(results: seq<BatchCountResult>, missing: map<string, seq<nat>>, items: seq<Content>,
                     cached: seq<Option<Value>>, counts: Counts, n: nat)
    requires n < |items| == |cached| && Collected(results, missing, items, cached, counts, n)
    requires ParseCount(cached[n]).Some?
    ensures var row := BatchCountResult(items[n], ParseCount(cached[n]).value);
      Collected(results + [row], missing, items, cached, counts, n + 1)
  {
  }

  lemma CollectedMiss(results: seq<BatchCountResult>, missing: map<string, seq<nat>>, items: seq<Content>,
                      cached: seq<Option<Value>>, counts: Counts, n: nat)
    requires n < |items| == |cached| && Collected(results, missing, items, cached, counts, n)
    requires ParseCount(cached[n]).None?
    ensures var key := CountKey(items[n]);
      Collected(results + [BatchCountResult(items[n], 0)], missing[key := Group(missing, key) + [n]],
                items, cached, counts, n + 1)
  {
    GroupedNext(missing, items, cached, n);
  }

  lemma AllCollected(results: seq<BatchCountResult>, missing: map<string, seq<nat>>, items: seq<Content>,
                     cached: seq<Option<Value>>, counts: Counts)
    requires |items| == |cached| && Collected(results, missing, items, cached, counts, |items|)
    ensures Grouped(missing, items, cached, |items|) && Filled(results, items, cached, counts, {})
  {
  }

  /** Hits get their count, misses a placeholder and a place in the groups. */
  method Collect(items: seq<Content>, cached: seq<Option<Value>>, ghost counts: Counts)
      returns (results: seq<BatchCountResult>, missing: map<string, seq<nat>>)
    requires |items| == |cached|
    ensures Grouped(missing, items, cached, |items|) && Filled(results, items, cached, counts, {})
  {
    results, missing := [], map[];
    for i := 0 to |items|
      invariant Collected(results, missing, items, cached, counts, i)
    {
      var count := ParseCount(cached[i]);
      if count.Some? {
        CollectedHit(results, missing, items, cached, counts, i);
        results := results + [BatchCountResult(items[i], count.value)];
      } else {
        CollectedMiss(results, missing, items, cached, counts, i);
        var key := CountKey(items[i]);
        missing := missing[key := Group(missing, key) + [i]];
        results := results + [BatchCountResult(items[i], 0)];
      }
    }
    AllCollected(results, missing, items, cached, counts);
  }

  /** results[pos].count = count, for every position of a group. */
  method FillPositions(results: seq<BatchCountResult>, positions: seq<nat>, count: int)
      returns (filled: seq<BatchCountResult>)
    requires forall p :: p in positions ==> p < |results|
    ensures |filled| == |results|
    ensures forall i :: 0 <= i < |results| ==>
      filled[i] == if i in positions then results[i].(count := count) else results[i]
  {
    filled := results;
    for n := 0 to |positions|
      invariant |filled| == |results|
      invariant forall i :: 0 <= i < |results| ==>
        filled[i] == if i in positions[..n] then results[i].(count := count) else results[i]
    {
      assert positions[n] in positions;
      filled := filled[positions[n] := filled[positions[n]].(count := count)];
    }
    assert positions[..|positions|] == positions;
  }

  /** Filling a group with the count of its first item fills it rightly: equal keys are
      equal items. */
  method FillGroup(results: seq<BatchCountResult>, missing: map<string, seq<nat>>, key: string, count: int,
                   items: seq<Content>, ghost cached: seq<Option<Value>>, ghost counts: Counts, ghost done: set<string>)
      returns (filled: seq<BatchCountResult>)
    requires |items| == |cached| && Grouped(missing, items, cached, |items|)
    requires Filled(results, items, cached, counts, done) && key in missing
    requires count == Count(counts, items[missing[key][0]])
    ensures Filled(filled, items, cached, counts, done + {key})
  {
    filled := FillPositions(results, missing[key], count);
    forall i | 0 <= i < |items| && CountKey(items[i]) == key && ParseCount(cached[i]).None?
      ensures filled[i].count == Count(counts, items[i])
    {
      CountKeyInjective(items[i], items[missing[key][0]]);
    }
  }

  class LikeCountCache {
    const cache: CacheManager
    /** Keys that some task has published as being fetched. */
    var pendingFetches: set<string>

    constructor (cache: CacheManager)
      ensures this.cache == cache && pendingFetches == {}
    {
      this.cache := cache;
      pendingFetches := {};
    }

    method WriteCount(item: Content, count: int, up: bool)
      modifies cache
      ensures cache.l1 == old(cache.l1)[CountKey(item) := CountText(count)]
      ensures cache.redis == if up then old(cache.redis)[CountKey(item) := CountText(count)] else old(cache.redis)
    {
      cache.Set(CountKey(item), CountText(count), up);
    }

    /** On a miss the task leads the fetch, unless somebody else does: then it waits for an
        answer that does not come here, and falls back to its own query. */
    method GetCountValue(item: Content, counts: Counts, dbOk: bool, up: bool) returns (r: Result<int, AppError>)
      modifies this, cache
      ensures r == if dbOk || !old(Misses(cache.l1, cache.redis, up, item))
        then Ok(SingleCount(old(cache.l1), old(cache.redis), up, counts, item)) else Err(Database)
      ensures pendingFetches == old(pendingFetches)
      ensures Grown(cache.l1, cache.redis, old(cache.l1), old(cache.redis), CountFacts(counts, [item]))
    {
      var key := CountKey(item);
      var cached := cache.Get(key, up);
      if cached.Some? && cached.value.CountText? {
        return Ok(cached.value.count);
      }
      if key in pendingFetches {
        return if dbOk then Ok(Count(counts, item)) else Err(Database);
      }
      pendingFetches := pendingFetches + {key};
      if !dbOk {
        pendingFetches := pendingFetches - {key};
        return Err(Database);
      }
      var count := Count(counts, item);
      pendingFetches := pendingFetches - {key};
      assert (key, CountText(count)) in CountFacts(counts, [item]);
      WriteCount(item, count, up);
      return Ok(count);
    }

    /** Lead the fetch of the keys that nobody else is fetching. */
    method Elect(keys: set<string>) returns (leaders: seq<string>, followers: seq<string>)
      modifies this
      ensures pendingFetches == old(pendingFetches) + keys
      ensures forall key :: key in leaders <==> key in keys && key !in old(pendingFetches)
      ensures forall key :: key in followers <==> key in keys && key in old(pendingFetches)
    {
      leaders, followers := [], [];
      var todo := keys;
      while todo != {}
        invariant todo <= keys
        invariant pendingFetches == old(pendingFetches) + (keys - todo)
        invariant forall key :: key in leaders <==> key in keys - todo && key !in old(pendingFetches)
        invariant forall key :: key in followers <==> key in keys - todo && key in old(pendingFetches)
      {
        var key :| key in todo;
        if key in pendingFetches {
          followers := followers + [key];
        } else {
          pendingFetches := pendingFetches + {key};
          leaders := leaders + [key];
        }
        todo := todo - {key};
      }
    }

    /** Query the led keys at once, fill their groups, publish them, and cache them. */
    method FetchLed(results: seq<BatchCountResult>, missing: map<string, seq<nat>>, leaders: seq<string>,
                    items: seq<Content>, ghost cached: seq<Option<Value>>, counts: Counts, up: bool)
        returns (filled: seq<BatchCountResult>)
      requires |items| == |cached| && Grouped(missing, items, cached, |items|)
      requires Filled(results, items, cached, counts, {})
      requires forall key :: key in leaders ==> key in missing
      modifies this, cache
      ensures Filled(filled, items, cached, counts, ToSet(leaders))
      ensures pendingFetches == old(pendingFetches) - ToSet(leaders)
      ensures Grown(cache.l1, cache.redis, old(cache.l1), old(cache.redis), CountFacts(counts, items))
    {
      var toFetch := seq(|leaders|, n requires 0 <= n < |leaders| =>
        assert leaders[n] in leaders;
        items[missing[leaders[n]][0]]);
      var rows := BatchGetCounts(counts, toFetch);
      CollectedCounts(counts, rows);
      var countMap := CollectRows(rows);
      filled := results;
      var entries := [];
      for n := 0 to |leaders|
        invariant Filled(filled, items, cached, counts, ToSet(leaders[..n]))
        invariant pendingFetches == old(pendingFetches) - ToSet(leaders[..n])
        invariant cache.l1 == old(cache.l1) && cache.redis == old(cache.redis)
        invariant forall e :: e in entries ==> e in CountFacts(counts, items)
      {
        var key := leaders[n];
        assert rows[n] in rows && rows[n].0 == toFetch[n];
        var count := if toFetch[n] in countMap then countMap[toFetch[n]] else 0;
        filled := FillGroup(filled, missing, key, count, items, cached, counts, ToSet(leaders[..n]));
        ToSetNext(leaders, n);
        pendingFetches := pendingFetches - {key};
        entries := entries + [(key, CountText(count))];
      }
      assert leaders[..|leaders|] == leaders;
      PutGrown(cache.l1, cache.redis, entries, up, CountFacts(counts, items));
      cache.SetMany(entries, up);
    }

    /** Nobody publishes the followed keys here: each falls back to its own query. The first
        that fails ends the batch. */
    method FallBack(results: seq<BatchCountResult>, missing: map<string, seq<nat>>, followers: seq<string>,
                    items: seq<Content>, ghost cached: seq<Option<Value>>, counts: Counts, failing: set<string>,
                    up: bool, ghost done: set<string>)
        returns (filled: seq<BatchCountResult>, failed: bool)
      requires |items| == |cached| && Grouped(missing, items, cached, |items|)
      requires Filled(results, items, cached, counts, done)
      requires forall key :: key in followers ==> key in missing
      modifies cache
      ensures failed <==> exists key :: key in followers && key in failing
      ensures !failed ==> Filled(filled, items, cached, counts, done + ToSet(followers))
      ensures Grown(cache.l1, cache.redis, old(cache.l1), old(cache.redis), CountFacts(counts, items))
    {
      filled, failed := results, false;
      for n := 0 to |followers|
        invariant !failed && forall key :: key in followers[..n] ==> key !in failing
        invariant Filled(filled, items, cached, counts, done + ToSet(followers[..n]))
        invariant Grown(cache.l1, cache.redis, old(cache.l1), old(cache.redis), CountFacts(counts, items))
      {
        var key := followers[n];
        if key in failing {
          return filled, true;
        }
        var item := items[missing[key][0]];
        var count := Count(counts, item);
        WriteCount(item, count, up);
        filled := FillGroup(filled, missing, key, count, items, cached, counts, done + ToSet(followers[..n]));
        ToSetNext(followers, n);
        assert done + ToSet(followers[..n + 1]) == done + ToSet(followers[..n]) + {key};
      }
      assert followers[..|followers|] == followers;
    }

    /** Replace the placeholders: elect, fetch and publish, then wait for the others. */
    method Resolve(results: seq<BatchCountResult>, missing: map<string, seq<nat>>, items: seq<Content>,
                   ghost cached: seq<Option<Value>>, counts: Counts, outages: Outages, up: bool)
        returns (r: Result<seq<BatchCountResult>, AppError>)
      requires |items| == |cached| && Grouped(missing, items, cached, |items|)
      requires Filled(results, items, cached, counts, {})
      modifies this, cache
      ensures r.Err? <==> exists key :: key in missing && QueryFails(key, old(pendingFetches), outages)
      ensures r.Err? ==> r.error == Database
      ensures r.Ok? ==> Filled(r.value, items, cached, counts, missing.Keys)
      ensures pendingFetches == old(pendingFetches)
      ensures Grown(cache.l1, cache.redis, old(cache.l1), old(cache.redis), CountFacts(counts, items))
    {
      var leaders, followers := Elect(missing.Keys);
      assert ToSet(leaders) + ToSet(followers) == missing.Keys;
      var led := results;
      if leaders != [] {
        assert leaders[0] in leaders;
        if outages.led {
          pendingFetches := pendingFetches - ToSet(leaders);
          assert QueryFails(leaders[0], old(pendingFetches), outages);
          return Err(Database);
        }
        led := FetchLed(results, missing, leaders, items, cached, counts, up);
      }
      ghost var l1, redis := cache.l1, cache.redis;
      var failing := outages.fallbacks;
      var all, failed := FallBack(led, missing, followers, items, cached, counts, failing, up, ToSet(leaders));
      GrownTwice(cache.l1, cache.redis, l1, redis, old(cache.l1), old(cache.redis), CountFacts(counts, items));
      if failed {
        ghost var key :| key in followers && key in failing;
        assert QueryFails(key, old(pendingFetches), outages);
        return Err(Database);
      }
      return Ok(all);
    }

    /** Up to 100 items, duplicates included: each position gets what a single read of its
        item would answer, and no placeholder survives. */
    method BatchCounts(items: seq<Content>, counts: Counts, outages: Outages, up: bool)
        returns (r: Result<seq<BatchCountResult>, AppError>)
      modifies this, cache
      ensures r.Err? <==>
        |items| > 100 || AnyFails(old(cache.l1), old(cache.redis), up, items, old(pendingFetches), outages)
      ensures r.Err? ==> r.error == if |items| > 100 then BatchTooLarge(|items|) else Database
      ensures r.Ok? ==>
        && |r.value| == |items|
        && forall i :: 0 <= i < |items| ==> r.value[i] == BatchCountResult(items[i],
             SingleCount(old(cache.l1), old(cache.redis), up, counts, items[i]))
      ensures pendingFetches == old(pendingFetches)
      ensures Grown(cache.l1, cache.redis, old(cache.l1), old(cache.redis), CountFacts(counts, items))
    {
      if |items| > 100 {
        return Err(BatchTooLarge(|items|));
      }
      var keys := seq(|items|, i requires 0 <= i < |items| => CountKey(items[i]));
      var cached := cache.MGet(keys, up);
      assert forall i :: 0 <= i < |items| ==> cached[i] == old(Find(cache.l1, cache.redis, up, CountKey(items[i])));
      var results, missing := Collect(items, cached, counts);
      if missing == map[] {
        return Ok(results);
      }
      ghost var l1, redis := cache.l1, cache.redis;
      r := Resolve(results, missing, items, cached, counts, outages, up);
      GrownTwice(cache.l1, cache.redis, l1, redis, old(cache.l1), old(cache.redis), CountFacts(counts, items));
      if r.Err? {
        ghost var key :| key in missing && QueryFails(key, old(pendingFetches), outages);
        ghost var i := MissingMeansMiss(missing, items, cached, key);
        assert old(Misses(cache.l1, cache.redis, up, items[i]));
      }
    }
  }
}
