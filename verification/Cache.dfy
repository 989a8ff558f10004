/**
 `CacheManager`: string values in an in-process L1 cache in front of Redis. Each call is
 told whether Redis answers it (`up`); a Redis error is a miss, or a write that is lost.
 */
module Cache {
  import opened Basics
  import opened Pagination

  /** What the stored text says. `StatusText(None)` is the empty string. */
  datatype Value =
    | CountText(count: int)
    | StatusText(likedAt: Option<int>)
    | PageText(page: CachedUserLikePage)
    | OtherText

  type Entries = map<string, Value>

  /** What a reader of `key` finds: L1 first, then Redis. */
  function Find(l1: Entries, redis: Entries, up: bool, key: string): Option<Value> {
    if key in l1 then Some(l1[key])
    else if up && key in redis then Some(redis[key])
    else None
  }

  /** Writing entries one after another: a later one wins. */
  function Put(m: Entries, entries: seq<(string, Value)>): Entries {
    if entries == [] then m
    else
      var last := entries[|entries| - 1];
      Put(m, entries[..|entries| - 1])[last.0 := last.1]
  }

  /** Every entry of `m` was an entry of L1 or Redis before, or is one of `facts`. */
  ghost predicate Explained(m: Entries, l1: Entries, redis: Entries, facts: set<(string, Value)>) {
    forall k :: k in m ==>
      (k in l1 && m[k] == l1[k]) || (k in redis && m[k] == redis[k]) || (k, m[k]) in facts
  }

  lemma {:induction false} PutExplained(m: Entries, entries: seq<(string, Value)>,
                                        l1: Entries, redis: Entries, facts: set<(string, Value)>)
    requires Explained(m, l1, redis, facts) && forall e :: e in entries ==> e in facts
    ensures Explained(Put(m, entries), l1, redis, facts)
  {
    if entries != [] {
      var last := entries[|entries| - 1];
      PutExplained(m, entries[..|entries| - 1], l1, redis, facts);
      assert last in entries && last == (last.0, last.1);
    }
  }

  /** Both layers grew only by such entries. */
  ghost predicate Grown(l1: Entries, redis: Entries, oldL1: Entries, oldRedis: Entries, facts: set<(string, Value)>) {
    Explained(l1, oldL1, oldRedis, facts) && Explained(redis, oldL1, oldRedis, facts)
  }

  lemma GrownTwice(l2: Entries, redis2: Entries, l1: Entries, redis1: Entries, l0: Entries, redis0: Entries,
                   facts: set<(string, Value)>)
    requires Grown(l2, redis2, l1, redis1, facts) && Grown(l1, redis1, l0, redis0, facts)
    ensures Grown(l2, redis2, l0, redis0, facts)
  {
  }

  lemma PutGrown(l1: Entries, redis: Entries, entries: seq<(string, Value)>, up: bool, facts: set<(string, Value)>)
    requires forall e :: e in entries ==> e in facts
    ensures Grown(Put(l1, entries), if up then Put(redis, entries) else redis, l1, redis, facts)
  {
    PutExplained(l1, entries, l1, redis, facts);
    PutExplained(redis, entries, l1, redis, facts);
  }

  lemma HitGrown(l1: Entries, redis: Entries, up: bool, key: string, facts: set<(string, Value)>)
    requires Find(l1, redis, up, key).Some?
    ensures Grown(l1[key := Find(l1, redis, up, key).value], redis, l1, redis, facts)
  {
  }

  lemma SetGrown(l1: Entries, redis: Entries, up: bool, key: string, value: Value, facts: set<(string, Value)>)
    requires (key, value) in facts
    ensures Grown(l1[key := value], if up then redis[key := value] else redis, l1, redis, facts)
  {
  }

  class CacheManager {
    var l1: Entries
    var redis: Entries

    constructor ()
      ensures l1 == map[] && redis == map[]
    {
      l1, redis := map[], map[];
    }

    function Lookup(key: string, up: bool): Option<Value>
      reads this
    {
      Find(l1, redis, up, key)
    }

    /** A hit in Redis is copied to L1. */
    method Get(key: string, up: bool) returns (value: Option<Value>)
      modifies this`l1
      ensures value == old(Lookup(key, up))
      ensures key in old(l1) ==> value == Some(old(l1)[key])
      ensures key !in old(l1) ==> value == if up && key in redis then Some(redis[key]) else None
      ensures l1 == if value.Some? then old(l1)[key := value.value] else old(l1)
    {
      if key in l1 {
        assert l1[key := l1[key]] == l1;
        return Some(l1[key]);
      }
      if !up {
        return None;
      }
      if key in redis {
        l1 := l1[key := redis[key]];
        return Some(redis[key]);
      }
      return None;
    }

    method Set(key: string, value: Value, up: bool)
      modifies this
      ensures l1 == old(l1)[key := value]
      ensures redis == if up then old(redis)[key := value] else old(redis)
    {
      l1 := l1[key := value];
      if up {
        redis := redis[key := value];
      }
    }

    method SetMany(entries: seq<(string, Value)>, up: bool)
      modifies this
      ensures l1 == Put(old(l1), entries)
      ensures redis == if up then Put(old(redis), entries) else old(redis)
    {
      for i := 0 to |entries|
        invariant l1 == Put(old(l1), entries[..i]) && redis == old(redis)
      {
        assert entries[..i + 1][..i] == entries[..i];
        l1 := l1[entries[i].0 := entries[i].1];
      }
      assert entries[..|entries|] == entries;
      if up {
        for i := 0 to |entries|
          invariant redis == Put(old(redis), entries[..i]) && l1 == Put(old(l1), entries)
        {
          assert entries[..i + 1][..i] == entries[..i];
          redis := redis[entries[i].0 := entries[i].1];
        }
      }
    }

    /** L1 is checked key by key; the misses go to Redis in one MGET, whose answers are
        scattered back by position. Every position gets what `Get` would find. */
    method MGet(keys: seq<string>, up: bool) returns (results: seq<Option<Value>>)
      modifies this`l1
      ensures |results| == |keys|
      ensures forall i :: 0 <= i < |keys| ==> results[i] == old(Lookup(keys[i], up))
      ensures forall k :: k in l1 <==> k in old(l1) || (up && k in keys && k in redis)
      ensures forall k :: k in l1 ==> Some(l1[k]) == old(Lookup(k, up))
    {
      results := [];
      var needed: seq<nat> := [];
      for i := 0 to |keys|
        invariant l1 == old(l1)
        invariant |results| == i
        invariant forall j :: 0 <= j < i ==> results[j] == if keys[j] in l1 then Some(l1[keys[j]]) else None
        invariant forall n :: 0 <= n < |needed| ==> needed[n] < i && keys[needed[n]] !in old(l1)
        invariant forall j :: 0 <= j < i && keys[j] !in old(l1) ==> j in needed
      {
        if keys[i] in l1 {
          results := results + [Some(l1[keys[i]])];
        } else {
          needed := needed + [i];
          results := results + [None];
        }
      }
      if needed == [] || !up {
        return;
      }
      for n := 0 to |needed|
        invariant |results| == |keys|
        invariant forall j :: 0 <= j < |keys| && (j !in needed || j in needed[..n]) ==>
          results[j] == old(Lookup(keys[j], up))
        invariant forall k :: k in l1 <==>
          k in old(l1) || (k in redis && exists m :: 0 <= m < n && keys[needed[m]] == k)
        invariant forall k :: k in l1 ==> Some(l1[k]) == old(Lookup(k, up))
      {
        var key := keys[needed[n]];
        var value := if key in redis then Some(redis[key]) else None;
        if value.Some? {
          l1 := l1[key := value.value];
        }
        results := results[needed[n] := value];
      }
      assert needed[..|needed|] == needed;
    }

    method DelMany(keys: seq<string>, up: bool)
      modifies this
      ensures l1 == old(l1) - (set k | k in keys)
      ensures redis == if up then old(redis) - (set k | k in keys) else old(redis)
    {
      for i := 0 to |keys|
        invariant l1 == old(l1) - (set k | k in keys[..i]) && redis == old(redis)
      {
        l1 := l1 - {keys[i]};
      }
      assert keys[..|keys|] == keys;
      if up {
        redis := redis - (set k | k in keys);
      }
    }

    /** Best effort: of the L1 keys with this prefix, `dropped` ones go. */
    method InvalidateL1Prefix(prefix: string, dropped: set<string>)
      modifies this`l1
      ensures l1 == old(l1) - (set k | k in dropped && prefix <= k)
    {
      l1 := l1 - (set k | k in dropped && prefix <= k);
    }

    /** Expiry and eviction take entries away at any time. */
    method Evict(fromL1: set<string>, fromRedis: set<string>)
      modifies this
      ensures l1 == old(l1) - fromL1 && redis == old(redis) - fromRedis
    {
      l1, redis := l1 - fromL1, redis - fromRedis;
    }
  }
}
