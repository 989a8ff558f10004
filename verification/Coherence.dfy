/**
 When a cache entry says what the database says, and what keeps it that way.
 */
module Coherence {
  import opened Basics
  import opened Ledger
  import opened Pagination
  import opened Keys
  import opened Cache
  import opened CountCache
  import opened Queries

  /** The two tables. */
  datatype Tables = Tables(likes: Likes, counts: Counts)

  ghost predicate CountFresh(t: Tables, k: string, v: Value) {
    forall item: Content :: k == CountKey(item) ==> v == CountText(Count(t.counts, item))
  }

  ghost predicate StatusFresh(t: Tables, k: string, v: Value) {
    forall user: Uuid, item: Content :: k == StatusKey(user, item) ==> v == StatusText(StatusOf(t.likes, user, item))
  }

  /** The filters that first pages are asked for: all types, or one type. */
  type Served = set<Option<string>>

  /** Not both "all types" and a type named "_", whose page key is the same. */
  predicate Unambiguous(served: Served) {
    !(None in served && Some("_") in served)
  }

  ghost predicate PageFresh(served: Served, t: Tables, k: string, v: Value)
    requires RowsOk(t.likes)
  {
    forall user: Uuid, filter: Option<string> :: filter in served && k == PageKey(user, filter) ==>
      v == PageText(FirstPageOf(t.likes, user, filter))
  }

  ghost function FirstPageOf(likes: Likes, user: Uuid, filter: Option<string>): CachedUserLikePage
    requires RowsOk(likes)
  {
    UserRowsUnique(likes, user);
    FullFirstPage(TableOf(likes, user), filter)
  }

  /** The entry is what a direct query would answer, whatever its key is the key of. */
  ghost predicate Fresh(served: Served, t: Tables, k: string, v: Value)
    requires RowsOk(t.likes)
  {
    CountFresh(t, k, v) && StatusFresh(t, k, v) && PageFresh(served, t, k, v)
  }

  ghost predicate Coherent(served: Served, t: Tables, m: Entries)
    requires RowsOk(t.likes)
  {
    forall k :: k in m ==> Fresh(served, t, k, m[k])
  }

  // ---------------------------------------------------------------- what reads add

  lemma CountFactFresh(served: Served, t: Tables, item: Content)
    requires RowsOk(t.likes)
    ensures Fresh(served, t, CountKey(item), CountText(Count(t.counts, item)))
  {
    var k, v := CountKey(item), CountText(Count(t.counts, item));
    forall other: Content | k == CountKey(other) ensures v == CountText(Count(t.counts, other)) {
      CountKeyInjective(item, other);
    }
    forall user: Uuid, other: Content ensures k != StatusKey(user, other) {
      KeysDisjoint(item, user, other, user, None);
    }
    forall user: Uuid, filter: Option<string> ensures k != PageKey(user, filter) {
      KeysDisjoint(item, user, item, user, filter);
    }
  }

  lemma StatusFactFresh(served: Served, t: Tables, user: Uuid, item: Content)
    requires RowsOk(t.likes)
    ensures Fresh(served, t, StatusKey(user, item), StatusText(StatusOf(t.likes, user, item)))
  {
    var k, v := StatusKey(user, item), StatusText(StatusOf(t.likes, user, item));
    forall other: Content ensures k != CountKey(other) {
      KeysDisjoint(other, user, item, user, None);
    }
    forall u: Uuid, other: Content | k == StatusKey(u, other) ensures v == StatusText(StatusOf(t.likes, u, other)) {
      StatusKeyInjective(user, item, u, other);
    }
    forall u: Uuid, filter: Option<string> ensures k != PageKey(u, filter) {
      KeysDisjoint(item, user, item, u, filter);
    }
  }

  lemma PageFactFresh(served: Served, t: Tables, user: Uuid, filter: Option<string>)
    requires RowsOk(t.likes) && filter in served && Unambiguous(served)
    ensures Fresh(served, t, PageKey(user, filter), PageText(FirstPageOf(t.likes, user, filter)))
  {
    var k, v := PageKey(user, filter), PageText(FirstPageOf(t.likes, user, filter));
    forall other: Content ensures k != CountKey(other) {
      KeysDisjoint(other, user, other, user, filter);
    }
    forall u: Uuid, other: Content ensures k != StatusKey(u, other) {
      KeysDisjoint(other, u, other, user, filter);
    }
    forall u: Uuid, g: Option<string> | g in served && k == PageKey(u, g)
      ensures v == PageText(FirstPageOf(t.likes, u, g))
    {
      PageKeyInjective(user, filter, u, g);
    }
  }

  /** What others cache never says anything about counts, statuses or pages. */
  lemma ForeignIsFresh(served: Served, t: Tables, k: string, v: Value)
    requires RowsOk(t.likes) && Foreign(k)
    ensures Fresh(served, t, k, v)
  {
    forall item: Content ensures k != CountKey(item) {
      ForeignKeysDisjoint(k, item, item.contentId, item, item.contentId, None);
    }
    forall user: Uuid, item: Content ensures k != StatusKey(user, item) {
      ForeignKeysDisjoint(k, item, user, item, user, None);
    }
    forall user: Uuid, filter: Option<string> ensures k != PageKey(user, filter) {
      ForeignKeysDisjoint(k, Content("", user), user, Content("", user), user, filter);
    }
  }

  lemma ForeignAddedStaysCoherent(served: Served, t: Tables, m: Entries, m': Entries)
    requires RowsOk(t.likes) && Coherent(served, t, m)
    requires forall k :: k in m' && !Foreign(k) ==> k in m && m'[k] == m[k]
    ensures Coherent(served, t, m')
  {
    forall k | k in m' ensures Fresh(served, t, k, m'[k]) {
      if Foreign(k) {
        ForeignIsFresh(served, t, k, m'[k]);
      }
    }
  }

  /** Reads keep both layers coherent: they only add entries that the database justifies. */
  lemma GrownStaysCoherent(served: Served, t: Tables, l1: Entries, redis: Entries, oldL1: Entries, oldRedis: Entries,
                           facts: set<(string, Value)>)
    requires RowsOk(t.likes) && Coherent(served, t, oldL1) && Coherent(served, t, oldRedis)
    requires Grown(l1, redis, oldL1, oldRedis, facts)
    requires forall fact :: fact in facts ==> Fresh(served, t, fact.0, fact.1)
    ensures Coherent(served, t, l1) && Coherent(served, t, redis)
  {
    forall k | k in l1 ensures Fresh(served, t, k, l1[k]) {
      assert (k, l1[k]) in facts ==> Fresh(served, t, (k, l1[k]).0, (k, l1[k]).1);
    }
    forall k | k in redis ensures Fresh(served, t, k, redis[k]) {
      assert (k, redis[k]) in facts ==> Fresh(served, t, (k, redis[k]).0, (k, redis[k]).1);
    }
  }

  lemma CountFactsFresh(served: Served, t: Tables, items: seq<Content>)
    requires RowsOk(t.likes)
    ensures forall fact :: fact in CountFacts(t.counts, items) ==> Fresh(served, t, fact.0, fact.1)
  {
    forall fact | fact in CountFacts(t.counts, items) ensures Fresh(served, t, fact.0, fact.1) {
      var item :| item in items && fact == (CountKey(item), CountText(Count(t.counts, item)));
      CountFactFresh(served, t, item);
    }
  }

  lemma StatusFactsFresh(served: Served, t: Tables, user: Uuid, items: seq<Content>)
    requires RowsOk(t.likes)
    ensures forall fact :: fact in StatusFacts(t.likes, user, items) ==> Fresh(served, t, fact.0, fact.1)
  {
    forall fact | fact in StatusFacts(t.likes, user, items) ensures Fresh(served, t, fact.0, fact.1) {
      var item :| item in items && fact == (StatusKey(user, item), StatusText(StatusOf(t.likes, user, item)));
      StatusFactFresh(served, t, user, item);
    }
  }

  // ---------------------------------------------------------------- what reads answer

  /** In a coherent cache a read of a count, a status or a first page is the direct query. */
  lemma CoherentCount(served: Served, t: Tables, l1: Entries, redis: Entries, up: bool, item: Content)
    requires RowsOk(t.likes) && Coherent(served, t, l1) && Coherent(served, t, redis)
    ensures SingleCount(l1, redis, up, t.counts, item) == Count(t.counts, item)
  {
    var k := CountKey(item);
    var cached := Find(l1, redis, up, k);
    assert cached.Some? ==> Fresh(served, t, k, cached.value);
  }

  lemma CoherentStatus(served: Served, t: Tables, l1: Entries, redis: Entries, up: bool, user: Uuid, item: Content)
    requires RowsOk(t.likes) && Coherent(served, t, l1) && Coherent(served, t, redis)
    ensures SingleStatus(l1, redis, up, t.likes, user, item) == StatusOf(t.likes, user, item)
  {
    var k := StatusKey(user, item);
    var cached := Find(l1, redis, up, k);
    assert cached.Some? ==> Fresh(served, t, k, cached.value);
  }

  lemma CoherentPage(served: Served, t: Tables, l1: Entries, redis: Entries, up: bool,
                     user: Uuid, filter: Option<string>, limit: int)
    requires RowsOk(t.likes) && Coherent(served, t, l1) && Coherent(served, t, redis) && filter in served
    requires UniqueIds(TableOf(t.likes, user))
    ensures FirstPageAnswer(Find(l1, redis, up, PageKey(user, filter)), TableOf(t.likes, user), filter, limit)
         == DirectPage(TableOf(t.likes, user), filter, None, limit)
  {
    var k := PageKey(user, filter);
    var cached := Find(l1, redis, up, k);
    assert cached.Some? ==> Fresh(served, t, k, cached.value);
    SliceIsDirect(TableOf(t.likes, user), filter, limit);
  }

  // ---------------------------------------------------------------- what writes keep

  /** `after` differs from `before` only in the row of `key` and the count of its item. */
  ghost predicate ChangesOnly(before: Tables, after: Tables, key: LikeKey) {
    && before.likes - {key} == after.likes - {key}
    && RowsOk(before.likes) && RowsOk(after.likes)
    && forall item: Content :: item != key.item ==> Count(after.counts, item) == Count(before.counts, item)
  }

  lemma OtherTablesUnchanged(before: Tables, after: Tables, key: LikeKey, user: Uuid)
    requires ChangesOnly(before, after, key) && user != key.user
    ensures TableOf(after.likes, user) == TableOf(before.likes, user)
  {
    forall row ensures row in TableOf(after.likes, user) <==> row in TableOf(before.likes, user) {
      if row in TableOf(after.likes, user) {
        var k :| k in after.likes && k.user == user && after.likes[k] == row;
        assert k in after.likes - {key} && (before.likes - {key})[k] == row;
      }
      if row in TableOf(before.likes, user) {
        var k :| k in before.likes && k.user == user && before.likes[k] == row;
        assert k in before.likes - {key} && (after.likes - {key})[k] == row;
      }
    }
  }

  lemma OtherTypesKept(before: Likes, after: Likes, key: LikeKey, contentType: string, row: LikeRow)
    requires before - {key} == after - {key} && RowsOk(before)
    requires contentType != key.item.contentType
    requires row in Selected(TableOf(before, key.user), Some(contentType), None)
    ensures row in Selected(TableOf(after, key.user), Some(contentType), None)
  {
    var k :| k in before && k.user == key.user && before[k] == row;
    assert k != key;
    assert k in before - {key} && (after - {key})[k] == row;
  }

  lemma OtherTypesUnchanged(before: Tables, after: Tables, key: LikeKey, contentType: string)
    requires ChangesOnly(before, after, key) && contentType != key.item.contentType
    ensures Selected(TableOf(after.likes, key.user), Some(contentType), None)
         == Selected(TableOf(before.likes, key.user), Some(contentType), None)
  {
    forall row ensures row in Selected(TableOf(after.likes, key.user), Some(contentType), None)
                  <==> row in Selected(TableOf(before.likes, key.user), Some(contentType), None)
    {
      if row in Selected(TableOf(after.likes, key.user), Some(contentType), None) {
        OtherTypesKept(after.likes, before.likes, key, contentType, row);
      }
      if row in Selected(TableOf(before.likes, key.user), Some(contentType), None) {
        OtherTypesKept(before.likes, after.likes, key, contentType, row);
      }
    }
  }

  lemma OtherPagesUnchanged(before: Tables, after: Tables, key: LikeKey, user: Uuid, filter: Option<string>)
    requires ChangesOnly(before, after, key)
    requires user != key.user || (filter.Some? && filter.value != key.item.contentType)
    ensures FirstPageOf(after.likes, user, filter) == FirstPageOf(before.likes, user, filter)
  {
    UserRowsUnique(before.likes, user);
    UserRowsUnique(after.likes, user);
    if user != key.user {
      OtherTablesUnchanged(before, after, key, user);
    } else {
      OtherTypesUnchanged(before, after, key, filter.value);
    }
  }

  /** The four keys that a like or unlike writes or deletes. */
  predicate TouchedBy(k: string, key: LikeKey) {
    || k == CountKey(key.item)
    || k == StatusKey(key.user, key.item)
    || k == PageKey(key.user, None)
    || k == PageKey(key.user, Some(key.item.contentType))
  }

  /** Every other entry stays fresh: frames over users, items and types. */
  lemma UntouchedStaysFresh(served: Served, before: Tables, after: Tables, key: LikeKey, k: string, v: Value)
    requires ChangesOnly(before, after, key) && Fresh(served, before, k, v) && !TouchedBy(k, key)
    ensures Fresh(served, after, k, v)
  {
    forall user: Uuid, item: Content | k == StatusKey(user, item)
      ensures v == StatusText(StatusOf(after.likes, user, item))
    {
      var other := LikeKey(user, item);
      assert other != key;
      assert other in before.likes - {key} <==> other in after.likes - {key};
      assert other in after.likes ==> (before.likes - {key})[other] == (after.likes - {key})[other];
    }
    forall user: Uuid, filter: Option<string> | filter in served && k == PageKey(user, filter)
      ensures v == PageText(FirstPageOf(after.likes, user, filter))
    {
      OtherPagesUnchanged(before, after, key, user, filter);
    }
  }

  /** What a command leaves of a layer: the new count and status, what the content client
      cached meanwhile, and old entries under other keys; with `purged`, none of the user's two
      pages that could have changed. */
  ghost predicate WrittenBy(m: Entries, m': Entries, after: Tables, key: LikeKey, purged: bool) {
    forall k :: k in m' ==>
      || Foreign(k)
      || (k == CountKey(key.item) && m'[k] == CountText(Count(after.counts, key.item)))
      || (k == StatusKey(key.user, key.item) && m'[k] == StatusText(StatusOf(after.likes, key.user, key.item)))
      || (k in m && m'[k] == m[k] && k != CountKey(key.item) && k != StatusKey(key.user, key.item)
          && (purged ==> !TouchedBy(k, key)))
  }

  lemma SameRowsStaysFresh(served: Served, before: Tables, after: Tables, key: LikeKey, k: string, v: Value)
    requires ChangesOnly(before, after, key) && before.likes == after.likes
    requires Fresh(served, before, k, v) && k != CountKey(key.item)
    ensures Fresh(served, after, k, v)
  {
    assert PageFresh(served, before, k, v) ==> PageFresh(served, after, k, v);
  }

  /** The writes, and the two explicit deletes when rows changed, keep a layer coherent. */
  lemma WrittenStaysCoherent(served: Served, before: Tables, after: Tables, key: LikeKey,
                             m: Entries, m': Entries, purged: bool)
    requires ChangesOnly(before, after, key) && Coherent(served, before, m)
    requires WrittenBy(m, m', after, key, purged) && (!purged ==> before.likes == after.likes)
    ensures Coherent(served, after, m')
  {
    CountFactFresh(served, after, key.item);
    StatusFactFresh(served, after, key.user, key.item);
    forall k | k in m' ensures Fresh(served, after, k, m'[k]) {
      if Foreign(k) {
        ForeignIsFresh(served, after, k, m'[k]);
      } else if k != CountKey(key.item) && k != StatusKey(key.user, key.item) {
        if purged {
          UntouchedStaysFresh(served, before, after, key, k, m'[k]);
        } else {
          SameRowsStaysFresh(served, before, after, key, k, m'[k]);
        }
      }
    }
  }
}
