/**
 Pagination over the ledger: a client follows cursors while likes and unlikes interleave
 statement by statement.
 */
module LedgerPages {
  import opened Basics
  import Ledger
  import opened Pagination
  import opened Queries

  /** The moments of a run at which the pages are read. */
  ghost predicate InOrder(moments: seq<nat>, n: nat) {
    && (forall i :: 0 <= i < |moments| ==> moments[i] < n)
    && (forall i, j :: 0 <= i < j < |moments| ==> moments[i] <= moments[j])
  }

  /** What each read sees of the user's rows: the ones committed at its moment. */
  ghost function TablesAt(states: seq<Ledger.State>, moments: seq<nat>, user: Uuid): (tables: seq<set<LikeRow>>)
    requires InOrder(moments, |states|)
    ensures |tables| == |moments|
    ensures forall i :: 0 <= i < |moments| ==> tables[i] == TableOf(states[moments[i]].likes, user)
  {
    seq(|moments|, i requires 0 <= i < |moments| => TableOf(states[moments[i]].likes, user))
  }

  lemma TablesAreUnique(states: seq<Ledger.State>, actions: seq<Ledger.Action>, moments: seq<nat>, user: Uuid)
    requires Ledger.IsRun(states, actions) && Ledger.IdsOk(states[0]) && InOrder(moments, |states|)
    ensures AllUnique(TablesAt(states, moments, user))
  {
    forall i | 0 <= i < |moments| ensures UniqueIds(TablesAt(states, moments, user)[i]) {
      Ledger.IdsAlways(states, actions, moments[i]);
      UserRowsUnique(states[moments[i]].likes, user);
    }
  }

  /** The client's pages, over any run of the ledger. */
  ghost predicate ClientRun(states: seq<Ledger.State>, actions: seq<Ledger.Action>, moments: seq<nat>, user: Uuid,
                            limits: seq<int>, filter: Option<string>, pages: seq<Page>)
  {
    && Ledger.IsRun(states, actions) && Ledger.IdsOk(states[0]) && InOrder(moments, |states|)
    && (TablesAreUnique(states, actions, moments, user);
        IsTraversal(TablesAt(states, moments, user), limits, filter, None, pages))
  }

  /** Whatever is liked and unliked meanwhile, no row is listed twice, and each listed row was
      committed, the user's and of the type when its page was read. */
  lemma ListedRowsWereLiked(states: seq<Ledger.State>, actions: seq<Ledger.Action>, moments: seq<nat>, user: Uuid,
                            limits: seq<int>, filter: Option<string>, pages: seq<Page>, row: LikeRow)
      returns (i: nat, key: LikeKey)
    requires ClientRun(states, actions, moments, user, limits, filter, pages) && row in AllRows(pages)
    ensures Descending(AllRows(pages))
    ensures i < |moments| && key in states[moments[i]].likes && states[moments[i]].likes[key] == row
    ensures key.user == user && (filter.Some? ==> row.item.contentType == filter.value)
  {
    TablesAreUnique(states, actions, moments, user);
    var tables := TablesAt(states, moments, user);
    TraversalDescends(tables, limits, filter, None, pages);
    i := TraversalSound(tables, limits, filter, None, pages, row);
    key :| key in states[moments[i]].likes && key.user == user && states[moments[i]].likes[key] == row;
  }

  /** A like that is committed from the first read to the last is listed exactly once. */
  lemma StayingLikeListedOnce(states: seq<Ledger.State>, actions: seq<Ledger.Action>, moments: seq<nat>, user: Uuid,
                              limits: seq<int>, filter: Option<string>, pages: seq<Page>, key: LikeKey, row: LikeRow)
      returns (i: nat)
    requires ClientRun(states, actions, moments, user, limits, filter, pages)
    requires key.user == user && (filter.Some? ==> row.item.contentType == filter.value)
    requires forall n: nat :: n in moments ==> key in states[n].likes && states[n].likes[key] == row
    ensures i < |AllRows(pages)| && AllRows(pages)[i] == row
    ensures forall j :: 0 <= j < |AllRows(pages)| && j != i ==> AllRows(pages)[j] != row
  {
    TablesAreUnique(states, actions, moments, user);
    var tables := TablesAt(states, moments, user);
    forall k | 0 <= k < |tables| ensures row in tables[k] {
      assert moments[k] in moments;
    }
    i := StayingRowListedOnce(tables, limits, filter, pages, row);
  }
}
