/**
 `insert_like` and `delete_like` as one process runs them when nobody else holds their
 locks, statement by statement on the tables.
 */
module Repository {
  import opened Basics
  import opened Ledger

  /** The state machine of one transaction, run to its end on its own. */
  ghost function RunAlone(s: State): (end: State)
    requires |s.txs| == 1
    ensures |end.txs| == 1
    decreases StepsLeft(s.txs[0])
  {
    if Unfinished(s.txs[0]) then
      assert !Blocked(s, 0);
      RunAlone(Do(s, Advance(0)))
    else s
  }

  ghost function Alone(likes: map<LikeKey, LikeRow>, counts: map<Content, int>, nextId: int,
                       op: Op, key: LikeKey, now: int): (s: State)
    ensures |s.txs| == 1
  {
    State(likes, counts, [Tx(op, key, now, Begun)], nextId)
  }

  lemma Step(s: State) returns (s': State)
    requires |s.txs| == 1 && Unfinished(s.txs[0])
    ensures Enabled(s, Advance(0)) && s' == Do(s, Advance(0)) && RunAlone(s) == RunAlone(s')
  {
    assert !Blocked(s, 0);
    s' := Do(s, Advance(0));
  }

  class LikesDatabase {
    var likes: map<LikeKey, LikeRow>
    var counts: map<Content, int>
    var nextId: int

    constructor ()
      ensures likes == map[] && counts == map[] && nextId == 1
    {
      likes, counts, nextId := map[], map[], 1;
    }

    method InsertLike(key: LikeKey, now: int) returns (r: Outcome)
      modifies this
      ensures var s := RunAlone(old(Alone(likes, counts, nextId, Like, key, now)));
        && likes == s.likes && counts == s.counts && nextId == s.nextId
        && s.txs[0].phase == Finished(r)
    {
      ghost var s := Alone(likes, counts, nextId, Like, key, now);
      // INSERT INTO likes ... ON CONFLICT DO NOTHING RETURNING
      var row := LikeRow(nextId, key.item, now);
      var conflict := key in likes;
      nextId := nextId + 1;
      s := Step(s);
      if !conflict {
        // INSERT INTO like_counts ... ON CONFLICT DO UPDATE RETURNING total_count
        var total := if key.item in counts then counts[key.item] + 1 else 1;
        s := Step(s);
        likes := likes[key := row];
        counts := counts[key.item := total];
        r := Inserted(row, total);
        s := Step(s);
      } else {
        // SELECT ... FROM likes LEFT JOIN like_counts
        r := AlreadyExisted(likes[key], Count(counts, key.item));
        s := Step(s);
        s := Step(s);
      }
    }

    method DeleteLike(key: LikeKey, now: int) returns (r: Outcome)
      modifies this
      ensures var s := RunAlone(old(Alone(likes, counts, nextId, Unlike, key, now)));
        && likes == s.likes && counts == s.counts && nextId == s.nextId
        && s.txs[0].phase == Finished(r)
    {
      ghost var s := Alone(likes, counts, nextId, Unlike, key, now);
      // DELETE FROM likes
      var affected := key in likes;
      s := Step(s);
      s := Step(s);
      if affected {
        likes := likes - {key};
        // UPDATE like_counts SET total_count = GREATEST(total_count - 1, 0)
        var total := 0;
        s := Step(s);
        if key.item in counts {
          total := Max(counts[key.item] - 1, 0);
          counts := counts[key.item := total];
        }
        r := Deleted(total);
        s := Step(s);
      } else {
        // SELECT COALESCE(total_count, 0) FROM like_counts
        r := NotLiked(Count(counts, key.item));
        s := Step(s);
        s := Step(s);
      }
    }
  }

  /** A lone like: the row appears once, and every count is the number of rows. */
  lemma LoneLike(likes: map<LikeKey, LikeRow>, counts: map<Content, int>, nextId: int, key: LikeKey, now: int)
    requires CountsMatch(State(likes, counts, [], nextId))
    ensures var end := RunAlone(Alone(likes, counts, nextId, Like, key, now));
      var row := LikeRow(nextId, key.item, now);
      && CountsMatch(end) && end.nextId == nextId + 1
      && end.likes == (if key in likes then likes else likes[key := row])
      && end.txs[0].phase == Finished(
        if key in likes then AlreadyExisted(likes[key], NumLikes(likes, key.item))
        else Inserted(row, NumLikes(likes, key.item) + 1))
  {
    var s := Alone(likes, counts, nextId, Like, key, now);
    assert Count(counts, key.item) == NumLikes(likes, key.item);
    CountsMatchAlone(s);
    s := Step(s);
    s := Step(s);
    s := Step(s);
  }

  lemma LoneUnlike(likes: map<LikeKey, LikeRow>, counts: map<Content, int>, nextId: int, key: LikeKey, now: int)
    requires CountsMatch(State(likes, counts, [], nextId))
    ensures var end := RunAlone(Alone(likes, counts, nextId, Unlike, key, now));
      && CountsMatch(end) && end.nextId == nextId
      && end.likes == likes - {key}
      && end.txs[0].phase == Finished(
        if key in likes then Deleted(NumLikes(likes, key.item) - 1) else NotLiked(NumLikes(likes, key.item)))
  {
    var s := Alone(likes, counts, nextId, Unlike, key, now);
    assert Count(counts, key.item) == NumLikes(likes, key.item);
    CountsMatchAlone(s);
    if key in likes {
      LikedItemHasCounter(s, key);
    }
    s := Step(s);
    s := Step(s);
    s := Step(s);
    s := Step(s);
  }

  lemma {:induction false} CountsMatchAlone(s: State)
    requires |s.txs| == 1 && Inv(s)
    ensures CountsMatch(RunAlone(s))
    decreases StepsLeft(s.txs[0])
  {
    if Unfinished(s.txs[0]) {
      var s' := Step(s);
      InvPreserved(s, Advance(0));
      CountsMatchAlone(s');
    }
  }

  /** Unliking undoes a like: the rows and every count are as before. */
  lemma UnlikeUndoesLike(likes: map<LikeKey, LikeRow>, counts: map<Content, int>, nextId: int,
                         key: LikeKey, now: int, later: int)
    requires CountsMatch(State(likes, counts, [], nextId)) && key !in likes
    ensures var liked := RunAlone(Alone(likes, counts, nextId, Like, key, now));
      var undone := RunAlone(Alone(liked.likes, liked.counts, liked.nextId, Unlike, key, later));
      && undone.likes == likes
      && forall item: Content :: Count(undone.counts, item) == Count(counts, item)
  {
    LoneLike(likes, counts, nextId, key, now);
    var liked := RunAlone(Alone(likes, counts, nextId, Like, key, now));
    SameTablesMatch(liked);
    LoneUnlike(liked.likes, liked.counts, liked.nextId, key, later);
    var undone := RunAlone(Alone(liked.likes, liked.counts, liked.nextId, Unlike, key, later));
    assert undone.likes == likes;
    forall item: Content ensures Count(undone.counts, item) == Count(counts, item) {
      assert Count(State(likes, counts, [], nextId).counts, item) == NumLikes(likes, item);
      assert Count(undone.counts, item) == NumLikes(undone.likes, item);
    }
  }

  lemma SameTablesMatch(s: State)
    requires CountsMatch(s)
    ensures CountsMatch(State(s.likes, s.counts, [], s.nextId))
  {
    forall item: Content ensures Count(s.counts, item) == NumLikes(s.likes, item) {
    }
  }
}
