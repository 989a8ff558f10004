/**
 What each read answers, said about the tables.
 */
module Reads {
  import opened Basics
  import opened Ledger
  import opened Pagination
  import opened CountCache
  import opened Queries
  import opened CircuitBreaker
  import opened DirectService

  /** What a batch answers position by position, if it is not too large. */
  ghost predicate CountsMean(d: Direct, items: seq<Content>, answer: Answer) {
    && answer.CountsAnswer?
    && (|items| > 100 ==> answer.counts == Err(BatchTooLarge(|items|)))
    && (|items| <= 100 ==>
          && answer.counts.Ok? && |answer.counts.value| == |items|
          && forall i :: 0 <= i < |items| ==>
               var r := answer.counts.value[i]; r.item == items[i] && r.count == NumLikes(d.likes, items[i]))
  }

  /** The answer for one item says whether the user's row is there, and since when. */
  ghost predicate StatusMeans(d: Direct, key: LikeKey, liked: bool, likedAt: Option<int>) {
    && (liked <==> key in d.likes)
    && likedAt == if key in d.likes then Some(d.likes[key].createdAt) else None
  }

  ghost predicate StatusesMean(d: Direct, user: Uuid, items: seq<Content>, answer: Answer) {
    && answer.StatusesAnswer?
    && (|items| > 100 ==> answer.statuses == Err(BatchTooLarge(|items|)))
    && (|items| <= 100 ==>
          && answer.statuses.Ok? && |answer.statuses.value| == |items|
          && forall i :: 0 <= i < |items| ==>
               var r := answer.statuses.value[i];
               r.item == items[i] && StatusMeans(d, LikeKey(user, items[i]), r.liked, r.likedAt))
  }

  ghost predicate PageAnswerMeans(d: Direct, user: Uuid, filter: Option<string>, cursor: Option<Cursor>, limit: int,
                                  answer: Answer) {
    && answer.PageAnswer? && answer.page.Ok?
    && PageMeans(Requested(TableOf(d.likes, user), filter, cursor), limit, answer.page.value)
  }

  /** The answer to a read, in terms of the rows. */
  ghost predicate ReadMeans(d: Direct, op: Operation, answer: Answer) {
    match op
    case CountOp(item) => answer == CountAnswer(Ok(NumLikes(d.likes, item)))
    case CountsOp(items) => CountsMean(d, items, answer)
    case StatusOp(user, item) =>
      && answer.StatusAnswer? && answer.status.Ok?
      && StatusMeans(d, LikeKey(user, item), answer.status.value.Some?, answer.status.value)
    case StatusesOp(user, items) => StatusesMean(d, user, items, answer)
    case PageOp(user, filter, limit) => PageAnswerMeans(d, user, filter, None, limit, answer)
    case NextPageOp(user, filter, cursor, limit) =>
      if cursor.None? then answer == PageAnswer(Err(InvalidCursor))
      else PageAnswerMeans(d, user, filter, cursor, limit, answer)
    case _ => true
  }

  lemma CountedRows(d: Direct, item: Content)
    requires DirectOk(d)
    ensures Count(d.counts, item) == NumLikes(d.likes, item)
  {
    var s := State(d.likes, d.counts, [], d.nextId);
    assert Count(s.counts, item) == NumLikes(s.likes, item);
  }

  lemma CountsAnswerMeans(config: Config, d: Direct, items: seq<Content>)
    requires DirectOk(d)
    ensures CountsMean(d, items, DirectAnswer(config, d, CountsOp(items)))
  {
    forall item: Content {
      CountedRows(d, item);
    }
  }

  lemma PagesMean(config: Config, d: Direct, op: Operation)
    requires DirectOk(d) && (op.PageOp? || op.NextPageOp?)
    ensures ReadMeans(d, op, DirectAnswer(config, d, op))
  {
    UserRowsUnique(d.likes, op.user);
    var table := TableOf(d.likes, op.user);
    if op.PageOp? {
      DirectPageMeans(table, op.filter, None, op.limit);
    } else if op.cursor.Some? {
      DirectPageMeans(table, op.filter, op.cursor, op.limit);
    }
  }

  /** Every read of the service without a cache answers what its rows say. */
  lemma DirectReadMeans(config: Config, d: Direct, op: Operation)
    requires DirectOk(d) && !IsCommand(op)
    ensures ReadMeans(d, op, DirectAnswer(config, d, op))
  {
    match op
    case CountOp(item) => CountedRows(d, item);
    case CountsOp(items) => CountsAnswerMeans(config, d, items);
    case PageOp(_, _, _) => PagesMean(config, d, op);
    case NextPageOp(_, _, _, _) => PagesMean(config, d, op);
    case _ =>
  }
}
