/**
 The leaderboard: the refresh stores the top 50 of a table in a Redis sorted set, and a
 request reads the first k of that set.
 */
module Leaderboard {
  import opened Basics

  const LEADERBOARD_LIMIT := 50

  const TWO_53: nat := 0x20_0000_0000_0000

  /** What `get_leaderboard` orders: a count for each item of the table. */
  type Scores = map<Content, int>

  datatype Window = Day | Week | Month | All

  const WINDOWS := [Day, Week, Month, All]

  /** `rows` are a top-k of `scores`, whatever the order of ties. */
  ghost predicate IsTop<K(!new)>(scores: map<K, int>, k: int, rows: seq<(K, int)>) {
    && |rows| == Min(k, |scores|)
    && (forall i :: 0 <= i < |rows| ==> rows[i].0 in scores && rows[i].1 == scores[rows[i].0])
    && (forall i, j :: 0 <= i < j < |rows| ==> rows[i].0 != rows[j].0 && rows[i].1 >= rows[j].1)
    && (forall x, i :: x in scores && 0 <= i < |rows| && !Listed(rows, x) ==> scores[x] <= rows[i].1)
  }

  ghost predicate Listed<K(!new)>(rows: seq<(K, int)>, x: K) {
    exists i :: 0 <= i < |rows| && rows[i].0 == x
  }

  ghost predicate IsHighest<K(!new)>(scores: map<K, int>, x: K) {
    x in scores && forall y :: y in scores ==> scores[y] <= scores[x]
  }

  lemma {:induction false} HighestExists<K(!new)>(scores: map<K, int>, x: K)
    requires x in scores
    ensures exists high :: IsHighest(scores, high)
    decreases |scores|
  {
    if y :| y in scores && scores[y] > scores[x] {
      var rest := scores - {x};
      assert |rest| < |scores| by {
        assert rest.Keys == scores.Keys - {x};
        assert |rest.Keys| == |rest| && |scores.Keys| == |scores|;
      }
      HighestExists(rest, y);
      var high :| IsHighest(rest, high);
      assert y in rest && forall z :: z in scores ==> z == x || z in rest;
      assert IsHighest(scores, high);
    } else {
      assert IsHighest(scores, x);
    }
  }

  /** The highest rows have been taken, and `rest` remains. */
  ghost predicate Ranked<K(!new)>(scores: map<K, int>, rest: map<K, int>, rows: seq<(K, int)>) {
    && |rows| + |rest| == |scores|
    && (forall x :: x in rest ==> x in scores && rest[x] == scores[x])
    && (forall x :: x in scores ==> (x in rest <==> !Listed(rows, x)))
    && (forall i :: 0 <= i < |rows| ==> rows[i].0 in scores && rows[i].1 == scores[rows[i].0])
    && (forall i, j :: 0 <= i < j < |rows| ==> rows[i].0 != rows[j].0 && rows[i].1 >= rows[j].1)
    && (forall x, i :: x in rest && 0 <= i < |rows| ==> scores[x] <= rows[i].1)
  }

  lemma ListedNext<K(!new)>(rows: seq<(K, int)>, row: (K, int), y: K)
    ensures Listed(rows + [row], y) <==> Listed(rows, y) || y == row.0
  {
    assert (rows + [row])[|rows|] == row;
    if Listed(rows, y) {
      var i :| 0 <= i < |rows| && rows[i].0 == y;
      assert (rows + [row])[i].0 == y;
    }
  }

  lemma RemoveSize<K>(scores: map<K, int>, x: K)
    requires x in scores
    ensures |scores - {x}| == |scores| - 1
  {
    assert (scores - {x}).Keys == scores.Keys - {x};
    assert |(scores - {x}).Keys| == |scores - {x}| && |scores.Keys| == |scores|;
  }

  lemma RankNext<K(!new)>(scores: map<K, int>, rest: map<K, int>, rows: seq<(K, int)>, x: K)
    requires Ranked(scores, rest, rows) && IsHighest(rest, x)
    ensures Ranked(scores, rest - {x}, rows + [(x, rest[x])])
  {
    RemoveSize(rest, x);
    forall y: K {
      ListedNext(rows, (x, rest[x]), y);
    }
    forall i | 0 <= i < |rows| ensures rows[i].0 != x {
      assert Listed(rows, rows[i].0);
    }
  }

  lemma RankedIsTop<K(!new)>(scores: map<K, int>, rest: map<K, int>, rows: seq<(K, int)>, k: nat)
    requires Ranked(scores, rest, rows) && |rows| <= k && (|rows| < k ==> rest == map[])
    ensures IsTop(scores, k, rows)
  {
  }

  /** ORDER BY count DESC LIMIT k, and ZREVRANGE 0 (k - 1). */
  method TopOf<K(!new, ==)>(scores: map<K, int>, k: nat) returns (rows: seq<(K, int)>)
    ensures IsTop(scores, k, rows)
  {
    rows := [];
    var rest := scores;
    while |rows| < k && rest != map[]
      invariant |rows| <= k && Ranked(scores, rest, rows)
      decreases |rest|
    {
      var some :| some in rest;
      HighestExists(rest, some);
      var x :| x in rest && forall y :: y in rest ==> rest[y] <= rest[x];
      RankNext(scores, rest, rows, x);
      RemoveSize(rest, x);
      rows := rows + [(x, rest[x])];
      rest := rest - {x};
    }
    RankedIsTop(scores, rest, rows, k);
  }

  // ---------------------------------------------------------------- members of the set

  /** format!("{ct}:{cid}") */
  function MemberOf(item: Content): string {
    item.contentType + ":" + item.contentId
  }

  function Find(text: string, c: char): Option<nat> {
    if text == "" then None
    else if text[0] == c then Some(0)
    else
      var i := Find(text[1..], c);
      if i.Some? then Some(i.value + 1) else None
  }

  /** Uuid::parse_str, for the hyphenated form that members are written in. */
  function ParseUuid(text: string): Option<Uuid> {
    if |text| == 36 then Some(text) else None
  }

  function ParseLeaderboardMember(member: string, score: int): Option<(Content, int)> {
    var colon := Find(member, ':');
    if colon.None? || colon.value >= |member| then None
    else
      var id := ParseUuid(member[colon.value + 1..]);
      if id.Some? then Some((Content(member[..colon.value], id.value), score)) else None
  }

  lemma {:induction false} FindFirst(prefix: string, rest: string, c: char)
    ensures Find(prefix + [c] + rest, c).Some?
    ensures Find(prefix + [c] + rest, c).value <= |prefix|
    ensures Find(prefix + [c] + rest, c).value == |prefix| <==> c !in prefix
  {
    var text := prefix + [c] + rest;
    if prefix != [] {
      FindFirst(prefix[1..], rest, c);
      assert text[1..] == prefix[1..] + [c] + rest;
      assert prefix == [prefix[0]] + prefix[1..];
    }
  }

  /** A member is read back as the item it was written for exactly when the content type
      has no colon. */
  lemma MemberRoundTrip(item: Content, score: int)
    ensures ParseLeaderboardMember(MemberOf(item), score) == Some((item, score)) <==> ':' !in item.contentType
  {
    var member := MemberOf(item);
    FindFirst(item.contentType, item.contentId, ':');
    assert member == item.contentType + [':'] + item.contentId;
    if ':' !in item.contentType {
      assert member[|item.contentType| + 1..] == item.contentId;
      assert member[..|item.contentType|] == item.contentType;
    }
  }

  /** Members never collide: the id has a fixed length. */
  lemma MemberInjective(a: Content, b: Content)
    requires MemberOf(a) == MemberOf(b)
    ensures a == b
  {
    var m, n := MemberOf(a), |MemberOf(a)|;
    assert m[n - 36..] == a.contentId && m[n - 36..] == b.contentId;
    assert m[..n - 37] == a.contentType && m[..n - 37] == b.contentType;
  }

  // ---------------------------------------------------------------- scores as doubles

  /** Powers of two to divide by until 53 bits are left. */
  function Excess(n: nat): (unit: nat)
    ensures unit >= 1
  {
    if n < TWO_53 then 1 else 2 * Excess(n / 2)
  }

  /** `n as f64`, rounded half to even (IEEE 754, section 4.3.1): the multiple of the unit
      below, or the one above. */
  function AsF64(n: nat): int {
    var unit := Excess(n);
    var quotient, remainder := n / unit, n % unit;
    if 2 * remainder > unit || (2 * remainder == unit && quotient % 2 == 1)
    then n - remainder + unit else n - remainder
  }

  function Pow2(e: nat): (p: nat)
    ensures p >= 1
  {
    if e == 0 then 1 else 2 * Pow2(e - 1)
  }

  predicate Scaled(n: nat, m: nat, e: nat) {
    m < TWO_53 && n == m * Pow2(e)
  }

  /** At most 53 significant bits. */
  ghost predicate Has53Bits(n: nat) {
    exists m: nat, e: nat :: Scaled(n, m, e)
  }

  lemma DoubleRight(a: nat, b: nat)
    ensures a * (2 * b) == 2 * (a * b)
  {
  }

  lemma {:induction false} ExcessDivides(n: nat, m: nat, e: nat) returns (q: nat)
    requires Scaled(n, m, e)
    ensures n == q * Excess(n)
    decreases e
  {
    if n < TWO_53 {
      q := n;
    } else {
      DoubleRight(m, Pow2(e - 1));
      q := ExcessDivides(n / 2, m, e - 1);
      DoubleRight(q, Excess(n / 2));
    }
  }

  lemma {:induction false} ExcessIsPower(n: nat) returns (e: nat)
    ensures Excess(n) == Pow2(e) && n / Excess(n) < TWO_53
  {
    if n < TWO_53 {
      e := 0;
    } else {
      var half := ExcessIsPower(n / 2);
      e := half + 1;
      HalvingTwice(n, Excess(n / 2));
    }
  }

  lemma HalvingTwice(n: nat, unit: nat)
    requires unit >= 1
    ensures n / (2 * unit) == n / 2 / unit
  {
    var q := n / 2 / unit;
    assert n / 2 == unit * q + n / 2 % unit;
    assert n == 2 * unit * q + (2 * (n / 2 % unit) + n % 2);
    UniqueQuotient(n, 2 * unit, q, 2 * (n / 2 % unit) + n % 2);
  }

  lemma UniqueQuotient(n: nat, d: nat, q: nat, r: nat)
    requires d >= 1 && n == d * q + r && r < d
    ensures n / d == q
  {
    var other := n / d;
    assert n == d * other + n % d;
    ProductGrows(d, other + 1, q);
    ProductGrows(d, q + 1, other);
  }

  lemma ProductGrows(d: nat, a: nat, b: nat)
    ensures a <= b ==> d * a <= d * b
  {
  }

  lemma DivisionParts(n: nat, unit: nat)
    requires unit >= 1
    ensures n == unit * (n / unit) + n % unit && n % unit < unit
  {
  }

  /** Rounding changes a number exactly if there is a remainder to round away. */
  lemma ExactWithoutRemainder(n: nat)
    ensures AsF64(n) == n <==> n % Excess(n) == 0
  {
    DivisionParts(n, Excess(n));
  }

  lemma NoRemainderIff(n: nat)
    ensures n % Excess(n) == 0 <==> Has53Bits(n)
  {
    var unit := Excess(n);
    DivisionParts(n, unit);
    var e := ExcessIsPower(n);
    if n % unit == 0 {
      assert Scaled(n, n / unit, e);
    } else if m: nat, f: nat :| Scaled(n, m, f) {
      var q := ExcessDivides(n, m, f);
      UniqueQuotient(n, unit, q, 0);
    }
  }

  /** A count survives `as f64` if and only if it has at most 53 significant bits. */
  lemma ExactIff(n: nat)
    ensures AsF64(n) == n <==> Has53Bits(n)
  {
    ExactWithoutRemainder(n);
    NoRemainderIff(n);
  }

  lemma {:induction false} ExcessLeaves52Bits(n: nat)
    requires n >= TWO_53
    ensures n / Excess(n) >= 0x10_0000_0000_0000
  {
    HalvingTwice(n, Excess(n / 2));
    if n / 2 >= TWO_53 {
      ExcessLeaves52Bits(n / 2);
    }
  }

  lemma OneUnitMore(q: nat, unit: nat, n: nat, r: nat)
    requires n == unit * q + r
    ensures n - r == q * unit && n - r + unit == (q + 1) * unit
  {
  }

  /** `x` is n rounded to m units, halves to the even number of units. */
  predicate HalfEven(n: nat, x: int, unit: nat, m: nat) {
    && 2 * (x - n) <= unit && 2 * (n - x) <= unit
    && (2 * (x - n) == unit || 2 * (n - x) == unit ==> m % 2 == 0)
  }

  lemma RoundsHalfEven(n: nat) returns (m: nat)
    ensures AsF64(n) == m * Excess(n) && n / Excess(n) <= m <= n / Excess(n) + 1
    ensures HalfEven(n, AsF64(n), Excess(n), m)
  {
    var unit := Excess(n);
    var quotient, remainder := n / unit, n % unit;
    DivisionParts(n, unit);
    OneUnitMore(quotient, unit, n, remainder);
    m := if AsF64(n) > n then quotient + 1 else quotient;
  }

  lemma ExcessOfSmall(n: nat, e: nat)
    requires n < TWO_53 && Excess(n) == Pow2(e)
    ensures e == 0
  {
  }

  /** `as f64` gives a nearest number of 53 significant bits, and of two the even one. */
  lemma NearestDouble(n: nat) returns (m: nat, e: nat)
    ensures AsF64(n) == m * Pow2(e) && m <= 0x20_0000_0000_0000
    ensures n < 0x20_0000_0000_0000 ==> e == 0
    ensures n >= 0x20_0000_0000_0000 ==> m >= 0x10_0000_0000_0000
    ensures HalfEven(n, AsF64(n), Pow2(e), m)
  {
    e := ExcessIsPower(n);
    m := RoundsHalfEven(n);
    if n >= TWO_53 {
      ExcessLeaves52Bits(n);
    } else {
      ExcessOfSmall(n, e);
    }
  }

  lemma SmallCountsAreExact(n: nat)
    requires n < TWO_53
    ensures AsF64(n) == n && Has53Bits(n)
  {
    ExactIff(n);
    assert Scaled(n, n, 0);
  }

  /** Premises on a table: every content type is colon-free, and every count survives as a
      double, as all counts below 2^53 do. */
  ghost predicate Clean(scores: Scores) {
    forall item :: item in scores ==> ':' !in item.contentType && 0 <= scores[item] && Has53Bits(scores[item])
  }

  /** In particular every table of colon-free types with counts below 2^53. */
  lemma SmallTableIsClean(scores: Scores)
    requires forall item :: item in scores ==> ':' !in item.contentType && 0 <= scores[item] < TWO_53
    ensures Clean(scores)
  {
    forall item | item in scores ensures Has53Bits(scores[item]) {
      SmallCountsAreExact(scores[item]);
    }
  }

  // ---------------------------------------------------------------- refresh and read

  /** The sorted set holds a top 50 of the table. */
  ghost predicate HoldsTop(zset: map<string, int>, scores: Scores) {
    && |zset| == Min(LEADERBOARD_LIMIT, |scores|)
    && (forall m :: m in zset ==> exists item :: item in scores && m == MemberOf(item) && zset[m] == scores[item])
    && (forall item, m :: item in scores && MemberOf(item) !in zset && m in zset ==> scores[item] <= zset[m])
  }

  /** filter_map(parse_leaderboard_member) */
  function Decode(rows: seq<(string, int)>): seq<(Content, int)> {
    if rows == [] then []
    else
      var n := |rows| - 1;
      var last := ParseLeaderboardMember(rows[n].0, rows[n].1);
      Decode(rows[..n]) + if last.Some? then [last.value] else []
  }

  lemma {:induction false} DecodeAll(rows: seq<(string, int)>)
    requires forall i :: 0 <= i < |rows| ==> ParseLeaderboardMember(rows[i].0, rows[i].1).Some?
    ensures |Decode(rows)| == |rows|
    ensures forall i :: 0 <= i < |rows| ==>
      ParseLeaderboardMember(rows[i].0, rows[i].1) == Some(Decode(rows)[i])
  {
    if rows != [] {
      DecodeAll(rows[..|rows| - 1]);
    }
  }

  lemma DecodedRow(zset: map<string, int>, scores: Scores, k: int, out: seq<(string, int)>, i: nat)
      returns (item: Content)
    requires HoldsTop(zset, scores) && Clean(scores) && IsTop(zset, k, out) && i < |out|
    ensures item in scores && out[i] == (MemberOf(item), scores[item])
    ensures ParseLeaderboardMember(out[i].0, out[i].1) == Some((item, scores[item]))
  {
    item :| item in scores && out[i].0 == MemberOf(item) && zset[out[i].0] == scores[item];
    MemberRoundTrip(item, scores[item]);
  }

  ghost predicate ReadsBack(scores: Scores, out: seq<(string, int)>, rows: seq<(Content, int)>) {
    |rows| == |out| && forall i :: 0 <= i < |rows| ==>
      rows[i].0 in scores && rows[i].1 == scores[rows[i].0] && out[i] == (MemberOf(rows[i].0), rows[i].1)
  }

  lemma DecodeReadsBack(zset: map<string, int>, scores: Scores, k: int, out: seq<(string, int)>)
    requires HoldsTop(zset, scores) && Clean(scores) && IsTop(zset, k, out)
    ensures ReadsBack(scores, out, Decode(out))
  {
    forall i | 0 <= i < |out| ensures ParseLeaderboardMember(out[i].0, out[i].1).Some? {
      var item := DecodedRow(zset, scores, k, out, i);
    }
    DecodeAll(out);
    var rows := Decode(out);
    forall i | 0 <= i < |rows|
      ensures rows[i].0 in scores && rows[i].1 == scores[rows[i].0]
      ensures out[i] == (MemberOf(rows[i].0), rows[i].1)
    {
      var item := DecodedRow(zset, scores, k, out, i);
    }
  }

  lemma OmittedIsLower(zset: map<string, int>, scores: Scores, k: int,
                       out: seq<(string, int)>, rows: seq<(Content, int)>, item: Content, i: nat)
    requires HoldsTop(zset, scores) && IsTop(zset, k, out) && ReadsBack(scores, out, rows)
    requires item in scores && i < |rows| && !Listed(rows, item)
    ensures scores[item] <= rows[i].1
  {
    NotListed(out, rows, item);
    assert out[i].0 in zset;
    if MemberOf(item) in zset {
      var same :| same in scores && MemberOf(item) == MemberOf(same) && zset[MemberOf(item)] == scores[same];
      MemberInjective(item, same);
    }
  }

  lemma OrderReadsBack(scores: Scores, out: seq<(string, int)>, rows: seq<(Content, int)>)
    requires ReadsBack(scores, out, rows)
    requires forall i, j :: 0 <= i < j < |out| ==> out[i].0 != out[j].0 && out[i].1 >= out[j].1
    ensures forall i, j :: 0 <= i < j < |rows| ==> rows[i].0 != rows[j].0 && rows[i].1 >= rows[j].1
  {
    forall i, j | 0 <= i < j < |rows| ensures rows[i].0 != rows[j].0 && rows[i].1 >= rows[j].1 {
      assert out[i].0 != out[j].0 && out[i].1 >= out[j].1;
    }
  }

  /** The first k of a top 50 are a top k, whatever the tie order of either. */
  lemma TopOfTop(zset: map<string, int>, scores: Scores, k: int, out: seq<(string, int)>)
    requires HoldsTop(zset, scores) && Clean(scores)
    requires 0 <= k <= LEADERBOARD_LIMIT && IsTop(zset, k, out)
    ensures IsTop(scores, k, Decode(out))
  {
    var rows := Decode(out);
    DecodeReadsBack(zset, scores, k, out);
    OrderReadsBack(scores, out, rows);
    forall item, i | item in scores && 0 <= i < |rows| && !Listed(rows, item)
      ensures scores[item] <= rows[i].1
    {
      OmittedIsLower(zset, scores, k, out, rows, item, i);
    }
  }

  lemma NotListed(out: seq<(string, int)>, rows: seq<(Content, int)>, item: Content)
    requires |out| == |rows| && forall i :: 0 <= i < |rows| ==> out[i].0 == MemberOf(rows[i].0)
    requires !Listed(rows, item)
    ensures !Listed(out, MemberOf(item))
  {
    if i :| 0 <= i < |out| && out[i].0 == MemberOf(item) {
      MemberInjective(rows[i].0, item);
      assert false;
    }
  }

  /** The members of the rows that a refresh writes. */
  ghost predicate Written(rows: seq<(Content, int)>, n: nat, zset: map<string, int>)
    requires n <= |rows|
  {
    && |zset| == n
    && (forall i :: 0 <= i < n ==> MemberOf(rows[i].0) in zset && zset[MemberOf(rows[i].0)] == rows[i].1)
    && (forall m :: m in zset ==> exists i :: 0 <= i < n && m == MemberOf(rows[i].0))
  }

  lemma MembersDiffer(rows: seq<(Content, int)>, n: nat)
    requires n < |rows| && forall i :: 0 <= i < n ==> rows[i].0 != rows[n].0
    ensures forall i :: 0 <= i < n ==> MemberOf(rows[i].0) != MemberOf(rows[n].0)
  {
    forall i | 0 <= i < n ensures MemberOf(rows[i].0) != MemberOf(rows[n].0) {
      if MemberOf(rows[i].0) == MemberOf(rows[n].0) {
        MemberInjective(rows[i].0, rows[n].0);
      }
    }
  }

  lemma WrittenNext(rows: seq<(Content, int)>, n: nat, zset: map<string, int>)
    requires n < |rows| && Written(rows, n, zset)
    requires forall i :: 0 <= i < n ==> rows[i].0 != rows[n].0
    ensures Written(rows, n + 1, zset[MemberOf(rows[n].0) := rows[n].1])
  {
    MembersDiffer(rows, n);
    assert MemberOf(rows[n].0) !in zset;
  }

  lemma WrittenHoldsTop(scores: Scores, rows: seq<(Content, int)>, zset: map<string, int>)
    requires IsTop(scores, LEADERBOARD_LIMIT, rows) && Written(rows, |rows|, zset)
    ensures HoldsTop(zset, scores)
  {
    forall item, m | item in scores && MemberOf(item) !in zset && m in zset ensures scores[item] <= zset[m] {
      var i :| 0 <= i < |rows| && m == MemberOf(rows[i].0);
      assert !Listed(rows, item);
    }
  }

  /** The sorted sets in Redis, and the L1 copies of the ranges read from them. */
  datatype Boards = Boards(zsets: map<Window, map<string, int>>, l1: map<(Window, int), seq<(string, int)>>)

  /** L1 without these ranges of a window. */
  function Without(l1: map<(Window, int), seq<(string, int)>>, w: Window, dropped: set<(Window, int)>):
    map<(Window, int), seq<(string, int)>>
  {
    map range | range in l1 && !(range.0 == w && range in dropped) :: l1[range]
  }

  function StoredSet(zsets: map<Window, map<string, int>>, w: Window): Option<map<string, int>> {
    if w in zsets then Some(zsets[w]) else None
  }

  /** The stored set is a top 50 of this table. */
  ghost predicate Current(zset: Option<map<string, int>>, scores: Scores) {
    zset.Some? && HoldsTop(zset.value, scores)
  }

  /** Of the windows that are done, those with a table hold it if Redis is reachable, and the
      best-effort copies of theirs are gone; everything else is as before. */
  ghost predicate Refreshed(before: Boards, after: Boards, queried: map<Window, Scores>,
                            dropped: set<(Window, int)>, done: set<Window>, written: set<Window>)
  {
    && (forall w :: w in done && w in queried && w in written ==> Current(StoredSet(after.zsets, w), queried[w]))
    && (forall w :: !(w in done && w in queried && w in written) ==>
          StoredSet(after.zsets, w) == StoredSet(before.zsets, w))
    && (forall range :: range in after.l1 <==>
          range in before.l1 && !(range.0 in done && range.0 in queried && range in dropped))
    && (forall range :: range in after.l1 ==> after.l1[range] == before.l1[range])
  }

  lemma RefreshedNext(before: Boards, mid: Boards, after: Boards, queried: map<Window, Scores>,
                      dropped: set<(Window, int)>, done: set<Window>, written: set<Window>, w: Window)
    requires Refreshed(before, mid, queried, dropped, done, written) && w in queried && w !in done
    requires w in written ==> Current(StoredSet(after.zsets, w), queried[w])
    requires forall v :: v != w || w !in written ==> StoredSet(after.zsets, v) == StoredSet(mid.zsets, v)
    requires after.l1 == Without(mid.l1, w, dropped)
    ensures Refreshed(before, after, queried, dropped, done + {w}, written)
  {
  }

  lemma DistinctWindows(i: nat)
    requires i < |WINDOWS|
    ensures WINDOWS[i] !in WINDOWS[..i]
  {
    assert WINDOWS[0] == Day && WINDOWS[1] == Week && WINDOWS[2] == Month && WINDOWS[3] == All;
  }

  lemma AllDone(done: set<Window>)
    requires forall w :: w in done <==> w in WINDOWS[..|WINDOWS|]
    ensures done == {Day, Week, Month, All}
  {
    assert WINDOWS[0] == Day && WINDOWS[1] == Week && WINDOWS[2] == Month && WINDOWS[3] == All;
    assert Day in WINDOWS && Week in WINDOWS && Month in WINDOWS && All in WINDOWS;
    assert WINDOWS[..|WINDOWS|] == WINDOWS;
    forall w: Window ensures w in done {
      match w case Day => case Week => case Month => case All =>
    }
  }

  /** Build the member/score pairs for ZADD. */
  method BuildMembers(scores: Scores, rows: seq<(Content, int)>) returns (members: map<string, int>)
    requires Clean(scores) && IsTop(scores, LEADERBOARD_LIMIT, rows)
    ensures HoldsTop(members, scores)
  {
    members := map[];
    for i := 0 to |rows|
      invariant Written(rows, i, members)
    {
      WrittenNext(rows, i, members);
      ExactIff(rows[i].1);
      members := members[MemberOf(rows[i].0) := AsF64(rows[i].1)];
    }
    WrittenHoldsTop(scores, rows, members);
  }

  // ---------------------------------------------------------------- steps and runs

  datatype Op =
    // a cycle of the refresh task, with the table of each window whose query succeeds, the L1
    // copies that its invalidations drop, and the windows whose write to Redis succeeds
    | Refresh(queried: map<Window, Scores>, dropped: set<(Window, int)>, written: set<Window>)
    // a request; `scores` is the table as the database has it now
    | Read(window: Window, limit: int, scores: Scores, redisUp: bool)
    // copies in L1 expire, or Redis loses sets
    | Lose(ranges: set<(Window, int)>, windows: set<Window>)

  function LimitOf(op: Op): (k: int)
    requires op.Read?
    ensures 1 <= k <= 50 && (op.limit < 1 ==> k == 1) && (op.limit > 50 ==> k == 50)
    ensures 1 <= op.limit <= 50 ==> k == op.limit
  {
    Clamp(op.limit, 1, LEADERBOARD_LIMIT)
  }

  /** The answer comes from the L1 copy, else from the stored set if Redis has a non-empty one,
      which is copied to L1, else from the database. */
  ghost predicate ReadStep(b: Boards, op: Op, items: seq<(Content, int)>, b': Boards)
    requires op.Read?
  {
    var range := (op.window, LimitOf(op));
    if range in b.l1 && b.l1[range] != [] then items == Decode(b.l1[range]) && b' == b
    else if range !in b.l1 && op.redisUp && op.window in b.zsets && b.zsets[op.window] != map[] then
      exists rows :: IsTop(b.zsets[op.window], LimitOf(op), rows) && items == Decode(rows)
                     && b' == Boards(b.zsets, b.l1[range := rows])
    else IsTop(op.scores, LimitOf(op), items) && b' == b
  }

  ghost predicate BoardStep(b: Boards, op: Op, items: seq<(Content, int)>, b': Boards) {
    match op
    case Refresh(queried, dropped, written) =>
      Refreshed(b, b', queried, dropped, {Day, Week, Month, All}, written)
    case Read(_, _, _, _) => ReadStep(b, op, items, b')
    case Lose(ranges, windows) => b' == Boards(b.zsets - windows, b.l1 - ranges)
  }

  ghost predicate CleanOp(op: Op) {
    op.Refresh? ==> forall w :: w in op.queried ==> Clean(op.queried[w])
  }

  ghost predicate IsBoardRun(boards: seq<Boards>, ops: seq<Op>, answers: seq<seq<(Content, int)>>) {
    && |boards| == |ops| + 1 && |answers| == |ops|
    && boards[0] == Boards(map[], map[])
    && (forall i :: 0 <= i < |ops| ==> CleanOp(ops[i]) && BoardStep(boards[i], ops[i], answers[i], boards[i + 1]))
  }

  /** The table of the last cycle that stored a set for the window, unless Redis lost it. */
  function Latest(ops: seq<Op>, n: nat, w: Window): Option<Scores>
    requires n <= |ops|
  {
    if n == 0 then None
    else
      var op := ops[n - 1];
      if op.Refresh? && w in op.written && w in op.queried then Some(op.queried[w])
      else if op.Lose? && w in op.windows then None
      else Latest(ops, n - 1, w)
  }

  /** Event p took the copy of the range that L1 still has before event n. */
  ghost predicate CopiedAt(boards: seq<Boards>, ops: seq<Op>, p: nat, n: nat, range: (Window, int))
    requires n <= |ops| < |boards|
  {
    && p < n && ops[p].Read? && ops[p].window == range.0 && LimitOf(ops[p]) == range.1 && ops[p].redisUp
    && range !in boards[p].l1 && forall m :: p < m <= n ==> range in boards[m].l1
  }

  /** A table whose set answers for it. */
  predicate Stored(latest: Option<Scores>) {
    latest.Some? && latest.value != map[]
  }

  /** A copy of a top k of the table that was stored when it was taken. */
  ghost predicate CopyOk(boards: seq<Boards>, ops: seq<Op>, p: nat, n: nat, range: (Window, int),
                         rows: seq<(string, int)>)
    requires n <= |ops| < |boards|
  {
    && CopiedAt(boards, ops, p, n, range) && rows != []
    && Stored(Latest(ops, p, range.0)) && IsTop(Latest(ops, p, range.0).value, range.1, Decode(rows))
  }

  ghost predicate SetOk(zset: Option<map<string, int>>, latest: Option<Scores>) {
    && (zset.Some? <==> latest.Some?)
    && (zset.Some? ==> Clean(latest.value) && HoldsTop(zset.value, latest.value))
  }

  ghost predicate BoardsOk(boards: seq<Boards>, ops: seq<Op>, n: nat)
    requires n <= |ops| < |boards|
  {
    && (forall w :: SetOk(StoredSet(boards[n].zsets, w), Latest(ops, n, w)))
    && (forall range :: range in boards[n].l1 ==>
          exists p :: CopyOk(boards, ops, p, n, range, boards[n].l1[range]))
  }

  lemma StoredAfter(b: Boards, b': Boards, op: Op, items: seq<(Content, int)>, w: Window)
    requires BoardStep(b, op, items, b')
    ensures
      if op.Refresh? && w in op.written && w in op.queried then Current(StoredSet(b'.zsets, w), op.queried[w])
      else if op.Lose? && w in op.windows then StoredSet(b'.zsets, w) == None
      else StoredSet(b'.zsets, w) == StoredSet(b.zsets, w)
  {
    assert w in {Day, Week, Month, All};
  }

  lemma SetsStayOk(b: Boards, b': Boards, ops: seq<Op>, n: nat, items: seq<(Content, int)>, w: Window)
    requires n < |ops| && SetOk(StoredSet(b.zsets, w), Latest(ops, n, w))
    requires CleanOp(ops[n]) && BoardStep(b, ops[n], items, b')
    ensures SetOk(StoredSet(b'.zsets, w), Latest(ops, n + 1, w))
  {
    StoredAfter(b, b', ops[n], items, w);
  }

  /** What a step leaves in L1 was there, and was not dropped, or is the copy it takes. */
  lemma CopiesKept(b: Boards, b': Boards, op: Op, items: seq<(Content, int)>, range: (Window, int))
    requires BoardStep(b, op, items, b') && range in b'.l1
    ensures
      || (range in b.l1 && b'.l1[range] == b.l1[range] && !(op.Lose? && range in op.ranges))
      || (op.Read? && op.redisUp && op.window == range.0 && LimitOf(op) == range.1
          && range !in b.l1 && op.window in b.zsets && b.zsets[op.window] != map[]
          && IsTop(b.zsets[op.window], range.1, b'.l1[range]))
  {
  }

  lemma CopyStays(boards: seq<Boards>, ops: seq<Op>, p: nat, n: nat, range: (Window, int),
                  rows: seq<(string, int)>)
    requires n < |ops| < |boards| && CopyOk(boards, ops, p, n, range, rows) && range in boards[n + 1].l1
    ensures CopyOk(boards, ops, p, n + 1, range, rows)
  {
  }

  /** Rows read from a stored set are a top k of the table it was made from. */
  lemma SetServes(zset: map<string, int>, latest: Option<Scores>, k: int, rows: seq<(string, int)>)
    requires SetOk(Some(zset), latest) && zset != map[] && 1 <= k <= LEADERBOARD_LIMIT && IsTop(zset, k, rows)
    ensures Stored(latest) && rows != [] && IsTop(latest.value, k, Decode(rows))
  {
    TopOfTop(zset, latest.value, k, rows);
  }

  lemma CopyTaken(boards: seq<Boards>, ops: seq<Op>, n: nat, range: (Window, int), rows: seq<(string, int)>)
    requires n < |ops| < |boards| && ops[n].Read? && ops[n].redisUp && range == (ops[n].window, LimitOf(ops[n]))
    requires SetOk(StoredSet(boards[n].zsets, range.0), Latest(ops, n, range.0))
    requires range.0 in boards[n].zsets && boards[n].zsets[range.0] != map[]
    requires range !in boards[n].l1 && range in boards[n + 1].l1 && IsTop(boards[n].zsets[range.0], range.1, rows)
    ensures CopyOk(boards, ops, n, n + 1, range, rows)
  {
    SetServes(boards[n].zsets[range.0], Latest(ops, n, range.0), range.1, rows);
  }

  lemma CopiesStayOk(boards: seq<Boards>, ops: seq<Op>, n: nat, items: seq<(Content, int)>, range: (Window, int))
      returns (p: nat)
    requires n < |ops| < |boards| && BoardsOk(boards, ops, n)
    requires BoardStep(boards[n], ops[n], items, boards[n + 1]) && range in boards[n + 1].l1
    ensures CopyOk(boards, ops, p, n + 1, range, boards[n + 1].l1[range])
  {
    var b, b' := boards[n], boards[n + 1];
    CopiesKept(b, b', ops[n], items, range);
    if range in b.l1 {
      p :| CopyOk(boards, ops, p, n, range, b.l1[range]);
      CopyStays(boards, ops, p, n, range, b.l1[range]);
    } else {
      p := n;
      assert range == (ops[n].window, LimitOf(ops[n]));
      CopyTaken(boards, ops, n, range, b'.l1[range]);
    }
  }

  lemma {:induction false} AlwaysOk(boards: seq<Boards>, ops: seq<Op>, answers: seq<seq<(Content, int)>>, n: nat)
    requires IsBoardRun(boards, ops, answers) && n <= |ops|
    ensures BoardsOk(boards, ops, n)
  {
    if n > 0 {
      var m := n - 1;
      AlwaysOk(boards, ops, answers, m);
      assert CleanOp(ops[m]) && BoardStep(boards[m], ops[m], answers[m], boards[n]);
      forall w: Window ensures SetOk(StoredSet(boards[n].zsets, w), Latest(ops, n, w)) {
        SetsStayOk(boards[m], boards[n], ops, m, answers[m], w);
      }
      forall range | range in boards[n].l1
        ensures exists p :: CopyOk(boards, ops, p, n, range, boards[n].l1[range])
      {
        var p := CopiesStayOk(boards, ops, m, answers[m], range);
      }
    }
  }

  /** A request without a copy in L1. */
  lemma FreshAnswer(b: Boards, b': Boards, ops: seq<Op>, i: nat, items: seq<(Content, int)>)
    requires i < |ops| && ops[i].Read? && ReadStep(b, ops[i], items, b')
    requires SetOk(StoredSet(b.zsets, ops[i].window), Latest(ops, i, ops[i].window))
    requires (ops[i].window, LimitOf(ops[i])) !in b.l1
    ensures var latest := Latest(ops, i, ops[i].window);
      if ops[i].redisUp && Stored(latest) then IsTop(latest.value, LimitOf(ops[i]), items)
      else IsTop(ops[i].scores, LimitOf(ops[i]), items)
  {
    var op := ops[i];
    if op.redisUp && op.window in b.zsets && b.zsets[op.window] != map[] {
      var rows :| IsTop(b.zsets[op.window], LimitOf(op), rows) && items == Decode(rows)
                  && b' == Boards(b.zsets, b.l1[(op.window, LimitOf(op)) := rows]);
      SetServes(b.zsets[op.window], Latest(ops, i, op.window), LimitOf(op), rows);
    }
  }

  /** What request i of any run is answered. With p == i, and Redis reachable, it is a true top
      k of the table that the latest cycle stored, or of the table now if there is none; with
      p < i, of the table that was the latest when request p for the same k took the copy that
      L1 has kept since. */
  lemma AnswerIsTop(boards: seq<Boards>, ops: seq<Op>, answers: seq<seq<(Content, int)>>, i: nat) returns (p: nat)
    requires IsBoardRun(boards, ops, answers) && i < |ops| && ops[i].Read?
    ensures p <= i && (p < i <==> (ops[i].window, LimitOf(ops[i])) in boards[i].l1)
    ensures p < i ==> CopiedAt(boards, ops, p, i, (ops[i].window, LimitOf(ops[i])))
    ensures var latest := Latest(ops, p, ops[i].window);
      if p < i || (ops[i].redisUp && Stored(latest))
      then Stored(latest) && IsTop(latest.value, LimitOf(ops[i]), answers[i])
      else IsTop(ops[i].scores, LimitOf(ops[i]), answers[i])
  {
    var range := (ops[i].window, LimitOf(ops[i]));
    AlwaysOk(boards, ops, answers, i);
    assert BoardStep(boards[i], ops[i], answers[i], boards[i + 1]);
    if range in boards[i].l1 {
      p :| CopyOk(boards, ops, p, i, range, boards[i].l1[range]);
    } else {
      p := i;
      FreshAnswer(boards[i], boards[i + 1], ops, i, answers[i]);
    }
  }

  /** The leaderboards of one process. */
  class Leaderboards {
    var zsets: map<Window, map<string, int>>
    var l1: map<(Window, int), seq<(string, int)>>

    function Value(): Boards
      reads this
    {
      Boards(zsets, l1)
    }

    constructor ()
      ensures Value() == Boards(map[], map[])
    {
      zsets, l1 := map[], map[];
    }

    /** DEL then ZADD in one transaction; the L1 ranges are dropped on a best-effort basis. */
    method ReplaceSortedSet(w: Window, members: map<string, int>, dropped: set<(Window, int)>, redisUp: bool)
      modifies this
      ensures zsets == (if redisUp then old(zsets)[w := members] else old(zsets))
      ensures l1 == Without(old(l1), w, dropped)
    {
      l1 := Without(l1, w, dropped);
      if redisUp {
        zsets := zsets[w := members];
      }
    }

    /** Refresh one window from the table as it is now. */
    method RefreshWindow(w: Window, scores: Scores, dropped: set<(Window, int)>, redisUp: bool)
      requires Clean(scores)
      modifies this
      ensures redisUp ==> Current(StoredSet(zsets, w), scores)
      ensures forall v :: v != w || !redisUp ==> StoredSet(zsets, v) == StoredSet(old(zsets), v)
      ensures l1 == Without(old(l1), w, dropped)
    {
      var rows := TopOf(scores, LEADERBOARD_LIMIT);
      var members := BuildMembers(scores, rows);
      ReplaceSortedSet(w, members, dropped, redisUp);
    }

    /** One cycle over the four windows: `queried` has the table of each window whose query
        succeeds, and a write may fail for some windows only. */
    method RefreshAllWindows(queried: map<Window, Scores>, dropped: set<(Window, int)>, written: set<Window>)
      requires forall w :: w in queried ==> Clean(queried[w])
      modifies this
      ensures Refreshed(old(Value()), Value(), queried, dropped, {Day, Week, Month, All}, written)
    {
      ghost var before := Value();
      ghost var done: set<Window> := {};
      for i := 0 to |WINDOWS|
        invariant forall w :: w in done <==> w in WINDOWS[..i]
        invariant Refreshed(before, Value(), queried, dropped, done, written)
      {
        var window := WINDOWS[i];
        DistinctWindows(i);
        if window in queried {
          ghost var mid := Value();
          RefreshWindow(window, queried[window], dropped, window in written);
          RefreshedNext(before, mid, Value(), queried, dropped, done, written, window);
        }
        done := done + {window};
      }
      AllDone(done);
    }

    /** ZREVRANGE 0 (k - 1) WITHSCORES */
    method ReadRange(w: Window, k: int, redisUp: bool) returns (rows: seq<(string, int)>)
      requires 1 <= k <= LEADERBOARD_LIMIT
      ensures if redisUp && w in zsets then IsTop(zsets[w], k, rows) else rows == []
    {
      if !redisUp || w !in zsets {
        return [];
      }
      rows := TopOf(zsets[w], k);
    }

    /** L1 first, then Redis; a non-empty answer of Redis is copied to L1. */
    method ZRevRange(w: Window, k: int, redisUp: bool) returns (rows: seq<(string, int)>)
      requires 1 <= k <= LEADERBOARD_LIMIT
      modifies this`l1
      ensures (w, k) in old(l1) ==> rows == old(l1)[(w, k)] && l1 == old(l1)
      ensures (w, k) !in old(l1) ==> if redisUp && w in zsets then IsTop(zsets[w], k, rows) else rows == []
      ensures (w, k) !in old(l1) ==> l1 == if rows == [] then old(l1) else old(l1)[(w, k) := rows]
    {
      if (w, k) in l1 {
        rows := l1[(w, k)];
      } else {
        rows := ReadRange(w, k, redisUp);
        if rows != [] {
          l1 := l1[(w, k) := rows];
        }
      }
    }

    /** The unfiltered leaderboard; `scores` is the table as the database has it now. */
    method GetLeaderboard(w: Window, limit: int, scores: Scores, redisUp: bool) returns (items: seq<(Content, int)>)
      modifies this`l1
      ensures ReadStep(old(Value()), Read(w, limit, scores, redisUp), items, Value())
    {
      var k := Clamp(limit, 1, LEADERBOARD_LIMIT);
      var cached := ZRevRange(w, k, redisUp);
      if cached != [] {
        return Decode(cached);
      }
      items := TopOf(scores, k);
    }

    /** Expiry and eviction. */
    method Forget(ranges: set<(Window, int)>, windows: set<Window>)
      modifies this
      ensures Value() == Boards(old(zsets) - windows, old(l1) - ranges)
    {
      zsets, l1 := zsets - windows, l1 - ranges;
    }

    method Execute(op: Op) returns (items: seq<(Content, int)>)
      requires CleanOp(op)
      modifies this
      ensures BoardStep(old(Value()), op, items, Value())
    {
      items := [];
      match op {
        case Refresh(queried, dropped, written) => RefreshAllWindows(queried, dropped, written);
        case Read(w, limit, scores, redisUp) => items := GetLeaderboard(w, limit, scores, redisUp);
        case Lose(ranges, windows) => Forget(ranges, windows);
      }
    }
  }

  lemma RunGrows(boards: seq<Boards>, ops: seq<Op>, answers: seq<seq<(Content, int)>>,
                 op: Op, items: seq<(Content, int)>, b: Boards)
    requires IsBoardRun(boards, ops, answers) && CleanOp(op) && BoardStep(boards[|ops|], op, items, b)
    ensures IsBoardRun(boards + [b], ops + [op], answers + [items])
  {
  }

  /** Refreshes, requests and expiry one after another, from an empty cache, are such a run. */
  method Serve(ops: seq<Op>) returns (answers: seq<seq<(Content, int)>>, ghost boards: seq<Boards>)
    requires forall op :: op in ops ==> CleanOp(op)
    ensures IsBoardRun(boards, ops, answers)
  {
    var leaderboards := new Leaderboards();
    answers, boards := [], [leaderboards.Value()];
    for i := 0 to |ops|
      invariant fresh(leaderboards)
      invariant IsBoardRun(boards, ops[..i], answers) && boards[i] == leaderboards.Value()
    {
      var items := leaderboards.Execute(ops[i]);
      RunGrows(boards, ops[..i], answers, ops[i], items, leaderboards.Value());
      assert ops[..i + 1] == ops[..i] + [ops[i]];
      answers, boards := answers + [items], boards + [leaderboards.Value()];
    }
    assert ops[..|ops|] == ops;
  }
}
