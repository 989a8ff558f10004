/** The cache keys, and when two of them are equal. */
module Keys {
  import opened Basics

  function CountKey(item: Content): string {
    "lc:" + item.contentType + ":" + item.contentId
  }

  function StatusKey(user: Uuid, item: Content): string {
    "ls:" + user + ":" + item.contentType + ":" + item.contentId
  }

  /** The first page of a user's likes, for one content type or for all. */
  function PageKey(user: Uuid, filter: Option<string>): string {
    "ul:" + user + ":" + if filter.Some? then filter.value else "_"
  }

  lemma CountKeyInjective(a: Content, b: Content)
    requires CountKey(a) == CountKey(b)
    ensures a == b
  {
    var k, n := CountKey(a), |CountKey(a)|;
    assert k[n - 36..] == a.contentId && k[n - 36..] == b.contentId;
    assert k[3..n - 37] == a.contentType && k[3..n - 37] == b.contentType;
  }

  lemma StatusKeyInjective(u: Uuid, a: Content, v: Uuid, b: Content)
    requires StatusKey(u, a) == StatusKey(v, b)
    ensures u == v && a == b
  {
    var k, n := StatusKey(u, a), |StatusKey(u, a)|;
    assert k[3..39] == u && k[3..39] == v;
    assert k[n - 36..] == a.contentId && k[n - 36..] == b.contentId;
    assert k[40..n - 37] == a.contentType && k[40..n - 37] == b.contentType;
  }

  predicate SameFilterKey(f: Option<string>, g: Option<string>) {
    f == g || (f == None && g == Some("_")) || (f == Some("_") && g == None)
  }

  /** Page keys tell users and filters apart, except "all types" from a type named "_". */
  lemma PageKeyInjective(u: Uuid, f: Option<string>, v: Uuid, g: Option<string>)
    ensures PageKey(u, f) == PageKey(v, g) <==> u == v && SameFilterKey(f, g)
  {
    var k, l := PageKey(u, f), PageKey(v, g);
    assert k[3..39] == u && l[3..39] == v;
    assert k[40..] == (if f.Some? then f.value else "_");
    assert l[40..] == (if g.Some? then g.value else "_");
  }

  lemma KeysDisjoint(item: Content, u: Uuid, a: Content, v: Uuid, f: Option<string>)
    ensures CountKey(item) != StatusKey(u, a)
    ensures CountKey(item) != PageKey(v, f)
    ensures StatusKey(u, a) != PageKey(v, f)
  {
    assert CountKey(item)[1] == 'c' && StatusKey(u, a)[1] == 's' && PageKey(v, f)[1] == 'l';
    assert CountKey(item)[0] == 'l' && StatusKey(u, a)[0] == 'l' && PageKey(v, f)[0] == 'u';
  }

  /** Whether an item exists, as the content clients cache it. */
  function ValidationKey(item: Content): string {
    "cv:" + item.contentType + ":" + item.contentId
  }

  /** The rows of a leaderboard for one content type. */
  function FilteredKey(window: string, contentType: string, limit: string): string {
    "lbf:" + window + ":" + contentType + ":" + limit
  }

  /** A user's profile, under a hash of the token. */
  function ProfileKey(hash: string): string {
    "tok:" + hash
  }

  /** The string keys that others write to the same cache. */
  predicate Foreign(k: string) {
    "cv:" <= k || "lbf:" <= k || "tok:" <= k
  }

  lemma ForeignKeys(item: Content, window: string, limit: string, hash: string)
    ensures Foreign(ValidationKey(item)) && Foreign(FilteredKey(window, item.contentType, limit))
    ensures Foreign(ProfileKey(hash))
  {
    assert ValidationKey(item)[..3] == "cv:";
    assert FilteredKey(window, item.contentType, limit)[..4] == "lbf:";
    assert ProfileKey(hash)[..4] == "tok:";
  }

  /** None of them is the key of a count, a status or a page. */
  lemma ForeignKeysDisjoint(k: string, item: Content, u: Uuid, a: Content, v: Uuid, f: Option<string>)
    requires Foreign(k)
    ensures k != CountKey(item) && k != StatusKey(u, a) && k != PageKey(v, f)
  {
    assert CountKey(item)[0] == 'l' && CountKey(item)[1] == 'c';
    assert StatusKey(u, a)[0] == 'l' && StatusKey(u, a)[1] == 's';
    assert PageKey(v, f)[0] == 'u';
    assert k[0] == 'c' || k[0] == 't' || (k[0] == 'l' && k[1] == 'b');
  }
}
