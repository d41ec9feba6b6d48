/** Turning feed-list entries into feed items: the batched, deduplicated fetches of
    `enrichEntries` against one look-up per entry. */
module Enrich {
  import opened Sequences
  import opened Strconv
  import opened Codec
  import opened Wrappers

  /** The fields of the hashes tweet:snapshot, tweet:counts and user:snapshot. */
  datatype Name =
    | AuthorId | Body | Type | ReplyToId | MediaId | MediaUrl | Hashtags | CreatedAt
    | AuthorUsername | AuthorDisplayName | AuthorAvatarUrl
    | LikeCount | RetweetCount | ReplyCount
    | Username | DisplayName | AvatarUrl

  type Hash = map<Name, string>

  datatype Author = Author(id: string, username: string, displayName: string, avatarUrl: Option<string>)
  datatype Interaction = Interaction(isLiked: bool, isRetweeted: bool)
  datatype TweetView = TweetView(
    id: string, authorId: string, body: string, kind: string,
    replyToId: Option<string>, mediaId: Option<string>, mediaUrl: Option<string>,
    hashtags: seq<string>, createdAt: int, author: Option<Author>,
    likeCount: int, retweetCount: int, replyCount: int, isLiked: bool, isRetweeted: bool)
  datatype FeedItem = TweetItem(tweet: TweetView)
                    | RetweetItem(tweet: TweetView, retweetId: string, retweeter: Author, retweetedAt: int)

  const INT32_MAX := 0x7fff_ffff
  const ZERO_TIME := -62135596800  // Go's zero time, in Unix seconds

  /** The Redis hashes, and what tweet-service answers about the viewer. */
  datatype Backend = Backend(snapshots: map<string, Hash>, counts: map<string, Hash>, users: map<string, Hash>,
                             interactions: map<string, Interaction>)

  function Field(f: Hash, name: Name): string {
    if name in f then f[name] else ""
  }

  function NonEmpty(s: string): Option<string> {
    if s == "" then None else Some(s)
  }

  /** `parseInt32`: the error is dropped, so junk counts as 0 and an overflow as the bound. */
  function ParseInt32(s: string): int {
    if s == "" then 0 else ParseInt(s, INT32_MAX).value
  }

  function SnapshotToTweet(id: string, f: Hash): TweetView {
    var stamp := ParseInt(Field(f, CreatedAt), INT64_MAX);
    TweetView(
      id, Field(f, AuthorId), Field(f, Body),
      if Field(f, Type) == "" then "tweet" else Field(f, Type),
      NonEmpty(Field(f, ReplyToId)), NonEmpty(Field(f, MediaId)), NonEmpty(Field(f, MediaUrl)),
      if Field(f, Hashtags) == "" then [] else Split(Field(f, Hashtags), ','),
      if Field(f, CreatedAt) != "" && stamp.err == NoError then stamp.value else ZERO_TIME,
      if Field(f, AuthorId) == "" then None
      else Some(Author(Field(f, AuthorId), Field(f, AuthorUsername), Field(f, AuthorDisplayName),
                       NonEmpty(Field(f, AuthorAvatarUrl)))),
      0, 0, 0, false, false)
  }

  function UserSnapshotToAuthor(id: string, snap: Option<Hash>): Author {
    match snap
    case None => Author(id, "", "", None)
    case Some(f) => Author(id, Field(f, Username), Field(f, DisplayName), NonEmpty(Field(f, AvatarUrl)))
  }

  // ------------------------------------------------ one look-up per entry

  /** HGETALL of one key: an absent key and an empty hash are the same. The empty ID is never asked for. */
  function Lookup(hashes: map<string, Hash>, id: string): Option<Hash> {
    if id == "" then None else Present(hashes, id)
  }

  function Present(hashes: map<string, Hash>, id: string): Option<Hash> {
    if id in hashes && hashes[id] != map[] then Some(hashes[id]) else None
  }

  function Joined(id: string, snap: Hash, counts: Option<Hash>, interaction: Option<Interaction>): TweetView {
    var t := SnapshotToTweet(id, snap);
    var counted := match counts
      case None => t
      case Some(c) => t.(likeCount := ParseInt32(Field(c, LikeCount)),
                         retweetCount := ParseInt32(Field(c, RetweetCount)),
                         replyCount := ParseInt32(Field(c, ReplyCount)));
    match interaction
    case None => counted
    case Some(ia) => counted.(isLiked := ia.isLiked, isRetweeted := ia.isRetweeted)
  }

  function Get<V>(m: map<string, V>, id: string): Option<V> {
    if id in m then Some(m[id]) else None
  }

  function TweetFor(b: Backend, withViewer: bool, id: string): Option<TweetView> {
    match Lookup(b.snapshots, id)
    case None => None
    case Some(snap) => Some(Joined(id, snap, Lookup(b.counts, id),
                                 if withViewer then Get(b.interactions, id) else None))
  }

  function ItemFor(b: Backend, withViewer: bool, e: FeedEntry): Option<FeedItem> {
    var t := TweetFor(b, withViewer, e.tweetId);
    if t.None? then None
    else match e
      case Tweet(_) => Some(TweetItem(t.value))
      case Retweet(rid, _, retweeter, at) =>
        Some(RetweetItem(t.value, rid, UserSnapshotToAuthor(retweeter, Lookup(b.users, retweeter)), at))
  }

  /** The reference: parse each entry and look everything up on its own. Entries that do not
      parse, and entries whose tweet has no live snapshot, yield nothing. */
  function ItemsFor(b: Backend, withViewer: bool, entries: seq<string>): seq<FeedItem> {
    if entries == [] then []
    else
      var e := ParseFeedEntry(entries[0]);
      var item := if e.None? then None else ItemFor(b, withViewer, e.value);
      (if item.None? then [] else [item.value]) + ItemsFor(b, withViewer, entries[1..])
  }

  // ------------------------------------------------- what an item shows

  /** This text stands in the hash under this name; a missing field reads as empty. */
  predicate IsText(f: Hash, name: Name, s: string) {
    s == if name in f then f[name] else ""
  }

  predicate IsOptional(f: Hash, name: Name, s: Option<string>) {
    s == if name in f && f[name] != "" then Some(f[name]) else None
  }

  /** This number stands there, in decimal: none for no text, and otherwise what parsing to 32
      bits gives, the nearer bound if it does not fit. */
  predicate IsCount(f: Hash, name: Name, n: int) {
    n == if name in f && f[name] != "" then ParseInt(f[name], 0x7fff_ffff).value else 0
  }

  /** The tags are the text's parts between commas. */
  predicate AreTags(f: Hash, tags: seq<string>) {
    if Hashtags in f && f[Hashtags] != "" then
      tags != [] && Join(tags, ',') == f[Hashtags] && forall tag <- tags :: ',' !in tag
    else tags == []
  }

  /** The time is the number that stands there, and year one if there is none. */
  predicate IsTime(f: Hash, at: int) {
    at == if CreatedAt in f && ParseInt(f[CreatedAt], 0x7fff_ffff_ffff_ffff).err == NoError
          then ParseInt(f[CreatedAt], 0x7fff_ffff_ffff_ffff).value else -62135596800
  }

  /** The author stands in the snapshot itself, unless it names none. */
  predicate IsAuthor(f: Hash, author: Option<Author>) {
    if AuthorId in f && f[AuthorId] != "" then
      && author.Some? && author.value.id == f[AuthorId] && IsText(f, AuthorUsername, author.value.username)
      && IsText(f, AuthorDisplayName, author.value.displayName)
      && IsOptional(f, AuthorAvatarUrl, author.value.avatarUrl)
    else author.None?
  }

  /** What the snapshot says. */
  predicate ShowsSnapshot(id: string, f: Hash, t: TweetView) {
    && t.id == id && IsText(f, AuthorId, t.authorId) && IsText(f, Body, t.body)
    && t.kind == (if Type in f && f[Type] != "" then f[Type] else "tweet")
    && IsOptional(f, ReplyToId, t.replyToId) && IsOptional(f, MediaId, t.mediaId) && IsOptional(f, MediaUrl, t.mediaUrl)
    && AreTags(f, t.hashtags) && IsTime(f, t.createdAt) && IsAuthor(f, t.author)
  }

  /** The counts are those of the tweet's own hash, zero without one. */
  predicate ShowsCounts(id: string, counts: map<string, Hash>, t: TweetView) {
    if id in counts then
      && IsCount(counts[id], LikeCount, t.likeCount) && IsCount(counts[id], RetweetCount, t.retweetCount)
      && IsCount(counts[id], ReplyCount, t.replyCount)
    else t.likeCount == t.retweetCount == t.replyCount == 0
  }

  /** The flags are what the call about the viewer answered, unset without an answer. */
  predicate ShowsFlags(id: string, flags: Option<map<string, Interaction>>, t: TweetView) {
    if flags.Some? && id in flags.value then
      t.isLiked == flags.value[id].isLiked && t.isRetweeted == flags.value[id].isRetweeted
    else !t.isLiked && !t.isRetweeted
  }

  predicate ShowsTweet(id: string, f: Hash, counts: map<string, Hash>, flags: Option<map<string, Interaction>>,
                       t: TweetView)
  {
    ShowsSnapshot(id, f, t) && ShowsCounts(id, counts, t) && ShowsFlags(id, flags, t)
  }

  /** The retweeter's names are those of the user hash, empty without one. */
  predicate ShowsRetweeter(id: string, users: map<string, Hash>, a: Author) {
    && a.id == id
    && if id != "" && id in users then
         && IsText(users[id], Username, a.username) && IsText(users[id], DisplayName, a.displayName)
         && IsOptional(users[id], AvatarUrl, a.avatarUrl)
       else a.username == a.displayName == "" && a.avatarUrl.None?
  }

  /** What the call about the viewer answered, if it was made and did not fail. */
  function ViewerFlags(b: Backend, withViewer: bool): Option<map<string, Interaction>> {
    if withViewer then Some(b.interactions) else None
  }

  /** The tweet has a live snapshot. */
  predicate IsLive(b: Backend, id: string) {
    id != "" && id in b.snapshots && b.snapshots[id] != map[]
  }

  /** The item shows the entry's tweet, and its retweet if it is one. */
  predicate ShowsEntry(b: Backend, withViewer: bool, e: FeedEntry, item: FeedItem) {
    && IsLive(b, e.tweetId)
    && ShowsTweet(e.tweetId, b.snapshots[e.tweetId], b.counts, ViewerFlags(b, withViewer), item.tweet)
    && match e
       case Tweet(_) => item.TweetItem?
       case Retweet(rid, _, retweeter, at) =>
         && item.RetweetItem? && item.retweetId == rid && item.retweetedAt == at
         && ShowsRetweeter(retweeter, b.users, item.retweeter)
  }

  /** The entry parses, and its tweet has a live snapshot. */
  predicate HasItem(b: Backend, raw: string) {
    ParseFeedEntry(raw).Some? && IsLive(b, ParseFeedEntry(raw).value.tweetId)
  }

  /** The item is the one for this entry. */
  predicate IsItemOf(b: Backend, withViewer: bool, raw: string, item: FeedItem) {
    HasItem(b, raw) && ShowsEntry(b, withViewer, ParseFeedEntry(raw).value, item)
  }

  /** The items are, in entry order, one for each entry that has one: those at `at`. */
  ghost predicate ItemsOfEntries(b: Backend, withViewer: bool, entries: seq<string>, items: seq<FeedItem>,
                                 at: seq<nat>)
  {
    && |at| == |items|
    && (forall i, j | 0 <= i < j < |at| :: at[i] < at[j])
    && (forall i: nat | i < |entries| :: i in at <==> HasItem(b, entries[i]))
    && forall j | 0 <= j < |at| :: at[j] < |entries| && IsItemOf(b, withViewer, entries[at[j]], items[j])
  }

  /** For some such positions. */
  ghost predicate AreItemsOf(b: Backend, withViewer: bool, entries: seq<string>, items: seq<FeedItem>) {
    exists at :: ItemsOfEntries(b, withViewer, entries, items, at)
  }

  function Has(b: Backend): string -> bool {
    raw => HasItem(b, raw)
  }

  function Fits(b: Backend, withViewer: bool): (string, FeedItem) -> bool {
    (raw, item) => IsItemOf(b, withViewer, raw, item)
  }

  lemma SnapshotShows(id: string, f: Hash)
    ensures ShowsSnapshot(id, f, SnapshotToTweet(id, f))
    ensures var t := SnapshotToTweet(id, f);
            t.likeCount == t.retweetCount == t.replyCount == 0 && !t.isLiked && !t.isRetweeted
  {
    if Field(f, Hashtags) != "" {
      JoinSplit(Field(f, Hashtags), ',');
    }
    ParseIntEmpty(INT64_MAX);
  }

  /** Joining a snapshot with its counts and flags shows all three. */
  lemma JoinedShows(id: string, f: Hash, counts: map<string, Hash>, flags: Option<map<string, Interaction>>)
    ensures ShowsTweet(id, f, counts, flags, Joined(id, f, Get(counts, id), Flags(flags, id)))
  {
    SnapshotShows(id, f);
    var t := Joined(id, f, Get(counts, id), Flags(flags, id));
    SameSnapshot(id, f, SnapshotToTweet(id, f), t);
  }

  lemma SameSnapshot(id: string, f: Hash, t: TweetView, u: TweetView)
    requires ShowsSnapshot(id, f, t)
    requires u == t.(likeCount := u.likeCount, retweetCount := u.retweetCount, replyCount := u.replyCount,
                     isLiked := u.isLiked, isRetweeted := u.isRetweeted)
    ensures ShowsSnapshot(id, f, u)
  {
  }

  lemma TweetForShows(b: Backend, withViewer: bool, id: string)
    ensures TweetFor(b, withViewer, id).Some? <==> IsLive(b, id)
    ensures IsLive(b, id) ==>
              ShowsTweet(id, b.snapshots[id], b.counts, ViewerFlags(b, withViewer), TweetFor(b, withViewer, id).value)
  {
    if IsLive(b, id) {
      var flags := ViewerFlags(b, withViewer);
      var snap, t := b.snapshots[id], TweetFor(b, withViewer, id).value;
      if id in b.counts && b.counts[id] == map[] {
        JoinedShows(id, snap, b.counts - {id}, flags);
        assert t == Joined(id, snap, None, Flags(flags, id));
      } else {
        JoinedShows(id, snap, b.counts, flags);
        assert Lookup(b.counts, id) == Get(b.counts, id);
      }
    }
  }

  lemma RetweeterShows(id: string, users: map<string, Hash>)
    ensures ShowsRetweeter(id, users, UserSnapshotToAuthor(id, Lookup(users, id)))
  {
  }

  lemma ItemForShows(b: Backend, withViewer: bool, e: FeedEntry)
    ensures ItemFor(b, withViewer, e).Some? <==> IsLive(b, e.tweetId)
    ensures IsLive(b, e.tweetId) ==> ShowsEntry(b, withViewer, e, ItemFor(b, withViewer, e).value)
  {
    TweetForShows(b, withViewer, e.tweetId);
    if e.Retweet? {
      RetweeterShows(e.retweeterId, b.users);
    }
  }

  lemma {:induction false} ItemsMatch(b: Backend, withViewer: bool, entries: seq<string>) returns (at: seq<nat>)
    ensures Matched(entries, ItemsFor(b, withViewer, entries), at, Has(b), Fits(b, withViewer))
  {
    if entries == [] {
      return [];
    }
    var raw, tail := entries[0], entries[1..];
    var rest := ItemsFor(b, withViewer, tail);
    at := ItemsMatch(b, withViewer, tail);
    var e := ParseFeedEntry(raw);
    assert entries == [raw] + tail;
    if e.Some? {
      ItemForShows(b, withViewer, e.value);
    }
    if HasItem(b, raw) {
      var item := ItemFor(b, withViewer, e.value).value;
      assert IsItemOf(b, withViewer, raw, item);
      MatchedKeep(raw, item, tail, rest, at, Has(b), Fits(b, withViewer));
      at := [0] + Shifted(at);
    } else {
      MatchedSkip(raw, tail, rest, at, Has(b), Fits(b, withViewer));
      assert [] + rest == rest;
      at := Shifted(at);
    }
  }

  /** The reference gives, in entry order, an item to every entry that parses and whose tweet
      is live, and to nothing else; and each shows its tweet, its counts, its flags and its
      retweeter, field by field. */
  lemma ItemsAreOfEntries(b: Backend, withViewer: bool, entries: seq<string>)
    ensures AreItemsOf(b, withViewer, entries, ItemsFor(b, withViewer, entries))
  {
    var at := ItemsMatch(b, withViewer, entries);
    var items := ItemsFor(b, withViewer, entries);
    forall i: nat | i < |entries| ensures i in at <==> HasItem(b, entries[i]) {
      assert Has(b)(entries[i]) <==> HasItem(b, entries[i]);
    }
    forall j | 0 <= j < |at| ensures at[j] < |entries| && IsItemOf(b, withViewer, entries[at[j]], items[j]) {
      assert Fits(b, withViewer)(entries[at[j]], items[j]);
    }
    assert ItemsOfEntries(b, withViewer, entries, items, at);
  }

  /** Every item is that of some entry: it carries the entry's tweet, as its kind. */
  ghost predicate ComesFrom(item: FeedItem, raw: string) {
    ParseFeedEntry(raw).Some? &&
    match ParseFeedEntry(raw).value
    case Tweet(id) => item.TweetItem? && item.tweet.id == id
    case Retweet(rid, id, retweeter, at) =>
      item.RetweetItem? && item.tweet.id == id && item.retweetId == rid
      && item.retweeter.id == retweeter && item.retweetedAt == at
  }

  lemma {:induction false} ItemsComeFromEntries(b: Backend, withViewer: bool, entries: seq<string>)
    ensures forall item <- ItemsFor(b, withViewer, entries) :: exists raw <- entries :: ComesFrom(item, raw)
  {
    if entries != [] {
      var rest := ItemsFor(b, withViewer, entries[1..]);
      ItemsComeFromEntries(b, withViewer, entries[1..]);
      forall item <- ItemsFor(b, withViewer, entries) ensures exists raw <- entries :: ComesFrom(item, raw) {
        if item in rest {
          var raw :| raw in entries[1..] && ComesFrom(item, raw);
          assert raw in entries;
        } else {
          assert ComesFrom(item, entries[0]);
        }
      }
    }
  }

  /** The effective time the first page is sorted by. */
  function SortAt(item: FeedItem): int {
    if item.RetweetItem? then item.retweetedAt else item.tweet.createdAt
  }

  /** Retweets stand by the time of the retweet, tweets by their own. */
  predicate NoOlder(a: FeedItem, b: FeedItem) {
    (if a.RetweetItem? then a.retweetedAt else a.tweet.createdAt)
    >= if b.RetweetItem? then b.retweetedAt else b.tweet.createdAt
  }

  ghost predicate NewestFirst(items: seq<FeedItem>) {
    forall i, j | 0 <= i < j < |items| :: NoOlder(items[i], items[j])
  }

  // ------------------------------------------------------------------- code

  /** The pipelined fetches: one HGETALL per requested ID, misses left out. */
  method PipelineHashes(hashes: map<string, Hash>, ids: seq<string>) returns (result: map<string, Hash>)
    ensures forall id :: Get(result, id) == if id in ids then Present(hashes, id) else None
    ensures forall id :: id in result <==> id in ids && id in hashes && hashes[id] != map[]
    ensures forall id <- result :: result[id] == hashes[id]
  {
    result := map[];
    for i := 0 to |ids|
      invariant forall id :: Get(result, id) == if id in ids[..i] then Present(hashes, id) else None
    {
      assert ids[..i + 1] == ids[..i] + [ids[i]];
      if ids[i] in hashes && hashes[ids[i]] != map[] {
        result := result[ids[i] := hashes[ids[i]]];
      }
    }
    assert ids[..|ids|] == ids;
    forall id
      ensures id in result <==> id in ids && id in hashes && hashes[id] != map[]
      ensures id in result ==> result[id] == hashes[id]
    {
      assert Get(result, id) == if id in ids then Present(hashes, id) else None;
    }
  }

  /** `setToSlice`: the keys in no particular order, without the empty one. */
  method SetToSlice(ids: set<string>) returns (out: seq<string>)
    ensures forall id :: id in out <==> id in ids && id != ""
  {
    out := [];
    var rest := ids;
    while rest != {}
      invariant rest <= ids
      invariant forall id :: id in out <==> id in ids - rest && id != ""
      decreases rest
    {
      var k :| k in rest;
      rest := rest - {k};
      if k != "" {
        out := out + [k];
      }
    }
  }

  /** The parsed entries, in order. */
  function Parsed(entries: seq<string>): seq<FeedEntry> {
    if entries == [] then []
    else
      ListOfOne(ParseFeedEntry(entries[0])) + Parsed(entries[1..])
  }

  function ListOfOne<T>(e: Option<T>): seq<T> {
    if e.None? then [] else [e.value]
  }

  function ItemsOf(b: Backend, withViewer: bool, parsed: seq<FeedEntry>): seq<FeedItem> {
    if parsed == [] then []
    else
      ListOfOne(ItemFor(b, withViewer, parsed[0])) + ItemsOf(b, withViewer, parsed[1..])
  }

  lemma {:induction false} ItemsOfParsed(b: Backend, withViewer: bool, entries: seq<string>)
    ensures ItemsOf(b, withViewer, Parsed(entries)) == ItemsFor(b, withViewer, entries)
  {
    if entries != [] {
      ItemsOfParsed(b, withViewer, entries[1..]);
      if ParseFeedEntry(entries[0]).Some? {
        assert Parsed(entries)[1..] == Parsed(entries[1..]);
      } else {
        assert Parsed(entries) == Parsed(entries[1..]);
      }
    }
  }

  function TweetIds(parsed: seq<FeedEntry>): set<string> {
    set e <- parsed :: e.tweetId
  }

  function RetweeterIds(parsed: seq<FeedEntry>): set<string> {
    set e <- parsed | e.Retweet? :: e.retweeterId
  }

  lemma IdsOfOneMore(parsed: seq<FeedEntry>, e: FeedEntry)
    ensures TweetIds(parsed + [e]) == TweetIds(parsed) + {e.tweetId}
    ensures RetweeterIds(parsed + [e]) == RetweeterIds(parsed) + if e.Retweet? then {e.retweeterId} else {}
  {
    assert e in parsed + [e];
    assert forall x :: x in parsed + [e] <==> x in parsed || x == e;
  }

  /** First pass: parse, and collect the distinct IDs to fetch. */
  method Collect(entries: seq<string>)
    returns (parsed: seq<FeedEntry>, tweetIds: set<string>, retweeterIds: set<string>)
    ensures parsed == Parsed(entries)
    ensures tweetIds == TweetIds(parsed) && retweeterIds == RetweeterIds(parsed)
  {
    parsed, tweetIds, retweeterIds := [], {}, {};
    for i := 0 to |entries|
      invariant Parsed(entries) == parsed + Parsed(entries[i..])
      invariant tweetIds == TweetIds(parsed) && retweeterIds == RetweeterIds(parsed)
    {
      var e := ParseFeedEntry(entries[i]);
      ParsedStep(parsed, entries, i, e);
      parsed, tweetIds, retweeterIds := Add(parsed, tweetIds, retweeterIds, e);
    }
  }

  lemma ParsedStep(parsed: seq<FeedEntry>, entries: seq<string>, i: nat, e: Option<FeedEntry>)
    requires i < |entries| && e == ParseFeedEntry(entries[i])
    ensures parsed + Parsed(entries[i..]) == parsed + ListOfOne(e) + Parsed(entries[i + 1..])
  {
    assert entries[i..][1..] == entries[i + 1..];
  }

  /** One entry of the first pass; one that does not parse is skipped. */
  method Add(parsed: seq<FeedEntry>, tweetIds: set<string>, retweeterIds: set<string>, e: Option<FeedEntry>)
    returns (p: seq<FeedEntry>, t: set<string>, r: set<string>)
    requires tweetIds == TweetIds(parsed) && retweeterIds == RetweeterIds(parsed)
    ensures p == parsed + ListOfOne(e) && t == TweetIds(p) && r == RetweeterIds(p)
  {
    p, t, r := parsed, tweetIds, retweeterIds;
    if e.Some? {
      IdsOfOneMore(parsed, e.value);
      p := parsed + [e.value];
      t := tweetIds + {e.value.tweetId};
      if e.value.Retweet? {
        r := retweeterIds + {e.value.retweeterId};
      }
    }
  }

  /** Joins snapshots, counts and interactions into one tweet per fetched snapshot. */
  method BuildTweetCache(snaps: map<string, Hash>, counts: map<string, Hash>,
                         interactions: Option<map<string, Interaction>>)
    returns (cache: map<string, TweetView>)
    ensures forall id :: Get(cache, id) ==
              if id in snaps then Some(Joined(id, snaps[id], Get(counts, id), Flags(interactions, id))) else None
    ensures cache.Keys == snaps.Keys
    ensures forall id <- snaps :: ShowsTweet(id, snaps[id], counts, interactions, cache[id])
  {
    cache := map[];
    var rest := snaps.Keys;
    while rest != {}
      invariant rest <= snaps.Keys
      invariant forall id :: Get(cache, id) ==
                  if id in snaps && id !in rest
                  then Some(Joined(id, snaps[id], Get(counts, id), Flags(interactions, id))) else None
      decreases rest
    {
      var id :| id in rest;
      rest := rest - {id};
      var t := JoinOne(id, snaps[id], counts, interactions);
      cache := cache[id := t];
    }
    forall id ensures id in cache <==> id in snaps {
      assert Get(cache, id).Some? <==> id in cache;
    }
    forall id <- snaps ensures ShowsTweet(id, snaps[id], counts, interactions, cache[id]) {
      JoinedShows(id, snaps[id], counts, interactions);
      assert Get(cache, id) == Some(cache[id]);
    }
  }

  function Flags(interactions: Option<map<string, Interaction>>, id: string): Option<Interaction> {
    if interactions.Some? then Get(interactions.value, id) else None
  }

  method JoinOne(id: string, snap: Hash, counts: map<string, Hash>, interactions: Option<map<string, Interaction>>)
    returns (t: TweetView)
    ensures t == Joined(id, snap, Get(counts, id), Flags(interactions, id))
  {
    t := SnapshotToTweet(id, snap);
    if id in counts {
      var c := counts[id];
      t := t.(likeCount := ParseInt32(Field(c, LikeCount)),
              retweetCount := ParseInt32(Field(c, RetweetCount)),
              replyCount := ParseInt32(Field(c, ReplyCount)));
    }
    if interactions.Some? && id in interactions.value {
      t := t.(isLiked := interactions.value[id].isLiked, isRetweeted := interactions.value[id].isRetweeted);
    }
  }

  /** The item for one entry, given its tweet and its retweeter's snapshot. */
  function ItemWith(e: FeedEntry, t: Option<TweetView>, user: Option<Hash>): seq<FeedItem> {
    if t.None? then []
    else match e
      case Tweet(_) => [TweetItem(t.value)]
      case Retweet(rid, _, retweeter, at) => [RetweetItem(t.value, rid, UserSnapshotToAuthor(retweeter, user), at)]
  }

  function Assembled(parsed: seq<FeedEntry>, cache: map<string, TweetView>, users: map<string, Hash>): seq<FeedItem> {
    if parsed == [] then []
    else ItemWith(parsed[0], Get(cache, parsed[0].tweetId),
                  if parsed[0].Retweet? then Get(users, parsed[0].retweeterId) else None)
         + Assembled(parsed[1..], cache, users)
  }

  /** Last pass: one item per entry whose tweet was found. */
  method Assemble(parsed: seq<FeedEntry>, cache: map<string, TweetView>, users: map<string, Hash>)
    returns (items: seq<FeedItem>)
    ensures items == Assembled(parsed, cache, users)
  {
    items := [];
    assert parsed[0..] == parsed;
    for i := 0 to |parsed|
      invariant Assembled(parsed, cache, users) == items + Assembled(parsed[i..], cache, users)
    {
      var item := MakeItem(parsed[i], cache, users);
      AssembledStep(items, parsed, i, cache, users, item);
      items := items + item;
    }
  }

  lemma AssembledStep(items: seq<FeedItem>, parsed: seq<FeedEntry>, i: nat,
                      cache: map<string, TweetView>, users: map<string, Hash>, item: seq<FeedItem>)
    requires i < |parsed|
    requires item == ItemWith(parsed[i], Get(cache, parsed[i].tweetId),
                              if parsed[i].Retweet? then Get(users, parsed[i].retweeterId) else None)
    ensures items + Assembled(parsed[i..], cache, users) == items + item + Assembled(parsed[i + 1..], cache, users)
  {
    assert parsed[i..][1..] == parsed[i + 1..];
    assert Assembled(parsed[i..], cache, users) == item + Assembled(parsed[i + 1..], cache, users);
  }

  /** The item of one entry, as a list of at most one. */
  method MakeItem(e: FeedEntry, cache: map<string, TweetView>, users: map<string, Hash>) returns (item: seq<FeedItem>)
    ensures item == ItemWith(e, Get(cache, e.tweetId), if e.Retweet? then Get(users, e.retweeterId) else None)
  {
    if e.tweetId !in cache {
      return [];
    }
    var t := cache[e.tweetId];
    if e.Retweet? {
      var author := UserSnapshotToAuthor(e.retweeterId, Get(users, e.retweeterId));
      return [RetweetItem(t, e.retweetId, author, e.createdAt)];
    }
    item := [TweetItem(t)];
  }

  /** When the fetches answer as the backend would, assembling gives the reference items. */
  lemma {:induction false} AssembledIsReference(b: Backend, withViewer: bool, parsed: seq<FeedEntry>,
                                                cache: map<string, TweetView>, users: map<string, Hash>)
    requires forall e <- parsed :: Get(cache, e.tweetId) == TweetFor(b, withViewer, e.tweetId)
    requires forall e <- parsed :: e.Retweet? ==> Get(users, e.retweeterId) == Lookup(b.users, e.retweeterId)
    ensures Assembled(parsed, cache, users) == ItemsOf(b, withViewer, parsed)
  {
    if parsed != [] {
      assert parsed[0] in parsed;
      AssembledIsReference(b, withViewer, parsed[1..], cache, users);
    }
  }

  /** Snapshots, counts and interactions of the wanted tweets, joined. */
  method FetchTweets(b: Backend, withViewer: bool, wanted: set<string>) returns (cache: map<string, TweetView>)
    ensures forall id <- wanted :: Get(cache, id) == TweetFor(b, withViewer, id)
  {
    var ids := SetToSlice(wanted);
    var snaps := PipelineHashes(b.snapshots, ids);
    var counts := PipelineHashes(b.counts, ids);
    var interactions: Option<map<string, Interaction>> := None;
    if withViewer {
      interactions := Some(map id | id in ids && id in b.interactions :: b.interactions[id]);
    }
    cache := BuildTweetCache(snaps, counts, interactions);
    forall id <- wanted ensures Get(cache, id) == TweetFor(b, withViewer, id) {
      FetchedTweet(b, withViewer, ids, snaps, counts, interactions, id);
    }
  }

  lemma FetchedTweet(b: Backend, withViewer: bool, ids: seq<string>,
                     snaps: map<string, Hash>, counts: map<string, Hash>,
                     interactions: Option<map<string, Interaction>>, id: string)
    requires id in ids <==> id != ""
    requires Get(snaps, id) == (if id in ids then Present(b.snapshots, id) else None)
    requires Get(counts, id) == (if id in ids then Present(b.counts, id) else None)
    requires id in ids ==> Flags(interactions, id) == if withViewer then Get(b.interactions, id) else None
    ensures TweetFor(b, withViewer, id) ==
            if id in snaps then Some(Joined(id, snaps[id], Get(counts, id), Flags(interactions, id))) else None
  {
  }

  /** Snapshots of the wanted retweeters; no call at all if there are none. */
  method FetchUsers(b: Backend, wanted: set<string>) returns (users: map<string, Hash>)
    ensures forall id <- wanted :: Get(users, id) == Lookup(b.users, id)
  {
    var ids := SetToSlice(wanted);
    users := map[];
    if |ids| > 0 {
      users := PipelineHashes(b.users, ids);
    }
  }

  /** `enrichEntries`. A failed or viewer-less interactions call leaves the flags unset. */
  method EnrichEntries(b: Backend, entries: seq<string>, viewer: string, interactionsFail: bool)
    returns (items: seq<FeedItem>)
    ensures items == ItemsFor(b, viewer != "" && !interactionsFail, entries)
    ensures AreItemsOf(b, viewer != "" && !interactionsFail, entries, items)
  {
    var withViewer := viewer != "" && !interactionsFail;
    ItemsAreOfEntries(b, withViewer, entries);
    ItemsOfParsed(b, withViewer, entries);
    if |entries| == 0 {
      return [];
    }
    var parsed, tweetIdSet, retweeterIdSet := Collect(entries);
    if |parsed| == 0 {
      return [];
    }
    var cache := FetchTweets(b, withViewer, tweetIdSet);
    var users := FetchUsers(b, retweeterIdSet);
    items := Assemble(parsed, cache, users);
    forall e <- parsed ensures Get(cache, e.tweetId) == TweetFor(b, withViewer, e.tweetId) {
      assert e.tweetId in tweetIdSet;
    }
    forall e <- parsed | e.Retweet? ensures Get(users, e.retweeterId) == Lookup(b.users, e.retweeterId) {
      assert e.retweeterId in retweeterIdSet;
    }
    AssembledIsReference(b, withViewer, parsed, cache, users);
  }

  /** Stands for `sort.Slice` with the newest-first comparison, which is not stable: only the
      two promises below are made. */
  method SortNewestFirst(items: seq<FeedItem>) returns (sorted: seq<FeedItem>)
    ensures multiset(sorted) == multiset(items) && NewestFirst(sorted)
  {
    sorted := [];
    for i := 0 to |items|
      invariant multiset(sorted) == multiset(items[..i]) && NewestFirst(sorted)
    {
      assert items[..i + 1] == items[..i] + [items[i]];
      sorted := InsertNewestFirst(sorted, items[i]);
    }
    assert items[..|items|] == items;
  }

  method InsertNewestFirst(sorted: seq<FeedItem>, item: FeedItem) returns (out: seq<FeedItem>)
    requires NewestFirst(sorted)
    ensures multiset(out) == multiset(sorted) + multiset{item} && NewestFirst(out)
  {
    var p := 0;
    while p < |sorted| && SortAt(sorted[p]) >= SortAt(item)
      invariant p <= |sorted| && forall j | 0 <= j < p :: SortAt(sorted[j]) >= SortAt(item)
    {
      p := p + 1;
    }
    out := sorted[..p] + [item] + sorted[p..];
    InsertedAt(sorted, p, item);
  }

  lemma InsertedElements(a: seq<FeedItem>, item: FeedItem, b: seq<FeedItem>)
    ensures multiset(a + [item] + b) == multiset(a + b) + multiset{item}
  {
  }

  lemma InsertedAt(sorted: seq<FeedItem>, p: nat, item: FeedItem)
    requires p <= |sorted| && NewestFirst(sorted)
    requires forall j | 0 <= j < p :: SortAt(sorted[j]) >= SortAt(item)
    requires p < |sorted| ==> SortAt(sorted[p]) <= SortAt(item)
    ensures var out := sorted[..p] + [item] + sorted[p..];
            multiset(out) == multiset(sorted) + multiset{item} && NewestFirst(out)
  {
    var out := sorted[..p] + [item] + sorted[p..];
    assert multiset(out) == multiset(sorted) + multiset{item} by {
      assert sorted == sorted[..p] + sorted[p..];
      InsertedElements(sorted[..p], item, sorted[p..]);
    }
    forall i, j | 0 <= i < j < |out| ensures NoOlder(out[i], out[j]) {
      assert out[i] == if i < p then sorted[i] else if i == p then item else sorted[i - 1];
      assert out[j] == if j < p then sorted[j] else if j == p then item else sorted[j - 1];
    }
  }
}
