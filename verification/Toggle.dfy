/** The optimistic like and retweet buttons: one click rewrites every cached copy of a tweet,
    then goes to the debouncer. */
module Toggle {
  import opened Wrappers
  import D = Debounce

  datatype Field = Like | Retweet

  /** `rest` stands for the fields a toggle does not touch. */
  datatype Tweet = Tweet(id: string, rest: string, isLiked: bool, likeCount: int, isRetweeted: bool, retweetCount: int)

  datatype FeedItem = FeedItem(tweet: Tweet, wrapper: string)
  datatype FeedPage = FeedPage(items: seq<FeedItem>, nextCursor: string)
  datatype SearchPage = SearchPage(tweets: seq<Tweet>, nextCursor: string)

  /** What the `keys` factory makes. */
  datatype Key = Feed(which: string) | Detail(id: string) | Replies(id: string)
               | User(id: string) | UserTab(id: string, filter: string)
               | UserLikes(id: string) | Connections(id: string, which: string)
               | Suggestions(limit: string) | SearchTweets(query: string, mode: string) | SearchUsers(query: string)
               | NotificationList | TrendingList(limit: string)

  datatype Data = NoData | One(tweet: Tweet) | FeedData(pages: seq<FeedPage>)
                | SearchData(found: seq<SearchPage>) | OtherData

  datatype Query = Query(key: Key, data: Data)

  function Path(key: Key): seq<string> {
    match key
    case Feed(which) => ["feed", which]
    case Detail(id) => ["tweet", id]
    case Replies(id) => ["tweet", id, "replies"]
    case User(id) => ["user", id]
    case UserTab(id, filter) => ["user", id, "tweets", filter]
    case UserLikes(id) => ["user", id, "likes"]
    case Connections(id, which) => ["user", id, which]
    case Suggestions(limit) => ["user-suggestions", limit]
    case SearchTweets(query, mode) => ["search", "tweets", query, mode]
    case SearchUsers(query) => ["search", "users", query]
    case NotificationList => ["notifications"]
    case TrendingList(limit) => ["trending", limit]
  }

  predicate SegmentIs(path: seq<string>, i: nat, s: string) {
    i < |path| && path[i] == s
  }

  predicate FeedShaped(path: seq<string>) {
    || SegmentIs(path, 0, "feed")
    || (SegmentIs(path, 0, "user") && (SegmentIs(path, 2, "tweets") || SegmentIs(path, 2, "likes")))
    || (SegmentIs(path, 0, "tweet") && SegmentIs(path, 2, "replies"))
  }

  predicate SearchShaped(path: seq<string>) {
    SegmentIs(path, 0, "search") && SegmentIs(path, 1, "tweets")
  }

  predicate ValidKey(key: Key) {
    key.Connections? ==> key.which == "followers" || key.which == "following"
  }

  /** The keys whose pages are feed pages, and those whose pages are search pages. */
  predicate HoldsFeed(key: Key) {
    key.Feed? || key.Replies? || key.UserTab? || key.UserLikes?
  }

  /** A query's data has the shape its endpoint returns, and a detail is of its own tweet. */
  ghost predicate Fits(q: Query) {
    && ValidKey(q.key)
    && match q.data
       case NoData => true
       case One(t) => q.key.Detail? && t.id == q.key.id
       case FeedData(_) => HoldsFeed(q.key)
       case SearchData(_) => q.key.SearchTweets?
       case OtherData => !HoldsFeed(q.key) && !q.key.SearchTweets? && !q.key.Detail?
  }

  ghost predicate FitsAll(qs: seq<Query>) {
    forall i | 0 <= i < |qs| :: Fits(qs[i])
  }

  /** The matchers pick out exactly the keys whose caches have the shape they are meant for. */
  lemma MatchersFitShapes(key: Key)
    requires ValidKey(key)
    ensures FeedShaped(Path(key)) <==> HoldsFeed(key)
    ensures SearchShaped(Path(key)) <==> key.SearchTweets?
  {
    var first := Path(key)[0];
    match key
    case Feed(_) => assert first == "feed";
    case Detail(_) => assert first[0] == 't' && "feed"[0] == 'f' && "user"[0] == 'u' && "search"[0] == 's';
    case Replies(_) => assert first[0] == 't' && "search"[0] == 's';
    case User(_) => assert first[0] == 'u' && "feed"[0] == 'f' && "tweet"[0] == 't' && "search"[0] == 's';
    case UserTab(_, _) => assert first[0] == 'u' && "search"[0] == 's';
    case UserLikes(_) => assert first[0] == 'u' && "search"[0] == 's';
    case Connections(_, which) =>
      assert first[0] == 'u' && "feed"[0] == 'f' && "tweet"[0] == 't' && "search"[0] == 's';
      assert which[0] == 'f' && "tweets"[0] == 't' && "likes"[0] == 'l';
    case Suggestions(_) => assert |first| == 16 && |"feed"| == 4 && |"user"| == 4 && |"tweet"| == 5 && |"search"| == 6;
    case SearchTweets(_, _) => assert first[0] == 's' && "feed"[0] == 'f' && "user"[0] == 'u' && "tweet"[0] == 't';
    case SearchUsers(_) =>
      assert first[0] == 's' && "feed"[0] == 'f' && "user"[0] == 'u' && "tweet"[0] == 't';
      assert Path(key)[1][0] == 'u' && "tweets"[0] == 't';
    case NotificationList =>
    case TrendingList(_) => assert |first| == 8 && |"feed"| == 4 && |"user"| == 4 && |"tweet"| == 5 && |"search"| == 6;
  }

  // ------------------------------------------------------------- the update

  function Flag(t: Tweet, field: Field): bool {
    if field.Like? then t.isLiked else t.isRetweeted
  }

  function Count(t: Tweet, field: Field): int {
    if field.Like? then t.likeCount else t.retweetCount
  }

  /** A partial tweet: the two fields a toggle sets. */
  datatype Update = Update(field: Field, flag: bool, count: int)

  function Patched(t: Tweet, u: Update): Tweet {
    if u.field.Like? then t.(isLiked := u.flag, likeCount := u.count)
    else t.(isRetweeted := u.flag, retweetCount := u.count)
  }

  function PatchedIf(t: Tweet, id: string, u: Update): Tweet {
    if t.id == id then Patched(t, u) else t
  }

  function MapFeedPages(pages: seq<FeedPage>, f: Tweet -> Tweet): seq<FeedPage> {
    seq(|pages|, i requires 0 <= i < |pages| =>
      pages[i].(items := seq(|pages[i].items|, j requires 0 <= j < |pages[i].items| =>
        pages[i].items[j].(tweet := f(pages[i].items[j].tweet)))))
  }

  function MapSearchPages(pages: seq<SearchPage>, f: Tweet -> Tweet): seq<SearchPage> {
    seq(|pages|, i requires 0 <= i < |pages| =>
      pages[i].(tweets := seq(|pages[i].tweets|, j requires 0 <= j < |pages[i].tweets| => f(pages[i].tweets[j]))))
  }

  /** Every copy of the tweet in this query, patched. */
  function UpdatedData(d: Data, id: string, u: Update): Data {
    match d
    case One(t) => One(PatchedIf(t, id, u))
    case FeedData(pages) => FeedData(MapFeedPages(pages, t => PatchedIf(t, id, u)))
    case SearchData(pages) => SearchData(MapSearchPages(pages, t => PatchedIf(t, id, u)))
    case _ => d
  }

  function UpdatedAll(qs: seq<Query>, id: string, u: Update): seq<Query> {
    seq(|qs|, i requires 0 <= i < |qs| => qs[i].(data := UpdatedData(qs[i].data, id, u)))
  }

  // -------------------------------------------------------------- the lookup

  function FirstItem(items: seq<FeedItem>, id: string): Option<Tweet> {
    if items == [] then None else if items[0].tweet.id == id then Some(items[0].tweet) else FirstItem(items[1..], id)
  }

  function FirstTweet(tweets: seq<Tweet>, id: string): Option<Tweet> {
    if tweets == [] then None else if tweets[0].id == id then Some(tweets[0]) else FirstTweet(tweets[1..], id)
  }

  function FirstInFeed(pages: seq<FeedPage>, id: string): Option<Tweet> {
    if pages == [] then None
    else if FirstItem(pages[0].items, id).Some? then FirstItem(pages[0].items, id) else FirstInFeed(pages[1..], id)
  }

  function FirstInSearch(pages: seq<SearchPage>, id: string): Option<Tweet> {
    if pages == [] then None
    else if FirstTweet(pages[0].tweets, id).Some? then FirstTweet(pages[0].tweets, id)
    else FirstInSearch(pages[1..], id)
  }

  /** The three caches a lookup goes through, in this order. */
  datatype Place = InDetail | InFeeds | InSearches

  /** The first copy this query holds, if it is of the kind looked through. */
  function FirstIn(q: Query, id: string, place: Place): Option<Tweet> {
    match place
    case InDetail => if q.key == Detail(id) && q.data.One? then Some(q.data.tweet) else None
    case InFeeds => if FeedShaped(Path(q.key)) && q.data.FeedData? then FirstInFeed(q.data.pages, id) else None
    case InSearches => if SearchShaped(Path(q.key)) && q.data.SearchData? then FirstInSearch(q.data.found, id) else None
  }

  function FirstAmong(qs: seq<Query>, id: string, place: Place): Option<Tweet> {
    if qs == [] then None
    else if FirstIn(qs[0], id, place).Some? then FirstIn(qs[0], id, place) else FirstAmong(qs[1..], id, place)
  }

  function Find(qs: seq<Query>, id: string): Option<Tweet> {
    if FirstAmong(qs, id, InDetail).Some? then FirstAmong(qs, id, InDetail)
    else if FirstAmong(qs, id, InFeeds).Some? then FirstAmong(qs, id, InFeeds)
    else FirstAmong(qs, id, InSearches)
  }

  // ------------------------------------------------- where a copy is found

  predicate InDetailAt(qs: seq<Query>, id: string, i: nat) {
    i < |qs| && qs[i].key == Detail(id) && qs[i].data.One?
  }

  predicate InFeedAt(qs: seq<Query>, id: string, i: nat, j: nat, k: nat) {
    && i < |qs| && qs[i].data.FeedData? && j < |qs[i].data.pages| && k < |qs[i].data.pages[j].items|
    && qs[i].data.pages[j].items[k].tweet.id == id
  }

  predicate InSearchAt(qs: seq<Query>, id: string, i: nat, j: nat, k: nat) {
    && i < |qs| && qs[i].data.SearchData? && j < |qs[i].data.found| && k < |qs[i].data.found[j].tweets|
    && qs[i].data.found[j].tweets[k].id == id
  }

  /** Some query holds a copy of the tweet. */
  ghost predicate Cached(qs: seq<Query>, id: string) {
    || (exists i: nat :: InDetailAt(qs, id, i))
    || (exists i: nat, j: nat, k: nat :: InFeedAt(qs, id, i, j, k))
    || (exists i: nat, j: nat, k: nat :: InSearchAt(qs, id, i, j, k))
  }

  /** Query first, then page, then place on the page. */
  predicate Ahead(i: nat, j: nat, k: nat, i': nat, j': nat, k': nat) {
    i < i' || (i == i' && (j < j' || (j == j' && k < k')))
  }

  predicate TweetAt(tweets: seq<Tweet>, id: string, k: nat) {
    k < |tweets| && tweets[k].id == id
  }

  predicate ItemAt(items: seq<FeedItem>, id: string, k: nat) {
    k < |items| && items[k].tweet.id == id
  }

  lemma {:induction false} FirstItemIs(items: seq<FeedItem>, id: string) returns (k: nat)
    ensures FirstItem(items, id).None? ==> forall h: nat :: !ItemAt(items, id, h)
    ensures FirstItem(items, id).Some? ==> ItemAt(items, id, k) && FirstItem(items, id).value == items[k].tweet
    ensures FirstItem(items, id).Some? ==> forall h: nat | h < k :: !ItemAt(items, id, h)
  {
    k := 0;
    if items != [] && items[0].tweet.id != id {
      var h := FirstItemIs(items[1..], id);
      assert forall m: nat | ItemAt(items, id, m) :: m > 0 && ItemAt(items[1..], id, m - 1);
      k := h + 1;
    }
  }

  lemma {:induction false} FirstTweetIs(tweets: seq<Tweet>, id: string) returns (k: nat)
    ensures FirstTweet(tweets, id).None? ==> forall h: nat :: !TweetAt(tweets, id, h)
    ensures FirstTweet(tweets, id).Some? ==> TweetAt(tweets, id, k) && FirstTweet(tweets, id).value == tweets[k]
    ensures FirstTweet(tweets, id).Some? ==> forall h: nat | h < k :: !TweetAt(tweets, id, h)
  {
    k := 0;
    if tweets != [] && tweets[0].id != id {
      var h := FirstTweetIs(tweets[1..], id);
      assert forall m: nat | TweetAt(tweets, id, m) :: m > 0 && TweetAt(tweets[1..], id, m - 1);
      k := h + 1;
    }
  }

  predicate PageItemAt(pages: seq<FeedPage>, id: string, j: nat, k: nat) {
    j < |pages| && ItemAt(pages[j].items, id, k)
  }

  predicate PageTweetAt(pages: seq<SearchPage>, id: string, j: nat, k: nat) {
    j < |pages| && TweetAt(pages[j].tweets, id, k)
  }

  lemma {:induction false} FirstInFeedIs(pages: seq<FeedPage>, id: string) returns (j: nat, k: nat)
    ensures FirstInFeed(pages, id).None? ==> forall g: nat, h: nat :: !PageItemAt(pages, id, g, h)
    ensures FirstInFeed(pages, id).Some? ==>
              PageItemAt(pages, id, j, k) && FirstInFeed(pages, id).value == pages[j].items[k].tweet
    ensures FirstInFeed(pages, id).Some? ==>
              forall g: nat, h: nat | g < j || (g == j && h < k) :: !PageItemAt(pages, id, g, h)
  {
    j, k := 0, 0;
    if pages != [] {
      k := FirstItemIs(pages[0].items, id);
      if FirstItem(pages[0].items, id).None? {
        j, k := FirstInFeedIs(pages[1..], id);
        assert forall g: nat, h: nat | PageItemAt(pages, id, g, h) :: g > 0 && PageItemAt(pages[1..], id, g - 1, h);
        j := j + 1;
      }
    }
  }

  lemma {:induction false} FirstInSearchIs(pages: seq<SearchPage>, id: string) returns (j: nat, k: nat)
    ensures FirstInSearch(pages, id).None? ==> forall g: nat, h: nat :: !PageTweetAt(pages, id, g, h)
    ensures FirstInSearch(pages, id).Some? ==>
              PageTweetAt(pages, id, j, k) && FirstInSearch(pages, id).value == pages[j].tweets[k]
    ensures FirstInSearch(pages, id).Some? ==>
              forall g: nat, h: nat | g < j || (g == j && h < k) :: !PageTweetAt(pages, id, g, h)
  {
    j, k := 0, 0;
    if pages != [] {
      k := FirstTweetIs(pages[0].tweets, id);
      if FirstTweet(pages[0].tweets, id).None? {
        j, k := FirstInSearchIs(pages[1..], id);
        assert forall g: nat, h: nat | PageTweetAt(pages, id, g, h) :: g > 0 && PageTweetAt(pages[1..], id, g - 1, h);
        j := j + 1;
      }
    }
  }

  /** The first query of a place that holds a copy. */
  lemma {:induction false} FirstAmongIs(qs: seq<Query>, id: string, place: Place) returns (i: nat)
    ensures FirstAmong(qs, id, place).None? ==> forall q <- qs :: FirstIn(q, id, place).None?
    ensures FirstAmong(qs, id, place).Some? ==> i < |qs| && FirstAmong(qs, id, place) == FirstIn(qs[i], id, place)
    ensures FirstAmong(qs, id, place).Some? ==> forall h: nat | h < i :: FirstIn(qs[h], id, place).None?
  {
    i := 0;
    if qs != [] && FirstIn(qs[0], id, place).None? {
      i := FirstAmongIs(qs[1..], id, place);
      assert forall h: nat | 0 < h < |qs| :: qs[h] == qs[1..][h - 1];
      assert forall q <- qs :: q == qs[0] || q in qs[1..];
      i := i + 1;
    }
  }

  lemma FoundInDetail(qs: seq<Query>, id: string) returns (i: nat)
    ensures FirstAmong(qs, id, InDetail).Some? <==> exists h: nat :: InDetailAt(qs, id, h)
    ensures FirstAmong(qs, id, InDetail).Some? ==>
              && InDetailAt(qs, id, i) && FirstAmong(qs, id, InDetail) == Some(qs[i].data.tweet)
              && forall h: nat | h < i :: !InDetailAt(qs, id, h)
  {
    i := FirstAmongIs(qs, id, InDetail);
    if FirstAmong(qs, id, InDetail).Some? {
      assert InDetailAt(qs, id, i);
    }
    if h: nat :| InDetailAt(qs, id, h) {
      assert FirstIn(qs[h], id, InDetail).Some? && qs[h] in qs;
    }
  }

  lemma FeedsAreLookedThrough(qs: seq<Query>, id: string, h: nat, g: nat, m: nat)
    requires FitsAll(qs) && InFeedAt(qs, id, h, g, m)
    ensures FirstIn(qs[h], id, InFeeds).Some?
  {
    assert Fits(qs[h]);
    MatchersFitShapes(qs[h].key);
    var _, _ := FirstInFeedIs(qs[h].data.pages, id);
    assert PageItemAt(qs[h].data.pages, id, g, m);
  }

  lemma FoundInFeeds(qs: seq<Query>, id: string) returns (i: nat, j: nat, k: nat)
    requires FitsAll(qs)
    ensures FirstAmong(qs, id, InFeeds).Some? <==> exists h: nat, g: nat, m: nat :: InFeedAt(qs, id, h, g, m)
    ensures FirstAmong(qs, id, InFeeds).Some? ==>
              && InFeedAt(qs, id, i, j, k)
              && FirstAmong(qs, id, InFeeds) == Some(qs[i].data.pages[j].items[k].tweet)
              && forall h: nat, g: nat, m: nat | Ahead(h, g, m, i, j, k) :: !InFeedAt(qs, id, h, g, m)
  {
    i := FirstAmongIs(qs, id, InFeeds);
    j, k := 0, 0;
    if FirstAmong(qs, id, InFeeds).Some? {
      j, k := FirstInFeedIs(qs[i].data.pages, id);
      forall h: nat, g: nat, m: nat | Ahead(h, g, m, i, j, k) ensures !InFeedAt(qs, id, h, g, m) {
        if InFeedAt(qs, id, h, g, m) {
          FeedsAreLookedThrough(qs, id, h, g, m);
          assert PageItemAt(qs[h].data.pages, id, g, m);
        }
      }
      assert InFeedAt(qs, id, i, j, k);
    } else {
      forall h: nat, g: nat, m: nat ensures !InFeedAt(qs, id, h, g, m) {
        if InFeedAt(qs, id, h, g, m) {
          FeedsAreLookedThrough(qs, id, h, g, m);
        }
      }
    }
  }

  lemma SearchesAreLookedThrough(qs: seq<Query>, id: string, h: nat, g: nat, m: nat)
    requires FitsAll(qs) && InSearchAt(qs, id, h, g, m)
    ensures FirstIn(qs[h], id, InSearches).Some?
  {
    assert Fits(qs[h]);
    MatchersFitShapes(qs[h].key);
    var _, _ := FirstInSearchIs(qs[h].data.found, id);
    assert PageTweetAt(qs[h].data.found, id, g, m);
  }

  lemma FoundInSearches(qs: seq<Query>, id: string) returns (i: nat, j: nat, k: nat)
    requires FitsAll(qs)
    ensures FirstAmong(qs, id, InSearches).Some? <==> exists h: nat, g: nat, m: nat :: InSearchAt(qs, id, h, g, m)
    ensures FirstAmong(qs, id, InSearches).Some? ==>
              && InSearchAt(qs, id, i, j, k)
              && FirstAmong(qs, id, InSearches) == Some(qs[i].data.found[j].tweets[k])
              && forall h: nat, g: nat, m: nat | Ahead(h, g, m, i, j, k) :: !InSearchAt(qs, id, h, g, m)
  {
    i := FirstAmongIs(qs, id, InSearches);
    j, k := 0, 0;
    if FirstAmong(qs, id, InSearches).Some? {
      j, k := FirstInSearchIs(qs[i].data.found, id);
      forall h: nat, g: nat, m: nat | Ahead(h, g, m, i, j, k) ensures !InSearchAt(qs, id, h, g, m) {
        if InSearchAt(qs, id, h, g, m) {
          SearchesAreLookedThrough(qs, id, h, g, m);
          assert PageTweetAt(qs[h].data.found, id, g, m);
        }
      }
      assert InSearchAt(qs, id, i, j, k);
    } else {
      forall h: nat, g: nat, m: nat ensures !InSearchAt(qs, id, h, g, m) {
        if InSearchAt(qs, id, h, g, m) {
          SearchesAreLookedThrough(qs, id, h, g, m);
        }
      }
    }
  }

  /** What is found is the first copy in a detail; if there is none, the first in the feeds, by
      query, page and place; and only then the first in the searches. */
  ghost predicate FoundAt(qs: seq<Query>, id: string, hit: Option<Tweet>, i: nat, j: nat, k: nat) {
    if exists h: nat :: InDetailAt(qs, id, h) then
      InDetailAt(qs, id, i) && hit == Some(qs[i].data.tweet) && forall h: nat | h < i :: !InDetailAt(qs, id, h)
    else if exists h: nat, g: nat, m: nat :: InFeedAt(qs, id, h, g, m) then
      && InFeedAt(qs, id, i, j, k) && hit == Some(qs[i].data.pages[j].items[k].tweet)
      && forall h: nat, g: nat, m: nat | Ahead(h, g, m, i, j, k) :: !InFeedAt(qs, id, h, g, m)
    else if exists h: nat, g: nat, m: nat :: InSearchAt(qs, id, h, g, m) then
      && InSearchAt(qs, id, i, j, k) && hit == Some(qs[i].data.found[j].tweets[k])
      && forall h: nat, g: nat, m: nat | Ahead(h, g, m, i, j, k) :: !InSearchAt(qs, id, h, g, m)
    else hit.None?
  }

  /** The lookup finds a copy if and only if some query holds one, and then the first. */
  lemma FindFinds(qs: seq<Query>, id: string) returns (i: nat, j: nat, k: nat)
    requires FitsAll(qs)
    ensures Find(qs, id).Some? <==> Cached(qs, id)
    ensures FoundAt(qs, id, Find(qs, id), i, j, k)
  {
    i := FoundInDetail(qs, id);
    j, k := 0, 0;
    if FirstAmong(qs, id, InDetail).None? {
      i, j, k := FoundInFeeds(qs, id);
      if FirstAmong(qs, id, InFeeds).None? {
        i, j, k := FoundInSearches(qs, id);
      }
    }
  }

  function Max(a: int, b: int): int {
    if a < b then b else a
  }

  /** What one click sets. */
  function Flip(t: Tweet, field: Field): Update {
    var flag := !Flag(t, field);
    Update(field, flag, Max(0, Count(t, field) + if flag then 1 else -1))
  }

  function Mutated(qs: seq<Query>, field: Field, id: string): seq<Query> {
    match Find(qs, id)
    case None => qs
    case Some(t) => UpdatedAll(qs, id, Flip(t, field))
  }

  // ------------------------------------------------------- what copies show

  predicate Shows(t: Tweet, id: string, u: Update) {
    t.id == id ==>
      if u.field.Like? then t.isLiked == u.flag && t.likeCount == u.count
      else t.isRetweeted == u.flag && t.retweetCount == u.count
  }

  ghost predicate DataShows(d: Data, id: string, u: Update) {
    match d
    case One(t) => Shows(t, id, u)
    case FeedData(pages) =>
      forall i, j | 0 <= i < |pages| && 0 <= j < |pages[i].items| :: Shows(pages[i].items[j].tweet, id, u)
    case SearchData(pages) =>
      forall i, j | 0 <= i < |pages| && 0 <= j < |pages[i].tweets| :: Shows(pages[i].tweets[j], id, u)
    case _ => true
  }

  /** Every copy of the tweet, in every cache, shows this flag and count. */
  ghost predicate AllShow(qs: seq<Query>, id: string, u: Update) {
    forall i | 0 <= i < |qs| :: DataShows(qs[i].data, id, u)
  }

  lemma {:induction false} FirstItemShows(items: seq<FeedItem>, id: string, u: Update)
    requires forall j | 0 <= j < |items| :: Shows(items[j].tweet, id, u)
    ensures FirstItem(items, id).Some? ==>
              FirstItem(items, id).value.id == id && Shows(FirstItem(items, id).value, id, u)
  {
    if items != [] {
      FirstItemShows(items[1..], id, u);
    }
  }

  lemma {:induction false} FirstTweetShows(tweets: seq<Tweet>, id: string, u: Update)
    requires forall j | 0 <= j < |tweets| :: Shows(tweets[j], id, u)
    ensures FirstTweet(tweets, id).Some? ==>
              FirstTweet(tweets, id).value.id == id && Shows(FirstTweet(tweets, id).value, id, u)
  {
    if tweets != [] {
      FirstTweetShows(tweets[1..], id, u);
    }
  }

  lemma {:induction false} FirstInFeedShows(pages: seq<FeedPage>, id: string, u: Update)
    requires DataShows(FeedData(pages), id, u)
    ensures FirstInFeed(pages, id).Some? ==>
              FirstInFeed(pages, id).value.id == id && Shows(FirstInFeed(pages, id).value, id, u)
  {
    if pages != [] {
      FirstItemShows(pages[0].items, id, u);
      FirstInFeedShows(pages[1..], id, u);
    }
  }

  lemma {:induction false} FirstInSearchShows(pages: seq<SearchPage>, id: string, u: Update)
    requires DataShows(SearchData(pages), id, u)
    ensures FirstInSearch(pages, id).Some? ==>
              FirstInSearch(pages, id).value.id == id && Shows(FirstInSearch(pages, id).value, id, u)
  {
    if pages != [] {
      FirstTweetShows(pages[0].tweets, id, u);
      FirstInSearchShows(pages[1..], id, u);
    }
  }

  lemma {:induction false} FirstAmongShows(qs: seq<Query>, id: string, place: Place, u: Update)
    requires FitsAll(qs) && AllShow(qs, id, u)
    ensures FirstAmong(qs, id, place).Some? ==>
              FirstAmong(qs, id, place).value.id == id && Shows(FirstAmong(qs, id, place).value, id, u)
  {
    if qs != [] {
      var q := qs[0];
      assert Fits(q) && DataShows(q.data, id, u);
      if q.data.FeedData? {
        FirstInFeedShows(q.data.pages, id, u);
      } else if q.data.SearchData? {
        FirstInSearchShows(q.data.found, id, u);
      }
      FirstAmongShows(qs[1..], id, place, u);
    }
  }

  /** When all copies agree, the lookup finds what they show. */
  lemma FindShows(qs: seq<Query>, id: string, u: Update)
    requires FitsAll(qs) && AllShow(qs, id, u) && Find(qs, id).Some?
    ensures var t := Find(qs, id).value; t.id == id && Flag(t, u.field) == u.flag && Count(t, u.field) == u.count
  {
    FirstAmongShows(qs, id, InDetail, u);
    FirstAmongShows(qs, id, InFeeds, u);
    FirstAmongShows(qs, id, InSearches, u);
  }

  lemma UpdatedDataShows(d: Data, id: string, u: Update)
    ensures DataShows(UpdatedData(d, id, u), id, u)
  {
    if d.FeedData? {
      var after := UpdatedData(d, id, u).pages;
      forall i, j | 0 <= i < |after| && 0 <= j < |after[i].items| ensures Shows(after[i].items[j].tweet, id, u) {
        assert after[i].items[j].tweet == PatchedIf(d.pages[i].items[j].tweet, id, u);
      }
    } else if d.SearchData? {
      var after := UpdatedData(d, id, u).found;
      forall i, j | 0 <= i < |after| && 0 <= j < |after[i].tweets| ensures Shows(after[i].tweets[j], id, u) {
        assert after[i].tweets[j] == PatchedIf(d.found[i].tweets[j], id, u);
      }
    }
  }

  /** An update leaves other tweets, and the other field of the same tweet, as they were. */
  lemma UpdateKeepsOthers(qs: seq<Query>, id: string, u: Update, other: string, v: Update)
    requires AllShow(qs, other, v) && (other != id || v.field != u.field)
    ensures AllShow(UpdatedAll(qs, id, u), other, v)
  {
    forall i | 0 <= i < |qs| ensures DataShows(UpdatedAll(qs, id, u)[i].data, other, v) {
      assert DataShows(qs[i].data, other, v);
    }
  }

  lemma UpdateFits(qs: seq<Query>, id: string, u: Update)
    requires FitsAll(qs)
    ensures FitsAll(UpdatedAll(qs, id, u))
  {
    forall i | 0 <= i < |qs| ensures Fits(UpdatedAll(qs, id, u)[i]) {
      assert Fits(qs[i]);
    }
  }

  /** One click brings all copies of the tweet into agreement, however they differed before. */
  lemma ClickMakesAllAgree(qs: seq<Query>, field: Field, id: string)
    requires Find(qs, id).Some?
    ensures AllShow(Mutated(qs, field, id), id, Flip(Find(qs, id).value, field))
  {
    var u := Flip(Find(qs, id).value, field);
    forall i | 0 <= i < |qs| ensures DataShows(UpdatedAll(qs, id, u)[i].data, id, u) {
      UpdatedDataShows(qs[i].data, id, u);
    }
  }

  // ------------------------------------------------ what a click leaves alone

  /** The same tweet, but for the flag and count of this field on copies of this one. */
  predicate SameBut(t: Tweet, now: Tweet, field: Field, id: string) {
    && now.id == t.id && now.rest == t.rest && (t.id != id ==> now == t)
    && if field.Like? then now.isRetweeted == t.isRetweeted && now.retweetCount == t.retweetCount
       else now.isLiked == t.isLiked && now.likeCount == t.likeCount
  }

  ghost predicate FeedsSameBut(pages: seq<FeedPage>, now: seq<FeedPage>, field: Field, id: string) {
    && |now| == |pages|
    && (forall j | 0 <= j < |pages| ::
          now[j].nextCursor == pages[j].nextCursor && |now[j].items| == |pages[j].items|)
    && forall j, k | 0 <= j < |pages| && 0 <= k < |pages[j].items| ::
         && now[j].items[k].wrapper == pages[j].items[k].wrapper
         && SameBut(pages[j].items[k].tweet, now[j].items[k].tweet, field, id)
  }

  ghost predicate SearchesSameBut(pages: seq<SearchPage>, now: seq<SearchPage>, field: Field, id: string) {
    && |now| == |pages|
    && (forall j | 0 <= j < |pages| ::
          now[j].nextCursor == pages[j].nextCursor && |now[j].tweets| == |pages[j].tweets|)
    && forall j, k | 0 <= j < |pages| && 0 <= k < |pages[j].tweets| ::
         SameBut(pages[j].tweets[k], now[j].tweets[k], field, id)
  }

  ghost predicate DataSameBut(d: Data, now: Data, field: Field, id: string) {
    match d
    case One(t) => now.One? && SameBut(t, now.tweet, field, id)
    case FeedData(pages) => now.FeedData? && FeedsSameBut(pages, now.pages, field, id)
    case SearchData(pages) => now.SearchData? && SearchesSameBut(pages, now.found, field, id)
    case _ => now == d
  }

  ghost predicate AllSameBut(qs: seq<Query>, now: seq<Query>, field: Field, id: string) {
    && |now| == |qs|
    && forall i | 0 <= i < |qs| :: now[i].key == qs[i].key && DataSameBut(qs[i].data, now[i].data, field, id)
  }

  lemma UpdateKeepsRest(qs: seq<Query>, id: string, u: Update)
    ensures AllSameBut(qs, UpdatedAll(qs, id, u), u.field, id)
  {
    forall i | 0 <= i < |qs| ensures DataSameBut(qs[i].data, UpdatedAll(qs, id, u)[i].data, u.field, id) {
      UpdatedDataKeepsRest(qs[i].data, id, u);
    }
  }

  lemma UpdatedDataKeepsRest(d: Data, id: string, u: Update)
    ensures DataSameBut(d, UpdatedData(d, id, u), u.field, id)
  {
    match d
    case FeedData(pages) =>
      var now := UpdatedData(d, id, u).pages;
      forall j, k | 0 <= j < |pages| && 0 <= k < |pages[j].items|
        ensures now[j].items[k].wrapper == pages[j].items[k].wrapper
        ensures SameBut(pages[j].items[k].tweet, now[j].items[k].tweet, u.field, id)
      {
        assert now[j].items[k].tweet == PatchedIf(pages[j].items[k].tweet, id, u);
      }
    case SearchData(pages) =>
      var now := UpdatedData(d, id, u).found;
      forall j, k | 0 <= j < |pages| && 0 <= k < |pages[j].tweets|
        ensures SameBut(pages[j].tweets[k], now[j].tweets[k], u.field, id)
      {
        assert now[j].tweets[k] == PatchedIf(pages[j].tweets[k], id, u);
      }
    case _ =>
  }

  // -------------------------------------------------------------- the clamp

  /** The count without the click's own contribution. */
  function Base(t: Tweet, field: Field): int {
    Count(t, field) - if Flag(t, field) then 1 else 0
  }

  predicate Clamps(t: Tweet, field: Field) {
    Count(t, field) + (if Flag(t, field) then -1 else 1) < 0
  }

  function Clicked(t: Tweet, field: Field, n: nat): Tweet {
    if n == 0 then t else Patched(Clicked(t, field, n - 1), Flip(Clicked(t, field, n - 1), field))
  }

  lemma {:induction false} ClicksKeepBase(t: Tweet, field: Field, n: nat)
    requires Base(t, field) >= 0
    ensures Base(Clicked(t, field, n), field) == Base(t, field)
    ensures Flag(Clicked(t, field, n), field) == (Flag(t, field) != (n % 2 == 1))
  {
    if n > 0 {
      ClicksKeepBase(t, field, n - 1);
    }
  }

  predicate ClampsAfter(t: Tweet, field: Field, n: nat) {
    Clamps(Clicked(t, field, n), field)
  }

  ghost predicate NeverClamps(t: Tweet, field: Field) {
    forall n: nat :: !ClampsAfter(t, field, n)
  }

  /** The clamp at zero never takes effect, in any number of clicks, if and only if the count
      without the user's own mark starts at zero or more. */
  lemma NeverClampsIff(t: Tweet, field: Field)
    ensures NeverClamps(t, field) <==> Base(t, field) >= 0
  {
    if Base(t, field) >= 0 {
      forall n: nat ensures !ClampsAfter(t, field, n) {
        ClicksKeepBase(t, field, n);
      }
    } else {
      assert Clicked(t, field, 0) == t;
      assert Clicked(t, field, 1) == Patched(t, Flip(t, field));
      var n := if Clamps(t, field) then 0 else 1;
      assert ClampsAfter(t, field, n);
    }
  }

  // ------------------------------------------------- with the debouncer

  function FieldName(field: Field): string {
    if field.Like? then "is_liked" else "is_retweeted"
  }

  function ScopeOf(field: Field, id: string): string {
    FieldName(field) + ":" + id
  }

  /** No two buttons share a debounce scope. */
  lemma ScopesAreDistinct(f: Field, a: string, g: Field, b: string)
    requires ScopeOf(f, a) == ScopeOf(g, b)
    ensures f == g && a == b
  {
    var s, t := ScopeOf(f, a), ScopeOf(g, b);
    assert s[3] == FieldName(f)[3] && t[3] == FieldName(g)[3];
    assert "is_liked"[3] == 'l' && "is_retweeted"[3] == 'r';
    var k := |FieldName(f)| + 1;
    assert a == s[k..] && b == t[k..];
  }

  datatype App = App(qs: seq<Query>, deb: D.State)

  datatype Step = Press(field: Field, id: string) | Timer(timer: nat) | Wait(ms: nat)

  predicate Enabled(a: App, step: Step) {
    step.Timer? ==> D.Enabled(a.deb, D.ByTimer(step.timer))
  }

  /** The call of `debouncedToggle` by a click that finds `t`. */
  function ClickOn(a: App, t: Tweet, field: Field, id: string): D.Click {
    D.Click(ScopeOf(field, id), Flag(t, field), !Flag(t, field), a.deb.made, D.DEFAULT_DELAY_MS)
  }

  function Apply(a: App, step: Step): App
    requires Enabled(a, step)
  {
    match step
    case Press(field, id) =>
      var found := Find(a.qs, id);
      if found.None? then a else App(Mutated(a.qs, field, id), D.Toggled(a.deb, ClickOn(a, found.value, field, id)))
    case Timer(timer) => a.(deb := D.Apply(a.deb, D.ByTimer(timer)))
    case Wait(ms) => a.(deb := D.Apply(a.deb, D.Tick(ms)))
  }

  ghost predicate Runs(a: App, steps: seq<Step>, end: App)
    decreases |steps|
  {
    if steps == [] then a == end
    else Enabled(a, steps[0]) && Runs(Apply(a, steps[0]), steps[1..], end)
  }

  function Shown(field: Field, flag: bool, base: nat): Update {
    Update(field, flag, base + if flag then 1 else 0)
  }

  /** All copies show the last intent, the count follows the flag, and the debouncer is on
      its way to bring the server there. */
  ghost predicate Coherent(a: App, field: Field, id: string, initially: bool, base: nat) {
    && FitsAll(a.qs) && D.Inv(a.deb)
    && AllShow(a.qs, id, Shown(field, D.LastIntent(a.deb.log, ScopeOf(field, id), initially), base))
    && D.OnCourse(a.deb, ScopeOf(field, id), initially)
  }

  /** The log has one click more: on this button, from this state to its opposite. */
  predicate LogsClick(before: D.State, after: D.State, field: Field, id: string, flag: bool) {
    && after.log == before.log + [D.Event.Clicked(
         D.Click((if field.Like? then "is_liked:" else "is_retweeted:") + id, flag, !flag, before.made, 400),
         before.now)]
    && after.requests == before.requests && after.now == before.now
  }

  lemma ScopeIs(field: Field, id: string)
    ensures ScopeOf(field, id) == (if field.Like? then "is_liked:" else "is_retweeted:") + id
  {
    assert "is_liked" + ":" == "is_liked:" && "is_retweeted" + ":" == "is_retweeted:";
  }

  /** With a copy in some cache a click gives the debouncer one click, from the state found to
      its opposite; with none it does nothing. */
  lemma ClickIsLogged(a: App, field: Field, id: string)
    requires FitsAll(a.qs)
    ensures Cached(a.qs, id) <==> Find(a.qs, id).Some?
    ensures if Find(a.qs, id).Some?
            then LogsClick(a.deb, Apply(a, Press(field, id)).deb, field, id, Flag(Find(a.qs, id).value, field))
            else Apply(a, Press(field, id)) == a
  {
    var _, _, _ := FindFinds(a.qs, id);
    ScopeIs(field, id);
  }

  function Stepped(n: int, up: bool): int {
    if up then (if n < -1 then 0 else n + 1) else if n < 1 then 0 else n - 1
  }

  /** What a click comes to. With no copy of the tweet in any cache, nothing. Otherwise the
      debouncer gets one click; and if the copies agreed, they all show the opposite flag and
      the count that goes with it, never below zero. All else in the caches stays. */
  lemma ClickDoes(a: App, field: Field, id: string, flag: bool, n: int)
    requires FitsAll(a.qs)
    ensures var after := Apply(a, Press(field, id));
            && (!Cached(a.qs, id) ==> after == a)
            && (Cached(a.qs, id) ==> exists from :: LogsClick(a.deb, after.deb, field, id, from))
            && (Cached(a.qs, id) && AllShow(a.qs, id, Update(field, flag, n)) ==>
                  && LogsClick(a.deb, after.deb, field, id, flag)
                  && AllShow(after.qs, id, Update(field, !flag, Stepped(n, !flag))))
            && AllSameBut(a.qs, after.qs, field, id)
  {
    ClickIsLogged(a, field, id);
    if Find(a.qs, id).None? {
      NothingChanged(a.qs, field, id);
    } else {
      UpdateKeepsRest(a.qs, id, Flip(Find(a.qs, id).value, field));
      ClickMakesAllAgree(a.qs, field, id);
      if AllShow(a.qs, id, Update(field, flag, n)) {
        FindShows(a.qs, id, Update(field, flag, n));
      }
    }
  }

  lemma NothingChanged(qs: seq<Query>, field: Field, id: string)
    ensures AllSameBut(qs, qs, field, id)
  {
  }

  /** A click on this very button passes the state the server will reach, and no clamp. */
  lemma PressKeeps(a: App, field: Field, id: string, initially: bool, base: nat)
    requires Coherent(a, field, id, initially, base) && Find(a.qs, id).Some?
    ensures Coherent(Apply(a, Press(field, id)), field, id, initially, base)
    ensures !Clamps(Find(a.qs, id).value, field)
  {
    var scope := ScopeOf(field, id);
    var flag := D.LastIntent(a.deb.log, scope, initially);
    FindShows(a.qs, id, Shown(field, flag, base));
    var t := Find(a.qs, id).value;
    var c := ClickOn(a, t, field, id);
    ClickMakesAllAgree(a.qs, field, id);
    UpdateFits(a.qs, id, Flip(t, field));
    assert D.Honest(a.deb, D.ByUser(c), scope, initially);
    D.StepKeepsCourse(a.deb, D.ByUser(c), scope, initially);
    D.ToggledKeeps(a.deb, c);
    assert D.Toggled(a.deb, c).log[..|a.deb.log|] == a.deb.log;
    assert Flip(t, field) == Shown(field, !flag, base);
  }

  lemma OtherPressKeeps(a: App, field: Field, id: string, initially: bool, base: nat, f: Field, other: string)
    requires Coherent(a, field, id, initially, base) && Find(a.qs, other).Some? && (f != field || other != id)
    ensures Coherent(Apply(a, Press(f, other)), field, id, initially, base)
  {
    var scope := ScopeOf(field, id);
    if ScopeOf(f, other) == scope {
      ScopesAreDistinct(f, other, field, id);
    }
    var t := Find(a.qs, other).value;
    var c := ClickOn(a, t, f, other);
    UpdateKeepsOthers(a.qs, other, Flip(t, f), id, Shown(field, D.LastIntent(a.deb.log, scope, initially), base));
    UpdateFits(a.qs, other, Flip(t, f));
    D.StepKeepsCourse(a.deb, D.ByUser(c), scope, initially);
    D.ToggledKeeps(a.deb, c);
    assert D.Toggled(a.deb, c).log[..|a.deb.log|] == a.deb.log;
  }

  lemma StepKeepsCoherent(a: App, step: Step, field: Field, id: string, initially: bool, base: nat)
    requires Coherent(a, field, id, initially, base) && Enabled(a, step)
    ensures Coherent(Apply(a, step), field, id, initially, base)
  {
    var scope := ScopeOf(field, id);
    match step
    case Press(f, other) =>
      if Find(a.qs, other).Some? {
        if f == field && other == id {
          PressKeeps(a, field, id, initially, base);
        } else {
          OtherPressKeeps(a, field, id, initially, base, f, other);
        }
      }
    case Timer(timer) =>
      D.StepKeepsCourse(a.deb, D.ByTimer(timer), scope, initially);
      D.StepKeepsInv(a.deb, D.ByTimer(timer));
      FireKeepsIntent(a.deb, timer, scope, initially);
    case Wait(ms) =>
      D.StepKeepsCourse(a.deb, D.Tick(ms), scope, initially);
      D.StepKeepsInv(a.deb, D.Tick(ms));
  }

  lemma FireKeepsIntent(deb: D.State, timer: nat, scope: string, initially: bool)
    requires D.Enabled(deb, D.ByTimer(timer))
    ensures D.LastIntent(D.Apply(deb, D.ByTimer(timer)).log, scope, initially)
         == D.LastIntent(deb.log, scope, initially)
  {
    var log := D.Apply(deb, D.ByTimer(timer)).log;
    if |log| > |deb.log| {
      assert log[..|deb.log|] == deb.log;
    }
  }

  // ------------------------------------------------------- counting the clicks

  /** The clicks on one button. */
  function Presses(steps: seq<Step>, field: Field, id: string): nat {
    if steps == [] then 0
    else (if steps[0] == Press(field, id) then 1 else 0) + Presses(steps[1..], field, id)
  }

  lemma InDetailStays(qs: seq<Query>, id: string, u: Update, other: string)
    requires FitsAll(qs) && Cached(qs, other)
    ensures Cached(UpdatedAll(qs, id, u), other)
  {
    var now := UpdatedAll(qs, id, u);
    if i: nat :| InDetailAt(qs, other, i) {
      assert InDetailAt(now, other, i);
    } else if i: nat, j: nat, k: nat :| InFeedAt(qs, other, i, j, k) {
      assert InFeedAt(now, other, i, j, k);
    } else {
      var i: nat, j: nat, k: nat :| InSearchAt(qs, other, i, j, k);
      assert InSearchAt(now, other, i, j, k);
    }
  }

  /** A step keeps a copy in the caches, and the last intent changes with a click on the button
      and with nothing else. */
  lemma StepFlips(a: App, step: Step, field: Field, id: string, initially: bool, base: nat)
    requires Coherent(a, field, id, initially, base) && Enabled(a, step) && Cached(a.qs, id)
    ensures Cached(Apply(a, step).qs, id)
    ensures var scope := ScopeOf(field, id);
            D.LastIntent(Apply(a, step).deb.log, scope, initially)
            == (D.LastIntent(a.deb.log, scope, initially) != (step == Press(field, id)))
  {
    var scope := ScopeOf(field, id);
    match step
    case Press(f, other) =>
      var found := Find(a.qs, other);
      var _, _, _ := FindFinds(a.qs, other);
      if found.Some? {
        InDetailStays(a.qs, other, Flip(found.value, f), id);
        var c := ClickOn(a, found.value, f, other);
        D.IntentAfter(a.deb.log, D.Event.Clicked(c, a.deb.now), scope, initially);
        if c.scope == scope {
          ScopesAreDistinct(f, other, field, id);
          FindShows(a.qs, id, Shown(field, D.LastIntent(a.deb.log, scope, initially), base));
        }
      }
    case Timer(timer) => FireKeepsIntent(a.deb, timer, scope, initially);
    case Wait(_) =>
  }

  /** The last intent on this button. */
  ghost predicate Intends(a: App, field: Field, id: string, initially: bool, flag: bool) {
    D.LastIntent(a.deb.log, ScopeOf(field, id), initially) == flag
  }

  lemma StepIntends(a: App, step: Step, field: Field, id: string, initially: bool, base: nat, flag: bool)
    requires Coherent(a, field, id, initially, base) && Enabled(a, step) && Cached(a.qs, id)
    requires Intends(a, field, id, initially, flag)
    ensures Cached(Apply(a, step).qs, id)
    ensures Intends(Apply(a, step), field, id, initially, flag != (step == Press(field, id)))
    ensures Coherent(Apply(a, step), field, id, initially, base)
  {
    StepFlips(a, step, field, id, initially, base);
    StepKeepsCoherent(a, step, field, id, initially, base);
  }

  /** Where so many clicks leave the flag. */
  function Turned(flag: bool, steps: seq<Step>, field: Field, id: string): bool {
    flag != (Presses(steps, field, id) % 2 == 1)
  }

  lemma TurnedStep(flag: bool, steps: seq<Step>, field: Field, id: string)
    requires steps != []
    ensures Turned(flag, steps, field, id) == Turned(flag != (steps[0] == Press(field, id)), steps[1..], field, id)
  {
  }

  lemma {:induction false} RunFlips(a: App, steps: seq<Step>, end: App,
                                    field: Field, id: string, initially: bool, base: nat, flag: bool, last: bool)
    requires Coherent(a, field, id, initially, base) && Runs(a, steps, end) && Cached(a.qs, id)
    requires Intends(a, field, id, initially, flag) && last == Turned(flag, steps, field, id)
    ensures Intends(end, field, id, initially, last)
    decreases |steps|
  {
    if steps != [] {
      StepIntends(a, steps[0], field, id, initially, base, flag);
      TurnedStep(flag, steps, field, id);
      var next := flag != (steps[0] == Press(field, id));
      RunFlips(Apply(a, steps[0]), steps[1..], end, field, id, initially, base, next, last);
    }
  }

  lemma {:induction false} RunKeepsCoherent(a: App, steps: seq<Step>, end: App,
                                            field: Field, id: string, initially: bool, base: nat)
    requires Coherent(a, field, id, initially, base) && Runs(a, steps, end)
    ensures Coherent(end, field, id, initially, base)
    decreases |steps|
  {
    if steps != [] {
      StepKeepsCoherent(a, steps[0], field, id, initially, base);
      RunKeepsCoherent(Apply(a, steps[0]), steps[1..], end, field, id, initially, base);
    }
  }

  /** Start with every copy of a tweet showing what the server has. After any clicks on any
      buttons, timers and waits, with no refetch: every copy shows the last intent and the
      count that goes with it, and once the bursts on this button are over the requests sent
      bring the server to just what the copies show. If there is a copy at all, every click on
      the button has turned it. */
  lemma ButtonsConverge(qs: seq<Query>, steps: seq<Step>, end: App,
                        field: Field, id: string, initially: bool, base: nat)
    requires FitsAll(qs) && AllShow(qs, id, Shown(field, initially, base)) && Runs(App(qs, D.INIT), steps, end)
    ensures var scope := ScopeOf(field, id);
            var intent := D.LastIntent(end.deb.log, scope, initially);
            && AllShow(end.qs, id, Shown(field, intent, base))
            && (D.BurstOf(end.deb.log, scope) == [] ==> D.Reached(end.deb.requests, scope, initially) == intent)
    ensures Cached(qs, id) ==>
              D.LastIntent(end.deb.log, ScopeOf(field, id), initially)
              == (initially != (Presses(steps, field, id) % 2 == 1))
  {
    RunKeepsCoherent(App(qs, D.INIT), steps, end, field, id, initially, base);
    assert D.ScopeOk(end.deb, ScopeOf(field, id));
    if Cached(qs, id) {
      RunFlips(App(qs, D.INIT), steps, end, field, id, initially, base, initially, Turned(initially, steps, field, id));
    }
  }

  // -------------------------------------------------------------------- code

  /** What each of the three passes does to one query. */
  function DetailSet(q: Query, id: string, u: Update): Query {
    if q.key == Detail(id) && q.data.One? then q.(data := One(Patched(q.data.tweet, u))) else q
  }

  function FeedsSet(q: Query, id: string, u: Update): Query {
    if FeedShaped(Path(q.key)) && q.data.FeedData? then q.(data := UpdatedData(q.data, id, u)) else q
  }

  function SearchesSet(q: Query, id: string, u: Update): Query {
    if SearchShaped(Path(q.key)) && q.data.SearchData? then q.(data := UpdatedData(q.data, id, u)) else q
  }

  class QueryClient {
    var queries: seq<Query>

    constructor (queries: seq<Query>)
      ensures this.queries == queries
    {
      this.queries := queries;
    }

    /** Three passes, by key: the detail, the feed-shaped caches, the searches. */
    method ApplyTweetUpdate(id: string, u: Update)
      requires FitsAll(queries)
      modifies this
      ensures queries == UpdatedAll(old(queries), id, u)
    {
      ghost var qs := queries;
      SetDetail(id, u);
      SetFeeds(id, u);
      SetSearches(id, u);
      forall i | 0 <= i < |qs| ensures queries[i] == UpdatedAll(qs, id, u)[i] {
        assert Fits(qs[i]);
        MatchersFitShapes(qs[i].key);
      }
    }

    method SetDetail(id: string, u: Update)
      modifies this
      ensures |queries| == |old(queries)|
      ensures forall k | 0 <= k < |queries| :: queries[k] == DetailSet(old(queries)[k], id, u)
    {
      ghost var qs := queries;
      for i := 0 to |queries|
        invariant |queries| == |qs|
        invariant forall k | 0 <= k < |qs| :: queries[k] == if k < i then DetailSet(qs[k], id, u) else qs[k]
      {
        var q := queries[i];
        if q.key == Detail(id) && q.data.One? {
          queries := queries[i := q.(data := One(Patched(q.data.tweet, u)))];
        }
      }
    }

    method SetFeeds(id: string, u: Update)
      modifies this
      ensures |queries| == |old(queries)|
      ensures forall k | 0 <= k < |queries| :: queries[k] == FeedsSet(old(queries)[k], id, u)
    {
      ghost var qs := queries;
      for i := 0 to |queries|
        invariant |queries| == |qs|
        invariant forall k | 0 <= k < |qs| :: queries[k] == if k < i then FeedsSet(qs[k], id, u) else qs[k]
      {
        var q := queries[i];
        if FeedShaped(Path(q.key)) && q.data.FeedData? {
          queries := queries[i := q.(data := FeedData(MapFeedPages(q.data.pages, t => PatchedIf(t, id, u))))];
        }
      }
    }

    method SetSearches(id: string, u: Update)
      modifies this
      ensures |queries| == |old(queries)|
      ensures forall k | 0 <= k < |queries| :: queries[k] == SearchesSet(old(queries)[k], id, u)
    {
      ghost var qs := queries;
      for i := 0 to |queries|
        invariant |queries| == |qs|
        invariant forall k | 0 <= k < |qs| :: queries[k] == if k < i then SearchesSet(qs[k], id, u) else qs[k]
      {
        var q := queries[i];
        if SearchShaped(Path(q.key)) && q.data.SearchData? {
          queries := queries[i := q.(data := SearchData(MapSearchPages(q.data.found, t => PatchedIf(t, id, u))))];
        }
      }
    }

    method FindCachedTweet(id: string) returns (hit: Option<Tweet>)
      ensures hit == Find(queries, id)
      ensures FitsAll(queries) ==>
                (hit.Some? <==> Cached(queries, id)) && exists i, j, k :: FoundAt(queries, id, hit, i, j, k)
    {
      if FitsAll(queries) {
        var _, _, _ := FindFinds(queries, id);
      }
      hit := LookIn(id, InDetail);
      if hit.None? {
        hit := LookIn(id, InFeeds);
      }
      if hit.None? {
        hit := LookIn(id, InSearches);
      }
    }

    method LookIn(id: string, place: Place) returns (hit: Option<Tweet>)
      ensures hit == FirstAmong(queries, id, place)
    {
      for i := 0 to |queries|
        invariant FirstAmong(queries, id, place) == FirstAmong(queries[i..], id, place)
      {
        hit := FirstIn(queries[i], id, place);
        if hit.Some? {
          return;
        }
      }
      hit := None;
    }
  }

  /** `useToggle(...).mutate`. */
  method Mutate(qc: QueryClient, toggles: D.Toggles, field: Field, id: string)
    requires FitsAll(qc.queries)
    modifies qc, toggles
    ensures App(qc.queries, toggles.View()) == Apply(old(App(qc.queries, toggles.View())), Press(field, id))
    ensures if Cached(old(qc.queries), id)
            then exists from :: LogsClick(old(toggles.View()), toggles.View(), field, id, from)
            else qc.queries == old(qc.queries) && toggles.View() == old(toggles.View())
    ensures AllSameBut(old(qc.queries), qc.queries, field, id)
  {
    ClickDoes(App(qc.queries, toggles.View()), field, id, false, 0);
    var current := qc.FindCachedTweet(id);
    if current.None? {
      return;
    }
    var currentState := Flag(current.value, field);
    var newState := !currentState;
    qc.ApplyTweetUpdate(id, Update(field, newState, Max(0, Count(current.value, field) + if newState then 1 else -1)));
    toggles.DebouncedToggle(ScopeOf(field, id), currentState, newState, toggles.made, D.DEFAULT_DELAY_MS);
  }

  /** What becomes of the app when these things come up in turn. A timer that is gone, or not
      yet due, does not come up. */
  function After(a: App, events: seq<Step>): App {
    if events == [] then a
    else
      var before, last := After(a, events[..|events| - 1]), events[|events| - 1];
      if Enabled(before, last) then Apply(before, last) else before
  }

  lemma AfterOneMore(a: App, events: seq<Step>, i: nat)
    requires i < |events|
    ensures var before := After(a, events[..i]);
            After(a, events[..i + 1]) == if Enabled(before, events[i]) then Apply(before, events[i]) else before
  {
    assert events[..i + 1][..i] == events[..i];
  }

  /** The browser's event loop, over whatever clicks and timers come up. */
  method Session(qc: QueryClient, toggles: D.Toggles, events: seq<Step>)
    requires FitsAll(qc.queries)
    modifies qc, toggles
    ensures FitsAll(qc.queries)
    ensures App(qc.queries, toggles.View()) == After(old(App(qc.queries, toggles.View())), events)
  {
    ghost var start := App(qc.queries, toggles.View());
    for i := 0 to |events|
      invariant FitsAll(qc.queries) && App(qc.queries, toggles.View()) == After(start, events[..i])
    {
      AfterOneMore(start, events, i);
      match events[i]
      case Press(field, id) =>
        PressFits(App(qc.queries, toggles.View()), field, id);
        Mutate(qc, toggles, field, id);
      case Timer(timer) =>
        if timer in toggles.timers && toggles.timers[timer].due <= toggles.now {
          toggles.RunTimer(timer);
        }
      case Wait(ms) => toggles.Wait(ms);
    }
    assert events[..|events|] == events;
  }

  lemma PressFits(a: App, field: Field, id: string)
    requires FitsAll(a.qs)
    ensures FitsAll(Apply(a, Press(field, id)).qs)
  {
    if Find(a.qs, id).Some? {
      UpdateFits(a.qs, id, Flip(Find(a.qs, id).value, field));
    }
  }

  lemma {:induction false} RunsSnoc(a: App, steps: seq<Step>, mid: App, step: Step)
    requires Runs(a, steps, mid) && Enabled(mid, step)
    ensures Runs(a, steps + [step], Apply(mid, step))
    decreases |steps|
  {
    var more := steps + [step];
    if steps == [] {
      assert more[1..] == [] && Runs(Apply(mid, step), more[1..], Apply(mid, step));
    } else {
      assert more[1..] == steps[1..] + [step];
      RunsSnoc(Apply(a, steps[0]), steps[1..], mid, step);
    }
  }

  lemma {:induction false} PressesSnoc(steps: seq<Step>, last: Step, field: Field, id: string)
    ensures Presses(steps + [last], field, id)
         == Presses(steps, field, id) + if last == Press(field, id) then 1 else 0
  {
    var more := steps + [last];
    if steps == [] {
      assert more[1..] == [];
    } else {
      assert more[1..] == steps[1..] + [last];
      PressesSnoc(steps[1..], last, field, id);
    }
  }

  /** Whatever comes up is a run of the composed system, with all the clicks. */
  lemma {:induction false} AfterIsRun(a: App, events: seq<Step>, field: Field, id: string) returns (steps: seq<Step>)
    ensures Runs(a, steps, After(a, events)) && Presses(steps, field, id) == Presses(events, field, id)
  {
    if events == [] {
      return [];
    }
    var before, last := events[..|events| - 1], events[|events| - 1];
    steps := AfterIsRun(a, before, field, id);
    assert events == before + [last];
    PressesSnoc(before, last, field, id);
    if Enabled(After(a, before), last) {
      RunsSnoc(a, steps, After(a, before), last);
      PressesSnoc(steps, last, field, id);
      steps := steps + [last];
    }
  }

  /** So the session converges: every copy shows the last intent, and when no burst on the
      button is under way the requests sent bring the server to what the copies show. */
  lemma SessionConverges(qs: seq<Query>, events: seq<Step>, field: Field, id: string, initially: bool, base: nat)
    requires FitsAll(qs) && AllShow(qs, id, Shown(field, initially, base))
    ensures var end, scope := After(App(qs, D.INIT), events), ScopeOf(field, id);
            var intent := D.LastIntent(end.deb.log, scope, initially);
            && AllShow(end.qs, id, Shown(field, intent, base))
            && (D.BurstOf(end.deb.log, scope) == [] ==> D.Reached(end.deb.requests, scope, initially) == intent)
    ensures Cached(qs, id) ==>
              D.LastIntent(After(App(qs, D.INIT), events).deb.log, ScopeOf(field, id), initially)
              == (initially != (Presses(events, field, id) % 2 == 1))
  {
    var steps := AfterIsRun(App(qs, D.INIT), events, field, id);
    ButtonsConverge(qs, steps, After(App(qs, D.INIT), events), field, id, initially, base);
  }
}
