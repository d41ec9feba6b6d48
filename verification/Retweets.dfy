/** Retweet bookkeeping in tweet-service: the rows, the denormalised count, the Redis count
    and the outbox events of each (user, tweet) pair. */
module Retweets {
  import opened Wrappers

  type Pair = (string, string)

  datatype TweetRow = TweetRow(author: string, retweetCount: int)

  datatype Event = TweetCreated(tweet: string, author: string)
                 | TweetDeleted(tweet: string, author: string)
                 | Retweeted(id: string, tweet: string, author: string, user: string)
                 | Unretweeted(id: string, tweet: string, user: string)

  /** `retweets` is keyed by (retweeter, tweet), which the table keeps unique. `lost` adds up
      the Redis increments that never arrived, and `created` all tweet IDs ever handed out;
      the code has neither. */
  datatype State = State(tweets: map<string, TweetRow>, retweets: map<Pair, string>, outbox: seq<Event>,
                         redis: map<string, int>, lost: map<string, int>, created: set<string>)

  const INIT := State(map[], map[], [], map[], map[], {})

  /** How a transaction ends, and whether Redis takes the increment after it. */
  datatype End = Aborted | Committed(redisUp: bool)

  datatype Result = Done | NotFound | Forbidden | AlreadyRetweeted | Failed

  datatype Call = Create(tweet: string, author: string)
                | Delete(tweet: string, author: string)
                | Retweet(user: string, tweet: string, id: string)
                | Unretweet(user: string, tweet: string)

  function At(counts: map<string, int>, tweet: string): int {
    if tweet in counts then counts[tweet] else 0
  }

  /** `incrCount` after the commit. */
  function Incr(s: State, tweet: string, delta: int, redisUp: bool): State {
    if redisUp then s.(redis := s.redis[tweet := At(s.redis, tweet) + delta])
    else s.(lost := s.lost[tweet := At(s.lost, tweet) + delta])
  }

  function Bumped(tweets: map<string, TweetRow>, tweet: string, delta: int): map<string, TweetRow> {
    if tweet !in tweets then tweets
    else
      var n := tweets[tweet].retweetCount + delta;
      tweets[tweet := tweets[tweet].(retweetCount := if delta < 0 && n < 0 then 0 else n)]
  }

  /** The transaction of `Retweet`; none on the unique or the foreign key. */
  function RetweetTx(s: State, user: string, tweet: string, id: string, author: string): Option<State> {
    if (user, tweet) in s.retweets || tweet !in s.tweets then None
    else Some(s.(retweets := s.retweets[(user, tweet) := id], tweets := Bumped(s.tweets, tweet, 1),
                 outbox := s.outbox + [Retweeted(id, tweet, author, user)]))
  }

  /** The transaction of `Unretweet`, for the row that was read before it began. Deleting
      looks at the pair only, and does not check that it deleted something. */
  function UnretweetTx(s: State, user: string, tweet: string, existing: string): State {
    s.(retweets := s.retweets - {(user, tweet)}, tweets := Bumped(s.tweets, tweet, -1),
       outbox := s.outbox + [Unretweeted(existing, tweet, user)])
  }

  /** Deleting a tweet takes its retweet rows along. */
  function DeleteTx(s: State, tweet: string, author: string): State {
    s.(tweets := s.tweets - {tweet}, retweets := map p | p in s.retweets && p.1 != tweet :: s.retweets[p],
       outbox := s.outbox + [TweetDeleted(tweet, author)])
  }

  function Apply(s: State, call: Call, end: End): (State, Result) {
    match call
    case Create(tweet, author) =>
      if end.Aborted? || tweet in s.tweets then (s, Failed)
      else (s.(tweets := s.tweets[tweet := TweetRow(author, 0)], outbox := s.outbox + [TweetCreated(tweet, author)],
               created := s.created + {tweet}), Done)
    case Delete(tweet, author) =>
      if tweet !in s.tweets then (s, NotFound)
      else if s.tweets[tweet].author != author then (s, Forbidden)
      else if end.Aborted? then (s, Failed)
      else (DeleteTx(s, tweet, author), Done)
    case Retweet(user, tweet, id) =>
      if tweet !in s.tweets then (s, NotFound)
      else
        var tx := RetweetTx(s, user, tweet, id, s.tweets[tweet].author);
        if tx.None? then (s, AlreadyRetweeted)
        else if end.Aborted? then (s, Failed)
        else (Incr(tx.value, tweet, 1, end.redisUp), Done)
    case Unretweet(user, tweet) =>
      if (user, tweet) !in s.retweets then (s, NotFound)
      else if end.Aborted? then (s, Failed)
      else (Incr(UnretweetTx(s, user, tweet, s.retweets[(user, tweet)]), tweet, -1, end.redisUp), Done)
  }

  // ------------------------------------------------------- what the calls do

  /** The stored count of this tweet, and Redis's or else what Redis has missed, has moved. */
  ghost predicate Counted(s: State, s': State, tweet: string, delta: int, redisUp: bool) {
    && s'.created == s.created && s'.tweets.Keys == s.tweets.Keys
    && (forall t <- s.tweets :: s'.tweets[t].author == s.tweets[t].author)
    && (forall t <- s.tweets | t != tweet :: s'.tweets[t] == s.tweets[t])
    && (forall t :: At(s'.redis, t) == At(s.redis, t) + if redisUp && t == tweet then delta else 0)
    && (forall t :: At(s'.lost, t) == At(s.lost, t) + if !redisUp && t == tweet then delta else 0)
  }

  /** A retweet that commits adds its row, one to the count, and an event naming the retweet, the
      tweet, its author and the retweeter. It needs a live tweet not yet retweeted by this user;
      otherwise nothing changes. */
  lemma RetweetDoes(s: State, user: string, tweet: string, id: string, end: End)
    ensures var (s', r) := Apply(s, Retweet(user, tweet, id), end);
            && (r == Done <==> tweet in s.tweets && (user, tweet) !in s.retweets && end.Committed?)
            && (r == NotFound <==> tweet !in s.tweets)
            && (r == AlreadyRetweeted <==> tweet in s.tweets && (user, tweet) in s.retweets)
            && if r == Done then
                 && s'.retweets == s.retweets[(user, tweet) := id]
                 && s'.tweets[tweet].retweetCount == s.tweets[tweet].retweetCount + 1
                 && s'.outbox == s.outbox + [Retweeted(id, tweet, s.tweets[tweet].author, user)]
                 && Counted(s, s', tweet, 1, end.redisUp)
               else s' == s
  {
  }

  /** An unretweet that commits takes the row, one off the count, and leaves an event naming the
      retweet it undoes. */
  lemma UnretweetDoes(s: State, user: string, tweet: string, end: End)
    ensures var (s', r) := Apply(s, Unretweet(user, tweet), end);
            && (r == Done <==> (user, tweet) in s.retweets && end.Committed?)
            && (r == NotFound <==> (user, tweet) !in s.retweets)
            && if r == Done then
                 && s'.retweets == s.retweets - {(user, tweet)}
                 && (tweet in s.tweets ==>
                       var n := s.tweets[tweet].retweetCount;
                       s'.tweets[tweet].retweetCount == if n < 1 then 0 else n - 1)
                 && s'.outbox == s.outbox + [Unretweeted(s.retweets[(user, tweet)], tweet, user)]
                 && Counted(s, s', tweet, -1, end.redisUp)
               else s' == s
  {
  }

  /** A new tweet starts without retweets; a deletion by the author takes the tweet and all its
      retweet rows, and no others. */
  lemma CreateAndDeleteDo(s: State, tweet: string, author: string, end: End)
    ensures var (s', r) := Apply(s, Create(tweet, author), end);
            && (r == Done <==> tweet !in s.tweets && end.Committed?)
            && if r == Done then
                 && s'.tweets == s.tweets[tweet := TweetRow(author, 0)] && s'.retweets == s.retweets
                 && s'.outbox == s.outbox + [TweetCreated(tweet, author)] && s'.redis == s.redis && s'.lost == s.lost
               else s' == s
    ensures var (s', r) := Apply(s, Delete(tweet, author), end);
            && (r == Done <==> tweet in s.tweets && s.tweets[tweet].author == author && end.Committed?)
            && (r == Forbidden <==> tweet in s.tweets && s.tweets[tweet].author != author)
            && if r == Done then
                 && s'.tweets == s.tweets - {tweet} && s'.outbox == s.outbox + [TweetDeleted(tweet, author)]
                 && (forall p :: p in s'.retweets <==> p in s.retweets && p.1 != tweet)
                 && (forall p <- s'.retweets :: s'.retweets[p] == s.retweets[p])
                 && s'.redis == s.redis && s'.lost == s.lost
               else s' == s
  {
  }

  /** ULIDs: a tweet ID is handed out once. */
  ghost predicate FreshId(s: State, call: Call) {
    call.Create? ==> call.tweet !in s.created
  }

  ghost predicate Runs(s: State, calls: seq<(Call, End)>, last: State)
    decreases |calls|
  {
    if calls == [] then s == last
    else FreshId(s, calls[0].0) && Runs(Apply(s, calls[0].0, calls[0].1).0, calls[1..], last)
  }

  // ---------------------------------------------------------------- invariant

  predicate IsOf(e: Event, user: string, tweet: string) {
    (e.Retweeted? || e.Unretweeted?) && e.user == user && e.tweet == tweet
  }

  /** The retweet events of one pair, in order. */
  function PairEvents(outbox: seq<Event>, user: string, tweet: string): seq<Event> {
    if outbox == [] then []
    else
      var front, e := PairEvents(outbox[..|outbox| - 1], user, tweet), outbox[|outbox| - 1];
      if IsOf(e, user, tweet) then front + [e] else front
  }

  /** The last event is a retweet not yet undone. */
  predicate Open(evs: seq<Event>) {
    evs != [] && evs[|evs| - 1].Retweeted?
  }

  /** After a retweet comes the unretweet that names it, otherwise a retweet. */
  predicate Follows(evs: seq<Event>, e: Event) {
    if Open(evs) then e.Unretweeted? && e.id == evs[|evs| - 1].id else e.Retweeted?
  }

  predicate Alternates(evs: seq<Event>) {
    evs == [] || (Alternates(evs[..|evs| - 1]) && Follows(evs[..|evs| - 1], evs[|evs| - 1]))
  }

  ghost predicate PairOk(s: State, user: string, tweet: string) {
    var evs := PairEvents(s.outbox, user, tweet);
    && Alternates(evs)
    && ((user, tweet) in s.retweets <==> Open(evs) && tweet in s.tweets)
    && ((user, tweet) in s.retweets ==> s.retweets[(user, tweet)] == evs[|evs| - 1].id)
    && (tweet !in s.created ==> evs == [])
  }

  function Rows(retweets: map<Pair, string>, tweet: string): set<Pair> {
    set p <- retweets.Keys | p.1 == tweet
  }

  ghost predicate CountOk(s: State, tweet: string) {
    && (tweet in s.tweets ==>
          s.tweets[tweet].retweetCount == |Rows(s.retweets, tweet)| == At(s.redis, tweet) + At(s.lost, tweet))
    && (tweet !in s.created ==> tweet !in s.tweets && At(s.redis, tweet) == At(s.lost, tweet) == 0)
  }

  ghost predicate Inv(s: State) {
    && (forall user, tweet :: PairOk(s, user, tweet))
    && forall tweet :: CountOk(s, tweet)
  }

  lemma PairEventsAdd(outbox: seq<Event>, e: Event, user: string, tweet: string)
    ensures PairEvents(outbox + [e], user, tweet)
         == if IsOf(e, user, tweet) then PairEvents(outbox, user, tweet) + [e] else PairEvents(outbox, user, tweet)
  {
    assert (outbox + [e])[..|outbox|] == outbox;
  }

  lemma AlternatesAdd(evs: seq<Event>, e: Event)
    ensures Alternates(evs + [e]) <==> Alternates(evs) && Follows(evs, e)
  {
    assert (evs + [e])[..|evs|] == evs;
  }

  lemma RowsAdd(retweets: map<Pair, string>, p: Pair, id: string, tweet: string)
    requires p !in retweets
    ensures |Rows(retweets[p := id], tweet)| == |Rows(retweets, tweet)| + if p.1 == tweet then 1 else 0
  {
    assert Rows(retweets[p := id], tweet)
        == if p.1 == tweet then Rows(retweets, tweet) + {p} else Rows(retweets, tweet);
  }

  lemma RowsRemove(retweets: map<Pair, string>, p: Pair, tweet: string)
    requires p in retweets
    ensures |Rows(retweets - {p}, tweet)| == |Rows(retweets, tweet)| - if p.1 == tweet then 1 else 0
  {
    assert Rows(retweets - {p}, tweet) == if p.1 == tweet then Rows(retweets, tweet) - {p} else Rows(retweets, tweet);
  }

  lemma CreatePairs(s: State, tweet: string, author: string, end: End, u: string, t: string)
    requires PairOk(s, u, t) && tweet !in s.created
    ensures PairOk(Apply(s, Create(tweet, author), end).0, u, t)
  {
    PairEventsAdd(s.outbox, TweetCreated(tweet, author), u, t);
  }

  lemma CreateKeeps(s: State, tweet: string, author: string, end: End)
    requires Inv(s) && tweet !in s.created
    ensures Inv(Apply(s, Create(tweet, author), end).0)
  {
    var s' := Apply(s, Create(tweet, author), end).0;
    forall u, t ensures PairOk(s', u, t) {
      assert PairOk(s, u, t);
      CreatePairs(s, tweet, author, end, u, t);
    }
    forall t ensures CountOk(s', t) {
      assert CountOk(s, t);
      if t == tweet {
        forall p ensures p !in Rows(s.retweets, t) {
          assert PairOk(s, p.0, t);
        }
        assert Rows(s.retweets, t) == {};
      }
    }
  }

  lemma DeletePairs(s: State, tweet: string, author: string, end: End, u: string, t: string)
    requires PairOk(s, u, t)
    ensures PairOk(Apply(s, Delete(tweet, author), end).0, u, t)
  {
    PairEventsAdd(s.outbox, TweetDeleted(tweet, author), u, t);
  }

  lemma DeleteKeeps(s: State, tweet: string, author: string, end: End)
    requires Inv(s)
    ensures Inv(Apply(s, Delete(tweet, author), end).0)
  {
    var s' := Apply(s, Delete(tweet, author), end).0;
    forall u, t ensures PairOk(s', u, t) {
      assert PairOk(s, u, t);
      DeletePairs(s, tweet, author, end, u, t);
    }
    forall t ensures CountOk(s', t) {
      assert CountOk(s, t);
      if t != tweet {
        assert Rows(s'.retweets, t) == Rows(s.retweets, t);
      }
    }
  }

  lemma RetweetTxPairs(s: State, user: string, tweet: string, id: string, author: string, u: string, t: string)
    requires Inv(s) && RetweetTx(s, user, tweet, id, author).Some?
    ensures PairOk(RetweetTx(s, user, tweet, id, author).value, u, t)
  {
    assert PairOk(s, u, t) && CountOk(s, tweet);
    var e := Retweeted(id, tweet, author, user);
    PairEventsAdd(s.outbox, e, u, t);
    if u == user && t == tweet {
      AlternatesAdd(PairEvents(s.outbox, u, t), e);
    }
  }

  lemma RetweetCounts(s: State, user: string, tweet: string, id: string, end: End, t: string)
    requires CountOk(s, t) && CountOk(s, tweet)
    ensures CountOk(Apply(s, Retweet(user, tweet, id), end).0, t)
  {
    if (user, tweet) !in s.retweets {
      RowsAdd(s.retweets, (user, tweet), id, t);
    }
  }

  lemma RetweetKeeps(s: State, user: string, tweet: string, id: string, end: End)
    requires Inv(s)
    ensures Inv(Apply(s, Retweet(user, tweet, id), end).0)
  {
    var s' := Apply(s, Retweet(user, tweet, id), end).0;
    if s' != s {
      var author := s.tweets[tweet].author;
      forall u, t ensures PairOk(s', u, t) {
        RetweetTxPairs(s, user, tweet, id, author, u, t);
        assert PairOk(RetweetTx(s, user, tweet, id, author).value, u, t);
      }
      forall t ensures CountOk(s', t) {
        assert CountOk(s, t);
        RetweetCounts(s, user, tweet, id, end, t);
      }
    }
  }

  /** Undoing the row that is there keeps every pair's events in order. */
  lemma UnretweetTxPairs(s: State, user: string, tweet: string, u: string, t: string)
    requires Inv(s) && (user, tweet) in s.retweets
    ensures PairOk(UnretweetTx(s, user, tweet, s.retweets[(user, tweet)]), u, t)
  {
    assert PairOk(s, u, t) && PairOk(s, user, tweet) && CountOk(s, tweet);
    var e := Unretweeted(s.retweets[(user, tweet)], tweet, user);
    PairEventsAdd(s.outbox, e, u, t);
    if u == user && t == tweet {
      AlternatesAdd(PairEvents(s.outbox, u, t), e);
    }
  }

  /** The decrement never meets its floor, so it takes exactly one off. */
  lemma FloorIsNeverMet(s: State, user: string, tweet: string)
    requires Inv(s) && (user, tweet) in s.retweets
    ensures tweet in s.tweets && s.tweets[tweet].retweetCount >= 1
  {
    assert PairOk(s, user, tweet) && CountOk(s, tweet);
    assert (user, tweet) in Rows(s.retweets, tweet);
  }

  lemma UnretweetCounts(s: State, user: string, tweet: string, end: End, t: string)
    requires CountOk(s, t) && CountOk(s, tweet) && (user, tweet) in s.retweets
    requires tweet in s.tweets && s.tweets[tweet].retweetCount >= 1
    ensures CountOk(Apply(s, Unretweet(user, tweet), end).0, t)
  {
    RowsRemove(s.retweets, (user, tweet), t);
  }

  lemma UnretweetKeeps(s: State, user: string, tweet: string, end: End)
    requires Inv(s)
    ensures Inv(Apply(s, Unretweet(user, tweet), end).0)
  {
    var s' := Apply(s, Unretweet(user, tweet), end).0;
    if (user, tweet) in s.retweets && end.Committed? {
      var tx := UnretweetTx(s, user, tweet, s.retweets[(user, tweet)]);
      FloorIsNeverMet(s, user, tweet);
      forall u, t ensures PairOk(s', u, t) {
        UnretweetTxPairs(s, user, tweet, u, t);
        assert PairOk(tx, u, t);
      }
      forall t ensures CountOk(s', t) {
        assert CountOk(s, t);
        UnretweetCounts(s, user, tweet, end, t);
      }
    }
  }

  lemma CallKeepsInv(s: State, call: Call, end: End)
    requires Inv(s) && FreshId(s, call)
    ensures Inv(Apply(s, call, end).0)
  {
    match call
    case Create(tweet, author) => CreateKeeps(s, tweet, author, end);
    case Delete(tweet, author) => DeleteKeeps(s, tweet, author, end);
    case Retweet(user, tweet, id) => RetweetKeeps(s, user, tweet, id, end);
    case Unretweet(user, tweet) => UnretweetKeeps(s, user, tweet, end);
  }

  lemma {:induction false} RunKeepsInv(s: State, calls: seq<(Call, End)>, last: State)
    requires Inv(s) && Runs(s, calls, last)
    ensures Inv(last)
    decreases |calls|
  {
    if calls != [] {
      CallKeepsInv(s, calls[0].0, calls[0].1);
      RunKeepsInv(Apply(s, calls[0].0, calls[0].1).0, calls[1..], last);
    }
  }

  // ------------------------------------------------------------ main results

  /** In every run of calls, with aborts: the events of each pair alternate, each unretweeted
      names the retweet it undoes; and the row is there exactly while the last event is a
      retweet and the tweet lives. */
  lemma EventsAlternate(calls: seq<(Call, End)>, s: State, user: string, tweet: string)
    requires Runs(INIT, calls, s)
    ensures var evs := PairEvents(s.outbox, user, tweet);
            && Alternates(evs)
            && ((user, tweet) in s.retweets <==> Open(evs) && tweet in s.tweets)
            && ((user, tweet) in s.retweets ==> s.retweets[(user, tweet)] == evs[|evs| - 1].id)
  {
    RunKeepsInv(INIT, calls, s);
    assert PairOk(s, user, tweet);
  }

  /** In every run the stored count of a live tweet is the number of its retweet rows, and the
      Redis count is that number less the increments that never arrived. */
  lemma CountsMatchRows(calls: seq<(Call, End)>, s: State, tweet: string)
    requires Runs(INIT, calls, s) && tweet in s.tweets
    ensures s.tweets[tweet].retweetCount == |Rows(s.retweets, tweet)|
    ensures At(s.redis, tweet) == |Rows(s.retweets, tweet)| - At(s.lost, tweet)
  {
    RunKeepsInv(INIT, calls, s);
    assert CountOk(s, tweet);
  }

  lemma {:induction false} NothingLost(s: State, calls: seq<(Call, End)>, last: State)
    requires Runs(s, calls, last) && s.lost == map[]
    requires forall c <- calls :: c.1.Committed? ==> c.1.redisUp
    ensures last.lost == map[]
    decreases |calls|
  {
    if calls != [] {
      assert calls[0] in calls;
      NothingLost(Apply(s, calls[0].0, calls[0].1).0, calls[1..], last);
    }
  }

  /** With Redis up throughout, all three counts agree. */
  lemma CountsAgreeWithRedisUp(calls: seq<(Call, End)>, s: State, tweet: string)
    requires Runs(INIT, calls, s) && tweet in s.tweets
    requires forall c <- calls :: c.1.Committed? ==> c.1.redisUp
    ensures s.tweets[tweet].retweetCount == |Rows(s.retweets, tweet)| == At(s.redis, tweet)
  {
    CountsMatchRows(calls, s, tweet);
    NothingLost(INIT, calls, s);
  }

  predicate StaysInOrder(s: State, user: string, tweet: string, existing: string) {
    Alternates(PairEvents(UnretweetTx(s, user, tweet, existing).outbox, user, tweet))
  }

  /** The last event is the retweet with this ID. */
  predicate LastIs(evs: seq<Event>, id: string) {
    Open(evs) && evs[|evs| - 1].id == id
  }

  predicate IsRow(s: State, user: string, tweet: string, id: string) {
    (user, tweet) in s.retweets && s.retweets[(user, tweet)] == id
  }

  /** `Unretweet` reads the row before its transaction. When that runs, on a live tweet or one
      deleted meanwhile, the events stay in order if and only if the last one is the retweet
      read; on a live tweet, that is if and only if the row read is still the pair's row.
      Otherwise an unretweeted event is one too many or names the wrong retweet. */
  lemma StaleUnretweetIff(s: State, user: string, tweet: string, existing: string)
    requires Inv(s)
    ensures StaysInOrder(s, user, tweet, existing) <==> LastIs(PairEvents(s.outbox, user, tweet), existing)
    ensures tweet in s.tweets ==> (StaysInOrder(s, user, tweet, existing) <==> IsRow(s, user, tweet, existing))
  {
    assert PairOk(s, user, tweet);
    var e := Unretweeted(existing, tweet, user);
    PairEventsAdd(s.outbox, e, user, tweet);
    AlternatesAdd(PairEvents(s.outbox, user, tweet), e);
  }

  // -------------------------------------------------------------------- code

  class TweetService {
    var s: State

    constructor ()
      ensures s == INIT
    {
      s := INIT;
    }

    method IncrCount(tweet: string, delta: int, redisUp: bool)
      modifies this
      ensures s == Incr(old(s), tweet, delta, redisUp)
    {
      if redisUp {
        s := s.(redis := s.redis[tweet := At(s.redis, tweet) + delta]);
      } else {
        s := s.(lost := s.lost[tweet := At(s.lost, tweet) + delta]);
      }
    }

    method Retweet(user: string, tweet: string, id: string, end: End) returns (r: Result)
      modifies this
      ensures (s, r) == Apply(old(s), Call.Retweet(user, tweet, id), end)
    {
      if tweet !in s.tweets {
        return NotFound;
      }
      var author := s.tweets[tweet].author;
      var begun := s;
      if (user, tweet) in s.retweets {
        return AlreadyRetweeted;
      }
      s := s.(retweets := s.retweets[(user, tweet) := id]);
      s := s.(tweets := s.tweets[tweet := s.tweets[tweet].(retweetCount := s.tweets[tweet].retweetCount + 1)]);
      s := s.(outbox := s.outbox + [Retweeted(id, tweet, author, user)]);
      if end.Aborted? {
        s := begun;
        return Failed;
      }
      IncrCount(tweet, 1, end.redisUp);
      r := Done;
    }

    method Unretweet(user: string, tweet: string, end: End) returns (r: Result)
      modifies this
      ensures (s, r) == Apply(old(s), Call.Unretweet(user, tweet), end)
    {
      if (user, tweet) !in s.retweets {
        return NotFound;
      }
      var existing := s.retweets[(user, tweet)];
      var begun := s;
      s := s.(retweets := s.retweets - {(user, tweet)});
      if tweet in s.tweets {
        var n := s.tweets[tweet].retweetCount - 1;
        s := s.(tweets := s.tweets[tweet := s.tweets[tweet].(retweetCount := if n < 0 then 0 else n)]);
      }
      s := s.(outbox := s.outbox + [Unretweeted(existing, tweet, user)]);
      if end.Aborted? {
        s := begun;
        return Failed;
      }
      IncrCount(tweet, -1, end.redisUp);
      r := Done;
    }

    method Delete(tweet: string, author: string, end: End) returns (r: Result)
      modifies this
      ensures (s, r) == Apply(old(s), Call.Delete(tweet, author), end)
    {
      if tweet !in s.tweets {
        return NotFound;
      }
      if s.tweets[tweet].author != author {
        return Forbidden;
      }
      if end.Aborted? {
        return Failed;
      }
      s := s.(tweets := s.tweets - {tweet}, retweets := map p | p in s.retweets && p.1 != tweet :: s.retweets[p]);
      s := s.(outbox := s.outbox + [TweetDeleted(tweet, author)]);
      r := Done;
    }
  }
}
