/** The Redis list behind a user's following feed: how fan-out, backfill and unretweet
    change it, with the exact meaning of LPUSH, LTRIM and LREM. */
module Timeline {
  import opened Codec
  import opened Sequences
  import opened Wrappers

  const FOLLOWING_LIMIT := 800
  const CELEB_THRESHOLD := 1000
  const BACKFILL_LIMIT := 20

  // ---------------------------------------------------------- Redis commands

  function LPush(l: seq<string>, e: string): seq<string> {
    [e] + l
  }

  /** LTRIM key 0 (n - 1) */
  function LTrim(l: seq<string>, n: nat): seq<string> {
    if |l| <= n then l else l[..n]
  }

  /** LREM key 1 e: drops the first occurrence, counting from the head. */
  function LRem(l: seq<string>, e: string): seq<string> {
    if l == [] then []
    else if l[0] == e then l[1..]
    else [l[0]] + LRem(l[1..], e)
  }

  /** The elements of `l` that do not have this prefix, in order. */
  function WithoutPrefix(l: seq<string>, prefix: string): seq<string> {
    if l == [] then []
    else (if prefix <= l[0] then [] else [l[0]]) + WithoutPrefix(l[1..], prefix)
  }

  function WithPrefix(l: seq<string>, prefix: string): seq<string> {
    if l == [] then []
    else (if prefix <= l[0] then [l[0]] else []) + WithPrefix(l[1..], prefix)
  }

  function LRemAll(l: seq<string>, removals: seq<string>): seq<string>
    decreases |removals|
  {
    if removals == [] then l else LRemAll(LRem(l, removals[0]), removals[1..])
  }

  /** What the commands leave, position by position. */
  lemma CommandsDo(l: seq<string>, e: string, n: nat)
    ensures |LPush(l, e)| == |l| + 1 && LPush(l, e)[0] == e && forall i | 0 <= i < |l| :: LPush(l, e)[i + 1] == l[i]
    ensures |LTrim(l, n)| == (if |l| < n then |l| else n) && forall i | 0 <= i < |LTrim(l, n)| :: LTrim(l, n)[i] == l[i]
    ensures e !in l ==> LRem(l, e) == l
    ensures forall i | 0 <= i < |l| && l[i] == e && e !in l[..i] :: LRem(l, e) == l[..i] + l[i + 1..]
  {
    if e !in l {
      RemAbsent(l, e);
    }
    forall i | 0 <= i < |l| && l[i] == e && e !in l[..i] ensures LRem(l, e) == l[..i] + l[i + 1..] {
      RemFirst(l, e, i);
    }
  }

  lemma {:induction false} RemFirst(l: seq<string>, e: string, i: nat)
    requires i < |l| && l[i] == e && e !in l[..i]
    ensures LRem(l, e) == l[..i] + l[i + 1..]
  {
    if i > 0 {
      assert l[0] == l[..i][0] && l[1..][..i - 1] == l[..i][1..];
      RemFirst(l[1..], e, i - 1);
      assert l[..i] + l[i + 1..] == [l[0]] + (l[1..][..i - 1] + l[1..][i..]);
    }
  }

  /** Dropping by prefix leaves, in order, exactly what does not have it. */
  lemma {:induction false} WithoutPrefixPicks(l: seq<string>, prefix: string) returns (at: seq<nat>)
    ensures Picked(l, WithoutPrefix(l, prefix), at)
    ensures forall i: nat | i < |l| :: i in at <==> !(prefix <= l[i])
  {
    if l == [] {
      return [];
    }
    var tail := WithoutPrefixPicks(l[1..], prefix);
    assert l == [l[0]] + l[1..];
    at := PickedCons(l[0], l[1..], WithoutPrefix(l[1..], prefix), tail, !(prefix <= l[0]));
    forall i: nat | i < |l| ensures i in at <==> !(prefix <= l[i]) {
      if i > 0 {
        assert l[1..][i - 1] == l[i];
      }
    }
  }

  // ------------------------------------------------------------------ lemmas

  lemma {:induction false} LRemBehind(e: string, l: seq<string>, removals: seq<string>)
    requires e !in removals
    ensures LRemAll([e] + l, removals) == [e] + LRemAll(l, removals)
    decreases |removals|
  {
    if removals != [] {
      assert ([e] + l)[1..] == l;
      LRemBehind(e, LRem(l, removals[0]), removals[1..]);
    }
  }

  lemma {:induction false} WithPrefixOnly(l: seq<string>, prefix: string)
    ensures forall e <- WithPrefix(l, prefix) :: prefix <= e && e in l
  {
    if l != [] {
      WithPrefixOnly(l[1..], prefix);
    }
  }

  /** One LREM per matching element of a snapshot removes every matching element, duplicates
      included, and leaves the rest in order. */
  lemma {:induction false} RemovalsFilter(l: seq<string>, prefix: string)
    ensures LRemAll(l, WithPrefix(l, prefix)) == WithoutPrefix(l, prefix)
  {
    if l != [] {
      var e, tail := l[0], l[1..];
      RemovalsFilter(tail, prefix);
      assert l == [e] + tail;
      if prefix <= e {
        RemovalOfMatch(e, tail, prefix);
      } else {
        RemovalsBehind(e, tail, prefix);
      }
    }
  }

  lemma RemovalOfMatch(e: string, tail: seq<string>, prefix: string)
    requires prefix <= e && LRemAll(tail, WithPrefix(tail, prefix)) == WithoutPrefix(tail, prefix)
    ensures LRemAll([e] + tail, WithPrefix([e] + tail, prefix)) == WithoutPrefix([e] + tail, prefix)
  {
    var l := [e] + tail;
    assert l[0] == e && l[1..] == tail;
    assert WithPrefix(l, prefix) == [e] + WithPrefix(tail, prefix);
    assert WithPrefix(l, prefix)[1..] == WithPrefix(tail, prefix);
    assert LRem(l, e) == tail;
    assert WithoutPrefix(l, prefix) == [] + WithoutPrefix(tail, prefix) == WithoutPrefix(tail, prefix);
  }

  lemma RemovalsBehind(e: string, tail: seq<string>, prefix: string)
    requires !(prefix <= e) && LRemAll(tail, WithPrefix(tail, prefix)) == WithoutPrefix(tail, prefix)
    ensures LRemAll([e] + tail, WithPrefix([e] + tail, prefix)) == WithoutPrefix([e] + tail, prefix)
  {
    var l, rest := [e] + tail, WithPrefix(tail, prefix);
    assert l[0] == e && l[1..] == tail;
    assert WithPrefix(l, prefix) == [] + rest == rest;
    WithPrefixOnly(tail, prefix);
    LRemBehind(e, tail, rest);
  }

  lemma {:induction false} RemovingAbsentIsNothing(l: seq<string>, removals: seq<string>)
    requires forall e <- removals :: e !in l
    ensures LRemAll(l, removals) == l
    decreases |removals|
  {
    if removals != [] {
      RemAbsent(l, removals[0]);
      RemovingAbsentIsNothing(l, removals[1..]);
    }
  }

  lemma {:induction false} RemAbsent(l: seq<string>, e: string)
    requires e !in l
    ensures LRem(l, e) == l
  {
    if l != [] {
      RemAbsent(l[1..], e);
    }
  }

  lemma {:induction false} WithoutPrefixElements(l: seq<string>, prefix: string)
    ensures forall e :: e in WithoutPrefix(l, prefix) <==> e in l && !(prefix <= e)
  {
    if l != [] {
      WithoutPrefixElements(l[1..], prefix);
    }
  }

  lemma {:induction false} LRemAllConcat(l: seq<string>, a: seq<string>, b: seq<string>)
    ensures LRemAll(l, a + b) == LRemAll(LRemAll(l, a), b)
    decreases |a|
  {
    if a == [] {
      assert a + b == b;
    } else {
      assert (a + b)[1..] == a[1..] + b;
      LRemAllConcat(LRem(l, a[0]), a[1..], b);
    }
  }

  // ------------------------------------- removal by prefix and by parsed entry

  function EncodeAll(entries: seq<FeedEntry>): seq<string> {
    if entries == [] then [] else [Encode(entries[0])] + EncodeAll(entries[1..])
  }

  function WithoutRetweet(entries: seq<FeedEntry>, retweetId: string): seq<FeedEntry> {
    if entries == [] then []
    else (if entries[0].Retweet? && entries[0].retweetId == retweetId then [] else [entries[0]])
         + WithoutRetweet(entries[1..], retweetId)
  }

  /** On a list of encoded entries, dropping by text prefix is dropping by parsed retweet ID. */
  lemma {:induction false} PrefixFilterIsEntryFilter(entries: seq<FeedEntry>, retweetId: string)
    requires (forall e <- entries :: Encodable(e)) && PIPE !in retweetId
    ensures WithoutPrefix(EncodeAll(entries), RetweetPrefix(retweetId)) == EncodeAll(WithoutRetweet(entries, retweetId))
  {
    if entries != [] {
      PrefixFilterIsEntryFilter(entries[1..], retweetId);
      PrefixMatchesParsedRetweet(entries[0], retweetId);
      assert EncodeAll(entries)[1..] == EncodeAll(entries[1..]);
      if entries[0].Retweet? && entries[0].retweetId == retweetId {
        assert WithoutRetweet(entries, retweetId) == WithoutRetweet(entries[1..], retweetId);
      } else {
        assert WithoutRetweet(entries, retweetId)[1..] == WithoutRetweet(entries[1..], retweetId);
      }
    }
  }

  // ------------------------------------------------------------- repeated push

  /** `n` copies of `e` ahead of `l`, cut to the limit. */
  function Pushed(l: seq<string>, e: string, n: nat): seq<string> {
    LTrim(seq(n, _ => e) + l, FOLLOWING_LIMIT)
  }

  /** Pushing and trimming once more is pushing one copy more and trimming once. */
  lemma PushTrimStep(l: seq<string>, e: string, n: nat)
    ensures LTrim(LPush(Pushed(l, e, n), e), FOLLOWING_LIMIT) == Pushed(l, e, n + 1)
  {
    assert seq(n + 1, _ => e) + l == [e] + (seq(n, _ => e) + l);
  }

  lemma PushedNone(l: seq<string>, e: string)
    requires |l| <= FOLLOWING_LIMIT
    ensures Pushed(l, e, 0) == l
  {
    assert seq(0, _ => e) + l == l;
  }

  /** Each user's list has got the entry as often as `counts` says. */
  ghost predicate PushedAll(before: map<string, seq<string>>, now: map<string, seq<string>>,
                            entry: string, counts: multiset<string>)
  {
    forall u :: ListOf(now, u) == Pushed(ListOf(before, u), entry, counts[u])
  }

  /** `now` is `before` with `n` copies of the entry ahead of it, cut to the first 800. */
  ghost predicate GotCopies(before: seq<string>, now: seq<string>, entry: string, n: nat) {
    && |now| == (if n + |before| < 800 then n + |before| else 800)
    && forall i | 0 <= i < |now| :: now[i] == if i < n then entry else before[i - n]
  }

  lemma PushedIs(l: seq<string>, e: string, n: nat)
    ensures GotCopies(l, Pushed(l, e, n), e, n)
  {
    var all := seq(n, _ => e) + l;
    assert forall i | 0 <= i < |all| :: all[i] == if i < n then e else l[i - n];
  }

  /** `now` is `before` with these tweets ahead of it, in order, cut to the first 800. */
  ghost predicate GotTweets(before: seq<string>, now: seq<string>, ids: seq<string>) {
    && |now| == (if |ids| + |before| < 800 then |ids| + |before| else 800)
    && forall i | 0 <= i < |now| :: now[i] == if i < |ids| then "T|" + ids[i] else before[i - |ids|]
  }

  lemma {:induction false} TweetEntriesAre(ids: seq<string>)
    ensures |TweetEntries(ids)| == |ids| && forall i | 0 <= i < |ids| :: TweetEntries(ids)[i] == "T|" + ids[i]
  {
    if ids != [] {
      TweetEntriesAre(ids[1..]);
      EntryTexts(ids[0], "", "", 0);
    }
  }

  lemma EntriesStep(ids: seq<string>, i: nat, before: seq<string>)
    requires i < |ids|
    ensures TweetEntries(ids[i..]) + before == [EncodeTweetEntry(ids[i])] + (TweetEntries(ids[i + 1..]) + before)
  {
    assert ids[i..][1..] == ids[i + 1..];
    Reassociate([EncodeTweetEntry(ids[i])], TweetEntries(ids[i + 1..]), before);
  }

  lemma BackfilledIs(l: seq<string>, ids: seq<string>)
    ensures GotTweets(l, LTrim(TweetEntries(ids) + l, FOLLOWING_LIMIT), ids)
  {
    TweetEntriesAre(ids);
    var all := TweetEntries(ids) + l;
    assert forall i | 0 <= i < |all| :: all[i] == if i < |ids| then "T|" + ids[i] else l[i - |ids|];
  }

  /** `now` is, in order, what of `before` is not an entry of this retweet. */
  ghost predicate LostRetweet(before: seq<string>, now: seq<string>, retweetId: string, at: seq<nat>) {
    Picked(before, now, at) && forall i: nat | i < |before| :: i in at <==> !("R|" + retweetId + "|" <= before[i])
  }

  /** The lists of these users have lost the retweet's entries, all others stay. */
  ghost predicate LostFor(before: map<string, seq<string>>, now: map<string, seq<string>>, users: set<string>,
                          retweetId: string)
  {
    forall u ::
      if u in users then exists at :: LostRetweet(ListOf(before, u), ListOf(now, u), retweetId, at)
      else ListOf(now, u) == ListOf(before, u)
  }

  lemma FilteredLost(before: seq<string>, retweetId: string)
    ensures exists at :: LostRetweet(before, WithoutPrefix(before, RetweetPrefix(retweetId)), retweetId, at)
  {
    EntryTexts("", retweetId, "", 0);
    var at := WithoutPrefixPicks(before, RetweetPrefix(retweetId));
    assert LostRetweet(before, WithoutPrefix(before, RetweetPrefix(retweetId)), retweetId, at);
  }

  lemma RemovedLost(before: map<string, seq<string>>, now: map<string, seq<string>>, ids: seq<string>,
                    unreadable: set<string>, retweetId: string)
    requires forall u :: ListOf(now, u) == if u in ids && u !in unreadable
                                           then WithoutPrefix(ListOf(before, u), RetweetPrefix(retweetId))
                                           else ListOf(before, u)
    ensures LostFor(before, now, (set u <- ids | u !in unreadable), retweetId)
  {
    forall u | u in ids && u !in unreadable
      ensures exists at :: LostRetweet(ListOf(before, u), ListOf(now, u), retweetId, at)
    {
      FilteredLost(ListOf(before, u), retweetId);
    }
  }

  lemma CountStep(ids: seq<string>, i: nat)
    requires i < |ids|
    ensures multiset(ids[..i + 1]) == multiset(ids[..i]) + multiset{ids[i]}
  {
    assert ids[..i + 1] == ids[..i] + [ids[i]];
  }

  lemma PushNobody(lists: map<string, seq<string>>, entry: string)
    requires forall u <- lists :: |lists[u]| <= FOLLOWING_LIMIT
    ensures PushedAll(lists, lists, entry, multiset{})
  {
    forall u ensures ListOf(lists, u) == Pushed(ListOf(lists, u), entry, multiset{}[u]) {
      PushedNone(ListOf(lists, u), entry);
    }
  }

  lemma PushedAllBounded(before: map<string, seq<string>>, now: map<string, seq<string>>,
                         entry: string, counts: multiset<string>)
    requires PushedAll(before, now, entry, counts)
    ensures forall u <- now :: |now[u]| <= FOLLOWING_LIMIT
  {
    forall u <- now ensures |now[u]| <= FOLLOWING_LIMIT {
      assert ListOf(now, u) == Pushed(ListOf(before, u), entry, counts[u]);
    }
  }

  lemma PushOnce(before: map<string, seq<string>>, now: map<string, seq<string>>,
                 entry: string, counts: multiset<string>, key: string)
    requires PushedAll(before, now, entry, counts)
    ensures PushedAll(before, now[key := LTrim(LPush(ListOf(now, key), entry), FOLLOWING_LIMIT)],
                      entry, counts + multiset{key})
  {
    var after, more := now[key := LTrim(LPush(ListOf(now, key), entry), FOLLOWING_LIMIT)], counts + multiset{key};
    forall u ensures ListOf(after, u) == Pushed(ListOf(before, u), entry, more[u]) {
      assert ListOf(now, u) == Pushed(ListOf(before, u), entry, counts[u]);
      if u == key {
        PushTrimStep(ListOf(before, key), entry, counts[key]);
      }
    }
  }

  // ------------------------------------------------------------------- code

  /** The pipelined loop of the backfill: the oldest tweet first, so that the newest ends up
      at the head. */
  method PushTweets(before: seq<string>, ids: seq<string>) returns (list: seq<string>)
    ensures list == TweetEntries(ids) + before
  {
    list := before;
    var i := |ids|;
    assert ids[i..] == [] && TweetEntries([]) + before == before;
    while i > 0
      invariant 0 <= i <= |ids|
      invariant list == TweetEntries(ids[i..]) + before
    {
      i := i - 1;
      EntriesStep(ids, i, before);
      list := LPush(list, EncodeTweetEntry(ids[i]));
    }
    assert ids[0..] == ids;
  }

  class FollowingLists {
    var lists: map<string, seq<string>>   // following:<user>; an empty list is an absent key
    var celebs: set<string>               // celeb:<user>
    var followerCounts: map<string, int>  // user:counts:<user> follower_count

    constructor ()
      ensures lists == map[] && celebs == {} && followerCounts == map[]
    {
      lists, celebs, followerCounts := map[], {}, map[];
    }

    function List(user: string): seq<string>
      reads this
    {
      if user in lists then lists[user] else []
    }

    ghost predicate Bounded()
      reads this
    {
      forall u <- lists :: |lists[u]| <= FOLLOWING_LIMIT
    }

    /** `FanOut`: celebrities are flagged and skipped; otherwise each follower's list gets the
        entry at its head, once per time the follower is listed, and is cut to the limit. */
    method FanOut(entry: string, author: string, followers: Option<seq<string>>)
      requires Bounded()
      modifies this
      ensures Bounded() && followerCounts == old(followerCounts)
      ensures var count := if author in followerCounts then followerCounts[author] else 0;
              if author in old(celebs) then celebs == old(celebs) && lists == old(lists)
              else if count >= 1000 then celebs == old(celebs) + {author} && lists == old(lists)
              else celebs == old(celebs)
      ensures author !in celebs && followers.None? ==> lists == old(lists)
      ensures author !in celebs && followers.Some? ==>
                forall u :: GotCopies(old(List(u)), List(u), entry, multiset(followers.value)[u])
    {
      if author in celebs {
        return;
      }
      var count := if author in followerCounts then followerCounts[author] else 0;
      if count >= CELEB_THRESHOLD {
        celebs := celebs + {author};
        return;
      }
      if followers.None? {
        return;
      }
      ghost var before := lists;
      PushToAll(entry, followers.value);
      forall u ensures GotCopies(ListOf(before, u), ListOf(lists, u), entry, multiset(followers.value)[u]) {
        PushedIs(ListOf(before, u), entry, multiset(followers.value)[u]);
      }
    }

    /** The pipelined loop of `FanOut`. */
    method PushToAll(entry: string, ids: seq<string>)
      requires Bounded()
      modifies this`lists
      ensures Bounded()
      ensures PushedAll(old(lists), lists, entry, multiset(ids))
    {
      ghost var before := lists;
      PushNobody(before, entry);
      for i := 0 to |ids|
        invariant PushedAll(before, lists, entry, multiset(ids[..i]))
      {
        PushOnce(before, lists, entry, multiset(ids[..i]), ids[i]);
        CountStep(ids, i);
        lists := lists[ids[i] := LTrim(LPush(ListOf(lists, ids[i]), entry), FOLLOWING_LIMIT)];
      }
      assert ids[..|ids|] == ids;
      PushedAllBounded(before, lists, entry, multiset(ids));
    }

    /** `BackfillFollowingFeed`: the followee's recent tweets, newest first, go ahead of what
        the new follower's list held. */
    method Backfill(follower: string, followee: string, recent: Option<seq<string>>)
      requires Bounded()
      modifies this`lists
      ensures Bounded()
      ensures forall u :: u != follower ==> List(u) == old(List(u))
      ensures if followee in celebs || recent.None? then List(follower) == old(List(follower))
              else GotTweets(old(List(follower)), List(follower), recent.value)
    {
      if followee in celebs || recent.None? {
        return;
      }
      var ids := recent.value;
      BackfilledIs(List(follower), ids);
      if |ids| == 0 {
        assert TweetEntries(ids) + List(follower) == List(follower);
        return;
      }
      var list := PushTweets(List(follower), ids);
      lists := lists[follower := LTrim(list, FOLLOWING_LIMIT)];
    }

    /** `RemoveRetweetFromFollowers`: all lists are read first, while the LREMs queue up; the
        pipeline then runs them. A follower whose read fails is left out. The result is each
        remaining follower's list filtered, and nobody else's touched. */
    method RemoveRetweet(retweetId: string, followers: Option<seq<string>>, unreadable: set<string>)
      requires Bounded()
      modifies this`lists
      ensures Bounded()
      ensures followers.None? ==> lists == old(lists)
      ensures followers.Some? ==> LostFor(old(lists), lists, (set u <- followers.value | u !in unreadable), retweetId)
    {
      if followers.None? || |followers.value| == 0 {
        return;
      }
      var ids := followers.value;
      var prefix := RetweetPrefix(retweetId);
      var queue := QueueRemovals(ids, unreadable, prefix);
      ghost var before := lists;
      RunRemovals(queue);
      QueueLost(before, lists, ids, unreadable, retweetId);
      assert forall u <- lists :: lists[u] == ListOf(lists, u);
    }

    /** First pass: read each list, queue one LREM per match. */
    method QueueRemovals(ids: seq<string>, unreadable: set<string>, prefix: string)
      returns (queue: seq<(string, string)>)
      ensures queue == Queue(lists, ids, unreadable, prefix)
    {
      queue := [];
      for i := 0 to |ids|
        invariant queue == Queue(lists, ids[..i], unreadable, prefix)
      {
        var key := ids[i];
        assert ids[..i + 1][..i] == ids[..i];
        if key !in unreadable {
          var raws := LTrim(List(key), FOLLOWING_LIMIT);
          var matches := QueueMatches(key, raws, prefix);
          queue := queue + matches;
        }
      }
      assert ids[..|ids|] == ids;
    }

    /** The pipeline's Exec. */
    method RunRemovals(queue: seq<(string, string)>)
      modifies this`lists
      ensures forall u :: ListOf(lists, u) == LRemAll(ListOf(old(lists), u), Removals(queue, u))
    {
      ghost var before := lists;
      forall u ensures LRemAll(ListOf(before, u), Removals(queue[..0], u)) == ListOf(before, u) {}
      for j := 0 to |queue|
        invariant forall u :: ListOf(lists, u) == LRemAll(ListOf(before, u), Removals(queue[..j], u))
      {
        var (key, raw) := queue[j];
        forall u ensures LRemAll(ListOf(before, u), Removals(queue[..j + 1], u))
                      == if u == key then LRem(ListOf(lists, u), raw) else ListOf(lists, u)
        {
          RemovalStep(ListOf(before, u), queue, j, u);
        }
        lists := lists[key := LRem(List(key), raw)];
      }
      assert queue[..|queue|] == queue;
    }

    /** The inner loop: the list elements that carry the prefix, as queued removals. */
    method QueueMatches(key: string, raws: seq<string>, prefix: string) returns (matches: seq<(string, string)>)
      ensures matches == Keyed(key, WithPrefix(raws, prefix))
    {
      matches := [];
      for i := 0 to |raws|
        invariant Keyed(key, WithPrefix(raws, prefix)) == matches + Keyed(key, WithPrefix(raws[i..], prefix))
      {
        assert raws[i..][1..] == raws[i + 1..];
        KeyedStep(key, raws[i], WithPrefix(raws[i + 1..], prefix));
        if prefix <= raws[i] {
          matches := matches + [(key, raws[i])];
        }
      }
    }
  }

  function TweetEntries(ids: seq<string>): seq<string> {
    if ids == [] then [] else [EncodeTweetEntry(ids[0])] + TweetEntries(ids[1..])
  }

  function Keyed(key: string, raws: seq<string>): seq<(string, string)> {
    if raws == [] then [] else [(key, raws[0])] + Keyed(key, raws[1..])
  }

  lemma KeyedStep(key: string, raw: string, rest: seq<string>)
    ensures Keyed(key, [raw] + rest) == [(key, raw)] + Keyed(key, rest)
    ensures Keyed(key, [] + rest) == Keyed(key, rest)
  {
    assert ([raw] + rest)[1..] == rest;
    assert [] + rest == rest;
  }

  /** The removals that the first pass queues. */
  function Queue(lists: map<string, seq<string>>, ids: seq<string>, unreadable: set<string>,
                 prefix: string): seq<(string, string)>
  {
    if ids == [] then []
    else
      var u := ids[|ids| - 1];
      Queue(lists, ids[..|ids| - 1], unreadable, prefix)
      + if u in unreadable then [] else Keyed(u, WithPrefix(LTrim(ListOf(lists, u), FOLLOWING_LIMIT), prefix))
  }

  /** The queued removals addressed to user `u`. */
  function Removals(queue: seq<(string, string)>, u: string): seq<string> {
    if queue == [] then []
    else Removals(queue[..|queue| - 1], u) + if queue[|queue| - 1].0 == u then [queue[|queue| - 1].1] else []
  }

  lemma {:induction false} RemovalsConcat(a: seq<(string, string)>, b: seq<(string, string)>, u: string)
    ensures Removals(a + b, u) == Removals(a, u) + Removals(b, u)
  {
    if b == [] {
      assert a + b == a;
    } else {
      assert (a + b)[..|a + b| - 1] == a + b[..|b| - 1];
      RemovalsConcat(a, b[..|b| - 1], u);
    }
  }

  lemma {:induction false} RemovalsOfKeyed(key: string, raws: seq<string>, u: string)
    ensures Removals(Keyed(key, raws), u) == if u == key then raws else []
  {
    if raws != [] {
      RemovalsConcat([(key, raws[0])], Keyed(key, raws[1..]), u);
      RemovalsOfKeyed(key, raws[1..], u);
      assert [(key, raws[0])][..0] == [];
    }
  }

  lemma RemovalStep(l: seq<string>, queue: seq<(string, string)>, j: nat, u: string)
    requires j < |queue|
    ensures LRemAll(l, Removals(queue[..j + 1], u))
         == var sofar := LRemAll(l, Removals(queue[..j], u)); if u == queue[j].0 then LRem(sofar, queue[j].1) else sofar
  {
    assert queue[..j + 1][..j] == queue[..j];
    var done, last := Removals(queue[..j], u), [queue[j].1];
    if u == queue[j].0 {
      LRemAllConcat(l, done, last);
    } else {
      assert done + [] == done;
    }
  }

  /** What the queue leaves of each list. */
  lemma QueueLost(before: map<string, seq<string>>, now: map<string, seq<string>>, ids: seq<string>,
                  unreadable: set<string>, retweetId: string)
    requires forall u <- before :: |before[u]| <= FOLLOWING_LIMIT
    requires forall u ::
               ListOf(now, u)
               == LRemAll(ListOf(before, u), Removals(Queue(before, ids, unreadable, RetweetPrefix(retweetId)), u))
    ensures LostFor(before, now, (set u <- ids | u !in unreadable), retweetId)
    ensures forall u :: |ListOf(now, u)| <= FOLLOWING_LIMIT
  {
    var prefix := RetweetPrefix(retweetId);
    forall u
      ensures ListOf(now, u) == if u in ids && u !in unreadable
                                then WithoutPrefix(ListOf(before, u), prefix) else ListOf(before, u)
      ensures |ListOf(now, u)| <= FOLLOWING_LIMIT
    {
      QueueRemoves(before, ids, unreadable, prefix, u);
      WithoutPrefixShorter(ListOf(before, u), prefix);
    }
    RemovedLost(before, now, ids, unreadable, retweetId);
  }

  lemma {:induction false} QueueRemoves(lists: map<string, seq<string>>, ids: seq<string>, unreadable: set<string>,
                                        prefix: string, u: string)
    requires |ListOf(lists, u)| <= FOLLOWING_LIMIT
    ensures LRemAll(ListOf(lists, u), Removals(Queue(lists, ids, unreadable, prefix), u))
         == if u in ids && u !in unreadable then WithoutPrefix(ListOf(lists, u), prefix) else ListOf(lists, u)
  {
    if ids != [] {
      var last, front := ids[|ids| - 1], ids[..|ids| - 1];
      assert ids == front + [last];
      QueueRemoves(lists, front, unreadable, prefix, u);
      var l, done := ListOf(lists, u), Queue(lists, front, unreadable, prefix);
      if last !in unreadable {
        var more := WithPrefix(LTrim(ListOf(lists, last), FOLLOWING_LIMIT), prefix);
        RemovalsConcat(done, Keyed(last, more), u);
        RemovalsOfKeyed(last, more, u);
        LRemAllConcat(l, Removals(done, u), if u == last then more else []);
        if u == last {
          if u in front {
            WithPrefixOnly(l, prefix);
            WithoutPrefixElements(l, prefix);
            RemovingAbsentIsNothing(WithoutPrefix(l, prefix), more);
          } else {
            RemovalsFilter(l, prefix);
          }
        }
      } else {
        assert done + [] == done;
      }
    }
  }

  lemma {:induction false} WithoutPrefixShorter(l: seq<string>, prefix: string)
    ensures |WithoutPrefix(l, prefix)| <= |l|
  {
    if l != [] {
      WithoutPrefixShorter(l[1..], prefix);
    }
  }
}
