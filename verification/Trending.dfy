/** Trending hashtags: one Redis sorted set per minute with a TTL, united over the last
    sixty minutes when read. Times are in seconds. The minute is taken from the pod's clock,
    the expiry from Redis's. */
module Trending {

  const WINDOW := 60            // trendingWindowMinutes
  const MINUTE_TTL := 4200      // trendingMinuteTTL, 70 minutes
  const SLACK: nat := MINUTE_TTL - 60 * WINDOW  // what the TTL allows beyond the window

  /** A per-minute sorted set. Redis drops it when the clock reaches `expiresAt`. */
  datatype Bucket = Bucket(counts: map<string, int>, expiresAt: int)
  type Buckets = map<int, Bucket>

  /** `at` by the clock of the pod, `redis` by that of Redis. */
  datatype Increment = Increment(at: int, redis: int, tags: seq<string>)

  function MinuteBucket(t: int): int {
    t / 60
  }

  function CountIn(counts: map<string, int>, tag: string): int {
    if tag in counts then counts[tag] else 0
  }

  /** The contents of minute `b` as Redis shows them at time `t`. */
  function Alive(buckets: Buckets, b: int, t: int): map<string, int> {
    if b in buckets && t < buckets[b].expiresAt then buckets[b].counts else map[]
  }

  /** One ZINCRBY of 1 per tag. */
  function ZIncrAll(counts: map<string, int>, tags: seq<string>): map<string, int> {
    if tags == [] then counts
    else
      var front := ZIncrAll(counts, tags[..|tags| - 1]);
      front[tags[|tags| - 1] := CountIn(front, tags[|tags| - 1]) + 1]
  }

  function Incremented(buckets: Buckets, inc: Increment, ttl: int): Buckets {
    if inc.tags == [] then buckets
    else
      var b := MinuteBucket(inc.at);
      buckets[b := Bucket(ZIncrAll(Alive(buckets, b, inc.redis), inc.tags), inc.redis + ttl)]
  }

  function AfterAll(history: seq<Increment>, ttl: int): Buckets {
    if history == [] then map[]
    else Incremented(AfterAll(history[..|history| - 1], ttl), history[|history| - 1], ttl)
  }

  /** The united score of a tag over the `n` minutes up to minute `minute`. */
  function Score(buckets: Buckets, tag: string, minute: int, n: nat, now: int): int {
    if n == 0 then 0 else Score(buckets, tag, minute, n - 1, now) + CountIn(Alive(buckets, minute - (n - 1), now), tag)
  }

  /** Whether the union over the `n` minutes up to minute `minute` holds the tag at all. */
  predicate Listed(buckets: Buckets, tag: string, minute: int, n: nat, now: int) {
    n > 0 && (Listed(buckets, tag, minute, n - 1, now) || tag in Alive(buckets, minute - (n - 1), now))
  }

  // ------------------------------------------------ what it is meant to count

  function Occurrences(tags: seq<string>, tag: string): nat {
    if tags == [] then 0 else Occurrences(tags[..|tags| - 1], tag) + if tags[|tags| - 1] == tag then 1 else 0
  }

  /** How often the tag was incremented in the minutes from `first` to `last`. */
  function WindowCount(history: seq<Increment>, tag: string, first: int, last: int): nat {
    if history == [] then 0
    else
      var inc := history[|history| - 1];
      WindowCount(history[..|history| - 1], tag, first, last)
      + if first <= MinuteBucket(inc.at) <= last then Occurrences(inc.tags, tag) else 0
  }

  /** All pods' clocks, at every increment, are between `lo` and `lo + d` behind Redis's. */
  ghost predicate Skewed(history: seq<Increment>, lo: int, d: nat) {
    forall i | 0 <= i < |history| :: 0 <= history[i].at && lo <= history[i].redis - history[i].at <= lo + d
  }

  /** And so is the clock of the pod that reads at `t`, when Redis's shows `now`. */
  ghost predicate Observed(history: seq<Increment>, t: int, now: int, lo: int, d: nat) {
    Skewed(history, lo, d) && 0 <= t && lo <= now - t <= lo + d
  }

  // ------------------------------------------------------------------ lemmas

  lemma {:induction false} ZIncrAllCounts(counts: map<string, int>, tags: seq<string>, tag: string)
    ensures CountIn(ZIncrAll(counts, tags), tag) == CountIn(counts, tag) + Occurrences(tags, tag)
    ensures tag in ZIncrAll(counts, tags) <==> tag in counts || Occurrences(tags, tag) > 0
  {
    if tags != [] {
      ZIncrAllCounts(counts, tags[..|tags| - 1], tag);
    }
  }

  lemma {:induction false} OccurrencesAre(tags: seq<string>, tag: string)
    ensures Occurrences(tags, tag) == multiset(tags)[tag]
  {
    if tags != [] {
      OccurrencesAre(tags[..|tags| - 1], tag);
      assert tags == tags[..|tags| - 1] + [tags[|tags| - 1]];
    }
  }

  /** An increment counts as often as it has the tag when its second is in the window, and
      otherwise not. */
  lemma WindowCountGrows(history: seq<Increment>, inc: Increment, tag: string, first: int, last: int)
    ensures WindowCount([], tag, first, last) == 0
    ensures WindowCount(history + [inc], tag, first, last)
         == WindowCount(history, tag, first, last)
            + if 60 * first <= inc.at < 60 * (last + 1) then multiset(inc.tags)[tag] else 0
  {
    assert (history + [inc])[..|history|] == history;
    OccurrencesAre(inc.tags, tag);
  }

  /** While minutes live long enough, each holds all of its own increments, and will outlive
      its minute by the TTL. */
  lemma {:induction false} BucketHolds(history: seq<Increment>, ttl: int, lo: int, d: nat, b: int, tag: string)
    requires Skewed(history, lo, d) && ttl >= 60 + d
    ensures var buckets := AfterAll(history, ttl);
            if b in buckets then
              && CountIn(buckets[b].counts, tag) == WindowCount(history, tag, b, b)
              && (tag in buckets[b].counts <==> WindowCount(history, tag, b, b) > 0)
              && 60 * b + lo + ttl <= buckets[b].expiresAt
            else WindowCount(history, tag, b, b) == 0
  {
    if history != [] {
      var front, inc := history[..|history| - 1], history[|history| - 1];
      BucketHolds(front, ttl, lo, d, b, tag);
      var buckets := AfterAll(front, ttl);
      assert lo <= inc.redis - inc.at <= lo + d;
      if b == MinuteBucket(inc.at) && inc.tags != [] {
        ZIncrAllCounts(Alive(buckets, b, inc.redis), inc.tags, tag);
      }
    }
  }

  lemma {:induction false} WindowSplits(history: seq<Increment>, tag: string, first: int, last: int)
    requires first <= last
    ensures WindowCount(history, tag, first, last)
         == WindowCount(history, tag, first + 1, last) + WindowCount(history, tag, first, first)
  {
    if history != [] {
      WindowSplits(history[..|history| - 1], tag, first, last);
    }
  }

  lemma {:induction false} EmptyWindow(history: seq<Increment>, tag: string, first: int, last: int)
    requires last < first
    ensures WindowCount(history, tag, first, last) == 0
  {
    if history != [] {
      EmptyWindow(history[..|history| - 1], tag, first, last);
    }
  }

  lemma {:induction false} ScoreIsWindowCount(history: seq<Increment>, ttl: int, tag: string, t: int, now: int,
                                              lo: int, d: nat, n: nat)
    requires Observed(history, t, now, lo, d) && n <= WINDOW && ttl >= 60 * WINDOW + d
    ensures var minute := MinuteBucket(t);
            && Score(AfterAll(history, ttl), tag, minute, n, now) == WindowCount(history, tag, minute - n + 1, minute)
            && (Listed(AfterAll(history, ttl), tag, minute, n, now)
                <==> WindowCount(history, tag, minute - n + 1, minute) > 0)
  {
    var minute := MinuteBucket(t);
    if n == 0 {
      EmptyWindow(history, tag, minute + 1, minute);
    } else {
      ScoreIsWindowCount(history, ttl, tag, t, now, lo, d, n - 1);
      var b := minute - (n - 1);
      BucketHolds(history, ttl, lo, d, b, tag);
      WindowSplits(history, tag, b, minute);
    }
  }

  /** The score is the number of increments in the last sixty minutes, and the tag is listed
      exactly when there is one. */
  ghost predicate ExactAt(history: seq<Increment>, ttl: int, tag: string, t: int, now: int) {
    var minute := MinuteBucket(t);
    && Score(AfterAll(history, ttl), tag, minute, WINDOW, now) == WindowCount(history, tag, minute - 59, minute)
    && (Listed(AfterAll(history, ttl), tag, minute, WINDOW, now)
        <==> WindowCount(history, tag, minute - 59, minute) > 0)
  }

  /** At every time, trending is exact as long as the pods' clocks stray from each other, as
      seen from Redis, by no more than the ten minutes the TTL allows beyond the window. */
  lemma TrendingIsExact(history: seq<Increment>, tag: string, t: int, now: int, lo: int)
    requires Observed(history, t, now, lo, 600)
    ensures ExactAt(history, MINUTE_TTL, tag, t, now)
  {
    ScoreIsWindowCount(history, MINUTE_TTL, tag, t, now, lo, SLACK, WINDOW);
  }

  ghost predicate AlwaysExact(ttl: int, d: nat) {
    forall history: seq<Increment>, tag: string, t: int, now: int, lo: int ::
      Observed(history, t, now, lo, d) ==> ExactAt(history, ttl, tag, t, now)
  }

  lemma {:induction false} ScoreOfDead(buckets: Buckets, tag: string, minute: int, n: nat, now: int)
    requires forall b <- buckets :: buckets[b].expiresAt <= now
    ensures Score(buckets, tag, minute, n, now) == 0
  {
    if n > 0 {
      ScoreOfDead(buckets, tag, minute, n - 1, now);
    }
  }

  /** With clocks that stray by up to `d`, a TTL counts every run exactly if and only if it
      covers the window and `d` more: with one clock an hour is the least, and the seventy
      minutes it has are enough for ten minutes of skew and no more. */
  lemma TtlIsEnoughIff(ttl: int, d: nat)
    ensures AlwaysExact(ttl, d) <==> ttl >= 3600 + d
    ensures AlwaysExact(MINUTE_TTL, d) <==> d <= 600
  {
    EnoughIff(ttl, d);
    EnoughIff(MINUTE_TTL, d);
  }

  lemma EnoughIff(ttl: int, d: nat)
    ensures AlwaysExact(ttl, d) <==> ttl >= 60 * WINDOW + d
  {
    if ttl >= 60 * WINDOW + d {
      forall history: seq<Increment>, tag: string, t: int, now: int, lo: int | Observed(history, t, now, lo, d)
        ensures ExactAt(history, ttl, tag, t, now)
      {
        ScoreIsWindowCount(history, ttl, tag, t, now, lo, d, WINDOW);
      }
    } else {
      LoneIncrement(ttl, d);
    }
  }

  /** With a shorter TTL, an increment in the first second of minute 0, by a pod in step with
      Redis, is gone for a pod that is `d` behind in the last second of its minute 59. */
  lemma LoneIncrement(ttl: int, d: nat)
    requires ttl < 60 * WINDOW + d
    ensures !AlwaysExact(ttl, d)
  {
    var history, t := [Increment(0, 0, ["go"])], 60 * WINDOW - 1;
    var now := t + d;
    assert history[..0] == [];
    var counts := ZIncrAll(map[], ["go"]);
    assert AfterAll([], ttl) == map[];
    assert AfterAll(history, ttl) == map[0 := Bucket(counts, ttl)];
    ScoreOfDead(AfterAll(history, ttl), "go", MinuteBucket(t), WINDOW, now);
    assert ["go"][..0] == [];
    assert Occurrences(["go"], "go") == 1;
    assert WindowCount([], "go", MinuteBucket(t) - 59, MinuteBucket(t)) == 0;
    assert WindowCount(history, "go", MinuteBucket(t) - 59, MinuteBucket(t)) == 1;
    assert Observed(history, t, now, 0, d);
    assert !ExactAt(history, ttl, "go", t, now);
  }

  // ------------------------------------------------------------------- code

  function Tags(top: seq<(string, int)>): set<string> {
    set p <- top :: p.0
  }

  ghost predicate DrawnFrom(top: seq<(string, int)>, scores: map<string, int>) {
    forall p <- top :: p.0 in scores && p.1 == scores[p.0]
  }

  ghost predicate Descends(top: seq<(string, int)>) {
    forall i, j | 0 <= i < j < |top| :: top[i].0 != top[j].0 && top[i].1 >= top[j].1
  }

  ghost predicate Beats(top: seq<(string, int)>, rest: map<string, int>) {
    forall p <- top, tag <- rest :: rest[tag] <= p.1
  }

  /** The first `n` of the tags by score: each with its score, none repeated, in
      non-increasing order, and no tag left out that beats one that is in. */
  ghost predicate IsTop(top: seq<(string, int)>, scores: map<string, int>, n: nat) {
    && |top| == (if n <= |scores| then n else |scores|)
    && DrawnFrom(top, scores) && Descends(top) && Beats(top, scores - Tags(top))
  }

  /** The scores are the true counts of the sixty minutes up to `minute`, of exactly the tags
      that occur there. */
  ghost predicate Counts(scores: map<string, int>, history: seq<Increment>, minute: int) {
    forall tag :: CountsTag(scores, history, minute, tag)
  }

  predicate CountsTag(scores: map<string, int>, history: seq<Increment>, minute: int, tag: string) {
    && CountIn(scores, tag) == WindowCount(history, tag, minute - 59, minute)
    && (tag in scores <==> WindowCount(history, tag, minute - 59, minute) > 0)
  }

  ghost predicate IsUnion(scores: map<string, int>, buckets: Buckets, minute: int, n: nat, now: int) {
    forall tag ::
      && CountIn(scores, tag) == Score(buckets, tag, minute, n, now)
      && (tag in scores <==> Listed(buckets, tag, minute, n, now))
  }

  lemma UnionCounts(scores: map<string, int>, history: seq<Increment>, t: int, now: int, lo: int)
    requires Observed(history, t, now, lo, 600)
    requires IsUnion(scores, AfterAll(history, MINUTE_TTL), MinuteBucket(t), WINDOW, now)
    ensures Counts(scores, history, MinuteBucket(t))
  {
    var minute, buckets := MinuteBucket(t), AfterAll(history, MINUTE_TTL);
    forall tag ensures CountsTag(scores, history, minute, tag) {
      TrendingIsExact(history, tag, t, now, lo);
      assert CountIn(scores, tag) == Score(buckets, tag, minute, WINDOW, now);
    }
  }

  class TrendingStore {
    var buckets: Buckets
    ghost var history: seq<Increment>

    ghost predicate Valid()
      reads this
    {
      buckets == AfterAll(history, MINUTE_TTL)
    }

    constructor ()
      ensures Valid() && history == []
    {
      buckets, history := map[], [];
    }

    /** `IncrementTrending` at time `now` of the pod and `redis` of Redis. */
    method IncrementTrending(hashtags: seq<string>, now: int, redis: int)
      requires Valid()
      modifies this
      ensures Valid() && history == old(history) + [Increment(now, redis, hashtags)]
    {
      var inc := Increment(now, redis, hashtags);
      assert (history + [inc])[..|history|] == history;
      if |hashtags| > 0 {
        var key := MinuteBucket(now);
        var counts := Alive(buckets, key, redis);
        ghost var before := counts;
        for i := 0 to |hashtags|
          invariant counts == ZIncrAll(before, hashtags[..i])
        {
          assert hashtags[..i + 1][..i] == hashtags[..i];
          counts := counts[hashtags[i] := CountIn(counts, hashtags[i]) + 1];
        }
        assert hashtags[..|hashtags|] == hashtags;
        buckets := buckets[key := Bucket(counts, redis + MINUTE_TTL)];
      }
      history := history + [inc];
    }

    /** ZUNIONSTORE over the window's keys, scores added up. */
    method Unite(minute: int, now: int) returns (scores: map<string, int>)
      ensures IsUnion(scores, buckets, minute, WINDOW, now)
    {
      scores := map[];
      for i := 0 to WINDOW
        invariant IsUnion(scores, buckets, minute, i, now)
      {
        var add := Alive(buckets, minute - i, now);
        ghost var before := scores;
        scores := map tag | tag in scores.Keys + add.Keys :: CountIn(scores, tag) + CountIn(add, tag);
        forall tag
          ensures CountIn(scores, tag) == Score(buckets, tag, minute, i + 1, now)
          ensures tag in scores <==> Listed(buckets, tag, minute, i + 1, now)
        {
          assert CountIn(before, tag) == Score(buckets, tag, minute, i, now);
        }
      }
    }

    /** `GetTrending` at time `t` of the pod and `now` of Redis. */
    method GetTrending(topN: int, t: int, now: int, ghost lo: int) returns (tags: seq<(string, int)>)
      requires Valid() && Observed(history, t, now, lo, 600)
      ensures topN <= 0 ==> tags == []
      ensures topN > 0 ==> exists scores :: IsTop(tags, scores, topN) && Counts(scores, history, t / 60)
    {
      if topN <= 0 {
        return [];
      }
      var scores := Unite(MinuteBucket(t), now);
      tags := TopOf(scores, topN);
      UnionCounts(scores, history, t, now, lo);
    }
  }

  lemma TakeBest(top: seq<(string, int)>, scores: map<string, int>, rest: map<string, int>, best: string)
    requires DrawnFrom(top, scores) && Descends(top) && Beats(top, rest) && rest == scores - Tags(top)
    requires best in rest && forall tag <- rest :: rest[tag] <= rest[best]
    ensures var next := top + [(best, rest[best])];
            && DrawnFrom(next, scores) && Descends(next) && Beats(next, rest - {best})
            && rest - {best} == scores - Tags(next)
  {
    var next := top + [(best, rest[best])];
    assert Tags(next) == Tags(top) + {best} by {
      forall tag ensures tag in Tags(next) <==> tag in Tags(top) + {best} {
        if tag in Tags(top) {
          var p :| p in top && p.0 == tag;
          assert p in next;
        }
        if tag == best {
          assert next[|top|] in next;
        }
      }
    }
    assert Descends(next) by {
      forall i | 0 <= i < |top| ensures top[i].0 != best && top[i].1 >= rest[best] {
        assert top[i] in top;
        assert top[i].0 in Tags(top);
      }
    }
  }

  /** ZREVRANGE 0 n-1, up to the order of equal scores. */
  method TopOf(scores: map<string, int>, n: nat) returns (top: seq<(string, int)>)
    ensures IsTop(top, scores, n)
  {
    top := [];
    var rest := scores;
    assert rest == scores - Tags(top);
    while |top| < n && rest != map[]
      invariant |top| <= n && |top| + |rest| == |scores|
      invariant DrawnFrom(top, scores) && Descends(top) && Beats(top, rest)
      invariant rest == scores - Tags(top)
      decreases |rest|
    {
      var best := Best(rest);
      TakeBest(top, scores, rest, best);
      assert |rest - {best}| == |rest| - 1 by {
        assert rest.Keys == (rest - {best}).Keys + {best};
      }
      top := top + [(best, rest[best])];
      rest := rest - {best};
    }
  }

  method Best(scores: map<string, int>) returns (best: string)
    requires scores != map[]
    ensures best in scores && forall tag <- scores :: scores[tag] <= scores[best]
  {
    assert scores.Keys != {};
    best :| best in scores;
    var rest := scores.Keys - {best};
    while rest != {}
      invariant rest <= scores.Keys && best in scores
      invariant forall tag <- scores :: tag in rest || scores[tag] <= scores[best]
      decreases rest
    {
      var tag :| tag in rest;
      rest := rest - {tag};
      if scores[tag] > scores[best] {
        best := tag;
      }
    }
  }
}
