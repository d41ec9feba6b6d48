/** Follow counts in user-service: the follow graph, the counts on the user rows, and the
    copies in Redis. */
module Follows {

  type Edge = (string, string)   // follower, followee

  datatype Counts = Counts(followers: int, following: int)
  datatype UserRow = UserRow(email: string, counts: Counts)

  datatype State = State(users: map<string, UserRow>, follows: set<Edge>, redis: map<string, Counts>)

  const INIT := State(map[], {}, map[])

  datatype End = Aborted | Committed(redisUp: bool)

  datatype Result = Done | Existing | NotFound | SelfFollow | Conflict | Failed

  datatype Call = Provision(sub: string, email: string)
                | Follow(follower: string, followee: string)
                | Unfollow(leaver: string, left: string)
                | RefreshAllCounts

  /** HGETALL; HINCRBY takes a missing field as zero. */
  function At(redis: map<string, Counts>, user: string): Counts {
    if user in redis then redis[user] else Counts(0, 0)
  }

  function IncrCounts(s: State, follower: string, followee: string, delta: int, redisUp: bool): State {
    if !redisUp then s
    else
      var a := At(s.redis, follower);
      var first := s.redis[follower := a.(following := a.following + delta)];
      var b := At(first, followee);
      s.(redis := first[followee := b.(followers := b.followers + delta)])
  }

  /** `x + delta`, but GREATEST(.., 0) when counting down. */
  function Stepped(x: int, delta: int): int {
    if delta < 0 && x + delta < 0 then 0 else x + delta
  }

  /** The two UPDATEs, each of which may match no row. */
  function CountsOnRows(users: map<string, UserRow>, follower: string, followee: string,
                        delta: int): map<string, UserRow>
  {
    map u | u in users ::
      var c := users[u].counts;
      users[u].(counts := Counts(if u == followee then Stepped(c.followers, delta) else c.followers,
                                 if u == follower then Stepped(c.following, delta) else c.following))
  }

  function Refreshed(s: State): State {
    s.(redis := map u | u in s.redis.Keys + s.users.Keys :: if u in s.users then s.users[u].counts else s.redis[u])
  }

  predicate EmailTaken(users: map<string, UserRow>, email: string) {
    exists u <- users.Keys :: users[u].email == email
  }

  function Apply(s: State, call: Call, end: End): (State, Result) {
    match call
    case Provision(sub, email) =>
      if sub in s.users then (s, Existing)
      else if EmailTaken(s.users, email) then (s, Conflict)
      else if end.Aborted? then (s, Failed)
      else
        var added := s.(users := s.users[sub := UserRow(email, Counts(0, 0))]);
        (if end.redisUp then added.(redis := s.redis[sub := Counts(0, 0)]) else added, Done)
    case Follow(a, b) =>
      if a == b then (s, SelfFollow)
      else if b !in s.users then (s, NotFound)
      else if end.Aborted? then (s, Failed)
      else if (a, b) in s.follows then (s, Done)
      else (IncrCounts(s.(follows := s.follows + {(a, b)}, users := CountsOnRows(s.users, a, b, 1)),
                       a, b, 1, end.redisUp), Done)
    case Unfollow(a, b) =>
      // how many rows the DELETE took is not looked at
      if end.Aborted? then (s, Failed)
      else (IncrCounts(s.(follows := s.follows - {(a, b)}, users := CountsOnRows(s.users, a, b, -1)),
                       a, b, -1, end.redisUp), Done)
    case RefreshAllCounts =>
      if end.Aborted? || !end.redisUp then (s, Failed) else (Refreshed(s), Done)
  }

  // ------------------------------------------------------ what the calls do

  /** A follow that commits adds the edge, and one to the followee's followers and to the
      follower's following, on the rows that there are and in Redis if it is up; the edge was
      new, nobody follows themselves, and the followee is a user. Otherwise nothing changes. */
  lemma FollowDoes(s: State, a: string, b: string, end: End)
    ensures var (s', r) := Apply(s, Follow(a, b), end);
            && (r == SelfFollow <==> a == b) && (r == NotFound <==> a != b && b !in s.users)
            && (r == Done <==> a != b && b in s.users && end.Committed?)
            && (r == Done ==> (a, b) in s'.follows)
            && if r == Done && (a, b) !in s.follows then
                 && s'.follows == s.follows + {(a, b)} && CountedRows(s, s', a, b, 1)
                 && (if end.redisUp then CountedRedis(s, s', a, b, 1) else s'.redis == s.redis)
               else s' == s
  {
  }

  /** An unfollow that commits takes the edge away if it was there, and one off both counts
      whether it was or not, on the rows not below zero. */
  lemma UnfollowDoes(s: State, a: string, b: string, end: End)
    ensures var (s', r) := Apply(s, Unfollow(a, b), end);
            if end.Aborted? then s' == s && r == Failed
            else
              && r == Done && s'.follows == s.follows - {(a, b)} && CountedRows(s, s', a, b, -1)
              && (if end.redisUp then a != b ==> CountedRedis(s, s', a, b, -1) else s'.redis == s.redis)
  {
  }

  /** A new user starts with the e-mail given and zero counts, in Redis too if it is up; a known
      one, or a taken address, changes nothing. */
  lemma ProvisionDoes(s: State, sub: string, email: string, end: End)
    ensures var (s', r) := Apply(s, Provision(sub, email), end);
            && (r == Existing <==> sub in s.users)
            && (r == Conflict <==> sub !in s.users && exists u <- s.users :: s.users[u].email == email)
            && s'.follows == s.follows
            && if r == Done then
                 && sub !in s.users && end.Committed? && s'.users == s.users[sub := UserRow(email, Counts(0, 0))]
                 && s'.redis == (if end.redisUp then s.redis[sub := Counts(0, 0)] else s.redis)
               else s' == s
  {
  }

  /** A refresh that goes through makes Redis's counts those of the rows, for every user. */
  lemma RefreshDoes(s: State, end: End)
    ensures var (s', r) := Apply(s, RefreshAllCounts, end);
            && s'.users == s.users && s'.follows == s.follows
            && (r == Done <==> end.Committed? && end.redisUp)
            && if r == Done then
                 && (forall u <- s.users :: u in s'.redis && s'.redis[u] == s.users[u].counts)
                 && forall u <- s.redis | u !in s.users :: u in s'.redis && s'.redis[u] == s.redis[u]
               else s' == s
  {
  }

  /** `delta` more followers of `b` and following of `a`, not below zero when counting down. */
  predicate CountedRows(s: State, s': State, a: string, b: string, delta: int) {
    && s'.users.Keys == s.users.Keys
    && forall u <- s.users ::
         var c, now := s.users[u].counts, s'.users[u].counts;
         && s'.users[u].email == s.users[u].email
         && now.followers == (if u != b then c.followers
                              else if delta < 0 && c.followers + delta < 0 then 0 else c.followers + delta)
         && now.following == (if u != a then c.following
                              else if delta < 0 && c.following + delta < 0 then 0 else c.following + delta)
  }

  /** The same in Redis, where a missing count is zero and there is no floor. */
  predicate CountedRedis(s: State, s': State, a: string, b: string, delta: int) {
    && a in s'.redis && b in s'.redis
    && s'.redis.Keys == s.redis.Keys + {a, b}
    && (forall u <- s.redis | u != a && u != b :: s'.redis[u] == s.redis[u])
    && s'.redis[a].following == (if a in s.redis then s.redis[a].following else 0) + delta
    && s'.redis[b].followers == (if b in s.redis then s.redis[b].followers else 0) + delta
    && (a != b ==> s'.redis[a].followers == (if a in s.redis then s.redis[a].followers else 0))
    && (a != b ==> s'.redis[b].following == (if b in s.redis then s.redis[b].following else 0))
  }

  // ---------------------------------------------------------------- invariant

  function FollowersOf(follows: set<Edge>, user: string): set<Edge> {
    set e <- follows | e.1 == user
  }

  function FollowingOf(follows: set<Edge>, user: string): set<Edge> {
    set e <- follows | e.0 == user
  }

  /** In-degree and out-degree in the follow graph. */
  function Degrees(follows: set<Edge>, user: string): Counts {
    Counts(|FollowersOf(follows, user)|, |FollowingOf(follows, user)|)
  }

  ghost predicate RowsRight(s: State) {
    forall u <- s.users :: s.users[u].counts == Degrees(s.follows, u)
  }

  ghost predicate RedisRight(s: State) {
    forall u <- s.users :: At(s.redis, u) == Degrees(s.follows, u)
  }

  /** What the tables guarantee: no one follows themselves, and only users are followed. */
  ghost predicate Graph(s: State) {
    forall e <- s.follows :: e.0 != e.1 && e.1 in s.users
  }

  lemma EdgeAdded(follows: set<Edge>, a: string, b: string, u: string)
    requires (a, b) !in follows
    ensures var d, d' := Degrees(follows, u), Degrees(follows + {(a, b)}, u);
            && d'.followers == d.followers + (if u == b then 1 else 0)
            && d'.following == d.following + (if u == a then 1 else 0)
  {
    var more := follows + {(a, b)};
    assert FollowersOf(more, u) == if u == b then FollowersOf(follows, u) + {(a, b)} else FollowersOf(follows, u);
    assert FollowingOf(more, u) == if u == a then FollowingOf(follows, u) + {(a, b)} else FollowingOf(follows, u);
  }

  lemma EdgeRemoved(follows: set<Edge>, a: string, b: string, u: string)
    requires (a, b) in follows
    ensures var d, d' := Degrees(follows, u), Degrees(follows - {(a, b)}, u);
            && d'.followers == d.followers - (if u == b then 1 else 0)
            && d'.following == d.following - (if u == a then 1 else 0)
  {
    var less := follows - {(a, b)};
    assert follows == less + {(a, b)};
    EdgeAdded(less, a, b, u);
  }

  /** The conditions a caller can check: a follower is a user, an unfollow names an edge, and
      no edge yet names a user who is being provisioned. */
  ghost predicate Careful(s: State, call: Call) {
    match call
    case Provision(sub, _) => sub in s.users || Untouched(s, sub)
    case Follow(a, _) => a in s.users
    case Unfollow(a, b) => (a, b) in s.follows
    case RefreshAllCounts => true
  }

  ghost predicate Untouched(s: State, user: string) {
    forall e <- s.follows :: e.0 != user && e.1 != user
  }

  lemma UntouchedIsZero(s: State, user: string)
    ensures Untouched(s, user) <==> Degrees(s.follows, user) == Counts(0, 0)
  {
    if Untouched(s, user) {
      assert FollowersOf(s.follows, user) == {} && FollowingOf(s.follows, user) == {};
    } else {
      var e :| e in s.follows && (e.0 == user || e.1 == user);
      assert e in FollowersOf(s.follows, user) || e in FollowingOf(s.follows, user);
    }
  }

  lemma FollowKeeps(s: State, a: string, b: string, end: End)
    requires Graph(s)
    ensures var s' := Apply(s, Follow(a, b), end).0;
            && Graph(s') && (RowsRight(s) ==> RowsRight(s'))
            && (RedisRight(s) && (end.Committed? ==> end.redisUp) ==> RedisRight(s'))
  {
    var s' := Apply(s, Follow(a, b), end).0;
    if s'.follows != s.follows {
      forall u <- s'.users ensures RowsRight(s) ==> s'.users[u].counts == Degrees(s'.follows, u) {
        EdgeAdded(s.follows, a, b, u);
      }
      forall u <- s'.users ensures RedisRight(s) && end.redisUp ==> At(s'.redis, u) == Degrees(s'.follows, u) {
        EdgeAdded(s.follows, a, b, u);
      }
    }
  }

  lemma UnfollowKeeps(s: State, a: string, b: string, end: End)
    requires Graph(s) && (a, b) in s.follows
    ensures var s' := Apply(s, Unfollow(a, b), end).0;
            && Graph(s') && (RowsRight(s) ==> RowsRight(s'))
            && (RedisRight(s) && (end.Committed? ==> end.redisUp) ==> RedisRight(s'))
  {
    var s' := Apply(s, Unfollow(a, b), end).0;
    if end.Committed? {
      forall u <- s'.users ensures RowsRight(s) ==> s'.users[u].counts == Degrees(s'.follows, u) {
        EdgeRemoved(s.follows, a, b, u);
        assert s'.follows == s.follows - {(a, b)};
      }
      forall u <- s'.users ensures RedisRight(s) && end.redisUp ==> At(s'.redis, u) == Degrees(s'.follows, u) {
        EdgeRemoved(s.follows, a, b, u);
        assert s'.follows == s.follows - {(a, b)};
      }
    }
  }

  lemma CallKeeps(s: State, call: Call, end: End)
    requires Graph(s) && RowsRight(s) && Careful(s, call)
    ensures var s' := Apply(s, call, end).0;
            && Graph(s') && RowsRight(s')
            && (RedisRight(s) && (end.Committed? ==> end.redisUp) ==> RedisRight(s'))
  {
    match call
    case Provision(sub, email) => UntouchedIsZero(s, sub);
    case Follow(a, b) => FollowKeeps(s, a, b, end);
    case Unfollow(a, b) => UnfollowKeeps(s, a, b, end);
    case RefreshAllCounts =>
  }

  ghost predicate CarefulRun(s: State, calls: seq<(Call, End)>, last: State)
    decreases |calls|
  {
    if calls == [] then s == last
    else Careful(s, calls[0].0) && CarefulRun(Apply(s, calls[0].0, calls[0].1).0, calls[1..], last)
  }

  // ------------------------------------------------------------ main results

  lemma {:induction false} RunKeeps(s: State, calls: seq<(Call, End)>, last: State)
    requires Graph(s) && RowsRight(s) && CarefulRun(s, calls, last)
    ensures Graph(last) && RowsRight(last)
    ensures RedisRight(s) && (forall c <- calls :: c.1.Committed? ==> c.1.redisUp) ==> RedisRight(last)
    decreases |calls|
  {
    if calls != [] {
      var next := Apply(s, calls[0].0, calls[0].1).0;
      CallKeeps(s, calls[0].0, calls[0].1);
      RunKeeps(next, calls[1..], last);
      assert calls[0] in calls;
    }
  }

  /** In every careful run, with aborts, each user's row counts the follow graph; with Redis up
      throughout, so does Redis. */
  lemma CountsAreDegrees(calls: seq<(Call, End)>, s: State, user: string)
    requires CarefulRun(INIT, calls, s) && user in s.users
    ensures s.users[user].counts == Degrees(s.follows, user)
    ensures (forall c <- calls :: c.1.Committed? ==> c.1.redisUp) ==> At(s.redis, user) == Degrees(s.follows, user)
  {
    RunKeeps(INIT, calls, s);
  }

  /** After a careful run with any Redis outages, one refresh makes Redis count the graph. */
  lemma RefreshHeals(calls: seq<(Call, End)>, s: State, user: string)
    requires CarefulRun(INIT, calls, s) && user in s.users
    ensures At(Apply(s, RefreshAllCounts, Committed(true)).0.redis, user) == Degrees(s.follows, user)
  {
    RunKeeps(INIT, calls, s);
  }

  /** When all counts are right, an unfollow by or of a user leaves them right if and only if
      it names an edge: otherwise both ends lose one they never had. */
  lemma UnfollowKeepsIff(s: State, a: string, b: string)
    requires Graph(s) && RowsRight(s) && RedisRight(s) && (a in s.users || b in s.users)
    ensures var s' := Apply(s, Unfollow(a, b), Committed(true)).0;
            RowsRight(s') && RedisRight(s') <==> (a, b) in s.follows
  {
    var s' := Apply(s, Unfollow(a, b), Committed(true)).0;
    if (a, b) in s.follows {
      UnfollowKeeps(s, a, b, Committed(true));
    } else {
      var u := if a in s.users then a else b;
      assert s'.follows == s.follows;
      assert u in s'.users && At(s'.redis, u) != At(s.redis, u);
    }
  }

  /** On the rows alone the floor at zero can hide it: they stay right if and only if the edge
      is there or there was nothing to take. */
  lemma UnfollowKeepsRowsIff(s: State, a: string, b: string)
    requires Graph(s) && RowsRight(s)
    ensures var s' := Apply(s, Unfollow(a, b), Committed(true)).0;
            RowsRight(s') <==>
              || (a, b) in s.follows
              || ((a in s.users ==> s.users[a].counts.following == 0)
               && (b in s.users ==> s.users[b].counts.followers == 0))
  {
    var s' := Apply(s, Unfollow(a, b), Committed(true)).0;
    if (a, b) in s.follows {
      UnfollowKeeps(s, a, b, Committed(true));
    } else {
      assert s'.follows == s.follows;
      assert a in s.users ==> a in s'.users;
      assert b in s.users ==> b in s'.users;
    }
  }

  /** `Follow` lets a follower through who has no row yet; when that user is provisioned the
      counts start at zero, which is right if and only if no edge names the user. */
  lemma ProvisionKeepsIff(s: State, sub: string, email: string)
    requires RowsRight(s) && sub !in s.users && !EmailTaken(s.users, email)
    ensures RowsRight(Apply(s, Provision(sub, email), Committed(true)).0) <==> Untouched(s, sub)
  {
    UntouchedIsZero(s, sub);
    var s' := Apply(s, Provision(sub, email), Committed(true)).0;
    assert sub in s'.users && s'.users[sub].counts == Counts(0, 0);
  }

  // -------------------------------------------------------------------- code

  class UserService {
    var s: State

    constructor ()
      ensures s == INIT
    {
      s := INIT;
    }

    /** Two HINCRBYs in one pipeline. */
    method PipeCounts(follower: string, followee: string, delta: int, redisUp: bool)
      modifies this
      ensures s == IncrCounts(old(s), follower, followee, delta, redisUp)
    {
      if redisUp {
        var a := At(s.redis, follower);
        s := s.(redis := s.redis[follower := a.(following := a.following + delta)]);
        var b := At(s.redis, followee);
        s := s.(redis := s.redis[followee := b.(followers := b.followers + delta)]);
      }
    }

    /** UPDATE users SET follower_count, then following_count. */
    method UpdateRows(follower: string, followee: string, delta: int)
      modifies this
      ensures s == old(s).(users := CountsOnRows(old(s).users, follower, followee, delta))
    {
      if followee in s.users {
        var c := s.users[followee].counts;
        var row := s.users[followee].(counts := c.(followers := Stepped(c.followers, delta)));
        s := s.(users := s.users[followee := row]);
      }
      if follower in s.users {
        var c := s.users[follower].counts;
        var row := s.users[follower].(counts := c.(following := Stepped(c.following, delta)));
        s := s.(users := s.users[follower := row]);
      }
    }

    method Follow(follower: string, followee: string, end: End) returns (r: Result)
      modifies this
      ensures (s, r) == Apply(old(s), Call.Follow(follower, followee), end)
    {
      if follower == followee {
        return SelfFollow;
      }
      if followee !in s.users {
        return NotFound;
      }
      var begun := s;
      var applied := (follower, followee) !in s.follows;
      if applied {
        s := s.(follows := s.follows + {(follower, followee)});
        UpdateRows(follower, followee, 1);
      }
      if end.Aborted? {
        s := begun;
        return Failed;
      }
      if applied {
        PipeCounts(follower, followee, 1, end.redisUp);
      }
      r := Done;
    }

    method Unfollow(follower: string, followee: string, end: End) returns (r: Result)
      modifies this
      ensures (s, r) == Apply(old(s), Call.Unfollow(follower, followee), end)
    {
      var begun := s;
      s := s.(follows := s.follows - {(follower, followee)});
      UpdateRows(follower, followee, -1);
      if end.Aborted? {
        s := begun;
        return Failed;
      }
      PipeCounts(follower, followee, -1, end.redisUp);
      r := Done;
    }

    /** HSETs every listed user's counts, whatever Redis held. */
    method RefreshAllCounts()
      modifies this
      ensures s == Refreshed(old(s))
      ensures s.users == old(s).users && s.follows == old(s).follows
      ensures forall u <- s.users :: u in s.redis && s.redis[u] == s.users[u].counts
      ensures forall u | u !in s.users :: At(s.redis, u) == At(old(s).redis, u)
    {
      var listed := s.users.Keys;
      ghost var before := s;
      while listed != {}
        invariant listed <= s.users.Keys && s == before.(redis := s.redis)
        invariant s.redis.Keys == before.redis.Keys + (s.users.Keys - listed)
        invariant forall u <- s.redis ::
                    s.redis[u] == if u in s.users.Keys - listed then s.users[u].counts else before.redis[u]
        decreases listed
      {
        var u :| u in listed;
        s := s.(redis := s.redis[u := s.users[u].counts]);
        listed := listed - {u};
      }
      assert s.redis == Refreshed(before).redis;
    }
  }
}
