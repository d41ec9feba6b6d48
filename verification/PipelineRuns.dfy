/** Runs of the pipeline put together: that it can do its work, and runs that show what it
    does not guarantee. */
module PipelineRuns {
  import opened Strconv
  import opened Wrappers
  import opened Pipeline
  import opened OutboxSafety
  import opened ConsumerSafety
  import opened PipelineResults
  import N = Notifications

  // ----------------------------------------------------------- building runs

  lemma {:induction false} RunsConcat(a: State, x: seq<Step>, b: State, y: seq<Step>, c: State)
    requires Runs(a, x, b) && Runs(b, y, c)
    ensures Runs(a, x + y, c)
    decreases |x|
  {
    if x == [] {
      assert x + y == y;
    } else {
      assert (x + y)[1..] == x[1..] + y;
      RunsConcat(Apply(a, x[0]), x[1..], b, y, c);
    }
  }

  lemma RunsOne(a: State, step: Step)
    requires Enabled(a, step)
    ensures Runs(a, [step], Apply(a, step))
  {
    assert Runs(Apply(a, step), [], Apply(a, step));
    assert [step][1..] == [];
  }

  function AfterPublish(s: State, src: RowId, row: Row): State {
    s.(outbox := s.outbox[src := row.(sent := true)],
       kafka := s.kafka + [Record(Part(row.topic, 0), MsgOf(src.1, row), src)])
  }

  lemma RunsTwo(s: State, a: Step, b: Step)
    requires Enabled(s, a) && Enabled(Apply(s, a), b)
    ensures Runs(s, [a, b], Apply(Apply(s, a), b))
  {
    RunsOne(s, a);
    RunsOne(Apply(s, a), b);
    RunsConcat(s, [a], Apply(s, a), [b], Apply(Apply(s, a), b));
    assert [a] + [b] == [a, b];
  }

  lemma InsertAndClaim(s: State, src: RowId, row: Row)
    requires s.flushers == map[] && Enabled(s, InsertRow(src, row))
    ensures var mid := s.(outbox := s.outbox[src := row], flushers := map[0 := Flush(src.0, {src.1}, {})]);
            Runs(s, [InsertRow(src, row), Claim(0, src.0, {src.1})], mid)
  {
    var s1 := Apply(s, InsertRow(src, row));
    assert Pending(s1, src);
    RunsTwo(s, InsertRow(src, row), Claim(0, src.0, {src.1}));
  }

  lemma PublishAndMark(s: State, src: RowId, row: Row)
    requires s.flushers == map[] && Enabled(s, InsertRow(src, row))
    ensures var mid := s.(outbox := s.outbox[src := row], flushers := map[0 := Flush(src.0, {src.1}, {})]);
            Runs(mid, [Publish(0, src.1, 0), MarkSent(0, {src.1})], AfterPublish(s, src, row))
  {
    var mid := s.(outbox := s.outbox[src := row], flushers := map[0 := Flush(src.0, {src.1}, {})]);
    var s3 := Apply(mid, Publish(0, src.1, 0));
    var s4 := Apply(s3, MarkSent(0, {src.1}));
    RunsTwo(mid, Publish(0, src.1, 0), MarkSent(0, {src.1}));
    assert s4.outbox == s.outbox[src := row.(sent := true)];
    assert s4.flushers == s.flushers;
  }

  function PublishSteps(src: RowId, row: Row): seq<Step> {
    [InsertRow(src, row), Claim(0, src.0, {src.1})] + [Publish(0, src.1, 0), MarkSent(0, {src.1})]
  }

  /** A new event can always be written and published by one undisturbed flush. */
  lemma PublishOne(s: State, src: RowId, row: Row)
    requires s.flushers == map[] && Enabled(s, InsertRow(src, row))
    ensures Runs(s, PublishSteps(src, row), AfterPublish(s, src, row))
  {
    InsertAndClaim(s, src, row);
    PublishAndMark(s, src, row);
    RunsConcat(s, [InsertRow(src, row), Claim(0, src.0, {src.1})],
               s.(outbox := s.outbox[src := row], flushers := map[0 := Flush(src.0, {src.1}, {})]),
               [Publish(0, src.1, 0), MarkSent(0, {src.1})], AfterPublish(s, src, row));
  }

  /** The state in which an idle worker may take record `k` next. */
  ghost predicate NextUp(s: State, k: nat) {
    && s.workers == map[] && k < |s.kafka|
    && Get(s.position, s.kafka[k].part) <= k
    && forall j | Get(s.position, s.kafka[k].part) <= j < k :: s.kafka[j].part != s.kafka[k].part
  }

  function AfterConsume(s: State, k: nat, db: N.Db, fate: Fate): State
    requires k < |s.kafka|
  {
    var p := s.kafka[k].part;
    s.(position := s.position[p := k + 1], committed := s.committed[p := k + 1], db := db, fate := fate)
  }

  /** A record that is new to the dedup table is dispatched, and committed. */
  lemma ConsumeNew(s: State, k: nat)
    requires NextUp(s, k) && ActionAt(s, k).Create? && IdAt(s, k) > 0 && IdAt(s, k) !in s.db.processed
    ensures Runs(s, [Fetch(0, k), LookupNew(0)] + [Attempt(0, N.Committed), Commit(0, true)],
                 AfterConsume(s, k, N.CreateTx(s.db, IdAt(s, k), ActionAt(s, k).n),
                              s.fate.(dispatched := s.fate.dispatched + {k})))
  {
    var p := s.kafka[k].part;
    var mid := s.(position := s.position[p := k + 1], workers := map[0 := Work(k, Dispatching(0), false)]);
    FetchNew(s, mid, k);
    DispatchAndCommit(s, mid, k);
    RunsConcat(s, [Fetch(0, k), LookupNew(0)], mid, [Attempt(0, N.Committed), Commit(0, true)],
               AfterConsume(s, k, N.CreateTx(s.db, IdAt(s, k), ActionAt(s, k).n),
                            s.fate.(dispatched := s.fate.dispatched + {k})));
  }

  lemma FetchNew(s: State, mid: State, k: nat)
    requires NextUp(s, k) && IdAt(s, k) > 0 && IdAt(s, k) !in s.db.processed
    requires mid == s.(position := s.position[s.kafka[k].part := k + 1],
                       workers := map[0 := Work(k, Dispatching(0), false)])
    ensures Runs(s, [Fetch(0, k), LookupNew(0)], mid)
  {
    RunsTwo(s, Fetch(0, k), LookupNew(0));
    assert Apply(Apply(s, Fetch(0, k)), LookupNew(0)).workers == mid.workers;
  }

  lemma DispatchAndCommit(s: State, mid: State, k: nat)
    requires s.workers == map[] && k < |s.kafka| && ActionAt(s, k).Create?
    requires mid == s.(position := s.position[s.kafka[k].part := k + 1],
                       workers := map[0 := Work(k, Dispatching(0), false)])
    ensures Runs(mid, [Attempt(0, N.Committed), Commit(0, true)],
                 AfterConsume(s, k, N.CreateTx(s.db, IdAt(s, k), ActionAt(s, k).n),
                              s.fate.(dispatched := s.fate.dispatched + {k})))
  {
    var s1 := Apply(mid, Attempt(0, N.Committed));
    assert s1.workers == map[0 := Work(k, Done, false)];
    RunsTwo(mid, Attempt(0, N.Committed), Commit(0, true));
    assert Apply(s1, Commit(0, true)).workers == s.workers;
  }

  /** A record whose ID is in the dedup table is committed without being dispatched. */
  lemma ConsumeSeen(s: State, k: nat)
    requires NextUp(s, k) && IdAt(s, k) != 0 && IdAt(s, k) in s.db.processed
    ensures Runs(s, [Fetch(0, k)] + [LookupSeen(0), Commit(0, true)],
                 AfterConsume(s, k, s.db, s.fate.(duplicate := s.fate.duplicate + {k})))
  {
    var s1 := Apply(s, Fetch(0, k));
    RunsOne(s, Fetch(0, k));
    SeenAndCommit(s, s1, k);
    RunsConcat(s, [Fetch(0, k)], s1, [LookupSeen(0), Commit(0, true)],
               AfterConsume(s, k, s.db, s.fate.(duplicate := s.fate.duplicate + {k})));
  }

  lemma SeenAndCommit(s: State, mid: State, k: nat)
    requires s.workers == map[] && k < |s.kafka| && IdAt(s, k) != 0 && IdAt(s, k) in s.db.processed
    requires mid == s.(position := s.position[s.kafka[k].part := k + 1], workers := map[0 := Work(k, Fetched, false)])
    ensures Runs(mid, [LookupSeen(0), Commit(0, true)],
                 AfterConsume(s, k, s.db, s.fate.(duplicate := s.fate.duplicate + {k})))
  {
    var s2 := Apply(mid, LookupSeen(0));
    assert s2.workers == map[0 := Work(k, Done, false)];
    RunsTwo(mid, LookupSeen(0), Commit(0, true));
    assert Apply(s2, Commit(0, true)).workers == s.workers;
  }

  /** A record whose lookup fails is left behind: only the reader's position has moved. */
  lemma ConsumeSkipped(s: State, k: nat)
    requires NextUp(s, k) && IdAt(s, k) != 0
    ensures Runs(s, [Fetch(0, k), LookupError(0)],
                 s.(position := s.position[s.kafka[k].part := k + 1],
                    fate := s.fate.(skipped := s.fate.skipped + {k})))
  {
    RunsTwo(s, Fetch(0, k), LookupError(0));
    assert Apply(Apply(s, Fetch(0, k)), LookupError(0)).workers == s.workers;
  }

  // -------------------------------------------------- what is not guaranteed

  function LikeRow(): Row {
    Row(N.TWEET_LIKED, "tw_1", N.Payload(map[N.TWEET_LIKED := N.Event("bob", "alice", "tw_1")]), "", false)
  }

  function FollowRow(): Row {
    Row(N.USER_FOLLOWED, "alice", N.Payload(map[N.USER_FOLLOWED := N.Event("carol", "alice", "")]), "", false)
  }

  lemma PublishedFacts(s: State, src: RowId, row: Row)
    requires 0 < src.1 <= INT64_MAX
    ensures var t := AfterPublish(s, src, row); var k := |s.kafka|;
            IdAt(t, k) == src.1 && ActionAt(t, k) == N.ActionFor(row.topic, row.payload)
            && t.kafka[k].part == Part(row.topic, 0)
  {
    MsgOfFacts(src.1, row);
  }

  /** Record `k` of `s` is this row's, in partition 0 of its topic. */
  ghost predicate Holds(s: State, k: nat, id: int, row: Row) {
    k < |s.kafka| && IdAt(s, k) == id && ActionAt(s, k) == N.ActionFor(row.topic, row.payload)
    && s.kafka[k].part == Part(row.topic, 0)
  }

  /** Two rows written and published one after the other, nothing consumed yet. */
  lemma TwoPublished(a: RowId, rowA: Row, b: RowId, rowB: Row) returns (steps: seq<Step>, s: State)
    requires a != b && 0 < a.1 <= INT64_MAX && 0 < b.1 <= INT64_MAX
    requires !rowA.sent && !rowB.sent && rowA.topic != "" && rowB.topic != ""
    ensures Runs(INIT, steps, s) && |s.kafka| == 2 && Holds(s, 0, a.1, rowA) && Holds(s, 1, b.1, rowB)
    ensures s == INIT.(outbox := s.outbox, kafka := s.kafka)
  {
    var s1 := AfterPublish(INIT, a, rowA);
    PublishOne(INIT, a, rowA);
    PublishedFacts(INIT, a, rowA);
    PublishOne(s1, b, rowB);
    PublishedFacts(s1, b, rowB);
    s := AfterPublish(s1, b, rowB);
    RunsConcat(INIT, PublishSteps(a, rowA), s1, PublishSteps(b, rowB), s);
    steps := PublishSteps(a, rowA) + PublishSteps(b, rowB);
  }

  /** Disjoint IDs are needed: whichever two rows share an ID and both ask for a notification,
      there is a run without failures in which the second is committed as a duplicate of the
      first, and nobody hears of it. */
  lemma CollidingIdsLoseANotification(a: RowId, rowA: Row, b: RowId, rowB: Row) returns (steps: seq<Step>, t: State)
    requires a != b && a.1 == b.1 && 0 < a.1 <= INT64_MAX
    requires !rowA.sent && !rowB.sent && rowA.topic != "" && rowB.topic != ""
    requires N.ActionFor(rowA.topic, rowA.payload).Create? && N.ActionFor(rowB.topic, rowB.payload).Create?
    ensures Runs(INIT, steps, t) && Holds(t, 0, a.1, rowA) && Holds(t, 1, b.1, rowB)
    ensures 1 < Get(t.committed, t.kafka[1].part) && t.fate.dead + t.fate.lost + t.fate.skipped == {}
    ensures t.db.inserts == [N.Insert(a.1, N.ActionFor(rowA.topic, rowA.payload).n)]
  {
    var s2: State;
    steps, s2 := TwoPublished(a, rowA, b, rowB);
    ConsumeNew(s2, 0);
    var x := [Fetch(0, 0), LookupNew(0)] + [Attempt(0, N.Committed), Commit(0, true)];
    var db := N.CreateTx(s2.db, a.1, ActionAt(s2, 0).n);
    var s3 := AfterConsume(s2, 0, db, s2.fate.(dispatched := s2.fate.dispatched + {0}));
    RunsConcat(INIT, steps, s2, x, s3);
    assert IdAt(s3, 1) == IdAt(s2, 1);
    ConsumeSeen(s3, 1);
    t := AfterConsume(s3, 1, s3.db, s3.fate.(duplicate := s3.fate.duplicate + {1}));
    RunsConcat(INIT, steps + x, s3, [Fetch(0, 1)] + [LookupSeen(0), Commit(0, true)], t);
    steps := steps + x + ([Fetch(0, 1)] + [LookupSeen(0), Commit(0, true)]);
  }

  /** Both outboxes start at ID 1: Bob's like is notified, Carol's follow, the other service's
      row 1, is not. */
  lemma FirstFollowIsLost() returns (steps: seq<Step>, t: State)
    ensures Runs(INIT, steps, t) && 1 < |t.kafka| && 1 < Get(t.committed, t.kafka[1].part)
    ensures ActionAt(t, 1) == N.Action.Create(N.Notification("alice", "carol", N.Follow, None))
    ensures t.db.inserts == [N.Insert(1, N.Notification("alice", "bob", N.Like, Some("tw_1")))]
  {
    steps, t := CollidingIdsLoseANotification((TweetService, 1), LikeRow(), (UserService, 1), FollowRow());
  }

  lemma {:induction false} QuietPrunesConcat(s: State, a: seq<Step>, mid: State, b: seq<Step>)
    requires Runs(s, a, mid) && QuietPrunes(s, a) && QuietPrunes(mid, b)
    ensures QuietPrunes(s, a + b)
    decreases |a|
  {
    if a == [] {
      assert a + b == b;
    } else {
      assert (a + b)[1..] == a[1..] + b;
      QuietPrunesConcat(Apply(s, a[0]), a[1..], mid, b);
    }
  }

  lemma {:induction false} WithoutPrunes(s: State, steps: seq<Step>)
    requires forall step <- steps :: !step.Prune?
    ensures QuietPrunes(s, steps)
    decreases |steps|
  {
    if steps != [] && Enabled(s, steps[0]) {
      assert steps[0] in steps;
      WithoutPrunes(Apply(s, steps[0]), steps[1..]);
    }
  }

  function ConsumeSteps(k: nat): seq<Step> {
    [Fetch(0, k), LookupNew(0)] + [Attempt(0, N.Committed), Commit(0, true)]
  }

  function Notified(s: State, k: nat): State
    requires k < |s.kafka| && ActionAt(s, k).Create?
  {
    AfterConsume(s, k, N.CreateTx(s.db, IdAt(s, k), ActionAt(s, k).n), s.fate.(dispatched := s.fate.dispatched + {k}))
  }

  /** One row published to an idle, empty pipeline, and notified. */
  lemma PublishAndNotify(s: State, src: RowId, row: Row)
    requires s.flushers == map[] && s.workers == map[] && Enabled(s, InsertRow(src, row)) && src.1 !in s.db.processed
    requires N.ActionFor(row.topic, row.payload).Create?
    requires forall p :: Get(s.position, p) <= |s.kafka|
    requires forall j: nat | j < |s.kafka| :: j < Get(s.position, s.kafka[j].part)
    ensures var mid, k := AfterPublish(s, src, row), |s.kafka|;
            && Holds(mid, k, src.1, row)
            && Runs(s, PublishSteps(src, row) + ConsumeSteps(k), Notified(mid, k))
            && QuietPrunes(s, PublishSteps(src, row) + ConsumeSteps(k))
  {
    var mid, k := AfterPublish(s, src, row), |s.kafka|;
    PublishedFacts(s, src, row);
    PublishOne(s, src, row);
    ConsumeNew(mid, k);
    RunsConcat(s, PublishSteps(src, row), mid, ConsumeSteps(k), Notified(mid, k));
    WithoutPrunes(s, PublishSteps(src, row) + ConsumeSteps(k));
  }

  /** The first row notified, and its ID pruned once nothing carries it any more. */
  function NotifiedAndPruned(src: RowId, row: Row): State
    requires N.ActionFor(row.topic, row.payload).Create? && 0 < src.1 <= INT64_MAX
  {
    PublishedFacts(INIT, src, row);
    var s := Notified(AfterPublish(INIT, src, row), 0);
    s.(db := N.PruneTx(s.db, {src.1}))
  }

  lemma PrunedFacts(src: RowId, row: Row)
    requires N.ActionFor(row.topic, row.payload).Create? && 0 < src.1 <= INT64_MAX
    ensures var s, n := NotifiedAndPruned(src, row), N.ActionFor(row.topic, row.payload).n;
            && s.db == N.Db({}, {src.1}, [n], [N.Insert(src.1, n)])
            && s.outbox == map[src := row.(sent := true)] && s.flushers == map[] && s.workers == map[]
            && |s.kafka| == 1 && s.position == map[s.kafka[0].part := 1]
  {
    PublishedFacts(INIT, src, row);
    assert {src.1} - {src.1} == {};
  }

  lemma QuietOnceNotified(src: RowId, row: Row)
    requires N.ActionFor(row.topic, row.payload).Create? && 0 < src.1 <= INT64_MAX
    ensures ActionAt(AfterPublish(INIT, src, row), 0).Create? && IdAt(AfterPublish(INIT, src, row), 0) == src.1
    ensures Quiet(Notified(AfterPublish(INIT, src, row), 0), src.1)
  {
    PublishedFacts(INIT, src, row);
    var s := Notified(AfterPublish(INIT, src, row), 0);
    assert Get(s.committed, s.kafka[0].part) == 1;
  }

  lemma PruneOne(s: State, id: int)
    requires id in s.db.processed && Quiet(s, id)
    ensures Runs(s, [Prune({id})], s.(db := N.PruneTx(s.db, {id}))) && QuietPrunes(s, [Prune({id})])
  {
    RunsOne(s, Prune({id}));
    assert [Prune({id})][1..] == [];
  }

  lemma NotifyAndPrune(src: RowId, row: Row)
    requires 0 < src.1 <= INT64_MAX && !row.sent && row.topic != "" && N.ActionFor(row.topic, row.payload).Create?
    ensures var steps := PublishSteps(src, row) + ConsumeSteps(0) + [Prune({src.1})];
            Runs(INIT, steps, NotifiedAndPruned(src, row)) && QuietPrunes(INIT, steps)
  {
    PublishAndNotify(INIT, src, row);
    var first := PublishSteps(src, row) + ConsumeSteps(0);
    var s := Notified(AfterPublish(INIT, src, row), 0);
    QuietOnceNotified(src, row);
    PruneOne(s, src.1);
    RunsConcat(INIT, first, s, [Prune({src.1})], NotifiedAndPruned(src, row));
    QuietPrunesConcat(INIT, first, s, [Prune({src.1})]);
  }

  /** Fresh IDs are needed too: whichever two rows share an ID and both ask for a notification,
      there is a run in which the first is notified, its ID is pruned when nothing carries it
      any more, and the second, delivered for the first time, is notified under the same ID. */
  lemma PrunedIdIsNotifiedAgain(a: RowId, rowA: Row, b: RowId, rowB: Row) returns (steps: seq<Step>, t: State)
    requires a != b && a.1 == b.1 && 0 < a.1 <= INT64_MAX
    requires !rowA.sent && !rowB.sent && rowA.topic != "" && rowB.topic != ""
    requires N.ActionFor(rowA.topic, rowA.payload).Create? && N.ActionFor(rowB.topic, rowB.payload).Create?
    ensures Runs(INIT, steps, t) && QuietPrunes(INIT, steps) && N.InsertCount(t.db.inserts, a.1) == 2
    ensures t.db.inserts == [N.Insert(a.1, N.ActionFor(rowA.topic, rowA.payload).n),
                             N.Insert(a.1, N.ActionFor(rowB.topic, rowB.payload).n)]
  {
    NotifyAndPrune(a, rowA);
    var first := PublishSteps(a, rowA) + ConsumeSteps(0) + [Prune({a.1})];
    var s := NotifiedAndPruned(a, rowA);
    PrunedFacts(a, rowA);
    var nA, nB := N.ActionFor(rowA.topic, rowA.payload).n, N.ActionFor(rowB.topic, rowB.payload).n;
    PublishAndNotify(s, b, rowB);
    var second := PublishSteps(b, rowB) + ConsumeSteps(1);
    t := Notified(AfterPublish(s, b, rowB), 1);
    RunsConcat(INIT, first, s, second, t);
    QuietPrunesConcat(INIT, first, s, second);
    steps := first + second;
    TwoInserts(a.1, nA, nB);
  }

  lemma TwoInserts(id: int, nA: N.Notification, nB: N.Notification)
    ensures N.InsertCount([N.Insert(id, nA), N.Insert(id, nB)], id) == 2
  {
    var two := [N.Insert(id, nA), N.Insert(id, nB)];
    assert two[..1] == [N.Insert(id, nA)];
    assert [N.Insert(id, nA)][..0] == [];
    assert N.InsertCount([N.Insert(id, nA)], id) == 1;
  }

  function SecondLikeRow(): Row {
    Row(N.TWEET_LIKED, "tw_1", N.Payload(map[N.TWEET_LIKED := N.Event("dave", "alice", "tw_1")]), "", false)
  }

  /** What a worker does to the others and to other records while it settles its own: nothing. */
  ghost predicate SettlesOnly(s: State, t: State, w: nat, k: nat)
    requires k < |s.kafka|
  {
    && t.kafka == s.kafka && t.workers == s.workers - {w} && t.position == s.position
    && t.committed == s.committed[s.kafka[k].part := k + 1]
    && Settled(t, k) && t.fate.skipped == s.fate.skipped
    && forall j: nat | j != k :: Settled(t, j) <==> Settled(s, j)
  }

  lemma CommitDone(s: State, w: nat)
    requires WorkerIn(s, w, Done) && !s.workers[w].fenced && Settled(s, s.workers[w].index)
    ensures Runs(s, [Commit(w, true)], Apply(s, Commit(w, true)))
    ensures SettlesOnly(s, Apply(s, Commit(w, true)), w, s.workers[w].index)
  {
    RunsOne(s, Commit(w, true));
  }

  lemma SettleFailed(s: State, w: nat, k: nat)
    requires w in s.workers && s.workers[w].phase.Failed? && k < |s.kafka|
    requires s.workers[w].index == k && !s.workers[w].fenced
    ensures var t := Apply(Apply(s, DeadLetterTo(w, 0, true)), Commit(w, true));
            Runs(s, [DeadLetterTo(w, 0, true), Commit(w, true)], t) && SettlesOnly(s, t, w, k)
  {
    RunsTwo(s, DeadLetterTo(w, 0, true), Commit(w, true));
  }

  lemma SettleDispatching(s: State, w: nat, k: nat) returns (steps: seq<Step>, t: State)
    requires WorkerIn(s, w, Dispatching(0)) && s.workers[w].index == k && !s.workers[w].fenced
    ensures Runs(s, steps, t) && SettlesOnly(s, t, w, k)
  {
    var s1 := Apply(s, Attempt(w, N.Committed));
    RunsOne(s, Attempt(w, N.Committed));
    var rest;
    if s1.workers[w].phase.Done? {
      CommitDone(s1, w);
      rest, t := [Commit(w, true)], Apply(s1, Commit(w, true));
    } else {
      SettleFailed(s1, w, k);
      rest, t := [DeadLetterTo(w, 0, true), Commit(w, true)],
                 Apply(Apply(s1, DeadLetterTo(w, 0, true)), Commit(w, true));
    }
    steps := [Attempt(w, N.Committed)] + rest;
    RunsConcat(s, [Attempt(w, N.Committed)], s1, rest, t);
  }

  /** A fetched record, whatever it is, can be settled and committed. */
  lemma SettleFetched(s: State, w: nat, k: nat) returns (steps: seq<Step>, t: State)
    requires WorkerIn(s, w, Fetched) && s.workers[w].index == k && !s.workers[w].fenced
    ensures Runs(s, steps, t) && SettlesOnly(s, t, w, k)
  {
    if IdAt(s, k) != 0 && IdAt(s, k) in s.db.processed {
      SettleSeen(s, w, k);
      steps, t := [LookupSeen(w), Commit(w, true)], Apply(Apply(s, LookupSeen(w)), Commit(w, true));
    } else {
      steps, t := SettleNew(s, w, k);
    }
  }

  lemma SettleSeen(s: State, w: nat, k: nat)
    requires WorkerIn(s, w, Fetched) && s.workers[w].index == k && !s.workers[w].fenced
    requires IdAt(s, k) != 0 && IdAt(s, k) in s.db.processed
    ensures var t := Apply(Apply(s, LookupSeen(w)), Commit(w, true));
            Runs(s, [LookupSeen(w), Commit(w, true)], t) && SettlesOnly(s, t, w, k)
  {
    RunsTwo(s, LookupSeen(w), Commit(w, true));
  }

  lemma SettleNew(s: State, w: nat, k: nat) returns (steps: seq<Step>, t: State)
    requires WorkerIn(s, w, Fetched) && s.workers[w].index == k && !s.workers[w].fenced
    requires IdAt(s, k) == 0 || IdAt(s, k) !in s.db.processed
    ensures Runs(s, steps, t) && SettlesOnly(s, t, w, k)
  {
    var s1 := Apply(s, LookupNew(w));
    RunsOne(s, LookupNew(w));
    var rest;
    rest, t := SettleDispatching(s1, w, k);
    RunsConcat(s, [LookupNew(w)], s1, rest, t);
    steps := [LookupNew(w)] + rest;
  }

  /** The loop logs "will retry" when the dedup lookup fails, but fetches the next record
      instead: wherever a worker may fetch a record with an ID, whatever the others are doing
      and whatever the next record of the partition is, the lookup can fail and the next
      record's commit pass the first, which is settled no more than before. */
  lemma SkippedRecordIsPassed(s: State, w: nat, k: nat, k2: nat) returns (steps: seq<Step>, t: State)
    requires Enabled(s, Fetch(w, k)) && IdAt(s, k) != 0
    requires k < k2 < |s.kafka| && s.kafka[k2].part == s.kafka[k].part
    requires forall j | k < j < k2 :: s.kafka[j].part != s.kafka[k].part
    ensures Runs(s, [Fetch(w, k), LookupError(w)] + steps, t)
    ensures t.kafka == s.kafka && k < Get(t.committed, s.kafka[k].part)
    ensures k in t.fate.skipped && (Settled(t, k) <==> Settled(s, k)) && t.workers == s.workers
  {
    var s1 := Apply(Apply(s, Fetch(w, k)), LookupError(w));
    SkipOne(s, w, k);
    FetchNext(s, s1, w, k, k2);
    steps, t := FetchAndSettle(s1, w, k2);
    RunsConcat(s, [Fetch(w, k), LookupError(w)], s1, steps, t);
  }

  lemma SkipOne(s: State, w: nat, k: nat)
    requires Enabled(s, Fetch(w, k)) && IdAt(s, k) != 0
    ensures Enabled(Apply(s, Fetch(w, k)), LookupError(w))
    ensures var s1 := Apply(Apply(s, Fetch(w, k)), LookupError(w));
            && Runs(s, [Fetch(w, k), LookupError(w)], s1)
            && s1.workers == s.workers && s1.kafka == s.kafka && s1.position == s.position[s.kafka[k].part := k + 1]
            && s1.fate == s.fate.(skipped := s.fate.skipped + {k})
  {
    RunsTwo(s, Fetch(w, k), LookupError(w));
  }

  /** A record a worker may fetch can be fetched, settled and committed. */
  lemma FetchAndSettle(s: State, w: nat, k: nat) returns (steps: seq<Step>, t: State)
    requires Enabled(s, Fetch(w, k))
    ensures Runs(s, steps, t) && t.kafka == s.kafka && t.workers == s.workers
    ensures Get(t.committed, s.kafka[k].part) == k + 1 && t.fate.skipped == s.fate.skipped
    ensures forall j: nat | j != k :: Settled(t, j) <==> Settled(s, j)
  {
    var s1 := Apply(s, Fetch(w, k));
    RunsOne(s, Fetch(w, k));
    var rest;
    rest, t := SettleFetched(s1, w, k);
    steps := [Fetch(w, k)] + rest;
    RunsConcat(s, [Fetch(w, k)], s1, rest, t);
  }

  lemma FetchNext(s: State, s1: State, w: nat, k: nat, k2: nat)
    requires Enabled(s, Fetch(w, k)) && k < k2 < |s.kafka| && s.kafka[k2].part == s.kafka[k].part
    requires forall j | k < j < k2 :: s.kafka[j].part != s.kafka[k].part
    requires s1.kafka == s.kafka && s1.workers == s.workers && s1.position == s.position[s.kafka[k].part := k + 1]
    ensures Enabled(s1, Fetch(w, k2))
  {
    forall v <- s1.workers | On(s1, v, s.kafka[k2].part) ensures s1.workers[v].fenced {
      assert On(s, v, s.kafka[k].part);
    }
  }

  /** What a worker's failed dead-letter write and its commit leave behind. */
  ghost predicate Loses(s: State, t: State, w: nat, k: nat)
    requires k < |s.kafka|
  {
    && t == s.(workers := s.workers - {w}, committed := s.committed[s.kafka[k].part := k + 1],
               fate := s.fate.(lost := s.fate.lost + {k}))
    && (Kept(t, k) <==> Kept(s, k))
  }

  /** `dlq.Write` swallows its error: wherever a worker has given a record up, for whatever
      reason, the write can fail and the commit pass the record all the same. Nothing else
      changes, so the record is kept no more than it was. */
  lemma FailedWriteIsPassed(s: State, w: nat, k: nat, partition: int) returns (t: State)
    requires w in s.workers && s.workers[w].phase.Failed? && k < |s.kafka|
    requires s.workers[w].index == k && !s.workers[w].fenced
    ensures Runs(s, [DeadLetterTo(w, partition, false), Commit(w, true)], t) && Loses(s, t, w, k)
    ensures k < Get(t.committed, t.kafka[k].part) && k in t.fate.lost
  {
    var s1 := Apply(s, DeadLetterTo(w, partition, false));
    RunsTwo(s, DeadLetterTo(w, partition, false), Commit(w, true));
    t := Apply(s1, Commit(w, true));
    assert t.workers == s.workers - {w};
  }

  /** The state in which this worker is in another phase. */
  function InPhase(s: State, w: nat, phase: Phase): State
    requires w in s.workers
  {
    s.(workers := s.workers[w := s.workers[w].(phase := phase)])
  }

  /** An attempt whose transaction rolls back. */
  lemma RollBack(s: State, w: nat, k: nat, failures: nat)
    requires WorkerIn(s, w, Dispatching(failures)) && s.workers[w].index == k && !ActionAt(s, k).Ignore?
    ensures Enabled(s, Attempt(w, N.RolledBack))
    ensures var phase := NextPhase(ActionAt(s, k), N.RolledBack, failures);
            !phase.Done? && Apply(s, Attempt(w, N.RolledBack)) == InPhase(s, w, phase)
  {
  }

  /** Any record that is not ignored can be given up: a malformed one by its first attempt,
      any other by three transactions that roll back. */
  lemma GiveUp(s: State, w: nat, k: nat) returns (steps: seq<Step>, reason: string)
    requires WorkerIn(s, w, Dispatching(0)) && s.workers[w].index == k && !ActionAt(s, k).Ignore?
    ensures Runs(s, steps, InPhase(s, w, Failed(reason)))
    ensures forall step <- steps :: step.Attempt?
  {
    var attempt := Attempt(w, N.RolledBack);
    RollBack(s, w, k, 0);
    RunsOne(s, attempt);
    steps, reason := [attempt], NextPhase(ActionAt(s, k), N.RolledBack, 2).reason;
    if !ActionAt(s, k).Poison? {
      var s1, s2 := InPhase(s, w, Dispatching(1)), InPhase(s, w, Dispatching(2));
      RollBackAgain(s, s1, w, k, 1);
      RollBackAgain(s, s2, w, k, 2);
      RunsTwo(s1, attempt, attempt);
      RunsConcat(s, [attempt], s1, [attempt, attempt], InPhase(s, w, Failed(reason)));
      steps := [attempt] + [attempt, attempt];
    }
  }

  lemma RollBackAgain(s: State, mid: State, w: nat, k: nat, failures: nat)
    requires w in s.workers && k < |s.kafka| && s.workers[w].index == k && mid == InPhase(s, w, Dispatching(failures))
    requires !ActionAt(s, k).Ignore?
    ensures Enabled(mid, Attempt(w, N.RolledBack))
    ensures var phase := NextPhase(ActionAt(s, k), N.RolledBack, failures);
            Apply(mid, Attempt(w, N.RolledBack)) == InPhase(s, w, phase)
  {
    RollBack(mid, w, k, failures);
    var phase := NextPhase(ActionAt(s, k), N.RolledBack, failures);
    assert InPhase(mid, w, phase).workers == InPhase(s, w, phase).workers;
  }

  /** ... and then lost. */
  lemma GiveUpAndLose(s: State, w: nat, k: nat) returns (steps: seq<Step>, t: State)
    requires WorkerIn(s, w, Dispatching(0)) && s.workers[w].index == k && !s.workers[w].fenced
    requires !ActionAt(s, k).Ignore?
    ensures Runs(s, steps, t) && Loses(s, t, w, k)
    ensures forall step <- steps :: !step.LookupError?
  {
    var attempts, reason := GiveUp(s, w, k);
    var failed := InPhase(s, w, Failed(reason));
    t := FailedWriteIsPassed(failed, w, k, 0);
    var lose := [DeadLetterTo(w, 0, false), Commit(w, true)];
    RunsConcat(s, attempts, failed, lose, t);
    steps := attempts + lose;
    assert failed.workers - {w} == s.workers - {w};
  }

  /** A row published, and its record fetched and found new. */
  function Taken(src: RowId, row: Row): State {
    var s := AfterPublish(INIT, src, row);
    s.(position := s.position[s.kafka[0].part := 1], workers := map[0 := Work(0, Dispatching(0), false)])
  }

  function TakeSteps(src: RowId, row: Row): seq<Step> {
    PublishSteps(src, row) + [Fetch(0, 0), LookupNew(0)]
  }

  lemma PublishAndTake(src: RowId, row: Row)
    requires 0 < src.1 <= INT64_MAX && !row.sent && row.topic != ""
    ensures Runs(INIT, TakeSteps(src, row), Taken(src, row)) && Holds(Taken(src, row), 0, src.1, row)
  {
    var s := AfterPublish(INIT, src, row);
    PublishOne(INIT, src, row);
    PublishedFacts(INIT, src, row);
    FetchNew(s, Taken(src, row), 0);
    RunsConcat(INIT, PublishSteps(src, row), s, [Fetch(0, 0), LookupNew(0)], Taken(src, row));
  }

  /** Such a run from the start, for any row the service does not ignore: its record is
      committed and kept nowhere, though no lookup failed. */
  lemma FailedDeadLetterIsLost(src: RowId, row: Row) returns (steps: seq<Step>, t: State)
    requires 0 < src.1 <= INT64_MAX && !row.sent && row.topic != ""
    requires !N.ActionFor(row.topic, row.payload).Ignore?
    ensures Runs(INIT, steps, t) && Holds(t, 0, src.1, row) && 0 < Get(t.committed, t.kafka[0].part)
    ensures 0 in t.fate.lost && !Kept(t, 0) && t.dlq == [] && t.db == INIT.db
    ensures forall step <- steps :: !step.LookupError?
  {
    var s := Taken(src, row);
    PublishAndTake(src, row);
    var rest;
    rest, t := GiveUpAndLose(s, 0, 0);
    RunsConcat(INIT, TakeSteps(src, row), s, rest, t);
    steps := TakeSteps(src, row) + rest;
  }

  function SkipThenConsume(k: nat, k2: nat): seq<Step> {
    [Fetch(0, k), LookupError(0)] + ([Fetch(0, k2), LookupNew(0)] + [Attempt(0, N.Committed), Commit(0, true)])
  }

  function AfterSkipThenConsume(s: State, k: nat, k2: nat): State
    requires k < k2 < |s.kafka| && ActionAt(s, k2).Create?
  {
    AfterConsume(s, k2, N.CreateTx(s.db, IdAt(s, k2), ActionAt(s, k2).n),
                 s.fate.(skipped := s.fate.skipped + {k}, dispatched := s.fate.dispatched + {k2}))
  }

  lemma ConsumeAfterSkip(s: State, mid: State, k: nat, k2: nat)
    requires s.workers == map[] && k < k2 < |s.kafka| && s.kafka[k2].part == s.kafka[k].part
    requires forall j | k < j < k2 :: s.kafka[j].part != s.kafka[k].part
    requires ActionAt(s, k2).Create? && IdAt(s, k2) > 0 && IdAt(s, k2) !in s.db.processed
    requires mid == s.(position := s.position[s.kafka[k].part := k + 1],
                       fate := s.fate.(skipped := s.fate.skipped + {k}))
    ensures Runs(mid, [Fetch(0, k2), LookupNew(0)] + [Attempt(0, N.Committed), Commit(0, true)],
                 AfterSkipThenConsume(s, k, k2))
  {
    assert IdAt(mid, k2) == IdAt(s, k2) && ActionAt(mid, k2) == ActionAt(s, k2);
    ConsumeNew(mid, k2);
    var p := s.kafka[k].part;
    assert mid.position[p := k2 + 1] == s.position[p := k2 + 1];
  }

  /** The same with one idle worker and a next record that is new, and the state it leads to. */
  lemma SkipThenNotify(s: State, k: nat, k2: nat)
    requires NextUp(s, k) && IdAt(s, k) != 0
    requires k < k2 < |s.kafka| && s.kafka[k2].part == s.kafka[k].part
    requires forall j | k < j < k2 :: s.kafka[j].part != s.kafka[k].part
    requires ActionAt(s, k2).Create? && IdAt(s, k2) > 0 && IdAt(s, k2) !in s.db.processed
    ensures var t := AfterSkipThenConsume(s, k, k2);
            && Runs(s, SkipThenConsume(k, k2), t)
            && k < Get(t.committed, t.kafka[k].part)
            && Settled(t, k) == Settled(s, k) && t.workers == map[]
  {
    var p := s.kafka[k].part;
    ConsumeSkipped(s, k);
    var mid := s.(position := s.position[p := k + 1], fate := s.fate.(skipped := s.fate.skipped + {k}));
    ConsumeAfterSkip(s, mid, k, k2);
    RunsConcat(s, [Fetch(0, k), LookupError(0)], mid,
               [Fetch(0, k2), LookupNew(0)] + [Attempt(0, N.Committed), Commit(0, true)],
               AfterSkipThenConsume(s, k, k2));
  }

  /** Such a run from the start: Bob's like is committed, unhandled and never notified. */
  lemma FailedLookupLosesARecord() returns (steps: seq<Step>, t: State)
    ensures Runs(INIT, steps, t) && t.workers == map[]
    ensures Holds(t, 0, 1, LikeRow()) && ActionAt(t, 0).Create? && 0 < Get(t.committed, t.kafka[0].part)
    ensures !Settled(t, 0) && !N.Recorded(t.db, 1) && forall i <- t.db.inserts :: i.n != ActionAt(t, 0).n
  {
    var s: State;
    steps, s := TwoPublished((TweetService, 1), LikeRow(), (TweetService, 2), SecondLikeRow());
    SkipThenNotify(s, 0, 1);
    t := AfterSkipThenConsume(s, 0, 1);
    RunsConcat(INIT, steps, s, SkipThenConsume(0, 1), t);
    steps := steps + SkipThenConsume(0, 1);
  }
}
