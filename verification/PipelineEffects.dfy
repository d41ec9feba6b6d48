/** What the consumer's steps come to, in terms of the events themselves: which notification
    a dispatched event adds or removes, what stays of it, and what a dead letter says. */
module PipelineEffects {
  import opened Sequences
  import opened Strconv
  import opened Wrappers
  import opened Dlq
  import opened Pipeline
  import opened OutboxSafety
  import opened ConsumerSafety
  import opened PipelineResults
  import N = Notifications

  /** Record `k` carries this event under this topic. */
  predicate Carries(s: State, k: nat, topic: string, e: N.Event) {
    && k < |s.kafka| && s.kafka[k].msg.topic == topic
    && topic in s.kafka[k].msg.value.decoded && s.kafka[k].msg.value.decoded[topic] == e
  }

  /** This step commits the transaction of a record that carries this event. */
  predicate Dispatches(s: State, step: Step, topic: string, e: N.Event) {
    Enabled(s, step) && step.Attempt? && !step.end.RolledBack? && Carries(s, s.workers[step.w].index, topic, e)
  }

  /** What is told of an event under a topic: to its owner, by its actor, of this kind. */
  predicate Tells(topic: string, e: N.Event, n: N.Notification) {
    && n.userId == e.ownerId && n.actorId == e.actorId
    && (|| (topic == "tweet.liked" && n.kind == N.Like)
        || (topic == "tweet.retweeted" && n.kind == N.Retweet)
        || (topic == "tweet.replied" && n.kind == N.Reply)
        || (topic == "user.followed" && n.kind == N.Follow))
    && n.tweetId == (if topic == "user.followed" then None else Some(e.tweetId))
    && (e.actorId == e.ownerId ==> topic == "user.followed")
  }

  lemma TellingCreates(s: State, k: nat, topic: string, e: N.Event, n: N.Notification)
    requires Carries(s, k, topic, e)
    ensures Tells(topic, e, n) ==> ActionAt(s, k) == N.Action.Create(n)
    ensures ActionAt(s, k) == N.Action.Create(n) ==> Tells(topic, e, n)
  {
    N.TopicsAskFor(topic, s.kafka[k].msg.value);
  }

  /** A committed dispatch adds what is to be told at the end of the table, unless its event
      has been processed already. */
  lemma DispatchAdds(s: State, step: Step, topic: string, e: N.Event, n: N.Notification)
    requires Dispatches(s, step, topic, e) && Tells(topic, e, n)
    ensures var db, after, id := s.db, Apply(s, step).db, IdAt(s, s.workers[step.w].index);
            if id > 0 && id in db.processed then after == db
            else after.table == db.table + [n] && after.inserts == db.inserts + [N.Insert(id, n)]
  {
    var k := s.workers[step.w].index;
    TellingCreates(s, k, topic, e, n);
    N.CreateAdds(s.db, IdAt(s, k), n);
  }

  /** One's own like, retweet or reply, and what is on no such topic, changes nothing. */
  lemma DispatchIgnores(s: State, step: Step, topic: string, e: N.Event)
    requires Dispatches(s, step, topic, e)
    requires if topic in ["tweet.liked", "tweet.retweeted", "tweet.replied"] then e.actorId == e.ownerId
             else topic !in ["tweet.unretweeted", "user.followed"]
    ensures Apply(s, step).db == s.db
  {
    N.TopicsAskFor(topic, s.kafka[s.workers[step.w].index].msg.value);
  }

  /** A committed unretweet leaves, in order, exactly the rows that do not tell of this actor's
      retweet of this tweet. */
  lemma UnretweetRemoves(s: State, step: Step, e: N.Event) returns (at: seq<nat>)
    requires Dispatches(s, step, "tweet.unretweeted", e)
    ensures var db, after := s.db, Apply(s, step).db;
            && Picked(db.table, after.table, at) && after.inserts == db.inserts
            && forall i: nat | i < |db.table| :: i in at <==> !N.TellsRetweet(db.table[i], e.actorId, e.tweetId)
  {
    N.TopicsAskFor("tweet.unretweeted", s.kafka[s.workers[step.w].index].msg.value);
    at := N.DeleteLeaves(s.db, e.actorId, e.tweetId);
  }

  // ---------------------------------------------------- what is undone stays so

  ghost predicate NoRetweetTold(db: N.Db, actorId: string, tweetId: string) {
    forall n <- db.table :: !N.TellsRetweet(n, actorId, tweetId)
  }

  /** This step commits the notification of a retweet of this tweet by this actor. */
  ghost predicate TellsAgain(s: State, step: Step, actorId: string, tweetId: string) {
    exists e :: Dispatches(s, step, "tweet.retweeted", e) && e.actorId == actorId && e.tweetId == tweetId
  }

  ghost predicate NeverTellsAgain(s: State, steps: seq<Step>, actorId: string, tweetId: string)
    decreases |steps|
  {
    steps != [] && Enabled(s, steps[0]) ==>
      !TellsAgain(s, steps[0], actorId, tweetId) && NeverTellsAgain(Apply(s, steps[0]), steps[1..], actorId, tweetId)
  }

  lemma StaysUntold(s: State, step: Step, actorId: string, tweetId: string)
    requires Enabled(s, step) && NoRetweetTold(s.db, actorId, tweetId) && !TellsAgain(s, step, actorId, tweetId)
    ensures NoRetweetTold(Apply(s, step).db, actorId, tweetId)
  {
    if step.Attempt? && !step.end.RolledBack? {
      var k := s.workers[step.w].index;
      match ActionAt(s, k)
      case Create(n) =>
        CreateIsTold(s, step, n);
        N.CreateAdds(s.db, IdAt(s, k), n);
      case Delete(a, t) =>
        var at := N.DeleteLeaves(s.db, a, t);
        KeptAreOld(s.db.table, N.DeleteTx(s.db, a, t).table, at);
      case _ =>
    } else {
      OthersLeaveTable(s, step);
    }
  }

  lemma KeptAreOld<T>(all: seq<T>, kept: seq<T>, at: seq<nat>)
    requires Picked(all, kept, at)
    ensures forall x <- kept :: x in all
  {
  }

  /** Whatever a dispatch inserts tells of the event it carries. */
  lemma CreateIsTold(s: State, step: Step, n: N.Notification)
    requires Enabled(s, step) && step.Attempt? && !step.end.RolledBack?
    requires ActionAt(s, s.workers[step.w].index) == N.Action.Create(n)
    ensures exists topic, e :: Dispatches(s, step, topic, e) && Tells(topic, e, n)
    ensures n.kind == N.Retweet && n.tweetId.Some? ==> TellsAgain(s, step, n.actorId, n.tweetId.value)
  {
    var msg := s.kafka[s.workers[step.w].index].msg;
    N.TopicsAskFor(msg.topic, msg.value);
    var e := msg.value.decoded[msg.topic];
    TellingCreates(s, s.workers[step.w].index, msg.topic, e, n);
    assert Dispatches(s, step, msg.topic, e);
  }

  lemma OthersLeaveTable(s: State, step: Step)
    requires Enabled(s, step) && !(step.Attempt? && !step.end.RolledBack?)
    ensures Apply(s, step).db.table == s.db.table && Apply(s, step).db.inserts == s.db.inserts
  {
  }

  lemma {:induction false} RunStaysUntold(s: State, steps: seq<Step>, t: State, actorId: string, tweetId: string)
    requires Runs(s, steps, t) && NoRetweetTold(s.db, actorId, tweetId) && NeverTellsAgain(s, steps, actorId, tweetId)
    ensures NoRetweetTold(t.db, actorId, tweetId)
    decreases |steps|
  {
    if steps != [] {
      StaysUntold(s, steps[0], actorId, tweetId);
      RunStaysUntold(Apply(s, steps[0]), steps[1..], t, actorId, tweetId);
    }
  }

  /** Once an unretweet has committed, whatever came before, no notification of that retweet is
      left, and none comes back until another retweet of the pair is dispatched. */
  lemma UnretweetedStaysUntold(s: State, step: Step, e: N.Event, steps: seq<Step>, t: State)
    requires Dispatches(s, step, "tweet.unretweeted", e) && Runs(Apply(s, step), steps, t)
    requires NeverTellsAgain(Apply(s, step), steps, e.actorId, e.tweetId)
    ensures forall n <- t.db.table :: !(n.kind == N.Retweet && n.actorId == e.actorId && n.tweetId == Some(e.tweetId))
  {
    var at := UnretweetRemoves(s, step, e);
    KeptAreOld(s.db.table, Apply(s, step).db.table, at);
    RunStaysUntold(Apply(s, step), steps, t, e.actorId, e.tweetId);
    assert forall n <- t.db.table :: !N.TellsRetweet(n, e.actorId, e.tweetId);
  }

  // --------------------------------------------------------- what is told stands

  lemma StepKeepsStanding(s: State, step: Step)
    requires Enabled(s, step) && N.AllStand(s.db)
    ensures N.AllStand(Apply(s, step).db)
  {
    if step.Attempt? && !step.end.RolledBack? {
      var k := s.workers[step.w].index;
      match ActionAt(s, k)
      case Create(n) => N.CreateTxKeepsStanding(s.db, IdAt(s, k), n);
      case Delete(a, t) => N.DeleteTxKeepsStanding(s.db, a, t);
      case _ =>
    } else {
      OthersLeaveTable(s, step);
      assert forall n: N.Notification :: N.Stands(Apply(s, step).db, n) <==> N.Stands(s.db, n);
    }
  }

  lemma {:induction false} RunKeepsStanding(s: State, steps: seq<Step>, t: State)
    requires Runs(s, steps, t) && N.AllStand(s.db)
    ensures N.AllStand(t.db)
    decreases |steps|
  {
    if steps != [] {
      StepKeepsStanding(s, steps[0]);
      RunKeepsStanding(Apply(s, steps[0]), steps[1..], t);
    }
  }

  /** In every run, each like, reply and follow notification stands in the table exactly as
      often as it was inserted: unretweets remove nothing else. */
  lemma EveryNoticeStands(steps: seq<Step>, t: State, n: N.Notification)
    requires Runs(INIT, steps, t) && n.kind != N.Retweet
    ensures multiset(t.db.table)[n] == N.TimesInserted(t.db.inserts, n)
  {
    assert forall m: N.Notification :: N.Stands(INIT.db, m);
    RunKeepsStanding(INIT, steps, t);
    assert N.Stands(t.db, n);
  }

  lemma {:induction false} InsertedAtLeastOnce(inserts: seq<N.Insert>, i: N.Insert)
    requires i in inserts
    ensures N.TimesInserted(inserts, i.n) >= 1
  {
    var front, last := inserts[..|inserts| - 1], inserts[|inserts| - 1];
    assert inserts == front + [last];
    if i in front {
      InsertedAtLeastOnce(front, i);
    }
  }

  /** Under disjoint IDs, a committed record that was neither dead-lettered nor skipped has told
      its event exactly once: to the owner, of the actor, as its topic says. But for a retweet,
      which may be undone, the notification is there to be read. */
  lemma EventIsTold(steps: seq<Step>, t: State, k: nat, topic: string, e: N.Event, n: N.Notification)
    requires Runs(INIT, steps, t) && QuietPrunes(INIT, steps) && DisjointIds(t)
    requires Carries(t, k, topic, e) && Tells(topic, e, n) && k < Get(t.committed, t.kafka[k].part)
    requires k !in t.fate.dead + t.fate.lost + t.fate.skipped
    ensures N.InsertCount(t.db.inserts, IdAt(t, k)) == 1 && N.Insert(IdAt(t, k), n) in t.db.inserts
    ensures forall i <- t.db.inserts :: i.eventId == IdAt(t, k) ==> i.n == n
    ensures topic != "tweet.retweeted" ==> n in t.db.table
  {
    TellingCreates(t, k, topic, e, n);
    ExactlyOneNotification(steps, t, k);
    N.CountedIsInserted(t.db.inserts, IdAt(t, k));
    var i :| i in t.db.inserts && i.eventId == IdAt(t, k);
    assert i == N.Insert(IdAt(t, k), n);
    if topic != "tweet.retweeted" {
      assert |"tweet.retweeted"| == 15 && |"tweet.liked"| == 11;
      EveryNoticeStands(steps, t, n);
      InsertedAtLeastOnce(t.db.inserts, i);
    }
  }

  // ------------------------------------------------------------- dead letters

  /** The letter a failed record leaves: its key and payload, its own headers, and where it
      came from. */
  predicate SaysOf(d: Dead, m: Pipeline.Message, k: nat) {
    && d.msg.topic == "notification-service-cg.dlq" && d.msg.key == m.key && d.msg.value == m.value
    && m.headers <= d.msg.headers
    && HeaderValue(d.msg.headers, "X-DLQ-Source-Topic") == m.topic
    && HeaderValue(d.msg.headers, "X-DLQ-Source-Offset") == FormatInt(k)
  }

  lemma LetterSaysOf(r: Record, d: Dead, k: nat)
    requires IsLetterOf(d, r, k) && NoDlqHeaders(r.msg.headers)
    ensures SaysOf(d, r.msg, k)
  {
    var f: Failure :| f.offset == k && d.msg == DeadLetter(r.msg, f, DLQ_TOPIC);
    var own := Provenance(r.msg.topic, f);
    FirstHeaderWins(r.msg.headers, own, "X-DLQ-Source-Topic");
    FirstHeaderWins(r.msg.headers, own, "X-DLQ-Source-Offset");
    assert |SOURCE_TOPIC| == 18 && |SOURCE_PARTITION| == 22 && |SOURCE_OFFSET| == 19;
    HeaderValueIs(own, "X-DLQ-Source-Topic");
    HeaderValueIs(own, "X-DLQ-Source-Offset");
    assert own[0].value == r.msg.topic && own[2].value == FormatInt(k);
  }

  /** In every run, a record that was dead-lettered has a letter that says so. */
  lemma DeadLettersSay(steps: seq<Step>, t: State, k: nat)
    requires Runs(INIT, steps, t) && k < |t.kafka| && k in t.fate.dead
    ensures exists d <- t.dlq :: d.source == t.kafka[k].source && SaysOf(d, t.kafka[k].msg, k)
  {
    InitInv();
    RunKeepsInv(INIT, steps, t);
    assert FateOk(t, k);
    SourceOf(t, k);
    MsgOfFacts(t.kafka[k].source.1, t.outbox[t.kafka[k].source]);
    var j :| 0 <= j < |t.dlq| && IsLetterOf(t.dlq[j], t.kafka[k], k);
    LetterSaysOf(t.kafka[k], t.dlq[j], k);
    assert t.dlq[j] in t.dlq;
  }
}
