/** notification-service: what an event asks for, and the transaction that records
    the event ID together with the notification. */
module Notifications {
  import opened Sequences
  import opened Wrappers

  datatype Kind = Like | Retweet | Reply | Follow
  datatype Notification = Notification(userId: string, actorId: string, kind: Kind, tweetId: Option<string>)

  /** The fields the handlers read: who acted, on whose account or tweet, on which tweet. */
  datatype Event = Event(actorId: string, ownerId: string, tweetId: string)

  /** A payload is known only by what JSON decoding under each topic's event type yields;
      a topic that is absent means the payload is malformed there. */
  datatype Payload = Payload(decoded: map<string, Event>)

  const TWEET_LIKED := "tweet.liked"
  const TWEET_RETWEETED := "tweet.retweeted"
  const TWEET_UNRETWEETED := "tweet.unretweeted"
  const TWEET_REPLIED := "tweet.replied"
  const USER_FOLLOWED := "user.followed"

  datatype Action = Poison | Ignore | Create(n: Notification) | Delete(actorId: string, tweetId: string)

  /** The branch `dispatch` takes. One's own like, retweet or reply is not notified. */
  function ActionFor(topic: string, payload: Payload): Action {
    if topic !in {TWEET_LIKED, TWEET_RETWEETED, TWEET_UNRETWEETED, TWEET_REPLIED, USER_FOLLOWED} then Ignore
    else if topic !in payload.decoded then Poison
    else
      var e := payload.decoded[topic];
      if topic == USER_FOLLOWED then Create(Notification(e.ownerId, e.actorId, Follow, None))
      else if topic == TWEET_UNRETWEETED then Delete(e.actorId, e.tweetId)
      else if e.actorId == e.ownerId then Ignore
      else
        var kind := if topic == TWEET_LIKED then Like else if topic == TWEET_RETWEETED then Retweet else Reply;
        Create(Notification(e.ownerId, e.actorId, kind, Some(e.tweetId)))
  }

  /** A like, retweet or reply is told to the owner of the tweet, unless it is one's own. */
  predicate TellsOwner(a: Action, e: Event, kind: Kind) {
    if e.actorId == e.ownerId then a.Ignore?
    else
      && a.Create? && a.n.userId == e.ownerId && a.n.actorId == e.actorId && a.n.kind == kind
      && a.n.tweetId == Some(e.tweetId)
  }

  predicate TellsFollowee(a: Action, e: Event) {
    a.Create? && a.n.userId == e.ownerId && a.n.actorId == e.actorId && a.n.kind == Follow && a.n.tweetId == None
  }

  /** What each topic asks for, whatever the event: and an event is malformed exactly when its
      topic is one of the five and nothing decodes there. */
  lemma TopicsAskFor(topic: string, payload: Payload)
    ensures ActionFor(topic, payload).Poison? <==>
              topic !in payload.decoded &&
              topic in ["tweet.liked", "tweet.retweeted", "tweet.unretweeted", "tweet.replied", "user.followed"]
    ensures topic !in ["tweet.liked", "tweet.retweeted", "tweet.unretweeted", "tweet.replied", "user.followed"] ==>
              ActionFor(topic, payload).Ignore?
    ensures topic in payload.decoded ==>
              var a, e := ActionFor(topic, payload), payload.decoded[topic];
              && (topic == "tweet.liked" ==> TellsOwner(a, e, Like))
              && (topic == "tweet.retweeted" ==> TellsOwner(a, e, Retweet))
              && (topic == "tweet.replied" ==> TellsOwner(a, e, Reply))
              && (topic == "user.followed" ==> TellsFollowee(a, e))
              && (topic == "tweet.unretweeted" ==> a.Delete? && a.actorId == e.actorId && a.tweetId == e.tweetId)
  {
    assert TWEET_LIKED[6] == 'l' && TWEET_RETWEETED[6] == 'r' && TWEET_UNRETWEETED[6] == 'u' && TWEET_REPLIED[6] == 'r';
    assert TWEET_RETWEETED[8] == 't' && TWEET_REPLIED[8] == 'p' && USER_FOLLOWED[0] == 'u' && TWEET_LIKED[0] == 't';
    assert TWEET_UNRETWEETED[0] == 't' && TWEET_RETWEETED[0] == 't' && TWEET_REPLIED[0] == 't';
  }

  // -------------------------------------------------------------- database

  datatype Insert = Insert(eventId: int, n: Notification)

  /** `processed` is the dedup table, `pruned` the IDs RunDedupPrune has dropped from it,
      `table` the notification rows, `inserts` every insert ever committed. */
  datatype Db = Db(processed: set<int>, pruned: set<int>, table: seq<Notification>, inserts: seq<Insert>)

  /** The effect of a committed `create` transaction. */
  function CreateTx(db: Db, eventId: int, n: Notification): Db {
    if eventId > 0 && eventId in db.processed then db
    else WithInsert(db, eventId, n)
  }

  function WithInsert(db: Db, eventId: int, n: Notification): Db {
    Db(if eventId > 0 then db.processed + {eventId} else db.processed,
       db.pruned, db.table + [n], db.inserts + [Insert(eventId, n)])
  }

  function DeleteTx(db: Db, actorId: string, tweetId: string): Db {
    db.(table := Without(db.table, actorId, tweetId))
  }

  function Without(rows: seq<Notification>, actorId: string, tweetId: string): seq<Notification> {
    if rows == [] then []
    else (if rows[0].actorId == actorId && rows[0].tweetId == Some(tweetId) && rows[0].kind == Retweet
          then [] else [rows[0]])
         + Without(rows[1..], actorId, tweetId)
  }

  /** This row tells that `actorId` retweeted the tweet. */
  predicate TellsRetweet(n: Notification, actorId: string, tweetId: string) {
    n.kind == Retweet && n.actorId == actorId && n.tweetId == Some(tweetId)
  }

  /** An unretweet leaves, in order, exactly the rows that do not tell of that retweet, and
      touches nothing else. */
  lemma DeleteLeaves(db: Db, actorId: string, tweetId: string) returns (at: seq<nat>)
    ensures var after := DeleteTx(db, actorId, tweetId);
            && Picked(db.table, after.table, at)
            && (forall i: nat | i < |db.table| :: i in at <==> !TellsRetweet(db.table[i], actorId, tweetId))
            && after.processed == db.processed && after.pruned == db.pruned && after.inserts == db.inserts
  {
    at := WithoutPicks(db.table, actorId, tweetId);
  }

  lemma {:induction false} WithoutPicks(rows: seq<Notification>, actorId: string, tweetId: string)
    returns (at: seq<nat>)
    ensures Picked(rows, Without(rows, actorId, tweetId), at)
    ensures forall i: nat | i < |rows| :: i in at <==> !TellsRetweet(rows[i], actorId, tweetId)
  {
    if rows == [] {
      return [];
    }
    var tail := WithoutPicks(rows[1..], actorId, tweetId);
    assert rows == [rows[0]] + rows[1..];
    at := PickedCons(rows[0], rows[1..], Without(rows[1..], actorId, tweetId), tail,
                     !TellsRetweet(rows[0], actorId, tweetId));
    forall i: nat | i < |rows| ensures i in at <==> !TellsRetweet(rows[i], actorId, tweetId) {
      if i > 0 {
        assert rows[1..][i - 1] == rows[i];
      }
    }
  }

  /** A `create` adds its row at the end, unless its event has been processed, and then it
      changes nothing; an event without an ID is never taken for processed. */
  lemma CreateAdds(db: Db, eventId: int, n: Notification)
    ensures var after := CreateTx(db, eventId, n);
            if eventId > 0 && eventId in db.processed then after == db
            else
              && after.table == db.table + [n] && after.inserts == db.inserts + [Insert(eventId, n)]
              && after.pruned == db.pruned
              && forall id :: id in after.processed <==> id in db.processed || id == eventId > 0
  {
  }

  /** How often this notification was inserted. */
  function TimesInserted(inserts: seq<Insert>, n: Notification): nat {
    if inserts == [] then 0
    else TimesInserted(inserts[..|inserts| - 1], n) + if inserts[|inserts| - 1].n == n then 1 else 0
  }

  /** Every like, reply and follow notification stands in the table as often as it was inserted. */
  ghost predicate AllStand(db: Db) {
    forall n: Notification | n.kind != Retweet :: Stands(db, n)
  }

  predicate Stands(db: Db, n: Notification) {
    multiset(db.table)[n] == TimesInserted(db.inserts, n)
  }

  lemma CreateTxKeepsStanding(db: Db, eventId: int, n: Notification)
    requires AllStand(db)
    ensures AllStand(CreateTx(db, eventId, n))
  {
    var after := CreateTx(db, eventId, n);
    CreateAdds(db, eventId, n);
    forall m: Notification | m.kind != Retweet ensures Stands(after, m) {
      assert Stands(db, m);
      if after != db {
        assert after.inserts[..|db.inserts|] == db.inserts;
      }
    }
  }

  lemma {:induction false} WithoutKeepsOthers(rows: seq<Notification>, actorId: string, tweetId: string,
                                              n: Notification)
    requires n.kind != Retweet
    ensures multiset(Without(rows, actorId, tweetId))[n] == multiset(rows)[n]
  {
    if rows != [] {
      WithoutKeepsOthers(rows[1..], actorId, tweetId, n);
      assert rows == [rows[0]] + rows[1..];
    }
  }

  lemma DeleteTxKeepsStanding(db: Db, actorId: string, tweetId: string)
    requires AllStand(db)
    ensures AllStand(DeleteTx(db, actorId, tweetId))
  {
    forall n: Notification | n.kind != Retweet ensures Stands(DeleteTx(db, actorId, tweetId), n) {
      assert Stands(db, n);
      WithoutKeepsOthers(db.table, actorId, tweetId, n);
    }
  }

  function PruneTx(db: Db, ids: set<int>): Db {
    db.(processed := db.processed - ids, pruned := db.pruned + ids)
  }

  function InsertCount(inserts: seq<Insert>, eventId: int): nat {
    if inserts == [] then 0
    else InsertCount(inserts[..|inserts| - 1], eventId) + if inserts[|inserts| - 1].eventId == eventId then 1 else 0
  }

  /** The event ID has been through a committed `create`. */
  predicate Recorded(db: Db, id: int) {
    id in db.processed || id in db.pruned
  }

  /** Exactly the IDs ever marked processed have an insert. */
  ghost predicate Marked(db: Db) {
    (forall id :: Recorded(db, id) ==> id > 0) && forall id | id > 0 :: MarkedAt(db, id)
  }

  predicate MarkedAt(db: Db, id: int) {
    InsertCount(db.inserts, id) >= 1 <==> Recorded(db, id)
  }

  /** Besides, none of them has two, and a pruned ID has not come back. */
  ghost predicate OncePerEvent(db: Db) {
    && db.processed !! db.pruned
    && (forall id :: Recorded(db, id) ==> id > 0)
    && forall id | id > 0 :: OnceAt(db, id)
  }

  predicate OnceAt(db: Db, id: int) {
    InsertCount(db.inserts, id) == if Recorded(db, id) then 1 else 0
  }

  lemma InsertCounts(db: Db, eventId: int, n: Notification, id: int)
    ensures InsertCount(WithInsert(db, eventId, n).inserts, id)
         == InsertCount(db.inserts, id) + if id == eventId then 1 else 0
  {
    var inserts := db.inserts + [Insert(eventId, n)];
    assert inserts[..|inserts| - 1] == db.inserts;
  }

  lemma CreateTxRecords(db: Db, eventId: int, n: Notification)
    ensures forall id :: Recorded(CreateTx(db, eventId, n), id) <==> Recorded(db, id) || id == eventId > 0
  {
  }

  lemma CreateTxKeepsMarked(db: Db, eventId: int, n: Notification)
    requires Marked(db)
    ensures Marked(CreateTx(db, eventId, n))
  {
    CreateTxRecords(db, eventId, n);
    forall id | id > 0 ensures MarkedAt(CreateTx(db, eventId, n), id) {
      assert MarkedAt(db, id);
      InsertCounts(db, eventId, n, id);
    }
  }

  lemma CreateTxOnceAt(db: Db, eventId: int, n: Notification, id: int)
    requires OnceAt(db, id) && id > 0
    ensures OnceAt(CreateTx(db, eventId, n), id) <==> eventId != id || eventId in db.processed || eventId !in db.pruned
  {
    InsertCounts(db, eventId, n, id);
  }

  /** A serializable `create` keeps one insert per ID exactly when the ID was not pruned. */
  lemma CreateTxKeepsOnce(db: Db, eventId: int, n: Notification)
    requires OncePerEvent(db)
    ensures OncePerEvent(CreateTx(db, eventId, n)) <==> eventId !in db.pruned
  {
    CreateTxRecords(db, eventId, n);
    forall id | id > 0
      ensures OnceAt(CreateTx(db, eventId, n), id)
           <==> eventId != id || eventId in db.processed || eventId !in db.pruned
    {
      assert OnceAt(db, id);
      CreateTxOnceAt(db, eventId, n, id);
    }
    if eventId in db.pruned {
      assert Recorded(db, eventId);
      assert !OnceAt(CreateTx(db, eventId, n), eventId);
    }
  }

  /** `MarkEventProcessed` is ON CONFLICT DO NOTHING, so nothing in the transaction itself
      notices a rival that committed between its lookup and its commit. Committing on a
      lookup that answered `seen` keeps one insert per ID exactly when that answer still
      holds, which is what running the transactions serializably provides. */
  lemma StaleLookupBreaksOnce(db: Db, eventId: int, n: Notification, seen: bool)
    requires OncePerEvent(db) && eventId > 0 && eventId !in db.pruned
    ensures var after := if seen then db else WithInsert(db, eventId, n);
            OncePerEvent(after) && eventId in after.processed <==> seen == (eventId in db.processed)
  {
    assert OnceAt(db, eventId);
    InsertCounts(db, eventId, n, eventId);
    if !seen {
      if eventId in db.processed {
        assert !OnceAt(WithInsert(db, eventId, n), eventId);
      } else {
        assert WithInsert(db, eventId, n) == CreateTx(db, eventId, n);
        CreateTxKeepsOnce(db, eventId, n);
      }
    }
  }

  lemma SameRecords(db: Db, after: Db)
    requires after.processed == db.processed && after.pruned == db.pruned && after.inserts == db.inserts
    ensures Marked(db) ==> Marked(after)
    ensures OncePerEvent(db) ==> OncePerEvent(after)
  {
    assert forall id :: Recorded(after, id) <==> Recorded(db, id);
    assert forall id :: MarkedAt(after, id) <==> MarkedAt(db, id);
    assert forall id :: OnceAt(after, id) <==> OnceAt(db, id);
  }

  lemma PruneTxKeeps(db: Db, ids: set<int>)
    requires ids <= db.processed
    ensures forall id :: Recorded(PruneTx(db, ids), id) <==> Recorded(db, id)
    ensures Marked(db) ==> Marked(PruneTx(db, ids))
    ensures OncePerEvent(db) ==> OncePerEvent(PruneTx(db, ids))
  {
    var after := PruneTx(db, ids);
    assert forall id :: Recorded(after, id) <==> Recorded(db, id);
    assert forall id :: MarkedAt(after, id) <==> MarkedAt(db, id);
    assert forall id :: OnceAt(after, id) <==> OnceAt(db, id);
  }

  lemma {:induction false} CountedIsInserted(inserts: seq<Insert>, id: int)
    requires InsertCount(inserts, id) >= 1
    ensures exists i <- inserts :: i.eventId == id
  {
    var last := inserts[|inserts| - 1];
    if last.eventId == id {
      assert last in inserts;
    } else {
      CountedIsInserted(inserts[..|inserts| - 1], id);
    }
  }

  // ------------------------------------------------------------------ code

  /** How a transaction ends: committed, rolled back, or committed with the
      acknowledgement lost so that the caller sees an error. */
  datatype TxEnd = Committed | RolledBack | CommitUnacknowledged

  class Service {
    var db: Db
    var published: seq<Notification>  // handed to hub.Publish after commit

    constructor ()
      ensures db == Db({}, {}, [], []) && published == []
    {
      db := Db({}, {}, [], []);
      published := [];
    }

    /** `create`: the closure runs on the transaction's own view; the after-commit hook
        publishes only what this transaction inserted. */
    method Create(eventId: int, n: Notification, end: TxEnd) returns (ok: bool)
      modifies this
      ensures ok == end.Committed?
      ensures db == if end.RolledBack? then old(db) else CreateTx(old(db), eventId, n)
      ensures published == old(published) + if ok && |db.inserts| > |old(db).inserts| then [n] else []
    {
      var tx := db;
      var created := false;
      var processed := false;
      if eventId > 0 {
        processed := eventId in tx.processed;
        if !processed {
          tx := tx.(processed := tx.processed + {eventId});
        }
      }
      if !processed {
        tx := tx.(table := tx.table + [n], inserts := tx.inserts + [Insert(eventId, n)]);
        created := true;
      }
      if !end.RolledBack? {
        db := tx;
      }
      ok := end.Committed?;
      if ok && created {
        published := published + [n];
      }
    }
  }
}
