/** What the pipeline guarantees over whole runs. */
module PipelineResults {
  import opened Pipeline
  import opened OutboxSafety
  import opened ConsumerSafety
  import N = Notifications

  lemma {:induction false} RunKeepsInv(s: State, steps: seq<Step>, t: State)
    requires Inv(s) && Runs(s, steps, t)
    ensures Inv(t)
    decreases |steps|
  {
    if steps != [] {
      KeepsInv(s, steps[0]);
      RunKeepsInv(Apply(s, steps[0]), steps[1..], t);
    }
  }

  lemma InitInv()
    ensures Inv(INIT)
  {
  }

  // ---------------------------------------------- at most one notification

  ghost predicate QuietPrunes(s: State, steps: seq<Step>)
    decreases |steps|
  {
    steps != [] && Enabled(s, steps[0]) ==> PrunesQuietly(s, steps[0]) && QuietPrunes(Apply(s, steps[0]), steps[1..])
  }

  ghost predicate FreshRows(s: State, steps: seq<Step>)
    decreases |steps|
  {
    steps != [] && Enabled(s, steps[0]) ==> InsertsFresh(s, steps[0]) && FreshRows(Apply(s, steps[0]), steps[1..])
  }

  lemma {:induction false} RunKeepsOnce(s: State, steps: seq<Step>, t: State)
    requires Inv(s) && OnceInv(s) && Runs(s, steps, t) && QuietPrunes(s, steps) && FreshRows(s, steps)
    ensures OnceInv(t)
    decreases |steps|
  {
    if steps != [] {
      KeepsInv(s, steps[0]);
      KeepsOnceInv(s, steps[0]);
      RunKeepsOnce(Apply(s, steps[0]), steps[1..], t);
    }
  }

  /** In every run, with any number of crashes, aborts, redeliveries and replays, that prunes
      only IDs nothing carries any more and gives no row a pruned ID: at most one notification
      insert commits per event ID, and one has exactly when the ID was marked processed. */
  lemma AtMostOneNotification(steps: seq<Step>, t: State, id: int)
    requires Runs(INIT, steps, t) && QuietPrunes(INIT, steps) && FreshRows(INIT, steps) && id > 0
    ensures N.InsertCount(t.db.inserts, id) <= 1
    ensures N.InsertCount(t.db.inserts, id) == 1 <==> N.Recorded(t.db, id)
  {
    InitInv();
    RunKeepsOnce(INIT, steps, t);
    assert N.OnceAt(t.db, id);
  }

  /** This step commits a `create` for the ID. */
  predicate CommitsCreate(s: State, step: Step, id: int) {
    Enabled(s, step) && CommitsACreate(s, step) && IdAt(s, s.workers[step.w].index) == id
  }

  /** It does so although the ID went through an earlier one, and was pruned since. */
  predicate CreatesAgain(s: State, step: Step, id: int) {
    CommitsCreate(s, step, id) && id in s.db.pruned && id !in s.db.processed
  }

  ghost predicate NeverCreatesAgain(s: State, steps: seq<Step>, id: int)
    decreases |steps|
  {
    steps != [] && Enabled(s, steps[0]) ==>
      !CreatesAgain(s, steps[0], id) && NeverCreatesAgain(Apply(s, steps[0]), steps[1..], id)
  }

  lemma StepCounts(s: State, step: Step, id: int)
    requires Enabled(s, step) && id > 0
    ensures N.InsertCount(Apply(s, step).db.inserts, id)
         == N.InsertCount(s.db.inserts, id) + if CommitsCreate(s, step, id) && id !in s.db.processed then 1 else 0
  {
    if !step.Attempt? {
      OnlyAttemptsInsert(s, step);
    } else {
      var k := s.workers[step.w].index;
      if ActionAt(s, k).Create? {
        N.InsertCounts(s.db, IdAt(s, k), ActionAt(s, k).n, id);
      }
    }
  }

  lemma {:induction false} RunCounts(s: State, steps: seq<Step>, t: State, id: int)
    requires N.Marked(s.db) && Runs(s, steps, t) && id > 0
    ensures N.InsertCount(s.db.inserts, id) >= 2 ==> N.InsertCount(t.db.inserts, id) >= 2
    ensures N.InsertCount(s.db.inserts, id) <= 1 ==>
              (N.InsertCount(t.db.inserts, id) <= 1 <==> NeverCreatesAgain(s, steps, id))
    decreases |steps|
  {
    if steps != [] {
      assert N.MarkedAt(s.db, id);
      StepCounts(s, steps[0], id);
      KeepsMarked(s, steps[0]);
      RunCounts(Apply(s, steps[0]), steps[1..], t, id);
    }
  }

  /** In every run whatsoever: an event ID has a notification exactly when it was marked
      processed, and has no second one exactly when no `create` committed for it after it was
      pruned. */
  lemma AtMostOneIff(steps: seq<Step>, t: State, id: int)
    requires Runs(INIT, steps, t) && id > 0
    ensures N.InsertCount(t.db.inserts, id) >= 1 <==> N.Recorded(t.db, id)
    ensures N.InsertCount(t.db.inserts, id) <= 1 <==> NeverCreatesAgain(INIT, steps, id)
  {
    InitInv();
    RunKeepsInv(INIT, steps, t);
    assert N.MarkedAt(t.db, id);
    RunCounts(INIT, steps, t, id);
  }

  // ------------------------------------------------------ nothing overlooked

  lemma OnlyFailedLookupsSkip(s: State, step: Step)
    requires Enabled(s, step) && !step.LookupError?
    ensures Apply(s, step).fate.skipped == s.fate.skipped
  {
  }

  lemma {:induction false} NothingSkipped(s: State, steps: seq<Step>, t: State)
    requires Runs(s, steps, t) && forall step <- steps :: !step.LookupError?
    ensures t.fate.skipped == s.fate.skipped
    decreases |steps|
  {
    if steps != [] {
      assert steps[0] in steps;
      OnlyFailedLookupsSkip(s, steps[0]);
      NothingSkipped(Apply(s, steps[0]), steps[1..], t);
    }
  }

  /** If no dedup lookup failed, every record below a committed offset was found processed,
      was dispatched without error, sits unchanged in the dead-letter topic, or was handed to
      a dead-letter write that failed; and no dispatch has had more than three attempts. */
  lemma CommittedIsHandled(steps: seq<Step>, t: State, k: nat)
    requires Runs(INIT, steps, t) && forall step <- steps :: !step.LookupError?
    requires k < |t.kafka| && k < Get(t.committed, t.kafka[k].part)
    ensures Settled(t, k)
    ensures k in t.fate.duplicate ==> N.Recorded(t.db, IdAt(t, k))
    ensures k in t.fate.dispatched && ActionAt(t, k).Create? ==> N.Recorded(t.db, IdAt(t, k))
    ensures k in t.fate.dead ==> InDlq(t, k)
    ensures forall w <- t.workers :: t.workers[w].phase.Dispatching? ==> t.workers[w].phase.failures < 3
  {
    InitInv();
    RunKeepsInv(INIT, steps, t);
    NothingSkipped(INIT, steps, t);
    assert RecordOk(t, k) && FateOk(t, k);
    SourceOf(t, k);
    forall w <- t.workers ensures t.workers[w].phase.Dispatching? ==> t.workers[w].phase.failures < 3 {
      assert WorkerOk(t, w);
    }
  }

  /** The record was recognised as a duplicate, was dispatched, or is in the dead-letter topic. */
  ghost predicate Kept(s: State, k: nat)
    requires k < |s.kafka|
  {
    k in s.fate.duplicate || k in s.fate.dispatched || InDlq(s, k)
  }

  predicate IsFailure(step: Step) {
    step.LookupError? || (step.DeadLetterTo? && !step.ok)
  }

  /** The dedup lookup or the dead-letter write for this very record fails. */
  predicate FailsOn(s: State, step: Step, k: nat) {
    IsFailure(step) && step.w in s.workers && s.workers[step.w].index == k
  }

  ghost predicate NeverFailsOn(s: State, steps: seq<Step>, k: nat)
    decreases |steps|
  {
    steps != [] && Enabled(s, steps[0]) ==>
      !FailsOn(s, steps[0], k) && NeverFailsOn(Apply(s, steps[0]), steps[1..], k)
  }

  lemma StepFails(s: State, step: Step, k: nat)
    requires Enabled(s, step)
    ensures var s' := Apply(s, step);
            k in s'.fate.lost + s'.fate.skipped <==> k in s.fate.lost + s.fate.skipped || FailsOn(s, step, k)
  {
  }

  /** Records are lost or skipped by failures on them, and by nothing else. */
  lemma {:induction false} LeftByFailures(s: State, steps: seq<Step>, t: State, k: nat)
    requires Runs(s, steps, t)
    ensures k in t.fate.lost + t.fate.skipped
       <==> k in s.fate.lost + s.fate.skipped || !NeverFailsOn(s, steps, k)
    decreases |steps|
  {
    if steps != [] {
      StepFails(s, steps[0], k);
      LeftByFailures(Apply(s, steps[0]), steps[1..], t, k);
    }
  }

  /** In every run: a record below a committed offset is kept, unless its own dedup lookup or
      its own dead-letter write has failed. */
  lemma CommittedIsKeptUnlessFailed(steps: seq<Step>, t: State, k: nat)
    requires Runs(INIT, steps, t) && NeverFailsOn(INIT, steps, k)
    requires k < |t.kafka| && k < Get(t.committed, t.kafka[k].part)
    ensures Kept(t, k)
  {
    InitInv();
    RunKeepsInv(INIT, steps, t);
    LeftByFailures(INIT, steps, t, k);
    assert RecordOk(t, k) && FateOk(t, k);
  }

  lemma {:induction false} NoFailureAnywhere(s: State, steps: seq<Step>, k: nat)
    requires forall step <- steps :: !IsFailure(step)
    ensures NeverFailsOn(s, steps, k)
    decreases |steps|
  {
    if steps != [] && Enabled(s, steps[0]) {
      assert steps[0] in steps;
      NoFailureAnywhere(Apply(s, steps[0]), steps[1..], k);
    }
  }

  /** With no failed lookup and no failed dead-letter write, no message advances past
      unhandled state: every record below a committed offset is kept. */
  lemma CommittedIsKept(steps: seq<Step>, t: State, k: nat)
    requires Runs(INIT, steps, t)
    requires forall step <- steps :: !step.LookupError? && !(step.DeadLetterTo? && !step.ok)
    requires k < |t.kafka| && k < Get(t.committed, t.kafka[k].part)
    ensures Kept(t, k)
  {
    NoFailureAnywhere(INIT, steps, k);
    CommittedIsKeptUnlessFailed(steps, t, k);
  }

  lemma SourceOf(t: State, k: nat)
    requires OutboxInv(t) && k < |t.kafka|
    ensures var src := t.kafka[k].source;
            src in t.outbox && IdAt(t, k) == src.1 > 0 && t.kafka[k].msg == MsgOf(src.1, t.outbox[src])
  {
    MsgOfFacts(t.kafka[k].source.1, t.outbox[t.kafka[k].source]);
  }

  /** No two services have given the same ID to a row. The code does not enforce this: both
      outboxes number their rows from 1. */
  ghost predicate DisjointIds(t: State) {
    forall a <- t.outbox, b <- t.outbox :: a.1 == b.1 ==> a == b
  }

  lemma RecordedHasRow(s: State, id: int)
    requires Inv(s) && N.Recorded(s.db, id)
    ensures exists src <- s.outbox :: src.1 == id
  {
    assert N.MarkedAt(s.db, id);
    N.CountedIsInserted(s.db.inserts, id);
    var i :| i in s.db.inserts && i.eventId == id;
    assert Stems(s, i);
    var k: nat :| k < |s.kafka| && IdAt(s, k) == i.eventId && ActionAt(s, k) == N.Action.Create(i.n);
    SourceOf(s, k);
  }

  /** Disjoint IDs include that no row is given a pruned one: its first row is still there. */
  lemma {:induction false} DisjointIsFresh(s: State, steps: seq<Step>, t: State)
    requires Inv(s) && Runs(s, steps, t) && DisjointIds(t)
    ensures DisjointIds(s) && FreshRows(s, steps)
    decreases |steps|
  {
    if steps != [] {
      var next := Apply(s, steps[0]);
      KeepsInv(s, steps[0]);
      DisjointIsFresh(next, steps[1..], t);
      StepExtends(s, steps[0]);
      if steps[0].InsertRow? {
        OwnId(s.outbox.Keys, next.outbox.Keys, steps[0].source);
        if steps[0].source.1 in s.db.pruned {
          RecordedHasRow(s, steps[0].source.1);
        }
      }
    }
  }

  lemma OwnId(rows: set<RowId>, more: set<RowId>, source: RowId)
    requires rows <= more && source in more && source !in rows
    requires forall a <- more, b <- more :: a.1 == b.1 ==> a == b
    ensures forall src <- rows :: src.1 != source.1
  {
  }

  /** Under disjoint IDs a committed record that asks for a notification, and was neither
      dead-lettered nor skipped, has produced exactly its own notification, exactly once. */
  lemma ExactlyOneNotification(steps: seq<Step>, t: State, k: nat)
    requires Runs(INIT, steps, t) && QuietPrunes(INIT, steps) && DisjointIds(t)
    requires k < |t.kafka| && k < Get(t.committed, t.kafka[k].part) && ActionAt(t, k).Create?
    requires k !in t.fate.dead + t.fate.lost + t.fate.skipped
    ensures N.InsertCount(t.db.inserts, IdAt(t, k)) == 1
    ensures forall i <- t.db.inserts :: i.eventId == IdAt(t, k) ==> i.n == ActionAt(t, k).n
  {
    InitInv();
    RunKeepsInv(INIT, steps, t);
    assert RecordOk(t, k) && FateOk(t, k);
    SourceOf(t, k);
    DisjointIsFresh(INIT, steps, t);
    AtMostOneNotification(steps, t, IdAt(t, k));
    forall i <- t.db.inserts | i.eventId == IdAt(t, k) ensures i.n == ActionAt(t, k).n {
      OwnNotification(t, k, i);
    }
  }

  /** Under disjoint IDs, a notification that stems from a record's ID is the record's own. */
  lemma OwnNotification(t: State, k: nat, i: N.Insert)
    requires OutboxInv(t) && DisjointIds(t) && Stems(t, i)
    requires k < |t.kafka| && ActionAt(t, k).Create? && i.eventId == IdAt(t, k)
    ensures i.n == ActionAt(t, k).n
  {
    SourceOf(t, k);
    var j: nat :| j < |t.kafka| && IdAt(t, j) == i.eventId && ActionAt(t, j) == N.Action.Create(i.n);
    SourceOf(t, j);
  }
}
