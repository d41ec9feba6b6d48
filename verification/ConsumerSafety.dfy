/** The consumer half of the pipeline: committed offsets never pass an unhandled record
    (unless a dedup lookup failed), exactly the event IDs ever marked processed have been
    given a notification, and none a second one while pruned IDs stay away. */
module ConsumerSafety {
  import opened Dlq
  import opened Pipeline
  import opened OutboxSafety
  import N = Notifications

  // ----------------------------------------------------------------- offsets

  predicate Settled(s: State, k: nat) {
    k in s.fate.duplicate || k in s.fate.dispatched || k in s.fate.dead || k in s.fate.lost
  }

  ghost predicate InFlight(s: State, k: nat) {
    exists w <- s.workers :: s.workers[w].index == k && !s.workers[w].fenced
  }

  ghost predicate Accounted(s: State, k: nat) {
    Settled(s, k) || k in s.fate.skipped
  }

  function PartOf(s: State, w: nat): Part
    requires w in s.workers && s.workers[w].index < |s.kafka|
  {
    s.kafka[s.workers[w].index].part
  }

  ghost predicate WorkerOk(s: State, w: nat)
    requires w in s.workers
  {
    var work := s.workers[w];
    && work.index < |s.kafka|
    && (work.phase.Dispatching? ==> work.phase.failures < MAX_ATTEMPTS)
    && (work.phase.Done? ==> Settled(s, work.index))
    && (!work.fenced ==>
          && Get(s.committed, PartOf(s, w)) <= work.index
          && Get(s.position, PartOf(s, w)) == work.index + 1)
  }

  ghost predicate WorkersInv(s: State) {
    && (forall w <- s.workers :: WorkerOk(s, w))
    && (forall w <- s.workers, v <- s.workers ::
          !s.workers[w].fenced && !s.workers[v].fenced && PartOf(s, w) == PartOf(s, v) ==> w == v)
  }

  ghost predicate RecordOk(s: State, k: nat)
    requires k < |s.kafka|
  {
    && (k < Get(s.position, s.kafka[k].part) ==> Accounted(s, k) || InFlight(s, k))
    && (k < Get(s.committed, s.kafka[k].part) ==> Accounted(s, k))
  }

  ghost predicate OffsetInv(s: State) {
    && WorkersInv(s)
    && (forall p :: Get(s.committed, p) <= Get(s.position, p) <= |s.kafka|)
    && (forall k: nat | k < |s.kafka| :: RecordOk(s, k))
  }

  /** The steps of the consumer group. */
  predicate TurnStep(step: Step) {
    !OutboxStep(step) && !step.Prune? && !step.Replay? && !step.ReplayCommit?
  }

  lemma OtherStepsLeaveGroup(s: State, step: Step)
    requires Enabled(s, step) && !TurnStep(step)
    ensures var s' := Apply(s, step);
            s'.workers == s.workers && s'.committed == s.committed && s'.position == s.position && s'.fate == s.fate
  {
  }

  /** The steps within a turn, between the fetch and the commit. */
  predicate InTurn(step: Step) {
    step.LookupError? || step.LookupSeen? || step.LookupNew? || step.Attempt? || step.Cancelled? || step.DeadLetterTo?
  }

  lemma InTurnLeavesOffsets(s: State, step: Step)
    requires Enabled(s, step) && InTurn(step)
    ensures var s' := Apply(s, step);
            && s'.committed == s.committed && s'.position == s.position && s'.kafka == s.kafka
            && forall w <- s'.workers :: w in s.workers && (w == step.w || s'.workers[w] == s.workers[w])
  {
  }

  lemma TurnKeepsWorkerOk(s: State, step: Step)
    requires OffsetInv(s) && Enabled(s, step) && InTurn(step) && step.w in Apply(s, step).workers
    ensures WorkerOk(Apply(s, step), step.w)
  {
    assert WorkerOk(s, step.w);
  }

  lemma AccountedGrows(s: State, step: Step)
    requires Enabled(s, step)
    ensures forall k: nat | Settled(s, k) :: Settled(Apply(s, step), k)
  {
  }

  lemma WorkerOkSame(s: State, s': State, w: nat)
    requires w in s.workers && WorkerOk(s, w) && w in s'.workers && s'.workers[w] == s.workers[w]
    requires s.kafka <= s'.kafka && s'.committed == s.committed && s'.position == s.position
    requires forall k: nat | Settled(s, k) :: Settled(s', k)
    ensures WorkerOk(s', w)
  {
  }

  lemma KeepsWorkerOk(s: State, step: Step, w: nat)
    requires OffsetInv(s) && Enabled(s, step) && w in Apply(s, step).workers
    ensures WorkerOk(Apply(s, step), w)
  {
    if !TurnStep(step) {
      OtherStepsLeaveGroup(s, step);
      StepExtends(s, step);
      WorkerOkSame(s, Apply(s, step), w);
    } else if InTurn(step) {
      InTurnLeavesOffsets(s, step);
      if step.w == w {
        TurnKeepsWorkerOk(s, step);
      } else {
        AccountedGrows(s, step);
        WorkerOkSame(s, Apply(s, step), w);
      }
    } else {
      GroupKeepsWorkerOk(s, step, w);
    }
  }

  lemma GroupKeepsWorkerOk(s: State, step: Step, w: nat)
    requires OffsetInv(s) && Enabled(s, step) && w in Apply(s, step).workers
    requires step.Fetch? || step.Commit? || step.Crash? || step.Rebalance?
    ensures WorkerOk(Apply(s, step), w)
  {
    if w in s.workers {
      assert WorkerOk(s, w);
    }
  }

  lemma KeepsExclusive(s: State, step: Step, w: nat, v: nat)
    requires OffsetInv(s) && Enabled(s, step)
    requires w in Apply(s, step).workers && v in Apply(s, step).workers
    requires WorkerOk(Apply(s, step), w) && WorkerOk(Apply(s, step), v)
    ensures var s' := Apply(s, step);
            !s'.workers[w].fenced && !s'.workers[v].fenced && PartOf(s', w) == PartOf(s', v) ==> w == v
  {
    StepExtends(s, step);
    if step.Fetch? {
      FetchKeepsExclusive(s, step.w, step.k, w, v);
    } else {
      WorkersShrink(s, step);
      assert WorkerOk(s, w) && WorkerOk(s, v);
    }
  }

  lemma WorkersShrink(s: State, step: Step)
    requires OffsetInv(s) && Enabled(s, step) && !step.Fetch?
    ensures var s' := Apply(s, step); forall w <- s'.workers ::
              w in s.workers && s'.workers[w].index == s.workers[w].index
              && (!s'.workers[w].fenced ==> !s.workers[w].fenced)
  {
  }

  lemma FetchKeepsExclusive(s: State, f: nat, k: nat, w: nat, v: nat)
    requires OffsetInv(s) && Enabled(s, Fetch(f, k))
    requires w in Apply(s, Fetch(f, k)).workers && v in Apply(s, Fetch(f, k)).workers
    requires WorkerOk(Apply(s, Fetch(f, k)), w) && WorkerOk(Apply(s, Fetch(f, k)), v)
    ensures var s' := Apply(s, Fetch(f, k));
            !s'.workers[w].fenced && !s'.workers[v].fenced && PartOf(s', w) == PartOf(s', v) ==> w == v
  {
    if w in s.workers {
      assert WorkerOk(s, w);
    }
    if v in s.workers {
      assert WorkerOk(s, v);
    }
  }

  lemma KeepsPositions(s: State, step: Step, p: Part)
    requires OffsetInv(s) && Enabled(s, step)
    ensures var s' := Apply(s, step); Get(s'.committed, p) <= Get(s'.position, p) <= |s'.kafka|
  {
    assert Get(s.committed, p) <= Get(s.position, p);
  }

  /** The worker in flight on `k` stays so, or leaves `k` accounted for. */
  lemma FlightContinues(s: State, step: Step, k: nat, v: nat)
    requires OffsetInv(s) && Enabled(s, step) && k < |s.kafka|
    requires v in s.workers && s.workers[v].index == k && !s.workers[v].fenced
    requires !(step.Crash? && step.w == v) && step != Rebalance(s.kafka[k].part)
    ensures Accounted(Apply(s, step), k) || InFlight(Apply(s, step), k)
  {
    var s' := Apply(s, step);
    assert WorkerOk(s, v);
    if v in s'.workers {
      assert s'.workers[v].index == k && !s'.workers[v].fenced;
    }
  }

  lemma AccountedStays(s: State, step: Step, k: nat)
    requires Enabled(s, step) && Accounted(s, k)
    ensures Accounted(Apply(s, step), k)
  {
  }

  /** Every step but a reset keeps a record that is accounted for, or in flight, that way. */
  lemma StaysHandled(s: State, step: Step, k: nat)
    requires OffsetInv(s) && Enabled(s, step) && k < |s.kafka|
    requires Accounted(s, k) || InFlight(s, k)
    requires !step.Crash? && step != Rebalance(s.kafka[k].part)
    ensures Accounted(Apply(s, step), k) || InFlight(Apply(s, step), k)
  {
    if Accounted(s, k) {
      AccountedStays(s, step, k);
    } else {
      var v :| v in s.workers && s.workers[v].index == k && !s.workers[v].fenced;
      FlightContinues(s, step, k, v);
    }
  }

  lemma RecordOnFetch(s: State, w: nat, k0: nat, k: nat)
    requires OffsetInv(s) && Enabled(s, Fetch(w, k0)) && k < |s.kafka|
    ensures RecordOk(Apply(s, Fetch(w, k0)), k)
  {
    var s' := Apply(s, Fetch(w, k0));
    assert RecordOk(s, k);
    if k == k0 {
      assert s'.workers[w].index == k && !s'.workers[w].fenced;
    } else if k < Get(s.position, s.kafka[k].part) {
      StaysHandled(s, Fetch(w, k0), k);
    }
  }

  lemma RecordOnCommit(s: State, w: nat, ok: bool, k: nat)
    requires OffsetInv(s) && Enabled(s, Commit(w, ok)) && k < |s.kafka|
    ensures RecordOk(Apply(s, Commit(w, ok)), k)
  {
    assert RecordOk(s, k) && WorkerOk(s, w);
    if k < Get(s.position, s.kafka[k].part) {
      StaysHandled(s, Commit(w, ok), k);
    }
  }

  lemma RecordOnCrash(s: State, w: nat, k: nat)
    requires OffsetInv(s) && Enabled(s, Crash(w)) && k < |s.kafka|
    ensures RecordOk(Apply(s, Crash(w)), k)
  {
    assert RecordOk(s, k) && WorkerOk(s, w);
    if InFlight(s, k) {
      var v :| v in s.workers && s.workers[v].index == k && !s.workers[v].fenced;
      if v != w {
        FlightContinues(s, Crash(w), k, v);
      }
    }
  }

  lemma KeepsRecordOk(s: State, step: Step, k: nat)
    requires OffsetInv(s) && Enabled(s, step) && k < |s.kafka|
    ensures k < |Apply(s, step).kafka| && RecordOk(Apply(s, step), k)
  {
    assert RecordOk(s, k);
    if step.Fetch? {
      RecordOnFetch(s, step.w, step.k, k);
    } else if step.Commit? {
      RecordOnCommit(s, step.w, step.ok, k);
    } else if step.Crash? {
      RecordOnCrash(s, step.w, k);
    } else if step == Rebalance(s.kafka[k].part) {
      RecordOnRebalance(s, k);
    } else {
      RecordOnOther(s, step, k);
    }
  }

  lemma RecordOnRebalance(s: State, k: nat)
    requires OffsetInv(s) && k < |s.kafka|
    ensures RecordOk(Apply(s, Rebalance(s.kafka[k].part)), k)
  {
    assert RecordOk(s, k);
    if Accounted(s, k) {
      AccountedStays(s, Rebalance(s.kafka[k].part), k);
    }
  }

  lemma OffsetsOnlyMoveWithGroup(s: State, step: Step, p: Part)
    requires Enabled(s, step) && !step.Fetch? && !step.Commit? && !step.Crash? && step != Rebalance(p)
    ensures Get(Apply(s, step).committed, p) == Get(s.committed, p)
    ensures Get(Apply(s, step).position, p) == Get(s.position, p)
  {
  }

  lemma RecordOnOther(s: State, step: Step, k: nat)
    requires OffsetInv(s) && Enabled(s, step) && k < |s.kafka|
    requires !step.Fetch? && !step.Commit? && !step.Crash? && step != Rebalance(s.kafka[k].part)
    ensures k < |Apply(s, step).kafka| && RecordOk(Apply(s, step), k)
  {
    assert RecordOk(s, k);
    StepExtends(s, step);
    OffsetsOnlyMoveWithGroup(s, step, s.kafka[k].part);
    if k < Get(s.position, s.kafka[k].part) {
      StaysHandled(s, step, k);
      if Accounted(s, k) {
        AccountedStays(s, step, k);
      }
    }
  }

  lemma KeepsOffsetInv(s: State, step: Step)
    requires OffsetInv(s) && Enabled(s, step)
    ensures OffsetInv(Apply(s, step))
  {
    var s' := Apply(s, step);
    forall w <- s'.workers ensures WorkerOk(s', w) {
      KeepsWorkerOk(s, step, w);
    }
    forall w <- s'.workers, v <- s'.workers
      ensures !s'.workers[w].fenced && !s'.workers[v].fenced && PartOf(s', w) == PartOf(s', v) ==> w == v
    {
      KeepsExclusive(s, step, w, v);
    }
    forall p: Part ensures Get(s'.committed, p) <= Get(s'.position, p) <= |s'.kafka| {
      KeepsPositions(s, step, p);
    }
    forall k: nat | k < |s'.kafka| ensures RecordOk(s', k) {
      if k < |s.kafka| {
        KeepsRecordOk(s, step, k);
      } else {
        NewRecordOk(s, step);
      }
    }
  }

  lemma NewRecordOk(s: State, step: Step)
    requires OffsetInv(s) && Enabled(s, step) && |s.kafka| < |Apply(s, step).kafka|
    ensures |Apply(s, step).kafka| == |s.kafka| + 1 && RecordOk(Apply(s, step), |s.kafka|)
  {
    var s' := Apply(s, step);
    var p := s'.kafka[|s.kafka|].part;
    assert Get(s.committed, p) <= Get(s.position, p) <= |s.kafka|;
  }

  // ---------------------------------------------------------------- database

  ghost predicate IsLetterOf(d: Dead, r: Record, k: nat) {
    d.source == r.source && exists f: Failure :: f.offset == k && d.msg == DeadLetter(r.msg, f, DLQ_TOPIC)
  }

  ghost predicate InDlq(s: State, k: nat)
    requires k < |s.kafka|
  {
    exists j | 0 <= j < |s.dlq| :: IsLetterOf(s.dlq[j], s.kafka[k], k)
  }

  /** What the fate sets mean. */
  ghost predicate FateOk(s: State, k: nat)
    requires k < |s.kafka|
  {
    && (k in s.fate.duplicate ==> N.Recorded(s.db, IdAt(s, k)))
    && (k in s.fate.dispatched && ActionAt(s, k).Create? && IdAt(s, k) > 0 ==> N.Recorded(s.db, IdAt(s, k)))
    && (k in s.fate.dead ==> InDlq(s, k))
  }

  ghost predicate FateInv(s: State) {
    && (forall k: nat | Accounted(s, k) :: k < |s.kafka|)
    && (forall k: nat | k < |s.kafka| :: FateOk(s, k))
  }

  /** A notification comes from a record with that event ID. */
  ghost predicate Stems(s: State, i: N.Insert) {
    exists k: nat :: k < |s.kafka| && IdAt(s, k) == i.eventId && ActionAt(s, k) == N.Action.Create(i.n)
  }

  ghost predicate DbInv(s: State) {
    && N.Marked(s.db)
    && FateInv(s)
    && (forall i <- s.db.inserts :: Stems(s, i))
  }

  ghost predicate Inv(s: State) {
    OutboxInv(s) && OffsetInv(s) && DbInv(s)
  }

  lemma OnlyCreatesAndPrunesMark(s: State, step: Step)
    requires Enabled(s, step) && !step.Prune?
    requires step.Attempt? ==> step.end.RolledBack? || !ActionAt(s, s.workers[step.w].index).Create?
    ensures var db := Apply(s, step).db;
            db.processed == s.db.processed && db.pruned == s.db.pruned && db.inserts == s.db.inserts
  {
  }

  predicate CommitsACreate(s: State, step: Step)
    requires Enabled(s, step)
  {
    step.Attempt? && !step.end.RolledBack? && ActionAt(s, s.workers[step.w].index).Create?
  }

  lemma KeepsMarked(s: State, step: Step)
    requires N.Marked(s.db) && Enabled(s, step)
    ensures N.Marked(Apply(s, step).db)
  {
    if CommitsACreate(s, step) {
      var k := s.workers[step.w].index;
      N.CreateTxKeepsMarked(s.db, IdAt(s, k), ActionAt(s, k).n);
    } else if step.Prune? {
      N.PruneTxKeeps(s.db, step.ids);
    } else {
      OnlyCreatesAndPrunesMark(s, step);
      N.SameRecords(s.db, Apply(s, step).db);
    }
  }

  // ------------------------------------------------------ what pruning needs

  /** Nothing carrying this event ID can still reach a consumer. */
  predicate Quiet(s: State, id: int) {
    && (forall src <- s.outbox :: src.1 == id ==> s.outbox[src].sent)
    && (forall k: nat | k < |s.kafka| :: QuietRecord(s, id, k))
    && (forall w <- s.workers :: s.workers[w].index < |s.kafka| ==> IdAt(s, s.workers[w].index) != id)
    && (forall j: nat | s.replayed <= j < |s.dlq| :: EventId(s.dlq[j].msg.headers) != id)
  }

  predicate QuietRecord(s: State, id: int, k: nat)
    requires k < |s.kafka|
  {
    IdAt(s, k) == id ==> k < Get(s.committed, s.kafka[k].part)
  }

  /** RunDedupPrune drops only IDs that nothing carries any more. */
  ghost predicate PrunesQuietly(s: State, step: Step) {
    step.Prune? ==> forall id <- step.ids :: Quiet(s, id)
  }

  /** No outbox gives a new row an ID that has been pruned. */
  ghost predicate InsertsFresh(s: State, step: Step) {
    step.InsertRow? ==> step.source.1 !in s.db.pruned
  }

  /** No event ID has two notifications, and nothing carries a pruned one. */
  ghost predicate OnceInv(s: State) {
    N.OncePerEvent(s.db) && forall id <- s.db.pruned :: Quiet(s, id)
  }

  lemma NotPrunedInFlight(s: State, w: nat)
    requires OnceInv(s) && w in s.workers && s.workers[w].index < |s.kafka|
    ensures IdAt(s, s.workers[w].index) !in s.db.pruned
  {
  }

  lemma KeepsOnce(s: State, step: Step)
    requires OnceInv(s) && Enabled(s, step)
    ensures N.OncePerEvent(Apply(s, step).db)
  {
    if CommitsACreate(s, step) {
      var k := s.workers[step.w].index;
      NotPrunedInFlight(s, step.w);
      N.CreateTxKeepsOnce(s.db, IdAt(s, k), ActionAt(s, k).n);
    } else if step.Prune? {
      N.PruneTxKeeps(s.db, step.ids);
    } else {
      OnlyCreatesAndPrunesMark(s, step);
      N.SameRecords(s.db, Apply(s, step).db);
    }
  }

  /** Records already in Kafka with this ID stay below the committed offset, which never falls. */
  lemma CommittedGrows(s: State, step: Step, p: Part)
    requires WorkersInv(s) && Enabled(s, step)
    ensures Get(s.committed, p) <= Get(Apply(s, step).committed, p)
  {
    if step.Commit? {
      assert WorkerOk(s, step.w);
    }
  }

  /** A record that a step adds to Kafka carries the ID of a pending row or of a dead letter
      the replay tool has not passed. */
  lemma NewRecordNotQuiet(s: State, step: Step, id: int)
    requires OutboxInv(s) && Enabled(s, step) && Quiet(s, id) && |s.kafka| < |Apply(s, step).kafka|
    ensures |Apply(s, step).kafka| == |s.kafka| + 1 && IdAt(Apply(s, step), |s.kafka|) != id
  {
    if step.Publish? {
      MsgOfFacts(step.id, s.outbox[(s.flushers[step.f].svc, step.id)]);
    } else {
      var d := s.dlq[step.j];
      assert DeadFromRow(s, d);
      MsgOfFacts(d.source.1, s.outbox[d.source]);
    }
  }

  lemma FetchedIsUncommitted(s: State, w: nat, k: nat)
    requires OffsetInv(s) && Enabled(s, Fetch(w, k))
    ensures Get(s.committed, s.kafka[k].part) <= k
  {
  }

  lemma QuietWorkersStay(s: State, step: Step, id: int)
    requires OffsetInv(s) && Enabled(s, step) && Quiet(s, id)
    ensures var s' := Apply(s, step); forall w <- s'.workers ::
              s'.workers[w].index < |s.kafka| && IdAt(s', s'.workers[w].index) != id
  {
    var s' := Apply(s, step);
    StepExtends(s, step);
    if step.Fetch? {
      FetchedIsUncommitted(s, step.w, step.k);
      assert QuietRecord(s, id, step.k);
    } else {
      WorkersShrink(s, step);
    }
    forall w <- s'.workers ensures s'.workers[w].index < |s.kafka| && IdAt(s', s'.workers[w].index) != id {
      if w in s.workers {
        assert WorkerOk(s, w);
      }
    }
  }

  lemma QuietDlqStays(s: State, step: Step, id: int)
    requires Enabled(s, step) && Quiet(s, id)
    ensures var s' := Apply(s, step);
            forall j: nat | s'.replayed <= j < |s'.dlq| :: EventId(s'.dlq[j].msg.headers) != id
  {
    if step.DeadLetterTo? {
      var k := s.workers[step.w].index;
      EventIdSurvives(s.kafka[k].msg, Failure(step.partition, k, s.workers[step.w].phase.reason), DLQ_TOPIC);
    }
  }

  lemma QuietOutboxStays(s: State, step: Step, id: int)
    requires Enabled(s, step) && Quiet(s, id) && (step.InsertRow? ==> step.source.1 != id)
    ensures var s' := Apply(s, step); forall src <- s'.outbox :: src.1 == id ==> s'.outbox[src].sent
  {
    if !OutboxStep(step) {
      OtherStepsLeaveOutbox(s, step);
    }
  }

  /** Once nothing with this ID is on its way, nothing ever is again, unless a new row is given the ID. */
  lemma KeepsQuiet(s: State, step: Step, id: int)
    requires OutboxInv(s) && OffsetInv(s) && Enabled(s, step) && Quiet(s, id)
    requires step.InsertRow? ==> step.source.1 != id
    ensures Quiet(Apply(s, step), id)
  {
    var s' := Apply(s, step);
    QuietWorkersStay(s, step, id);
    QuietDlqStays(s, step, id);
    StepExtends(s, step);
    QuietOutboxStays(s, step, id);
    forall k: nat | k < |s'.kafka| ensures QuietRecord(s', id, k) {
      if k < |s.kafka| {
        assert QuietRecord(s, id, k);
        CommittedGrows(s, step, s.kafka[k].part);
      } else {
        NewRecordNotQuiet(s, step, id);
      }
    }
  }

  /** As long as only quiet IDs are pruned and no row is given a pruned ID, at most one
      notification per ID is kept by every step of every process. */
  lemma KeepsOnceInv(s: State, step: Step)
    requires OutboxInv(s) && OffsetInv(s) && OnceInv(s) && Enabled(s, step)
    requires PrunesQuietly(s, step) && InsertsFresh(s, step)
    ensures OnceInv(Apply(s, step))
  {
    KeepsOnce(s, step);
    forall id <- Apply(s, step).db.pruned ensures Quiet(Apply(s, step), id) {
      OnlyPruneUnmarks(s, step);
      KeepsQuiet(s, step, id);
    }
  }

  lemma OnlyPruneUnmarks(s: State, step: Step)
    requires Enabled(s, step)
    ensures Apply(s, step).db.pruned == if step.Prune? then s.db.pruned + step.ids else s.db.pruned
  {
  }

  lemma InDlqStays(s: State, step: Step, k: nat)
    requires Enabled(s, step) && k < |s.kafka| && InDlq(s, k)
    ensures InDlq(Apply(s, step), k)
  {
    var s' := Apply(s, step);
    var j :| 0 <= j < |s.dlq| && IsLetterOf(s.dlq[j], s.kafka[k], k);
    assert IsLetterOf(s'.dlq[j], s'.kafka[k], k);
  }

  lemma RecordedGrows(s: State, step: Step)
    requires Enabled(s, step)
    ensures s.db.processed + s.db.pruned <= Apply(s, step).db.processed + Apply(s, step).db.pruned
  {
  }

  predicate DecidesFate(step: Step) {
    step.LookupSeen? || step.Attempt? || step.DeadLetterTo?
  }

  lemma FateFrame(s: State, step: Step)
    requires Enabled(s, step) && !DecidesFate(step)
    ensures var s' := Apply(s, step);
            s'.fate.(skipped := s.fate.skipped) == s.fate && s'.dlq == s.dlq
  {
  }

  lemma FateOkSame(s: State, s': State, k: nat)
    requires k < |s.kafka| && FateOk(s, k) && s.kafka <= s'.kafka && s'.dlq == s.dlq
    requires s.db.processed + s.db.pruned <= s'.db.processed + s'.db.pruned
    requires s'.fate.(skipped := s.fate.skipped) == s.fate
    ensures FateOk(s', k)
  {
    if InDlq(s, k) {
      var j :| 0 <= j < |s.dlq| && IsLetterOf(s.dlq[j], s.kafka[k], k);
      assert IsLetterOf(s'.dlq[j], s'.kafka[k], k);
    }
    assert IdAt(s, k) in s.db.processed + s.db.pruned ==> IdAt(s, k) in s'.db.processed + s'.db.pruned;
  }

  lemma FateOnLookup(s: State, w: nat, k: nat)
    requires Enabled(s, LookupSeen(w)) && k < |s.kafka| && FateOk(s, k)
    ensures FateOk(Apply(s, LookupSeen(w)), k)
  {
    if InDlq(s, k) {
      InDlqStays(s, LookupSeen(w), k);
    }
  }

  lemma FateOnAttempt(s: State, w: nat, end: N.TxEnd, k: nat)
    requires Enabled(s, Attempt(w, end)) && k < |s.kafka| && FateOk(s, k)
    ensures FateOk(Apply(s, Attempt(w, end)), k)
  {
    RecordedGrows(s, Attempt(w, end));
    if InDlq(s, k) {
      InDlqStays(s, Attempt(w, end), k);
    }
    assert IdAt(s, k) in s.db.processed + s.db.pruned ==> N.Recorded(Apply(s, Attempt(w, end)).db, IdAt(s, k));
  }

  lemma FateOnDeadLetter(s: State, w: nat, partition: int, ok: bool, k: nat)
    requires Enabled(s, DeadLetterTo(w, partition, ok)) && k < |s.kafka| && FateOk(s, k)
    ensures FateOk(Apply(s, DeadLetterTo(w, partition, ok)), k)
  {
    var s' := Apply(s, DeadLetterTo(w, partition, ok));
    if InDlq(s, k) {
      InDlqStays(s, DeadLetterTo(w, partition, ok), k);
    }
    if ok && s.workers[w].index == k {
      assert IsLetterOf(s'.dlq[|s.dlq|], s'.kafka[k], k);
    }
  }

  lemma KeepsFateOk(s: State, step: Step, k: nat)
    requires FateInv(s) && Enabled(s, step) && k < |s.kafka|
    ensures k < |Apply(s, step).kafka| && FateOk(Apply(s, step), k)
  {
    assert FateOk(s, k);
    if step.LookupSeen? {
      FateOnLookup(s, step.w, k);
    } else if step.Attempt? {
      FateOnAttempt(s, step.w, step.end, k);
    } else if step.DeadLetterTo? {
      FateOnDeadLetter(s, step.w, step.partition, step.ok, k);
    } else {
      FateOnOther(s, step, k);
    }
  }

  lemma FateOnOther(s: State, step: Step, k: nat)
    requires Enabled(s, step) && !DecidesFate(step) && k < |s.kafka| && FateOk(s, k)
    ensures k < |Apply(s, step).kafka| && FateOk(Apply(s, step), k)
  {
    StepExtends(s, step);
    FateFrame(s, step);
    RecordedGrows(s, step);
    FateOkSame(s, Apply(s, step), k);
  }

  lemma StemsStay(s: State, s': State, i: N.Insert)
    requires Stems(s, i) && s.kafka <= s'.kafka
    ensures Stems(s', i)
  {
    var k: nat :| k < |s.kafka| && IdAt(s, k) == i.eventId && ActionAt(s, k) == N.Action.Create(i.n);
    assert IdAt(s', k) == i.eventId && ActionAt(s', k) == N.Action.Create(i.n);
  }

  lemma InsertStems(s: State, w: nat, end: N.TxEnd, i: N.Insert)
    requires Enabled(s, Attempt(w, end)) && i in Apply(s, Attempt(w, end)).db.inserts && i !in s.db.inserts
    ensures Stems(Apply(s, Attempt(w, end)), i)
  {
    var s', k := Apply(s, Attempt(w, end)), s.workers[w].index;
    assert IdAt(s', k) == i.eventId && ActionAt(s', k) == N.Action.Create(i.n);
  }

  lemma OnlyAttemptsInsert(s: State, step: Step)
    requires Enabled(s, step) && !step.Attempt?
    ensures Apply(s, step).db.inserts == s.db.inserts
  {
  }

  lemma KeepsStems(s: State, step: Step, i: N.Insert)
    requires Inv(s) && Enabled(s, step) && i in Apply(s, step).db.inserts
    ensures Stems(Apply(s, step), i)
  {
    if i in s.db.inserts {
      StepExtends(s, step);
      StemsStay(s, Apply(s, step), i);
    } else if step.Attempt? {
      InsertStems(s, step.w, step.end, i);
    } else {
      OnlyAttemptsInsert(s, step);
    }
  }

  lemma KeepsInv(s: State, step: Step)
    requires Inv(s) && Enabled(s, step)
    ensures Inv(Apply(s, step))
  {
    var s' := Apply(s, step);
    KeepsOutboxInv(s, step);
    KeepsOffsetInv(s, step);
    KeepsMarked(s, step);
    forall i <- s'.db.inserts ensures Stems(s', i) {
      KeepsStems(s, step, i);
    }
    KeepsFateInv(s, step);
  }

  lemma FatesAreOld(s: State, step: Step, k: nat)
    requires FateInv(s) && Enabled(s, step) && Accounted(Apply(s, step), k)
    ensures k < |s.kafka|
  {
    if !Accounted(s, k) {
      assert k == s.workers[step.w].index;
    }
  }

  lemma KeepsFateInv(s: State, step: Step)
    requires Inv(s) && Enabled(s, step)
    ensures FateInv(Apply(s, step))
  {
    var s' := Apply(s, step);
    StepExtends(s, step);
    forall k: nat | Accounted(s', k) ensures k < |s.kafka| {
      FatesAreOld(s, step, k);
    }
    forall k: nat | k < |s'.kafka| ensures FateOk(s', k) {
      if k < |s.kafka| {
        KeepsFateOk(s, step, k);
      } else {
        assert !Accounted(s', k);
      }
    }
  }
}
