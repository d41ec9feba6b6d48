/** The event pipeline as a labelled transition system: business transactions fill two
    outboxes, flushers publish them to Kafka, the notification consumer group deduplicates,
    dispatches, dead-letters and commits, and the replay tool re-injects dead letters.
    Every process may stop between any two steps.

    A Kafka topic-partition is the subsequence of `kafka` with that `part`; the index of a
    record in `kafka` serves as its offset (offsets only need to grow within a partition). */
module Pipeline {
  import opened Strconv
  import opened Dlq
  import N = Notifications

  type Message = Dlq.Message<N.Payload>

  datatype Svc = TweetService | UserService
  /** An outbox row is named by its service and its BIGSERIAL id. */
  type RowId = (Svc, int)
  datatype Row = Row(topic: string, key: string, payload: N.Payload, traceId: string, sent: bool)

  datatype Part = Part(topic: string, number: nat)
  datatype Record = Record(part: Part, msg: Message, source: RowId)
  datatype Dead = Dead(msg: Message, source: RowId)

  /** An open FlushOutbox transaction: the rows it has locked and those written to Kafka. */
  datatype Flush = Flush(svc: Svc, ids: set<int>, published: set<int>)

  datatype Phase = Fetched | Dispatching(failures: nat) | Failed(reason: string) | Done
  /** A consumer between fetch and commit. It is fenced once its partition was reassigned. */
  datatype Work = Work(index: nat, phase: Phase, fenced: bool)

  datatype State = State(
    outbox: map<RowId, Row>,
    flushers: map<nat, Flush>,
    kafka: seq<Record>,
    committed: map<Part, nat>,
    position: map<Part, nat>,
    workers: map<nat, Work>,
    fate: Fate,
    db: N.Db,
    dlq: seq<Dead>,
    replayed: nat)   // the replay tool's committed offset

  /** What has happened to records of `kafka` so far, by index. */
  datatype Fate = Fate(
    duplicate: set<nat>,   // the lookup said: already processed
    dispatched: set<nat>,  // dispatch returned no error
    dead: set<nat>,        // passed to dlq.Write, which succeeded
    lost: set<nat>,        // passed to dlq.Write, which failed
    skipped: set<nat>)     // the lookup itself failed, and the loop went on to the next record

  const MAX_ATTEMPTS := 3
  const DLQ_TOPIC := "notification-service-cg.dlq"
  const FLUSH_LIMIT := 100

  function MsgOf(id: int, row: Row): Message {
    Message(row.topic, row.key, row.payload,
            [Header(EVENT_ID_HEADER, FormatInt(id))]
            + if row.traceId == "" then [] else [Header(TRACE_PARENT_HEADER, row.traceId)])
  }

  function Get(m: map<Part, nat>, p: Part): nat {
    if p in m then m[p] else 0
  }

  function IdAt(s: State, k: nat): int
    requires k < |s.kafka|
  {
    EventId(s.kafka[k].msg.headers)
  }

  function ActionAt(s: State, k: nat): N.Action
    requires k < |s.kafka|
  {
    N.ActionFor(s.kafka[k].msg.topic, s.kafka[k].msg.value)
  }

  // ----------------------------------------------------------------- steps

  datatype Step =
    | InsertRow(source: RowId, row: Row)
    | Claim(f: nat, svc: Svc, ids: set<int>)
    | Publish(f: nat, id: int, number: nat)
    | MarkSent(f: nat, marked: set<int>)
    | AbortFlush(f: nat)
    | Fetch(w: nat, k: nat)
    | LookupError(w: nat)
    | LookupSeen(w: nat)
    | LookupNew(w: nat)
    | Attempt(w: nat, end: N.TxEnd)
    | Cancelled(w: nat)
    | DeadLetterTo(w: nat, partition: int, ok: bool)
    | Commit(w: nat, ok: bool)
    | Crash(w: nat)
    | Rebalance(part: Part)
    | Prune(ids: set<int>)
    | Replay(j: nat, number: nat)
    | ReplayCommit(j: nat)

  predicate Pending(s: State, src: RowId) {
    && src in s.outbox && !s.outbox[src].sent
    && forall g <- s.flushers :: s.flushers[g].svc == src.0 ==> src.1 !in s.flushers[g].ids
  }

  /** Worker `w` holds a record of this partition. */
  predicate On(s: State, w: nat, part: Part)
    requires w in s.workers
  {
    s.workers[w].index < |s.kafka| && s.kafka[s.workers[w].index].part == part
  }

  predicate WorkerIn(s: State, w: nat, phase: Phase) {
    w in s.workers && s.workers[w].index < |s.kafka| && s.workers[w].phase == phase
  }

  predicate Enabled(s: State, step: Step) {
    match step
    case InsertRow(source, row) =>
      source !in s.outbox && 0 < source.1 <= INT64_MAX && !row.sent && row.topic != ""
    case Claim(f, svc, ids) =>
      f !in s.flushers && 0 < |ids| <= FLUSH_LIMIT && forall id <- ids :: Pending(s, (svc, id))
    case Publish(f, id, _) =>
      f in s.flushers && id in s.flushers[f].ids && (s.flushers[f].svc, id) in s.outbox
    case MarkSent(f, marked) =>
      f in s.flushers && s.flushers[f].ids <= s.flushers[f].published && marked <= s.flushers[f].ids
    case AbortFlush(f) =>
      f in s.flushers
    case Fetch(w, k) =>
      && w !in s.workers && k < |s.kafka|
      && Get(s.position, s.kafka[k].part) <= k
      && (forall j | Get(s.position, s.kafka[k].part) <= j < k :: s.kafka[j].part != s.kafka[k].part)
      && (forall v <- s.workers :: On(s, v, s.kafka[k].part) ==> s.workers[v].fenced)
    case LookupError(w) =>
      WorkerIn(s, w, Fetched) && IdAt(s, s.workers[w].index) != 0
    case LookupSeen(w) =>
      WorkerIn(s, w, Fetched) && IdAt(s, s.workers[w].index) != 0 && IdAt(s, s.workers[w].index) in s.db.processed
    case LookupNew(w) =>
      WorkerIn(s, w, Fetched) && (IdAt(s, s.workers[w].index) == 0 || IdAt(s, s.workers[w].index) !in s.db.processed)
    case Attempt(w, _) =>
      w in s.workers && s.workers[w].phase.Dispatching? && WorkerIn(s, w, s.workers[w].phase)
    case Cancelled(w) =>
      w in s.workers && s.workers[w].phase.Dispatching? && s.workers[w].phase.failures > 0
    case DeadLetterTo(w, _, _) =>
      w in s.workers && s.workers[w].phase.Failed? && WorkerIn(s, w, s.workers[w].phase)
    case Commit(w, ok) =>
      WorkerIn(s, w, Done) && (ok ==> !s.workers[w].fenced)
    case Crash(w) =>
      w in s.workers && s.workers[w].index < |s.kafka|
    case Rebalance(_) =>
      true
    case Prune(ids) =>
      ids <= s.db.processed
    case Replay(j, _) =>
      s.replayed <= j < |s.dlq| && ReplayOf(s.dlq[j].msg).Some?
    case ReplayCommit(j) =>
      s.replayed <= j < |s.dlq|
  }

  function SetPhase(s: State, w: nat, phase: Phase): map<nat, Work>
    requires w in s.workers
  {
    s.workers[w := s.workers[w].(phase := phase)]
  }

  /** One dispatch attempt: the worker's next phase, and the database after it. */
  function NextPhase(action: N.Action, end: N.TxEnd, failures: nat): Phase {
    match action
    case Poison => Failed("consumer: malformed event payload")
    case Ignore => Done
    case _ =>
      if end.Committed? then Done
      else if failures + 1 >= MAX_ATTEMPTS then Failed("dispatch")
      else Dispatching(failures + 1)
  }

  function NextDb(db: N.Db, action: N.Action, id: int, end: N.TxEnd): N.Db {
    if end.RolledBack? then db
    else
      match action
      case Create(n) => N.CreateTx(db, id, n)
      case Delete(actor, tweet) => N.DeleteTx(db, actor, tweet)
      case _ => db
  }

  function Apply(s: State, step: Step): State
    requires Enabled(s, step)
  {
    match step
    case InsertRow(source, row) =>
      s.(outbox := s.outbox[source := row])
    case Claim(f, svc, ids) =>
      s.(flushers := s.flushers[f := Flush(svc, ids, {})])
    case Publish(f, id, number) =>
      var fl := s.flushers[f];
      var row := s.outbox[(fl.svc, id)];
      s.(kafka := s.kafka + [Record(Part(row.topic, number), MsgOf(id, row), (fl.svc, id))],
         flushers := s.flushers[f := fl.(published := fl.published + {id})])
    case MarkSent(f, marked) =>
      var svc := s.flushers[f].svc;
      s.(outbox := map src | src in s.outbox ::
                     if src.0 == svc && src.1 in marked then s.outbox[src].(sent := true) else s.outbox[src],
         flushers := s.flushers - {f})
    case AbortFlush(f) =>
      s.(flushers := s.flushers - {f})
    case Fetch(w, k) =>
      s.(position := s.position[s.kafka[k].part := k + 1],
         workers := s.workers[w := Work(k, Fetched, false)])
    case LookupError(w) =>
      s.(workers := s.workers - {w},
         fate := s.fate.(skipped := s.fate.skipped + {s.workers[w].index}))
    case LookupSeen(w) =>
      s.(workers := SetPhase(s, w, Done),
         fate := s.fate.(duplicate := s.fate.duplicate + {s.workers[w].index}))
    case LookupNew(w) =>
      s.(workers := SetPhase(s, w, Dispatching(0)))
    case Attempt(w, end) =>
      var k := s.workers[w].index;
      var phase := NextPhase(ActionAt(s, k), end, s.workers[w].phase.failures);
      s.(workers := SetPhase(s, w, phase),
         db := NextDb(s.db, ActionAt(s, k), IdAt(s, k), end),
         fate := if phase.Done? then s.fate.(dispatched := s.fate.dispatched + {k}) else s.fate)
    case Cancelled(w) =>
      s.(workers := SetPhase(s, w, Failed("context canceled")))
    case DeadLetterTo(w, partition, ok) =>
      var k := s.workers[w].index;
      var letter := DeadLetter(s.kafka[k].msg, Failure(partition, k, s.workers[w].phase.reason), DLQ_TOPIC);
      s.(workers := SetPhase(s, w, Done),
         dlq := if ok then s.dlq + [Dead(letter, s.kafka[k].source)] else s.dlq,
         fate := if ok then s.fate.(dead := s.fate.dead + {k}) else s.fate.(lost := s.fate.lost + {k}))
    case Commit(w, ok) =>
      var k := s.workers[w].index;
      s.(workers := s.workers - {w},
         committed := if ok then s.committed[s.kafka[k].part := k + 1] else s.committed)
    case Crash(w) =>
      var part := s.kafka[s.workers[w].index].part;
      s.(workers := s.workers - {w},
         position := if s.workers[w].fenced then s.position
                     else s.position[part := Get(s.committed, part)])
    case Rebalance(part) =>
      s.(position := s.position[part := Get(s.committed, part)],
         workers := map w | w in s.workers ::
                      if On(s, w, part) then s.workers[w].(fenced := true) else s.workers[w])
    case Prune(ids) =>
      s.(db := N.PruneTx(s.db, ids))
    case Replay(j, number) =>
      var m := ReplayOf(s.dlq[j].msg).value;
      s.(kafka := s.kafka + [Record(Part(m.topic, number), m, s.dlq[j].source)])
    case ReplayCommit(j) =>
      s.(replayed := j + 1)
  }

  const INIT: State := State(map[], map[], [], map[], map[], map[], Fate({}, {}, {}, {}, {}),
                             N.Db({}, {}, [], []), [], 0)

  ghost predicate Runs(s: State, steps: seq<Step>, t: State)
    decreases |steps|
  {
    if steps == [] then s == t
    else Enabled(s, steps[0]) && Runs(Apply(s, steps[0]), steps[1..], t)
  }
}
