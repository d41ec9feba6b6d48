/** The loops of the notification consumer and of the outbox flusher, run against the
    transition system. Each call to the outside world is one step, taken after any steps
    other processes care to take; a step is a precondition, so the code cannot commit an
    offset, retry, or write to Kafka where the pipeline's rules do not allow it. */
module PipelineCode {
  import Strconv
  import opened Wrappers
  import opened Sequences
  import opened Dlq
  import opened Pipeline
  import opened OutboxSafety
  import opened ConsumerSafety
  import opened PipelineResults
  import opened PipelineRuns
  import N = Notifications

  datatype Process = Consumer(w: nat) | Flusher(f: nat)

  /** A step that belongs to some other process. */
  predicate Foreign(step: Step, me: Process) {
    match step
    case Fetch(w, _) => me != Consumer(w)
    case LookupError(w) => me != Consumer(w)
    case LookupSeen(w) => me != Consumer(w)
    case LookupNew(w) => me != Consumer(w)
    case Attempt(w, _) => me != Consumer(w)
    case Cancelled(w) => me != Consumer(w)
    case DeadLetterTo(w, _, _) => me != Consumer(w)
    case Commit(w, _) => me != Consumer(w)
    case Crash(w) => me != Consumer(w)
    case Claim(f, _, _) => me != Flusher(f)
    case Publish(f, _, _) => me != Flusher(f)
    case MarkSent(f, _) => me != Flusher(f)
    case AbortFlush(f) => me != Flusher(f)
    case _ => true
  }

  /** What other processes cannot touch: what I hold stays mine, unless I am fenced. */
  ghost predicate MineKept(s: State, s': State, me: Process) {
    match me
    case Consumer(w) =>
      && (w in s.workers <==> w in s'.workers)
      && s.kafka <= s'.kafka
      && (w in s.workers ==> s'.workers[w].index == s.workers[w].index && s'.workers[w].phase == s.workers[w].phase)
    case Flusher(f) =>
      && (f in s.flushers <==> f in s'.flushers)
      && Extends(s, s')
      && (f in s.flushers ==> s'.flushers[f] == s.flushers[f])
  }

  /** What was settled or skipped stays so. */
  ghost predicate FateKept(s: State, s': State) {
    forall k: nat :: (Settled(s, k) ==> Settled(s', k)) && (k in s.fate.skipped ==> k in s'.fate.skipped)
  }

  lemma StepKeepsFate(s: State, step: Step)
    requires Enabled(s, step)
    ensures FateKept(s, Apply(s, step))
  {
  }

  lemma ForeignKeepsMine(s: State, step: Step, me: Process)
    requires Enabled(s, step) && Foreign(step, me)
    ensures MineKept(s, Apply(s, step), me)
  {
  }

  class World {
    var s: State
    ghost var trace: seq<Step>

    /** The state is one the pipeline can be in. */
    ghost predicate Valid()
      reads this
    {
      Runs(INIT, trace, s)
    }

    constructor ()
      ensures Valid() && s == INIT && trace == []
    {
      s, trace := INIT, [];
    }

    method Take(step: Step)
      requires Valid() && Enabled(s, step)
      modifies this
      ensures Valid() && s == Apply(old(s), step) && trace == old(trace) + [step]
    {
      RunsOne(s, step);
      RunsConcat(INIT, trace, s, [step], Apply(s, step));
      s, trace := Apply(s, step), trace + [step];
    }

    /** The steps of other processes that happen to be possible now. */
    method Interfere(me: Process, others: seq<Step>)
      requires Valid()
      modifies this
      ensures Valid() && MineKept(old(s), s, me) && FateKept(old(s), s) && old(trace) <= trace
    {
      for i := 0 to |others|
        invariant Valid() && MineKept(old(s), s, me) && FateKept(old(s), s) && old(trace) <= trace
      {
        if Foreign(others[i], me) && Enabled(s, others[i]) {
          ForeignKeepsMine(s, others[i], me);
          StepKeepsFate(s, others[i]);
          Take(others[i]);
        }
      }
    }
  }

  // ------------------------------------------------- the notification consumer

  /** What the outside world does during one turn of `Run`: the steps other processes take
      before each call, the record on offer, and which calls fail. */
  datatype Turn = Turn(others: seq<Step>, offered: nat, lookupFails: bool, ends: seq<N.TxEnd>, cancelled: seq<bool>,
                       partition: int, dlqOk: bool, commitOk: bool)

  datatype DispatchError = Malformed | Transient(reason: string)

  const MALFORMED := "consumer: malformed event payload"
  const DISPATCH := "dispatch"
  const CANCELLED := "context canceled"

  function ReasonOf(err: DispatchError): string {
    match err
    case Malformed => MALFORMED
    case Transient(reason) => reason
  }

  /** Where a consumer stands once dispatching is over. */
  function PhaseOf(err: Option<DispatchError>): Phase {
    if err.None? then Done else Failed(ReasonOf(err.value))
  }

  function EndOf(t: Turn, attempt: nat): N.TxEnd {
    if attempt < |t.ends| then t.ends[attempt] else N.Committed
  }

  predicate CancelledBefore(t: Turn, attempt: nat) {
    attempt < |t.cancelled| && t.cancelled[attempt]
  }

  function DispatchResult(action: N.Action, end: N.TxEnd): Option<DispatchError> {
    match action
    case Poison => Some(Malformed)
    case Ignore => None
    case _ => if end.Committed? then None else Some(Transient(DISPATCH))
  }

  /** The attempts before this one failed, and no wait between them was cancelled. */
  predicate GoesOn(t: Turn, attempt: nat) {
    && (forall i: nat | i < attempt :: !EndOf(t, i).Committed?)
    && forall i: nat | 0 < i <= attempt :: !CancelledBefore(t, i)
  }

  /** How the retries end: a malformed payload at once; an ignored event at once; otherwise
      without error at the first attempt that commits, or cancelled in a wait before any
      committed, or with the error of the third of three failed attempts. */
  ghost predicate EndsWith(action: N.Action, t: Turn, err: Option<DispatchError>) {
    match action
    case Poison => err == Some(Malformed)
    case Ignore => err == None
    case _ =>
      match err
      case None => exists a: nat :: a < 3 && GoesOn(t, a) && EndOf(t, a).Committed?
      case Some(e) =>
        || (e == Transient(DISPATCH) && GoesOn(t, 2) && !EndOf(t, 2).Committed?)
        || (e == Transient(CANCELLED) && exists a: nat :: CancelsAt(t, a))
  }

  /** Attempt `a` fails, is not the last, and the wait after it is the first to be cancelled. */
  predicate CancelsAt(t: Turn, a: nat) {
    a < 2 && GoesOn(t, a) && !EndOf(t, a).Committed? && CancelledBefore(t, a + 1)
  }

  lemma OneMoreAttempt(t: Turn, a: nat)
    requires GoesOn(t, a) && !EndOf(t, a).Committed? && !CancelledBefore(t, a + 1)
    ensures GoesOn(t, a + 1)
  {
  }

  class NotificationConsumer {
    const world: World
    const w: nat

    constructor (world: World, w: nat)
      ensures this.world == world && this.w == w
    {
      this.world, this.w := world, w;
    }

    /** This consumer holds record `k`, in this phase. */
    ghost predicate Holding(k: nat, phase: Phase)
      reads world
    {
      world.Valid() && w in world.s.workers && WorkerIn(world.s, w, phase) && world.s.workers[w].index == k
    }

    ghost predicate Idle()
      reads world
    {
      world.Valid() && w !in world.s.workers
    }

    /** `isDuplicate`: no lookup without an event ID. */
    method IsDuplicate(ghost k: nat, others: seq<Step>, fails: bool) returns (skip: bool, failed: bool)
      requires Holding(k, Fetched)
      modifies world
      ensures failed ==> Idle() && fails && k in world.s.fate.skipped
      ensures !failed && skip ==> Holding(k, Done)
      ensures !failed && !skip ==> Holding(k, Dispatching(0))
      ensures old(world.trace) <= world.trace
    {
      world.Interfere(Consumer(w), others);
      var id := EventId(world.s.kafka[world.s.workers[w].index].msg.headers);
      if id == 0 {
        world.Take(LookupNew(w));
        return false, false;
      }
      if fails {
        world.Take(LookupError(w));
        return false, true;
      }
      skip := id in world.s.db.processed;
      if skip {
        world.Take(LookupSeen(w));
      } else {
        world.Take(LookupNew(w));
      }
      failed := false;
    }

    /** One call of `dispatch`: malformed payloads fail for good, what is not for this service
        passes, and the rest depends on how its transaction ends. */
    method Dispatch(ghost k: nat, others: seq<Step>, end: N.TxEnd, attempt: nat) returns (err: Option<DispatchError>)
      requires Holding(k, Dispatching(attempt))
      modifies world
      ensures k < |world.s.kafka| && ActionAt(world.s, k) == old(ActionAt(world.s, k))
      ensures err == DispatchResult(ActionAt(world.s, k), end)
      ensures Holding(k, if err == Some(Transient(DISPATCH)) && attempt + 1 < MAX_ATTEMPTS then Dispatching(attempt + 1)
                         else PhaseOf(err))
      ensures old(world.trace) <= world.trace
    {
      world.Interfere(Consumer(w), others);
      var action := ActionAt(world.s, world.s.workers[w].index);
      world.Take(Attempt(w, end));
      match action
      case Poison => err := Some(Malformed);
      case Ignore => err := None;
      case _ => err := if end.Committed? then None else Some(Transient(DISPATCH));
    }

    /** The context ends during a wait. */
    method CancelWait(ghost k: nat, attempt: nat, others: seq<Step>)
      requires attempt > 0 && Holding(k, Dispatching(attempt))
      modifies world
      ensures Holding(k, Failed(CANCELLED)) && old(world.trace) <= world.trace
      ensures k < |world.s.kafka| && ActionAt(world.s, k) == old(ActionAt(world.s, k))
    {
      world.Interfere(Consumer(w), others);
      world.Take(Cancelled(w));
    }

    /** `dispatchWithRetry` */
    method DispatchWithRetry(ghost k: nat, t: Turn) returns (err: Option<DispatchError>)
      requires Holding(k, Dispatching(0))
      modifies world
      ensures Holding(k, PhaseOf(err))
      ensures k < |world.s.kafka| && EndsWith(ActionAt(world.s, k), t, err)
      ensures old(world.trace) <= world.trace
    {
      err := None;
      var attempt: nat := 0;
      while attempt < MAX_ATTEMPTS
        invariant attempt < MAX_ATTEMPTS && Holding(k, Dispatching(attempt))
        invariant attempt == 0 || !(ActionAt(world.s, k).Poison? || ActionAt(world.s, k).Ignore?)
        invariant GoesOn(t, attempt)
        invariant old(world.trace) <= world.trace
        decreases MAX_ATTEMPTS - attempt
      {
        err := Dispatch(k, t.others, EndOf(t, attempt), attempt);
        if err == None || err.value == Malformed {
          return;
        }
        if attempt == MAX_ATTEMPTS - 1 {
          break;
        }
        attempt := attempt + 1;
        if CancelledBefore(t, attempt) {
          assert CancelsAt(t, attempt - 1);
          CancelWait(k, attempt, t.others);
          return Some(Transient(CANCELLED));
        }
        OneMoreAttempt(t, attempt - 1);
      }
    }

    method WriteDeadLetter(ghost k: nat, t: Turn)
      requires exists reason :: Holding(k, Failed(reason))
      modifies world
      ensures Holding(k, Done) && old(world.trace) <= world.trace
      ensures k in world.s.fate.dead + world.s.fate.lost
    {
      world.Interfere(Consumer(w), t.others);
      world.Take(DeadLetterTo(w, t.partition, t.dlqOk));
    }

    /** A commit from a consumer that lost the partition is refused by the broker. */
    method CommitMessages(ghost k: nat, t: Turn) returns (ok: bool)
      requires Holding(k, Done)
      modifies world
      ensures Idle() && old(world.trace) <= world.trace && Settled(world.s, k)
      ensures ok ==> k < |world.s.kafka| && Get(world.s.committed, world.s.kafka[k].part) == k + 1
    {
      world.Interfere(Consumer(w), t.others);
      DoneIsSettled(world.trace, world.s, w);
      ok := t.commitOk && !world.s.workers[w].fenced;
      StepKeepsFate(world.s, Commit(w, ok));
      world.Take(Commit(w, ok));
    }

    /** The reader's next record, if the broker has one for this consumer. */
    method FetchMessage(t: Turn) returns (fetched: bool)
      requires Idle()
      modifies world
      ensures old(world.trace) <= world.trace
      ensures if fetched then Holding(t.offered, Fetched) else Idle() && !Enabled(world.s, Fetch(w, t.offered))
    {
      world.Interfere(Consumer(w), t.others);
      fetched := Enabled(world.s, Fetch(w, t.offered));
      if fetched {
        world.Take(Fetch(w, t.offered));
      }
    }

    method DispatchOrDeadLetter(ghost k: nat, t: Turn)
      requires Holding(k, Dispatching(0))
      modifies world
      ensures Holding(k, Done) && old(world.trace) <= world.trace
    {
      var err := DispatchWithRetry(k, t);
      if err != None {
        WriteDeadLetter(k, t);
      }
    }

    /** One turn of the loop in `Run`: unless there is nothing to fetch, or the lookup fails
        and the record is passed over, the record ends up settled. */
    method HandleTurn(t: Turn) returns (fetched: bool, handled: bool)
      requires Idle()
      modifies world
      ensures Idle() && old(world.trace) <= world.trace
      ensures !fetched ==> !Enabled(world.s, Fetch(w, t.offered))
      ensures fetched && handled ==> Settled(world.s, t.offered)
      ensures fetched && !handled ==> t.lookupFails && t.offered in world.s.fate.skipped
    {
      fetched := FetchMessage(t);
      if !fetched {
        return false, false;
      }
      var skip, failed := IsDuplicate(t.offered, t.others, t.lookupFails);
      if failed {
        return true, false;
      }
      if !skip {
        DispatchOrDeadLetter(t.offered, t);
      }
      var _ := CommitMessages(t.offered, t);
      return true, true;
    }

    /** `Run`, for as many turns as the process lives. Whatever the other processes do, it
        is one of the pipeline's runs, so every result about those runs holds of it; in
        particular no committed offset passes a record that was not found processed,
        dispatched, or handed to the dead-letter writer, save after a failed lookup. */
    method Run(turns: seq<Turn>)
      requires Idle()
      modifies world
      ensures Idle() && old(world.trace) <= world.trace
      ensures NoneOverlooked(world.s)
    {
      for i := 0 to |turns|
        invariant Idle() && old(world.trace) <= world.trace
      {
        var _, _ := HandleTurn(turns[i]);
      }
      OffsetsOverlookNone(world.trace, world.s);
    }
  }

  lemma DoneIsSettled(trace: seq<Step>, s: State, w: nat)
    requires Runs(INIT, trace, s) && WorkerIn(s, w, Done)
    ensures Settled(s, s.workers[w].index)
  {
    InitInv();
    RunKeepsInv(INIT, trace, s);
    assert WorkerOk(s, w);
  }

  ghost predicate NoneOverlooked(s: State) {
    forall k: nat | k < |s.kafka| ::
      k < Get(s.committed, s.kafka[k].part) ==> Settled(s, k) || k in s.fate.skipped
  }

  lemma OffsetsOverlookNone(trace: seq<Step>, s: State)
    requires Runs(INIT, trace, s)
    ensures NoneOverlooked(s)
  {
    InitInv();
    RunKeepsInv(INIT, trace, s);
    forall k: nat | k < |s.kafka| && k < Get(s.committed, s.kafka[k].part)
      ensures Settled(s, k) || k in s.fate.skipped
    {
      assert RecordOk(s, k);
    }
  }

  lemma HeldRowsArePending(trace: seq<Step>, s: State, f: nat)
    requires Runs(INIT, trace, s) && f in s.flushers
    ensures forall id <- s.flushers[f].ids ::
              (s.flushers[f].svc, id) in s.outbox && !s.outbox[(s.flushers[f].svc, id)].sent
  {
    InitInv();
    RunKeepsInv(INIT, trace, s);
  }

  lemma RowsAreTold(trace: seq<Step>, s: State, svc: Svc, ids: seq<int>, msgs: seq<Pipeline.Message>)
    requires Runs(INIT, trace, s) && |msgs| == |ids| && forall id <- ids :: (svc, id) in s.outbox
    requires forall i | 0 <= i < |ids| :: msgs[i] == MsgOf(ids[i], s.outbox[(svc, ids[i])])
    ensures forall i | 0 <= i < |ids| :: Tells(msgs[i], ids[i], s.outbox[(svc, ids[i])])
  {
    InitInv();
    RunKeepsInv(INIT, trace, s);
    forall i | 0 <= i < |ids| ensures Tells(msgs[i], ids[i], s.outbox[(svc, ids[i])]) {
      assert ids[i] in ids;
      MsgOfTells(ids[i], s.outbox[(svc, ids[i])]);
    }
  }

  // ------------------------------------------------------- the outbox flusher

  /** What the outside world does during one flush: the rows the query locks, how many
      messages reach Kafka before an error (all, if `kafkaOk`), which marks go through, and
      how the transaction ends. */
  datatype FlushTurn = FlushTurn(others: seq<Step>, locked: seq<int>, partitions: seq<nat>,
                                 kafkaOk: bool, reached: nat, markFails: set<int>, tx: N.TxEnd)

  /** The first |at| messages stand in Kafka at these places, in order, all after `from`. */
  ghost predicate InOrder(kafka: seq<Record>, from: nat, msgs: seq<Pipeline.Message>, at: seq<nat>) {
    && |at| <= |msgs| && Rising(at)
    && forall j | 0 <= j < |at| :: from <= at[j] < |kafka| && kafka[at[j]].msg == msgs[j]
  }

  lemma OneMoreInOrder(kafka: seq<Record>, longer: seq<Record>, from: nat, msgs: seq<Pipeline.Message>, at: seq<nat>)
    requires InOrder(kafka, from, msgs, at) && from <= |kafka| && kafka < longer
    requires |at| < |msgs| && longer[|longer| - 1].msg == msgs[|at|]
    ensures InOrder(longer, from, msgs, at + [|longer| - 1])
  {
  }

  class OutboxFlusher {
    const world: World
    const f: nat
    const svc: Svc

    constructor (world: World, f: nat, svc: Svc)
      ensures this.world == world && this.f == f && this.svc == svc
    {
      this.world, this.f, this.svc := world, f, svc;
    }

    ghost predicate Idle()
      reads world
    {
      world.Valid() && f !in world.s.flushers
    }

    /** The transaction holds exactly these rows, and has written exactly those to Kafka. */
    ghost predicate Open(ids: seq<int>, published: set<int>)
      reads world
    {
      && world.Valid() && f in world.s.flushers
      && world.s.flushers[f] == Flush(svc, (set id <- ids), published)
      && forall id <- ids :: (svc, id) in world.s.outbox
    }

    /** The messages are those of the rows, in order. */
    ghost predicate Carries(msgs: seq<Pipeline.Message>, ids: seq<int>)
      requires forall id <- ids :: (svc, id) in world.s.outbox
      reads world
    {
      |msgs| == |ids| && forall i | 0 <= i < |ids| :: msgs[i] == MsgOf(ids[i], world.s.outbox[(svc, ids[i])])
    }

    /** The body of the loop that builds the batch. */
    method BuildMessage(id: int, row: Row) returns (msg: Pipeline.Message)
      ensures msg == MsgOf(id, row)
    {
      var headers := [Header(EVENT_ID_HEADER, Strconv.FormatInt(id))];
      if row.traceId != "" {
        headers := headers + [Header(TRACE_PARENT_HEADER, row.traceId)];
      }
      msg := Message(row.topic, row.key, row.payload, headers);
    }

    /** The loop that builds the batch. */
    method BuildMessages(ids: seq<int>) returns (msgs: seq<Pipeline.Message>)
      requires Open(ids, {})
      ensures Open(ids, {}) && Carries(msgs, ids)
      ensures forall i | 0 <= i < |ids| ::
                var row := world.s.outbox[(svc, ids[i])];
                && msgs[i].topic == row.topic && msgs[i].key == row.key && msgs[i].value == row.payload
                && EventId(msgs[i].headers) == ids[i] && HeaderValue(msgs[i].headers, "traceparent") == row.traceId
    {
      msgs := [];
      var outbox := world.s.outbox;
      for i := 0 to |ids|
        invariant |msgs| == i
        invariant forall j | 0 <= j < i :: (svc, ids[j]) in outbox && msgs[j] == MsgOf(ids[j], outbox[(svc, ids[j])])
      {
        assert ids[i] in ids;
        var msg := BuildMessage(ids[i], outbox[(svc, ids[i])]);
        msgs := msgs + [msg];
      }
      RowsAreTold(world.trace, world.s, svc, ids, msgs);
    }

    /** One message of the batch reaches the brokers. */
    method WriteOne(msgs: seq<Pipeline.Message>, ids: seq<int>, i: nat, number: nat, others: seq<Step>,
                    ghost published: set<int>, ghost from: nat, ghost at: seq<nat>) returns (ghost place: nat)
      requires i < |ids| && Open(ids, published) && Carries(msgs, ids)
      requires InOrder(world.s.kafka, from, msgs, at) && |at| == i && from <= |world.s.kafka|
      modifies world
      ensures Open(ids, published + {ids[i]}) && Carries(msgs, ids)
      ensures old(world.trace) <= world.trace
      ensures from <= |world.s.kafka| && InOrder(world.s.kafka, from, msgs, at + [place])
    {
      ghost var before := world.s.kafka;
      world.Interfere(Flusher(f), others);
      assert ids[i] in ids;
      assert msgs[i] == MsgOf(ids[i], world.s.outbox[(svc, ids[i])]);
      world.Take(Publish(f, ids[i], number));
      OneMoreInOrder(before, world.s.kafka, from, msgs, at);
      place := |world.s.kafka| - 1;
    }

    /** `WriteMessages`: on an error, only some of the batch has reached the brokers. */
    method WriteMessages(msgs: seq<Pipeline.Message>, ids: seq<int>, t: FlushTurn)
      returns (failed: bool, ghost at: seq<nat>)
      requires Open(ids, {}) && Carries(msgs, ids)
      modifies world
      ensures failed == !t.kafkaOk
      ensures exists published :: Open(ids, published) && (!failed ==> (set id <- ids) <= published)
      ensures old(world.trace) <= world.trace
      ensures InOrder(world.s.kafka, |old(world.s.kafka)|, msgs, at)
      ensures |at| == if t.kafkaOk || |ids| <= t.reached then |ids| else t.reached
    {
      at := [];
      var reach := if t.kafkaOk || |ids| <= t.reached then |ids| else t.reached;
      ghost var published: set<int> := {};
      for i := 0 to reach
        invariant Open(ids, published) && Carries(msgs, ids)
        invariant forall j | 0 <= j < i :: ids[j] in published
        invariant old(world.trace) <= world.trace
        invariant |old(world.s.kafka)| <= |world.s.kafka| && |at| == i
        invariant InOrder(world.s.kafka, |old(world.s.kafka)|, msgs, at)
      {
        var number := if i < |t.partitions| then t.partitions[i] else 0;
        ghost var place := WriteOne(msgs, ids, i, number, t.others, published, |old(world.s.kafka)|, at);
        published := published + {ids[i]};
        at := at + [place];
      }
      failed := !t.kafkaOk;
    }

    method Abort(t: FlushTurn, ids: seq<int>)
      requires exists published :: Open(ids, published)
      modifies world
      ensures Idle() && old(world.trace) <= world.trace
      ensures Untouched(ids)
    {
      world.Interfere(Flusher(f), t.others);
      HeldRowsArePending(world.trace, world.s, f);
      world.Take(AbortFlush(f));
    }

    /** `GetPendingOutbox`: FOR UPDATE SKIP LOCKED gives rows no other flusher holds, or none. */
    method LockPending(t: FlushTurn) returns (rows: seq<int>)
      requires Idle()
      modifies world
      ensures if rows == [] then Idle() else Open(rows, {})
      ensures |(set id <- rows)| <= 100
      ensures old(world.trace) <= world.trace
    {
      world.Interfere(Flusher(f), t.others);
      rows := t.locked;
      var ids := set id <- rows;
      if !Enabled(world.s, Claim(f, svc, ids)) {
        return [];
      }
      forall id <- rows ensures (svc, id) in world.s.outbox {
        assert id in ids;
        assert Pending(world.s, (svc, id));
      }
      world.Take(Claim(f, svc, ids));
    }

    /** `MarkOutboxSent` for each row, its errors only logged; then the commit, whose
        acknowledgement may be lost. */
    method MarkAndCommit(t: FlushTurn, rows: seq<int>) returns (ok: bool)
      requires exists published :: Open(rows, published) && (set id <- rows) <= published
      modifies world
      ensures Idle() && old(world.trace) <= world.trace && (ok <==> t.tx.Committed?)
      ensures if t.tx.RolledBack? then Untouched(rows) else Marked(rows, t.markFails)
    {
      var marked: set<int> := {};
      for i := 0 to |rows|
        invariant marked == set j | 0 <= j < i && rows[j] !in t.markFails :: rows[j]
      {
        if rows[i] !in t.markFails {
          marked := marked + {rows[i]};
        }
      }
      if t.tx.RolledBack? {
        Abort(t, rows);
        return false;
      }
      world.Interfere(Flusher(f), t.others);
      world.Take(MarkSent(f, marked));
      ok := t.tx.Committed?;
    }

    /** `FlushOutbox`: all in one transaction, but for the write to Kafka. Without error its
        rows are marked sent, save those whose mark failed. With an error they are all still
        pending, unless it is only the commit's acknowledgement that was lost. */
    method FlushOutbox(t: FlushTurn) returns (rows: seq<int>, ok: bool)
      requires Idle()
      modifies world
      ensures Idle() && old(world.trace) <= world.trace
      ensures |(set id <- rows)| <= 100
      ensures ok <==> rows == [] || (t.kafkaOk && t.tx.Committed?)
      ensures if t.kafkaOk && !t.tx.RolledBack? then Marked(rows, t.markFails) else Untouched(rows)
    {
      rows := LockPending(t);
      if rows == [] {
        return rows, true;
      }
      var msgs := BuildMessages(rows);
      var failed, _ := WriteMessages(msgs, rows, t);
      if failed {
        Abort(t, rows);
        return rows, false;
      }
      ok := MarkAndCommit(t, rows);
    }

    /** The rows whose mark went through are marked sent. */
    ghost predicate Marked(rows: seq<int>, markFails: set<int>)
      reads world
    {
      forall id <- rows :: id !in markFails ==> (svc, id) in world.s.outbox && world.s.outbox[(svc, id)].sent
    }

    /** The rows are all still pending. */
    ghost predicate Untouched(rows: seq<int>)
      reads world
    {
      forall id <- rows :: (svc, id) in world.s.outbox && !world.s.outbox[(svc, id)].sent
    }
  }
}
