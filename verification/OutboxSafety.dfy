/** The outbox half of the pipeline: what is published stems from a committed row, and
    what is marked sent has been published, at every point where a process may stop. */
module OutboxSafety {
  import opened Strconv
  import opened Wrappers
  import opened Dlq
  import opened Pipeline

  /** `r` carries the ID, topic, key, payload and trace of this outbox row. */
  predicate FromRow(r: Record, src: RowId, row: Row) {
    r.source == src && r.part.topic == row.topic && r.msg == MsgOf(src.1, row)
  }

  ghost predicate Published(s: State, src: RowId)
    requires src in s.outbox
  {
    exists k | 0 <= k < |s.kafka| :: FromRow(s.kafka[k], src, s.outbox[src])
  }

  ghost predicate RowsInv(s: State) {
    forall src <- s.outbox :: 0 < src.1 <= INT64_MAX && s.outbox[src].topic != ""
  }

  /** Open flushes hold pending rows, no two the same row. */
  ghost predicate ClaimsInv(s: State) {
    && (forall f <- s.flushers, id <- s.flushers[f].ids ::
          (s.flushers[f].svc, id) in s.outbox && !s.outbox[(s.flushers[f].svc, id)].sent)
    && (forall f <- s.flushers, g <- s.flushers :: f != g && s.flushers[f].svc == s.flushers[g].svc ==>
          s.flushers[f].ids !! s.flushers[g].ids)
    && (forall f <- s.flushers :: s.flushers[f].published <= s.flushers[f].ids)
  }

  /** Every Kafka record, replays included, stems from a committed row; every dead letter
      replays to such a record. */
  ghost predicate TraceInv(s: State) {
    && (forall k | 0 <= k < |s.kafka| ::
          s.kafka[k].source in s.outbox && FromRow(s.kafka[k], s.kafka[k].source, s.outbox[s.kafka[k].source]))
    && (forall j | 0 <= j < |s.dlq| :: DeadFromRow(s, s.dlq[j]))
  }

  ghost predicate DeadFromRow(s: State, d: Dead) {
    && d.source in s.outbox
    && ReplayOf(d.msg) == Some(MsgOf(d.source.1, s.outbox[d.source]))
    && EventId(d.msg.headers) == d.source.1
  }

  ghost predicate SentInv(s: State) {
    && (forall src <- s.outbox :: s.outbox[src].sent ==> Published(s, src))
    && (forall f <- s.flushers, id <- s.flushers[f].published ::
          (s.flushers[f].svc, id) in s.outbox && Published(s, (s.flushers[f].svc, id)))
  }

  ghost predicate OutboxInv(s: State) {
    RowsInv(s) && ClaimsInv(s) && TraceInv(s) && SentInv(s)
  }

  // ------------------------------------------------------------ preservation

  lemma MsgOfFacts(id: int, row: Row)
    requires 0 < id <= INT64_MAX
    ensures EventId(MsgOf(id, row).headers) == id
    ensures NoDlqHeaders(MsgOf(id, row).headers)
  {
    ParseFormatInt(id);
  }

  /** The message has the row's topic, key and payload, and its ID and trace in the headers. */
  predicate Tells(m: Pipeline.Message, id: int, row: Row) {
    && m.topic == row.topic && m.key == row.key && m.value == row.payload
    && EventId(m.headers) == id && HeaderValue(m.headers, "X-Event-ID") == FormatInt(id)
    && HeaderValue(m.headers, "traceparent") == row.traceId
    && forall h <- m.headers :: h.key in ["X-Event-ID", "traceparent"]
  }

  lemma MsgOfTells(id: int, row: Row)
    requires 0 < id <= INT64_MAX
    ensures Tells(MsgOf(id, row), id, row)
  {
    var headers := MsgOf(id, row).headers;
    MsgOfFacts(id, row);
    assert |EVENT_ID_HEADER| == 10 && |TRACE_PARENT_HEADER| == 11;
    assert headers[0] == Header("X-Event-ID", FormatInt(id));
    if row.traceId != "" {
      assert headers[1..] == [Header("traceparent", row.traceId)];
      assert headers[1..][1..] == [];
    } else {
      assert headers[1..] == [];
    }
  }

  /** `s'` extends `s`: same rows except for `sent`, and Kafka only appended to. */
  ghost predicate Extends(s: State, s': State) {
    && s.kafka <= s'.kafka
    && s.outbox.Keys <= s'.outbox.Keys
    && forall src <- s.outbox :: s'.outbox[src] == s.outbox[src].(sent := s'.outbox[src].sent)
  }

  lemma PublishedStays(s: State, s': State, src: RowId)
    requires Extends(s, s') && src in s.outbox && Published(s, src)
    ensures Published(s', src)
  {
    var k :| 0 <= k < |s.kafka| && FromRow(s.kafka[k], src, s.outbox[src]);
    assert FromRow(s'.kafka[k], src, s'.outbox[src]);
  }

  lemma StepExtends(s: State, step: Step)
    requires Enabled(s, step)
    ensures Extends(s, Apply(s, step))
  {
  }

  /** The steps of business transactions and flushers. */
  predicate OutboxStep(step: Step) {
    step.InsertRow? || step.Claim? || step.Publish? || step.MarkSent? || step.AbortFlush?
  }

  lemma OtherStepsLeaveOutbox(s: State, step: Step)
    requires Enabled(s, step) && !OutboxStep(step)
    ensures Apply(s, step).outbox == s.outbox && Apply(s, step).flushers == s.flushers
  {
  }

  lemma ClaimKeepsClaims(s: State, f: nat, svc: Svc, ids: set<int>)
    requires ClaimsInv(s) && Enabled(s, Claim(f, svc, ids))
    ensures ClaimsInv(Apply(s, Claim(f, svc, ids)))
  {
    forall g <- s.flushers | s.flushers[g].svc == svc ensures s.flushers[g].ids !! ids {
      forall id <- ids ensures id !in s.flushers[g].ids {
        assert Pending(s, (svc, id));
      }
    }
  }

  lemma MarkSentKeepsClaims(s: State, f: nat, marked: set<int>)
    requires RowsInv(s) && ClaimsInv(s) && Enabled(s, MarkSent(f, marked))
    ensures RowsInv(Apply(s, MarkSent(f, marked))) && ClaimsInv(Apply(s, MarkSent(f, marked)))
  {
    var s' := Apply(s, MarkSent(f, marked));
    forall g <- s'.flushers, id <- s'.flushers[g].ids
      ensures (s'.flushers[g].svc, id) in s'.outbox && !s'.outbox[(s'.flushers[g].svc, id)].sent
    {
      assert g in s.flushers && g != f;
    }
  }

  lemma PublishKeepsClaims(s: State, f: nat, id: int, number: nat)
    requires ClaimsInv(s) && Enabled(s, Publish(f, id, number))
    ensures ClaimsInv(Apply(s, Publish(f, id, number)))
  {
  }

  lemma KeepsClaims(s: State, step: Step)
    requires OutboxInv(s) && Enabled(s, step)
    ensures RowsInv(Apply(s, step)) && ClaimsInv(Apply(s, step))
  {
    if step.Claim? {
      ClaimKeepsClaims(s, step.f, step.svc, step.ids);
    } else if step.MarkSent? {
      MarkSentKeepsClaims(s, step.f, step.marked);
    } else if step.Publish? {
      PublishKeepsClaims(s, step.f, step.id, step.number);
    } else if !OutboxStep(step) {
      OtherStepsLeaveOutbox(s, step);
    }
  }

  lemma DeadLetterFromRow(s: State, r: Record, f: Failure)
    requires RowsInv(s) && r.source in s.outbox && FromRow(r, r.source, s.outbox[r.source])
    ensures DeadFromRow(s, Dead(DeadLetter(r.msg, f, DLQ_TOPIC), r.source))
  {
    MsgOfFacts(r.source.1, s.outbox[r.source]);
    ReplayUndoesDeadLetter(r.msg, f, DLQ_TOPIC);
    EventIdSurvives(r.msg, f, DLQ_TOPIC);
  }

  lemma KeepsTrace(s: State, step: Step)
    requires OutboxInv(s) && Enabled(s, step)
    ensures TraceInv(Apply(s, step))
  {
    var s' := Apply(s, step);
    StepExtends(s, step);
    TraceStays(s, s');
    forall k | 0 <= k < |s'.kafka|
      ensures s'.kafka[k].source in s'.outbox && FromRow(s'.kafka[k], s'.kafka[k].source, s'.outbox[s'.kafka[k].source])
    {
      if k < |s.kafka| {
        assert s'.kafka[k] == s.kafka[k];
      } else {
        NewRecordFromRow(s, step);
      }
    }
    if step.DeadLetterTo? {
      var k := s.workers[step.w].index;
      DeadLetterFromRow(s, s.kafka[k], Failure(step.partition, k, s.workers[step.w].phase.reason));
    } else {
      OnlyDeadLettersGrowDlq(s, step);
    }
  }

  /** What stemmed from a row still does. */
  lemma TraceStays(s: State, s': State)
    requires Extends(s, s')
    ensures forall d: Dead | DeadFromRow(s, d) :: DeadFromRow(s', d)
    ensures forall r: Record | r.source in s.outbox && FromRow(r, r.source, s.outbox[r.source]) ::
              r.source in s'.outbox && FromRow(r, r.source, s'.outbox[r.source])
  {
  }

  lemma NewRecordFromRow(s: State, step: Step)
    requires OutboxInv(s) && Enabled(s, step) && |s.kafka| < |Apply(s, step).kafka|
    ensures var s' := Apply(s, step);
            && |s'.kafka| == |s.kafka| + 1
            && var r := s'.kafka[|s.kafka|];
               r.source in s'.outbox && FromRow(r, r.source, s'.outbox[r.source])
  {
    if step.Replay? {
      assert DeadFromRow(s, s.dlq[step.j]);
    }
  }

  lemma OnlyDeadLettersGrowDlq(s: State, step: Step)
    requires Enabled(s, step) && !step.DeadLetterTo?
    ensures Apply(s, step).dlq == s.dlq
  {
  }

  lemma PublishKeepsSent(s: State, f: nat, id: int, number: nat)
    requires OutboxInv(s) && Enabled(s, Publish(f, id, number))
    requires forall src <- s.outbox | Published(s, src) :: Published(Apply(s, Publish(f, id, number)), src)
    ensures SentInv(Apply(s, Publish(f, id, number)))
  {
    var s', src := Apply(s, Publish(f, id, number)), (s.flushers[f].svc, id);
    assert FromRow(s'.kafka[|s.kafka|], src, s'.outbox[src]);
    assert Published(s', src);
  }

  lemma KeepsSent(s: State, step: Step)
    requires OutboxInv(s) && Enabled(s, step)
    ensures SentInv(Apply(s, step))
  {
    var s' := Apply(s, step);
    StepExtends(s, step);
    forall src <- s.outbox | Published(s, src) ensures Published(s', src) {
      PublishedStays(s, s', src);
    }
    if step.Publish? {
      PublishKeepsSent(s, step.f, step.id, step.number);
    } else if !OutboxStep(step) {
      OtherStepsLeaveOutbox(s, step);
    }
  }

  /** Every step, of any process, keeps the outbox invariant. */
  lemma KeepsOutboxInv(s: State, step: Step)
    requires OutboxInv(s) && Enabled(s, step)
    ensures OutboxInv(Apply(s, step))
  {
    KeepsClaims(s, step);
    KeepsTrace(s, step);
    KeepsSent(s, step);
  }

  // --------------------------------------------------------------- whole runs

  lemma {:induction false} RunKeepsOutboxInv(s: State, steps: seq<Step>, t: State)
    requires OutboxInv(s) && Runs(s, steps, t)
    ensures OutboxInv(t)
    decreases |steps|
  {
    if steps != [] {
      KeepsOutboxInv(s, steps[0]);
      RunKeepsOutboxInv(Apply(s, steps[0]), steps[1..], t);
    }
  }

  /** In every reachable state: a row marked sent is in Kafka; every Kafka record, replays
      included, stems from a committed row and has its topic, key, payload, ID and trace; a row
      that is not in Kafka is still pending; no two open flushes hold the same row. */
  lemma OutboxIsSafe(steps: seq<Step>, t: State)
    requires Runs(INIT, steps, t)
    ensures forall src <- t.outbox :: t.outbox[src].sent ==> exists r <- t.kafka :: r.source == src
    ensures forall r <- t.kafka :: r.source in t.outbox && r.part.topic == t.outbox[r.source].topic
    ensures forall r <- t.kafka :: r.source in t.outbox ==>
              var row := t.outbox[r.source];
              && r.msg.topic == row.topic && r.msg.key == row.key && r.msg.value == row.payload
              && EventId(r.msg.headers) == r.source.1 && HeaderValue(r.msg.headers, "traceparent") == row.traceId
    ensures forall src <- t.outbox :: src !in (set r <- t.kafka :: r.source) ==> !t.outbox[src].sent
    ensures forall f <- t.flushers, g <- t.flushers ::
              f != g && t.flushers[f].svc == t.flushers[g].svc ==> t.flushers[f].ids !! t.flushers[g].ids
  {
    RunKeepsOutboxInv(INIT, steps, t);
    forall src <- t.outbox | t.outbox[src].sent ensures src in (set r <- t.kafka :: r.source) {
      var k :| 0 <= k < |t.kafka| && FromRow(t.kafka[k], src, t.outbox[src]);
      assert t.kafka[k] in t.kafka;
    }
    forall r <- t.kafka ensures r.source in t.outbox && Tells(r.msg, r.source.1, t.outbox[r.source]) {
      MsgOfTells(r.source.1, t.outbox[r.source]);
    }
  }

  // ------------------------------------------------------ runs without failures

  function Copies(kafka: seq<Record>, src: RowId): nat {
    if kafka == [] then 0
    else Copies(kafka[..|kafka| - 1], src) + if kafka[|kafka| - 1].source == src then 1 else 0
  }

  /** No flush aborts, Kafka writes each message of a batch once, all rows of a batch are
      marked, and nothing is replayed. */
  ghost predicate NoFailure(s: State, step: Step)
    requires Enabled(s, step)
  {
    match step
    case Publish(f, id, _) => id !in s.flushers[f].published
    case MarkSent(f, marked) => marked == s.flushers[f].ids
    case AbortFlush(_) => false
    case Replay(_, _) => false
    case _ => true
  }

  ghost predicate RunsWithoutFailure(s: State, steps: seq<Step>, t: State)
    decreases |steps|
  {
    if steps == [] then s == t
    else Enabled(s, steps[0]) && NoFailure(s, steps[0]) && RunsWithoutFailure(Apply(s, steps[0]), steps[1..], t)
  }

  /** An open flush has written this row to Kafka. */
  ghost predicate InOpenFlush(s: State, src: RowId) {
    exists f <- s.flushers :: s.flushers[f].svc == src.0 && src.1 in s.flushers[f].published
  }

  ghost function Expected(s: State, src: RowId): nat {
    if src in s.outbox && (s.outbox[src].sent || InOpenFlush(s, src)) then 1 else 0
  }

  ghost predicate CopiesInv(s: State) {
    forall src: RowId :: Copies(s.kafka, src) == Expected(s, src)
  }

  lemma OneMoreCopy(kafka: seq<Record>, r: Record, src: RowId)
    ensures Copies(kafka + [r], src) == Copies(kafka, src) + if r.source == src then 1 else 0
  {
    assert (kafka + [r])[..|kafka|] == kafka;
  }

  /** A row a flush holds and has yet to write is in no open flush's writes. */
  lemma NotYetWritten(s: State, f: nat, id: int)
    requires ClaimsInv(s) && f in s.flushers && id in s.flushers[f].ids && id !in s.flushers[f].published
    ensures !InOpenFlush(s, (s.flushers[f].svc, id))
  {
  }

  lemma ExpectedOfWritten(s: State, f: nat, id: int, number: nat)
    requires ClaimsInv(s) && Enabled(s, Publish(f, id, number)) && id !in s.flushers[f].published
    ensures var src := (s.flushers[f].svc, id);
            Expected(s, src) == 0 && Expected(Apply(s, Publish(f, id, number)), src) == 1
  {
    var s' := Apply(s, Publish(f, id, number));
    NotYetWritten(s, f, id);
    assert f in s'.flushers && id in s'.flushers[f].published;
  }

  lemma ExpectedOnPublish(s: State, f: nat, id: int, number: nat, src: RowId)
    requires OutboxInv(s) && Enabled(s, Publish(f, id, number)) && id !in s.flushers[f].published
    requires Copies(s.kafka, src) == Expected(s, src)
    ensures var s' := Apply(s, Publish(f, id, number)); Copies(s'.kafka, src) == Expected(s', src)
  {
    var s', written := Apply(s, Publish(f, id, number)), (s.flushers[f].svc, id);
    OneMoreCopy(s.kafka, s'.kafka[|s.kafka|], src);
    if src == written {
      ExpectedOfWritten(s, f, id, number);
    } else {
      OpenFlushesSame(s, s', src, f);
    }
  }

  lemma ExpectedOnMarkSent(s: State, f: nat, src: RowId)
    requires OutboxInv(s) && f in s.flushers && Enabled(s, MarkSent(f, s.flushers[f].ids))
    requires Copies(s.kafka, src) == Expected(s, src)
    ensures var s' := Apply(s, MarkSent(f, s.flushers[f].ids)); Copies(s'.kafka, src) == Expected(s', src)
  {
    var s' := Apply(s, MarkSent(f, s.flushers[f].ids));
    if src.0 == s.flushers[f].svc && src.1 in s.flushers[f].ids {
      assert src.1 in s.flushers[f].published;
      assert InOpenFlush(s, src);
    } else if InOpenFlush(s, src) {
      var g :| g in s.flushers && s.flushers[g].svc == src.0 && src.1 in s.flushers[g].published;
      assert g in s'.flushers && s'.flushers[g] == s.flushers[g];
    }
  }

  lemma ExpectedOnInsert(s: State, source: RowId, row: Row, src: RowId)
    requires OutboxInv(s) && Enabled(s, InsertRow(source, row))
    ensures Expected(Apply(s, InsertRow(source, row)), src) == Expected(s, src)
  {
    var s' := Apply(s, InsertRow(source, row));
    assert s'.flushers == s.flushers;
    assert InOpenFlush(s', src) == InOpenFlush(s, src);
    assert !InOpenFlush(s, source);
  }

  lemma ExpectedOnOther(s: State, step: Step, src: RowId)
    requires Enabled(s, step) && NoFailure(s, step)
    requires !step.Publish? && !step.MarkSent? && !step.Claim? && !step.InsertRow?
    ensures Apply(s, step).kafka == s.kafka && Expected(Apply(s, step), src) == Expected(s, src)
  {
    var s' := Apply(s, step);
    assert s'.flushers == s.flushers && s'.outbox == s.outbox;
    assert InOpenFlush(s', src) == InOpenFlush(s, src);
  }

  lemma OpenFlushesSame(s: State, s': State, src: RowId, f: nat)
    requires f in s'.flushers && s'.flushers.Keys == s.flushers.Keys + {f}
    requires forall g <- s.flushers :: g != f ==> s'.flushers[g] == s.flushers[g]
    requires s'.flushers[f].svc == src.0 && src.1 in s'.flushers[f].published
         <==> f in s.flushers && s.flushers[f].svc == src.0 && src.1 in s.flushers[f].published
    ensures InOpenFlush(s', src) <==> InOpenFlush(s, src)
  {
    if InOpenFlush(s, src) {
      var g :| g in s.flushers && s.flushers[g].svc == src.0 && src.1 in s.flushers[g].published;
      assert g in s'.flushers;
    }
    if InOpenFlush(s', src) {
      var g :| g in s'.flushers && s'.flushers[g].svc == src.0 && src.1 in s'.flushers[g].published;
      assert g in s.flushers;
    }
  }

  lemma KeepsCopies(s: State, step: Step)
    requires OutboxInv(s) && CopiesInv(s) && Enabled(s, step) && NoFailure(s, step)
    ensures CopiesInv(Apply(s, step))
  {
    forall src: RowId ensures Copies(Apply(s, step).kafka, src) == Expected(Apply(s, step), src) {
      KeepsCopiesOf(s, step, src);
    }
  }

  lemma KeepsCopiesOf(s: State, step: Step, src: RowId)
    requires OutboxInv(s) && Enabled(s, step) && NoFailure(s, step)
    requires Copies(s.kafka, src) == Expected(s, src)
    ensures Copies(Apply(s, step).kafka, src) == Expected(Apply(s, step), src)
  {
    if step.Publish? {
      ExpectedOnPublish(s, step.f, step.id, step.number, src);
    } else if step.MarkSent? {
      ExpectedOnMarkSent(s, step.f, src);
    } else if step.Claim? {
      OpenFlushesSame(s, Apply(s, step), src, step.f);
    } else if step.InsertRow? {
      ExpectedOnInsert(s, step.source, step.row, src);
    } else {
      ExpectedOnOther(s, step, src);
    }
  }

  lemma {:induction false} RunKeepsCopies(s: State, steps: seq<Step>, t: State)
    requires OutboxInv(s) && CopiesInv(s) && RunsWithoutFailure(s, steps, t)
    ensures OutboxInv(t) && CopiesInv(t)
    decreases |steps|
  {
    if steps != [] {
      KeepsOutboxInv(s, steps[0]);
      KeepsCopies(s, steps[0]);
      RunKeepsCopies(Apply(s, steps[0]), steps[1..], t);
    }
  }

  /** When no step fails, a row is in Kafka at most once: exactly once when it is marked sent
      or an open flush has written it, and not at all while it is pending and no flush works
      on it. */
  lemma PublishedExactlyOnce(steps: seq<Step>, t: State, src: RowId)
    requires RunsWithoutFailure(INIT, steps, t) && src in t.outbox
    ensures Copies(t.kafka, src) <= 1
    ensures Copies(t.kafka, src) == 1 <==> t.outbox[src].sent || InOpenFlush(t, src)
    ensures t.outbox[src].sent ==> Copies(t.kafka, src) == 1
    ensures Pending(t, src) ==> Copies(t.kafka, src) == 0
  {
    RunKeepsCopies(INIT, steps, t);
  }
}
