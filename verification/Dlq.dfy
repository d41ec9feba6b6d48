/** Kafka messages, their headers, and the dead-letter round trip:
    shared/dlq writes a failed message with provenance headers, cmd dlq-replay
    strips them and republishes to the source topic. */
module Dlq {
  import opened Sequences
  import opened Strconv
  import opened Wrappers

  datatype Header = Header(key: string, value: string)
  /** `V` is what the message carries; nothing here looks inside it. */
  datatype Message<V> = Message(topic: string, key: string, value: V, headers: seq<Header>)

  const EVENT_ID_HEADER := "X-Event-ID"
  const TRACE_PARENT_HEADER := "traceparent"
  const SOURCE_TOPIC := "X-DLQ-Source-Topic"
  const SOURCE_PARTITION := "X-DLQ-Source-Partition"
  const SOURCE_OFFSET := "X-DLQ-Source-Offset"
  const ERROR := "X-DLQ-Error"

  predicate IsDlqHeader(key: string) {
    key == SOURCE_TOPIC || key == SOURCE_PARTITION || key == SOURCE_OFFSET || key == ERROR
  }

  predicate NoDlqHeaders(headers: seq<Header>) {
    forall h <- headers :: !IsDlqHeader(h.key)
  }

  /** The value of the first header with this key, "" if there is none. */
  function HeaderValue(headers: seq<Header>, key: string): string {
    if headers == [] then ""
    else if headers[0].key == key then headers[0].value
    else HeaderValue(headers[1..], key)
  }

  /** The ID of the outbox row behind a message. A missing or malformed header gives 0; the
      range error of an oversized number is ignored, as the code does. */
  function EventId(headers: seq<Header>): int {
    if headers == [] then 0
    else if headers[0].key == EVENT_ID_HEADER then ParseInt(headers[0].value, INT64_MAX).value
    else EventId(headers[1..])
  }

  function Stripped(headers: seq<Header>): seq<Header> {
    if headers == [] then []
    else (if IsDlqHeader(headers[0].key) then [] else [headers[0]]) + Stripped(headers[1..])
  }

  /** Where a message was read from, and why it failed. */
  datatype Failure = Failure(partition: int, offset: int, reason: string)

  function Provenance(topic: string, f: Failure): seq<Header> {
    [Header(SOURCE_TOPIC, topic), Header(SOURCE_PARTITION, FormatInt(f.partition)),
     Header(SOURCE_OFFSET, FormatInt(f.offset)), Header(ERROR, f.reason)]
  }

  function DeadLetter<V>(m: Message<V>, f: Failure, dlqTopic: string): Message<V> {
    Message(dlqTopic, m.key, m.value, m.headers + Provenance(m.topic, f))
  }

  /** What the replay tool republishes; None when the source topic is missing and it skips. */
  function ReplayOf<V>(d: Message<V>): Option<Message<V>> {
    var source := HeaderValue(d.headers, SOURCE_TOPIC);
    if source == "" then None else Some(Message(source, d.key, d.value, Stripped(d.headers)))
  }

  // ---------------------------------------------------------------- lemmas

  lemma {:induction false} StrippedConcat(a: seq<Header>, b: seq<Header>)
    ensures Stripped(a + b) == Stripped(a) + Stripped(b)
  {
    if a == [] {
      assert a + b == b;
    } else {
      assert (a + b)[1..] == a[1..] + b;
      StrippedConcat(a[1..], b);
    }
  }

  lemma {:induction false} StrippedShorter(headers: seq<Header>)
    ensures |Stripped(headers)| <= |headers|
  {
    if headers != [] {
      StrippedShorter(headers[1..]);
    }
  }

  lemma {:induction false} StrippedIdentity(headers: seq<Header>)
    ensures Stripped(headers) == headers <==> NoDlqHeaders(headers)
  {
    if headers != [] {
      var head, tail := headers[0], headers[1..];
      assert headers == [head] + tail;
      StrippedIdentity(tail);
      StrippedShorter(tail);
      if IsDlqHeader(head.key) {
        assert |Stripped(headers)| < |headers|;
        assert head in headers;
      } else {
        assert Stripped(headers) == [head] + Stripped(tail);
        assert Stripped(headers)[1..] == Stripped(tail);
        assert NoDlqHeaders(headers) <==> NoDlqHeaders(tail) by {
          assert forall h :: h in headers <==> h == head || h in tail;
        }
      }
    }
  }

  lemma StrippedProvenance(topic: string, f: Failure)
    ensures Stripped(Provenance(topic, f)) == []
  {
    var p := Provenance(topic, f);
    assert Stripped(p[3..]) == [];
    assert p[2..][1..] == p[3..];
    assert p[1..][1..] == p[2..];
    assert Stripped(p[2..]) == [];
    assert Stripped(p[1..]) == [];
  }

  lemma {:induction false} FirstHeaderWins(a: seq<Header>, b: seq<Header>, key: string)
    requires forall h <- a :: h.key != key
    ensures HeaderValue(a + b, key) == HeaderValue(b, key)
  {
    if a == [] {
      assert a + b == b;
    } else {
      assert (a + b)[1..] == a[1..] + b;
      FirstHeaderWins(a[1..], b, key);
    }
  }

  /** The value read is that of the first header with this key, and "" if there is none. */
  lemma {:induction false} HeaderValueIs(headers: seq<Header>, key: string)
    ensures (forall h <- headers :: h.key != key) ==> HeaderValue(headers, key) == ""
    ensures forall i | 0 <= i < |headers| && headers[i].key == key && forall j | 0 <= j < i :: headers[j].key != key ::
              HeaderValue(headers, key) == headers[i].value
  {
    if headers != [] {
      assert headers[0] in headers;
      HeaderValueIs(headers[1..], key);
      forall i | 0 <= i < |headers| && headers[i].key == key && forall j | 0 <= j < i :: headers[j].key != key
        ensures HeaderValue(headers, key) == headers[i].value
      {
        if i > 0 {
          assert headers[0].key != key;
          assert headers[1..][i - 1] == headers[i];
          assert forall j | 0 <= j < i - 1 :: headers[1..][j] == headers[j + 1];
        }
      }
    }
  }

  /** The event ID is the number in the first header of that name. */
  lemma {:induction false} EventIdIs(headers: seq<Header>)
    ensures EventId(headers) == ParseInt(HeaderValue(headers, "X-Event-ID"), INT64_MAX).value
  {
    if headers != [] {
      EventIdIs(headers[1..]);
    }
  }

  /** Stripping leaves, in order, exactly the headers without one of the four names. */
  lemma {:induction false} StrippedPicks(headers: seq<Header>) returns (at: seq<nat>)
    ensures Picked(headers, Stripped(headers), at)
    ensures forall i: nat | i < |headers| :: i in at <==>
              headers[i].key !in ["X-DLQ-Source-Topic", "X-DLQ-Source-Partition", "X-DLQ-Source-Offset", "X-DLQ-Error"]
  {
    if headers == [] {
      return [];
    }
    var tail := StrippedPicks(headers[1..]);
    var keep := !IsDlqHeader(headers[0].key);
    assert headers == [headers[0]] + headers[1..];
    at := PickedCons(headers[0], headers[1..], Stripped(headers[1..]), tail, keep);
    forall i: nat | i < |headers|
      ensures i in at <==>
        headers[i].key !in ["X-DLQ-Source-Topic", "X-DLQ-Source-Partition", "X-DLQ-Source-Offset", "X-DLQ-Error"]
    {
      if i > 0 {
        assert headers[1..][i - 1] == headers[i];
      }
    }
  }

  /** A dead letter is the message, in the dead-letter topic, with where it came from and why
      it failed after its own headers. */
  lemma DeadLetterIs<V>(m: Message<V>, f: Failure, dlqTopic: string)
    ensures var d := DeadLetter(m, f, dlqTopic);
            && d.topic == dlqTopic && d.key == m.key && d.value == m.value && |d.headers| == |m.headers| + 4
            && d.headers[..|m.headers|] == m.headers
            && d.headers[|m.headers|] == Header("X-DLQ-Source-Topic", m.topic)
            && d.headers[|m.headers| + 1] == Header("X-DLQ-Source-Partition", FormatInt(f.partition))
            && d.headers[|m.headers| + 2] == Header("X-DLQ-Source-Offset", FormatInt(f.offset))
            && d.headers[|m.headers| + 3] == Header("X-DLQ-Error", f.reason)
  {
  }

  /** One trip through the dead-letter topic gives the message back unchanged exactly when it
      carried no DLQ header of its own and has a topic. */
  lemma ReplayUndoesDeadLetter<V>(m: Message<V>, f: Failure, dlqTopic: string)
    ensures ReplayOf(DeadLetter(m, f, dlqTopic)) == Some(m) <==> NoDlqHeaders(m.headers) && m.topic != ""
  {
    StrippedConcat(m.headers, Provenance(m.topic, f));
    StrippedProvenance(m.topic, f);
    StrippedIdentity(m.headers);
    StrippedIdentity(m.headers + Provenance(m.topic, f));
    assert Stripped(m.headers) + [] == Stripped(m.headers);
    if NoDlqHeaders(m.headers) {
      FirstHeaderWins(m.headers, Provenance(m.topic, f), SOURCE_TOPIC);
    }
  }

  /** Any number of failures and replays, one after the other. */
  function Cycles<V>(m: Message<V>, failures: seq<Failure>, dlqTopic: string): Option<Message<V>>
    decreases |failures|
  {
    if failures == [] then Some(m)
    else
      var back := ReplayOf(DeadLetter(m, failures[0], dlqTopic));
      if back.None? then None else Cycles(back.value, failures[1..], dlqTopic)
  }

  lemma {:induction false} CyclesAreIdentity<V>(m: Message<V>, failures: seq<Failure>, dlqTopic: string)
    requires NoDlqHeaders(m.headers) && m.topic != ""
    ensures Cycles(m, failures, dlqTopic) == Some(m)
  {
    if failures != [] {
      ReplayUndoesDeadLetter(m, failures[0], dlqTopic);
      CyclesAreIdentity(m, failures[1..], dlqTopic);
    }
  }

  lemma {:induction false} EventIdOfStripped(headers: seq<Header>)
    ensures EventId(Stripped(headers)) == EventId(headers)
  {
    if headers != [] {
      EventIdOfStripped(headers[1..]);
      if IsDlqHeader(headers[0].key) {
        assert Stripped(headers) == Stripped(headers[1..]);
      } else {
        assert Stripped(headers)[1..] == Stripped(headers[1..]);
      }
    }
  }

  lemma {:induction false} EventIdOfConcat(a: seq<Header>, b: seq<Header>)
    requires forall h <- b :: h.key != EVENT_ID_HEADER
    ensures EventId(a + b) == EventId(a)
  {
    if a == [] {
      assert a + b == b;
      if b != [] {
        EventIdOfConcat([], b[1..]);
        assert [] + b[1..] == b[1..];
      }
    } else {
      assert (a + b)[1..] == a[1..] + b;
      EventIdOfConcat(a[1..], b);
    }
  }

  /** The event ID survives dead-lettering and replay, whatever other headers there are. */
  lemma EventIdSurvives<V>(m: Message<V>, f: Failure, dlqTopic: string)
    ensures var d := DeadLetter(m, f, dlqTopic);
            && EventId(d.headers) == EventId(m.headers)
            && (ReplayOf(d).Some? ==> EventId(ReplayOf(d).value.headers) == EventId(m.headers))
  {
    EventIdOfConcat(m.headers, Provenance(m.topic, f));
    EventIdOfStripped(DeadLetter(m, f, dlqTopic).headers);
  }

  // ------------------------------------------------------------------ code

  /** `headerValue`: the loop returns the first match. */
  method FindHeader(headers: seq<Header>, key: string) returns (v: string)
    ensures v == HeaderValue(headers, key)
  {
    for i := 0 to |headers|
      invariant HeaderValue(headers, key) == HeaderValue(headers[i..], key)
    {
      if headers[i].key == key {
        return headers[i].value;
      }
    }
    return "";
  }

  /** `stripDLQHeaders` */
  method StripDlqHeaders(headers: seq<Header>) returns (result: seq<Header>)
    ensures result == Stripped(headers)
  {
    result := [];
    for i := 0 to |headers|
      invariant Stripped(headers) == result + Stripped(headers[i..])
    {
      StripStep(result, headers, i);
      if !IsDlqHeader(headers[i].key) {
        result := result + [headers[i]];
      }
    }
  }

  lemma StripStep(result: seq<Header>, headers: seq<Header>, i: nat)
    requires i < |headers|
    ensures result + Stripped(headers[i..])
         == (if IsDlqHeader(headers[i].key) then result else result + [headers[i]]) + Stripped(headers[i + 1..])
  {
    assert headers[i..][1..] == headers[i + 1..];
    if IsDlqHeader(headers[i].key) {
      assert Stripped(headers[i..]) == Stripped(headers[i + 1..]);
    }
  }

  class Writer<V> {
    const topic: string
    var written: seq<Message<V>>

    constructor (topic: string)
      ensures this.topic == topic && written == []
    {
      this.topic := topic;
      written := [];
    }

    /** `dlq.Write`: a write error is logged and swallowed. */
    method WriteDeadLetter(m: Message<V>, f: Failure, writeFails: bool)
      modifies this
      ensures written == old(written) + if writeFails then [] else [DeadLetter(m, f, topic)]
    {
      var headers := m.headers;
      headers := headers + [Header(SOURCE_TOPIC, m.topic),
                            Header(SOURCE_PARTITION, FormatInt(f.partition)),
                            Header(SOURCE_OFFSET, FormatInt(f.offset)),
                            Header(ERROR, f.reason)];
      if !writeFails {
        written := written + [Message(topic, m.key, m.value, headers)];
      }
    }
  }

  /** What the broker answers during one turn of the replay loop. */
  datatype Answer = Answer(writeFails: bool, commitFails: bool)
  datatype ReplayTurn = FetchError | Turn(answer: Answer)

  /** What a letter replays to, if it names its topic, and the answers of the turn that
      fetched it. */
  datatype Handling<V> = Handling(replay: Option<Message<V>>, answer: Answer)

  /** The letters are handled in order, each by the next turn that fetches. */
  function HandledBy<V>(letters: seq<Message<V>>, turns: seq<ReplayTurn>): (handled: seq<Handling<V>>)
    ensures |handled| <= |letters|
  {
    if turns == [] then []
    else
      var front, last := HandledBy(letters, turns[..|turns| - 1]), turns[|turns| - 1];
      if last.FetchError? || |front| == |letters| then front
      else front + [Handling(ReplayOf(letters[|front|]), last.answer)]
  }

  /** What one turn republishes of its letter. */
  function ReplayedIn<V>(h: Handling<V>): seq<Message<V>> {
    if h.replay.Some? && !h.answer.writeFails then [h.replay.value] else []
  }

  /** Whether a turn commits its letter: one that is skipped, or whose write went through. */
  predicate Commits<V>(h: Handling<V>) {
    (h.replay.None? || !h.answer.writeFails) && !h.answer.commitFails
  }

  /** The letter has a source topic, and its write failed. */
  predicate Fails<V>(h: Handling<V>) {
    h.replay.Some? && h.answer.writeFails
  }

  /** Everything republished, turn by turn. */
  function Republished<V>(handled: seq<Handling<V>>): seq<Message<V>> {
    if handled == [] then []
    else Republished(handled[..|handled| - 1]) + ReplayedIn(handled[|handled| - 1])
  }

  /** How many letters the last commit that went through covers. */
  function Covered<V>(handled: seq<Handling<V>>): (n: nat)
    ensures n <= |handled|
  {
    if handled == [] then 0
    else if Commits(handled[|handled| - 1]) then |handled|
    else Covered(handled[..|handled| - 1])
  }

  /** Everything there is to republish. */
  function Replays<V>(handled: seq<Handling<V>>): seq<Message<V>> {
    if handled == [] then []
    else
      var last := handled[|handled| - 1].replay;
      Replays(handled[..|handled| - 1]) + if last.Some? then [last.value] else []
  }

  lemma OneMoreTurn<V>(handled: seq<Handling<V>>, h: Handling<V>)
    ensures Republished(handled + [h]) == Republished(handled) + ReplayedIn(h)
    ensures Covered(handled + [h]) == if Commits(h) then |handled| + 1 else Covered(handled)
  {
    assert (handled + [h])[..|handled|] == handled;
  }

  lemma {:induction false} RepublishedConcat<V>(a: seq<Handling<V>>, b: seq<Handling<V>>)
    ensures Republished(a + b) == Republished(a) + Republished(b)
  {
    if b == [] {
      assert a + b == a;
    } else {
      var front, last := b[..|b| - 1], [b[|b| - 1]];
      assert b == front + last;
      calc {
        Republished(a + b);
      ==  { Reassociate(a, front, last); }
        Republished((a + front) + last);
      ==  { OneMoreTurn(a + front, b[|b| - 1]); }
        Republished(a + front) + ReplayedIn(b[|b| - 1]);
      ==  { RepublishedConcat(a, front); }
        (Republished(a) + Republished(front)) + ReplayedIn(b[|b| - 1]);
      ==  { Reassociate(Republished(a), Republished(front), ReplayedIn(b[|b| - 1])); }
        Republished(a) + (Republished(front) + ReplayedIn(b[|b| - 1]));
      ==  { OneMoreTurn(front, b[|b| - 1]); }
        Republished(a) + Republished(b);
      }
    }
  }

  /** A letter is republished in its own turn, exactly when its write does not fail. */
  lemma RepublishedInTurn<V>(before: seq<Handling<V>>, h: Handling<V>, after: seq<Handling<V>>)
    ensures Republished(before + [h] + after) == Republished(before) + ReplayedIn(h) + Republished(after)
    ensures ReplayedIn(h) == (if h.replay.Some? && !h.answer.writeFails then [h.replay.value] else [])
  {
    RepublishedConcat(before + [h], after);
    OneMoreTurn(before, h);
  }

  lemma {:induction false} RepublishedAtMost<V>(handled: seq<Handling<V>>)
    ensures |Republished(handled)| <= |Replays(handled)|
    ensures |Republished(handled)| == |Replays(handled)| ==> Republished(handled) == Replays(handled)
  {
    if handled != [] {
      RepublishedAtMost(handled[..|handled| - 1]);
    }
  }

  /** All letters with a source topic are republished exactly when no such write failed. */
  lemma {:induction false} AllRepublishedIff<V>(handled: seq<Handling<V>>)
    ensures Republished(handled) == Replays(handled) <==> forall h <- handled :: !Fails(h)
  {
    if handled != [] {
      var k := |handled| - 1;
      var before, last := handled[..k], handled[k];
      assert handled == before + [last];
      AllRepublishedIff(before);
      RepublishedAtMost(before);
      if Fails(last) {
        assert |Republished(handled)| < |Replays(handled)|;
        assert last in handled;
      } else if Republished(handled) == Replays(handled) {
        assert |Republished(before)| == |Replays(before)|;
      }
    }
  }

  /** The letters the tool's committed offset covers have all been republished if and only if
      no write failed among them: the loop announces a retry, but only fetches the next one. */
  lemma CoveredAreRepublishedIff<V>(handled: seq<Handling<V>>)
    ensures var covered := handled[..Covered(handled)];
            Republished(covered) == Replays(covered) <==> forall h <- covered :: !Fails(h)
  {
    AllRepublishedIff(handled[..Covered(handled)]);
  }

  lemma {:induction false} CoversCommit<V>(handled: seq<Handling<V>>, j: nat)
    requires j < |handled| && Commits(handled[j])
    ensures Covered(handled) > j
  {
    if j < |handled| - 1 {
      CoversCommit(handled[..|handled| - 1], j);
    }
  }

  /** Wherever a write fails and a later letter is committed, the first is covered and lost. */
  lemma FailedReplayIsPassed<V>(handled: seq<Handling<V>>, i: nat, j: nat)
    requires i < j < |handled| && Fails(handled[i]) && Commits(handled[j])
    ensures i < Covered(handled)
    ensures var covered := handled[..Covered(handled)]; |Republished(covered)| < |Replays(covered)|
  {
    CoversCommit(handled, j);
    var covered := handled[..Covered(handled)];
    assert covered[i] in covered;
    AllRepublishedIff(covered);
    RepublishedAtMost(covered);
  }

  /** Two letters are enough: the first write fails, the second goes through; both are
      committed, and only the second is ever republished. */
  lemma TwoLettersOneLost<V>(a: Message<V>, b: Message<V>)
    requires ReplayOf(a).Some? && ReplayOf(b).Some?
    ensures var handled := [Handling(ReplayOf(a), Answer(true, false)), Handling(ReplayOf(b), Answer(false, false))];
            Covered(handled) == 2 && Republished(handled) == [ReplayOf(b).value]
  {
    var first, second := Handling(ReplayOf(a), Answer(true, false)), Handling(ReplayOf(b), Answer(false, false));
    OneMoreTurn([], first);
    OneMoreTurn([first], second);
    assert [] + [first] == [first] && [first] + [second] == [first, second];
  }

  class ReplayTool<V(==)> {
    const log: seq<Message<V>>      // the dead-letter topic
    var committed: nat           // the tool's committed offset
    var republished: seq<Message<V>>

    constructor (log: seq<Message<V>>, committed: nat)
      requires committed <= |log|
      ensures this.log == log && this.committed == committed && republished == []
    {
      this.log, this.committed, this.republished := log, committed, [];
    }

    /** The loop of `main`, for as many turns as the process lives. */
    method Run(turns: seq<ReplayTurn>) returns (replayed: nat)
      requires committed <= |log|
      modifies this
      ensures var handled := HandledBy(log[old(committed)..], turns);
              && republished == old(republished) + Republished(handled)
              && committed == old(committed) + Covered(handled)
              && replayed == |Republished(handled)|
    {
      replayed := 0;
      var position := committed;
      ghost var letters, handled := log[committed..], [];
      for i := 0 to |turns|
        invariant handled == HandledBy(letters, turns[..i]) && position == old(committed) + |handled| <= |log|
        invariant Did(handled, old(republished), old(committed), replayed)
      {
        HandledStep(letters, turns, i);
        if turns[i].FetchError? || position == |log| {
          continue;
        }
        replayed := TakeTurn(handled, old(republished), old(committed), replayed, turns[i].answer, position);
        handled := handled + [Handling(ReplayOf(log[position]), turns[i].answer)];
        position := position + 1;
      }
      assert turns[..|turns|] == turns;
    }

    ghost predicate Did(handled: seq<Handling<V>>, before: seq<Message<V>>, base: nat, replayed: nat)
      reads this
    {
      && republished == before + Republished(handled)
      && committed == base + Covered(handled)
      && replayed == |Republished(handled)|
    }

    method TakeTurn(ghost handled: seq<Handling<V>>, ghost before: seq<Message<V>>, ghost base: nat,
                    replayed: nat, answer: Answer, position: nat) returns (total: nat)
      requires Did(handled, before, base, replayed) && position == base + |handled| < |log|
      modifies this
      ensures Did(handled + [Handling(ReplayOf(log[position]), answer)], before, base, total)
    {
      OneMoreTurn(handled, Handling(ReplayOf(log[position]), answer));
      var replays := Handle(log[position], position, answer);
      total := if replays then replayed + 1 else replayed;
    }

    /** One turn with the letter it fetched. */
    method Handle(msg: Message<V>, offset: nat, answer: Answer) returns (replays: bool)
      modifies this
      ensures republished == old(republished) + ReplayedIn(Handling(ReplayOf(msg), answer))
      ensures committed == if Commits(Handling(ReplayOf(msg), answer)) then offset + 1 else old(committed)
      ensures replays <==> ReplayedIn(Handling(ReplayOf(msg), answer)) != []
    {
      var source := FindHeader(msg.headers, SOURCE_TOPIC);
      if source == "" {
        if !answer.commitFails {
          committed := offset + 1;
        }
        return false;
      }
      var headers := StripDlqHeaders(msg.headers);
      if answer.writeFails {
        return false;
      }
      republished := republished + [Message(source, msg.key, msg.value, headers)];
      if !answer.commitFails {
        committed := offset + 1;
      }
      replays := true;
    }
  }

  lemma HandledStep<V>(letters: seq<Message<V>>, turns: seq<ReplayTurn>, i: nat)
    requires i < |turns|
    ensures var front, more := HandledBy(letters, turns[..i]), HandledBy(letters, turns[..i + 1]);
            if turns[i].FetchError? || |front| == |letters| then more == front
            else more == front + [Handling(ReplayOf(letters[|front|]), turns[i].answer)]
  {
    assert turns[..i + 1][..i] == turns[..i];
  }
}
