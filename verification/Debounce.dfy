/** The trailing debounce behind the like, retweet and follow buttons: one pending entry and
    one timer per scope, and at most one request per burst of clicks. */
module Debounce {
  import opened Sequences

  const DEFAULT_DELAY_MS := 400

  datatype PendingToggle = PendingToggle(timer: nat, synced: bool, intended: bool, sync: nat)

  datatype Timer = Timer(scope: string, due: nat)

  /** A call of `sync` with the final state; `sync` says which click passed that function. */
  datatype Request = Request(scope: string, state: bool, sync: nat)

  datatype Click = Click(scope: string, current: bool, intended: bool, sync: nat, delay: nat)

  datatype Event = Clicked(click: Click, at: nat) | Fired(scope: string, at: nat)

  /** Times in milliseconds. `log` only records what happened. */
  datatype State = State(now: nat, pending: map<string, PendingToggle>, timers: map<nat, Timer>, made: nat,
                         requests: seq<Request>, log: seq<Event>)

  datatype Step = ByUser(click: Click) | ByTimer(id: nat) | Tick(ms: nat)

  const INIT := State(0, map[], map[], 0, [], [])

  /** A timer may be late, never early. */
  predicate Enabled(s: State, step: Step) {
    step.ByTimer? ==> step.id in s.timers && s.timers[step.id].due <= s.now
  }

  function Toggled(s: State, c: Click): State {
    var cleared := if c.scope in s.pending then s.timers - {s.pending[c.scope].timer} else s.timers;
    var entry := if c.scope in s.pending
                 then s.pending[c.scope].(timer := s.made, intended := c.intended, sync := c.sync)
                 else PendingToggle(s.made, c.current, c.intended, c.sync);
    s.(pending := s.pending[c.scope := entry],
       timers := cleared[s.made := Timer(c.scope, s.now + c.delay)], made := s.made + 1,
       log := s.log + [Clicked(c, s.now)])
  }

  function AfterFire(s: State, scope: string): State {
    if scope !in s.pending then s
    else
      var entry := s.pending[scope];
      s.(pending := s.pending - {scope}, log := s.log + [Fired(scope, s.now)],
         requests := if entry.intended == entry.synced then s.requests
                     else s.requests + [Request(scope, entry.intended, entry.sync)])
  }

  function Apply(s: State, step: Step): State
    requires Enabled(s, step)
  {
    match step
    case ByUser(c) => Toggled(s, c)
    case ByTimer(id) => AfterFire(s.(timers := s.timers - {id}), s.timers[id].scope)
    case Tick(ms) => s.(now := s.now + ms)
  }

  ghost predicate Runs(s: State, steps: seq<Step>, end: State)
    decreases |steps|
  {
    if steps == [] then s == end
    else Enabled(s, steps[0]) && Runs(Apply(s, steps[0]), steps[1..], end)
  }

  // --------------------------------------------------- what the log calls for

  /** The clicks on a scope since its timer last went off. */
  function BurstOf(log: seq<Event>, scope: string): (b: seq<Event>)
    ensures forall e <- b :: e.Clicked? && e.click.scope == scope
  {
    if log == [] then []
    else
      var front, last := BurstOf(log[..|log| - 1], scope), log[|log| - 1];
      match last
      case Fired(other, _) => if other == scope then [] else front
      case Clicked(c, _) => if c.scope == scope then front + [last] else front
  }

  /** What a burst sends when it ends: its last intent, if that is not where it began. */
  function Outcome(burst: seq<Event>): seq<Request>
    requires forall e <- burst :: e.Clicked?
  {
    if burst == [] then []
    else
      var first, last := burst[0].click, burst[|burst| - 1].click;
      if last.intended == first.current then [] else [Request(last.scope, last.intended, last.sync)]
  }

  /** One outcome per burst that has ended. */
  function Outcomes(log: seq<Event>, scope: string): seq<Request> {
    if log == [] then []
    else
      var front, last := log[..|log| - 1], log[|log| - 1];
      Outcomes(front, scope) + if last.Fired? && last.scope == scope then Outcome(BurstOf(front, scope)) else []
  }

  function RequestsOf(requests: seq<Request>, scope: string): seq<Request> {
    if requests == [] then []
    else
      var last := requests[|requests| - 1];
      RequestsOf(requests[..|requests| - 1], scope) + if last.scope == scope then [last] else []
  }

  function LastIntent(log: seq<Event>, scope: string, initially: bool): bool {
    if log == [] then initially
    else
      var last := log[|log| - 1];
      if last.Clicked? && last.click.scope == scope then last.click.intended
      else LastIntent(log[..|log| - 1], scope, initially)
  }

  /** The state the server comes to when all requests of a scope succeed in order. */
  function Reached(requests: seq<Request>, scope: string, initially: bool): bool {
    var mine := RequestsOf(requests, scope);
    if mine == [] then initially else mine[|mine| - 1].state
  }

  /** No timer went off sooner than the delay after the last click of its burst. */
  ghost predicate Patient(log: seq<Event>) {
    forall k | 0 <= k < |log| :: PatientAt(log, k)
  }

  ghost predicate PatientAt(log: seq<Event>, k: nat)
    requires k < |log|
  {
    log[k].Fired? ==>
      var burst := BurstOf(log[..k], log[k].scope);
      burst != [] && burst[|burst| - 1].at + burst[|burst| - 1].click.delay <= log[k].at
  }

  // --------------------------------------------------------------- invariant

  /** The entry of a scope is the burst under way: where it began, where it stands, and one
      live timer set by its last click. */
  ghost predicate ScopeOk(s: State, scope: string) {
    var burst := BurstOf(s.log, scope);
    && (scope in s.pending <==> burst != [])
    && RequestsOf(s.requests, scope) == Outcomes(s.log, scope)
    && (scope in s.pending ==>
          var entry, last := s.pending[scope], burst[|burst| - 1];
          && entry.synced == burst[0].click.current && entry.intended == last.click.intended
          && entry.sync == last.click.sync
          && entry.timer in s.timers && s.timers[entry.timer] == Timer(scope, last.at + last.click.delay))
  }

  ghost predicate TimersOk(s: State) {
    forall id <- s.timers :: id < s.made && s.timers[id].scope in s.pending && s.pending[s.timers[id].scope].timer == id
  }

  ghost predicate Inv(s: State) {
    (forall scope :: ScopeOk(s, scope)) && TimersOk(s) && Patient(s.log)
  }

  lemma LogAfter(log: seq<Event>, e: Event, scope: string)
    ensures BurstOf(log + [e], scope)
         == match e
            case Clicked(click, _) =>
              if click.scope == scope then BurstOf(log, scope) + [e] else BurstOf(log, scope)
            case Fired(fired, _) => if fired == scope then [] else BurstOf(log, scope)
    ensures Outcomes(log + [e], scope)
         == if e.Fired? && e.scope == scope then Outcomes(log, scope) + Outcome(BurstOf(log, scope))
            else Outcomes(log, scope)
  {
    assert (log + [e])[..|log|] == log;
  }

  lemma RequestsAfter(requests: seq<Request>, r: Request, scope: string)
    ensures RequestsOf(requests + [r], scope)
         == if r.scope == scope then RequestsOf(requests, scope) + [r] else RequestsOf(requests, scope)
  {
    assert (requests + [r])[..|requests|] == requests;
  }

  lemma ToggledKeepsOwn(s: State, c: Click)
    requires ScopeOk(s, c.scope)
    ensures ScopeOk(Toggled(s, c), c.scope)
  {
    LogAfter(s.log, Clicked(c, s.now), c.scope);
  }

  /** The same clicks, outcomes, requests and entry. */
  ghost predicate Same(s: State, s': State, scope: string) {
    && BurstOf(s'.log, scope) == BurstOf(s.log, scope) && Outcomes(s'.log, scope) == Outcomes(s.log, scope)
    && RequestsOf(s'.requests, scope) == RequestsOf(s.requests, scope)
    && (scope in s'.pending <==> scope in s.pending)
    && (scope in s.pending ==> s'.pending[scope] == s.pending[scope])
  }

  /** The same, with its timer still there. */
  lemma SameKeeps(s: State, s': State, scope: string)
    requires ScopeOk(s, scope) && Same(s, s', scope)
    requires forall id <- s.timers :: s.timers[id].scope == scope ==> id in s'.timers && s'.timers[id] == s.timers[id]
    ensures ScopeOk(s', scope)
  {
  }

  lemma ToggledLeavesOthers(s: State, c: Click, scope: string)
    requires scope != c.scope
    ensures Same(s, Toggled(s, c), scope)
  {
    LogAfter(s.log, Clicked(c, s.now), scope);
  }

  lemma ToggledKeepsOther(s: State, c: Click, scope: string)
    requires ScopeOk(s, scope) && scope != c.scope && ScopeOk(s, c.scope) && TimersOk(s)
    ensures ScopeOk(Toggled(s, c), scope)
  {
    ToggledLeavesOthers(s, c, scope);
    SameKeeps(s, Toggled(s, c), scope);
  }

  lemma ToggledKeeps(s: State, c: Click)
    requires Inv(s)
    ensures Inv(Toggled(s, c))
  {
    var s' := Toggled(s, c);
    assert s'.log[..|s.log|] == s.log;
    forall scope ensures ScopeOk(s', scope) {
      assert ScopeOk(s, scope);
      if scope == c.scope {
        ToggledKeepsOwn(s, c);
      } else {
        assert ScopeOk(s, c.scope);
        ToggledKeepsOther(s, c, scope);
      }
    }
    forall id <- s'.timers
      ensures id < s'.made && s'.timers[id].scope in s'.pending && s'.pending[s'.timers[id].scope].timer == id
    {
      if id != s.made {
        assert id in s.timers;
      }
    }
    forall k | 0 <= k < |s'.log| ensures PatientAt(s'.log, k) {
      PatientPrefix(s.log, s'.log, k);
    }
  }

  lemma PatientPrefix(log: seq<Event>, longer: seq<Event>, k: nat)
    requires Patient(log) && |longer| == |log| + 1 && longer[..|log|] == log && k < |longer|
    ensures k < |log| ==> PatientAt(longer, k)
    ensures k == |log| && longer[k].Clicked? ==> PatientAt(longer, k)
  {
    if k < |log| {
      assert PatientAt(log, k);
      assert longer[..k] == log[..k] && longer[k] == log[k];
    }
  }

  /** What an entry that fires asks for is the outcome of its burst. */
  lemma EntryOutcome(s: State, scope: string)
    requires scope in s.pending && ScopeOk(s, scope)
    ensures var entry := s.pending[scope];
            Outcome(BurstOf(s.log, scope))
            == if entry.intended == entry.synced then [] else [Request(scope, entry.intended, entry.sync)]
  {
    var burst := BurstOf(s.log, scope);
    assert burst[|burst| - 1] in burst;
  }

  lemma FireKeepsOwn(s: State, id: nat, scope: string)
    requires Enabled(s, ByTimer(id)) && s.timers[id].scope == scope && scope in s.pending && ScopeOk(s, scope)
    ensures ScopeOk(Apply(s, ByTimer(id)), scope)
  {
    var entry := s.pending[scope];
    LogAfter(s.log, Fired(scope, s.now), scope);
    EntryOutcome(s, scope);
    if entry.intended == entry.synced {
      assert Outcomes(s.log, scope) + [] == Outcomes(s.log, scope);
    } else {
      RequestsAfter(s.requests, Request(scope, entry.intended, entry.sync), scope);
    }
  }

  /** What a timer's firing leaves alone of other scopes. */
  lemma FireLeavesOthers(s: State, id: nat, fired: string, scope: string)
    requires Enabled(s, ByTimer(id)) && s.timers[id].scope == fired && fired in s.pending && scope != fired
    ensures Same(s, Apply(s, ByTimer(id)), scope)
  {
    var entry := s.pending[fired];
    LogAfter(s.log, Fired(fired, s.now), scope);
    RequestsAfter(s.requests, Request(fired, entry.intended, entry.sync), scope);
  }

  lemma FireKeeps(s: State, id: nat)
    requires Inv(s) && Enabled(s, ByTimer(id))
    ensures Inv(Apply(s, ByTimer(id)))
  {
    var fired := s.timers[id].scope;
    var s' := Apply(s, ByTimer(id));
    assert fired in s.pending && s.pending[fired].timer == id;
    assert s'.log == s.log + [Fired(fired, s.now)] && s'.log[..|s.log|] == s.log;
    assert ScopeOk(s, fired);
    forall scope ensures ScopeOk(s', scope) {
      assert ScopeOk(s, scope);
      if scope == fired {
        FireKeepsOwn(s, id, scope);
      } else {
        FireLeavesOthers(s, id, fired, scope);
        SameKeeps(s, s', scope);
      }
    }
    forall k | 0 <= k < |s'.log| ensures PatientAt(s'.log, k) {
      PatientPrefix(s.log, s'.log, k);
    }
  }

  lemma StepKeepsInv(s: State, step: Step)
    requires Inv(s) && Enabled(s, step)
    ensures Inv(Apply(s, step))
  {
    match step
    case ByUser(c) => ToggledKeeps(s, c);
    case ByTimer(id) => FireKeeps(s, id);
    case Tick(ms) =>
      forall scope ensures ScopeOk(Apply(s, step), scope) {
        assert ScopeOk(s, scope);
      }
  }

  lemma {:induction false} RunKeepsInv(s: State, steps: seq<Step>, end: State)
    requires Inv(s) && Runs(s, steps, end)
    ensures Inv(end)
    decreases |steps|
  {
    if steps != [] {
      StepKeepsInv(s, steps[0]);
      RunKeepsInv(Apply(s, steps[0]), steps[1..], end);
    }
  }

  // ------------------------------------------------------- bursts in the log

  /** A click on the scope since its timer last went off. */
  ghost predicate InBurst(log: seq<Event>, scope: string, i: nat) {
    && i < |log| && log[i].Clicked? && log[i].click.scope == scope
    && forall k | i < k < |log| :: !(log[k].Fired? && log[k].scope == scope)
  }

  ghost predicate BeginsBurst(log: seq<Event>, scope: string, i: nat) {
    InBurst(log, scope, i) && forall k: nat | k < i :: !InBurst(log, scope, k)
  }

  ghost predicate EndsBurst(log: seq<Event>, scope: string, i: nat) {
    InBurst(log, scope, i) && forall k: nat | i < k :: !InBurst(log, scope, k)
  }

  ghost predicate BurstAt(log: seq<Event>, scope: string, burst: seq<Event>, at: seq<nat>) {
    && Picked(log, burst, at)
    && forall i: nat :: i in at <==> InBurst(log, scope, i)
  }

  lemma InBurstAfter(log: seq<Event>, e: Event, scope: string, i: nat)
    ensures i < |log| ==>
              (InBurst(log + [e], scope, i) <==> InBurst(log, scope, i) && !(e.Fired? && e.scope == scope))
    ensures i == |log| ==> (InBurst(log + [e], scope, i) <==> e.Clicked? && e.click.scope == scope)
  {
    var longer := log + [e];
    assert longer[|log|] == e && forall k | 0 <= k < |log| :: longer[k] == log[k];
  }

  lemma BurstSnoc(log: seq<Event>, e: Event, scope: string, burst: seq<Event>, at: seq<nat>)
    requires BurstAt(log, scope, burst, at)
    ensures e.Fired? && e.scope == scope ==> BurstAt(log + [e], scope, [], [])
    ensures e.Clicked? && e.click.scope == scope ==> BurstAt(log + [e], scope, burst + [e], at + [|log|])
    ensures !(e.Fired? && e.scope == scope) && !(e.Clicked? && e.click.scope == scope)
            ==> BurstAt(log + [e], scope, burst, at)
  {
    forall i: nat
      ensures i < |log| ==>
                (InBurst(log + [e], scope, i) <==> InBurst(log, scope, i) && !(e.Fired? && e.scope == scope))
      ensures i == |log| ==> (InBurst(log + [e], scope, i) <==> e.Clicked? && e.click.scope == scope)
    {
      InBurstAfter(log, e, scope, i);
    }
  }

  lemma {:induction false} BurstIs(log: seq<Event>, scope: string) returns (at: seq<nat>)
    ensures BurstAt(log, scope, BurstOf(log, scope), at)
  {
    at := [];
    if log != [] {
      var front, e := log[..|log| - 1], log[|log| - 1];
      assert log == front + [e];
      at := BurstIs(front, scope);
      BurstSnoc(front, e, scope, BurstOf(front, scope), at);
      match e {
        case Fired(other, _) => at := if other == scope then [] else at;
        case Clicked(c, _) => at := if c.scope == scope then at + [|front|] else at;
      }
    }
  }

  /** A burst under way has a first and a last click in the log. */
  lemma BurstEnds(log: seq<Event>, scope: string) returns (i: nat, j: nat)
    requires BurstOf(log, scope) != []
    ensures BeginsBurst(log, scope, i) && BurstOf(log, scope)[0] == log[i]
    ensures EndsBurst(log, scope, j) && BurstOf(log, scope)[|BurstOf(log, scope)| - 1] == log[j]
  {
    var at := BurstIs(log, scope);
    i, j := at[0], at[|at| - 1];
    assert i in at && j in at;
    forall k: nat | k in at ensures i <= k <= j {
      var p :| 0 <= p < |at| && at[p] == k;
    }
  }

  // ------------------------------------------------------------ main results

  /** In every run each scope has at most one live timer: exactly one while a burst is under
      way, none otherwise. */
  lemma OneTimerPerScope(steps: seq<Step>, s: State, scope: string)
    requires Runs(INIT, steps, s)
    ensures forall id <- s.timers, other <- s.timers ::
              s.timers[id].scope == scope && s.timers[other].scope == scope ==> id == other
    ensures BurstOf(s.log, scope) != [] <==> exists id <- s.timers :: s.timers[id].scope == scope
    ensures (exists i: nat :: InBurst(s.log, scope, i)) <==> exists id <- s.timers :: s.timers[id].scope == scope
  {
    RunKeepsInv(INIT, steps, s);
    assert ScopeOk(s, scope);
    if BurstOf(s.log, scope) != [] {
      var _, j := BurstEnds(s.log, scope);
    } else {
      var at := BurstIs(s.log, scope);
    }
  }

  ghost predicate DueAfter(timer: Timer, log: seq<Event>, j: nat) {
    EndsBurst(log, timer.scope, j) && timer.due == log[j].at + log[j].click.delay
  }

  /** The timer of a burst is due the delay of its last click after that click. */
  lemma TimerIsDue(steps: seq<Step>, s: State, id: nat)
    requires Runs(INIT, steps, s) && id in s.timers
    ensures exists j: nat :: DueAfter(s.timers[id], s.log, j)
  {
    RunKeepsInv(INIT, steps, s);
    assert ScopeOk(s, s.timers[id].scope);
    var _, j := BurstEnds(s.log, s.timers[id].scope);
    assert DueAfter(s.timers[id], s.log, j);
  }

  /** Click `i` begins the burst that ends with click `j`, which waited out its delay; what is
      sent is the last intent, by the last `sync`, unless it is the state the burst began at. */
  ghost predicate Sends(s: State, s': State, scope: string, i: nat, j: nat) {
    && BeginsBurst(s.log, scope, i) && EndsBurst(s.log, scope, j)
    && var first, last := s.log[i].click, s.log[j].click;
       && s.log[j].at + last.delay <= s.now
       && s'.requests == s.requests + (if last.intended == first.current then []
                                       else [Request(scope, last.intended, last.sync)])
  }

  /** In every run, what a timer does when it goes off: it ends the burst of its scope. */
  lemma TimerSends(steps: seq<Step>, s: State, id: nat)
    requires Runs(INIT, steps, s) && Enabled(s, ByTimer(id))
    ensures var scope, s' := s.timers[id].scope, Apply(s, ByTimer(id));
            && s'.log == s.log + [Fired(scope, s.now)] && s'.now == s.now && s'.pending == s.pending - {scope}
            && exists i: nat, j: nat :: Sends(s, s', scope, i, j)
  {
    RunKeepsInv(INIT, steps, s);
    var scope := s.timers[id].scope;
    assert ScopeOk(s, scope);
    var i, j := BurstEnds(s.log, scope);
    assert s.requests + [] == s.requests;
    assert Sends(s, Apply(s, ByTimer(id)), scope, i, j);
  }

  /** A click is logged with its time and sends nothing, and time passes. */
  lemma ClicksAndTicksSendNothing(s: State, c: Click, ms: nat)
    ensures var s' := Apply(s, ByUser(c));
            s'.log == s.log + [Clicked(c, s.now)] && s'.requests == s.requests && s'.now == s.now
    ensures var s' := Apply(s, Tick(ms));
            && s'.log == s.log && s'.requests == s.requests && s'.now == s.now + ms
            && s'.pending == s.pending && s'.timers == s.timers
  {
  }

  /** The last intent is that of the last click on the scope. */
  lemma {:induction false} LastIntentIs(log: seq<Event>, scope: string, initially: bool, j: nat)
    requires j < |log| && log[j].Clicked? && log[j].click.scope == scope
    requires forall k | j < k < |log| :: !(log[k].Clicked? && log[k].click.scope == scope)
    ensures LastIntent(log, scope, initially) == log[j].click.intended
  {
    if j < |log| - 1 {
      LastIntentIs(log[..|log| - 1], scope, initially, j);
    }
  }

  /** What the server comes to is what the last request of the scope asks for. */
  lemma {:induction false} ReachedIs(requests: seq<Request>, scope: string, initially: bool, j: nat)
    requires j < |requests| && requests[j].scope == scope
    requires forall k | j < k < |requests| :: requests[k].scope != scope
    ensures Reached(requests, scope, initially) == requests[j].state
  {
    if j < |requests| - 1 {
      var front, last := requests[..|requests| - 1], requests[|requests| - 1];
      ReachedIs(front, scope, initially, j);
      assert requests == front + [last];
      ReachedAfter(front, last, scope, initially);
    }
  }

  /** In every run the requests of a scope are the outcomes of its finished bursts: one for a
      burst that ends elsewhere than it began, carrying its last intent and its last `sync`,
      and none for one that ends where it began; and each waited out its delay. */
  lemma OneRequestPerBurst(steps: seq<Step>, s: State, scope: string)
    requires Runs(INIT, steps, s)
    ensures RequestsOf(s.requests, scope) == Outcomes(s.log, scope)
    ensures Patient(s.log)
  {
    RunKeepsInv(INIT, steps, s);
    assert ScopeOk(s, scope);
  }

  /** The caller passes, with the first click of a burst, the state the server will reach. */
  ghost predicate Honest(s: State, step: Step, scope: string, initially: bool) {
    step.ByUser? && step.click.scope == scope && scope !in s.pending ==>
      step.click.current == Reached(s.requests, scope, initially)
  }

  ghost predicate HonestRun(s: State, steps: seq<Step>, scope: string, initially: bool)
    decreases |steps|
  {
    steps != [] && Enabled(s, steps[0]) ==>
      Honest(s, steps[0], scope, initially) && HonestRun(Apply(s, steps[0]), steps[1..], scope, initially)
  }

  /** Between bursts the server is on its way to the last intent; during one, to where the
      burst began. */
  ghost predicate OnCourse(s: State, scope: string, initially: bool) {
    if scope in s.pending then
      && s.pending[scope].synced == Reached(s.requests, scope, initially)
      && s.pending[scope].intended == LastIntent(s.log, scope, initially)
    else Reached(s.requests, scope, initially) == LastIntent(s.log, scope, initially)
  }

  lemma IntentAfter(log: seq<Event>, e: Event, scope: string, initially: bool)
    ensures LastIntent(log + [e], scope, initially)
         == if e.Clicked? && e.click.scope == scope then e.click.intended else LastIntent(log, scope, initially)
  {
    assert (log + [e])[..|log|] == log;
  }

  lemma ReachedAfter(requests: seq<Request>, r: Request, scope: string, initially: bool)
    ensures Reached(requests + [r], scope, initially)
         == if r.scope == scope then r.state else Reached(requests, scope, initially)
  {
    assert (requests + [r])[..|requests|] == requests;
  }

  lemma ClickKeepsCourse(s: State, c: Click, scope: string, initially: bool)
    requires OnCourse(s, scope, initially) && Honest(s, ByUser(c), scope, initially)
    ensures OnCourse(Toggled(s, c), scope, initially)
  {
    IntentAfter(s.log, Clicked(c, s.now), scope, initially);
  }

  /** What an entry that fires adds to the requests. */
  lemma FiredRequests(s: State, fired: string, entry: PendingToggle, scope: string, initially: bool)
    requires fired in s.pending && s.pending[fired] == entry
    ensures Reached(AfterFire(s, fired).requests, scope, initially)
         == if fired == scope && entry.intended != entry.synced then entry.intended
            else Reached(s.requests, scope, initially)
  {
    ReachedAfter(s.requests, Request(fired, entry.intended, entry.sync), scope, initially);
  }

  lemma FireKeepsCourse(s: State, fired: string, scope: string, initially: bool)
    requires OnCourse(s, scope, initially)
    ensures OnCourse(AfterFire(s, fired), scope, initially)
  {
    if fired in s.pending {
      FiredRequests(s, fired, s.pending[fired], scope, initially);
      IntentAfter(s.log, Fired(fired, s.now), scope, initially);
    }
  }

  lemma StepKeepsCourse(s: State, step: Step, scope: string, initially: bool)
    requires Enabled(s, step) && OnCourse(s, scope, initially) && Honest(s, step, scope, initially)
    ensures OnCourse(Apply(s, step), scope, initially)
  {
    match step
    case ByUser(c) => ClickKeepsCourse(s, c, scope, initially);
    case ByTimer(id) => FireKeepsCourse(s.(timers := s.timers - {id}), s.timers[id].scope, scope, initially);
    case Tick(_) =>
  }

  lemma {:induction false} RunKeepsCourse(s: State, steps: seq<Step>, end: State, scope: string, initially: bool)
    requires Inv(s) && Runs(s, steps, end) && OnCourse(s, scope, initially) && HonestRun(s, steps, scope, initially)
    ensures OnCourse(end, scope, initially)
    decreases |steps|
  {
    if steps != [] {
      StepKeepsCourse(s, steps[0], scope, initially);
      StepKeepsInv(s, steps[0]);
      RunKeepsCourse(Apply(s, steps[0]), steps[1..], end, scope, initially);
    }
  }

  /** Once the bursts are over and every sync has succeeded in order, the server holds the
      user's last intent. */
  lemma ServerReachesLastIntent(steps: seq<Step>, s: State, scope: string, initially: bool)
    requires Runs(INIT, steps, s) && HonestRun(INIT, steps, scope, initially) && BurstOf(s.log, scope) == []
    ensures Reached(s.requests, scope, initially) == LastIntent(s.log, scope, initially)
  {
    RunKeepsCourse(INIT, steps, s, scope, initially);
    RunKeepsInv(INIT, steps, s);
    assert ScopeOk(s, scope);
  }

  /** Whatever the caller passed: the burst that now ends brings the server to its last intent
      if and only if it sends a request, or began at the state the server will reach. */
  lemma BurstConvergesIff(s: State, id: nat, initially: bool)
    requires Inv(s) && Enabled(s, ByTimer(id))
    ensures var scope := s.timers[id].scope;
            var burst := BurstOf(s.log, scope);
            && burst != []
            && (Reached(Apply(s, ByTimer(id)).requests, scope, initially) == LastIntent(s.log, scope, initially)
                <==> Outcome(burst) != [] || burst[0].click.current == Reached(s.requests, scope, initially))
  {
    var scope := s.timers[id].scope;
    assert ScopeOk(s, scope);
    FiredRequests(s.(timers := s.timers - {id}), scope, s.pending[scope], scope, initially);
    LastOfBurst(s.log, scope, initially);
  }

  lemma {:induction false} LastOfBurst(log: seq<Event>, scope: string, initially: bool)
    requires BurstOf(log, scope) != []
    ensures var burst := BurstOf(log, scope); burst[|burst| - 1].click.intended == LastIntent(log, scope, initially)
  {
    var last := log[|log| - 1];
    if !(last.Clicked? && last.click.scope == scope) {
      LastOfBurst(log[..|log| - 1], scope, initially);
    }
  }

  // -------------------------------------------------------------------- code

  /** The module-level `pending` map, and the event loop's timers. */
  class Toggles {
    var now: nat
    var pending: map<string, PendingToggle>
    var timers: map<nat, Timer>
    var made: nat
    var requests: seq<Request>
    ghost var log: seq<Event>

    ghost function View(): State
      reads this
    {
      State(now, pending, timers, made, requests, log)
    }

    constructor ()
      ensures View() == INIT
    {
      now, pending, timers, made, requests, log := 0, map[], map[], 0, [], [];
    }

    method SetTimeout(scope: string, delay: nat) returns (id: nat)
      modifies this`timers, this`made
      ensures id == old(made) && made == id + 1 && timers == old(timers)[id := Timer(scope, now + delay)]
    {
      id := made;
      timers := timers[id := Timer(scope, now + delay)];
      made := made + 1;
    }

    method DebouncedToggle(scope: string, currentServerState: bool, newIntendedState: bool, sync: nat, delayMs: nat)
      modifies this
      ensures View() == Toggled(old(View()), Click(scope, currentServerState, newIntendedState, sync, delayMs))
    {
      log := log + [Clicked(Click(scope, currentServerState, newIntendedState, sync, delayMs), now)];
      if scope in pending {
        var existing := pending[scope];
        timers := timers - {existing.timer};
        existing := existing.(intended := newIntendedState, sync := sync);
        var timer := SetTimeout(scope, delayMs);
        pending := pending[scope := existing.(timer := timer)];
        return;
      }
      var timer := SetTimeout(scope, delayMs);
      pending := pending[scope := PendingToggle(timer, currentServerState, newIntendedState, sync)];
    }

    method Fire(scope: string)
      modifies this
      ensures View() == AfterFire(old(View()), scope)
    {
      if scope !in pending {
        return;
      }
      var entry := pending[scope];
      pending := pending - {scope};
      log := log + [Fired(scope, now)];
      if entry.intended == entry.synced {
        return;
      }
      requests := requests + [Request(scope, entry.intended, entry.sync)];
    }

    /** The event loop runs a timer that is due. */
    method RunTimer(id: nat)
      requires id in timers && timers[id].due <= now
      modifies this
      ensures View() == Apply(old(View()), ByTimer(id))
    {
      var scope := timers[id].scope;
      timers := timers - {id};
      Fire(scope);
    }

    method Wait(ms: nat)
      modifies this
      ensures View() == Apply(old(View()), Tick(ms))
    {
      now := now + ms;
    }
  }
}
