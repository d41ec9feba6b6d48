/** The SSE hub: a registry of bounded channels behind a read-write lock, one publisher that
    never blocks, subscribers that come, read and go. */
module Hub {
  import opened Sequences
  import opened Wrappers

  const CAPACITY := 8

  /** A publication put before a channel, and how much its reader had taken by then. */
  datatype Offer<N> = Offer(n: N, taken: nat)

  /** A channel made by `Subscribe`. `user`, `since`, `until`, `received` and `offers` only
      record what happened: who subscribed, which stretch of the publications that covers,
      what was read, and what was put before the channel. */
  datatype Chan<N> = Chan(user: string, open: bool, buf: seq<N>,
                          since: nat, until: nat, received: seq<N>, offers: seq<Offer<N>>)

  /** The publisher inside `fanOutLocal`, holding the read lock, with channels still to do. */
  datatype Sending<N> = Sending(user: string, n: N, rest: seq<nat>)

  /** Channels are handles into `chans`; `published` logs the calls of `fanOutLocal`. */
  datatype State<N> = State(subs: map<string, seq<nat>>, chans: seq<Chan<N>>,
                            published: seq<(string, N)>, sending: Option<Sending<N>>, panicked: bool)

  datatype Step<N> = Subscribe(user: string) | Unsubscribe(leaver: string, ch: nat)
                   | Begin(to: string, n: N) | Offering | Finish
                   | Receive(from: nat)

  function Init<N>(): State<N> {
    State(map[], [], [], None, false)
  }

  /** The list without its first occurrence of `ch`. */
  function Without(l: seq<nat>, ch: nat): seq<nat> {
    if l == [] then [] else if l[0] == ch then l[1..] else [l[0]] + Without(l[1..], ch)
  }

  /** Subscribing and unsubscribing take the write lock, so not while a publication is
      under way; reading a channel takes no lock. A panic ends the process. */
  predicate Enabled<N>(s: State<N>, step: Step<N>) {
    && !s.panicked
    && match step
       case Subscribe(_) => s.sending.None?
       case Unsubscribe(_, ch) => s.sending.None? && ch < |s.chans|
       case Begin(_, _) => s.sending.None?
       case Offering => s.sending.Some? && s.sending.value.rest != [] && s.sending.value.rest[0] < |s.chans|
       case Finish => s.sending.Some? && s.sending.value.rest == []
       case Receive(ch) => ch < |s.chans| && s.chans[ch].buf != []
  }

  function Offered<N>(c: Chan<N>, n: N): Chan<N> {
    var logged := c.(offers := c.offers + [Offer(n, |c.received|)]);
    if |c.buf| < CAPACITY then logged.(buf := c.buf + [n]) else logged
  }

  function Closed<N>(c: Chan<N>, now: nat): Chan<N> {
    c.(open := false, until := now)
  }

  function Apply<N>(s: State<N>, step: Step<N>): State<N>
    requires Enabled(s, step)
  {
    match step
    case Subscribe(user) =>
      s.(subs := s.subs[user := ListOf(s.subs, user) + [|s.chans|]],
         chans := s.chans + [Chan(user, true, [], |s.published|, 0, [], [])])
    case Unsubscribe(user, ch) =>
      var list := ListOf(s.subs, user);
      var left := if ch in list then s.(subs := s.subs[user := Without(list, ch)]) else s;
      // closing a closed channel panics
      if s.chans[ch].open then left.(chans := s.chans[ch := Closed(s.chans[ch], |s.published|)])
      else left.(panicked := true)
    case Begin(user, n) =>
      s.(published := s.published + [(user, n)], sending := Some(Sending(user, n, ListOf(s.subs, user))))
    case Offering =>
      var p := s.sending.value;
      var ch := p.rest[0];
      // sending on a closed channel panics
      if s.chans[ch].open then s.(chans := s.chans[ch := Offered(s.chans[ch], p.n)],
                                 sending := Some(p.(rest := p.rest[1..])))
      else s.(panicked := true)
    case Finish => s.(sending := None)
    case Receive(ch) =>
      var c := s.chans[ch];
      s.(chans := s.chans[ch := c.(buf := c.buf[1..], received := c.received + [c.buf[0]])])
  }

  ghost predicate Runs<N>(s: State<N>, steps: seq<Step<N>>, end: State<N>)
    decreases |steps|
  {
    if steps == [] then s == end
    else Enabled(s, steps[0]) && Runs(Apply(s, steps[0]), steps[1..], end)
  }

  // ------------------------------------------------------- what is delivered

  function Names<N>(offers: seq<Offer<N>>): seq<N> {
    if offers == [] then [] else Names(offers[..|offers| - 1]) + [offers[|offers| - 1].n]
  }

  /** The offers that are kept: each one that finds fewer than eight kept ones not yet taken. */
  function Kept<N>(offers: seq<Offer<N>>): seq<N> {
    if offers == [] then []
    else
      var front, last := Kept(offers[..|offers| - 1]), offers[|offers| - 1];
      if |front| - last.taken < CAPACITY then front + [last.n] else front
  }

  /** A user's publications, in order. */
  function PubsOf<N>(log: seq<(string, N)>, user: string): seq<N> {
    if log == [] then []
    else PubsOf(log[..|log| - 1], user) + if log[|log| - 1].0 == user then [log[|log| - 1].1] else []
  }

  function End<N>(s: State<N>, ch: nat): nat
    requires ch < |s.chans|
  {
    if s.chans[ch].open then |s.published| else s.chans[ch].until
  }

  /** The publication still on its way to this channel. */
  function Coming<N>(s: State<N>, ch: nat): seq<N> {
    if s.sending.Some? && ch in s.sending.value.rest then [s.sending.value.n] else []
  }

  /** A channel holds, read or not, the kept part of what it was offered, and was offered its
      user's publications from when it subscribed to when it left. */
  ghost predicate Delivers<N>(s: State<N>, ch: nat)
    requires ch < |s.chans|
  {
    var c := s.chans[ch];
    && |c.buf| <= CAPACITY
    && c.received + c.buf == Kept(c.offers)
    && (forall o <- c.offers :: o.taken <= |c.received|)
    && c.since <= End(s, ch) <= |s.published|
    && Names(c.offers) + Coming(s, ch) == PubsOf(s.published[c.since..End(s, ch)], c.user)
  }

  /** A user's list holds no channel twice, and exactly the open channels of the user. */
  ghost predicate Registered<N>(s: State<N>, user: string) {
    && Distinct(ListOf(s.subs, user))
    && forall ch: nat :: ch in ListOf(s.subs, user) <==> ch < |s.chans| && s.chans[ch].open && s.chans[ch].user == user
  }

  ghost predicate SendsOn<N>(s: State<N>) {
    s.sending.Some? ==>
      var p := s.sending.value;
      var l := ListOf(s.subs, p.user);
      && |p.rest| <= |l| && p.rest == l[|l| - |p.rest|..]
      && s.published != [] && s.published[|s.published| - 1] == (p.user, p.n)
  }

  ghost predicate Inv<N>(s: State<N>) {
    && !s.panicked
    && (forall user :: Registered(s, user))
    && (forall ch: nat | ch < |s.chans| :: Delivers(s, ch))
    && SendsOn(s)
  }

  /** The handler's habit: each channel is given back once, under the name it was got. */
  ghost predicate Disciplined<N>(s: State<N>, step: Step<N>) {
    step.Unsubscribe? && step.ch < |s.chans| ==> s.chans[step.ch].open && s.chans[step.ch].user == step.leaver
  }

  ghost predicate DisciplinedRun<N>(s: State<N>, steps: seq<Step<N>>)
    decreases |steps|
  {
    steps != [] && Enabled(s, steps[0]) ==> Disciplined(s, steps[0]) && DisciplinedRun(Apply(s, steps[0]), steps[1..])
  }

  // ------------------------------------------------------------------- steps

  lemma {:induction false} WithoutIs(l: seq<nat>, ch: nat)
    requires Distinct(l)
    ensures Distinct(Without(l, ch))
    ensures forall x: nat :: x in Without(l, ch) <==> x in l && x != ch
  {
    if l != [] {
      assert l == [l[0]] + l[1..];
      assert forall x: nat :: x in l <==> x == l[0] || x in l[1..];
      assert l[0] !in l[1..];
      WithoutIs(l[1..], ch);
    }
  }

  lemma OneMoreDistinct(l: seq<nat>, ch: nat)
    requires Distinct(l) && ch !in l
    ensures Distinct(l + [ch])
  {
    assert forall i | 0 <= i < |l| :: l[i] in l;
  }

  lemma SubscribeKeeps<N>(s: State<N>, user: string)
    requires Inv(s) && s.sending.None?
    ensures Inv(Apply(s, Subscribe(user)))
  {
    var s' := Apply(s, Subscribe(user));
    forall u ensures Registered(s', u) {
      assert Registered(s, u);
      if u == user {
        OneMoreDistinct(ListOf(s.subs, u), |s.chans|);
      }
    }
    forall ch: nat | ch < |s'.chans| ensures Delivers(s', ch) {
      if ch < |s.chans| {
        assert Delivers(s, ch);
      }
    }
  }

  lemma UnsubscribeKeeps<N>(s: State<N>, user: string, ch: nat)
    requires Inv(s) && s.sending.None? && ch < |s.chans|
    requires s.chans[ch].open && s.chans[ch].user == user
    ensures Inv(Apply(s, Unsubscribe(user, ch)))
  {
    var s' := Apply(s, Unsubscribe(user, ch));
    assert Registered(s, user);
    forall u ensures Registered(s', u) {
      assert Registered(s, u);
      if u == user {
        WithoutIs(s.subs[user], ch);
      }
    }
    forall c: nat | c < |s'.chans| ensures Delivers(s', c) {
      assert Delivers(s, c);
    }
  }

  lemma BeginKeeps<N>(s: State<N>, user: string, n: N)
    requires Inv(s) && s.sending.None?
    ensures Inv(Apply(s, Begin(user, n)))
  {
    var s' := Apply(s, Begin(user, n));
    forall u ensures Registered(s', u) {
      assert Registered(s, u);
    }
    forall ch: nat | ch < |s'.chans| ensures Delivers(s', ch) {
      assert Delivers(s, ch);
      assert Registered(s, user);
      BeginDelivers(s, user, n, ch);
    }
  }

  lemma BeginDelivers<N>(s: State<N>, user: string, n: N, ch: nat)
    requires !s.panicked && s.sending.None? && ch < |s.chans| && Delivers(s, ch) && Registered(s, user)
    ensures Delivers(Apply(s, Begin(user, n)), ch)
  {
    var s', c := Apply(s, Begin(user, n)), s.chans[ch];
    var later := s'.published[c.since..End(s', ch)];
    assert Coming(s, ch) == [];
    if c.open {
      assert later == s.published[c.since..End(s, ch)] + [(user, n)];
      assert later[..|later| - 1] == s.published[c.since..End(s, ch)];
      assert Coming(s', ch) == if c.user == user then [n] else [];
    } else {
      assert later == s.published[c.since..c.until];
      assert Coming(s', ch) == [];
    }
  }

  lemma OfferingKeeps<N>(s: State<N>)
    requires Inv(s) && s.sending.Some? && s.sending.value.rest != []
    ensures Enabled(s, Offering) && Inv(Apply(s, Offering))
  {
    var p := s.sending.value;
    var l, ch := ListOf(s.subs, p.user), p.rest[0];
    assert Registered(s, p.user);
    assert l[|l| - |p.rest|] == ch && ch in l;
    var s' := Apply(s, Offering);
    forall u ensures Registered(s', u) {
      assert Registered(s, u);
    }
    assert ch !in p.rest[1..];
    forall c: nat | c < |s'.chans| ensures Delivers(s', c) {
      assert Delivers(s, c);
      OfferingDelivers(s, c);
    }
  }

  lemma OfferingDelivers<N>(s: State<N>, c: nat)
    requires Enabled(s, Offering) && c < |s.chans| && Delivers(s, c)
    requires var rest := s.sending.value.rest; s.chans[rest[0]].open && rest[0] !in rest[1..]
    ensures Delivers(Apply(s, Offering), c)
  {
    var s', p := Apply(s, Offering), s.sending.value;
    if c == p.rest[0] {
      OfferedOne(s.chans[c], p.n);
      assert Coming(s, c) == [p.n] && Coming(s', c) == [];
    } else {
      assert p.rest == [p.rest[0]] + p.rest[1..];
      assert Coming(s, c) == Coming(s', c);
    }
  }

  lemma OfferedOne<N>(c: Chan<N>, n: N)
    requires |c.buf| <= CAPACITY && c.received + c.buf == Kept(c.offers)
             && forall o <- c.offers :: o.taken <= |c.received|
    ensures var c' := Offered(c, n);
            && |c'.buf| <= CAPACITY && c'.received + c'.buf == Kept(c'.offers)
            && (forall o <- c'.offers :: o.taken <= |c'.received|) && Names(c'.offers) == Names(c.offers) + [n]
  {
    var kept, last := Kept(c.offers), Offer(n, |c.received|);
    assert |kept| - |c.received| == |c.buf|;
    OneMoreOffer(c.offers, last);
    if |c.buf| < CAPACITY {
      assert c.received + (c.buf + [n]) == kept + [n];
    }
  }

  lemma OneMoreOffer<N>(offers: seq<Offer<N>>, last: Offer<N>)
    ensures Names(offers + [last]) == Names(offers) + [last.n]
    ensures Kept(offers + [last])
         == if |Kept(offers)| - last.taken < CAPACITY then Kept(offers) + [last.n] else Kept(offers)
  {
    assert (offers + [last])[..|offers|] == offers;
  }

  lemma ReceiveKeeps<N>(s: State<N>, ch: nat)
    requires Inv(s) && ch < |s.chans| && s.chans[ch].buf != []
    ensures Inv(Apply(s, Receive(ch)))
  {
    var s' := Apply(s, Receive(ch));
    forall u ensures Registered(s', u) {
      assert Registered(s, u);
    }
    forall c: nat | c < |s'.chans| ensures Delivers(s', c) {
      assert Delivers(s, c);
      ReceiveDelivers(s, ch, c);
    }
  }

  lemma TakeOne<N>(received: seq<N>, buf: seq<N>)
    requires buf != []
    ensures (received + [buf[0]]) + buf[1..] == received + buf
  {
  }

  lemma ReceiveDelivers<N>(s: State<N>, ch: nat, c: nat)
    requires Enabled(s, Receive(ch)) && c < |s.chans| && Delivers(s, c)
    ensures Delivers(Apply(s, Receive(ch)), c)
  {
    var s', a := Apply(s, Receive(ch)), s.chans[c];
    var b := s'.chans[c];
    assert b.offers == a.offers && b.since == a.since && b.user == a.user;
    assert End(s', c) == End(s, c) && Coming(s', c) == Coming(s, c);
    if c == ch {
      TakeOne(a.received, a.buf);
    }
  }

  lemma FinishKeeps<N>(s: State<N>)
    requires Inv(s) && Enabled(s, Finish)
    ensures Inv(Apply(s, Finish))
  {
    var s' := Apply(s, Finish);
    forall u ensures Registered(s', u) {
      assert Registered(s, u);
    }
    forall ch: nat | ch < |s'.chans| ensures Delivers(s', ch) {
      assert Delivers(s, ch);
      FinishDelivers(s, ch);
    }
  }

  lemma FinishDelivers<N>(s: State<N>, ch: nat)
    requires Enabled(s, Finish) && ch < |s.chans| && Delivers(s, ch)
    ensures Delivers(Apply(s, Finish), ch)
  {
    var s' := Apply(s, Finish);
    assert s'.chans[ch] == s.chans[ch] && s'.published == s.published && End(s', ch) == End(s, ch);
    assert Coming(s', ch) == Coming(s, ch);
  }

  /** Every step of a disciplined client or of the publisher keeps the hub's invariant; in
      particular none panics. */
  lemma StepKeepsInv<N>(s: State<N>, step: Step<N>)
    requires Inv(s) && Enabled(s, step) && Disciplined(s, step)
    ensures Inv(Apply(s, step))
  {
    match step
    case Subscribe(user) => SubscribeKeeps(s, user);
    case Unsubscribe(user, ch) => UnsubscribeKeeps(s, user, ch);
    case Begin(user, n) => BeginKeeps(s, user, n);
    case Offering => OfferingKeeps(s);
    case Finish => FinishKeeps(s);
    case Receive(ch) => ReceiveKeeps(s, ch);
  }

  lemma {:induction false} RunKeepsInv<N>(s: State<N>, steps: seq<Step<N>>, end: State<N>)
    requires Inv(s) && Runs(s, steps, end) && DisciplinedRun(s, steps)
    ensures Inv(end)
    decreases |steps|
  {
    if steps != [] {
      StepKeepsInv(s, steps[0]);
      RunKeepsInv(Apply(s, steps[0]), steps[1..], end);
    }
  }

  /** Giving a channel back keeps the hub sound if and only if it is still open and is given
      back under the user who subscribed; otherwise the process panics, or keeps a closed
      channel registered. */
  lemma UnsubscribeKeepsInvIff<N>(s: State<N>, user: string, ch: nat)
    requires Inv(s) && s.sending.None? && ch < |s.chans|
    ensures Inv(Apply(s, Unsubscribe(user, ch))) <==> s.chans[ch].open && s.chans[ch].user == user
  {
    var owner, s' := s.chans[ch].user, Apply(s, Unsubscribe(user, ch));
    if s.chans[ch].open {
      if owner == user {
        UnsubscribeKeeps(s, user, ch);
      } else {
        assert Registered(s, owner);
        assert ch in ListOf(s'.subs, owner) && !s'.chans[ch].open;
        assert !Registered(s', owner);
      }
    }
  }

  // ------------------------------------------------------ what the steps do

  /** All channels but this one are as before. */
  ghost predicate OthersStay<N>(s: State<N>, s': State<N>, ch: nat) {
    |s'.chans| == |s.chans| && forall c: nat | c < |s.chans| && c != ch :: s'.chans[c] == s.chans[c]
  }

  /** The next channel gets the notification if fewer than eight wait in it, and otherwise
      keeps what it has; nothing else changes. */
  lemma OfferingDoes<N>(s: State<N>)
    requires Inv(s) && s.sending.Some? && s.sending.value.rest != []
    ensures Enabled(s, Offering)
    ensures var s', p := Apply(s, Offering), s.sending.value;
            var ch := p.rest[0];
            && OthersStay(s, s', ch) && s'.subs == s.subs && s'.published == s.published
            && s'.sending == Some(Sending(p.user, p.n, p.rest[1..]))
            && var a, b := s.chans[ch], s'.chans[ch];
               && b.buf == (if |a.buf| < 8 then a.buf + [p.n] else a.buf)
               && b.offers == a.offers + [Offer(p.n, |a.received|)]
               && b.received == a.received && b.user == a.user && b.open && b.since == a.since
  {
    OfferingKeeps(s);
  }

  /** A reader takes the oldest one waiting, and nothing else changes. */
  lemma ReceiveDoes<N>(s: State<N>, ch: nat)
    requires Enabled(s, Receive(ch))
    ensures var s' := Apply(s, Receive(ch));
            && OthersStay(s, s', ch)
            && s'.subs == s.subs && s'.published == s.published && s'.sending == s.sending
            && var a, b := s.chans[ch], s'.chans[ch];
               && b.received == a.received + [a.buf[0]] && b.buf == a.buf[1..]
               && b.offers == a.offers && b.user == a.user && b.open == a.open && b.since == a.since
  {
  }

  /** Coming adds an empty open channel to the user's list; leaving closes the channel, takes
      its first place in that list, and lets what waits in it be read. */
  lemma ComeAndGoDo<N>(s: State<N>, user: string, ch: nat)
    requires !s.panicked && s.sending.None? && ch < |s.chans| && s.chans[ch].open
    ensures var s' := Apply(s, Subscribe(user));
            && s'.chans == s.chans + [Chan(user, true, [], |s.published|, 0, [], [])]
            && s'.published == s.published && s'.sending == s.sending
            && ListOf(s'.subs, user) == ListOf(s.subs, user) + [|s.chans|]
            && forall u | u != user :: ListOf(s'.subs, u) == ListOf(s.subs, u)
    ensures var s' := Apply(s, Unsubscribe(user, ch));
            && OthersStay(s, s', ch) && !s'.panicked
            && s'.published == s.published && s'.sending == s.sending
            && (forall u | u != user :: ListOf(s'.subs, u) == ListOf(s.subs, u))
            && (forall i: nat | i < |ListOf(s.subs, user)| && ListOf(s.subs, user)[i] == ch
                                && ch !in ListOf(s.subs, user)[..i] ::
                  ListOf(s'.subs, user) == ListOf(s.subs, user)[..i] + ListOf(s.subs, user)[i + 1..])
            && var a, b := s.chans[ch], s'.chans[ch];
               !b.open && b.until == |s.published| && b.buf == a.buf && b.received == a.received && b.offers == a.offers
  {
    var list := ListOf(s.subs, user);
    forall i: nat | i < |list| && list[i] == ch && ch !in list[..i]
      ensures Without(list, ch) == list[..i] + list[i + 1..]
    {
      WithoutAt(list, ch, i);
    }
  }

  /** The publisher logs the publication and turns to the user's channels. */
  lemma BeginDoes<N>(s: State<N>, user: string, n: N)
    requires Enabled(s, Begin(user, n))
    ensures var s' := Apply(s, Begin(user, n));
            && s'.published == s.published + [(user, n)] && s'.subs == s.subs && s'.chans == s.chans
            && s'.sending == Some(Sending(user, n, ListOf(s.subs, user)))
  {
  }

  // ------------------------------------------------------------ main results

  /** Of these rising positions, `k` lie before `i`. */
  ghost predicate Before(at: seq<nat>, i: nat, k: nat) {
    k <= |at| && (k > 0 ==> at[k - 1] < i) && (k < |at| ==> i <= at[k])
  }

  /** These places of the offers are kept, in order. */
  ghost predicate PicksOffers<N>(offers: seq<Offer<N>>, at: seq<nat>, kept: seq<N>) {
    && Rising(at) && |at| == |kept|
    && forall j | 0 <= j < |at| :: at[j] < |offers| && kept[j] == offers[at[j]].n
  }

  /** An offer is kept exactly when, of those kept before it, fewer than eight had not yet been
      taken. */
  ghost predicate KeptUnlessFull<N>(offers: seq<Offer<N>>, at: seq<nat>) {
    forall i: nat, k: nat | i < |offers| && Before(at, i, k) :: i in at <==> k - offers[i].taken < 8
  }

  lemma RisingSnoc(at: seq<nat>, n: nat)
    requires Rising(at) && forall j | 0 <= j < |at| :: at[j] < n
    ensures Rising(at + [n])
  {
  }

  lemma PicksSnoc<N>(offers: seq<Offer<N>>, last: Offer<N>, at: seq<nat>, kept: seq<N>)
    requires PicksOffers(offers, at, kept)
    ensures PicksOffers(offers + [last], at, kept)
    ensures PicksOffers(offers + [last], at + [|offers|], kept + [last.n])
  {
    RisingSnoc(at, |offers|);
  }

  lemma FullSnoc<N>(offers: seq<Offer<N>>, last: Offer<N>, at: seq<nat>)
    requires KeptUnlessFull(offers, at) && forall j | 0 <= j < |at| :: at[j] < |offers|
    ensures KeptUnlessFull(offers + [last], if |at| - last.taken < 8 then at + [|offers|] else at)
  {
    var keep := |at| - last.taken < 8;
    var more, longer := if keep then at + [|offers|] else at, offers + [last];
    assert forall j | 0 <= j < |at| :: more[j] == at[j];
    assert keep ==> more[|at|] == |offers|;
    forall i: nat, k: nat | i < |longer| && Before(more, i, k) ensures i in more <==> k - longer[i].taken < 8 {
      if i < |offers| {
        assert k <= |at|;
        assert Before(at, i, k) && longer[i] == offers[i] && (i in more <==> i in at);
      } else {
        assert k == |at|;
        assert i in more <==> keep;
      }
    }
  }

  /** Each offer that finds fewer than eight kept ones not yet taken is kept, and no other. */
  lemma {:induction false} KeptAre<N>(offers: seq<Offer<N>>) returns (at: seq<nat>)
    ensures PicksOffers(offers, at, Kept(offers)) && KeptUnlessFull(offers, at)
  {
    at := [];
    if offers != [] {
      var front, last := offers[..|offers| - 1], offers[|offers| - 1];
      assert offers == front + [last];
      at := KeptAre(front);
      PicksSnoc(front, last, at, Kept(front));
      FullSnoc(front, last, at);
      if |at| - last.taken < 8 {
        at := at + [|front|];
      }
    }
  }

  /** These places of the log are the user's, and hold these notifications. */
  ghost predicate PicksOf<N>(log: seq<(string, N)>, user: string, at: seq<nat>, pubs: seq<N>) {
    && Rising(at) && |at| == |pubs|
    && (forall j | 0 <= j < |at| :: at[j] < |log| && pubs[j] == log[at[j]].1)
    && forall i: nat | i < |log| :: i in at <==> log[i].0 == user
  }

  lemma PubsSnoc<N>(log: seq<(string, N)>, last: (string, N), user: string, at: seq<nat>, pubs: seq<N>)
    requires PicksOf(log, user, at, pubs)
    ensures last.0 != user ==> PicksOf(log + [last], user, at, pubs)
    ensures last.0 == user ==> PicksOf(log + [last], user, at + [|log|], pubs + [last.1])
  {
    RisingSnoc(at, |log|);
    var longer := log + [last];
    forall i: nat | i < |longer| && i in at ensures i < |log| {
      var j :| 0 <= j < |at| && at[j] == i;
    }
  }

  /** `PubsOf` is every publication to the user, in order. */
  lemma {:induction false} PubsAre<N>(log: seq<(string, N)>, user: string) returns (at: seq<nat>)
    ensures PicksOf(log, user, at, PubsOf(log, user))
  {
    at := [];
    if log != [] {
      var front, last := log[..|log| - 1], log[|log| - 1];
      assert log == front + [last];
      at := PubsAre(front, user);
      PubsSnoc(front, last, user, at, PubsOf(front, user));
      assert PubsOf(front, user) + [] == PubsOf(front, user);
      if last.0 == user {
        at := at + [|front|];
      }
    }
  }

  lemma {:induction false} KeptIsSubseq<N>(offers: seq<Offer<N>>)
    ensures Subseq(Kept(offers), Names(offers))
  {
    if offers != [] {
      var front := offers[..|offers| - 1];
      KeptIsSubseq(front);
      var n := offers[|offers| - 1].n;
      SubseqRefl([n]);
      SubseqConcat(Kept(front), Names(front), [n], [n]);
      SubseqConcat(Kept(front), Names(front), [], [n]);
      assert Kept(front) + [] == Kept(front);
    }
  }

  /** In every run of disciplined clients and the publisher: nothing panics; and each channel
      has been sent its own user's publications between subscribing and leaving, less the one
      now on its way, of which it holds or has handed over, in order, those that found fewer
      than eight waiting. */
  lemma HubDelivers<N>(steps: seq<Step<N>>, s: State<N>, ch: nat)
    requires Runs(Init(), steps, s) && DisciplinedRun(Init<N>(), steps) && ch < |s.chans|
    ensures !s.panicked && s.chans[ch].since <= End(s, ch) <= |s.published|
    ensures var c := s.chans[ch];
            var pubs := PubsOf(s.published[c.since..End(s, ch)], c.user);
            && Names(c.offers) + Coming(s, ch) == pubs
            && c.received + c.buf == Kept(c.offers)
            && Subseq(c.received + c.buf, pubs)
            && (exists at :: PicksOffers(c.offers, at, c.received + c.buf) && KeptUnlessFull(c.offers, at))
            && exists at :: PicksOf(s.published[c.since..End(s, ch)], c.user, at, pubs)
  {
    RunKeepsInv(Init(), steps, s);
    assert Delivers(s, ch);
    var c := s.chans[ch];
    KeptIsSubseq(c.offers);
    SubseqConcat(Kept(c.offers), Names(c.offers), [], Coming(s, ch));
    assert Kept(c.offers) + [] == Kept(c.offers);
    var _ := KeptAre(c.offers);
    var _ := PubsAre(s.published[c.since..End(s, ch)], c.user);
  }

  /** Registered channels are open and distinct in every run, so the publisher never sends on
      a closed one. */
  lemma RegisteredStayOpen<N>(steps: seq<Step<N>>, s: State<N>, user: string)
    requires Runs(Init(), steps, s) && DisciplinedRun(Init<N>(), steps)
    ensures Distinct(ListOf(s.subs, user))
    ensures forall ch: nat ::
              ch in ListOf(s.subs, user) <==> ch < |s.chans| && s.chans[ch].open && s.chans[ch].user == user
    ensures s.sending.Some? ==> forall ch <- s.sending.value.rest :: ch < |s.chans| && s.chans[ch].open
  {
    RunKeepsInv(Init(), steps, s);
    assert Registered(s, user);
    if s.sending.Some? {
      assert Registered(s, s.sending.value.user);
    }
  }

  lemma {:induction false} KeptBound<N>(offers: seq<Offer<N>>)
    ensures |Kept(offers)| <= |offers|
  {
    if offers != [] {
      KeptBound(offers[..|offers| - 1]);
    }
  }

  /** A reader misses nothing if and only if it was never eight publications behind. */
  lemma {:induction false} NothingDroppedIff<N>(offers: seq<Offer<N>>)
    ensures Kept(offers) == Names(offers) <==> forall i | 0 <= i < |offers| :: i - offers[i].taken < 8
  {
    NamesLength(offers);
    if offers != [] {
      var k := |offers| - 1;
      var front := offers[..k];
      NothingDroppedIff(front);
      NamesLength(front);
      KeptBound(front);
      if Kept(front) == Names(front) {
        assert forall i | 0 <= i < k :: front[i] == offers[i];
      } else {
        var i :| 0 <= i < k && !(i - front[i].taken < CAPACITY);
        assert offers[i] == front[i];
        if |Kept(offers)| == k + 1 {
          assert Kept(offers)[..k] == Kept(front);
          assert Names(offers)[..k] == Names(front);
        }
      }
    }
  }

  lemma {:induction false} NamesLength<N>(offers: seq<Offer<N>>)
    ensures |Names(offers)| == |offers| && forall i | 0 <= i < |offers| :: Names(offers)[i] == offers[i].n
  {
    if offers != [] {
      var front := offers[..|offers| - 1];
      NamesLength(front);
      assert forall i | 0 <= i < |front| :: offers[i] == front[i];
    }
  }

  // -------------------------------------------------------------------- code

  lemma {:induction false} RunsConcat<N>(s: State<N>, a: seq<Step<N>>, mid: State<N>, b: seq<Step<N>>, end: State<N>)
    requires Runs(s, a, mid) && Runs(mid, b, end)
    ensures Runs(s, a + b, end)
    decreases |a|
  {
    if a == [] {
      assert a + b == b;
    } else {
      RunsConcat(Apply(s, a[0]), a[1..], mid, b, end);
      assert (a + b)[1..] == a[1..] + b;
    }
  }

  lemma {:induction false} DisciplinedConcat<N>(s: State<N>, a: seq<Step<N>>, mid: State<N>, b: seq<Step<N>>)
    requires Runs(s, a, mid) && DisciplinedRun(s, a) && DisciplinedRun(mid, b)
    ensures DisciplinedRun(s, a + b)
    decreases |a|
  {
    if a == [] {
      assert a + b == b;
    } else {
      DisciplinedConcat(Apply(s, a[0]), a[1..], mid, b);
      assert (a + b)[1..] == a[1..] + b;
    }
  }

  /** The hub in memory. The channels' records and the log are kept beside the code. */
  class SseHub<N(==)> {
    var subs: map<string, seq<nat>>
    var chans: seq<Chan<N>>
    var published: seq<(string, N)>
    var sending: Option<Sending<N>>
    ghost var trace: seq<Step<N>>

    ghost function View(): State<N>
      reads this
    {
      State(subs, chans, published, sending, false)
    }

    /** Reached by a disciplined run from the start. */
    ghost predicate Valid()
      reads this
    {
      Runs(Init(), trace, View()) && DisciplinedRun(Init<N>(), trace)
    }

    constructor ()
      ensures Valid() && View() == Init() && trace == []
    {
      subs, chans, published, sending, trace := map[], [], [], None, [];
    }

    ghost method Log(before: State<N>, step: Step<N>)
      requires Runs(Init(), trace, before) && DisciplinedRun(Init<N>(), trace)
      requires Enabled(before, step) && Disciplined(before, step) && View() == Apply(before, step)
      modifies this`trace
      ensures Valid() && trace == old(trace) + [step]
    {
      assert [step][1..] == [];
      RunsConcat(Init(), trace, before, [step], View());
      DisciplinedConcat(Init(), trace, before, [step]);
      trace := trace + [step];
    }

    method Subscribe(user: string) returns (ch: nat)
      requires Valid() && sending.None?
      modifies this
      ensures Valid() && View() == Apply(old(View()), Step.Subscribe(user))
      ensures ch == |old(chans)|
    {
      ghost var before := View();
      ch := |chans|;
      chans := chans + [Chan(user, true, [], |published|, 0, [], [])];
      subs := subs[user := ListOf(subs, user) + [ch]];
      Log(before, Step.Subscribe(user));
    }

    method Unsubscribe(user: string, ch: nat)
      requires sending.None? && ch < |chans| && chans[ch].open
      modifies this
      ensures View() == Apply(old(View()), Step.Unsubscribe(user, ch))
      ensures old(Valid() && chans[ch].user == user) ==> Valid()
    {
      ghost var before := View();
      var list := ListOf(subs, user);
      for i := 0 to |list|
        invariant ch !in list[..i] && View() == before
      {
        if list[i] == ch {
          WithoutAt(list, ch, i);
          subs := subs[user := list[..i] + list[i + 1..]];
          break;
        }
      }
      chans := chans[ch := Closed(chans[ch], |published|)];
      if Runs(Init(), trace, before) && DisciplinedRun(Init<N>(), trace)
         && Disciplined(before, Step<N>.Unsubscribe(user, ch))
      {
        Log(before, Step.Unsubscribe(user, ch));
      }
    }

    /** A reader takes one element. */
    method Receive(ch: nat) returns (n: N)
      requires Valid() && ch < |chans| && chans[ch].buf != []
      modifies this
      ensures Valid() && View() == Apply(old(View()), Step.Receive(ch)) && trace == old(trace) + [Step.Receive(ch)]
      ensures n == old(chans[ch].buf[0])
    {
      ghost var before := View();
      var c := chans[ch];
      n := c.buf[0];
      chans := chans[ch := c.(buf := c.buf[1..], received := c.received + [n])];
      Log(before, Step.Receive(ch));
    }

    /** The readers that come by between two sends. */
    method Readers(readers: seq<nat>)
      requires Valid()
      modifies this
      ensures Valid() && subs == old(subs) && sending == old(sending)
              && published == old(published) && |chans| == |old(chans)|
      ensures old(trace) <= trace && forall step <- trace[|old(trace)|..] :: step.Receive?
    {
      for i := 0 to |readers|
        invariant Valid() && subs == old(subs) && sending == old(sending)
                  && published == old(published) && |chans| == |old(chans)|
        invariant old(trace) <= trace && forall step <- trace[|old(trace)|..] :: step.Receive?
      {
        if readers[i] < |chans| && chans[readers[i]].buf != [] {
          var _ := Receive(readers[i]);
        }
      }
    }

    /** Takes the read lock and looks up the user's channels. */
    method Acquire(user: string, n: N)
      requires Valid() && sending.None?
      modifies this
      ensures Valid() && trace == old(trace) + [Begin(user, n)]
      ensures subs == old(subs) && chans == old(chans) && published == old(published) + [(user, n)]
      ensures sending == Some(Sending(user, n, ListOf(subs, user)))
    {
      ghost var before := View();
      published, sending := published + [(user, n)], Some(Sending(user, n, ListOf(subs, user)));
      Log(before, Begin(user, n));
    }

    method Release()
      requires Valid() && sending.Some? && sending.value.rest == []
      modifies this
      ensures Valid() && trace == old(trace) + [Finish]
      ensures sending.None? && subs == old(subs) && chans == old(chans) && published == old(published)
    {
      ghost var before := View();
      sending := None;
      Log(before, Finish);
    }

    /** Some readers, then the next channel. */
    method OfferNext(readers: seq<nat>) returns (ghost more: seq<Step<N>>)
      requires Valid() && sending.Some? && sending.value.rest != []
      modifies this
      ensures Valid() && sending == Some(old(sending).value.(rest := old(sending).value.rest[1..]))
      ensures subs == old(subs) && |chans| == |old(chans)| && published == old(published)
      ensures trace == old(trace) + more && Publishing(more) == [Offering]
    {
      Readers(readers);
      ghost var taken := trace[|old(trace)|..];
      PublishingNone(taken);
      var ch := sending.value.rest[0];
      RegisteredStayOpen(trace, View(), sending.value.user);
      assert ch in sending.value.rest;
      SendOne(ch);
      more := taken + [Offering];
      assert more[..|taken|] == taken;
    }

    /** Offers the notification to each channel still to do. */
    method OfferAll(readers: seq<seq<nat>>) returns (ghost sent: seq<Step<N>>)
      requires Valid() && sending.Some?
      modifies this
      ensures Valid() && sending == Some(old(sending).value.(rest := []))
      ensures subs == old(subs) && |chans| == |old(chans)| && published == old(published)
      ensures trace == old(trace) + sent && Publishing(sent) == Offers(|old(sending).value.rest|)
    {
      var p := sending.value;
      var list := p.rest;
      sent := [];
      for i := 0 to |list|
        invariant Valid() && sending == Some(p.(rest := list[i..]))
        invariant subs == old(subs) && |chans| == |old(chans)| && published == old(published)
        invariant trace == old(trace) + sent && Publishing(sent) == Offers(i)
      {
        ghost var more := OfferNext(if i < |readers| then readers[i] else []);
        assert list[i..][1..] == list[i + 1..];
        OneMoreOffered(sent, more, i);
        sent := sent + more;
      }
      assert list[|list|..] == [];
    }

    /** One pass over the user's list, offering the notification to each channel in turn
        without ever waiting, while readers read. */
    method FanOutLocal(user: string, n: N, readers: seq<seq<nat>>)
      requires Valid() && sending.None?
      modifies this
      ensures Valid() && sending.None? && subs == old(subs) && |chans| == |old(chans)|
      ensures published == old(published) + [(user, n)]
      ensures old(trace) + [Begin(user, n)] <= trace
      ensures Publishing(trace[|old(trace)| + 1..]) == Offers(|ListOf(old(subs), user)|) + [Finish]
    {
      Acquire(user, n);
      ghost var sent := OfferAll(readers);
      Release();
      assert trace[|old(trace)| + 1..] == sent + [Finish];
      PublishingFinish(sent);
    }

    /** `select { case ch <- n: default: }` */
    method SendOne(ch: nat)
      requires Valid() && sending.Some? && sending.value.rest != [] && sending.value.rest[0] == ch
      requires ch < |chans| && chans[ch].open
      modifies this
      ensures Valid() && trace == old(trace) + [Offering]
      ensures View() == Apply(old(View()), Offering)
    {
      ghost var before := View();
      var c := chans[ch].(offers := chans[ch].offers + [Offer(sending.value.n, |chans[ch].received|)]);
      if |c.buf| < CAPACITY {
        c := c.(buf := c.buf + [sending.value.n]);
      }
      chans := chans[ch := c];
      sending := Some(sending.value.(rest := sending.value.rest[1..]));
      Log(before, Offering);
    }
  }

  /** The publisher offering to `k` channels. */
  function Offers<N>(k: nat): seq<Step<N>> {
    seq(k, _ => Offering)
  }

  /** The publisher's own steps among these. */
  function Publishing<N>(steps: seq<Step<N>>): seq<Step<N>> {
    if steps == [] then []
    else
      var last := steps[|steps| - 1];
      Publishing(steps[..|steps| - 1]) + if last.Receive? then [] else [last]
  }

  lemma {:induction false} PublishingNone<N>(steps: seq<Step<N>>)
    requires forall step <- steps :: step.Receive?
    ensures Publishing(steps) == []
  {
    if steps != [] {
      assert steps[|steps| - 1] in steps;
      PublishingNone(steps[..|steps| - 1]);
    }
  }

  lemma PublishingSnoc<N>(steps: seq<Step<N>>, last: Step<N>)
    ensures Publishing(steps + [last]) == Publishing(steps) + if last.Receive? then [] else [last]
  {
    assert (steps + [last])[..|steps|] == steps;
  }

  lemma {:induction false} PublishingConcat<N>(a: seq<Step<N>>, b: seq<Step<N>>)
    ensures Publishing(a + b) == Publishing(a) + Publishing(b)
  {
    if b == [] {
      assert a + b == a;
    } else {
      var front, last := b[..|b| - 1], b[|b| - 1];
      assert a + b == (a + front) + [last] && b == front + [last];
      PublishingConcat(a, front);
      PublishingSnoc(a + front, last);
      PublishingSnoc(front, last);
    }
  }

  lemma OneMoreOffered<N>(sent: seq<Step<N>>, more: seq<Step<N>>, i: nat)
    requires Publishing(sent) == Offers(i) && Publishing(more) == [Offering]
    ensures Publishing(sent + more) == Offers(i + 1)
  {
    PublishingConcat(sent, more);
    assert Offers<N>(i) + [Offering] == Offers(i + 1);
  }

  lemma PublishingFinish<N>(sent: seq<Step<N>>)
    ensures Publishing(sent + [Finish]) == Publishing(sent) + [Finish]
  {
    PublishingSnoc(sent, Finish);
  }

  lemma {:induction false} WithoutAt(l: seq<nat>, ch: nat, i: nat)
    requires i < |l| && l[i] == ch && ch !in l[..i]
    ensures l[..i] + l[i + 1..] == Without(l, ch)
  {
    if i > 0 {
      assert l[0] == l[..i][0];
      assert l[1..][..i - 1] == l[..i][1..];
      WithoutAt(l[1..], ch, i - 1);
      assert l[..i] + l[i + 1..] == [l[0]] + (l[1..][..i - 1] + l[1..][i..]);
    }
  }
}
