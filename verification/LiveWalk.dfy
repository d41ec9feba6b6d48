/** Reading a following list page by page while it changes: entries are pushed, the list is
    trimmed, and unretweets take entries out. */
module LiveWalk {
  import opened Wrappers
  import opened Sequences
  import opened Timeline
  import opened CursorWalk
  import Codec

  // ------------------------------------------------- distinct and subsequences

  lemma {:induction false} SubseqDistinct(a: seq<string>, b: seq<string>)
    requires Subseq(a, b) && Distinct(b)
    ensures Distinct(a)
  {
    if a != [] {
      assert Distinct(b[1..]);
      if a[0] == b[0] && Subseq(a[1..], b[1..]) {
        SubseqDistinct(a[1..], b[1..]);
        SubseqElements(a[1..], b[1..]);
        assert b[0] !in b[1..];
        assert a == [a[0]] + a[1..];
      } else {
        SubseqDistinct(a, b[1..]);
      }
    }
  }

  lemma {:induction false} SubseqAfter(a: seq<string>, b: seq<string>, c: string)
    requires Subseq(a, b) && c in a
    ensures c in b && Subseq(After(a, c), After(b, c))
  {
    SubseqElements(a, b);
    if a[0] == c && b[0] == c {
      assert After(a, c) == a[1..] && After(b, c) == b[1..];
      SubseqTailOf(a, b);
    } else if b[0] == c {
      SubseqAfterHead(a, b, c);
    } else {
      assert After(b, c) == After(b[1..], c);
      if a[0] == b[0] && Subseq(a[1..], b[1..]) {
        assert After(a, c) == After(a[1..], c);
        SubseqAfter(a[1..], b[1..], c);
      } else {
        SubseqAfter(a, b[1..], c);
      }
    }
  }

  lemma SubseqTailOf(a: seq<string>, b: seq<string>)
    requires Subseq(a, b) && a != []
    ensures Subseq(a[1..], b[1..])
  {
    if Subseq(a, b[1..]) {
      SubseqTail(a, b[1..]);
    }
  }

  lemma {:induction false} SubseqAfterHead(a: seq<string>, b: seq<string>, c: string)
    requires Subseq(a, b) && c in a && b[0] == c && a[0] != c
    ensures c in b && Subseq(After(a, c), After(b, c))
  {
    assert After(b, c) == b[1..] && Subseq(a, b[1..]);
    DropToAfter(a, b[1..], c);
  }

  lemma {:induction false} DropToAfter(a: seq<string>, b: seq<string>, c: string)
    requires Subseq(a, b) && c in a
    ensures Subseq(After(a, c), b)
  {
    SubseqTail(a, b);
    if a[0] == c {
      assert After(a, c) == a[1..];
    } else {
      assert After(a, c) == After(a[1..], c);
      DropToAfter(a[1..], b, c);
    }
  }

  /** A subsequence that ends in `c` stays within the part up to `c`. */
  lemma {:induction false} SubseqUpto(a: seq<string>, b: seq<string>)
    requires Subseq(a, b) && a != [] && Distinct(b)
    ensures var c := a[|a| - 1]; c in b && Subseq(a, Upto(b, c))
  {
    var c := a[|a| - 1];
    SubseqElements(a, b);
    assert Distinct(b[1..]);
    if a[0] == b[0] && Subseq(a[1..], b[1..]) {
      if |a| == 1 {
        assert Upto(b, c) == [c] && a == [c];
      } else {
        SubseqUpto(a[1..], b[1..]);
        assert c in b[1..];
        assert b[0] != c;
        assert Upto(b, c) == [b[0]] + Upto(b[1..], c);
        assert Upto(b, c)[1..] == Upto(b[1..], c);
      }
    } else {
      SubseqUpto(a, b[1..]);
      assert c in b[1..];
      assert b[0] != c;
      assert Upto(b, c) == [b[0]] + Upto(b[1..], c);
      assert Upto(b, c)[1..] == Upto(b[1..], c);
    }
  }

  // ------------------------------------------- reading while the list changes

  /** What may happen to the list between two reads, and the reads themselves. */
  datatype Event = Push(entry: string) | Trim | Remove(raw: string) | Read

  /** A client half way through the feed: the list as it is now, the cursor for the next
      page (None once the last page has come), and the entries returned so far. */
  datatype Walk = Walk(list: seq<string>, cursor: Option<string>, seen: seq<string>, pages: nat)

  function Start(list: seq<string>, limit: nat): Walk
    requires limit >= 1
  {
    var page := Page(Visible(list), None, limit);
    Walk(list, NextCursor(page, limit), page, 1)
  }

  /** One more page has come. */
  function Joined(w: Walk, page: seq<string>, limit: nat): Walk
    requires limit >= 1
  {
    w.(cursor := NextCursor(page, limit), seen := w.seen + page, pages := w.pages + 1)
  }

  function Happen(w: Walk, ev: Event, limit: nat): Walk
    requires limit >= 1
  {
    match ev
    case Push(e) => w.(list := LPush(w.list, e))
    case Trim => w.(list := LTrim(w.list, FOLLOWING_LIMIT))
    case Remove(raw) => w.(list := LRem(w.list, raw))
    case Read =>
      if w.cursor.None? then w else Joined(w, Page(Visible(w.list), w.cursor, limit), limit)
  }

  function HappenAll(w: Walk, events: seq<Event>, limit: nat): Walk
    requires limit >= 1
    decreases |events|
  {
    if events == [] then w else HappenAll(Happen(w, events[0], limit), events[1..], limit)
  }

  /** What the writes do: a push goes to the head, a trim leaves the first 800, a removal takes
      the first occurrence. */
  lemma WritesDo(w: Walk, e: string, limit: nat)
    requires limit >= 1
    ensures Happen(w, Push(e), limit) == w.(list := [e] + w.list)
    ensures Happen(w, Trim, limit) == w.(list := if |w.list| <= 800 then w.list else w.list[..800])
    ensures e !in w.list ==> Happen(w, Remove(e), limit) == w
    ensures forall i | 0 <= i < |w.list| && w.list[i] == e && e !in w.list[..i] ::
              Happen(w, Remove(e), limit).list == w.list[..i] + w.list[i + 1..]
    ensures Happen(w, Remove(e), limit) == w.(list := Happen(w, Remove(e), limit).list)
  {
    CommandsDo(w.list, e, FOLLOWING_LIMIT);
  }

  /** A read adds the page behind the cursor, and the last entry of a full page is the next. */
  lemma ReadDoes(w: Walk, limit: nat)
    requires limit >= 1
    ensures if w.cursor.None? then Happen(w, Read, limit) == w
            else Reads(w, Happen(w, Read, limit), Page(Visible(w.list), w.cursor, limit), limit)
  {
  }

  /** The page has been added, and its last entry is the cursor if it is full. */
  ghost predicate Reads(w: Walk, after: Walk, page: seq<string>, limit: nat) {
    && after.list == w.list && after.seen == w.seen + page && after.pages == w.pages + 1
    && after.cursor == (if |page| < limit || page == [] then None else Some(page[|page| - 1]))
  }

  function PushedBy(ev: Event): set<string> {
    if ev.Push? then {ev.entry} else {}
  }

  /** No read looks for an entry that was pushed since the first read. */
  ghost predicate NoCursorPushed(w: Walk, events: seq<Event>, limit: nat, pushed: set<string>)
    requires limit >= 1
    decreases |events|
  {
    events != [] ==>
      && (events[0].Read? && w.cursor.Some? ==> w.cursor.value !in pushed)
      && NoCursorPushed(Happen(w, events[0], limit), events[1..], limit, pushed + PushedBy(events[0]))
  }

  /** The list: in front what is left of the pushes since the first read, behind it what is
      left of the list of then. */
  ghost predicate Parts(list: seq<string>, front: seq<string>, back: seq<string>, pushed: set<string>) {
    list == front + back && forall e <- front :: e in pushed
  }

  lemma PushParts(list: seq<string>, front: seq<string>, back: seq<string>, pushed: set<string>, e: string)
    requires Parts(list, front, back, pushed)
    ensures Parts(LPush(list, e), [e] + front, back, pushed + {e})
  {
    Reassociate([e], front, back);
  }

  /** Trimming leaves the pushes alone unless they alone are too many. */
  lemma TrimParts(list: seq<string>, front: seq<string>, back: seq<string>, pushed: set<string>)
    returns (front': seq<string>, back': seq<string>)
    requires Parts(list, front, back, pushed)
    ensures Parts(LTrim(list, FOLLOWING_LIMIT), front', back', pushed) && back' <= back
  {
    if |list| <= FOLLOWING_LIMIT {
      return front, back;
    }
    if FOLLOWING_LIMIT <= |front| {
      front', back' := front[..FOLLOWING_LIMIT], [];
      assert list[..FOLLOWING_LIMIT] == front' + back';
    } else {
      front', back' := front, back[..FOLLOWING_LIMIT - |front|];
      assert list[..FOLLOWING_LIMIT] == front' + back';
    }
  }

  lemma {:induction false} RemovedIsSubseq(list: seq<string>, e: string)
    ensures Subseq(LRem(list, e), list)
  {
    if list != [] {
      if list[0] == e {
        SubseqRefl(list[1..]);
      } else {
        RemovedIsSubseq(list[1..], e);
        assert LRem(list, e)[1..] == LRem(list[1..], e);
      }
    }
  }

  /** LREM takes from the front if it can. */
  lemma {:induction false} LRemOfConcat(a: seq<string>, b: seq<string>, e: string)
    ensures LRem(a + b, e) == if e in a then LRem(a, e) + b else a + LRem(b, e)
  {
    if a == [] {
      assert a + b == b;
      assert a + LRem(b, e) == LRem(b, e);
    } else {
      assert (a + b)[0] == a[0] && (a + b)[1..] == a[1..] + b;
      assert a == [a[0]] + a[1..];
      LRemOfConcat(a[1..], b, e);
      if a[0] != e {
        Reassociate([a[0]], a[1..], LRem(b, e));
        Reassociate([a[0]], LRem(a[1..], e), b);
      }
    }
  }

  lemma RemoveParts(list: seq<string>, front: seq<string>, back: seq<string>, pushed: set<string>, e: string)
    returns (front': seq<string>, back': seq<string>)
    requires Parts(list, front, back, pushed)
    ensures Parts(LRem(list, e), front', back', pushed) && Subseq(back', back)
  {
    LRemOfConcat(front, back, e);
    if e in front {
      front', back' := LRem(front, e), back;
      RemovedIsSubseq(front, e);
      SubseqElements(front', front);
      SubseqRefl(back);
    } else {
      front', back' := front, LRem(back, e);
      RemovedIsSubseq(back, e);
    }
  }

  /** A cursor that was not pushed is found in the old part, and the page comes from there. */
  lemma AfterInBack(list: seq<string>, front: seq<string>, back: seq<string>, pushed: set<string>, c: string)
    requires Parts(list, front, back, pushed) && c !in pushed && c in list
    ensures c in back && After(list, c) == After(back, c)
  {
    IndexOfConcat(front, back, c);
    var i := IndexOf(back, c) + 1;
    assert (front + back)[|front| + i..] == back[i..];
  }

  ghost predicate WalkInv(w: Walk, first: seq<string>, limit: nat, pushed: set<string>) {
    && Distinct(first) && limit >= 1
    && (exists front, back :: Parts(w.list, front, back, pushed) && Subseq(back, first))
    && (w.cursor.None? ==> Subseq(w.seen, first))
    && (w.cursor.Some? ==> w.cursor.value in first && Subseq(w.seen, Upto(first, w.cursor.value)))
    && FullPages(w, limit)
  }

  /** While another page is due, every page so far held `limit` entries. */
  ghost predicate FullPages(w: Walk, limit: nat) {
    w.cursor.Some? ==> w.pages * limit == |w.seen|
  }

  lemma UptoAfter(l: seq<string>, c: string)
    requires c in l
    ensures Upto(l, c) + After(l, c) == l
  {
  }

  lemma DistinctParts(a: seq<string>, b: seq<string>)
    requires Distinct(a + b)
    ensures Distinct(a) && Distinct(b) && forall e <- b :: e !in a
  {
    assert forall i | 0 <= i < |b| :: (a + b)[|a| + i] == b[i];
    assert forall i | 0 <= i < |a| :: (a + b)[i] == a[i];
  }

  lemma IndexOfConcat(a: seq<string>, b: seq<string>, c: string)
    requires c in b && c !in a
    ensures IndexOf(a + b, c) == |a| + IndexOf(b, c)
  {
    var i := IndexOf(b, c);
    PrefixOfConcat(a, b, i);
    assert c !in a + b[..i];
    FirstIndex(a + b, |a| + i, c);
  }

  lemma PrefixOfConcat(a: seq<string>, b: seq<string>, i: nat)
    requires i < |b|
    ensures (a + b)[|a| + i] == b[i] && (a + b)[..|a| + i] == a + b[..i]
  {
  }

  /** A page taken after the cursor joins what was seen, and the part up to the new cursor grows with it. */
  lemma PageJoins(seen: seq<string>, page: seq<string>, first: seq<string>, c: string)
    requires Distinct(first) && c in first
    requires Subseq(seen, Upto(first, c)) && Subseq(page, After(first, c))
    ensures Subseq(seen + page, first)
    ensures page != [] ==> page[|page| - 1] in first && Subseq(seen + page, Upto(first, page[|page| - 1]))
  {
    var u, a := Upto(first, c), After(first, c);
    UptoAfter(first, c);
    SubseqConcat(seen, u, page, a);
    if page != [] {
      PageEndsLater(seen, page, first, u, a);
    }
  }

  lemma PageEndsLater(seen: seq<string>, page: seq<string>, first: seq<string>, u: seq<string>, a: seq<string>)
    requires Distinct(first) && first == u + a && page != [] && Subseq(seen, u) && Subseq(page, a)
    ensures var d := page[|page| - 1]; d in first && Subseq(seen + page, Upto(first, d))
  {
    var d := page[|page| - 1];
    DistinctParts(u, a);
    SubseqUpto(page, a);
    SubseqElements(page, a);
    IndexOfConcat(u, a, d);
    assert Upto(first, d) == u + Upto(a, d);
    SubseqConcat(seen, u, page, Upto(a, d));
  }

  lemma PageIsFromAfter(list: seq<string>, front: seq<string>, back: seq<string>, pushed: set<string>, c: string,
                        first: seq<string>, limit: nat)
    requires Parts(list, front, back, pushed) && Subseq(back, first) && c !in pushed && c in first
    ensures Subseq(Page(list, Some(c), limit), After(first, c))
  {
    if c in list {
      AfterInBack(list, front, back, pushed, c);
      SubseqAfter(back, first, c);
      if |After(back, c)| > limit {
        SubseqPrefix(After(back, c), After(first, c), limit);
      }
    }
  }

  /** What trimming leaves of the old part, as every LRANGE sees it. */
  lemma TrimBack(list: seq<string>, pushed: set<string>, first: seq<string>)
    returns (front: seq<string>, back: seq<string>)
    requires exists front, back :: Parts(list, front, back, pushed) && Subseq(back, first)
    ensures Parts(Visible(list), front, back, pushed) && Subseq(back, first)
  {
    var f, o :| Parts(list, f, o, pushed) && Subseq(o, first);
    front, back := TrimParts(list, f, o, pushed);
    SubseqPrefix(o, first, |back|);
    assert back == o[..|back|];
  }

  lemma VisiblePageIsFromAfter(list: seq<string>, pushed: set<string>, c: string, first: seq<string>, limit: nat)
    requires exists front, back :: Parts(list, front, back, pushed) && Subseq(back, first)
    requires c !in pushed && c in first
    ensures Subseq(Page(Visible(list), Some(c), limit), After(first, c))
  {
    var front, back := TrimBack(list, pushed, first);
    PageIsFromAfter(Visible(list), front, back, pushed, c, first, limit);
  }

  lemma ReadKeeps(w: Walk, first: seq<string>, limit: nat, pushed: set<string>)
    requires WalkInv(w, first, limit, pushed) && w.cursor.Some? && w.cursor.value !in pushed
    ensures WalkInv(Happen(w, Read, limit), first, limit, pushed)
  {
    VisiblePageIsFromAfter(w.list, pushed, w.cursor.value, first, limit);
    PageKeeps(w, Page(Visible(w.list), w.cursor, limit), first, limit, pushed);
  }

  lemma PageKeeps(w: Walk, page: seq<string>, first: seq<string>, limit: nat, pushed: set<string>)
    requires WalkInv(w, first, limit, pushed) && w.cursor.Some? && |page| <= limit
    requires Subseq(page, After(first, w.cursor.value))
    ensures WalkInv(Joined(w, page, limit), first, limit, pushed)
  {
    PageJoins(w.seen, page, first, w.cursor.value);
    FullPageCount(w, page, limit);
  }

  lemma FullPageCount(w: Walk, page: seq<string>, limit: nat)
    requires FullPages(w, limit) && w.cursor.Some? && |page| <= limit
    ensures |page| == limit ==> (w.pages + 1) * limit == |w.seen + page|
  {
    assert (w.pages + 1) * limit == w.pages * limit + limit;
  }

  lemma EventKeeps(w: Walk, ev: Event, first: seq<string>, limit: nat, pushed: set<string>)
    requires WalkInv(w, first, limit, pushed)
    requires ev.Read? && w.cursor.Some? ==> w.cursor.value !in pushed
    ensures WalkInv(Happen(w, ev, limit), first, limit, pushed + PushedBy(ev))
  {
    var front, back :| Parts(w.list, front, back, pushed) && Subseq(back, first);
    assert pushed + {} == pushed;
    match ev
    case Push(e) => PushParts(w.list, front, back, pushed, e);
    case Trim =>
      var _, _ := TrimBack(w.list, pushed, first);
    case Remove(raw) =>
      var _, back' := RemoveParts(w.list, front, back, pushed, raw);
      SubseqTrans(back', back, first);
    case Read =>
      if w.cursor.Some? {
        ReadKeeps(w, first, limit, pushed);
      }
  }

  lemma StartInv(first: seq<string>, limit: nat)
    requires Distinct(first) && limit >= 1
    ensures WalkInv(Start(first, limit), first, limit, {})
  {
    SubseqRefl(first);
    assert Parts(first, [], first, {});
    var page := Take(Visible(first), limit);
    assert page == first[..|page|];
    SubseqPrefix(first, first, |page|);
    if |page| >= limit {
      SubseqUpto(page, first);
    }
  }

  lemma {:induction false} EventsKeep(w: Walk, events: seq<Event>, first: seq<string>, limit: nat, pushed: set<string>)
    returns (all: set<string>)
    requires WalkInv(w, first, limit, pushed) && NoCursorPushed(w, events, limit, pushed)
    ensures WalkInv(HappenAll(w, events, limit), first, limit, all)
    decreases |events|
  {
    if events == [] {
      all := pushed;
    } else {
      EventKeeps(w, events[0], first, limit, pushed);
      all := EventsKeep(Happen(w, events[0], limit), events[1..], first, limit, pushed + PushedBy(events[0]));
    }
  }

  /** However pushes, trims and the single LREMs of unretweets interleave with the reads: as
      long as no read looks for an entry that was pushed meanwhile, the pages together repeat
      no entry and form a subsequence of the list as the first read found it; and while another
      page is due, all so far were full, so the walk ends. */
  lemma PagesNeverRepeat(first: seq<string>, events: seq<Event>, limit: nat)
    requires Distinct(first) && limit >= 1 && NoCursorPushed(Start(first, limit), events, limit, {})
    ensures var w := HappenAll(Start(first, limit), events, limit);
            && Distinct(w.seen) && Subseq(w.seen, first)
            && (w.cursor.Some? ==> w.pages * limit == |w.seen| <= |first|)
  {
    var w := HappenAll(Start(first, limit), events, limit);
    StartInv(first, limit);
    var _ := EventsKeep(Start(first, limit), events, first, limit, {});
    if w.cursor.Some? {
      UptoAfter(first, w.cursor.value);
      SubseqConcat(w.seen, Upto(first, w.cursor.value), [], After(first, w.cursor.value));
      assert w.seen + [] == w.seen;
    }
    SubseqDistinct(w.seen, first);
    SubseqElements(w.seen, first);
  }

  lemma {:induction false} FreshEvents(w: Walk, events: seq<Event>, first: seq<string>, limit: nat, pushed: set<string>)
    requires WalkInv(w, first, limit, pushed) && forall e <- first :: e !in pushed
    requires forall ev <- events :: ev.Push? ==> ev.entry !in first
    ensures NoCursorPushed(w, events, limit, pushed)
    decreases |events|
  {
    if events != [] {
      assert events[0] in events;
      EventKeeps(w, events[0], first, limit, pushed);
      FreshEvents(Happen(w, events[0], limit), events[1..], first, limit, pushed + PushedBy(events[0]));
    }
  }

  /** Pushes of entries that are new to the list, as fan-out makes them, never do harm. */
  lemma FreshPushesAreHarmless(first: seq<string>, events: seq<Event>, limit: nat)
    requires Distinct(first) && limit >= 1
    requires forall ev <- events :: ev.Push? ==> ev.entry !in first
    ensures NoCursorPushed(Start(first, limit), events, limit, {})
  {
    StartInv(first, limit);
    FreshEvents(Start(first, limit), events, first, limit, {});
  }

  function Removes(raws: seq<string>): seq<Event> {
    if raws == [] then [] else [Remove(raws[0])] + Removes(raws[1..])
  }

  lemma {:induction false} RemovesAre(w: Walk, raws: seq<string>, limit: nat)
    requires limit >= 1
    ensures HappenAll(w, Removes(raws), limit) == w.(list := LRemAll(w.list, raws))
    decreases |raws|
  {
    if raws != [] {
      var events := Removes(raws);
      assert events[0] == Remove(raws[0]) && events[1..] == Removes(raws[1..]);
      RemovesAre(Happen(w, events[0], limit), raws[1..], limit);
    }
  }

  /** The removals of a snapshot's matches, when there is more of the list behind it. */
  lemma {:induction false} SnapshotRemovals(snapshot: seq<string>, rest: seq<string>, prefix: string)
    ensures LRemAll(snapshot + rest, WithPrefix(snapshot, prefix)) == WithoutPrefix(snapshot, prefix) + rest
  {
    if snapshot == [] {
      assert snapshot + rest == rest == WithoutPrefix(snapshot, prefix) + rest;
    } else {
      var e, tail := snapshot[0], snapshot[1..];
      SnapshotRemovals(tail, rest, prefix);
      OneMoreInSnapshot(e, tail, prefix);
      assert snapshot == [e] + tail && snapshot + rest == [e] + (tail + rest);
      if prefix <= e {
        RemovalAhead(e, tail + rest, WithPrefix(tail, prefix));
      } else {
        WithPrefixOnly(tail, prefix);
        LRemBehind(e, tail + rest, WithPrefix(tail, prefix));
        Reassociate([e], WithoutPrefix(tail, prefix), rest);
      }
    }
  }

  lemma OneMoreInSnapshot(e: string, tail: seq<string>, prefix: string)
    ensures WithPrefix([e] + tail, prefix) == (if prefix <= e then [e] else []) + WithPrefix(tail, prefix)
    ensures prefix <= e ==> WithoutPrefix([e] + tail, prefix) == WithoutPrefix(tail, prefix)
    ensures !(prefix <= e) ==> WithPrefix([e] + tail, prefix) == WithPrefix(tail, prefix)
    ensures !(prefix <= e) ==> WithoutPrefix([e] + tail, prefix) == [e] + WithoutPrefix(tail, prefix)
  {
    assert ([e] + tail)[1..] == tail;
  }

  lemma RemovalAhead(e: string, l: seq<string>, removals: seq<string>)
    ensures LRemAll([e] + l, [e] + removals) == LRemAll(l, removals)
  {
    assert ([e] + l)[1..] == l && ([e] + removals)[1..] == removals;
  }

  /** An undisturbed unretweet, one LREM per match among the first 800, leaves, in order,
      exactly those of them that are not entries of the retweet, and all that stands behind. */
  lemma UnretweetIsRemoves(w: Walk, retweetId: string, limit: nat) returns (left: seq<string>, at: seq<nat>)
    requires limit >= 1
    ensures var seen := if |w.list| <= 800 then w.list else w.list[..800];
            && HappenAll(w, Removes(WithPrefix(seen, "R|" + retweetId + "|")), limit)
               == w.(list := left + w.list[|seen|..])
            && LostRetweet(seen, left, retweetId, at)
  {
    var prefix, seen := Codec.RetweetPrefix(retweetId), Visible(w.list);
    Codec.EntryTexts("", retweetId, "", 0);
    left := WithoutPrefix(seen, prefix);
    at := WithoutPrefixPicks(seen, prefix);
    RemovesAre(w, WithPrefix(seen, prefix), limit);
    assert seen + w.list[|seen|..] == w.list;
    SnapshotRemovals(seen, w.list[|seen|..], prefix);
  }

  // ----------------------------------------------------------- no removals

  ghost predicate PrefixInv(w: Walk, first: seq<string>, limit: nat, pushed: set<string>) {
    && limit >= 1 && w.seen <= first
    && (exists front, back :: Parts(w.list, front, back, pushed) && back <= first)
    && EndsSeen(w)
  }

  /** The cursor names the last entry seen. */
  ghost predicate EndsSeen(w: Walk) {
    w.cursor.Some? ==> w.seen != [] && w.cursor.value == w.seen[|w.seen| - 1]
  }

  lemma AfterInPrefix(s: seq<string>, first: seq<string>, n: nat)
    requires Distinct(first) && s <= first && 0 < n <= |first| && first[n - 1] in s
    ensures n <= |s| && After(s, first[n - 1]) == s[n..]
  {
    var c := first[n - 1];
    var i := IndexOf(s, c);
    assert first[i] == s[i];
  }

  lemma PrefixRead(w: Walk, first: seq<string>, limit: nat, pushed: set<string>)
    requires Distinct(first) && PrefixInv(w, first, limit, pushed)
    requires w.cursor.Some? ==> w.cursor.value !in pushed
    ensures PrefixInv(Happen(w, Read, limit), first, limit, pushed)
  {
    if w.cursor.Some? {
      PageIsNext(w, first, limit, pushed);
      PrefixGrows(w, Page(Visible(w.list), w.cursor, limit), first, limit, pushed);
    }
  }

  lemma PrefixGrows(w: Walk, page: seq<string>, first: seq<string>, limit: nat, pushed: set<string>)
    requires PrefixInv(w, first, limit, pushed) && w.seen + page <= first && |page| <= limit
    ensures PrefixInv(Joined(w, page, limit), first, limit, pushed)
  {
    if NextCursor(page, limit).Some? {
      assert (w.seen + page)[|w.seen + page| - 1] == page[|page| - 1];
    }
  }

  /** A page continues the prefix. */
  lemma PageIsNext(w: Walk, first: seq<string>, limit: nat, pushed: set<string>)
    requires Distinct(first) && PrefixInv(w, first, limit, pushed) && w.cursor.Some? && w.cursor.value !in pushed
    ensures w.seen + Page(Visible(w.list), w.cursor, limit) <= first
  {
    var l, c, n := Visible(w.list), w.cursor.value, |w.seen|;
    if c in l {
      var front, back :| Parts(w.list, front, back, pushed) && back <= first;
      var front', back' := TrimParts(w.list, front, back, pushed);
      assert first[n - 1] == c;
      AfterInBack(l, front', back', pushed, c);
      AfterInPrefix(back', first, n);
      PageExtendsPrefix(w.seen, back', first, Page(l, w.cursor, limit), limit);
    } else {
      assert w.seen + [] == w.seen;
    }
  }

  lemma PageExtendsPrefix(seen: seq<string>, s: seq<string>, first: seq<string>, page: seq<string>, limit: nat)
    requires seen <= first && s <= first && |seen| <= |s| && page == Take(s[|seen|..], limit)
    ensures seen + page <= first
  {
    var n := |seen|;
    assert page == first[n..n + |page|];
    assert seen + page == first[..n + |page|];
  }

  lemma PrefixEvent(w: Walk, ev: Event, first: seq<string>, limit: nat, pushed: set<string>)
    requires Distinct(first) && PrefixInv(w, first, limit, pushed) && !ev.Remove?
    requires ev.Read? && w.cursor.Some? ==> w.cursor.value !in pushed
    ensures PrefixInv(Happen(w, ev, limit), first, limit, pushed + PushedBy(ev))
  {
    var front, back :| Parts(w.list, front, back, pushed) && back <= first;
    assert pushed + {} == pushed;
    match ev
    case Push(e) => PushParts(w.list, front, back, pushed, e);
    case Trim =>
      var _, _ := TrimParts(w.list, front, back, pushed);
    case Read => PrefixRead(w, first, limit, pushed);
  }

  lemma {:induction false} PrefixEvents(w: Walk, events: seq<Event>, first: seq<string>, limit: nat,
                                        pushed: set<string>)
    requires Distinct(first) && PrefixInv(w, first, limit, pushed) && NoCursorPushed(w, events, limit, pushed)
    requires forall ev <- events :: !ev.Remove?
    ensures HappenAll(w, events, limit).seen <= first
    decreases |events|
  {
    if events != [] {
      assert events[0] in events;
      PrefixEvent(w, events[0], first, limit, pushed);
      PrefixEvents(Happen(w, events[0], limit), events[1..], first, limit, pushed + PushedBy(events[0]));
    }
  }

  lemma StartsPrefix(first: seq<string>, limit: nat)
    requires limit >= 1
    ensures PrefixInv(Start(first, limit), first, limit, {})
  {
    assert Parts(first, [], first, {});
    var page := Page(Visible(first), None, limit);
    assert page == first[..|page|];
  }

  /** Without removals, and with no read for an entry pushed meanwhile, the pages form a prefix
      of the list as the first read found it. */
  lemma PagesFormPrefix(first: seq<string>, events: seq<Event>, limit: nat)
    requires Distinct(first) && limit >= 1 && NoCursorPushed(Start(first, limit), events, limit, {})
    requires forall ev <- events :: !ev.Remove?
    ensures HappenAll(Start(first, limit), events, limit).seen <= first
  {
    StartsPrefix(first, limit);
    PrefixEvents(Start(first, limit), events, first, limit, {});
  }

  // ------------------------------------------ pushes in the middle of a walk

  /** At most `n` further pages behind a cursor. */
  function Resume(l: seq<string>, c: string, limit: nat, n: nat): (seq<string>, bool)
    requires limit >= 1
  {
    if c in l then WalkFrom(l, IndexOf(l, c) + 1, limit, n) else ([], n > 0)
  }

  /** Neither the entry before position `k` nor the end of any later full page, of which there
      are `kept` entries to take, is among the entries pushed. */
  predicate PageEndsNotPushed(list: seq<string>, kept: nat, front: seq<string>, k: nat, limit: nat)
    requires 1 <= k <= |list| && kept <= |list| && limit >= 1
    decreases |list| - k
  {
    list[k - 1] !in front && (k + limit <= kept ==> PageEndsNotPushed(list, kept, front, k + limit, limit))
  }

  /** The walk ends without returning anything a second time. */
  ghost predicate ResumesCleanly(l: seq<string>, c: string, limit: nat, n: nat, seen: seq<string>)
    requires limit >= 1
  {
    var (out, ended) := Resume(l, c, limit, n); ended && forall e <- out :: e !in seen
  }

  ghost predicate EventuallyClean(l: seq<string>, c: string, limit: nat, seen: seq<string>)
    requires limit >= 1
  {
    exists n: nat :: ResumesCleanly(l, c, limit, n, seen)
  }

  /** A walk that starts ahead of a position passes it, if it ends. */
  lemma {:induction false} WalkPasses(l: seq<string>, start: nat, limit: nat, n: nat, p: nat)
    requires limit >= 1 && start <= p < |l| && WalkFrom(l, start, limit, n).1
    ensures l[p] in WalkFrom(l, start, limit, n).0
    decreases n
  {
    if start + limit <= |l| {
      WalkStep(l, start, limit, n);
      if p < start + limit {
        assert l[start..start + limit][p - start] == l[p];
      } else {
        WalkPasses(l, NextStart(l, start, limit), limit, n - 1, p);
      }
    } else {
      LastPage(l, start, limit, n);
      assert l[start..][p - start] == l[p];
    }
  }

  /** The entry at `j` stands there for the first time, or ahead of position `p` too. */
  ghost predicate FirstOrAhead(l: seq<string>, p: nat, j: nat)
    requires j < |l|
  {
    IndexOf(l, l[j]) == j || IndexOf(l, l[j]) < p
  }

  ghost predicate RepeatsAhead(l: seq<string>, p: nat) {
    forall j: nat | p <= j < |l| :: FirstOrAhead(l, p, j)
  }

  /** Where an entry of the older part is found once others were pushed. */
  lemma IndexBehind(front: seq<string>, back: seq<string>, k: nat)
    requires Distinct(back) && k < |back|
    ensures var i := IndexOf(front + back, (front + back)[|front| + k]);
            if back[k] in front then i < |front| else i == |front| + k
  {
    var l, c := front + back, back[k];
    assert l[|front| + k] == c;
    if c in front {
      IndexInFront(front, back, c);
    } else {
      FirstIndex(back, k, c);
      IndexOfConcat(front, back, c);
    }
  }

  lemma IndexInFront(front: seq<string>, back: seq<string>, c: string)
    requires c in front
    ensures c in front + back && IndexOf(front + back, c) < |front|
  {
    var i :| 0 <= i < |front| && front[i] == c;
    assert (front + back)[i] == c;
    IndexAtMost(front + back, i);
  }

  lemma PushedRepeatAhead(front: seq<string>, back: seq<string>)
    requires Distinct(back)
    ensures RepeatsAhead(front + back, |front|)
  {
    var l, p := front + back, |front|;
    forall j: nat | p <= j < |l| ensures FirstOrAhead(l, p, j) {
      IndexBehind(front, back, j - p);
    }
  }

  /** From position `k` of the older part, pages end on unpushed entries only, if and only if
      each such entry stands in the list for the first time. */
  lemma {:induction false} UnpushedEndsAreFirst(front: seq<string>, back: seq<string>, k: nat, limit: nat)
    requires Distinct(back) && 1 <= k <= |back| && limit >= 1
    ensures PageEndsNotPushed(back, |back|, front, k, limit)
       <==> back[k - 1] !in front && PageEndsAreFirst(front + back, |front| + k, limit)
    decreases |back| - k
  {
    if k + limit <= |back| {
      IndexBehind(front, back, k + limit - 1);
      UnpushedEndsAreFirst(front, back, k + limit, limit);
    }
  }

  lemma StepKeepsEntries(l: seq<string>, start: nat, limit: nat, n: nat, next: nat, e: string)
    requires limit >= 1 && start + limit <= |l| && n > 0 && next == NextStart(l, start, limit)
    requires e in WalkFrom(l, next, limit, n - 1).0
    ensures e in WalkFrom(l, start, limit, n).0
  {
    WalkStep(l, start, limit, n);
  }

  lemma NextIsOnOrAhead(l: seq<string>, start: nat, limit: nat, p: nat)
    requires limit >= 1 && p <= start && start + limit <= |l| && RepeatsAhead(l, p)
    ensures var next := NextStart(l, start, limit); next == start + limit || next <= p
  {
    var j := start + limit - 1;
    assert FirstOrAhead(l, p, j);
  }

  /** A walk that is sent back ahead of position `p` passes it, if it ends. */
  lemma {:induction false} SentBackPasses(l: seq<string>, start: nat, limit: nat, n: nat, p: nat)
    requires limit >= 1 && p < |l| && p <= start <= |l| && RepeatsAhead(l, p)
    requires !PageEndsAreFirst(l, start, limit) && WalkFrom(l, start, limit, n).1
    ensures l[p] in WalkFrom(l, start, limit, n).0
    decreases n
  {
    var next := NextStart(l, start, limit);
    WalkStepLength(l, start, limit, n, next);
    NextIsOnOrAhead(l, start, limit, p);
    if next == start + limit {
      SentBackPasses(l, next, limit, n - 1, p);
    } else {
      WalkPasses(l, next, limit, n - 1, p);
    }
    StepKeepsEntries(l, start, limit, n, next, l[p]);
  }

  /** A client has read the first `k` entries of a list without repeats; then entries are
      pushed, those of a backfill, say, and the list is trimmed; and nothing more happens. The
      rest of the walk ends, and returns nothing already seen, if and only if neither the
      cursor nor the end of any later page is among the entries pushed. Otherwise it goes round
      for ever or returns the newest entry again. */
  lemma PushedMidWalkIff(list: seq<string>, front: seq<string>, k: nat, limit: nat)
    requires Distinct(list) && 1 <= k <= |list| && limit >= 1 && |front| < FOLLOWING_LIMIT
    ensures EventuallyClean(LTrim(front + list, FOLLOWING_LIMIT), list[k - 1], limit, list[..k])
       <==> PageEndsNotPushed(list, |LTrim(list, FOLLOWING_LIMIT - |front|)|, front, k, limit)
  {
    var back := LTrim(list, FOLLOWING_LIMIT - |front|);
    assert LTrim(front + list, FOLLOWING_LIMIT) == front + back;
    if k > |back| {
      CutCursor(list, back, front, k, limit);
    } else {
      SameEnds(list, back, front, k, limit);
      if PageEndsNotPushed(back, |back|, front, k, limit) {
        UnpushedEndsAreClean(list, back, front, k, limit);
      } else {
        PushedEndsAreNotClean(list, back, front, k, limit);
      }
    }
  }

  lemma UnpushedEndsAreClean(list: seq<string>, back: seq<string>, front: seq<string>, k: nat, limit: nat)
    requires Distinct(list) && 1 <= k <= |back| && back <= list && limit >= 1
    requires PageEndsNotPushed(back, |back|, front, k, limit)
    ensures EventuallyClean(front + back, list[k - 1], limit, list[..k])
  {
    var l, at := front + back, |front| + k;
    UnpushedEndsAreFirst(front, back, k, limit);
    IndexBehind(front, back, k - 1);
    assert l[at - 1] == list[k - 1];
    NotSeen(list, back, front, k);
    RunsOn(l, list[k - 1], at, limit, list[..k]);
  }

  /** From a cursor whose pages run straight on into entries not yet seen. */
  lemma RunsOn(l: seq<string>, c: string, at: nat, limit: nat, seen: seq<string>)
    requires limit >= 1 && 1 <= at <= |l| && l[at - 1] == c && IndexOf(l, c) == at - 1
    requires PageEndsAreFirst(l, at, limit) && forall e <- l[at..] :: e !in seen
    ensures EventuallyClean(l, c, limit, seen)
  {
    var n := |l| + 1;
    AlignedWalk(l, at, limit, n);
    assert ResumesCleanly(l, c, limit, n, seen);
  }

  lemma NotSeen(list: seq<string>, back: seq<string>, front: seq<string>, k: nat)
    requires Distinct(list) && k <= |back| && back <= list
    ensures forall e <- (front + back)[|front| + k..] :: e !in list[..k]
  {
    var rest := (front + back)[|front| + k..];
    assert forall i | 0 <= i < |rest| :: rest[i] == list[k + i];
  }

  /** From a cursor that stands ahead, or whose pages are sent there, the walk comes back to
      an entry seen. */
  lemma ComesBack(l: seq<string>, c: string, start: nat, p: nat, limit: nat, seen: seq<string>)
    requires limit >= 1 && p < |l| && l[p] in seen && RepeatsAhead(l, p) && c in l && start == IndexOf(l, c) + 1
    requires start <= p || !PageEndsAreFirst(l, start, limit)
    ensures !EventuallyClean(l, c, limit, seen)
  {
    forall n: nat ensures !ResumesCleanly(l, c, limit, n, seen) {
      ComesBackWithin(l, c, start, p, limit, seen, n);
    }
  }

  lemma ComesBackWithin(l: seq<string>, c: string, start: nat, p: nat, limit: nat, seen: seq<string>, n: nat)
    requires limit >= 1 && p < |l| && l[p] in seen && RepeatsAhead(l, p) && c in l && start == IndexOf(l, c) + 1
    requires start <= p || !PageEndsAreFirst(l, start, limit)
    ensures !ResumesCleanly(l, c, limit, n, seen)
  {
    var walk := WalkFrom(l, start, limit, n);
    assert Resume(l, c, limit, n) == walk;
    if walk.1 {
      if start <= p {
        WalkPasses(l, start, limit, n, p);
      } else {
        SentBackPasses(l, start, limit, n, p);
      }
    }
  }

  lemma PushedCursorIsNotClean(front: seq<string>, back: seq<string>, c: string, limit: nat, seen: seq<string>)
    requires Distinct(back) && back != [] && back[0] in seen && c in front && limit >= 1
    ensures !EventuallyClean(front + back, c, limit, seen)
  {
    var l, p := front + back, |front|;
    IndexInFront(front, back, c);
    PushedRepeatAhead(front, back);
    assert l[p] == back[0];
    ComesBack(l, c, IndexOf(l, c) + 1, p, limit, seen);
  }

  lemma PushedEndIsNotClean(front: seq<string>, back: seq<string>, k: nat, limit: nat, seen: seq<string>)
    requires Distinct(back) && 1 <= k <= |back| && back[0] in seen && limit >= 1 && back[k - 1] !in front
    requires !PageEndsAreFirst(front + back, |front| + k, limit)
    ensures !EventuallyClean(front + back, back[k - 1], limit, seen)
  {
    var l, p := front + back, |front|;
    IndexBehind(front, back, k - 1);
    PushedRepeatAhead(front, back);
    assert l[p] == back[0] && l[p + k - 1] == back[k - 1];
    ComesBack(l, back[k - 1], p + k, p, limit, seen);
  }

  lemma PushedEndsAreNotClean(list: seq<string>, back: seq<string>, front: seq<string>, k: nat, limit: nat)
    requires Distinct(list) && 1 <= k <= |back| && back <= list && limit >= 1
    requires !PageEndsNotPushed(back, |back|, front, k, limit)
    ensures !EventuallyClean(front + back, list[k - 1], limit, list[..k])
  {
    assert back[0] == list[..k][0] && back[k - 1] == list[k - 1];
    if back[k - 1] in front {
      PushedCursorIsNotClean(front, back, back[k - 1], limit, list[..k]);
    } else {
      UnpushedEndsAreFirst(front, back, k, limit);
      PushedEndIsNotClean(front, back, k, limit, list[..k]);
    }
  }

  lemma {:induction false} SameEnds(list: seq<string>, back: seq<string>, front: seq<string>, k: nat, limit: nat)
    requires 1 <= k <= |back| && back <= list && limit >= 1
    ensures PageEndsNotPushed(list, |back|, front, k, limit) <==> PageEndsNotPushed(back, |back|, front, k, limit)
    decreases |back| - k
  {
    if k + limit <= |back| {
      SameEnds(list, back, front, k + limit, limit);
    }
  }

  /** A cursor that was cut off has nothing behind it, unless it was pushed again. */
  lemma CutCursor(list: seq<string>, back: seq<string>, front: seq<string>, k: nat, limit: nat)
    requires Distinct(list) && |back| < k <= |list| && back <= list && back != [] && limit >= 1
    ensures EventuallyClean(front + back, list[k - 1], limit, list[..k])
       <==> PageEndsNotPushed(list, |back|, front, k, limit)
  {
    var l, c, seen := front + back, list[k - 1], list[..k];
    assert c !in back;
    if c in front {
      assert back[0] == seen[0];
      PushedCursorIsNotClean(front, back, c, limit, seen);
    } else {
      assert ResumesCleanly(l, c, limit, 1, seen);
    }
  }
}
