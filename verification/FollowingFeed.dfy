/** The home timeline: the service's GetFollowingFeed (first-page cache, celebrity merge,
    cap, cursor) and the walk a client makes through it. */
module FollowingFeed {
  import opened Wrappers
  import opened Sequences
  import opened CursorWalk
  import opened Enrich

  // ----------------------------------------------------------------- merging

  /** First occurrences only, in order. */
  function Dedupe(s: seq<string>): seq<string> {
    if s == [] then []
    else
      var front := Dedupe(s[..|s| - 1]);
      if s[|s| - 1] in front then front else front + [s[|s| - 1]]
  }

  function Elements(s: seq<string>): set<string> {
    set e <- s
  }

  lemma DedupeStep(s: seq<string>, e: string)
    ensures Dedupe(s + [e]) == if e in Elements(Dedupe(s)) then Dedupe(s) else Dedupe(s) + [e]
  {
    assert (s + [e])[..|s|] == s;
  }

  /** `out` is what the loops have made of `done`, and `seen` its elements. */
  ghost predicate Merged(done: seq<string>, out: seq<string>, seen: set<string>) {
    out == Dedupe(done) && seen == Elements(out)
  }

  /** One turn of either loop. */
  method AddNew(ghost done: seq<string>, out: seq<string>, seen: set<string>, e: string)
    returns (out': seq<string>, seen': set<string>)
    requires Merged(done, out, seen)
    ensures Merged(done + [e], out', seen')
  {
    DedupeStep(done, e);
    out', seen' := out, seen;
    if e !in seen {
      out', seen' := out + [e], seen + {e};
    }
  }

  lemma TakeOneMore(s: seq<string>, i: nat)
    requires i < |s|
    ensures s[..i + 1] == s[..i] + [s[i]]
  {
  }

  /** The entries of `all`, once each, in the order in which they first stand there. */
  ghost predicate FirstsOf(out: seq<string>, all: seq<string>) {
    && Distinct(out) && (forall e :: e in out <==> e in all)
    && forall i, j | 0 <= i < j < |out| :: FirstBefore(all, out[i], out[j])
  }

  /** Some occurrence of `e` stands ahead of every one of `f`. */
  ghost predicate FirstBefore(all: seq<string>, e: string, f: string) {
    exists k | 0 <= k < |all| :: all[k] == e && f !in all[..k + 1]
  }

  lemma {:induction false} DedupeIsFirsts(s: seq<string>)
    ensures FirstsOf(Dedupe(s), s)
  {
    if s != [] {
      var k := |s| - 1;
      var before, last := s[..k], s[k];
      DedupeIsFirsts(before);
      assert s == before + [last];
      var out := Dedupe(s);
      forall i, j | 0 <= i < j < |out| ensures FirstBefore(s, out[i], out[j]) {
        if j < |Dedupe(before)| {
          FirstBeforeStays(before, last, out[i], out[j]);
        } else {
          assert out[i] in before;
          var m :| 0 <= m < |before| && before[m] == out[i];
          assert s[..m + 1] <= before && s[m] == out[i];
        }
      }
    }
  }

  lemma FirstBeforeStays(before: seq<string>, last: string, e: string, f: string)
    requires FirstBefore(before, e, f)
    ensures FirstBefore(before + [last], e, f)
  {
    var k :| 0 <= k < |before| && before[k] == e && f !in before[..k + 1];
    assert (before + [last])[k] == e && (before + [last])[..k + 1] == before[..k + 1];
  }

  /** The two loops of `mergeDedupe`. */
  method MergeDedupe(a: seq<string>, b: seq<string>) returns (out: seq<string>)
    ensures out == Dedupe(a + b) && FirstsOf(out, a + b)
  {
    DedupeIsFirsts(a + b);
    var seen: set<string> := {};
    out := [];
    for i := 0 to |a|
      invariant Merged(a[..i], out, seen)
    {
      out, seen := AddNew(a[..i], out, seen, a[i]);
      TakeOneMore(a, i);
    }
    assert a[..|a|] == a == a + b[..0];
    for j := 0 to |b|
      invariant Merged(a + b[..j], out, seen)
    {
      out, seen := AddNew(a + b[..j], out, seen, b[j]);
      TakeOneMore(b, j);
      assert a + b[..j] + [b[j]] == a + (b[..j] + [b[j]]);
    }
    assert b[..|b|] == b;
  }

  /** Merging into a list without repeats leaves it in front, and appends what is new, once each. */
  lemma {:induction false} DedupeAppends(a: seq<string>, b: seq<string>)
    requires Distinct(a)
    ensures a <= Dedupe(a + b) && Distinct(Dedupe(a + b))
    ensures forall e :: e in Dedupe(a + b) <==> e in a || e in b
    decreases |b|
  {
    if b != [] {
      var s := a + b;
      assert s[..|s| - 1] == a + b[..|b| - 1];
      DedupeAppends(a, b[..|b| - 1]);
      assert forall e :: e in b <==> e in b[..|b| - 1] || e == b[|b| - 1];
    } else {
      assert a + b == a;
      DedupeIdentity(a);
    }
  }

  lemma {:induction false} DedupeIdentity(a: seq<string>)
    requires Distinct(a)
    ensures Dedupe(a) == a
  {
    if a != [] {
      var front := a[..|a| - 1];
      DedupeIdentity(front);
      assert a == front + [a[|a| - 1]];
    }
  }

  // -------------------------------------------------------------- the service

  datatype FeedPage = FeedPage(entries: seq<string>, items: seq<FeedItem>, next: Option<string>)

  /** The entries a first page is cut from when nothing is cached. */
  function FirstPageSource(list: seq<string>, celebs: seq<string>, limit: nat): seq<string> {
    Dedupe(Page(list, None, limit) + celebs)
  }

  /** The head of the list, up to `limit` of its first 800, and the celebrity entries, each once
      where it first stands. */
  ghost predicate MergesHead(merged: seq<string>, list: seq<string>, celebs: seq<string>, limit: nat) {
    FirstsOf(merged, list[..Min(limit, Min(|list|, 800))] + celebs)
  }

  lemma HeadOfList(list: seq<string>, limit: nat)
    ensures Page(Visible(list), None, limit) == list[..Min(limit, Min(|list|, 800))]
  {
  }

  class FeedService {
    var lists: map<string, seq<string>>
    var cache: map<string, seq<string>>   // following_cache:<user>, while it has not expired
    var backend: Backend

    constructor (lists: map<string, seq<string>>, backend: Backend)
      ensures this.lists == lists && this.backend == backend && cache == map[]
    {
      this.lists, this.cache, this.backend := lists, map[], backend;
    }

    /** The first half of `GetFollowingFeed`: the entries to cut the page from. Only a cold
        first page merges the celebrity entries and fills the cache; a cached page is used at
        any limit. */
    method FetchEntries(user: string, cursor: Option<string>, limit: nat, celebs: seq<string>, redisFails: bool)
      returns (entries: Option<seq<string>>)
      modifies this`cache
      ensures entries.None? <==> redisFails && !(cursor.None? && user in old(cache))
      ensures cache == if cursor.None? && user !in old(cache) && !redisFails
                       then old(cache)[user := FirstPageSource(Visible(ListOf(lists, user)), celebs, limit)]
                       else old(cache)
      ensures entries.Some? ==> entries.value == if cursor.None? then cache[user]
                                              else Page(Visible(ListOf(lists, user)), cursor, limit)
      ensures cursor.None? && user !in old(cache) && !redisFails ==>
        && user in cache
        && MergesHead(cache[user], ListOf(lists, user), celebs, limit)
    {
      PageIs(ListOf(lists, user), None, limit);
      HeadOfList(ListOf(lists, user), limit);
      entries := None;
      if cursor.None? && user in cache {
        entries := Some(cache[user]);
      }
      if entries.None? {
        if redisFails {
          return None;
        }
        var raw := CursorWalk.GetFollowingFeed(ListOf(lists, user), cursor, limit);
        entries := Some(raw);
        if cursor.None? {
          var merged := MergeDedupe(raw, celebs);
          entries := Some(merged);
          cache := cache[user := merged];
        }
      }
    }

    /** The second half: enrichment, and the sort of a first page. */
    method MakeItems(entries: seq<string>, firstPage: bool, user: string, interactionsFail: bool)
      returns (items: seq<FeedItem>)
      ensures ItemsFit(items, ItemsFor(backend, user != "" && !interactionsFail, entries), firstPage)
      ensures ShowsEntries(items, backend, user != "" && !interactionsFail, entries, firstPage)
    {
      ItemsAreOfEntries(backend, user != "" && !interactionsFail, entries);
      items := EnrichEntries(backend, entries, user, interactionsFail);
      if firstPage {
        items := SortNewestFirst(items);
      }
    }

    /** `GetFollowingFeed`. `celebs` is what the celebrity fetch returns, in whatever order its
        goroutines finish. The cursor is taken before enrichment drops or reorders anything. */
    method GetFollowingFeed(user: string, cursor: Option<string>, limit: nat, celebs: seq<string>,
                            redisFails: bool, interactionsFail: bool) returns (r: Option<FeedPage>)
      requires limit >= 1
      modifies this`cache
      ensures r.None? <==> redisFails && !(cursor.None? && user in old(cache))
      ensures cache == if cursor.None? && user !in old(cache) && !redisFails
                       then old(cache)[user := FirstPageSource(Visible(ListOf(lists, user)), celebs, limit)]
                       else old(cache)
      ensures r.Some? ==>
        && r.value.entries == (if cursor.None? then Take(cache[user], limit)
                                 else Page(Visible(ListOf(lists, user)), cursor, limit))
        && |r.value.entries| <= limit
        && r.value.next == (if |r.value.entries| < limit then None else Some(r.value.entries[limit - 1]))
        && ItemsFit(r.value.items, ItemsFor(backend, user != "" && !interactionsFail, r.value.entries), cursor.None?)
        && ShowsEntries(r.value.items, backend, user != "" && !interactionsFail, r.value.entries, cursor.None?)
      ensures cursor.None? && user !in old(cache) && !redisFails ==>
        && user in cache
        && MergesHead(cache[user], ListOf(lists, user), celebs, limit)
      ensures cursor.None? && r.Some? ==> r.value.entries == cache[user][..Min(limit, |cache[user]|)]
      ensures r.Some? && |ListOf(lists, user)| <= 800 && cursor.Some? ==>
        r.value.entries == Page(ListOf(lists, user), cursor, limit)
    {
      var entries := FetchEntries(user, cursor, limit, celebs, redisFails);
      if entries.None? {
        return None;
      }
      var capped := entries.value;
      if |capped| > limit {
        capped := capped[..limit];
      }
      var items := MakeItems(capped, cursor.None?, user, interactionsFail);
      var next := None;
      if |capped| >= limit {
        next := Some(capped[limit - 1]);
      }
      r := Some(FeedPage(capped, items, next));
    }
  }

  /** A first page holds the reference items, newest first; any other page, exactly those. */
  ghost predicate ItemsFit(items: seq<FeedItem>, reference: seq<FeedItem>, firstPage: bool) {
    if firstPage then multiset(items) == multiset(reference) && NewestFirst(items) else items == reference
  }

  /** The items are those of the entries, one for each that has one, in entry order; on a first
      page the same items, newest first. */
  ghost predicate ShowsEntries(items: seq<FeedItem>, b: Backend, withViewer: bool, entries: seq<string>,
                               firstPage: bool)
  {
    exists reference :: AreItemsOf(b, withViewer, entries, reference) && ItemsFit(items, reference, firstPage)
  }

  // ------------------------------------------------------- walking the feed

  /** Pages of the visible part of a list fetched with a cursor, until there is none: at most
      `n` of them. */
  function Rest(list: seq<string>, cursor: Option<string>, limit: nat, n: nat): (seq<string>, bool)
    requires limit >= 1
    decreases n
  {
    if cursor.None? then ([], true)
    else if n == 0 then ([], false)
    else
      var page := Page(list, cursor, limit);
      var rest := Rest(list, NextCursor(page, limit), limit, n - 1);
      (page + rest.0, rest.1)
  }

  /** The whole walk: the first page, cut from `source`, and at most `n` more. */
  function FeedWalk(list: seq<string>, source: seq<string>, limit: nat, n: nat): (seq<string>, bool)
    requires limit >= 1
  {
    var first := Take(source, limit);
    var rest := Rest(list, NextCursor(first, limit), limit, n);
    (first + rest.0, rest.1)
  }

  /** The entries of `s` that are in `list`. */
  function Within(s: seq<string>, list: seq<string>): seq<string> {
    if s == [] then []
    else (if s[0] in list then [s[0]] else []) + Within(s[1..], list)
  }

  lemma {:induction false} WithinConcat(a: seq<string>, b: seq<string>, list: seq<string>)
    ensures Within(a + b, list) == Within(a, list) + Within(b, list)
  {
    if a == [] {
      assert a + b == b;
    } else {
      var head := if a[0] in list then [a[0]] else [];
      assert (a + b)[0] == a[0] && (a + b)[1..] == a[1..] + b;
      WithinConcat(a[1..], b, list);
      assert head + (Within(a[1..], list) + Within(b, list)) == (head + Within(a[1..], list)) + Within(b, list);
    }
  }

  lemma {:induction false} WithinAllOrNone(s: seq<string>, list: seq<string>)
    ensures (forall e <- s :: e in list) ==> Within(s, list) == s
    ensures (forall e <- s :: e !in list) ==> Within(s, list) == []
  {
    if s != [] {
      WithinAllOrNone(s[1..], list);
    }
  }

  /** From a cursor in a list without repeats, the rest of the list follows. */
  lemma {:induction false} RestOfList(list: seq<string>, k: nat, limit: nat, n: nat)
    requires Distinct(list) && limit >= 1 && 0 < k <= |list| && n > |list| - k
    ensures Rest(list, Some(list[k - 1]), limit, n) == (list[k..], true)
    decreases n
  {
    if |list| - k >= limit {
      RestOfList(list, k + limit, limit, n - 1);
      RestAfterFullPage(list, k, limit, n);
    } else {
      PageAfter(list, k, limit);
      RestFrom(list, list[k - 1], limit, n, []);
    }
  }

  lemma RestAfterFullPage(list: seq<string>, k: nat, limit: nat, n: nat)
    requires Distinct(list) && limit >= 1 && 0 < k && k + limit <= |list| && n > 0
    requires Rest(list, Some(list[k + limit - 1]), limit, n - 1) == (list[k + limit..], true)
    ensures Rest(list, Some(list[k - 1]), limit, n) == (list[k..], true)
  {
    PageAfter(list, k, limit);
    RestFrom(list, list[k - 1], limit, n, list[k + limit..]);
  }

  lemma PageAfter(list: seq<string>, k: nat, limit: nat)
    requires Distinct(list) && limit >= 1 && 0 < k <= |list|
    ensures var page := Page(list, Some(list[k - 1]), limit);
            if |list| - k >= limit then
              page + list[k + limit..] == list[k..] && NextCursor(page, limit) == Some(list[k + limit - 1])
            else page + [] == list[k..] && NextCursor(page, limit) == None
  {
    FirstIndex(list, k - 1, list[k - 1]);
    assert Page(list, Some(list[k - 1]), limit) == Take(list[k..], limit);
  }

  lemma RestFrom(list: seq<string>, c: string, limit: nat, n: nat, later: seq<string>)
    requires limit >= 1 && n > 0
    requires var next := NextCursor(Page(list, Some(c), limit), limit);
             if next.None? then later == [] else Rest(list, next, limit, n - 1) == (later, true)
    ensures Rest(list, Some(c), limit, n) == (Page(list, Some(c), limit) + later, true)
  {
  }

  /** A cursor that is not in the list ends the walk with one empty page. */
  lemma RestOfStrangeCursor(list: seq<string>, c: string, limit: nat, n: nat)
    requires limit >= 1 && c !in list && n > 0
    ensures Rest(list, Some(c), limit, n) == ([], true)
  {
    var page := Page(list, Some(c), limit);
    assert page == [] && NextCursor(page, limit) == None;
    assert Rest(list, None, limit, n - 1) == ([], true);
    assert page + [] == [];
  }

  lemma WithinSplit(front: seq<string>, tail: seq<string>, list: seq<string>)
    requires (forall e <- front :: e in list) && (forall e <- tail :: e !in list)
    ensures Within(front + tail, list) == front
  {
    WithinConcat(front, tail, list);
    WithinAllOrNone(front, list);
    WithinAllOrNone(tail, list);
  }

  /** A first page that is full of list entries continues through the rest of the list. */
  lemma FullFirstPage(list: seq<string>, source: seq<string>, limit: nat)
    requires Distinct(list) && 1 <= limit <= |list| && list[..limit] <= source
    ensures FeedWalk(list, source, limit, |list| + 1) == (list, true)
  {
    var first, later, n := list[..limit], list[limit..], |list| + 1;
    FullFirst(list, source, limit);
    RestOfList(list, limit, limit, n);
    WalkOn(list, source, limit, n, list[limit - 1], first, later);
    Rejoined(list, limit);
  }

  lemma WalkOn(list: seq<string>, source: seq<string>, limit: nat, n: nat, c: string,
               first: seq<string>, later: seq<string>)
    requires limit >= 1 && first == Take(source, limit) && NextCursor(first, limit) == Some(c)
    requires Rest(list, Some(c), limit, n) == (later, true)
    ensures FeedWalk(list, source, limit, n) == (first + later, true)
  {
  }

  lemma Rejoined(list: seq<string>, k: nat)
    requires k <= |list|
    ensures list[..k] + list[k..] == list
  {
  }

  lemma FullFirst(list: seq<string>, source: seq<string>, limit: nat)
    requires 1 <= limit <= |list| && list[..limit] <= source
    ensures Take(source, limit) == list[..limit] && NextCursor(Take(source, limit), limit) == Some(list[limit - 1])
  {
    assert Take(source, limit) == list[..limit];
  }

  /** A first page that ends in an entry the list does not hold, or is not full, is the last
      with anything on it. */
  lemma StrangeFirstPage(list: seq<string>, source: seq<string>, front: seq<string>, limit: nat, n: nat)
    requires Distinct(source) && front <= source && |front| < limit && n > 0
    requires forall e <- source :: e in front || e !in list
    ensures FeedWalk(list, source, limit, n) == (Take(source, limit), true)
  {
    var first := Take(source, limit);
    if |first| == limit {
      var c := source[limit - 1];
      assert first[limit - 1] == c && c in source;
      assert forall i | 0 <= i < |front| :: front[i] == source[i];
      RestOfStrangeCursor(list, c, limit, n);
    }
    assert first + [] == first;
  }

  /** The part of the first page behind `front` holds no list entry. */
  lemma FirstPageWithin(list: seq<string>, source: seq<string>, front: seq<string>, limit: nat)
    requires Distinct(source) && front <= source && |front| <= limit
    requires (forall e <- source :: e in front || e !in list) && (forall e <- front :: e in list)
    ensures Within(Take(source, limit), list) == front
  {
    var first := Take(source, limit);
    var tail := first[|front|..];
    assert first == front + tail;
    forall e <- tail ensures e !in list {
      var i :| |front| <= i < |first| && first[i] == e;
      assert source[i] == e && e in source;
      assert forall j | 0 <= j < |front| :: front[j] == source[j];
    }
    WithinSplit(front, tail, list);
  }

  /** With an unchanged list free of repeats, and a first page that is cold or was cached at
      no smaller a limit, the walk ends and returns every list entry exactly once, in order.
      If the list fills a page, nothing else is returned: the celebrity entries, appended
      behind a full page, are cut off by the cap. */
  lemma FeedWalkIsComplete(list: seq<string>, celebs: seq<string>, filledAt: nat, limit: nat)
    requires Distinct(list) && 1 <= limit <= filledAt
    ensures var (out, ended) := FeedWalk(list, FirstPageSource(list, celebs, filledAt), limit, |list| + 1);
            ended && Within(out, list) == list && (|list| >= limit ==> out == list)
  {
    var source := FirstPageSource(list, celebs, filledAt);
    CachedPageLeads(list, celebs, filledAt, limit);
    if |list| >= limit {
      LongListWalk(list, source, limit);
    } else {
      ShortListWalk(list, source, limit);
    }
  }

  /** A page filled at no smaller a limit is led by what the list has for this one. */
  lemma CachedPageLeads(list: seq<string>, celebs: seq<string>, filledAt: nat, limit: nat)
    requires Distinct(list) && 1 <= limit <= filledAt
    ensures var source := FirstPageSource(list, celebs, filledAt); Take(list, limit) <= source && Distinct(source)
  {
    var page := Take(list, filledAt);
    assert Take(list, limit) <= page;
    DedupeAppends(page, celebs);
  }

  lemma LongListWalk(list: seq<string>, source: seq<string>, limit: nat)
    requires Distinct(list) && 1 <= limit <= |list| && list[..limit] <= source
    ensures FeedWalk(list, source, limit, |list| + 1) == (list, true) && Within(list, list) == list
  {
    FullFirstPage(list, source, limit);
    WithinAllOrNone(list, list);
  }

  lemma ShortListWalk(list: seq<string>, source: seq<string>, limit: nat)
    requires Distinct(source) && list <= source && |list| < limit
    ensures var (out, ended) := FeedWalk(list, source, limit, |list| + 1); ended && Within(out, list) == list
  {
    StrangeFirstPage(list, source, list, limit, |list| + 1);
    FirstPageWithin(list, source, list, limit);
  }

  /** With celebrity entries that are not also list entries, the walk returns the list in
      order exactly when the cached page was filled at this limit or a larger one, or the list
      was too short for that to matter. */
  lemma ForeignCelebsWalkIff(list: seq<string>, celebs: seq<string>, filledAt: nat, limit: nat)
    requires Distinct(list) && 1 <= limit && 1 <= filledAt
    requires forall e <- celebs :: e !in list
    ensures (exists n :: var (out, ended) := FeedWalk(list, FirstPageSource(list, celebs, filledAt), limit, n);
                         ended && Within(out, list) == list)
       <==> limit <= filledAt || |list| <= filledAt
  {
    var source := FirstPageSource(list, celebs, filledAt);
    var page := Take(list, filledAt);
    DedupeAppends(page, celebs);
    if limit <= filledAt {
      FeedWalkIsComplete(list, celebs, filledAt, limit);
    } else {
      FirstPageWithin(list, source, page, limit);
      forall n: nat | n > 0 ensures FeedWalk(list, source, limit, n) == (Take(source, limit), true) {
        StrangeFirstPage(list, source, page, limit, n);
      }
      EarlyWalk(list, source, page, limit);
      assert FeedWalk(list, source, limit, 1) == (Take(source, limit), true);
      assert page == list <==> |list| <= filledAt;
    }
  }

  /** With no page to follow, the walk has ended only if the first page ended it. */
  lemma EarlyWalk(list: seq<string>, source: seq<string>, page: seq<string>, limit: nat)
    requires limit >= 1 && Within(Take(source, limit), list) == page
    ensures var (out, ended) := FeedWalk(list, source, limit, 0); ended ==> Within(out, list) == page
  {
    assert Take(source, limit) + [] == Take(source, limit);
  }

  // ------------------------------------------------ any celebrities, any cache

  /** The walk, which has always ended after as many pages as the list has entries and one
      more, visits every list entry exactly once. */
  ghost predicate VisitsEachOnce(list: seq<string>, source: seq<string>, limit: nat)
    requires limit >= 1
  {
    var (out, ended) := FeedWalk(list, source, limit, |list| + 1);
    ended && forall i | 0 <= i < |list| :: multiset(out)[list[i]] == 1
  }

  /** Where in the list the pages after this first page begin. */
  function ResumesAt(list: seq<string>, first: seq<string>, limit: nat): (m: nat)
    requires limit >= 1
    ensures m <= |list|
  {
    var next := NextCursor(first, limit);
    if next.Some? && next.value in list then IndexOf(list, next.value) + 1 else |list|
  }

  /** The first page holds exactly the list entries up to where the next one resumes. */
  ghost predicate FirstPageFits(list: seq<string>, first: seq<string>, limit: nat)
    requires limit >= 1
  {
    forall i | 0 <= i < |list| :: list[i] in first <==> i < ResumesAt(list, first, limit)
  }

  /** A walk through a list without repeats: the first page, then the list from where it
      resumes. */
  lemma WalkIs(list: seq<string>, source: seq<string>, limit: nat, n: nat)
    requires Distinct(list) && limit >= 1 && n > |list|
    ensures var first := Take(source, limit);
            FeedWalk(list, source, limit, n) == (first + list[ResumesAt(list, first, limit)..], true)
  {
    var first := Take(source, limit);
    var next := NextCursor(first, limit);
    assert list[|list|..] == [];
    if next.None? {
      assert Rest(list, next, limit, n) == ([], true);
    } else if next.value in list {
      var m := IndexOf(list, next.value) + 1;
      RestOfList(list, m, limit, n);
    } else {
      RestOfStrangeCursor(list, next.value, limit, n);
    }
  }

  lemma {:induction false} DistinctCount(s: seq<string>, e: string)
    requires Distinct(s)
    ensures multiset(s)[e] == if e in s then 1 else 0
  {
    if s != [] {
      var front, last := s[..|s| - 1], s[|s| - 1];
      assert s == front + [last];
      DistinctCount(front, e);
      assert last !in front;
    }
  }

  lemma CountInWalk(list: seq<string>, first: seq<string>, m: nat, i: nat)
    requires Distinct(list) && Distinct(first) && m <= |list| && i < |list|
    ensures multiset(first + list[m..])[list[i]] == 1 <==> (list[i] in first <==> i < m)
  {
    var e := list[i];
    DistinctCount(first, e);
    DistinctCount(list[m..], e);
    if i >= m {
      assert list[m..][i - m] == e;
    } else {
      assert forall j | 0 <= j < |list[m..]| :: list[m..][j] == list[m + j];
    }
  }

  /** Every list entry is visited exactly once, if and only if the first page fits. */
  lemma VisitsEachOnceIff(list: seq<string>, source: seq<string>, limit: nat)
    requires Distinct(list) && Distinct(source) && limit >= 1
    ensures VisitsEachOnce(list, source, limit) <==> FirstPageFits(list, Take(source, limit), limit)
  {
    var first := Take(source, limit);
    var m := ResumesAt(list, first, limit);
    WalkIs(list, source, limit, |list| + 1);
    forall i | 0 <= i < |list|
      ensures multiset(first + list[m..])[list[i]] == 1 <==> (list[i] in first <==> i < m)
    {
      CountInWalk(list, first, m, i);
    }
  }

  lemma AtIndex(list: seq<string>, k: nat)
    requires Distinct(list) && k < |list|
    ensures IndexOf(list, list[k]) == k
  {
    FirstIndex(list, k, list[k]);
  }

  /** A first page of list entries only fits. */
  lemma FullPageFits(list: seq<string>, source: seq<string>, limit: nat)
    requires Distinct(list) && 1 <= limit <= |list| && list[..limit] <= source
    ensures FirstPageFits(list, Take(source, limit), limit)
  {
    FullFirst(list, source, limit);
    AtIndex(list, limit - 1);
    forall i | 0 <= i < |list| ensures list[i] in list[..limit] <==> i < limit {
      if i < limit {
        assert list[..limit][i] == list[i];
      } else {
        assert forall j | 0 <= j < limit :: list[..limit][j] == list[j];
      }
    }
  }

  /** So does one that holds the whole list ahead of anything else. */
  lemma WholeListFits(list: seq<string>, source: seq<string>, limit: nat)
    requires Distinct(source) && list <= source && |list| < limit
    ensures FirstPageFits(list, Take(source, limit), limit)
  {
    var first := Take(source, limit);
    CursorBehind(source, |list|, limit);
    assert list == source[..|list|];
    forall i | 0 <= i < |list| ensures list[i] in first {
      assert first[i] == list[i];
    }
  }

  /** In a source without repeats, a cursor from behind its first `k` entries is none of them. */
  lemma CursorBehind(source: seq<string>, k: nat, limit: nat)
    requires Distinct(source) && k < limit && k <= |source|
    ensures var next := NextCursor(Take(source, limit), limit); next.Some? ==> next.value !in source[..k]
  {
    if |source| >= limit {
      assert Take(source, limit)[limit - 1] == source[limit - 1];
      assert forall j | 0 <= j < k :: source[..k][j] == source[j];
    }
  }

  /** A first page that holds too little of the list, and nothing of the rest, does not fit. */
  lemma ShortPageMisfits(list: seq<string>, source: seq<string>, k: nat, limit: nat)
    requires Distinct(list) && Distinct(source) && k < limit && k < |list| && list[..k] <= source
    requires forall e <- source :: e in list[..k] || e !in list
    ensures !FirstPageFits(list, Take(source, limit), limit)
  {
    var first := Take(source, limit);
    CursorBehind(source, k, limit);
    assert source[..k] == list[..k];
    assert forall e <- first :: e in source;
    assert list[k] !in list[..k];
    assert list[k] in list;
  }

  /** The cache key names the user but not the limit. With any celebrity entries and any cached
      page, every list entry is visited exactly once if and only if the first page holds just
      the list entries up to where the next one resumes. That is always so when the page was
      filled at this limit or a larger one; when everything there is fits on the first page,
      if and only if the celebrity entries supply what the cached page lacks; and when none of
      them is a list entry, if and only if the page was filled at this limit or a larger one
      or held the whole list. */
  lemma CachedWalkCompleteIff(list: seq<string>, celebs: seq<string>, filledAt: nat, limit: nat)
    requires Distinct(list) && 1 <= limit && 1 <= filledAt
    ensures var source := FirstPageSource(list, celebs, filledAt);
            VisitsEachOnce(list, source, limit) <==> FirstPageFits(list, Take(source, limit), limit)
    ensures limit <= filledAt ==> VisitsEachOnce(list, FirstPageSource(list, celebs, filledAt), limit)
    ensures |FirstPageSource(list, celebs, filledAt)| < limit ==>
              (VisitsEachOnce(list, FirstPageSource(list, celebs, filledAt), limit)
               <==> forall e <- list :: e in Take(list, filledAt) || e in celebs)
    ensures (forall e <- celebs :: e !in list) ==>
              (VisitsEachOnce(list, FirstPageSource(list, celebs, filledAt), limit)
               <==> limit <= filledAt || |list| <= filledAt)
  {
    var source := FirstPageSource(list, celebs, filledAt);
    SourceFacts(list, celebs, filledAt);
    VisitsEachOnceIff(list, source, limit);
    if limit <= filledAt {
      LargeCacheFits(list, source, filledAt, limit);
    }
    if |source| < limit {
      SmallSourceFitsIff(list, celebs, source, filledAt, limit);
    }
    if forall e <- celebs :: e !in list {
      ForeignCelebsFitIff(list, celebs, source, filledAt, limit);
    }
  }

  lemma SourceFacts(list: seq<string>, celebs: seq<string>, filledAt: nat)
    requires Distinct(list)
    ensures var page, source := Take(list, filledAt), FirstPageSource(list, celebs, filledAt);
            page <= source && Distinct(source) && forall e :: e in source <==> e in page || e in celebs
  {
    DedupeAppends(Take(list, filledAt), celebs);
  }

  lemma LargeCacheFits(list: seq<string>, source: seq<string>, filledAt: nat, limit: nat)
    requires Distinct(list) && Distinct(source) && 1 <= limit <= filledAt && Take(list, filledAt) <= source
    ensures FirstPageFits(list, Take(source, limit), limit)
  {
    if |list| < limit {
      WholeListFits(list, source, limit);
    } else {
      assert list[..limit] <= Take(list, filledAt);
      FullPageFits(list, source, limit);
    }
  }

  lemma SmallSourceFitsIff(list: seq<string>, celebs: seq<string>, source: seq<string>, filledAt: nat, limit: nat)
    requires |source| < limit && forall e :: e in source <==> e in Take(list, filledAt) || e in celebs
    ensures FirstPageFits(list, Take(source, limit), limit)
         <==> forall e <- list :: e in Take(list, filledAt) || e in celebs
  {
    assert ResumesAt(list, Take(source, limit), limit) == |list|;
  }

  lemma ForeignCelebsFitIff(list: seq<string>, celebs: seq<string>, source: seq<string>, filledAt: nat, limit: nat)
    requires Distinct(list) && Distinct(source) && 1 <= limit && Take(list, filledAt) <= source
    requires forall e :: e in source <==> e in Take(list, filledAt) || e in celebs
    requires forall e <- celebs :: e !in list
    ensures FirstPageFits(list, Take(source, limit), limit) <==> limit <= filledAt || |list| <= filledAt
  {
    if limit <= filledAt {
      LargeCacheFits(list, source, filledAt, limit);
    } else if |list| <= filledAt {
      WholeListFits(list, source, limit);
    } else {
      ShortPageMisfits(list, source, filledAt, limit);
    }
  }

  // ------------------------------------------------------------- the client

  /** What one request meets: the celebrity entries of that moment, and which calls fail. */
  datatype Ask = Ask(celebs: seq<string>, redisFails: bool, interactionsFail: bool)

  /** The part of the walk done so far, `out` with cursor `next`, is continued by the rest. */
  ghost predicate Continues(list: seq<string>, source: seq<string>, limit: nat, done: nat, out: seq<string>,
                            next: Option<string>)
    requires limit >= 1
  {
    forall n: nat :: ContinuesFor(list, source, limit, done, out, next, n)
  }

  ghost predicate ContinuesFor(list: seq<string>, source: seq<string>, limit: nat, done: nat, out: seq<string>,
                               next: Option<string>, n: nat)
    requires limit >= 1
  {
    var rest := Rest(list, next, limit, n);
    FeedWalk(list, source, limit, done + n) == (out + rest.0, rest.1)
  }

  lemma FirstPageStarts(list: seq<string>, source: seq<string>, limit: nat)
    requires limit >= 1
    ensures Continues(list, source, limit, 0, Take(source, limit), NextCursor(Take(source, limit), limit))
  {
    var first := Take(source, limit);
    forall n: nat ensures ContinuesFor(list, source, limit, 0, first, NextCursor(first, limit), n) {}
  }

  lemma PageContinues(list: seq<string>, source: seq<string>, limit: nat, done: nat, out: seq<string>, c: string)
    requires limit >= 1 && Continues(list, source, limit, done, out, Some(c))
    ensures var page := Page(list, Some(c), limit);
            Continues(list, source, limit, done + 1, out + page, NextCursor(page, limit))
  {
    var page := Page(list, Some(c), limit);
    var more, both, next := done + 1, out + page, NextCursor(page, limit);
    forall n: nat ensures ContinuesFor(list, source, limit, more, both, next, n) {
      assert ContinuesFor(list, source, limit, done, out, Some(c), n + 1);
      Reassociate(out, page, Rest(list, next, limit, n).0);
    }
  }

  lemma WalkDone(list: seq<string>, source: seq<string>, limit: nat, done: nat, out: seq<string>,
                 next: Option<string>)
    requires limit >= 1 && Continues(list, source, limit, done, out, next)
    ensures FeedWalk(list, source, limit, done) == (out, next.None?)
    ensures next.None? ==> forall n: nat | n >= done :: FeedWalk(list, source, limit, n) == (out, true)
  {
    assert ContinuesFor(list, source, limit, done, out, next, 0);
    assert out + [] == out;
    if next.None? {
      forall n: nat | n >= done ensures FeedWalk(list, source, limit, n) == (out, true) {
        assert ContinuesFor(list, source, limit, done, out, next, n - done);
      }
    }
  }

  /** Where the client stands: nothing has been answered yet, or `pages` have, the first cut
      from the page now in the cache. */
  ghost predicate Walked(list: seq<string>, cache: map<string, seq<string>>, user: string, limit: nat, pages: nat,
                         out: seq<string>, next: Option<string>)
    requires limit >= 1
  {
    if pages == 0 then out == [] && next == None
    else user in cache && Continues(list, cache[user], limit, pages - 1, out, next)
  }

  /** One answer joins what the client has. */
  lemma OneMorePage(list: seq<string>, cache: map<string, seq<string>>, cache': map<string, seq<string>>, user: string,
                    limit: nat, pages: nat, out: seq<string>, next: Option<string>, page: seq<string>)
    requires limit >= 1 && Walked(list, cache, user, limit, pages, out, next) && (pages > 0 ==> next.Some?)
    requires user in cache' && (pages > 0 ==> cache' == cache)
    requires page == if next.None? then Take(cache'[user], limit) else Page(list, next, limit)
    ensures Walked(list, cache', user, limit, pages + 1, out + page, NextCursor(page, limit))
  {
    if pages == 0 {
      FirstPageStarts(list, cache'[user], limit);
      assert [] + page == page;
    } else {
      PageContinues(list, cache[user], limit, pages - 1, out, next.value);
    }
  }

  /** The cache entry is the old one, or was filled at this limit. */
  ghost predicate FilledOnce(cache: map<string, seq<string>>, cache': map<string, seq<string>>, user: string,
                             list: seq<string>, limit: nat)
  {
    && user in cache'
    && if user in cache then cache'[user] == cache[user]
       else exists celebs :: cache'[user] == FirstPageSource(list, celebs, limit)
  }

  ghost predicate CacheFits(start: map<string, seq<string>>, cache: map<string, seq<string>>, user: string,
                            list: seq<string>, limit: nat, pages: nat)
  {
    if pages == 0 then cache == start else FilledOnce(start, cache, user, list, limit)
  }

  /** One request; without an answer the client stays where it is. */
  method AskOnce(feed: FeedService, user: string, limit: nat, ask: Ask, ghost start: map<string, seq<string>>,
                 out: seq<string>, pages: nat, next: Option<string>)
    returns (out': seq<string>, pages': nat, next': Option<string>)
    requires limit >= 1 && (pages > 0 ==> next.Some?)
    requires Walked(Visible(ListOf(feed.lists, user)), feed.cache, user, limit, pages, out, next)
    requires CacheFits(start, feed.cache, user, Visible(ListOf(feed.lists, user)), limit, pages)
    modifies feed`cache
    ensures Walked(Visible(ListOf(feed.lists, user)), feed.cache, user, limit, pages', out', next')
    ensures CacheFits(start, feed.cache, user, Visible(ListOf(feed.lists, user)), limit, pages')
  {
    ghost var list, before := Visible(ListOf(feed.lists, user)), feed.cache;
    var page := feed.GetFollowingFeed(user, next, limit, ask.celebs, ask.redisFails, ask.interactionsFail);
    if page.None? {
      return out, pages, next;
    }
    OneMorePage(list, before, feed.cache, user, limit, pages, out, next, page.value.entries);
    out', pages', next' := out + page.value.entries, pages + 1, page.value.next;
  }

  /** A client that asks for one page after the other with the cursor it was given, asking
      again when a request fails, until there is no cursor. The pages together are those of the
      walk, from the page the cache held or was filled with; and if the cache was cold and
      the walk ended, every list entry was returned once, in order. */
  method ReadFeed(feed: FeedService, user: string, limit: nat, asks: seq<Ask>)
    returns (out: seq<string>, pages: nat, ended: bool)
    requires limit >= 1
    modifies feed`cache
    ensures ended ==> pages > 0
    ensures pages == 0 ==> out == [] && feed.cache == old(feed.cache)
    ensures pages > 0 ==>
      && user in feed.cache
      && (user in old(feed.cache) ==> feed.cache[user] == old(feed.cache[user]))
      && FeedWalk(Visible(ListOf(feed.lists, user)), feed.cache[user], limit, pages - 1) == (out, ended)
    ensures ended && user !in old(feed.cache) && Distinct(Visible(ListOf(feed.lists, user))) ==>
      Within(out, Visible(ListOf(feed.lists, user))) == Visible(ListOf(feed.lists, user))
    ensures var all := ListOf(feed.lists, user);
            ended && user !in old(feed.cache) && |all| <= 800 && Distinct(all) ==> Within(out, all) == all
  {
    ghost var list, start := Visible(ListOf(feed.lists, user)), feed.cache;
    var next := None;
    out, pages, ended := [], 0, false;
    for i := 0 to |asks|
      invariant Walked(list, feed.cache, user, limit, pages, out, next) && (ended <==> pages > 0 && next.None?)
      invariant CacheFits(start, feed.cache, user, list, limit, pages)
    {
      if ended {
        break;
      }
      out, pages, next := AskOnce(feed, user, limit, asks[i], start, out, pages, next);
      ended := pages > 0 && next.None?;
    }
    if pages > 0 {
      WalkDone(list, feed.cache[user], limit, pages - 1, out, next);
      if ended && user !in start && Distinct(list) {
        ColdWalkIsComplete(list, start, feed.cache, user, limit, pages, out);
      }
    }
  }

  lemma ColdWalkIsComplete(list: seq<string>, cache: map<string, seq<string>>, cache': map<string, seq<string>>,
                           user: string, limit: nat, pages: nat, out: seq<string>)
    requires limit >= 1 && pages > 0 && Distinct(list) && user !in cache && FilledOnce(cache, cache', user, list, limit)
    requires forall n: nat | n >= pages - 1 :: FeedWalk(list, cache'[user], limit, n) == (out, true)
    ensures Within(out, list) == list
  {
    var celebs :| cache'[user] == FirstPageSource(list, celebs, limit);
    FeedWalkIsComplete(list, celebs, limit, limit);
    var n := if pages - 1 >= |list| + 1 then pages - 1 else |list| + 1;
    WalkIs(list, cache'[user], limit, n);
    WalkIs(list, cache'[user], limit, |list| + 1);
  }
}
