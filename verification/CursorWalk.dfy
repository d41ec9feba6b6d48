/** Reading a following list page by page with a cursor that names the last entry seen. */
module CursorWalk {
  import opened Wrappers
  import opened Sequences
  import opened Timeline
  import Codec

  function Upto(l: seq<string>, e: string): seq<string>
    requires e in l
  {
    l[..IndexOf(l, e) + 1]
  }

  function After(l: seq<string>, e: string): seq<string>
    requires e in l
  {
    l[IndexOf(l, e) + 1..]
  }

  function Take(l: seq<string>, n: nat): seq<string> {
    if |l| <= n then l else l[..n]
  }

  /** What LRANGE 0 799 shows of a list. */
  function Visible(l: seq<string>): seq<string> {
    LTrim(l, FOLLOWING_LIMIT)
  }

  /** The page behind a cursor, of the part of a list that is visible. */
  function Page(l: seq<string>, cursor: Option<string>, limit: nat): seq<string> {
    match cursor
    case None => Take(l, limit)
    case Some(c) => if c in l then Take(After(l, c), limit) else []
  }

  /** `cursorAt`; the code indexes with limit - 1, so a limit below 1 would panic. */
  function NextCursor(page: seq<string>, limit: nat): Option<string>
    requires limit >= 1
  {
    if |page| < limit then None else Some(page[limit - 1])
  }

  function Min(a: int, b: int): int {
    if a < b then a else b
  }

  /** `page` is what `list` holds from position `start` on, among its first 800 entries and up
      to `limit` of them. */
  ghost predicate IsPageFrom(page: seq<string>, list: seq<string>, start: nat, limit: nat)
    requires start <= Min(|list|, 800)
  {
    && |page| == Min(limit, Min(|list|, 800) - start)
    && forall j | 0 <= j < |page| :: page[j] == list[start + j]
  }

  /** What a read sees and what a page of it is, position by position. */
  lemma PageIs(list: seq<string>, cursor: Option<string>, limit: nat)
    ensures |Visible(list)| == Min(|list|, 800) && forall i | 0 <= i < |Visible(list)| :: Visible(list)[i] == list[i]
    ensures cursor.None? ==> IsPageFrom(Page(Visible(list), cursor, limit), list, 0, limit)
    ensures forall i | 0 <= i < Min(|list|, 800) && cursor == Some(list[i]) && list[i] !in list[..i] ::
              IsPageFrom(Page(Visible(list), cursor, limit), list, i + 1, limit)
    ensures cursor.Some? && (forall i | 0 <= i < Min(|list|, 800) :: list[i] != cursor.value) ==>
              Page(Visible(list), cursor, limit) == []
  {
    var l := Visible(list);
    assert |l| == Min(|list|, 800) && forall i | 0 <= i < |l| :: l[i] == list[i];
    forall i | 0 <= i < |l| && cursor == Some(list[i]) && list[i] !in list[..i]
      ensures IsPageFrom(Page(l, cursor, limit), list, i + 1, limit)
    {
      assert l[..i] == list[..i];
      FirstIndex(l, i, list[i]);
      assert After(l, list[i]) == l[i + 1..];
    }
  }

  /** The consumer's GetFollowingFeed: a scan for the cursor, then one slice, of the first 800
      entries: from the head, or from behind the first occurrence of the cursor. */
  method GetFollowingFeed(list: seq<string>, cursor: Option<string>, limit: nat) returns (result: seq<string>)
    ensures result == Page(Visible(list), cursor, limit)
    ensures |list| <= 800 ==> result == Page(list, cursor, limit)
    ensures cursor.None? ==> IsPageFrom(result, list, 0, limit)
    ensures forall i | 0 <= i < Min(|list|, 800) && cursor == Some(list[i]) && list[i] !in list[..i] ::
              IsPageFrom(result, list, i + 1, limit)
    ensures cursor.Some? && (forall i | 0 <= i < Min(|list|, 800) :: list[i] != cursor.value) ==> result == []
  {
    PageIs(list, cursor, limit);
    var ids := Visible(list);
    result := Scan(ids, cursor, limit);
  }

  method Scan(ids: seq<string>, cursor: Option<string>, limit: nat) returns (result: seq<string>)
    ensures result == Page(ids, cursor, limit)
  {
    var start := 0;
    if cursor.Some? {
      var found := false;
      for i := 0 to |ids|
        invariant !found && start == 0
        invariant cursor.value !in ids[..i]
      {
        if ids[i] == cursor.value {
          start, found := i + 1, true;
          FirstIndex(ids, i, cursor.value);
          break;
        }
      }
      if !found {
        return [];
      }
    }
    if start >= |ids| {
      return [];
    }
    result := ids[start..];
    if |result| > limit {
      result := result[..limit];
    }
  }

  // --------------------------------------------------- an unchanged list

  /** At most `n` further pages of the visible part `l` of a list, from position `start`: the
      entries, and whether the walk ended. */
  function WalkFrom(l: seq<string>, start: nat, limit: nat, n: nat): (seq<string>, bool)
    requires start <= |l| && limit >= 1
    decreases n
  {
    if n == 0 then ([], false)
    else
      var page := Take(l[start..], limit);
      if |page| < limit then (page, true)
      else
        var rest := WalkFrom(l, IndexOf(l, page[limit - 1]) + 1, limit, n - 1);
        (page + rest.0, rest.1)
  }

  /** From `start` on, the last entry of each full page stands in the list for the first time. */
  predicate PageEndsAreFirst(l: seq<string>, start: nat, limit: nat)
    requires start <= |l| && limit >= 1
    decreases |l| - start
  {
    start + limit <= |l| ==> NextStart(l, start, limit) == start + limit && PageEndsAreFirst(l, start + limit, limit)
  }

  /** Where the page after this one starts: behind the first occurrence of its last entry. */
  function NextStart(l: seq<string>, start: nat, limit: nat): (next: nat)
    requires limit >= 1 && start + limit <= |l|
    ensures next <= start + limit
  {
    IndexAtMost(l, start + limit - 1);
    IndexOf(l, l[start + limit - 1]) + 1
  }

  lemma {:induction false} IndexAtMost(l: seq<string>, k: nat)
    requires k < |l|
    ensures IndexOf(l, l[k]) <= k
  {
    if l[0] != l[k] {
      IndexAtMost(l[1..], k - 1);
    }
  }

  /** A full page, and the walk from where its last entry first stands. */
  lemma WalkStep(l: seq<string>, start: nat, limit: nat, n: nat)
    requires limit >= 1 && start + limit <= |l| && n > 0
    ensures var rest := WalkFrom(l, NextStart(l, start, limit), limit, n - 1);
            WalkFrom(l, start, limit, n) == (l[start..start + limit] + rest.0, rest.1)
  {
    var page := Take(l[start..], limit);
    assert page == l[start..start + limit] && page[limit - 1] == l[start + limit - 1];
  }

  lemma WalkStepLength(l: seq<string>, start: nat, limit: nat, n: nat, next: nat)
    requires limit >= 1 && start + limit <= |l| && n > 0 && next == NextStart(l, start, limit)
    ensures WalkFrom(l, start, limit, n).1 == WalkFrom(l, next, limit, n - 1).1
    ensures |WalkFrom(l, start, limit, n).0| == limit + |WalkFrom(l, next, limit, n - 1).0|
  {
    WalkStep(l, start, limit, n);
  }

  lemma {:induction false} EndedWalkCovers(l: seq<string>, start: nat, limit: nat, n: nat)
    requires start <= |l| && limit >= 1 && WalkFrom(l, start, limit, n).1
    ensures |WalkFrom(l, start, limit, n).0| >= |l| - start
    decreases n
  {
    if start + limit <= |l| {
      WalkStepLength(l, start, limit, n, NextStart(l, start, limit));
      EndedWalkCovers(l, NextStart(l, start, limit), limit, n - 1);
    }
  }

  lemma LastPage(l: seq<string>, start: nat, limit: nat, n: nat)
    requires limit >= 1 && start <= |l| < start + limit && n > 0
    ensures WalkFrom(l, start, limit, n) == (l[start..], true)
  {
  }

  lemma Rejoin(l: seq<string>, start: nat, mid: nat)
    requires start <= mid <= |l|
    ensures l[start..mid] + l[mid..] == l[start..]
  {
  }

  lemma {:induction false} AlignedWalk(l: seq<string>, start: nat, limit: nat, n: nat)
    requires start <= |l| && limit >= 1 && PageEndsAreFirst(l, start, limit) && n > |l| - start
    ensures WalkFrom(l, start, limit, n) == (l[start..], true)
    decreases n
  {
    if |l| < start + limit {
      LastPage(l, start, limit, n);
    } else {
      var mid := start + limit;
      assert NextStart(l, start, limit) == mid && PageEndsAreFirst(l, mid, limit);
      var rest := WalkFrom(l, mid, limit, n - 1);
      assert rest == (l[mid..], true) by { AlignedWalk(l, mid, limit, n - 1); }
      assert WalkFrom(l, start, limit, n) == (l[start..mid] + rest.0, rest.1) by { WalkStep(l, start, limit, n); }
      assert l[start..mid] + rest.0 == l[start..] by { Rejoin(l, start, mid); }
    }
  }

  lemma LongerStep(l: seq<string>, start: nat, limit: nat, n: nat, next: nat)
    requires limit >= 1 && start + limit <= |l| && n > 0 && next == NextStart(l, start, limit)
    requires WalkFrom(l, next, limit, n - 1).1 ==> |WalkFrom(l, next, limit, n - 1).0| > |l| - start - limit
    ensures WalkFrom(l, start, limit, n).1 ==> |WalkFrom(l, start, limit, n).0| > |l| - start
  {
    WalkStepLength(l, start, limit, n, next);
  }

  lemma {:induction false} MisalignedWalk(l: seq<string>, start: nat, limit: nat, n: nat)
    requires start <= |l| && limit >= 1 && !PageEndsAreFirst(l, start, limit)
    ensures WalkFrom(l, start, limit, n).1 ==> |WalkFrom(l, start, limit, n).0| > |l| - start
    decreases n
  {
    if n > 0 {
      var next := NextStart(l, start, limit);
      if next == start + limit {
        MisalignedWalk(l, next, limit, n - 1);
      } else if WalkFrom(l, next, limit, n - 1).1 {
        EndedWalkCovers(l, next, limit, n - 1);
      }
      LongerStep(l, start, limit, n, next);
    }
  }

  /** Some number of pages returns the whole unchanged list, each entry once and in order,
      and ends, exactly when no page ends on an entry that also stands earlier in the list. */
  lemma WalkIsCompleteIff(l: seq<string>, limit: nat)
    requires limit >= 1
    ensures (exists n :: WalkFrom(l, 0, limit, n) == (l, true)) <==> PageEndsAreFirst(l, 0, limit)
  {
    if PageEndsAreFirst(l, 0, limit) {
      AlignedWalk(l, 0, limit, |l| + 1);
      assert l[0..] == l;
      assert WalkFrom(l, 0, limit, |l| + 1) == (l, true);
    } else {
      forall n ensures WalkFrom(l, 0, limit, n) != (l, true) {
        MisalignedWalk(l, 0, limit, n);
      }
    }
  }

  lemma {:induction false} DistinctPageEnds(l: seq<string>, start: nat, limit: nat)
    requires Distinct(l) && start <= |l| && limit >= 1
    ensures PageEndsAreFirst(l, start, limit)
    decreases |l| - start
  {
    if start + limit <= |l| {
      var k := start + limit - 1;
      assert l[k] !in l[..k];
      FirstIndex(l, k, l[k]);
      DistinctPageEnds(l, start + limit, limit);
    }
  }

  /** With a repeated entry the walk can go round for ever. */
  lemma {:induction false} RepeatedEntryLoops(n: nat, start: nat)
    requires start <= 2
    ensures !WalkFrom(["a", "b", "a"], start, 1, n).1
    decreases n
  {
    var l := ["a", "b", "a"];
    if n > 0 {
      assert IndexOf(l, "b") == 1 by { FirstIndex(l, 1, "b"); }
      assert IndexOf(l, "a") == 0;
      assert l[start..][..1][0] == l[start];
      RepeatedEntryLoops(n - 1, IndexOf(l, l[start]) + 1);
    }
  }

  // --------------------------------------------- what keeps entries distinct

  /** Putting entries ahead of a list and cutting it keeps it free of repeats exactly when
      none of them is among those the cut leaves. */
  lemma PrependKeepsDistinctIff(front: seq<string>, l: seq<string>, n: nat)
    requires Distinct(front) && Distinct(l) && |front| <= n
    ensures Distinct(LTrim(front + l, n)) <==> forall e <- front :: e !in LTrim(l, n - |front|)
  {
    var left := LTrim(l, n - |front|);
    var all := LTrim(front + l, n);
    assert all == front + left;
    if i, j :| 0 <= i < |front| && 0 <= j < |left| && front[i] == left[j] {
      assert all[i] == all[|front| + j];
      assert front[i] in front && front[i] in left;
    } else {
      forall e <- front ensures e !in left {
        var i :| 0 <= i < |front| && front[i] == e;
        assert forall j | 0 <= j < |left| :: left[j] != front[i];
      }
      forall i, j | 0 <= i < j < |all| ensures all[i] != all[j] {
        assert all[i] == if i < |front| then front[i] else left[i - |front|];
        assert all[j] == if j < |front| then front[j] else left[j - |front|];
      }
    }
  }

  lemma {:induction false} TweetEntriesDistinct(ids: seq<string>)
    requires Distinct(ids)
    ensures |TweetEntries(ids)| == |ids| && Distinct(TweetEntries(ids))
    ensures forall id :: Codec.EncodeTweetEntry(id) in TweetEntries(ids) ==> id in ids
  {
    if ids != [] {
      var head, tail := Codec.EncodeTweetEntry(ids[0]), TweetEntries(ids[1..]);
      TweetEntriesDistinct(ids[1..]);
      forall id | Codec.EncodeTweetEntry(id) in TweetEntries(ids) ensures id in ids {
        if Codec.EncodeTweetEntry(id) == head {
          assert id == Codec.EncodeTweetEntry(id)[2..] == ids[0];
        }
      }
      assert ids[0] !in ids[1..];
      assert head !in tail;
    }
  }

  /** A backfill of distinct tweets keeps a list free of repeats exactly when it brings none
      that is still there: following someone again repeats the entries of the first time. */
  lemma BackfillKeepsDistinctIff(ids: seq<string>, l: seq<string>)
    requires Distinct(ids) && |ids| <= BACKFILL_LIMIT && Distinct(l)
    ensures Distinct(LTrim(TweetEntries(ids) + l, FOLLOWING_LIMIT))
       <==> forall e <- TweetEntries(ids) :: e !in LTrim(l, FOLLOWING_LIMIT - |ids|)
  {
    TweetEntriesDistinct(ids);
    PrependKeepsDistinctIff(TweetEntries(ids), l, FOLLOWING_LIMIT);
  }

  /** Fan-out keeps a list free of repeats exactly when its entry is not among those that stay. */
  lemma PushKeepsDistinctIff(e: string, l: seq<string>)
    requires Distinct(l)
    ensures Distinct(Pushed(l, e, 1)) <==> e !in LTrim(l, FOLLOWING_LIMIT - 1)
  {
    PrependKeepsDistinctIff([e], l, FOLLOWING_LIMIT);
    assert seq(1, _ => e) == [e];
    assert forall x <- [e] :: x == e;
    assert e in [e];
  }
}
