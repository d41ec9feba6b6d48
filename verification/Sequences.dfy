/** What several modules need of sequences: keyed lists, first positions, absence of repeats,
    and one sequence as a subsequence of another. */
module Sequences {

  /** The list kept under a key; an absent key holds the empty list. */
  function ListOf<T>(lists: map<string, seq<T>>, key: string): seq<T> {
    if key in lists then lists[key] else []
  }

  ghost predicate Distinct<T>(l: seq<T>) {
    forall i, j | 0 <= i < j < |l| :: l[i] != l[j]
  }

  function IndexOf<T(==)>(l: seq<T>, e: T): (i: nat)
    requires e in l
    ensures i < |l| && l[i] == e && e !in l[..i]
  {
    if l[0] == e then 0 else 1 + IndexOf(l[1..], e)
  }

  lemma {:induction false} FirstIndex<T>(l: seq<T>, i: nat, e: T)
    requires i < |l| && l[i] == e && e !in l[..i]
    ensures IndexOf(l, e) == i
  {
    if i > 0 {
      assert l[0] == l[..i][0];
      assert l[1..][..i - 1] == l[..i][1..];
      FirstIndex(l[1..], i - 1, e);
    }
  }

  lemma IndexOfFirst<T>(a: seq<T>, c: T, b: seq<T>)
    requires c !in a
    ensures c in a + [c] + b && IndexOf(a + [c] + b, c) == |a|
  {
    var whole := a + [c] + b;
    assert whole[|a|] == c && whole[..|a|] == a;
    FirstIndex(whole, |a|, c);
  }

  // ------------------------------------------------------------ subsequences

  ghost predicate Subseq<T>(a: seq<T>, b: seq<T>) {
    if a == [] then true
    else if b == [] then false
    else (a[0] == b[0] && Subseq(a[1..], b[1..])) || Subseq(a, b[1..])
  }

  lemma {:induction false} SubseqTail<T>(a: seq<T>, b: seq<T>)
    requires Subseq(a, b) && a != []
    ensures Subseq(a[1..], b)
  {
    if !(a[0] == b[0] && Subseq(a[1..], b[1..])) {
      SubseqTail(a, b[1..]);
    }
    if |a| > 1 {
      assert Subseq(a[1..], b[1..]);
    }
  }

  lemma {:induction false} SubseqExtend<T>(a: seq<T>, p: seq<T>, b: seq<T>)
    requires Subseq(a, b)
    ensures Subseq(a, p + b)
  {
    if p == [] {
      assert p + b == b;
    } else {
      assert (p + b)[1..] == p[1..] + b;
      SubseqExtend(a, p[1..], b);
    }
  }

  lemma {:induction false} SubseqConcat<T>(a: seq<T>, b: seq<T>, c: seq<T>, d: seq<T>)
    requires Subseq(a, b) && Subseq(c, d)
    ensures Subseq(a + c, b + d)
  {
    if a == [] {
      assert a + c == c;
      SubseqExtend(c, b, d);
    } else {
      assert (b + d)[1..] == b[1..] + d && (b + d)[0] == b[0];
      if a[0] == b[0] && Subseq(a[1..], b[1..]) {
        SubseqConcat(a[1..], b[1..], c, d);
        assert (a + c)[1..] == a[1..] + c;
      } else {
        SubseqConcat(a, b[1..], c, d);
      }
    }
  }

  lemma {:induction false} SubseqRefl<T>(a: seq<T>)
    ensures Subseq(a, a)
  {
    if a != [] {
      SubseqRefl(a[1..]);
    }
  }

  lemma {:induction false} SubseqPrefix<T>(a: seq<T>, b: seq<T>, n: nat)
    requires Subseq(a, b) && n <= |a|
    ensures Subseq(a[..n], b)
  {
    if n > 0 {
      if a[0] == b[0] && Subseq(a[1..], b[1..]) {
        SubseqPrefix(a[1..], b[1..], n - 1);
        assert a[..n][1..] == a[1..][..n - 1];
      } else {
        SubseqPrefix(a, b[1..], n);
      }
    }
  }

  lemma {:induction false} SubseqElements<T>(a: seq<T>, b: seq<T>)
    requires Subseq(a, b)
    ensures |a| <= |b| && forall e <- a :: e in b
  {
    if a != [] {
      if a[0] == b[0] && Subseq(a[1..], b[1..]) {
        SubseqElements(a[1..], b[1..]);
        assert a == [a[0]] + a[1..];
      } else {
        SubseqElements(a, b[1..]);
      }
    }
  }

  lemma {:induction false} SubseqTrans<T>(a: seq<T>, b: seq<T>, c: seq<T>)
    requires Subseq(a, b) && Subseq(b, c)
    ensures Subseq(a, c)
    decreases |c|
  {
    if a != [] {
      if b[0] == c[0] && Subseq(b[1..], c[1..]) {
        if a[0] == b[0] && Subseq(a[1..], b[1..]) {
          SubseqTrans(a[1..], b[1..], c[1..]);
        } else {
          SubseqTrans(a, b[1..], c[1..]);
        }
      } else {
        SubseqTrans(a, b, c[1..]);
      }
    }
  }

  lemma Reassociate<T>(a: seq<T>, b: seq<T>, c: seq<T>)
    ensures (a + b) + c == a + (b + c)
  {
  }

  // ------------------------------------------------------ what is picked out

  /** `kept` is, in order, what stands in `all` at the positions `at`. */
  ghost predicate Picked<T>(all: seq<T>, kept: seq<T>, at: seq<nat>) {
    && |at| == |kept|
    && (forall j | 0 <= j < |at| :: at[j] < |all| && kept[j] == all[at[j]])
    && (forall i, j | 0 <= i < j < |at| :: at[i] < at[j])
  }

  function Shifted(at: seq<nat>): seq<nat> {
    seq(|at|, j requires 0 <= j < |at| => at[j] + 1)
  }

  lemma ShiftedMembers(at: seq<nat>)
    ensures 0 !in Shifted(at)
    ensures forall i: nat :: i + 1 in Shifted(at) <==> i in at
  {
    forall i: nat | i in at ensures i + 1 in Shifted(at) {
      var j :| 0 <= j < |at| && at[j] == i;
      assert Shifted(at)[j] == i + 1;
    }
  }

  /** One element more in front, left out. */
  lemma PickedSkip<T>(x: T, all: seq<T>, kept: seq<T>, at: seq<nat>)
    requires Picked(all, kept, at)
    ensures Picked([x] + all, kept, Shifted(at))
  {
    var more, longer := Shifted(at), [x] + all;
    forall j | 0 <= j < |more| ensures more[j] < |longer| && kept[j] == longer[more[j]] {
      assert longer[at[j] + 1] == all[at[j]];
    }
  }

  /** One element more in front, kept. */
  lemma PickedKeep<T>(x: T, all: seq<T>, kept: seq<T>, at: seq<nat>)
    requires Picked(all, kept, at)
    ensures Picked([x] + all, [x] + kept, [0] + Shifted(at))
  {
    var more, longer := [0] + Shifted(at), [x] + all;
    PickedSkip(x, all, kept, at);
    forall j | 0 <= j < |more| ensures more[j] < |longer| && ([x] + kept)[j] == longer[more[j]] {
      if j > 0 {
        assert more[j] == Shifted(at)[j - 1] && ([x] + kept)[j] == kept[j - 1];
      }
    }
    forall i, j | 0 <= i < j < |more| ensures more[i] < more[j] {
      assert more[j] == Shifted(at)[j - 1];
    }
  }

  lemma PickedCons<T>(x: T, all: seq<T>, kept: seq<T>, at: seq<nat>, keep: bool) returns (more: seq<nat>)
    requires Picked(all, kept, at)
    ensures Picked([x] + all, (if keep then [x] else []) + kept, more)
    ensures 0 in more <==> keep
    ensures forall i: nat :: i + 1 in more <==> i in at
  {
    ShiftedMembers(at);
    if keep {
      PickedKeep(x, all, kept, at);
      more := [0] + Shifted(at);
    } else {
      PickedSkip(x, all, kept, at);
      assert [] + kept == kept;
      more := Shifted(at);
    }
  }

  ghost predicate Rising(at: seq<nat>) {
    forall i, j | 0 <= i < j < |at| :: at[i] < at[j]
  }

  /** These are the positions of the elements with this property. */
  ghost predicate PositionsOf<T>(all: seq<T>, at: seq<nat>, has: T -> bool) {
    forall i: nat | i < |all| :: i in at <==> has(all[i])
  }

  /** One element for each position, standing in this relation to what is there. */
  ghost predicate EachFits<T, U>(all: seq<T>, out: seq<U>, at: seq<nat>, fits: (T, U) -> bool) {
    |at| == |out| && forall j | 0 <= j < |at| :: at[j] < |all| && fits(all[at[j]], out[j])
  }

  /** `out` holds, in order, one element for each of `all` that has one: those at `at`, each
      standing in this relation to its own. */
  ghost predicate Matched<T, U>(all: seq<T>, out: seq<U>, at: seq<nat>, has: T -> bool, fits: (T, U) -> bool) {
    Rising(at) && PositionsOf(all, at, has) && EachFits(all, out, at, fits)
  }

  lemma RisingShift(at: seq<nat>)
    requires Rising(at)
    ensures Rising(Shifted(at)) && Rising([0] + Shifted(at))
  {
    var more := [0] + Shifted(at);
    forall i, j | 0 <= i < j < |more| ensures more[i] < more[j] {
      assert more[j] == at[j - 1] + 1 && (i > 0 ==> more[i] == at[i - 1] + 1);
    }
  }

  lemma PositionsShift<T>(x: T, all: seq<T>, at: seq<nat>, has: T -> bool)
    requires PositionsOf(all, at, has)
    ensures PositionsOf([x] + all, if has(x) then [0] + Shifted(at) else Shifted(at), has)
  {
    var more, longer := if has(x) then [0] + Shifted(at) else Shifted(at), [x] + all;
    ShiftedMembers(at);
    forall i: nat | i < |longer| ensures i in more <==> has(longer[i]) {
      if i > 0 {
        assert i in more <==> i in Shifted(at);
        assert longer[i] == all[i - 1] && (i - 1) + 1 == i;
      }
    }
  }

  lemma FitsShift<T, U>(x: T, all: seq<T>, out: seq<U>, at: seq<nat>, fits: (T, U) -> bool)
    requires EachFits(all, out, at, fits)
    ensures EachFits([x] + all, out, Shifted(at), fits)
  {
    var longer := [x] + all;
    forall j | 0 <= j < |at| ensures Shifted(at)[j] < |longer| && fits(longer[Shifted(at)[j]], out[j]) {
      assert longer[at[j] + 1] == all[at[j]];
    }
  }

  lemma FitsMore<T, U>(x: T, y: U, all: seq<T>, out: seq<U>, at: seq<nat>, fits: (T, U) -> bool)
    requires EachFits([x] + all, out, at, fits) && fits(x, y)
    ensures EachFits([x] + all, [y] + out, [0] + at, fits)
  {
    var more, wider := [0] + at, [y] + out;
    forall j | 0 <= j < |more| ensures more[j] < 1 + |all| && fits(([x] + all)[more[j]], wider[j]) {
      if j > 0 {
        assert more[j] == at[j - 1] && wider[j] == out[j - 1];
      }
    }
  }

  lemma MatchedSkip<T, U>(x: T, all: seq<T>, out: seq<U>, at: seq<nat>, has: T -> bool, fits: (T, U) -> bool)
    requires Matched(all, out, at, has, fits) && !has(x)
    ensures Matched([x] + all, out, Shifted(at), has, fits)
  {
    RisingShift(at);
    PositionsShift(x, all, at, has);
    FitsShift(x, all, out, at, fits);
  }

  lemma MatchedKeep<T, U>(x: T, y: U, all: seq<T>, out: seq<U>, at: seq<nat>, has: T -> bool, fits: (T, U) -> bool)
    requires Matched(all, out, at, has, fits) && has(x) && fits(x, y)
    ensures Matched([x] + all, [y] + out, [0] + Shifted(at), has, fits)
  {
    RisingShift(at);
    PositionsShift(x, all, at, has);
    FitsShift(x, all, out, at, fits);
    FitsMore(x, y, all, out, Shifted(at), fits);
  }
}
