/** The retry interceptor of the gRPC clients: full-jitter exponential backoff computed in
    64-bit arithmetic that wraps. Durations are in nanoseconds. */
module Grpcretry {
  import opened Strconv
  import opened Wrappers

  const TWO_63 := 0x8000_0000_0000_0000
  const TWO_64 := 0x1_0000_0000_0000_0000
  const MILLISECOND := 1_000_000

  type Code = int
  const DEADLINE_EXCEEDED: Code := 4
  const UNAVAILABLE: Code := 14

  function Pow2(n: nat): (p: nat)
    ensures p >= 1
  {
    if n == 0 then 1 else 2 * Pow2(n - 1)
  }

  /** The 64-bit value of `x`. */
  function Wrap(x: int): (w: int)
    ensures IsInt64(w)
  {
    (x + TWO_63) % TWO_64 - TWO_63
  }

  /** The delay is meant to stay below this. */
  function Ceiling(base: int, max: int, attempt: nat): int {
    var exact := base * Pow2(attempt);
    if exact < max then exact else max
  }

  /** The bound the code computes, `base << attempt` cut off at `max`. */
  function Cap(base: int, max: int, attempt: nat): int {
    var cap := Wrap(base * Pow2(attempt));
    if cap > max || cap <= 0 then max else cap
  }

  lemma WrapIsCongruent(x: int)
    ensures Wrap(x) == x - TWO_64 * ((x + TWO_63) / TWO_64)
  {
  }

  lemma MulPos(a: int, b: int)
    requires a > 0 && b > 0
    ensures a * b > 0
  {
  }

  lemma WrapBound(x: int)
    requires x >= 0
    ensures Wrap(x) <= x && (x < TWO_63 ==> Wrap(x) == x)
  {
    WrapIsCongruent(x);
  }

  /** For every base, maximum and attempt the random generator gets a positive bound, and no
      larger than meant. */
  lemma CapIsSafe(base: int, max: int, attempt: nat)
    requires 0 < base && 0 < max < TWO_63
    ensures 0 < Cap(base, max, attempt) <= Ceiling(base, max, attempt)
  {
    MulPos(base, Pow2(attempt));
    WrapBound(base * Pow2(attempt));
  }

  /** The bound is exactly the one meant, unless the shift overflows into a small positive
      number. */
  lemma CapIsCeilingIff(base: int, max: int, attempt: nat)
    requires 0 < base && 0 < max < TWO_63
    ensures Cap(base, max, attempt) == Ceiling(base, max, attempt)
       <==> !(0 < Wrap(base * Pow2(attempt)) < max < base * Pow2(attempt))
  {
    MulPos(base, Pow2(attempt));
    WrapBound(base * Pow2(attempt));
  }

  lemma WrapIs(x: int, w: int, turns: int)
    requires w == x - TWO_64 * turns && -TWO_63 <= w < TWO_63
    ensures Wrap(x) == w
  {
    assert x + TWO_63 == TWO_64 * turns + (w + TWO_63);
  }

  /** The bound is the product's 64-bit value where that lies from 1 to the maximum, and
      otherwise the maximum. */
  lemma CapIs(base: int, max: int, attempt: nat, w: int, turns: int)
    requires w == base * Pow2(attempt) - 0x1_0000_0000_0000_0000 * turns
    requires -0x8000_0000_0000_0000 <= w < 0x8000_0000_0000_0000
    ensures Cap(base, max, attempt) == if 1 <= w <= max then w else max
  {
    WrapIs(base * Pow2(attempt), w, turns);
  }

  lemma {:induction false} Pow2Splits(a: nat, b: nat)
    ensures Pow2(a + b) == Pow2(a) * Pow2(b)
  {
    if a > 0 {
      Pow2Splits(a - 1, b);
    }
  }

  lemma MulMonotone(a: int, b: int, c: int)
    requires a <= b && c >= 0
    ensures a * c <= b * c
  {
  }

  lemma MultipleAtLeast(m: int, k: int)
    requires k > 0 && m * k > 0
    ensures m * k >= k
  {
    if m < 1 {
      MulMonotone(m, 0, k);
    } else {
      MulMonotone(1, m, k);
    }
  }

  lemma Pow2Of8()
    ensures Pow2(8) == 256
  {
    assert Pow2(2) == 4;
    Pow2Splits(2, 2);
    Pow2Splits(4, 4);
  }

  lemma Pow2Of32()
    ensures Pow2(32) == 0x1_0000_0000
  {
    Pow2Of8();
    Pow2Splits(8, 8);
    Pow2Splits(16, 16);
  }

  lemma Pow2Of64()
    ensures Pow2(64) == TWO_64
  {
    Pow2Of32();
    Pow2Splits(32, 32);
  }

  lemma Factor(base: int, p: int, r: int, q: int)
    ensures base * p - p * r * q == (base - r * q) * p
  {
  }

  /** What is left of an overflowing shift by `attempt` is a multiple of `2^attempt`. */
  lemma WrapOfShift(base: int, attempt: nat)
    requires attempt <= 64 && Wrap(base * Pow2(attempt)) > 0
    ensures Wrap(base * Pow2(attempt)) >= Pow2(attempt)
  {
    var p, x := Pow2(attempt), base * Pow2(attempt);
    WrapIsCongruent(x);
    Pow2Splits(attempt, 64 - attempt);
    Pow2Of64();
    var q, r := (x + TWO_63) / TWO_64, Pow2(64 - attempt);
    assert Wrap(x) == x - p * r * q;
    Factor(base, p, r, q);
    MultipleAtLeast(base - r * q, p);
  }

  lemma MulSwap(a: int, b: int, c: int)
    ensures a * (b * c) == b * (a * c)
  {
  }

  lemma WrapOfMultiple(k: int)
    ensures Wrap(TWO_64 * k) == 0
  {
  }

  lemma ShiftedOut(base: int, attempt: nat)
    requires attempt >= 64
    ensures Wrap(base * Pow2(attempt)) == 0
  {
    Pow2Splits(64, attempt - 64);
    Pow2Of64();
    MulSwap(base, TWO_64, Pow2(attempt - 64));
    WrapOfMultiple(base * Pow2(attempt - 64));
  }

  lemma MulCancels(a: int, b: int, c: int)
    requires a > 0 && a * b <= a * c
    ensures b <= c
  {
    if c < b {
      MulPos(a, b - c);
    }
  }

  lemma OverflowIsLarge(base: int, max: int, attempt: nat)
    requires 0 < base && 0 < max && base * max <= TWO_63 <= base * Pow2(attempt)
    requires Wrap(base * Pow2(attempt)) > 0
    ensures Wrap(base * Pow2(attempt)) >= max
  {
    if attempt > 64 {
      ShiftedOut(base, attempt);
    } else {
      WrapOfShift(base, attempt);
      MulCancels(base, max, Pow2(attempt));
    }
  }

  /** Overflow never shows when base times maximum fits in 63 bits, as the defaults do: then
      the bound is the one meant at every attempt. */
  lemma CapIsExact(base: int, max: int, attempt: nat)
    requires 0 < base && 0 < max < TWO_63 && base * max <= TWO_63
    ensures Cap(base, max, attempt) == Ceiling(base, max, attempt)
  {
    MulPos(base, Pow2(attempt));
    WrapBound(base * Pow2(attempt));
    if base * Pow2(attempt) >= TWO_63 && Wrap(base * Pow2(attempt)) > 0 {
      OverflowIsLarge(base, max, attempt);
    }
  }

  // -------------------------------------------------------------------- code

  /** rand.Int64N panics unless its bound is positive. */
  function Int64N(n: int, seed: nat): (r: int)
    requires n > 0
    ensures 0 <= r < n
  {
    seed % n
  }

  method Jitter(base: int, max: int, attempt: nat, seed: nat) returns (delay: int)
    requires 0 < base < TWO_63 && 0 < max < TWO_63
    ensures 0 < Cap(base, max, attempt) && delay == seed % Cap(base, max, attempt)
    ensures 0 <= delay < Ceiling(base, max, attempt)
  {
    CapIsSafe(base, max, attempt);
    var cap := Wrap(base * Pow2(attempt));
    if cap > max || cap <= 0 {
      cap := max;
    }
    delay := Int64N(cap, seed);
  }

  class Options {
    var maxAttempts: int
    var baseDelay: int
    var maxDelay: int
    var retryCodes: seq<Code>

    ghost predicate Valid()
      reads this
    {
      0 < maxAttempts && 0 < baseDelay < TWO_63 && 0 < maxDelay < TWO_63 && retryCodes != []
    }

    constructor (maxAttempts: int, baseDelay: int, maxDelay: int, retryCodes: seq<Code>)
      ensures this.maxAttempts == maxAttempts && this.baseDelay == baseDelay
              && this.maxDelay == maxDelay && this.retryCodes == retryCodes
    {
      this.maxAttempts, this.baseDelay, this.maxDelay, this.retryCodes := maxAttempts, baseDelay, maxDelay, retryCodes;
    }

    /** Leaves usable options alone and fills in the rest. An empty list of codes is filled in
        as well, so it does not turn retries off. */
    method ApplyDefaults()
      requires IsInt64(baseDelay) && IsInt64(maxDelay)
      modifies this
      ensures Valid()
      ensures maxAttempts == if old(maxAttempts) > 0 then old(maxAttempts) else 3
      ensures baseDelay == if old(baseDelay) > 0 then old(baseDelay) else 50 * MILLISECOND
      ensures maxDelay == if old(maxDelay) > 0 then old(maxDelay) else 500 * MILLISECOND
      ensures retryCodes == if old(retryCodes) != [] then old(retryCodes) else [UNAVAILABLE, DEADLINE_EXCEEDED]
      ensures UNAVAILABLE in retryCodes <==> old(retryCodes) == [] || UNAVAILABLE in old(retryCodes)
    {
      if maxAttempts <= 0 {
        maxAttempts := 3;
      }
      if baseDelay <= 0 {
        baseDelay := 50 * MILLISECOND;
      }
      if maxDelay <= 0 {
        maxDelay := 500 * MILLISECOND;
      }
      if |retryCodes| == 0 {
        retryCodes := [UNAVAILABLE, DEADLINE_EXCEEDED];
      }
    }
  }

  /** What the outside does during one call: `answers(i)` is the status code of try `i`, none
      when it succeeds; `dead(i)` says the context is done before try `i`, `woken(i)` that it
      ends during the wait after it. */
  datatype Script = Script(answers: nat -> Option<Code>, dead: nat -> bool, woken: nat -> bool, seeds: nat -> nat)

  datatype Return = Success | ContextError | Failure(code: Code)

  /** Try `i` is followed by another one. */
  ghost predicate GoesOn(script: Script, retryable: set<Code>, maxAttempts: int, i: nat) {
    && !script.dead(i) && script.answers(i).Some? && script.answers(i).value in retryable
    && i < maxAttempts - 1 && !script.woken(i)
  }

  ghost function Ends(script: Script, retryable: set<Code>, maxAttempts: int, i: nat): Return {
    if script.dead(i) then ContextError
    else match script.answers(i)
         case None => Success
         case Some(code) => if code !in retryable || i == maxAttempts - 1 then Failure(code) else ContextError
  }

  /** The call stops at try `last`, the first that is not followed by another. */
  ghost predicate StopsAt(script: Script, retryable: set<Code>, maxAttempts: int,
                          last: nat, r: Return, calls: nat, waits: nat)
  {
    && last < maxAttempts
    && (forall i: nat | i < last :: GoesOn(script, retryable, maxAttempts, i))
    && !GoesOn(script, retryable, maxAttempts, last)
    && r == Ends(script, retryable, maxAttempts, last)
    && calls == (if script.dead(last) then last else last + 1)
    && waits == (if r == ContextError && !script.dead(last) then last + 1 else last)
  }

  function Sum(xs: seq<int>): int {
    if xs == [] then 0 else Sum(xs[..|xs| - 1]) + xs[|xs| - 1]
  }

  function Ceilings(base: int, max: int, n: nat): int {
    if n == 0 then 0 else Ceilings(base, max, n - 1) + Ceiling(base, max, n - 1)
  }

  /** With the default delays, two waits stay under 150 milliseconds together; and no waits
      ever add up to more than the maximum each. */
  lemma {:induction false} CeilingsBound(base: int, max: int, n: nat)
    requires 0 < base && 0 < max
    ensures Ceilings(base, max, n) <= n * max
    ensures Ceilings(50 * MILLISECOND, 500 * MILLISECOND, 2) == 150 * MILLISECOND
  {
    if n > 0 {
      CeilingsBound(base, max, n - 1);
    }
    assert Pow2(1) == 2;
    assert Ceilings(50 * MILLISECOND, 500 * MILLISECOND, 1) == 50 * MILLISECOND;
  }

  /** Each wait is below its ceiling, and all together are below the sum of the ceilings. */
  predicate SleepsWithin(base: int, max: int, sleeps: seq<int>) {
    && (forall i | 0 <= i < |sleeps| :: 0 <= sleeps[i] < Ceiling(base, max, i))
    && 0 <= Sum(sleeps) <= Ceilings(base, max, |sleeps|)
    && (sleeps != [] ==> Sum(sleeps) < Ceilings(base, max, |sleeps|))
  }

  lemma SleepOnce(base: int, max: int, sleeps: seq<int>, delay: int)
    requires SleepsWithin(base, max, sleeps) && 0 <= delay < Ceiling(base, max, |sleeps|)
    ensures SleepsWithin(base, max, sleeps + [delay])
  {
    assert (sleeps + [delay])[..|sleeps|] == sleeps;
  }

  /** Each wait is drawn below the bound of its try, and with defaults below the one meant. */
  ghost predicate Drawn(script: Script, base: int, max: int, sleeps: seq<int>) {
    forall i | 0 <= i < |sleeps| ::
      && 0 < Cap(base, max, i) && sleeps[i] == script.seeds(i) % Cap(base, max, i)
      && (base * max <= TWO_63 ==> 0 < Ceiling(base, max, i) && sleeps[i] == script.seeds(i) % Ceiling(base, max, i))
  }

  ghost predicate Slept(script: Script, base: int, max: int, sleeps: seq<int>) {
    SleepsWithin(base, max, sleeps) && Drawn(script, base, max, sleeps)
  }

  lemma DrawOnce(script: Script, base: int, max: int, sleeps: seq<int>, delay: int)
    requires 0 < base && 0 < max < TWO_63 && Drawn(script, base, max, sleeps)
    requires 0 < Cap(base, max, |sleeps|) && delay == script.seeds(|sleeps|) % Cap(base, max, |sleeps|)
    ensures Drawn(script, base, max, sleeps + [delay])
  {
    if base * max <= TWO_63 {
      CapIsExact(base, max, |sleeps|);
    }
  }

  method Retryable(retryCodes: seq<Code>) returns (retryable: set<Code>)
    ensures retryable == set code <- retryCodes
  {
    retryable := {};
    for i := 0 to |retryCodes|
      invariant retryable == set code <- retryCodes[..i]
    {
      assert retryCodes[..i + 1] == retryCodes[..i] + [retryCodes[i]];
      retryable := retryable + {retryCodes[i]};
    }
    assert retryCodes[..|retryCodes|] == retryCodes;
  }

  /** The wait after a failed try. */
  method Sleep(opts: Options, script: Script, sleeps: seq<int>) returns (slept: seq<int>)
    requires opts.Valid() && Slept(script, opts.baseDelay, opts.maxDelay, sleeps)
    ensures |slept| == |sleeps| + 1 && slept[..|sleeps|] == sleeps
    ensures Slept(script, opts.baseDelay, opts.maxDelay, slept)
  {
    var attempt := |sleeps|;
    CapIsSafe(opts.baseDelay, opts.maxDelay, attempt);
    var delay := Jitter(opts.baseDelay, opts.maxDelay, attempt, script.seeds(attempt));
    SleepOnce(opts.baseDelay, opts.maxDelay, sleeps, delay);
    DrawOnce(script, opts.baseDelay, opts.maxDelay, sleeps, delay);
    slept := sleeps + [delay];
  }

  /** One intercepted call. Tries go on, one after the other, while each fails with a
      retryable code before the last; the result is that of the try it stops at. */
  method Intercept(opts: Options, script: Script) returns (r: Return, calls: nat, sleeps: seq<int>)
    requires opts.Valid()
    ensures var codes := set code <- opts.retryCodes;
            exists last: nat :: StopsAt(script, codes, opts.maxAttempts, last, r, calls, |sleeps|)
    ensures calls <= opts.maxAttempts
    ensures Slept(script, opts.baseDelay, opts.maxDelay, sleeps)
  {
    var retryable := Retryable(opts.retryCodes);
    sleeps, calls := [], 0;
    var attempt := 0;
    while attempt < opts.maxAttempts
      invariant 0 <= attempt < opts.maxAttempts && calls == attempt == |sleeps|
      invariant forall i: nat | i < attempt :: GoesOn(script, retryable, opts.maxAttempts, i)
      invariant Slept(script, opts.baseDelay, opts.maxDelay, sleeps)
    {
      if script.dead(attempt) {
        assert StopsAt(script, retryable, opts.maxAttempts, attempt, ContextError, calls, |sleeps|);
        return ContextError, calls, sleeps;
      }
      var lastErr := script.answers(attempt);
      calls := calls + 1;
      if lastErr.None? {
        assert StopsAt(script, retryable, opts.maxAttempts, attempt, Success, calls, |sleeps|);
        return Success, calls, sleeps;
      }
      if lastErr.value !in retryable {
        assert StopsAt(script, retryable, opts.maxAttempts, attempt, Failure(lastErr.value), calls, |sleeps|);
        return Failure(lastErr.value), calls, sleeps;
      }
      if attempt == opts.maxAttempts - 1 {
        assert StopsAt(script, retryable, opts.maxAttempts, attempt, Failure(lastErr.value), calls, |sleeps|);
        return Failure(lastErr.value), calls, sleeps;
      }
      sleeps := Sleep(opts, script, sleeps);
      if script.woken(attempt) {
        assert StopsAt(script, retryable, opts.maxAttempts, attempt, ContextError, calls, |sleeps|);
        return ContextError, calls, sleeps;
      }
      attempt := attempt + 1;
    }
    // the loop is left by one of its returns
    r := Success;
  }
}
