/**
 Sizing of a client's endpoint pool and the gap it leaves between two calls of one endpoint.
 */
module PoolSizing {
  import opened Arithmetic

  const INTERCALL_GAP_SEC: int := 2

  function Ceil(x: real): (c: int)
    ensures c as real - 1.0 < x <= c as real
  {
    -((-x).Floor)
  }

  // int(call_duration/1_000)
  function Seconds(durationMs: nat): nat {
    durationMs / 1000
  }

  // Number of endpoints; 0 stands for a setting that is absent.
  function PoolSize(numberEndpoints: nat, cps: real, durationMs: nat, totalCalls: nat): int {
    var n := if numberEndpoints != 0 then numberEndpoints
             else Ceil(cps * (Seconds(durationMs) + INTERCALL_GAP_SEC) as real);
    if totalCalls != 0 && totalCalls < n then totalCalls else n
  }

  /** The size: the explicit number, or else the least one that is no smaller than the rate times the
      whole seconds of a call and two more; never more than the total number of calls, if there is one. */
  lemma PoolSizeIs(numberEndpoints: nat, cps: real, durationMs: nat, totalCalls: nat)
    ensures var n := PoolSize(numberEndpoints, cps, durationMs, totalCalls);
            var free := PoolSize(numberEndpoints, cps, durationMs, 0);
            && n == (if 0 < totalCalls < free then totalCalls else free)
            && (numberEndpoints > 0 ==> free == numberEndpoints)
            && (numberEndpoints == 0 ==>
                  && free as real >= cps * (durationMs / 1000 + 2) as real
                  && (free - 1) as real < cps * (durationMs / 1000 + 2) as real)
  {
  }

  // Calls start at a constant rate and take the endpoints in turn.
  function CallStart(k: nat, cps: real): real
    requires cps > 0.0
  {
    k as real / cps
  }

  function CallEnd(k: nat, cps: real, durationMs: nat): real
    requires cps > 0.0
  {
    CallStart(k, cps) + durationMs as real / 1000.0
  }

  // Calls that are made at all.
  predicate Made(k: nat, totalCalls: nat) {
    totalCalls != 0 ==> k < totalCalls
  }

  lemma DivideBound(x: real, y: real, cps: real)
    requires cps > 0.0 && x >= cps * y
    ensures x / cps >= y
  {
    assert x == cps * (x / cps);
  }

  lemma DivideStrict(x: real, y: real, cps: real)
    requires cps > 0.0 && x < cps * y
    ensures x / cps < y
  {
    assert x == cps * (x / cps);
  }

  lemma SameEndpoint(j: nat, k: nat, n: nat)
    requires n > 0 && j < k && j % n == k % n
    ensures k - j >= n
  {
    var d := k / n - j / n;
    Distribute(k / n, j / n, n);
    assert d * n == k - j;
    assert d >= 1;
    AtLeastOnce(d, n);
  }

  // n endpoints are enough for a start every gap seconds of each of them.
  lemma StartsApart(n: nat, cps: real, gap: real, j: nat, k: nat)
    requires cps > 0.0 && n > 0 && n as real >= cps * gap && j < k && j % n == k % n
    ensures CallStart(k, cps) >= CallStart(j, cps) + gap
  {
    SameEndpoint(j, k, n);
    DivideBound((k - j) as real, gap, cps);
    assert CallStart(k, cps) - CallStart(j, cps) == (k - j) as real / cps;
  }

  lemma PoolPositive(cps: real, durationMs: nat, totalCalls: nat)
    requires cps > 0.0
    ensures PoolSize(0, cps, durationMs, totalCalls) > 0
  {
    assert cps * (Seconds(durationMs) + INTERCALL_GAP_SEC) as real > 0.0;
  }

  /** Without an explicit pool size, an endpoint is never reused until more than one second after
      its previous call ended, although the duration is truncated to seconds; and when the total
      number of calls caps the pool, no endpoint is reused. */
  lemma ReuseGap(cps: real, durationMs: nat, totalCalls: nat, j: nat, k: nat)
    requires cps > 0.0 && j < k && Made(j, totalCalls) && Made(k, totalCalls)
    ensures var n := PoolSize(0, cps, durationMs, totalCalls);
            && n > 0
            && (j % n == k % n ==>
                  CallStart(k, cps) > CallEnd(j, cps, durationMs) + 1.0 && n != totalCalls)
  {
    PoolPositive(cps, durationMs, totalCalls);
    var n := PoolSize(0, cps, durationMs, totalCalls);
    if j % n == k % n {
      var gap := (Seconds(durationMs) + INTERCALL_GAP_SEC) as real;
      assert durationMs as real / 1000.0 + 1.0 < gap;
      if n == totalCalls {
        SameEndpoint(j, k, n);
        assert false;
      }
      assert n as real >= cps * gap;
      StartsApart(n, cps, gap, j, k);
    }
  }

  /** No smaller pool leaves the gap after the truncated duration. */
  lemma PoolIsLeast(cps: real, durationMs: nat, m: nat)
    requires cps > 0.0 && m < PoolSize(0, cps, durationMs, 0)
    ensures CallStart(m, cps) < CallStart(0, cps) + (Seconds(durationMs) + INTERCALL_GAP_SEC) as real
  {
    var gap := (Seconds(durationMs) + INTERCALL_GAP_SEC) as real;
    assert m as real < cps * gap;
    DivideStrict(m as real, gap, cps);
  }

  // Every reuse of an endpoint of a pool of n leaves the intended gap after its previous call.
  ghost predicate KeepsFullGap(n: nat, cps: real, durationMs: nat, totalCalls: nat)
    requires cps > 0.0 && n > 0
  {
    forall j: nat, k: nat :: j < k && Made(j, totalCalls) && Made(k, totalCalls) && j % n == k % n ==>
                               CallStart(k, cps) >= CallEnd(j, cps, durationMs) + INTERCALL_GAP_SEC as real
  }

  // The number of endpoints the gap takes, the duration not truncated.
  function Needed(cps: real, durationMs: nat): real {
    cps * (durationMs as real / 1000.0 + INTERCALL_GAP_SEC as real)
  }

  lemma EnoughKeepsGap(n: nat, cps: real, durationMs: nat, totalCalls: nat)
    requires cps > 0.0 && n > 0 && n as real >= Needed(cps, durationMs)
    ensures KeepsFullGap(n, cps, durationMs, totalCalls)
  {
    var gap := durationMs as real / 1000.0 + INTERCALL_GAP_SEC as real;
    forall j: nat, k: nat | j < k && j % n == k % n
      ensures CallStart(k, cps) >= CallEnd(j, cps, durationMs) + INTERCALL_GAP_SEC as real
    {
      StartsApart(n, cps, gap, j, k);
    }
  }

  // The first reuse, call n on the endpoint of call 0, comes too early.
  lemma TooFewLoseGap(n: nat, cps: real, durationMs: nat, totalCalls: nat)
    requires cps > 0.0 && n > 0 && (n as real) < Needed(cps, durationMs) && Made(n, totalCalls)
    ensures CallStart(n, cps) < CallEnd(0, cps, durationMs) + INTERCALL_GAP_SEC as real
    ensures !KeepsFullGap(n, cps, durationMs, totalCalls)
  {
    assert 0 % n == n % n && Made(0, totalCalls);
    assert CallStart(0, cps) == 0.0;
    DivideStrict(n as real, durationMs as real / 1000.0 + INTERCALL_GAP_SEC as real, cps);
  }

  // A pool as large as the number of calls is never used twice.
  lemma NoReuseKeepsGap(n: nat, cps: real, durationMs: nat)
    requires cps > 0.0 && n > 0
    ensures KeepsFullGap(n, cps, durationMs, n)
  {
    forall j: nat, k: nat | j < k && Made(j, n) && Made(k, n) ensures j % n != k % n {
      if j % n == k % n { SameEndpoint(j, k, n); }
    }
  }

  lemma GapExactly(n: nat, cps: real, durationMs: nat, totalCalls: nat)
    requires cps > 0.0 && n > 0 && (totalCalls != 0 ==> n <= totalCalls)
    ensures KeepsFullGap(n, cps, durationMs, totalCalls) <==> n as real >= Needed(cps, durationMs) || n == totalCalls
  {
    if n as real >= Needed(cps, durationMs) {
      EnoughKeepsGap(n, cps, durationMs, totalCalls);
    } else if n == totalCalls {
      NoReuseKeepsGap(n, cps, durationMs);
    } else {
      TooFewLoseGap(n, cps, durationMs, totalCalls);
    }
  }

  /** Whatever sets its size (an explicit number, the computed one, rounded or not, or the total
      number of calls), a pool leaves the whole two seconds in every reuse exactly when it covers
      the duration in milliseconds, or when the calls run out before any endpoint is reused. */
  lemma FullGapExactly(numberEndpoints: nat, cps: real, durationMs: nat, totalCalls: nat)
    requires cps > 0.0
    ensures var n := PoolSize(numberEndpoints, cps, durationMs, totalCalls);
            && n > 0
            && (KeepsFullGap(n, cps, durationMs, totalCalls)
                <==> n as real >= Needed(cps, durationMs) || n == totalCalls)
  {
    PoolPositive(cps, durationMs, totalCalls);
    hide KeepsFullGap, Needed, Seconds;
    GapExactly(PoolSize(numberEndpoints, cps, durationMs, totalCalls), cps, durationMs, totalCalls);
  }

  /** The computed pool covers a duration of whole seconds, and when the computation rounds nothing,
      only such a duration. */
  lemma WholeSecondsKeepGap(cps: real, durationMs: nat)
    requires cps > 0.0
    ensures PoolSize(0, cps, durationMs, 0) > 0
    ensures durationMs % 1000 == 0 ==> KeepsFullGap(PoolSize(0, cps, durationMs, 0), cps, durationMs, 0)
    ensures PoolSize(0, cps, durationMs, 0) as real == cps * (Seconds(durationMs) + INTERCALL_GAP_SEC) as real ==>
              (KeepsFullGap(PoolSize(0, cps, durationMs, 0), cps, durationMs, 0) <==> durationMs % 1000 == 0)
  {
    FullGapExactly(0, cps, durationMs, 0);
    var whole := (Seconds(durationMs) + INTERCALL_GAP_SEC) as real;
    var exact := durationMs as real / 1000.0 + INTERCALL_GAP_SEC as real;
    if durationMs % 1000 == 0 {
      assert exact == whole;
    } else {
      assert cps * exact - cps * whole == cps * (exact - whole) > 0.0;
    }
  }

  /** At one call a second, calls of 1500 ms get three endpoints, and the first of them is used again
      a second and a half after its call ended. */
  lemma HalfSecondLosesGap()
    ensures PoolSize(0, 1.0, 1500, 0) == 3
    ensures CallStart(3, 1.0) == CallEnd(0, 1.0, 1500) + 1.5
    ensures !KeepsFullGap(3, 1.0, 1500, 0)
  {
    TooFewLoseGap(3, 1.0, 1500, 0);
  }

  /** Rounding up can make good for the truncation: at 0.3 calls a second, calls of 10500 ms get four
      endpoints, and the gap is kept. */
  lemma RoundingCanKeepGap()
    ensures PoolSize(0, 0.3, 10500, 0) == 4 && KeepsFullGap(4, 0.3, 10500, 0)
  {
    EnoughKeepsGap(4, 0.3, 10500, 0);
  }
}
