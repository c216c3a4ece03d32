/** internal/retry/retry.go: capped exponential backoff. Durations are reals; the float
    rounding of the Go code is not modelled. */
module Retry {

  datatype Options = Options(maxAttempts: int, baseDelay: real, maxDelay: real)

  /** What the world does at one attempt: the context is done before it, the call
      succeeds, the wait drawn after it, and whether the context is done during that wait. */
  datatype Turn = Turn(ctxDone: bool, success: bool, wait: real, cancelledWaiting: bool)

  datatype Outcome = Nil | LastError | ContextError

  function Pow2(n: nat): real { if n == 0 then 1.0 else 2.0 * Pow2(n - 1) }

  /** baseDelay * 2^i (DoubledIsPower), by doubling. */
  function Doubled(o: Options, i: nat): real {
    if i == 0 then o.baseDelay else 2.0 * Doubled(o, i - 1)
  }

  lemma {:induction false} DoubledIsPower(o: Options, i: nat)
    ensures Doubled(o, i) == Pow2(i) * o.baseDelay
  {
    if i > 0 { DoubledIsPower(o, i - 1); }
  }

  /** The wait after failed attempt i, before jitter. */
  function Delay(o: Options, i: nat): real {
    if Doubled(o, i) > o.maxDelay then o.maxDelay else Doubled(o, i)
  }

  /** Total of the first n waits. */
  function TotalWaited(world: nat -> Turn, n: nat): real {
    if n == 0 then 0.0 else TotalWaited(world, n - 1) + world(n - 1).wait
  }

  ghost predicate SaneDelays(o: Options) { o.baseDelay >= 0.0 && o.maxDelay >= 0.0 }

  /** Jitter: every wait is 50% to 150% of the delay. */
  ghost predicate SaneWaits(o: Options, world: nat -> Turn) {
    forall i :: 0.5 * Delay(o, i) <= world(i).wait <= 1.5 * Delay(o, i)
  }

  /** Sum of the first n waits, each at its longest: 1.5 times the delay. */
  function LongestWait(o: Options, n: nat): real {
    if n == 0 then 0.0 else LongestWait(o, n - 1) + 1.5 * Delay(o, n - 1)
  }

  function Attempts(o: Options): nat { if o.maxAttempts < 0 then 0 else o.maxAttempts }

  /** Below the cap each wait is twice the one before. */
  lemma DelaysDouble(o: Options)
    ensures SaneDelays(o) ==> forall i: nat ::
      Delay(o, i + 1) == if 2.0 * Delay(o, i) > o.maxDelay then o.maxDelay else 2.0 * Delay(o, i)
  {
    if SaneDelays(o) {
      forall i: nat
        ensures Delay(o, i + 1) == if 2.0 * Delay(o, i) > o.maxDelay then o.maxDelay else 2.0 * Delay(o, i)
      {
        DelayBounds(o, i);
      }
    }
  }

  /** The run of Do. calls counts the calls of fn, waits lists the delays asked for
      before jitter, waited is their total after jitter. */
  method Do(o: Options, world: nat -> Turn) returns (r: Outcome, calls: nat, waits: seq<real>, waited: real)
    ensures calls <= Attempts(o)
    ensures forall i | 0 <= i < calls - 1 :: !world(i).success
    ensures r == Nil <==> Attempts(o) == 0 || (calls > 0 && world(calls - 1).success)
    ensures r == LastError ==> calls == Attempts(o)
    ensures r == ContextError ==> calls < Attempts(o)
    ensures r == ContextError ==> world(calls).ctxDone || (calls > 0 && world(calls - 1).cancelledWaiting)
    ensures forall i | 0 <= i < calls :: !world(i).ctxDone && (i < calls - 1 ==> !world(i).cancelledWaiting)
    ensures |waits| == if calls == 0 || r == ContextError then calls else calls - 1
    ensures forall i | 0 <= i < |waits| :: waits[i] == Delay(o, i)
    ensures waited == TotalWaited(world, |waits|)
    ensures calls <= if o.maxAttempts < 0 then 0 else o.maxAttempts
    ensures r == LastError ==> calls == o.maxAttempts
    ensures |waits| > 0 ==> waits[0] == if o.baseDelay > o.maxDelay then o.maxDelay else o.baseDelay
    ensures SaneDelays(o) ==> forall i | 0 <= i < |waits| - 1 ::
      waits[i + 1] == if 2.0 * waits[i] > o.maxDelay then o.maxDelay else 2.0 * waits[i]
  {
    DelaysDouble(o);
    calls, waits, waited := 0, [], 0.0;
    var attempt := 0;
    while attempt < Attempts(o)
      invariant 0 <= attempt <= Attempts(o) && calls == attempt
      invariant forall i | 0 <= i < calls :: !world(i).success && !world(i).ctxDone
      invariant forall i | 0 <= i < |waits| :: !world(i).cancelledWaiting
      invariant |waits| == if attempt == Attempts(o) && attempt > 0 then attempt - 1 else attempt
      invariant forall i | 0 <= i < |waits| :: waits[i] == Delay(o, i)
      invariant waited == TotalWaited(world, |waits|)
    {
      if world(attempt).ctxDone {
        return ContextError, calls, waits, waited;
      }
      calls := calls + 1;
      if world(attempt).success {
        return Nil, calls, waits, waited;
      }
      if attempt < Attempts(o) - 1 {
        waited := waited + world(attempt).wait;
        waits := waits + [Delay(o, attempt)];
        if world(attempt).cancelledWaiting {
          return ContextError, calls, waits, waited;
        }
      }
      attempt := attempt + 1;
    }
    return if Attempts(o) == 0 then Nil else LastError, calls, waits, waited;
  }

  lemma DelayBounds(o: Options, i: nat)
    requires SaneDelays(o)
    ensures 0.0 <= Delay(o, i) <= o.maxDelay && Delay(o, i) <= Doubled(o, i) && 0.0 <= Doubled(o, i)
  {
    DoubledNonNegative(o, i);
  }

  lemma {:induction false} DoubledNonNegative(o: Options, i: nat)
    requires SaneDelays(o)
    ensures 0.0 <= Doubled(o, i)
  {
    if i > 0 { DoubledNonNegative(o, i - 1); }
  }

  /** Delays never shrink and never pass the cap. */
  lemma {:induction false} DelaysGrow(o: Options, i: nat, j: nat)
    requires SaneDelays(o) && i <= j
    ensures Delay(o, i) <= Delay(o, j) <= o.maxDelay
  {
    DelayBounds(o, j);
    if i < j {
      DelaysGrow(o, i, j - 1);
      DoubledNonNegative(o, j - 1);
    }
  }

  lemma {:induction false} JitterBounds(o: Options, world: nat -> Turn, n: nat)
    requires SaneDelays(o) && SaneWaits(o, world)
    ensures 0.0 <= TotalWaited(world, n) <= LongestWait(o, n)
  {
    if n > 0 {
      JitterBounds(o, world, n - 1);
      DelayBounds(o, n - 1);
    }
  }

  lemma {:induction false} WaitBounds(o: Options, n: nat)
    requires SaneDelays(o)
    ensures LongestWait(o, n) <= 1.5 * (Doubled(o, n) - o.baseDelay)
    ensures LongestWait(o, n) <= 1.5 * Times(n, o.maxDelay)
  {
    if n > 0 {
      WaitBounds(o, n - 1);
      DelayBounds(o, n - 1);
    }
  }

  /** n * x, as repeated addition. */
  function Times(n: nat, x: real): real { if n == 0 then 0.0 else Times(n - 1, x) + x }

  lemma {:induction false} TimesIsProduct(n: nat, x: real)
    ensures Times(n, x) == n as real * x
  {
    if n > 0 {
      TimesIsProduct(n - 1, x);
      AddOne((n - 1) as real, x);
      assert n as real == (n - 1) as real + 1.0;
    }
  }

  lemma AddOne(a: real, x: real)
    ensures (a + 1.0) * x == a * x + x
  {
  }

  lemma {:induction false} LongestWaitGrows(o: Options, m: nat, n: nat)
    requires SaneDelays(o) && m <= n
    ensures LongestWait(o, m) <= LongestWait(o, n)
  {
    if m < n {
      LongestWaitGrows(o, m, n - 1);
      DelayBounds(o, n - 1);
    }
  }

  /** The same bound in recursive form. */
  lemma WaitWithin(o: Options, world: nat -> Turn, waits: nat, n: nat)
    requires SaneDelays(o) && SaneWaits(o, world) && waits <= n
    ensures TotalWaited(world, waits) <= 1.5 * (Doubled(o, n) - o.baseDelay)
    ensures TotalWaited(world, waits) <= 1.5 * Times(n, o.maxDelay)
  {
    JitterBounds(o, world, waits);
    LongestWaitGrows(o, waits, n);
    WaitBounds(o, n);
  }

  lemma DoublingTotal(o: Options, n: nat)
    ensures Doubled(o, n) - o.baseDelay == (Pow2(n) - 1.0) * o.baseDelay
  {
    DoubledIsPower(o, n);
    AddOne(Pow2(n) - 1.0, o.baseDelay);
  }

  /** base * (2^n - 1), the sum of n doubled delays. */
  function DoublingBound(o: Options, n: nat): (r: real)
    ensures r == Doubled(o, n) - o.baseDelay
  {
    DoublingTotal(o, n);
    (Pow2(n) - 1.0) * o.baseDelay
  }

  /** n times the cap. */
  function CapBound(o: Options, n: nat): (r: real)
    ensures r == Times(n, o.maxDelay)
  {
    TimesIsProduct(n, o.maxDelay);
    n as real * o.maxDelay
  }

  /** Total wait of any run with n + 1 attempts allowed: at most one and a half times the
      smaller of base * (2^n - 1) and n times the cap. */
  lemma TotalWait(o: Options, world: nat -> Turn, waits: nat)
    requires SaneDelays(o) && SaneWaits(o, world) && Attempts(o) >= 1 && waits <= Attempts(o) - 1
    ensures TotalWaited(world, waits) <= 1.5 * DoublingBound(o, Attempts(o) - 1)
    ensures TotalWaited(world, waits) <= 1.5 * CapBound(o, Attempts(o) - 1)
  {
    WaitWithin(o, world, waits, Attempts(o) - 1);
  }
}
