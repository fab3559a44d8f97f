/**
 The retry schedule shared by internal/client/client.go and internal/client/transport.go: the wait
 before a retry is multiplied after each one and cut to the maximum. The multiplier is an integer.
 */
module Backoff {
  import opened Common

  datatype Retry = Retry(enabled: bool, maxRetries: int, initialDelay: int, maxDelay: int, multiplier: int)

  /** The value of delay after i rounds of either retry loop. */
  function Delay(retry: Retry, i: nat): int {
    if i == 0 then retry.initialDelay else NextDelay(retry, Delay(retry, i - 1))
  }

  function NextDelay(retry: Retry, delay: int): int {
    if delay * retry.multiplier > retry.maxDelay then retry.maxDelay else delay * retry.multiplier
  }

  function Delays(retry: Retry, n: nat): (s: seq<int>)
    ensures |s| == n
  {
    seq(n, i requires 0 <= i => Delay(retry, i))
  }

  /** The next n waits of a loop whose delay is now the given one. */
  function Schedule(retry: Retry, delay: int, n: nat): (s: seq<int>)
    ensures |s| == n
    decreases n
  {
    if n == 0 then [] else [delay] + Schedule(retry, NextDelay(retry, delay), n - 1)
  }

  lemma {:induction false} ScheduleAt(retry: Retry, i: nat, n: nat, j: nat)
    requires j < n
    ensures Schedule(retry, Delay(retry, i), n)[j] == Delay(retry, i + j)
    decreases n
  {
    if j > 0 {
      ScheduleAt(retry, i + 1, n - 1, j - 1);
    }
  }

  lemma ScheduleIsDelays(retry: Retry, n: nat)
    ensures Schedule(retry, retry.initialDelay, n) == Delays(retry, n)
  {
    forall j | 0 <= j < n ensures Schedule(retry, retry.initialDelay, n)[j] == Delays(retry, n)[j] {
      ScheduleAt(retry, 0, n, j);
    }
  }

  function Power(m: int, i: nat): int { if i == 0 then 1 else Power(m, i - 1) * m }

  function Sum(s: seq<int>): int { if s == [] then 0 else Sum(s[..|s| - 1]) + s[|s| - 1] }

  /** A configuration for which the schedule is the one its names promise. */
  predicate Sane(retry: Retry) {
    0 <= retry.initialDelay <= retry.maxDelay && 1 <= retry.multiplier
  }

  /** What one loop may sleep. */
  function Allowance(retry: Retry): int { retry.initialDelay + (retry.maxRetries - 1) * retry.maxDelay }

  lemma {:induction false} PowerIsPositive(m: int, i: nat)
    requires 1 <= m
    ensures 1 <= Power(m, i)
  {
    if i > 0 {
      PowerIsPositive(m, i - 1);
    }
  }

  lemma Regroup(a: int, p: int, m: int)
    ensures (a * p) * m == a * (p * m)
  {
  }

  lemma Grows(a: int, b: int, m: int)
    requires 0 <= a <= b && 1 <= m
    ensures a <= a * m <= b * m
  {
  }

  /** The wait before retry i + 1 is the initial delay times the multiplier to the i, cut to the maximum. */
  lemma {:induction false} DelayIsCappedPower(retry: Retry, i: nat)
    requires Sane(retry)
    ensures Delay(retry, i) == Min(retry.initialDelay * Power(retry.multiplier, i), retry.maxDelay)
  {
    if i > 0 {
      DelayIsCappedPower(retry, i - 1);
      PowerIsPositive(retry.multiplier, i - 1);
      var uncapped := retry.initialDelay * Power(retry.multiplier, i - 1);
      Regroup(retry.initialDelay, Power(retry.multiplier, i - 1), retry.multiplier);
      if uncapped > retry.maxDelay {
        Grows(retry.maxDelay, uncapped, retry.multiplier);
      }
    }
  }

  /** Waits never decrease, and they stay between the initial delay and the maximum. */
  lemma {:induction false} DelaysGrow(retry: Retry, i: nat, j: nat)
    requires Sane(retry) && i <= j
    ensures retry.initialDelay <= Delay(retry, i) <= Delay(retry, j) <= retry.maxDelay
    decreases j
  {
    if i < j {
      DelaysGrow(retry, i, j - 1);
      Grows(Delay(retry, j - 1), Delay(retry, j - 1), retry.multiplier);
    } else if i > 0 {
      DelaysGrow(retry, i - 1, i - 1);
      Grows(Delay(retry, i - 1), Delay(retry, i - 1), retry.multiplier);
    }
  }

  /** The code never caps the first wait: all waits respect the maximum exactly when the initial delay does. */
  lemma MaximumHoldsIff(retry: Retry)
    ensures (forall i: nat :: Delay(retry, i) <= retry.maxDelay) <==> retry.initialDelay <= retry.maxDelay
  {
    assert Delay(retry, 0) == retry.initialDelay;
    if retry.initialDelay <= retry.maxDelay {
      forall i: nat ensures Delay(retry, i) <= retry.maxDelay {
        if i > 0 {
          assert Delay(retry, i) == NextDelay(retry, Delay(retry, i - 1));
        }
      }
    } else {
      assert !(Delay(retry, 0) <= retry.maxDelay);
    }
  }

  lemma SumOfOneMore(s: seq<int>, x: int)
    ensures Sum(s + [x]) == Sum(s) + x
  {
    assert (s + [x])[..|s|] == s;
  }

  lemma {:induction false} SumOfConcat(a: seq<int>, b: seq<int>)
    ensures Sum(a + b) == Sum(a) + Sum(b)
    decreases |b|
  {
    if b == [] {
      assert a + b == a;
    } else {
      assert (a + b)[..|a + b| - 1] == a + b[..|b| - 1];
      SumOfConcat(a, b[..|b| - 1]);
    }
  }

  /** The sum of the first n waits. */
  function Total(retry: Retry, n: nat): int { if n == 0 then 0 else Total(retry, n - 1) + Delay(retry, n - 1) }

  lemma {:induction false} SumIsTotal(retry: Retry, n: nat)
    ensures Sum(Delays(retry, n)) == Total(retry, n)
    decreases n
  {
    if n > 0 {
      SumIsTotal(retry, n - 1);
      OneMoreDelay(retry, n - 1);
      SumOfOneMore(Delays(retry, n - 1), Delay(retry, n - 1));
    }
  }

  lemma OneMoreDelay(retry: Retry, n: nat)
    ensures Delays(retry, n + 1) == Delays(retry, n) + [Delay(retry, n)]
  {
  }

  /** A loop that waits n times sleeps at most the initial delay and n - 1 times the maximum. */
  lemma {:induction false} LoopSleeps(retry: Retry, n: nat)
    requires Sane(retry)
    ensures 0 <= Total(retry, n) && (n >= 1 ==> Total(retry, n) <= retry.initialDelay + (n - 1) * retry.maxDelay)
    decreases n
  {
    if n > 0 {
      LoopSleeps(retry, n - 1);
      DelaysGrow(retry, 0, n - 1);
      Distribute(n - 1, retry.maxDelay);
    }
  }

  /** A loop that waits at most maxRetries times sleeps at most its allowance. */
  lemma LoopSleepsWithin(retry: Retry, n: nat)
    requires Sane(retry) && n <= retry.maxRetries && 1 <= retry.maxRetries
    ensures 0 <= Sum(Delays(retry, n)) <= Allowance(retry)
  {
    LoopSleeps(retry, n);
    SumIsTotal(retry, n);
    if n >= 1 {
      Order(n - 1, retry.maxRetries - 1, retry.maxDelay);
    } else {
      Order(0, retry.maxRetries - 1, retry.maxDelay);
    }
  }

  lemma Distribute(n: int, d: int)
    ensures n * d == (n - 1) * d + d
  {
  }

  lemma Order(a: int, b: int, d: int)
    requires a <= b && 0 <= d
    ensures a * d <= b * d
  {
  }
}
