/** The role assignment with its bounded exponential back-off. Times are in nanoseconds
    since the call. */
module Backoff {
  const RETRY_INITIAL := 5_000_000_000
  const RETRY_MAX := 30_000_000_000
  const RETRY_BUDGET := 180_000_000_000

  /** What one attempt to create the role assignment returns. */
  datatype Answer = Assigned | PrincipalNotFound | OtherError

  datatype Verdict = Succeeded | Failed | TimedOut | Cancelled

  /** Everything outside the loop: the answers, how long each attempt takes, how much longer
      than asked each sleep lasts, and whether the context is done when it comes to sleeping. */
  datatype World = World(answer: nat -> Answer, latency: nat -> nat, oversleep: nat -> nat, cancelled: nat -> bool)

  function Min(a: int, b: int): int { if a < b then a else b }

  /** The pause after attempt `k`. */
  function DelayAt(k: nat, initial: int, cap: int): int
  {
    if k == 0 then initial else Min(DelayAt(k - 1, initial, cap) * 2, cap)
  }

  /** The least time that can have passed when attempt `k` is made. */
  function Elapsed(k: nat, initial: int, cap: int): int
  {
    if k == 0 then 0 else Elapsed(k - 1, initial, cap) + DelayAt(k - 1, initial, cap)
  }

  /** The time when attempt `k` has been answered. */
  function ClockAt(k: nat, initial: int, cap: int, w: World): int
  {
    if k == 0 then w.latency(0)
    else ClockAt(k - 1, initial, cap, w) + DelayAt(k - 1, initial, cap) + w.oversleep(k - 1) + w.latency(k)
  }

  /** Whether the loop ends with attempt `k`. */
  predicate Ends(k: nat, initial: int, cap: int, budget: int, w: World)
  {
    !w.answer(k).PrincipalNotFound? || ClockAt(k, initial, cap, w) > budget || w.cancelled(k)
  }

  function VerdictAt(k: nat, initial: int, cap: int, budget: int, w: World): Verdict
  {
    match w.answer(k)
    case Assigned => Succeeded
    case OtherError => Failed
    case PrincipalNotFound => if ClockAt(k, initial, cap, w) > budget then TimedOut else Cancelled
  }

  lemma {:induction false} DelayIsPositive(k: nat, initial: int, cap: int)
    requires initial > 0 && cap > 0
    ensures DelayAt(k, initial, cap) >= Min(initial, cap) > 0
  {
    if k > 0 {
      DelayIsPositive(k - 1, initial, cap);
    }
  }

  /** Always returns, and with the verdict of the first attempt that ends the loop. */
  method AssignRole(initial: int, cap: int, budget: int, w: World) returns (verdict: Verdict, calls: nat)
    requires initial > 0 && cap > 0
    ensures calls > 0 && Ends(calls - 1, initial, cap, budget, w)
    ensures forall k :: 0 <= k < calls - 1 ==> !Ends(k, initial, cap, budget, w)
    ensures verdict == VerdictAt(calls - 1, initial, cap, budget, w)
    // The last answer decides: only an assignment is a success.
    ensures verdict.Succeeded? <==> w.answer(calls - 1).Assigned?
    ensures verdict.Failed? <==> w.answer(calls - 1).OtherError?
    ensures verdict.TimedOut? <==>
              w.answer(calls - 1).PrincipalNotFound? && ClockAt(calls - 1, initial, cap, w) > budget
    ensures verdict.Cancelled? ==> w.cancelled(calls - 1)
  {
    calls := 0;
    var now, delay := 0, initial;
    while true
      invariant now == if calls == 0 then 0 else ClockAt(calls, initial, cap, w) - w.latency(calls)
      invariant delay == DelayAt(calls, initial, cap)
      invariant forall k :: 0 <= k < calls ==> !Ends(k, initial, cap, budget, w)
      decreases if now > budget then 0 else budget - now + 1
    {
      now := now + w.latency(calls);
      assert now == ClockAt(calls, initial, cap, w);
      var answer := w.answer(calls);
      calls := calls + 1;
      if answer.Assigned? {
        return Succeeded, calls;
      }
      if !answer.PrincipalNotFound? {
        return Failed, calls;
      }
      if now > budget {
        return TimedOut, calls;
      }
      if w.cancelled(calls - 1) {
        return Cancelled, calls;
      }
      DelayIsPositive(calls - 1, initial, cap);
      now := now + delay + w.oversleep(calls - 1);
      delay := Min(delay * 2, cap);
    }
  }

  function SumTo(f: nat -> nat, n: nat): nat
  {
    if n == 0 then 0 else SumTo(f, n - 1) + f(n - 1)
  }

  /** The clock shows every attempt so far, the planned pauses between them, and what they took longer. */
  lemma {:induction false} ClockAddsUp(k: nat, initial: int, cap: int, w: World)
    ensures ClockAt(k, initial, cap, w) == SumTo(w.latency, k + 1) + Elapsed(k, initial, cap) + SumTo(w.oversleep, k)
  {
    if k > 0 {
      ClockAddsUp(k - 1, initial, cap, w);
    } else {
      assert SumTo(w.latency, 1) == SumTo(w.latency, 0) + w.latency(0);
    }
  }

  /** The pauses double until they reach the cap, and stay there. */
  lemma {:induction false} DelayDoubles(k: nat, initial: int, cap: int)
    requires 0 < initial <= cap
    ensures var next := DelayAt(k + 1, initial, cap);
            next <= cap && (next == 2 * DelayAt(k, initial, cap) || (next == cap < 2 * DelayAt(k, initial, cap)))
    ensures DelayAt(0, initial, cap) == initial
  {
  }

  lemma {:induction false} ClockIsAtLeastElapsed(k: nat, initial: int, cap: int, w: World)
    ensures ClockAt(k, initial, cap, w) >= Elapsed(k, initial, cap)
  {
    if k > 0 {
      ClockIsAtLeastElapsed(k - 1, initial, cap, w);
    }
  }

  /** Whatever the cloud answers and however slow the clock, once the planned pauses alone
      exceed the budget the loop is over: that attempt is the last. */
  lemma AttemptsAreBounded(initial: int, cap: int, budget: int, w: World, calls: nat, n: nat)
    requires initial > 0 && cap > 0 && Elapsed(n, initial, cap) > budget
    requires forall k :: 0 <= k < calls - 1 ==> !Ends(k, initial, cap, budget, w)
    ensures calls <= n + 1
  {
    ClockIsAtLeastElapsed(n, initial, cap, w);
    assert Ends(n, initial, cap, budget, w);
  }

  lemma {:induction false} ElapsedGrows(n: nat, initial: int, cap: int)
    requires initial > 0 && cap > 0
    ensures Elapsed(n, initial, cap) >= n
  {
    if n > 0 {
      ElapsedGrows(n - 1, initial, cap);
      DelayIsPositive(n - 1, initial, cap);
    }
  }

  /** For any budget there is such an attempt. */
  lemma SomeAttemptIsLast(initial: int, cap: int, budget: int) returns (n: nat)
    requires initial > 0 && cap > 0
    ensures Elapsed(n, initial, cap) > budget
  {
    n := if budget < 0 then 0 else budget + 1;
    ElapsedGrows(n, initial, cap);
  }

  lemma {:induction false} DelayUnderCap(k: nat, initial: int, cap: int)
    requires 0 < initial <= cap
    ensures 0 < DelayAt(k, initial, cap) <= cap
  {
    if k > 0 {
      DelayUnderCap(k - 1, initial, cap);
    }
  }

  predicate RisesAfter(k: nat, initial: int, cap: int)
  {
    DelayAt(k, initial, cap) <= DelayAt(k + 1, initial, cap)
  }

  /** The pauses never shrink exactly when the first one is within the cap. */
  lemma DelaysRiseIff(initial: int, cap: int)
    requires initial > 0 && cap > 0
    ensures (forall k: nat :: RisesAfter(k, initial, cap)) <==> initial <= cap
  {
    if initial <= cap {
      forall k: nat ensures RisesAfter(k, initial, cap) {
        DelayUnderCap(k, initial, cap);
      }
    } else {
      assert DelayAt(1, initial, cap) == cap < DelayAt(0, initial, cap);
      assert !RisesAfter(0, initial, cap);
    }
  }

  lemma DefaultDelays()
    ensures var i, c := RETRY_INITIAL, RETRY_MAX;
            && DelayAt(0, i, c) == 5_000_000_000 && DelayAt(1, i, c) == 10_000_000_000
            && DelayAt(2, i, c) == 20_000_000_000 && DelayAt(3, i, c) == c && DelayAt(4, i, c) == c
            && DelayAt(5, i, c) == c && DelayAt(6, i, c) == c && DelayAt(7, i, c) == c
  {
    var i, c := RETRY_INITIAL, RETRY_MAX;
    assert DelayAt(0, i, c) == 5_000_000_000;
    assert DelayAt(1, i, c) == 10_000_000_000;
    assert DelayAt(2, i, c) == 20_000_000_000;
    assert DelayAt(3, i, c) == c;
    assert DelayAt(4, i, c) == c;
    assert DelayAt(5, i, c) == c;
    assert DelayAt(6, i, c) == c;
  }

  lemma DefaultSchedule()
    ensures Elapsed(7, RETRY_INITIAL, RETRY_MAX) == 155_000_000_000
    ensures Elapsed(8, RETRY_INITIAL, RETRY_MAX) == 185_000_000_000
  {
    var i, c := RETRY_INITIAL, RETRY_MAX;
    DefaultDelays();
    hide DelayAt;
    assert Elapsed(1, i, c) == 5_000_000_000;
    assert Elapsed(2, i, c) == 15_000_000_000;
    assert Elapsed(3, i, c) == 35_000_000_000;
    assert Elapsed(4, i, c) == 65_000_000_000;
    assert Elapsed(5, i, c) == 95_000_000_000;
    assert Elapsed(6, i, c) == 125_000_000_000;
    assert Elapsed(7, i, c) == 155_000_000_000;
  }

  /** With the shipped constants at most nine attempts are made. */
  lemma AtMostNineAttempts(w: World, calls: nat)
    requires forall k :: 0 <= k < calls - 1 ==> !Ends(k, RETRY_INITIAL, RETRY_MAX, RETRY_BUDGET, w)
    ensures calls <= 9
  {
    DefaultSchedule();
    AttemptsAreBounded(RETRY_INITIAL, RETRY_MAX, RETRY_BUDGET, w, calls, 8);
  }

  lemma {:induction false} PunctualClock(k: nat, initial: int, cap: int, w: World)
    requires forall j: nat :: w.latency(j) == 0 && w.oversleep(j) == 0
    ensures ClockAt(k, initial, cap, w) == Elapsed(k, initial, cap)
  {
    if k > 0 {
      PunctualClock(k - 1, initial, cap, w);
    }
  }

  lemma {:induction false} ElapsedIsMonotone(j: nat, k: nat, initial: int, cap: int)
    requires initial > 0 && cap > 0 && j <= k
    ensures Elapsed(j, initial, cap) <= Elapsed(k, initial, cap)
  {
    if j < k {
      ElapsedIsMonotone(j, k - 1, initial, cap);
      DelayIsPositive(k - 1, initial, cap);
    }
  }

  /** And nine is reached: when answers are instant, sleeps are exact and the principal never
      appears, the ninth attempt is the one that gives up. */
  lemma NineAttemptsHappen(w: World, calls: nat)
    requires forall j: nat :: w.latency(j) == 0 && w.oversleep(j) == 0
    requires forall j: nat :: w.answer(j) == PrincipalNotFound && !w.cancelled(j)
    requires calls > 0 && Ends(calls - 1, RETRY_INITIAL, RETRY_MAX, RETRY_BUDGET, w)
    ensures calls >= 9
  {
    DefaultSchedule();
    PunctualClock(calls - 1, RETRY_INITIAL, RETRY_MAX, w);
    if calls < 9 {
      ElapsedIsMonotone(calls - 1, 7, RETRY_INITIAL, RETRY_MAX);
    }
  }
}
