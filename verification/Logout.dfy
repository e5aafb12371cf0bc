/** The retry schedule for recording a logout. */
module Logout {
  import opened Prelude

  const LOGOUT_RETRY_BASE_DELAY: int := 500 * MILLISECOND
  const LOGOUT_RETRY_MAX_DELAY: int := 30 * SECOND

  function Pow2(n: nat): (p: nat)
    ensures p >= 1
  {
    if n == 0 then 1 else 2 * Pow2(n - 1)
  }

  function Min(a: int, b: int): int {
    if a <= b then a else b
  }

  /** The wait after the failure counted `attempt`. */
  function Delay(attempt: u32): int {
    Min(LOGOUT_RETRY_BASE_DELAY * Pow2(Min(attempt, 10)), LOGOUT_RETRY_MAX_DELAY)
  }

  /** The counter after so many failures. */
  function Attempt(failures: nat): u32 {
    if failures == 0 then 0 else Increment(Attempt(failures - 1))
  }

  lemma {:induction false} AttemptCounts(failures: nat)
    ensures failures < U32_LIMIT ==> Attempt(failures) == failures
    ensures failures == U32_LIMIT ==> Attempt(failures) == 0
  {
    if failures == 0 {
    } else {
      AttemptCounts(failures - 1);
    }
  }

  function Wait(failure: nat): int {
    Delay(Attempt(failure))
  }

  /** The time spent waiting before the attempt that follows `failures` failures. */
  function TotalWait(failures: nat): int {
    if failures == 0 then 0 else TotalWait(failures - 1) + Wait(failures - 1)
  }

  lemma Pow2AtCap()
    ensures Pow2(5) == 32 && Pow2(6) == 64
  {
    assert Pow2(2) == 4 && Pow2(4) == 16;
  }

  /** Six steps up to the cap: 500 ms doubled six times exceeds 30 s. */
  lemma DelaySteps(attempt: u32)
    ensures attempt <= 5 ==> Delay(attempt) == LOGOUT_RETRY_BASE_DELAY * Pow2(attempt) <= 32 * LOGOUT_RETRY_BASE_DELAY
    ensures attempt >= 6 ==> Delay(attempt) == LOGOUT_RETRY_MAX_DELAY
    ensures LOGOUT_RETRY_BASE_DELAY <= Delay(attempt) <= LOGOUT_RETRY_MAX_DELAY
  {
    Pow2AtCap();
    if attempt >= 6 {
      Pow2Monotone(6, Min(attempt, 10));
      Capped(Pow2(Min(attempt, 10)));
    } else {
      Pow2Monotone(attempt, 5);
      Uncapped(Pow2(attempt));
    }
  }

  /** The waits, one by one: half a second, then twice as long each time, and 30 s from the seventh on. */
  lemma DelayTable(attempt: u32)
    ensures Delay(0) == 500_000_000 && Delay(1) == 1_000_000_000 && Delay(2) == 2_000_000_000
    ensures Delay(3) == 4_000_000_000 && Delay(4) == 8_000_000_000 && Delay(5) == 16_000_000_000
    ensures attempt >= 6 ==> Delay(attempt) == 30_000_000_000
  {
    DelaySteps(attempt);
    assert Pow2(2) == 4 && Pow2(4) == 16;
  }

  lemma Capped(p: nat)
    requires p >= 64
    ensures Min(LOGOUT_RETRY_BASE_DELAY * p, LOGOUT_RETRY_MAX_DELAY) == LOGOUT_RETRY_MAX_DELAY
  {
  }

  lemma Uncapped(p: nat)
    requires 1 <= p <= 32
    ensures LOGOUT_RETRY_BASE_DELAY <= LOGOUT_RETRY_BASE_DELAY * p <= 32 * LOGOUT_RETRY_BASE_DELAY
    ensures Min(LOGOUT_RETRY_BASE_DELAY * p, LOGOUT_RETRY_MAX_DELAY) == LOGOUT_RETRY_BASE_DELAY * p
  {
  }

  lemma {:induction false} Pow2Monotone(a: nat, b: nat)
    requires a <= b
    ensures Pow2(a) <= Pow2(b)
  {
    if a == b {
    } else {
      Pow2Monotone(a, b - 1);
    }
  }

  lemma DelayMonotone(a: u32, b: u32)
    requires a <= b
    ensures Delay(a) <= Delay(b)
  {
    DelaySteps(a);
    DelaySteps(b);
    Pow2Monotone(a, b);
  }

  ghost predicate NeverDecreases(failures: nat) {
    forall i: nat, j: nat | i <= j < failures :: Wait(i) <= Wait(j)
  }

  /** The waits never decrease exactly as long as the counter has not wrapped. */
  lemma NeverDecreasesIff(failures: nat)
    ensures NeverDecreases(failures) <==> failures <= U32_LIMIT
  {
    if failures <= U32_LIMIT {
      forall i: nat, j: nat | i <= j < failures ensures Wait(i) <= Wait(j) {
        AttemptCounts(i);
        AttemptCounts(j);
        DelayMonotone(i, j);
      }
    } else {
      var last: nat, wrapped: nat := U32_LIMIT - 1, U32_LIMIT;
      AttemptCounts(last);
      AttemptCounts(wrapped);
      DelaySteps(last);
      DelaySteps(0);
      assert last <= wrapped < failures && Wait(last) > Wait(wrapped);
    }
  }

  /** 500 (2^n - 1) ms up to the sixth failure, and 31.5 s plus 30 s for each one beyond. */
  function Schedule(failures: nat): int {
    if failures <= 6 then 500_000_000 * (Pow2(failures) - 1)
    else 31_500_000_000 + 30_000_000_000 * (failures - 6)
  }

  lemma ScheduleGrows(failures: nat)
    ensures Schedule(failures + 1) - Schedule(failures) ==
            if failures < 6 then LOGOUT_RETRY_BASE_DELAY * Pow2(failures) else LOGOUT_RETRY_MAX_DELAY
  {
    Pow2AtCap();
  }

  /** The total wait follows the closed form exactly until the counter wraps, and is shorter afterwards. */
  lemma {:induction false} TotalWaitIsScheduleIff(failures: nat)
    ensures TotalWait(failures) <= Schedule(failures)
    ensures TotalWait(failures) == Schedule(failures) <==> failures <= U32_LIMIT
  {
    if failures == 0 {
    } else {
      var f := failures - 1;
      TotalWaitIsScheduleIff(f);
      ScheduleGrows(f);
      AttemptCounts(f);
      DelaySteps(Attempt(f));
    }
  }

  /**
   The backend refuses `failures` times and then accepts; `stop` is the wait, counted from 0, during
   which a shutdown is noticed, if there is one.  `waited` is the time spent in waits that ran to
   their end.
   */
  method RecordLogout(failures: nat, stop: Option<nat>) returns (calls: nat, waited: int, recorded: bool)
    ensures recorded <==> stop.None? || failures <= stop.value
    ensures calls == (if recorded then failures else stop.value) + 1
    ensures waited == TotalWait(calls - 1)
  {
    var attempt: u32 := 0;
    calls, waited := 0, 0;
    while true
      invariant calls <= failures && attempt == Attempt(calls)
      invariant waited == TotalWait(calls)
      invariant stop.Some? ==> calls <= stop.value
      decreases failures - calls
    {
      calls := calls + 1;
      if calls > failures {
        return calls, waited, true;
      }
      if stop == Some(calls - 1) {
        return calls, waited, false;
      }
      waited := waited + Delay(attempt);
      attempt := Increment(attempt);
    }
  }
}
