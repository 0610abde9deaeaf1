/** The probe loop of one health check, refined against the first decisive event of an arbitrary probe sequence. */
module HealthProbe {

  const DEFAULT_FAILURE_THRESHOLD := 3

  datatype Check = Check(port: int, successThreshold: int, failureThreshold: int)
  {
    function S(): (s: int)
      ensures s >= 1
    {
      if successThreshold <= 0 then 1 else successThreshold
    }

    function F(): (f: int)
      ensures f >= 1
    {
      if failureThreshold <= 0 then DEFAULT_FAILURE_THRESHOLD else failureThreshold
    }
  }

  datatype Verdict = BadPort | Healthy | Failing | Cancelled | Exhausted

  datatype Result = Result(verdict: Verdict, attempts: nat, successes: nat, failures: nat)
  {
    predicate Passed() {
      verdict == Healthy
    }
  }

  /** What the service answers at each attempt, counted from one. */
  type Probes = nat -> bool

  /** Whether the wait after an attempt ends by cancellation. */
  type Cancels = nat -> bool

  /** The n attempts that end with attempt a all gave this answer. */
  predicate Streak(probe: Probes, a: nat, n: nat, answer: bool) {
    n <= a && forall k: nat :: a - n < k <= a ==> probe(k) == answer
  }

  predicate PassesAt(c: Check, probe: Probes, a: nat) {
    Streak(probe, a, c.S(), true)
  }

  predicate FailsAt(c: Check, probe: Probes, a: nat) {
    Streak(probe, a, c.F(), false)
  }

  predicate StopsAt(c: Check, stop: Cancels, a: nat) {
    a < c.S() + c.F() && stop(a)
  }

  predicate DecidedAt(c: Check, probe: Probes, stop: Cancels, a: nat) {
    PassesAt(c, probe, a) || FailsAt(c, probe, a) || StopsAt(c, stop, a)
  }

  /** The length of the run of equal answers that ends at attempt a. */
  function Trailing(probe: Probes, a: nat, answer: bool): nat {
    if a == 0 || probe(a) != answer then 0 else 1 + Trailing(probe, a - 1, answer)
  }

  predicate Undecided(c: Check, probe: Probes, stop: Cancels, n: nat) {
    forall a: nat :: 1 <= a <= n ==> !DecidedAt(c, probe, stop, a)
  }

  /**
   The result names the first decisive attempt and what happened at it; streaks beat a cancellation seen after
   them.
   */
  predicate FirstEvent(c: Check, probe: Probes, stop: Cancels, r: Result) {
    && (c.port <= 0 ==> r == Result(BadPort, 0, 0, 1))
    && (c.port > 0 ==>
        && 1 <= r.attempts <= c.S() + c.F()
        && Undecided(c, probe, stop, r.attempts - 1)
        && r.successes == Trailing(probe, r.attempts, true) && r.failures == Trailing(probe, r.attempts, false)
        && (match r.verdict
            case BadPort => false
            case Healthy => PassesAt(c, probe, r.attempts)
            case Failing => FailsAt(c, probe, r.attempts)
            case Cancelled =>
              StopsAt(c, stop, r.attempts) && !PassesAt(c, probe, r.attempts) && !FailsAt(c, probe, r.attempts)
            case Exhausted => r.attempts == c.S() + c.F() && !DecidedAt(c, probe, stop, r.attempts)))
  }

  lemma {:induction false} TrailingMeasuresStreaks(probe: Probes, a: nat, n: nat, answer: bool)
    ensures Streak(probe, a, n, answer) <==> Trailing(probe, a, answer) >= n
  {
    if a > 0 && n > 0 && probe(a) == answer {
      TrailingMeasuresStreaks(probe, a - 1, n - 1, answer);
      if Streak(probe, a - 1, n - 1, answer) {
        forall k: nat | a - n < k <= a ensures probe(k) == answer {
        }
      }
    } else if n > 0 && n <= a {
      assert a - n < a <= a;
    }
  }

  /** Nothing is decided at an attempt that completes neither streak and is not cancelled. */
  lemma StillUndecided(c: Check, probe: Probes, stop: Cancels, a: nat)
    requires a >= 1 && Undecided(c, probe, stop, a - 1)
    requires Trailing(probe, a, true) < c.S() && Trailing(probe, a, false) < c.F() && !StopsAt(c, stop, a)
    ensures Undecided(c, probe, stop, a)
  {
    TrailingMeasuresStreaks(probe, a, c.S(), true);
    TrailingMeasuresStreaks(probe, a, c.F(), false);
  }

  /** The counts tell what an attempt decides. */
  lemma CountsDecide(c: Check, probe: Probes, stop: Cancels, r: Result)
    requires c.port > 0 && 1 <= r.attempts <= c.S() + c.F() && Undecided(c, probe, stop, r.attempts - 1)
    requires r.successes == Trailing(probe, r.attempts, true) && r.failures == Trailing(probe, r.attempts, false)
    requires match r.verdict
             case BadPort => false
             case Healthy => r.successes >= c.S()
             case Failing => r.failures >= c.F()
             case Cancelled => r.successes < c.S() && r.failures < c.F() && StopsAt(c, stop, r.attempts)
             case Exhausted =>
               r.attempts == c.S() + c.F() && r.successes < c.S() && r.failures < c.F()
    ensures FirstEvent(c, probe, stop, r)
  {
    TrailingMeasuresStreaks(probe, r.attempts, c.S(), true);
    TrailingMeasuresStreaks(probe, r.attempts, c.F(), false);
  }

  method RunOnPort(c: Check, probe: Probes, stop: Cancels) returns (r: Result)
    ensures FirstEvent(c, probe, stop, r)
  {
    if c.port <= 0 {
      return Result(BadPort, 0, 0, 1);
    }
    var successThreshold := c.successThreshold;
    if successThreshold <= 0 {
      successThreshold := 1;
    }
    var failureThreshold := c.failureThreshold;
    if failureThreshold <= 0 {
      failureThreshold := DEFAULT_FAILURE_THRESHOLD;
    }
    var maxAttempts := successThreshold + failureThreshold;
    var consecutiveSuccesses, consecutiveFailures: nat := 0, 0;
    for attempt := 1 to maxAttempts + 1
      invariant consecutiveSuccesses == Trailing(probe, attempt - 1, true)
      invariant consecutiveFailures == Trailing(probe, attempt - 1, false)
      invariant attempt > 1 ==> consecutiveSuccesses < successThreshold && consecutiveFailures < failureThreshold
      invariant Undecided(c, probe, stop, attempt - 1)
    {
      if probe(attempt) {
        consecutiveSuccesses := consecutiveSuccesses + 1;
        consecutiveFailures := 0;
        if consecutiveSuccesses >= successThreshold {
          r := Result(Healthy, attempt, consecutiveSuccesses, 0);
          CountsDecide(c, probe, stop, r);
          return;
        }
      } else {
        consecutiveFailures := consecutiveFailures + 1;
        consecutiveSuccesses := 0;
        if consecutiveFailures >= failureThreshold {
          r := Result(Failing, attempt, 0, consecutiveFailures);
          CountsDecide(c, probe, stop, r);
          return;
        }
      }
      if attempt < maxAttempts {
        if stop(attempt) {
          r := Result(Cancelled, attempt, consecutiveSuccesses, consecutiveFailures);
          CountsDecide(c, probe, stop, r);
          return;
        }
      }
      StillUndecided(c, probe, stop, attempt);
    }
    return Result(Exhausted, maxAttempts, consecutiveSuccesses, consecutiveFailures);
  }

  // ---------------------------------------------------------------- by the configured thresholds

  /** Up to attempt n nothing was decided: no s successes and no f failures in a row, and no cancellation. */
  ghost predicate NothingYet(probe: Probes, stop: Cancels, n: int, s: nat, f: nat) {
    forall a: nat :: 1 <= a <= n ==> !Streak(probe, a, s, true) && !Streak(probe, a, f, false) && !stop(a)
  }

  /** The verdict of the first attempt that decides, by thresholds s and f. */
  predicate VerdictIs(probe: Probes, stop: Cancels, r: Result, s: nat, f: nat) {
    && (r.verdict == Healthy <==> Streak(probe, r.attempts, s, true))
    && (r.verdict == Failing <==> Streak(probe, r.attempts, f, false))
    && (r.verdict == Cancelled <==>
          && !Streak(probe, r.attempts, s, true) && !Streak(probe, r.attempts, f, false)
          && r.attempts < s + f && stop(r.attempts))
    && (r.verdict == Exhausted ==> r.attempts == s + f)
    && r.verdict != BadPort
  }

  /** The counts are the answers in a row at the end: of the last answer, and none of the other. */
  predicate CountsAre(probe: Probes, r: Result, s: nat, f: nat) {
    && r.successes <= s && r.failures <= f
    && Streak(probe, r.attempts, r.successes, true) && Streak(probe, r.attempts, r.failures, false)
    && (probe(r.attempts) <==> r.successes > 0) && (probe(r.attempts) <==> r.failures == 0)
  }

  lemma TrailingIsLast(probe: Probes, a: nat, n: nat, answer: bool)
    requires a >= 1 && n >= 1 && (a >= 2 ==> !Streak(probe, a - 1, n, answer))
    ensures Streak(probe, a, Trailing(probe, a, answer), answer)
    ensures Trailing(probe, a, answer) > 0 <==> probe(a) == answer
    ensures Trailing(probe, a, answer) <= n
  {
    TrailingMeasuresStreaks(probe, a, Trailing(probe, a, answer), answer);
    if a >= 2 {
      TrailingMeasuresStreaks(probe, a - 1, n, answer);
    }
  }

  lemma UndecidedMeans(c: Check, probe: Probes, stop: Cancels, n: nat)
    requires Undecided(c, probe, stop, n) && n < c.S() + c.F()
    ensures NothingYet(probe, stop, n, c.S(), c.F())
  {
    forall a: nat | 1 <= a <= n
      ensures !Streak(probe, a, c.S(), true) && !Streak(probe, a, c.F(), false) && !stop(a)
    {
      assert !DecidedAt(c, probe, stop, a);
    }
  }

  /**
   By the thresholds as configured, where one success is enough and three failures are if no positive number is set:
   nothing was decided before the last attempt, it decides by what it completes, and there are never more attempts
   than both thresholds together.
   */
  lemma DecidedByThresholds(c: Check, probe: Probes, stop: Cancels, r: Result)
    requires FirstEvent(c, probe, stop, r) && c.port >= 1
    ensures var s := if c.successThreshold >= 1 then c.successThreshold else 1;
            var f := if c.failureThreshold >= 1 then c.failureThreshold else 3;
            && 1 <= r.attempts <= s + f
            && NothingYet(probe, stop, r.attempts - 1, s, f)
            && VerdictIs(probe, stop, r, s, f)
            && CountsAre(probe, r, s, f)
  {
    var before: nat := r.attempts - 1;
    UndecidedMeans(c, probe, stop, before);
    StreaksExclude(probe, r.attempts, c.S(), c.F());
    assert before >= 1 ==> !Streak(probe, before, c.S(), true) && !Streak(probe, before, c.F(), false);
    TrailingIsLast(probe, r.attempts, c.S(), true);
    TrailingIsLast(probe, r.attempts, c.F(), false);
  }

  // ---------------------------------------------------------------- what the outcome means

  lemma FirstComesFirst(c: Check, probe: Probes, stop: Cancels, r: Result, a: nat)
    requires FirstEvent(c, probe, stop, r) && c.port > 0 && a >= 1 && DecidedAt(c, probe, stop, a)
    ensures r.attempts <= a
  {
  }

  lemma StreaksExclude(probe: Probes, a: nat, s: nat, f: nat)
    requires s >= 1 && f >= 1
    ensures !(Streak(probe, a, s, true) && Streak(probe, a, f, false))
  {
    if probe(a) {
      assert !Streak(probe, a, f, false);
    } else {
      assert !Streak(probe, a, s, true);
    }
  }

  /** The probe sequence determines the result: a streak of successes and one of failures never end together. */
  lemma OutcomeIsUnique(c: Check, probe: Probes, stop: Cancels, r: Result, q: Result)
    requires FirstEvent(c, probe, stop, r) && FirstEvent(c, probe, stop, q)
    ensures r == q
  {
    if c.port > 0 {
      if r.verdict != Exhausted {
        FirstComesFirst(c, probe, stop, q, r.attempts);
      }
      if q.verdict != Exhausted {
        FirstComesFirst(c, probe, stop, r, q.attempts);
      }
      StreaksExclude(probe, r.attempts, c.S(), c.F());
    }
  }

  ghost predicate NeverCancelled(c: Check, stop: Cancels) {
    forall a: nat :: 1 <= a ==> !StopsAt(c, stop, a)
  }

  /** There is a success streak within the attempts allowed and no failure streak before it. */
  predicate SucceedsFirst(c: Check, probe: Probes) {
    exists a: nat :: 1 <= a <= c.S() + c.F() && PassesAt(c, probe, a) && NoFailureBefore(c, probe, a)
  }

  predicate NoFailureBefore(c: Check, probe: Probes, a: nat) {
    forall b: nat :: 1 <= b < a ==> !FailsAt(c, probe, b)
  }

  /** Without cancellation a check passes exactly when a success streak comes first. */
  lemma PassesExactlyWhen(c: Check, probe: Probes, stop: Cancels, r: Result)
    requires FirstEvent(c, probe, stop, r) && NeverCancelled(c, stop) && c.port > 0
    ensures r.Passed() <==> SucceedsFirst(c, probe)
  {
    if r.Passed() {
      forall b: nat | 1 <= b < r.attempts ensures !FailsAt(c, probe, b) {
        assert !DecidedAt(c, probe, stop, b);
      }
      assert PassesAt(c, probe, r.attempts) && NoFailureBefore(c, probe, r.attempts);
    }
    if SucceedsFirst(c, probe) {
      var a: nat :| 1 <= a <= c.S() + c.F() && PassesAt(c, probe, a) && NoFailureBefore(c, probe, a);
      FirstComesFirst(c, probe, stop, r, a);
      StreaksExclude(probe, a, c.S(), c.F());
    }
  }

  /**
   Cancelling can only turn a decided check into an undecided one: it never turns a failing service healthy or
   back.
   */
  lemma CancellingOnlyCutsShort(c: Check, probe: Probes, stop: Cancels, never: Cancels, r: Result, full: Result)
    requires FirstEvent(c, probe, stop, r) && FirstEvent(c, probe, never, full) && NeverCancelled(c, never)
        && c.port > 0
    ensures r == full || (r.verdict == Cancelled && r.attempts <= full.attempts)
  {
    if full.verdict != Exhausted {
      FirstComesFirst(c, probe, stop, r, full.attempts);
    }
    if r.verdict != Cancelled {
      forall a: nat | 1 <= a <= r.attempts - 1 ensures !DecidedAt(c, probe, never, a) {
        assert !DecidedAt(c, probe, stop, a);
      }
      assert FirstEvent(c, probe, never, r);
      OutcomeIsUnique(c, probe, never, r, full);
    }
  }

  /** With one success enough, a check passes exactly when one of the first F probes succeeds. */
  lemma OneSuccessIsEnough(c: Check, probe: Probes, stop: Cancels, r: Result)
    requires FirstEvent(c, probe, stop, r) && NeverCancelled(c, stop) && c.port > 0 && c.S() == 1
    ensures r.Passed() <==> exists a: nat :: 1 <= a <= c.F() && probe(a)
  {
    PassesExactlyWhen(c, probe, stop, r);
    if a: nat :| 1 <= a <= c.F() && probe(a) {
      EarlySuccess(c, probe, a);
    } else {
      assert FailsAt(c, probe, c.F());
      FirstComesFirst(c, probe, stop, r, c.F());
      assert !probe(r.attempts);
    }
  }

  lemma {:induction false} EarlySuccess(c: Check, probe: Probes, a: nat)
    requires c.S() == 1 && 1 <= a <= c.F() && probe(a)
    ensures SucceedsFirst(c, probe)
  {
    if b: nat :| 1 <= b < a && probe(b) {
      EarlySuccess(c, probe, b);
    } else {
      assert PassesAt(c, probe, a) && NoFailureBefore(c, probe, a);
    }
  }

  /** The attempts can run out only when both thresholds are at least two; then an alternating service exhausts them. */
  lemma ExhaustionNeedsBothThresholds(c: Check)
    requires c.port > 0
    ensures (exists probe: Probes, stop: Cancels, r: Result :: FirstEvent(c, probe, stop, r) && r.verdict == Exhausted)
       <==> c.S() >= 2 && c.F() >= 2
  {
    if c.S() >= 2 && c.F() >= 2 {
      var probe: Probes := k => k % 2 == 0;
      var stop: Cancels := k => false;
      var n := c.S() + c.F();
      forall a: nat | 1 <= a <= n ensures !DecidedAt(c, probe, stop, a) {
        AlternatingNeverDecides(c, a);
      }
      var r := Result(Exhausted, n, Trailing(probe, n, true), Trailing(probe, n, false));
      assert Undecided(c, probe, stop, n - 1);
      assert FirstEvent(c, probe, stop, r);
    }
    forall probe: Probes, stop: Cancels, r: Result | FirstEvent(c, probe, stop, r) && r.verdict == Exhausted
      ensures c.S() >= 2 && c.F() >= 2
    {
      ExhaustedSeesBoth(c, probe, stop, r);
    }
  }

  lemma AlternatingNeverDecides(c: Check, a: nat)
    requires c.S() >= 2 && c.F() >= 2 && a >= 1
    ensures var probe: Probes := k => k % 2 == 0; !PassesAt(c, probe, a) && !FailsAt(c, probe, a)
  {
    var probe: Probes := k => k % 2 == 0;
    var before: nat := a - 1;
    if a % 2 == 0 {
      assert probe(a) && !probe(before);
      assert !Streak(probe, a, c.F(), false) by { assert a - c.F() < a <= a; }
      assert !Streak(probe, a, c.S(), true) by { assert a - c.S() < before <= a; }
    } else {
      assert !probe(a) && probe(before);
      assert !Streak(probe, a, c.S(), true) by { assert a - c.S() < a <= a; }
      assert !Streak(probe, a, c.F(), false) by { assert a - c.F() < before <= a; }
    }
  }

  /** A threshold of one settles every probe sequence in time. */
  lemma ThresholdOneDecides(c: Check, probe: Probes, stop: Cancels)
    requires c.S() == 1 || c.F() == 1
    ensures !Undecided(c, probe, stop, c.S() + c.F())
  {
    var answer := c.S() == 1;
    var n: nat := if answer then c.F() else c.S();
    if a: nat :| 1 <= a <= n && probe(a) == answer {
      assert Streak(probe, a, 1, answer);
      assert DecidedAt(c, probe, stop, a);
    } else {
      assert Streak(probe, n, n, !answer);
      assert DecidedAt(c, probe, stop, n);
    }
  }

  lemma ExhaustedSeesBoth(c: Check, probe: Probes, stop: Cancels, r: Result)
    requires c.port > 0 && FirstEvent(c, probe, stop, r) && r.verdict == Exhausted
    ensures c.S() >= 2 && c.F() >= 2
  {
    assert Undecided(c, probe, stop, c.S() + c.F());
    if c.S() == 1 || c.F() == 1 {
      ThresholdOneDecides(c, probe, stop);
    }
  }
}
