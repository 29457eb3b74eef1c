/** Finding a running server: the auto-detect sweep of `kookr spawn` and its wait budget. */
module ProbeSweep {
  import opened Wrappers

  const RETRY_DELAY_MS := 3000
  const MAX_RETRIES := 10
  const DEFAULT_REDEPLOY_WAIT_MS := 45000
  const RECENT_RESTART_WINDOW_MS := 60000
  const MAX_REDEPLOY_WAIT_MS := 300000

  function Max(a: int, b: int): (r: int)
    ensures r >= a && r >= b && (r == a || r == b)
  {
    if a < b then b else a
  }

  function DefaultProbeBudgetMs(retries: int): int {
    if retries < 1 then 0 else Max(0, (retries - 1) * RETRY_DELAY_MS)
  }

  /** The operator's override, ignored when out of range. */
  function ParseRedeployWaitMs(raw: Option<int>): Option<int> {
    if raw.Some? && 0 <= raw.value <= MAX_REDEPLOY_WAIT_MS then raw else None
  }

  datatype Reason = Default | Deploying | RecentRestart | EnvFallback

  datatype Budget = Budget(ms: int, reason: Reason)

  /** What the deploy endpoint said, if it answered. */
  datatype Status = Status(deploying: bool, lastRestart: Option<int>)

  predicate RecentlyRestarted(s: Status, nowMs: int) {
    s.lastRestart.Some? && 0 <= nowMs - s.lastRestart.value <= RECENT_RESTART_WINDOW_MS
  }

  function SelectProbeWaitBudget(defaultMs: int, status: Option<Status>, nowMs: int, env: Option<int>): (b: Budget)
    ensures b.reason == Deploying <==> status.Some? && status.value.deploying
    ensures b.reason == RecentRestart <==>
              status.Some? && !status.value.deploying && status.value.lastRestart.Some? &&
              nowMs - 60000 <= status.value.lastRestart.value <= nowMs
    ensures b.reason == EnvFallback <==> status.None? && env.Some? && 0 <= env.value <= 300000
    ensures b.reason == Default ==> b.ms == Max(0, defaultMs)
    ensures b.reason == Deploying || b.reason == RecentRestart ==> b.ms == Max(defaultMs, 45000)
    ensures b.reason == EnvFallback ==> b.ms == Max(defaultMs, env.value)
  {
    var default := Max(0, defaultMs);
    var extended := Max(default, DEFAULT_REDEPLOY_WAIT_MS);
    if status.Some? && status.value.deploying then Budget(extended, Deploying)
    else if status.Some? && RecentlyRestarted(status.value, nowMs) then
      Budget(extended, RecentRestart)
    else if status.None? && ParseRedeployWaitMs(env).Some? then
      Budget(Max(default, ParseRedeployWaitMs(env).value), EnvFallback)
    else Budget(default, Default)
  }

  /** What the world does: for each attempt, which of the two ports answer, the deploy status,
      and the clock when the attempt is weighed. */
  datatype World = World(start: int, up: nat -> (bool, bool), status: nat -> Option<Status>, clock: nat -> int)

  /** Each sleep lasts at least the retry delay. */
  ghost predicate SleepsLast(w: World) {
    w.start <= w.clock(0) && forall k: nat :: w.clock(k) + RETRY_DELAY_MS <= w.clock(k + 1)
  }

  datatype Answer = Ambiguous | Auto(first: bool) | NoServer

  function CeilDiv(a: int, b: int): int
    requires b > 0
  {
    (a + b - 1) / b
  }

  function MaxAttempts(retries: int, budgetMs: int): int {
    Max(retries, CeilDiv(budgetMs, RETRY_DELAY_MS) + 1)
  }

  lemma {:induction false} ClockRuns(w: World, k: nat)
    requires SleepsLast(w)
    ensures w.start + k * RETRY_DELAY_MS <= w.clock(k)
  {
    if k > 0 {
      ClockRuns(w, k - 1);
      assert w.clock(k - 1) + RETRY_DELAY_MS <= w.clock(k - 1 + 1);
    }
  }

  /** An attempt made within the budget is followed by one that the bound still allows. */
  lemma OneMoreIsAllowed(w: World, attempt: nat, budgetMs: int)
    requires SleepsLast(w) && w.clock(attempt) - w.start < budgetMs
    ensures attempt + 2 <= CeilDiv(budgetMs, RETRY_DELAY_MS) + 1
  {
    ClockRuns(w, attempt);
  }

  /** What the selection gives after attempt `j`. */
  function Selected(retries: int, env: Option<int>, w: World, j: nat): Budget {
    SelectProbeWaitBudget(DefaultProbeBudgetMs(retries), w.status(j), w.clock(j), env)
  }

  /** The budget in force after `n` attempts: the first selection that extends it, else the default. */
  function BudgetAfter(retries: int, env: Option<int>, w: World, n: nat): Budget {
    if n == 0 then Budget(DefaultProbeBudgetMs(retries), Default)
    else
      var b := BudgetAfter(retries, env, w, n - 1);
      if b.reason != Default then b else Selected(retries, env, w, n - 1)
  }

  /** None of the first `n` selections extends the budget. */
  predicate NotExtended(retries: int, env: Option<int>, w: World, n: nat) {
    forall j :: 0 <= j < n ==>
      SelectProbeWaitBudget(if retries < 1 then 0 else 3000 * (retries - 1), w.status(j), w.clock(j), env).reason == Default
  }

  /** Once extended the budget stays; until then it is the default. */
  lemma {:induction false} BudgetIsFirst(retries: int, env: Option<int>, w: World, n: nat)
    ensures var b := BudgetAfter(retries, env, w, n);
            if b.reason == Default then
              b.ms == (if retries < 1 then 0 else 3000 * (retries - 1)) && NotExtended(retries, env, w, n)
            else
              exists j :: 0 <= j < n && NotExtended(retries, env, w, j) &&
                b == SelectProbeWaitBudget(if retries < 1 then 0 else 3000 * (retries - 1), w.status(j), w.clock(j), env)
    ensures DefaultProbeBudgetMs(retries) <= BudgetAfter(retries, env, w, n).ms
              <= Max(DefaultProbeBudgetMs(retries), MAX_REDEPLOY_WAIT_MS)
  {
    if n > 0 {
      BudgetIsFirst(retries, env, w, n - 1);
      if BudgetAfter(retries, env, w, n - 1).reason == Default {
        assert BudgetAfter(retries, env, w, n) == Selected(retries, env, w, n - 1);
      }
    }
  }

  /** The sweep gives up after `n` attempts: the default number is used up, and the budget is
      not extended or is spent. */
  predicate GivesUp(retries: int, env: Option<int>, w: World, n: nat)
    requires n > 0
  {
    var b := BudgetAfter(retries, env, w, n);
    n >= retries && (b.reason == Default || w.clock(n - 1) - w.start >= b.ms)
  }

  /** The number of attempts stays within what the budget in force allows. */
  ghost predicate Within(retries: int, env: Option<int>, w: World, n: nat) {
    var b := BudgetAfter(retries, env, w, n);
    n < MaxAttempts(retries, b.ms) && (b.reason == Default ==> n < retries)
  }

  lemma SweepGoesOn(retries: int, env: Option<int>, w: World, n: nat)
    requires 1 <= retries <= MAX_RETRIES && SleepsLast(w) && n > 0 && Within(retries, env, w, n - 1)
    ensures n <= MaxAttempts(retries, BudgetAfter(retries, env, w, n).ms) ==
              Max(retries, (BudgetAfter(retries, env, w, n).ms + 2999) / 3000 + 1)
    ensures BudgetAfter(retries, env, w, n).reason == Default ==> n <= retries
    ensures !GivesUp(retries, env, w, n) ==> Within(retries, env, w, n)
  {
    hide SelectProbeWaitBudget;
    var b := BudgetAfter(retries, env, w, n);
    BudgetGrows(retries, env, w, n);
    if !GivesUp(retries, env, w, n) && n >= retries {
      OneMoreIsAllowed(w, n - 1, b.ms);
    }
  }

  lemma BudgetGrows(retries: int, env: Option<int>, w: World, n: nat)
    requires n > 0
    ensures var a, b := BudgetAfter(retries, env, w, n - 1), BudgetAfter(retries, env, w, n);
            a.ms <= b.ms && (b.reason == Default ==> a.reason == Default)
  {
    BudgetIsFirst(retries, env, w, n - 1);
  }

  /** At the longest possible budget that is 101 attempts. */
  lemma AtMost101(retries: int, env: Option<int>, w: World, n: nat)
    requires 1 <= retries <= MAX_RETRIES
    ensures MaxAttempts(retries, MAX_REDEPLOY_WAIT_MS) == 101
    ensures MaxAttempts(retries, BudgetAfter(retries, env, w, n).ms) <= 101
  {
    BudgetIsFirst(retries, env, w, n);
  }

  /** The sweep ends at the first attempt that a server answers or after which it gives up,
      and the number of attempts is bounded by the budget in force. */
  method ResolveBySweep(retries: int, env: Option<int>, w: World) returns (r: Answer, attempts: nat)
    requires 1 <= retries <= 10 && SleepsLast(w)
    ensures forall k :: 0 <= k < attempts ==> w.up(k) == (false, false)
    ensures forall n :: 1 <= n < attempts || (n == attempts > 0 && r != NoServer) ==>
              n < retries || (BudgetAfter(retries, env, w, n).reason != Default &&
                              w.clock(n - 1) - w.start < BudgetAfter(retries, env, w, n).ms)
    ensures r == NoServer ==>
              && retries <= attempts <= Max(retries, (BudgetAfter(retries, env, w, attempts).ms + 2999) / 3000 + 1)
              && (BudgetAfter(retries, env, w, attempts).reason == Default ||
                  w.clock(attempts - 1) - w.start >= BudgetAfter(retries, env, w, attempts).ms)
    ensures r != NoServer ==>
              && attempts < Max(retries, (BudgetAfter(retries, env, w, attempts).ms + 2999) / 3000 + 1)
              && w.up(attempts) != (false, false) && (r == Ambiguous <==> w.up(attempts).0 && w.up(attempts).1)
              && (r.Auto? ==> w.up(attempts).0 == r.first && w.up(attempts).1 == !r.first)
    ensures attempts <= 101
    ensures BudgetAfter(retries, env, w, attempts).reason == Default ==> attempts <= retries
  {
    hide MaxAttempts, Within, GivesUp, BudgetAfter, SelectProbeWaitBudget, RecentlyRestarted;
    var default := DefaultProbeBudgetMs(retries);
    var selected := SelectProbeWaitBudget(default, Some(Status(false, None)), w.start, env);
    attempts := 0;
    StartsWithin(retries, env, w);
    while true
      invariant selected == BudgetAfter(retries, env, w, attempts)
      invariant Within(retries, env, w, attempts) && attempts <= 101
      invariant forall k :: 0 <= k < attempts ==> w.up(k) == (false, false)
      invariant forall n :: 1 <= n <= attempts ==> !GivesUp(retries, env, w, n)
      decreases 101 - attempts
    {
      AtMost101(retries, env, w, attempts);
      WithinBound(retries, env, w, attempts);
      WentOn(retries, env, w, attempts);
      var up := w.up(attempts);
      if up.0 && up.1 {
        return Ambiguous, attempts;
      }
      if up.0 || up.1 {
        return Auto(up.0), attempts;
      }
      assert up == (false, false);
      attempts := attempts + 1;
      if selected.reason == Default {
        var next := SelectProbeWaitBudget(default, w.status(attempts - 1), w.clock(attempts - 1), env);
        if next.reason != Default {
          selected := next;
        }
      }
      SameSelected(retries, env, w, attempts, selected);
      SweepGoesOn(retries, env, w, attempts);
      GaveUp(retries, env, w, attempts);
      AtMost101(retries, env, w, attempts);
      var elapsed := Max(0, w.clock(attempts - 1) - w.start);
      var underDefaultAttempts := attempts < retries;
      var underExtendedBudget := selected.reason != Default && elapsed < selected.ms;
      GivesUpIff(retries, env, w, attempts);
      if !underDefaultAttempts && !underExtendedBudget {
        return NoServer, attempts;
      }
    }
  }

  lemma WentOn(retries: int, env: Option<int>, w: World, attempts: nat)
    requires forall n :: 1 <= n <= attempts ==> !GivesUp(retries, env, w, n)
    ensures forall n :: 1 <= n <= attempts ==>
              n < retries || (BudgetAfter(retries, env, w, n).reason != Default &&
                              w.clock(n - 1) - w.start < BudgetAfter(retries, env, w, n).ms)
  {
    hide BudgetAfter;
    forall n | 1 <= n <= attempts
      ensures n < retries || (BudgetAfter(retries, env, w, n).reason != Default &&
                              w.clock(n - 1) - w.start < BudgetAfter(retries, env, w, n).ms)
    {
      assert !GivesUp(retries, env, w, n);
    }
  }

  lemma GaveUp(retries: int, env: Option<int>, w: World, n: nat)
    requires n > 0
    ensures GivesUp(retries, env, w, n) ==>
              n >= retries && (BudgetAfter(retries, env, w, n).reason == Default ||
                               w.clock(n - 1) - w.start >= BudgetAfter(retries, env, w, n).ms)
  {
  }

  lemma StartsWithin(retries: int, env: Option<int>, w: World)
    requires retries >= 1
    ensures Within(retries, env, w, 0)
    ensures BudgetAfter(retries, env, w, 0) ==
            SelectProbeWaitBudget(DefaultProbeBudgetMs(retries), Some(Status(false, None)), w.start, env)
  {
  }

  lemma WithinBound(retries: int, env: Option<int>, w: World, n: nat)
    requires Within(retries, env, w, n)
    ensures n < MaxAttempts(retries, BudgetAfter(retries, env, w, n).ms) ==
              Max(retries, (BudgetAfter(retries, env, w, n).ms + 2999) / 3000 + 1)
    ensures BudgetAfter(retries, env, w, n).reason == Default ==> n < retries
  {
  }

  /** A selection that does not extend leaves the default budget as it was. */
  lemma SameSelected(retries: int, env: Option<int>, w: World, n: nat, selected: Budget)
    requires n > 0
    requires var before, next := BudgetAfter(retries, env, w, n - 1), Selected(retries, env, w, n - 1);
             selected == if before.reason == Default && next.reason != Default then next else before
    ensures selected == BudgetAfter(retries, env, w, n)
  {
    BudgetIsFirst(retries, env, w, n - 1);
  }

  lemma GivesUpIff(retries: int, env: Option<int>, w: World, n: nat)
    requires n > 0 && retries >= 1 && SleepsLast(w)
    ensures var b := BudgetAfter(retries, env, w, n);
            GivesUp(retries, env, w, n) <==>
              !(n < retries) && !(b.reason != Default && Max(0, w.clock(n - 1) - w.start) < b.ms)
  {
    ClockRuns(w, n - 1);
  }
}
