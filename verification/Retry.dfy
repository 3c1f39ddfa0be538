/**
 The webhook retry loop: exponential backoff inside a five-minute window. Times
 are nanoseconds since the delivery started; what the network, the slots and the
 timer do is a parameter, indexed by attempt.
 */
module Retry {
  import opened PeerTable

  const SECOND := 1_000_000_000
  const RETRY_WINDOW := 300 * SECOND
  const INITIAL_RETRY_BACKOFF := 1 * SECOND
  const MAX_RETRY_BACKOFF := 60 * SECOND
  const MAX_PENDING_RETRIES := 10_000

  /** How long attempt `i` waits for a slot, how long its request takes, by how much the sleep after it overruns. */
  datatype Timing = Timing(wait: nat -> nat, request: nat -> nat, late: nat -> nat)

  datatype Sleep = Sleep(start: nat, duration: nat)

  datatype Outcome = Delivered | SlotsClosed | WindowOver | TooManyPending

  /** The backoff after attempt number `i`, counting from zero. */
  function BackoffAt(i: nat): nat {
    if i == 0 then INITIAL_RETRY_BACKOFF else Longer(BackoffAt(i - 1))
  }

  function Longer(backoff: nat): nat {
    if backoff * 2 < MAX_RETRY_BACKOFF then backoff * 2 else MAX_RETRY_BACKOFF
  }

  function Power(i: nat): nat {
    if i == 0 then 1 else 2 * Power(i - 1)
  }

  /** The backoff doubles from one second and stays at a minute: the smaller of 2^i and 60 seconds. */
  lemma {:induction false} BackoffDoubles(i: nat)
    ensures BackoffAt(i) == (if Power(i) <= 60 then Power(i) else 60) * 1_000_000_000
  {
    if i > 0 {
      BackoffDoubles(i - 1);
    }
  }

  /** The backoffs after the first `n` attempts together. */
  function TotalBackoff(n: nat): nat {
    if n == 0 then 0 else TotalBackoff(n - 1) + BackoffAt(n - 1)
  }

  /** The first nine backoffs fit in the window, the tenth does not. */
  lemma TenthBackoffEndsLate()
    ensures TotalBackoff(9) == 243 * SECOND <= RETRY_WINDOW < TotalBackoff(10)
  {
    assert BackoffAt(2) == 4 * SECOND && TotalBackoff(3) == 7 * SECOND;
    assert BackoffAt(4) == 16 * SECOND && TotalBackoff(5) == 31 * SECOND;
    assert BackoffAt(6) == 60 * SECOND && TotalBackoff(7) == 123 * SECOND;
    assert BackoffAt(8) == 60 * SECOND && TotalBackoff(9) == 243 * SECOND;
  }

  /** When attempt `i` begins: once the sleep before it is over. */
  function Begins(timing: Timing, i: nat): nat
    decreases i, 0
  {
    if i == 0 then 0 else Clock(timing, i - 1) + BackoffAt(i - 1) + timing.late(i - 1)
  }

  /** When its request is over; only the first attempt comes with a slot. */
  function Clock(timing: Timing, i: nat): nat
    decreases i, 1
  {
    Begins(timing, i) + (if i == 0 then 0 else timing.wait(i)) + timing.request(i)
  }

  /** The first `n` values together. */
  function Total(f: nat -> nat, n: nat): nat {
    if n == 0 then 0 else Total(f, n - 1) + f(n - 1)
  }

  /**
   Nothing is left out of the elapsed time: when request `i` is over, every request so
   far, every wait for a slot but the first, and every sleep with its overrun have passed.
   */
  lemma {:induction false} ClockIsEverything(timing: Timing, i: nat)
    ensures Clock(timing, i) + timing.wait(0) ==
            Total(timing.request, i + 1) + Total(timing.wait, i + 1) + Total(timing.late, i) + TotalBackoff(i)
  {
    if i > 0 {
      ClockIsEverything(timing, i - 1);
    }
  }

  lemma {:induction false} ClockAtLeastBackoff(timing: Timing, i: nat)
    ensures TotalBackoff(i) <= Clock(timing, i)
  {
    if i > 0 {
      ClockAtLeastBackoff(timing, i - 1);
    }
  }

  /** No schedule reaches a tenth sleep that ends inside the window. */
  lemma SleepInWindow(timing: Timing, i: nat)
    requires i <= 9 && Clock(timing, i) + BackoffAt(i) <= RETRY_WINDOW
    ensures i < 9 && BackoffAt(i + 1) == Longer(BackoffAt(i))
  {
    TenthBackoffEndsLate();
    ClockAtLeastBackoff(timing, i);
  }

  /** The first `n` sleeps: each starts when its attempt is over and lasts its backoff. */
  function Sleeps(timing: Timing, n: nat): seq<Sleep> {
    if n == 0 then [] else Sleeps(timing, n - 1) + [Sleep(Clock(timing, n - 1), BackoffAt(n - 1))]
  }

  /** Every sleep is due to end inside the window. */
  ghost predicate InWindow(sleeps: seq<Sleep>) {
    forall sleep | sleep in sleeps :: sleep.start + sleep.duration <= 300_000_000_000
  }

  /** Prompt failures and exact sleeps do use all ten attempts. */
  lemma {:induction false} TenAttemptsAreReached(timing: Timing, i: nat)
    requires i < 9
    requires forall k :: timing.wait(k) == timing.request(k) == timing.late(k) == 0
    ensures Clock(timing, i) == TotalBackoff(i) && Clock(timing, i) + BackoffAt(i) <= RETRY_WINDOW
  {
    if i > 0 {
      TenAttemptsAreReached(timing, i - 1);
    }
    TenthBackoffEndsLate();
    BackoffsGrow(i + 1, 9);
  }

  lemma {:induction false} BackoffsGrow(m: nat, n: nat)
    requires m <= n
    ensures TotalBackoff(m) <= TotalBackoff(n)
  {
    if m < n {
      BackoffsGrow(m, n - 1);
    }
  }

  ghost predicate AllFail(succeeds: nat -> bool, n: nat) {
    forall i | 0 <= i < n :: !succeeds(i)
  }

  /** After a failed attempt: go on to sleep, or why not. A delivery joins the pending count before its first sleep. */
  method MayRetry(elapsed: nat, backoff: nat, counted: bool, pending: nat)
    returns (refusal: Option<Outcome>, pending': nat)
    ensures refusal ==
            if elapsed + backoff > RETRY_WINDOW then Some(WindowOver)
            else if !counted && pending >= MAX_PENDING_RETRIES then Some(TooManyPending)
            else None
    ensures pending' == if refusal.None? && !counted then pending + 1 else pending
  {
    refusal, pending' := None, pending;
    if elapsed + backoff > RETRY_WINDOW {
      refusal := Some(WindowOver);
    } else if !counted {
      pending' := pending + 1;
      if pending >= MAX_PENDING_RETRIES {
        pending' := pending' - 1;
        refusal := Some(TooManyPending);
      }
    }
  }

  /** One turn of the loop: wait for a slot unless one is held, send, and see whether to go on. */
  method Attempt(i: nat, slotOpen: nat -> bool, succeeds: nat -> bool, timing: Timing, elapsed: nat, backoff: nat,
                 counted: bool, pending: nat)
    returns (outcome: Option<Outcome>, now: nat, pending': nat)
    ensures outcome == Some(SlotsClosed) <==> i > 0 && !slotOpen(i)
    ensures outcome == Some(SlotsClosed) ==> pending' == pending
    ensures outcome != Some(SlotsClosed) ==>
              && now == elapsed + (if i == 0 then 0 else timing.wait(i)) + timing.request(i)
              && outcome == AfterRequest(succeeds(i), now, backoff, counted, pending)
              && pending' == if outcome.None? && !counted then pending + 1 else pending
  {
    outcome, now, pending' := None, elapsed, pending;
    if i > 0 {
      if !slotOpen(i) {
        return Some(SlotsClosed), now, pending';
      }
      now := now + timing.wait(i);
    }
    now := now + timing.request(i);
    if succeeds(i) {
      return Some(Delivered), now, pending';
    }
    outcome, pending' := MayRetry(now, backoff, counted, pending);
  }

  /** Why a delivery ends after a request that is over at `now`, if it does. */
  function AfterRequest(success: bool, now: nat, backoff: nat, counted: bool, pending: nat): Option<Outcome> {
    if success then Some(Delivered)
    else if now + backoff > RETRY_WINDOW then Some(WindowOver)
    else if !counted && pending >= MAX_PENDING_RETRIES then Some(TooManyPending)
    else None
  }

  /** Where the loop stands before attempt `attempts`. */
  datatype Progress = Progress(attempts: nat, elapsed: nat, backoff: nat, sleeps: seq<Sleep>)

  /** The first `n` attempts failed, and after each there was time left to sleep. */
  ghost predicate Retried(succeeds: nat -> bool, timing: Timing, n: nat) {
    n == 0 || (
      && Retried(succeeds, timing, n - 1)
      && !succeeds(n - 1) && Clock(timing, n - 1) + BackoffAt(n - 1) <= RETRY_WINDOW)
  }

  lemma {:induction false} RetriedMeans(succeeds: nat -> bool, timing: Timing, n: nat)
    requires Retried(succeeds, timing, n)
    ensures AllFail(succeeds, n) && InWindow(Sleeps(timing, n))
  {
    if n > 0 {
      RetriedMeans(succeeds, timing, n - 1);
    }
  }

  /** Every attempt so far failed, on schedule, and after the first the delivery counts as pending, once. */
  ghost predicate Going(succeeds: nat -> bool, timing: Timing, before: nat, p: Progress, counted: bool) {
    && p.attempts <= 9 && p.elapsed == Begins(timing, p.attempts) && p.backoff == BackoffAt(p.attempts)
    && p.sleeps == Sleeps(timing, p.attempts) && Retried(succeeds, timing, p.attempts)
    && (counted <==> p.attempts > 0) && (counted ==> before < MAX_PENDING_RETRIES)
  }

  /** How a delivery may end, with its last attempt over at `now`. */
  ghost predicate EndsRightly(outcome: Outcome, attempts: nat, now: nat, backoff: nat, pending: nat) {
    && (outcome == WindowOver ==> now + backoff > 300_000_000_000)
    && (outcome == TooManyPending ==>
          attempts == 1 && pending >= 10_000 && now + backoff <= 300_000_000_000)
  }

  /** The delivery is over after some attempts, for a good reason. */
  ghost predicate Over(slotOpen: nat -> bool, succeeds: nat -> bool, timing: Timing, before: nat, outcome: Outcome,
                       attempts: nat, sleeps: seq<Sleep>)
  {
    var slept := if outcome == SlotsClosed then attempts else attempts - 1;
    && 1 <= attempts <= 10
    && sleeps == Sleeps(timing, slept) && Retried(succeeds, timing, slept)
    && (if outcome == SlotsClosed then !slotOpen(attempts)
        else
          && (succeeds(attempts - 1) <==> outcome == Delivered)
          && EndsRightly(outcome, attempts, Clock(timing, attempts - 1), BackoffAt(attempts - 1), before))
    && (sleeps != [] ==> before < MAX_PENDING_RETRIES)
  }

  /** The next turn's progress, after attempt `p.attempts` failed at `now` and slept. */
  function AfterSleep(timing: Timing, p: Progress, now: nat): Progress {
    Progress(p.attempts + 1, now + p.backoff + timing.late(p.attempts), Longer(p.backoff),
             p.sleeps + [Sleep(now, p.backoff)])
  }

  /** Why the delivery ends with the attempt under way, if it gets its slot and does end. */
  ghost function Ending(succeeds: nat -> bool, timing: Timing, before: nat, p: Progress, counted: bool)
    : Option<Outcome>
  {
    AfterRequest(succeeds(p.attempts), Clock(timing, p.attempts), p.backoff, counted,
                 before + if counted then 1 else 0)
  }

  lemma ClockFromBegins(succeeds: nat -> bool, timing: Timing, before: nat, p: Progress, counted: bool)
    requires Going(succeeds, timing, before, p, counted)
    ensures Clock(timing, p.attempts) ==
            p.elapsed + (if p.attempts == 0 then 0 else timing.wait(p.attempts)) + timing.request(p.attempts)
  {
  }

  lemma GoesOn(succeeds: nat -> bool, timing: Timing, before: nat, p: Progress, counted: bool)
    requires Going(succeeds, timing, before, p, counted)
    requires Ending(succeeds, timing, before, p, counted).None?
    ensures Going(succeeds, timing, before, AfterSleep(timing, p, Clock(timing, p.attempts)), true)
  {
    SleepInWindow(timing, p.attempts);
  }

  lemma EndsAfterRequest(slotOpen: nat -> bool, succeeds: nat -> bool, timing: Timing, before: nat, p: Progress,
                         counted: bool)
    requires Going(succeeds, timing, before, p, counted)
    ensures var ending := Ending(succeeds, timing, before, p, counted);
            ending.Some? ==> Over(slotOpen, succeeds, timing, before, ending.value, p.attempts + 1, p.sleeps)
  {
  }

  lemma EndsWithoutSlot(slotOpen: nat -> bool, succeeds: nat -> bool, timing: Timing, before: nat, p: Progress,
                        counted: bool)
    requires Going(succeeds, timing, before, p, counted) && p.attempts > 0 && !slotOpen(p.attempts)
    ensures Over(slotOpen, succeeds, timing, before, SlotsClosed, p.attempts, p.sleeps)
  {
  }

  /** One turn of the loop: an attempt, and the sleep after it if the delivery goes on. */
  method Turn(slotOpen: nat -> bool, succeeds: nat -> bool, timing: Timing, p: Progress, counted: bool, pending: nat,
              ghost before: nat)
    returns (result: Option<Outcome>, p': Progress, pending': nat)
    requires Going(succeeds, timing, before, p, counted) && pending == before + if counted then 1 else 0
    ensures if result.None? then
              Going(succeeds, timing, before, p', true) && p'.attempts == p.attempts + 1 && pending' == before + 1
            else
              Over(slotOpen, succeeds, timing, before, result.value, p'.attempts, p'.sleeps) && pending' == pending
  {
    var now;
    result, now, pending' := Attempt(p.attempts, slotOpen, succeeds, timing, p.elapsed, p.backoff, counted, pending);
    assert result != Some(SlotsClosed) ==>
        now == Clock(timing, p.attempts) && result == Ending(succeeds, timing, before, p, counted) by {
      ClockFromBegins(succeeds, timing, before, p, counted);
    }
    if result == Some(SlotsClosed) {
      EndsWithoutSlot(slotOpen, succeeds, timing, before, p, counted);
      p' := p;
    } else if result.None? {
      GoesOn(succeeds, timing, before, p, counted);
      p' := AfterSleep(timing, p, now);
    } else {
      EndsAfterRequest(slotOpen, succeeds, timing, before, p, counted);
      p' := p.(attempts := p.attempts + 1);
    }
  }

  /** The loop; the pending counter comes back raised exactly when `counted`. */
  method RunAttempts(slotOpen: nat -> bool, succeeds: nat -> bool, timing: Timing, pending: nat)
    returns (outcome: Outcome, attempts: nat, sleeps: seq<Sleep>, counted: bool, pending': nat)
    ensures Over(slotOpen, succeeds, timing, pending, outcome, attempts, sleeps)
    ensures pending' == pending + if counted then 1 else 0
  {
    var p := Progress(0, 0, INITIAL_RETRY_BACKOFF, []);
    var result: Option<Outcome> := None;
    counted, pending' := false, pending;
    while result.None?
      invariant pending' == pending + if counted then 1 else 0
      invariant if result.None? then Going(succeeds, timing, pending, p, counted)
                else Over(slotOpen, succeeds, timing, pending, result.value, p.attempts, p.sleeps)
      decreases if result.None? then 10 - p.attempts else -1
    {
      result, p, pending' := Turn(slotOpen, succeeds, timing, p, counted, pending', pending);
      counted := counted || result.None?;
    }
    outcome, attempts, sleeps := result.value, p.attempts, p.sleeps;
  }

  /** A delivery, with the shared pending counter passed in and out. */
  method Deliver(slotOpen: nat -> bool, succeeds: nat -> bool, timing: Timing, pending: nat)
    returns (outcome: Outcome, attempts: nat, sleeps: seq<Sleep>, pending': nat)
    ensures pending' == pending
    ensures 1 <= attempts <= 10
    ensures sleeps == Sleeps(timing, if outcome == SlotsClosed then attempts else attempts - 1) && InWindow(sleeps)
    ensures AllFail(succeeds, attempts - 1) && (succeeds(attempts - 1) <==> outcome == Delivered)
    ensures outcome == SlotsClosed ==> !slotOpen(attempts)
    ensures outcome != SlotsClosed ==>
              EndsRightly(outcome, attempts, Clock(timing, attempts - 1), BackoffAt(attempts - 1), pending)
    ensures attempts > 1 || sleeps != [] ==> pending < MAX_PENDING_RETRIES
  {
    var counted;
    outcome, attempts, sleeps, counted, pending' := RunAttempts(slotOpen, succeeds, timing, pending);
    RetriedMeans(succeeds, timing, if outcome == SlotsClosed then attempts else attempts - 1);
    if counted {
      pending' := pending' - 1;
    }
  }

  // ------------------------------------------- many deliveries, one counter

  /** A delivery as the shared counter sees it; `Probing` found the counter full and will undo its increment. */
  datatype Task = Trying | Probing | Counted | Finished

  datatype Pool = Pool(pending: int, tasks: seq<Task>)

  datatype PoolStep = Spawn | Enter(t: nat) | Undo(t: nat) | FinishUncounted(t: nat) | FinishCounted(t: nat)

  predicate Enabled(s: Pool, step: PoolStep) {
    match step
    case Spawn => true
    case Enter(t) => t < |s.tasks| && s.tasks[t] == Trying
    case Undo(t) => t < |s.tasks| && s.tasks[t] == Probing
    case FinishUncounted(t) => t < |s.tasks| && s.tasks[t] == Trying
    case FinishCounted(t) => t < |s.tasks| && s.tasks[t] == Counted
  }

  function Do(s: Pool, step: PoolStep): Pool
    requires Enabled(s, step)
  {
    match step
    case Spawn => s.(tasks := s.tasks + [Trying])
    case Enter(t) => Pool(s.pending + 1, s.tasks[t := if s.pending >= MAX_PENDING_RETRIES then Probing else Counted])
    case Undo(t) => Pool(s.pending - 1, s.tasks[t := Finished])
    case FinishUncounted(t) => s.(tasks := s.tasks[t := Finished])
    case FinishCounted(t) => Pool(s.pending - 1, s.tasks[t := Finished])
  }

  /** How many tasks are in the given phase. */
  function CountOf(tasks: seq<Task>, phase: Task): nat {
    multiset(tasks)[phase]
  }

  ghost predicate PoolInv(s: Pool) {
    && s.pending == CountOf(s.tasks, Counted) + CountOf(s.tasks, Probing)
    && CountOf(s.tasks, Counted) <= MAX_PENDING_RETRIES
  }

  lemma CountUpdate(tasks: seq<Task>, t: nat, x: Task, phase: Task)
    requires t < |tasks|
    ensures CountOf(tasks[t := x], phase) + (if tasks[t] == phase then 1 else 0) ==
            CountOf(tasks, phase) + if x == phase then 1 else 0
  {
    assert multiset(tasks[t := x]) + multiset{tasks[t]} == multiset(tasks) + multiset{x};
  }

  lemma NoneLeft(tasks: seq<Task>)
    ensures Counted !in tasks ==> CountOf(tasks, Counted) == 0
    ensures Probing !in tasks ==> CountOf(tasks, Probing) == 0
  {
    assert Counted in multiset(tasks) ==> Counted in tasks;
    assert Probing in multiset(tasks) ==> Probing in tasks;
  }

  lemma PoolStepKeeps(s: Pool, step: PoolStep)
    requires PoolInv(s) && Enabled(s, step)
    ensures PoolInv(Do(s, step))
  {
    if step.Spawn? {
      assert multiset(s.tasks + [Trying]) == multiset(s.tasks) + multiset{Trying};
    } else {
      var x := Do(s, step).tasks[step.t];
      CountUpdate(s.tasks, step.t, x, Counted);
      CountUpdate(s.tasks, step.t, x, Probing);
    }
  }

  /** A delivery is turned away if and only if ten thousand others are counted, or are being turned away, at that moment. */
  lemma TurnedAwayIff(s: Pool, t: nat)
    requires PoolInv(s) && Enabled(s, Enter(t))
    ensures
      var s' := Do(s, Enter(t));
      && (s'.tasks[t] == Counted <==> CountOf(s.tasks, Counted) + CountOf(s.tasks, Probing) < 10_000)
      && (s'.tasks[t] == Counted || s'.tasks[t] == Probing)
  {
  }

  ghost predicate PoolNext(s: Pool, t: Pool) {
    exists step :: Enabled(s, step) && t == Do(s, step)
  }

  ghost predicate IsPoolRun(run: seq<Pool>) {
    && run != [] && run[0] == Pool(0, [])
    && forall i, j {:trigger PoolNext(run[i], run[j])} | 0 <= i && j == i + 1 < |run| :: PoolNext(run[i], run[j])
  }

  /** In every interleaving the counter is never negative, at most the limit sleep at once, and it ends at zero. */
  lemma {:induction false} PendingIsRestored(run: seq<Pool>, k: nat)
    requires IsPoolRun(run) && k < |run|
    ensures run[k].pending == CountOf(run[k].tasks, Counted) + CountOf(run[k].tasks, Probing)
    ensures CountOf(run[k].tasks, Counted) <= MAX_PENDING_RETRIES
    ensures Counted !in run[k].tasks && Probing !in run[k].tasks ==> run[k].pending == 0
  {
    if k > 0 {
      PendingIsRestored(run, k - 1);
      var moved := PoolNext(run[k - 1], run[k]);
      assert moved;
      var step :| Enabled(run[k - 1], step) && run[k] == Do(run[k - 1], step);
      PoolStepKeeps(run[k - 1], step);
    }
    NoneLeft(run[k].tasks);
  }
}
