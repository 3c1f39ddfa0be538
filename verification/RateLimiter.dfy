/**
 The sliding-window limiter. Time counts from the earliest representable
 instant, so the cutoff `now - window` exists only when `window <= now`.
 */
module RateLimiters {
  const U32_RANGE := 0x1_0000_0000

  /** How many of `times` lie in the closed interval from `lo` to `hi`. */
  function CountIn(times: seq<nat>, lo: int, hi: int): nat {
    if times == [] then 0
    else CountIn(times[..|times| - 1], lo, hi) + if lo <= times[|times| - 1] <= hi then 1 else 0
  }

  ghost predicate Nondecreasing(times: seq<nat>) {
    forall i, j | 0 <= i < j < |times| :: times[i] <= times[j]
  }

  /** The limiter that remembers every accepted call. */
  predicate Allows(accepted: seq<nat>, max: nat, window: nat, now: nat) {
    CountIn(accepted, now - window, now) < max
  }

  /** What it has accepted after the given calls. */
  function Accepted(calls: seq<nat>, max: nat, window: nat): seq<nat> {
    if calls == [] then []
    else
      var before, now := Accepted(calls[..|calls| - 1], max, window), calls[|calls| - 1];
      if Allows(before, max, window, now) then before + [now] else before
  }

  /** Its answers to them. */
  function Answers(calls: seq<nat>, max: nat, window: nat): seq<bool> {
    if calls == [] then []
    else
      var front, now := calls[..|calls| - 1], calls[|calls| - 1];
      Answers(front, max, window) + [Allows(Accepted(front, max, window), max, window, now)]
  }

  class RateLimiter {
    const maxAttempts: nat
    const window: nat
    var timestamps: seq<nat>
    /** Every call accepted so far; the deque is what pruning left of it. */
    ghost var history: seq<nat>
    ghost var pruned: nat
    ghost var latest: nat

    ghost predicate Valid()
      reads this
    {
      && maxAttempts < U32_RANGE
      && Nondecreasing(history)
      && pruned <= |history| && timestamps == history[pruned..]
      && |timestamps| <= maxAttempts
      && (forall i | 0 <= i < |history| :: history[i] <= latest)
      && (forall i | 0 <= i < pruned :: history[i] + window < latest)
    }

    constructor (maxAttempts: nat, windowSeconds: nat)
      requires maxAttempts < U32_RANGE
      ensures Valid() && history == [] && latest == 0
      ensures this.maxAttempts == maxAttempts && window == windowSeconds
    {
      this.maxAttempts, window := maxAttempts, windowSeconds;
      timestamps, history, pruned, latest := [], [], 0, 0;
    }

    /** Drops the timestamps before `cutoff`. */
    method DropBefore(cutoff: nat)
      requires pruned <= |history| && timestamps == history[pruned..]
      modifies this`timestamps, this`pruned
      ensures old(pruned) <= pruned <= |history| && timestamps == history[pruned..]
      ensures forall i | old(pruned) <= i < pruned :: history[i] < cutoff
      ensures pruned < |history| ==> cutoff <= history[pruned]
    {
      while timestamps != [] && timestamps[0] < cutoff
        invariant old(pruned) <= pruned <= |history| && timestamps == history[pruned..]
        invariant forall i | old(pruned) <= i < pruned :: history[i] < cutoff
        decreases |timestamps|
      {
        timestamps := timestamps[1..];
        pruned := pruned + 1;
      }
    }

    /** Drops what has left the window; what stays is exactly what lies in it. */
    method Prune(now: nat)
      requires Valid() && latest <= now
      modifies this`timestamps, this`pruned, this`latest
      ensures Valid() && latest == now
      ensures |timestamps| == CountIn(history, now - window, now)
    {
      latest := now;
      if window <= now {
        DropBefore(now - window);
      }
      OnlyRecentLeft(history, pruned, now - window, now);
    }

    /** Answers as the full history would. */
    method Check(now: nat) returns (ok: bool)
      requires Valid() && latest <= now
      modifies this
      ensures Valid() && latest == now
      ensures ok == Allows(old(history), maxAttempts, window, now)
      ensures history == if ok then old(history) + [now] else old(history)
    {
      Prune(now);
      assert |timestamps| % U32_RANGE == |timestamps|;
      if |timestamps| % U32_RANGE >= maxAttempts {
        return false;
      }
      timestamps := timestamps + [now];
      history := history + [now];
      ok := true;
    }
  }

  lemma OneMore(calls: seq<nat>, k: nat, max: nat, window: nat)
    requires k < |calls|
    ensures
      var before := Accepted(calls[..k], max, window);
      var ok := Allows(before, max, window, calls[k]);
      && Accepted(calls[..k + 1], max, window) == (if ok then before + [calls[k]] else before)
      && Answers(calls[..k + 1], max, window) == Answers(calls[..k], max, window) + [ok]
  {
    assert calls[..k + 1][..k] == calls[..k];
  }

  /** A whole sequence of calls is answered as by the limiter with the full history. */
  method CheckAll(limiter: RateLimiter, calls: seq<nat>) returns (answers: seq<bool>)
    requires limiter.Valid() && limiter.history == [] && limiter.latest == 0
    requires Nondecreasing(calls)
    modifies limiter
    ensures limiter.Valid() && limiter.history == Accepted(calls, limiter.maxAttempts, limiter.window)
    ensures answers == Answers(calls, limiter.maxAttempts, limiter.window)
  {
    ghost var max, window := limiter.maxAttempts, limiter.window;
    answers := [];
    var k := 0;
    while k < |calls|
      invariant 0 <= k <= |calls|
      invariant limiter.Valid() && (k < |calls| ==> limiter.latest <= calls[k])
      invariant limiter.history == Accepted(calls[..k], max, window)
      invariant answers == Answers(calls[..k], max, window)
    {
      OneMore(calls, k, max, window);
      var ok := limiter.Check(calls[k]);
      answers := answers + [ok];
      k := k + 1;
    }
    assert calls[..k] == calls;
  }

  // ------------------------------------------------------------- counting

  /** How many positions hold a time in the closed interval. */
  lemma {:induction false} CountInIsCount(times: seq<nat>, lo: int, hi: int)
    ensures CountIn(times, lo, hi) == |set i | 0 <= i < |times| && lo <= times[i] <= hi|
  {
    if times != [] {
      var n := |times| - 1;
      var front := times[..n];
      CountInIsCount(front, lo, hi);
      var before, after := set i | 0 <= i < n && lo <= front[i] <= hi, set i | 0 <= i < |times| && lo <= times[i] <= hi;
      assert forall i | 0 <= i < n :: front[i] == times[i];
      assert after == if lo <= times[n] <= hi then before + {n} else before;
    }
  }

  lemma {:induction false} CountSplit(times: seq<nat>, k: nat, lo: int, hi: int)
    requires k <= |times|
    ensures CountIn(times, lo, hi) == CountIn(times[..k], lo, hi) + CountIn(times[k..], lo, hi)
  {
    var n := |times|;
    if k == n {
      assert times[..k] == times;
    } else {
      CountSplit(times[..n - 1], k, lo, hi);
      assert times[..n - 1][..k] == times[..k];
      assert times[..n - 1][k..] == times[k..][..n - 1 - k];
    }
  }

  lemma CountSnoc(times: seq<nat>, t: nat, lo: int, hi: int)
    ensures CountIn(times + [t], lo, hi) == CountIn(times, lo, hi) + if lo <= t <= hi then 1 else 0
  {
    assert (times + [t])[..|times|] == times;
  }

  lemma {:induction false} CountAll(times: seq<nat>, lo: int, hi: int)
    requires forall i | 0 <= i < |times| :: lo <= times[i] <= hi
    ensures CountIn(times, lo, hi) == |times|
  {
    if times != [] {
      CountAll(times[..|times| - 1], lo, hi);
    }
  }

  lemma {:induction false} CountNone(times: seq<nat>, lo: int, hi: int)
    requires forall i | 0 <= i < |times| :: !(lo <= times[i] <= hi)
    ensures CountIn(times, lo, hi) == 0
  {
    if times != [] {
      CountNone(times[..|times| - 1], lo, hi);
    }
  }

  /** A subinterval holds no more. */
  lemma {:induction false} CountWithin(times: seq<nat>, lo: int, hi: int, lo': int, hi': int)
    requires forall i | 0 <= i < |times| && lo <= times[i] <= hi :: lo' <= times[i] <= hi'
    ensures CountIn(times, lo, hi) <= CountIn(times, lo', hi')
  {
    if times != [] {
      CountWithin(times[..|times| - 1], lo, hi, lo', hi');
    }
  }

  /** Once pruning stops, what is left is exactly what lies in the window. */
  lemma OnlyRecentLeft(history: seq<nat>, pruned: nat, lo: int, now: nat)
    requires Nondecreasing(history) && pruned <= |history|
    requires forall i | 0 <= i < |history| :: history[i] <= now
    requires forall i | 0 <= i < pruned :: history[i] < lo
    requires pruned < |history| ==> lo <= history[pruned]
    ensures CountIn(history, lo, now) == |history| - pruned
  {
    CountSplit(history, pruned, lo, now);
    CountNone(history[..pruned], lo, now);
    CountAll(history[pruned..], lo, now);
  }

  // ------------------------------------------------------------- theorems

  lemma {:induction false} AcceptedOrdered(calls: seq<nat>, max: nat, window: nat)
    requires Nondecreasing(calls)
    ensures Nondecreasing(Accepted(calls, max, window))
    ensures forall t | t in Accepted(calls, max, window) :: t in calls
  {
    if calls != [] {
      var front, now := calls[..|calls| - 1], calls[|calls| - 1];
      AcceptedOrdered(front, max, window);
      var before := Accepted(front, max, window);
      forall i | 0 <= i < |before| ensures before[i] <= now {
        assert before[i] in front;
      }
    }
  }

  /** Accepting only into a window that is not full overfills no window. */
  lemma AcceptKeepsBound(before: seq<nat>, max: nat, window: nat, now: nat, start: int)
    requires forall i | 0 <= i < |before| :: before[i] <= now
    requires CountIn(before, start, start + window) <= max
    requires Allows(before, max, window, now)
    ensures CountIn(before + [now], start, start + window) <= max
  {
    CountSnoc(before, now, start, start + window);
    if start <= now <= start + window {
      CountWithin(before, start, start + window, now - window, now);
    }
  }

  /** No closed interval as long as the window ever holds more than the limit. */
  lemma {:induction false} WindowNeverOverfull(calls: seq<nat>, max: nat, window: nat, start: int)
    requires Nondecreasing(calls)
    ensures CountIn(Accepted(calls, max, window), start, start + window) <= max
  {
    if calls != [] {
      var front, now := calls[..|calls| - 1], calls[|calls| - 1];
      WindowNeverOverfull(front, max, window, start);
      var before := Accepted(front, max, window);
      if Allows(before, max, window, now) {
        AcceptedOrdered(front, max, window);
        forall i | 0 <= i < |before| ensures before[i] <= now {
          assert before[i] in front;
        }
        AcceptKeepsBound(before, max, window, now, start);
      }
    }
  }

  /** A call is refused exactly when the window ending now is already full. */
  lemma RefusedIffFull(calls: seq<nat>, max: nat, window: nat, now: nat)
    requires Nondecreasing(calls + [now])
    ensures !Allows(Accepted(calls, max, window), max, window, now) <==>
            CountIn(Accepted(calls, max, window), now - window, now) == max
  {
    assert Nondecreasing(calls) by {
      forall i, j | 0 <= i < j < |calls| ensures calls[i] <= calls[j] {
        assert (calls + [now])[i] <= (calls + [now])[j];
      }
    }
    WindowNeverOverfull(calls, max, window, now - window);
  }
  lemma {:induction false} AnswersFront(calls: seq<nat>, max: nat, window: nat, k: nat)
    requires k <= |calls|
    ensures |Answers(calls, max, window)| == |calls| && Answers(calls[..k], max, window) == Answers(calls, max, window)[..k]
  {
    if k == |calls| {
      assert calls[..k] == calls;
      if calls != [] { AnswersFront(calls[..|calls| - 1], max, window, |calls| - 1); }
    } else {
      var n := |calls| - 1;
      AnswersFront(calls[..n], max, window, k);
      assert calls[..n][..k] == calls[..k];
    }
  }

  lemma AnswerAt(calls: seq<nat>, max: nat, window: nat, k: nat)
    requires k < |calls|
    ensures |Answers(calls, max, window)| == |calls|
    ensures Answers(calls, max, window)[k] == Allows(Accepted(calls[..k], max, window), max, window, calls[k])
  {
    AnswersFront(calls, max, window, k + 1);
    AnswersFront(calls, max, window, k);
    OneMore(calls, k, max, window);
    assert Answers(calls[..k + 1], max, window)[k] == Answers(calls, max, window)[k];
  }

  /** Which of the first `k` calls were answered yes and lie in the interval. */
  function YesIn(calls: seq<nat>, answers: seq<bool>, k: nat, lo: int, hi: int): set<nat>
    requires k <= |calls| && |answers| == |calls|
  {
    set i | 0 <= i < k && answers[i] && lo <= calls[i] <= hi
  }

  lemma YesOneMore(calls: seq<nat>, answers: seq<bool>, k: nat, lo: int, hi: int)
    requires k < |calls| && |answers| == |calls|
    ensures |YesIn(calls, answers, k + 1, lo, hi)| ==
            |YesIn(calls, answers, k, lo, hi)| + if answers[k] && lo <= calls[k] <= hi then 1 else 0
  {
    var was, now := YesIn(calls, answers, k, lo, hi), YesIn(calls, answers, k + 1, lo, hi);
    assert now == if answers[k] && lo <= calls[k] <= hi then was + {k} else was;
  }

  lemma {:induction false} AcceptedAreYes(calls: seq<nat>, max: nat, window: nat, answers: seq<bool>, k: nat, lo: int, hi: int)
    requires k <= |calls| && answers == Answers(calls, max, window) && |answers| == |calls|
    ensures CountIn(Accepted(calls[..k], max, window), lo, hi) == |YesIn(calls, answers, k, lo, hi)|
  {
    if k > 0 {
      AcceptedAreYes(calls, max, window, answers, k - 1, lo, hi);
      AnswerAt(calls, max, window, k - 1);
      OneMore(calls, k - 1, max, window);
      CountSnoc(Accepted(calls[..k - 1], max, window), calls[k - 1], lo, hi);
      YesOneMore(calls, answers, k - 1, lo, hi);
    }
  }

  /** The answers alone: a call is let through if and only if fewer than the limit were, in the window ending with it. */
  lemma AnswersIff(calls: seq<nat>, max: nat, window: nat, k: nat)
    requires Nondecreasing(calls) && k < |calls|
    ensures |Answers(calls, max, window)| == |calls|
    ensures
      var answers := Answers(calls, max, window);
      answers[k] <==> |set i | 0 <= i < k && answers[i] && calls[k] - window <= calls[i]| < max
  {
    AnswerAt(calls, max, window, k);
    var answers := Answers(calls, max, window);
    AcceptedAreYes(calls, max, window, answers, k, calls[k] - window, calls[k]);
    assert YesIn(calls, answers, k, calls[k] - window, calls[k]) ==
           set i | 0 <= i < k && answers[i] && calls[k] - window <= calls[i];
  }
}
