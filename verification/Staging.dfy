/**
 The byte-budgeted staging queue of block mode: any number of producers reserve
 bytes and enqueue, one forwarder moves items to the bounded queue and then
 releases their bytes. Every atomic operation is a step of its own.
 */
module Staging {
  datatype Item = Item(payload: string, size: nat)

  /** Where one producer thread is: between calls, holding a reservation, or giving one back. */
  datatype Producer = Idle | Reserved(item: Item) | Refunding(item: Item)

  /** Where the forwarder is: receiving, about to send, about to release, or finished. */
  datatype Forwarder = Receiving | Holding(item: Item) | Releasing(item: Item, failed: bool) | Stopped

  /** `attempted`, `dropped`, `enqueued` and `forwarded` record what happened, in order. */
  datatype State = State(
    used: int,
    producers: seq<Producer>,
    staged: seq<Item>,
    forwarder: Forwarder,
    open: bool,
    attempted: seq<Item>,
    dropped: seq<Item>,
    enqueued: seq<Item>,
    forwarded: seq<Item>,
    refused: seq<Item>,
    failed: seq<Item>,
    lost: seq<Item>)

  datatype Step =
    | Attempt(p: nat, item: Item)
    | Send(p: nat)
    | Refund(p: nat)
    | Receive
    | Forward
    | Release
    | CloseReceiver

  predicate Enabled(s: State, step: Step) {
    match step
    case Attempt(p, _) => p < |s.producers| && s.producers[p].Idle?
    case Send(p) => p < |s.producers| && s.producers[p].Reserved?
    case Refund(p) => p < |s.producers| && s.producers[p].Refunding?
    case Receive => s.forwarder.Receiving? && s.staged != []
    case Forward => s.forwarder.Holding?
    case Release => s.forwarder.Releasing?
    case CloseReceiver => s.open
  }

  function Do(s: State, step: Step, limit: nat): State
    requires Enabled(s, step)
  {
    match step
    case Attempt(p, item) =>
      var t := s.(attempted := s.attempted + [item]);
      if s.used + item.size <= limit
      then t.(used := s.used + item.size, producers := s.producers[p := Reserved(item)])
      else t.(dropped := s.dropped + [item])
    case Send(p) =>
      var item := s.producers[p].item;
      if s.forwarder.Stopped?
      then s.(producers := s.producers[p := Refunding(item)])
      else s.(producers := s.producers[p := Idle], staged := s.staged + [item], enqueued := s.enqueued + [item])
    case Refund(p) =>
      var item := s.producers[p].item;
      s.(used := s.used - item.size, producers := s.producers[p := Idle], refused := s.refused + [item])
    case Receive =>
      s.(forwarder := Holding(s.staged[0]), staged := s.staged[1..])
    case Forward =>
      var item := s.forwarder.item;
      if s.open
      then s.(forwarder := Releasing(item, false), forwarded := s.forwarded + [item])
      else s.(forwarder := Releasing(item, true), failed := s.failed + [item])
    case Release =>
      var t := s.(used := s.used - s.forwarder.item.size);
      if s.forwarder.failed
      then t.(forwarder := Stopped, lost := s.staged, staged := [])
      else t.(forwarder := Receiving)
    case CloseReceiver =>
      s.(open := false)
  }

  predicate Init(s: State) {
    && s.used == 0 && s.staged == [] && s.forwarder == Receiving && s.open
    && s.attempted == s.dropped == s.enqueued == s.forwarded == s.refused == s.failed == s.lost == []
    && forall p | 0 <= p < |s.producers| :: s.producers[p] == Idle
  }

  // ---------------------------------------------------------------- totals

  /** How often `x` occurs. */
  function Times(items: seq<Item>, x: Item): nat {
    multiset(items)[x]
  }

  function Holds(p: Producer, x: Item): nat {
    if !p.Idle? && p.item == x then 1 else 0
  }

  /** How many producers hold a reservation for `x`. */
  function Pending(ps: seq<Producer>, x: Item): nat {
    if ps == [] then 0 else Pending(ps[..|ps| - 1], x) + Holds(ps[|ps| - 1], x)
  }

  function Size(p: Producer): nat {
    if p.Idle? then 0 else p.item.size
  }

  function PendingBytes(ps: seq<Producer>): nat {
    if ps == [] then 0 else PendingBytes(ps[..|ps| - 1]) + Size(ps[|ps| - 1])
  }

  function Bytes(items: seq<Item>): nat {
    if items == [] then 0 else items[0].size + Bytes(items[1..])
  }

  /** The item the forwarder has taken and not yet passed on. */
  function InHand(f: Forwarder): seq<Item> {
    if f.Holding? then [f.item] else []
  }

  function HeldBytes(f: Forwarder): nat {
    if f.Holding? || f.Releasing? then f.item.size else 0
  }

  /** Reserved, staged and held bytes, and those of items lost with a stopped forwarder. */
  function Accounted(s: State): nat {
    PendingBytes(s.producers) + Bytes(s.staged) + HeldBytes(s.forwarder) + Bytes(s.lost)
  }

  lemma {:induction false} PendingUpdate(ps: seq<Producer>, p: nat, q: Producer, x: Item)
    requires p < |ps|
    ensures Pending(ps[p := q], x) + Holds(ps[p], x) == Pending(ps, x) + Holds(q, x)
  {
    var n := |ps| - 1;
    if p == n {
      assert ps[p := q][..n] == ps[..n];
    } else {
      PendingUpdate(ps[..n], p, q, x);
      assert ps[p := q][..n] == ps[..n][p := q];
    }
  }

  lemma TimesSnoc(items: seq<Item>, y: Item, x: Item)
    ensures Times(items + [y], x) == Times(items, x) + if y == x then 1 else 0
  {
    assert multiset(items + [y]) == multiset(items) + multiset{y};
  }

  lemma {:induction false} PendingBytesUpdate(ps: seq<Producer>, p: nat, x: Producer)
    requires p < |ps|
    ensures PendingBytes(ps[p := x]) + Size(ps[p]) == PendingBytes(ps) + Size(x)
  {
    var n := |ps| - 1;
    if p == n {
      assert ps[p := x][..n] == ps[..n];
    } else {
      PendingBytesUpdate(ps[..n], p, x);
      assert ps[p := x][..n] == ps[..n][p := x];
    }
  }

  lemma {:induction false} AllIdle(ps: seq<Producer>)
    requires forall p | 0 <= p < |ps| :: ps[p] == Idle
    ensures PendingBytes(ps) == 0 && forall x :: Pending(ps, x) == 0
  {
    if ps != [] {
      AllIdle(ps[..|ps| - 1]);
    }
  }

  lemma {:induction false} BytesSnoc(items: seq<Item>, x: Item)
    ensures Bytes(items + [x]) == Bytes(items) + x.size
  {
    if items == [] {
      assert items + [x] == [x];
    } else {
      assert (items + [x])[1..] == items[1..] + [x];
      BytesSnoc(items[1..], x);
    }
  }

  // ------------------------------------------------------------- invariant

  /** The counter is exactly what is accounted for, and within the limit. */
  ghost predicate Budget(s: State, limit: nat) {
    s.used == Accounted(s) <= limit
  }

  /** What was enqueued is what was forwarded, then what failed, is in hand, is staged or was lost, in that order. */
  ghost predicate InOrder(s: State) {
    s.enqueued == s.forwarded + s.failed + InHand(s.forwarder) + s.staged + s.lost
  }

  /** Every attempt is in exactly one place. */
  ghost predicate Placed(s: State) {
    forall x :: PlacedFor(s, x)
  }

  ghost predicate PlacedFor(s: State, x: Item) {
    Times(s.attempted, x) ==
    Times(s.dropped, x) + Pending(s.producers, x) + Times(s.enqueued, x) + Times(s.refused, x)
  }

  ghost predicate Phases(s: State) {
    && (s.failed != [] <==> s.forwarder.Stopped? || (s.forwarder.Releasing? && s.forwarder.failed))
    && (s.lost != [] ==> s.forwarder.Stopped?)
    && (s.refused != [] ==> s.forwarder.Stopped?)
    && (s.forwarder.Stopped? ==> s.staged == [])
    && (s.open ==> s.failed == [])
    && (forall p | 0 <= p < |s.producers| && s.producers[p].Refunding? :: s.forwarder.Stopped?)
  }

  ghost predicate Inv(s: State, limit: nat) {
    Budget(s, limit) && InOrder(s) && Placed(s) && Phases(s)
  }

  lemma InitInv(s: State, limit: nat)
    requires Init(s)
    ensures Inv(s, limit)
  {
    AllIdle(s.producers);
  }

  lemma StepKeepsBudget(s: State, step: Step, limit: nat)
    requires Budget(s, limit) && Phases(s) && Enabled(s, step)
    ensures Budget(Do(s, step, limit), limit)
  {
    if step.Attempt? {
      PendingBytesUpdate(s.producers, step.p, Reserved(step.item));
    } else if step.Send? {
      var item := s.producers[step.p].item;
      PendingBytesUpdate(s.producers, step.p, Idle);
      PendingBytesUpdate(s.producers, step.p, Refunding(item));
      BytesSnoc(s.staged, item);
    } else if step.Refund? {
      PendingBytesUpdate(s.producers, step.p, Idle);
    }
  }

  lemma StepKeepsOrder(s: State, step: Step, limit: nat)
    requires InOrder(s) && Phases(s) && Enabled(s, step)
    ensures InOrder(Do(s, step, limit))
  {
    if step.Send? && !s.forwarder.Stopped? {
      StagedSnoc(s.forwarded + s.failed + InHand(s.forwarder), s.staged, s.producers[step.p].item);
    } else if step.Receive? {
      HandTaken(s.forwarded + s.failed, s.staged);
    } else if step.Forward? {
      HandPassed(s.forwarded, s.forwarder.item, s.staged, s.lost);
    } else if step.Release? {
      LostLast(s.forwarded + s.failed, s.staged);
    }
  }

  lemma StagedSnoc(front: seq<Item>, staged: seq<Item>, x: Item)
    ensures front + (staged + [x]) + [] == front + staged + [] + [x]
  {
  }

  lemma HandTaken(front: seq<Item>, staged: seq<Item>)
    requires staged != []
    ensures front + [] + staged == front + [staged[0]] + staged[1..]
  {
  }

  lemma HandPassed(forwarded: seq<Item>, x: Item, staged: seq<Item>, lost: seq<Item>)
    ensures forwarded + [] + [x] + staged + lost == forwarded + [x] + [] + [] + staged + lost
    ensures forwarded + [] + [x] + staged + lost == forwarded + ([] + [x]) + [] + staged + lost
  {
    assert forwarded + [] + [x] == forwarded + [x] + [] + [] == forwarded + ([] + [x]) + [];
  }

  lemma LostLast(front: seq<Item>, staged: seq<Item>)
    ensures front + [] + staged + [] == front + [] + [] + staged
  {
  }

  lemma StepKeepsPlacedFor(s: State, step: Step, limit: nat, x: Item)
    requires PlacedFor(s, x) && Enabled(s, step)
    ensures PlacedFor(Do(s, step, limit), x)
  {
    if step.Attempt? {
      AttemptKeepsPlaced(s, step.p, step.item, limit, x);
    } else if step.Send? {
      SendKeepsPlaced(s, step.p, limit, x);
    } else if step.Refund? {
      RefundKeepsPlaced(s, step.p, limit, x);
    }
  }

  lemma AttemptKeepsPlaced(s: State, p: nat, item: Item, limit: nat, x: Item)
    requires PlacedFor(s, x) && Enabled(s, Attempt(p, item))
    ensures PlacedFor(Do(s, Attempt(p, item), limit), x)
  {
    TimesSnoc(s.attempted, item, x);
    if s.used + item.size <= limit {
      PendingUpdate(s.producers, p, Reserved(item), x);
    } else {
      TimesSnoc(s.dropped, item, x);
    }
  }

  lemma RefundKeepsPlaced(s: State, p: nat, limit: nat, x: Item)
    requires PlacedFor(s, x) && Enabled(s, Refund(p))
    ensures PlacedFor(Do(s, Refund(p), limit), x)
  {
    PendingUpdate(s.producers, p, Idle, x);
    TimesSnoc(s.refused, s.producers[p].item, x);
  }

  lemma SendKeepsPlaced(s: State, p: nat, limit: nat, x: Item)
    requires PlacedFor(s, x) && Enabled(s, Send(p))
    ensures PlacedFor(Do(s, Send(p), limit), x)
  {
    var item := s.producers[p].item;
    PendingUpdate(s.producers, p, if s.forwarder.Stopped? then Refunding(item) else Idle, x);
    TimesSnoc(s.enqueued, item, x);
  }

  lemma StepKeepsPlaced(s: State, step: Step, limit: nat)
    requires Placed(s) && Enabled(s, step)
    ensures Placed(Do(s, step, limit))
  {
    forall x ensures PlacedFor(Do(s, step, limit), x) {
      assert PlacedFor(s, x);
      StepKeepsPlacedFor(s, step, limit, x);
    }
  }

  lemma StepKeepsPhases(s: State, step: Step, limit: nat)
    requires Phases(s) && Enabled(s, step)
    ensures Phases(Do(s, step, limit))
  {
  }

  lemma StepKeeps(s: State, step: Step, limit: nat)
    requires Inv(s, limit) && Enabled(s, step)
    ensures Inv(Do(s, step, limit), limit)
  {
    StepKeepsBudget(s, step, limit);
    StepKeepsOrder(s, step, limit);
    StepKeepsPlaced(s, step, limit);
    StepKeepsPhases(s, step, limit);
  }

  // ------------------------------------------------------------------ runs

  ghost predicate Next(s: State, t: State, limit: nat) {
    exists step :: Enabled(s, step) && t == Do(s, step, limit)
  }

  ghost predicate IsRun(run: seq<State>, limit: nat) {
    && run != [] && Init(run[0])
    && forall i, j {:trigger Next(run[i], run[j], limit)} | 0 <= i && j == i + 1 < |run| :: Next(run[i], run[j], limit)
  }

  lemma {:induction false} RunInv(run: seq<State>, limit: nat, k: nat)
    requires IsRun(run, limit) && k < |run|
    ensures Inv(run[k], limit)
  {
    if k == 0 {
      InitInv(run[0], limit);
    } else {
      RunInv(run, limit, k - 1);
      var moved := Next(run[k - 1], run[k], limit);
      assert moved;
      var step :| Enabled(run[k - 1], step) && run[k] == Do(run[k - 1], step, limit);
      StepKeeps(run[k - 1], step, limit);
    }
  }

  /** The counter stays between zero and the limit, and no subtraction takes more than it holds. */
  lemma CounterIsBounded(run: seq<State>, limit: nat, k: nat)
    requires IsRun(run, limit) && k < |run|
    ensures 0 <= run[k].used <= limit
    ensures run[k].used == Accounted(run[k])
    ensures run[k].forwarder.Releasing? ==> run[k].forwarder.item.size <= run[k].used
    ensures forall p | 0 <= p < |run[k].producers| :: Size(run[k].producers[p]) <= run[k].used
  {
    RunInv(run, limit, k);
    forall p | 0 <= p < |run[k].producers| ensures Size(run[k].producers[p]) <= run[k].used {
      PendingBytesUpdate(run[k].producers, p, Idle);
    }
  }

  /** With the receiver open, what was enqueued is forwarded in that order, each item once, none skipped. */
  lemma ForwardedInOrder(run: seq<State>, limit: nat, k: nat)
    requires IsRun(run, limit) && k < |run| && run[k].open
    ensures run[k].enqueued == run[k].forwarded + InHand(run[k].forwarder) + run[k].staged
    ensures forall x :: Times(run[k].attempted, x) ==
              Times(run[k].dropped, x) + Pending(run[k].producers, x) + Times(run[k].enqueued, x)
  {
    RunInv(run, limit, k);
    forall x ensures Times(run[k].attempted, x) ==
                       Times(run[k].dropped, x) + Pending(run[k].producers, x) + Times(run[k].enqueued, x) {
      assert PlacedFor(run[k], x);
    }
  }

  /** At rest every attempt was either counted as dropped or forwarded, exactly once, and the budget is whole again. */
  lemma DroppedOrForwarded(run: seq<State>, limit: nat, k: nat)
    requires IsRun(run, limit) && k < |run| && run[k].open
    requires forall p | 0 <= p < |run[k].producers| :: run[k].producers[p] == Idle
    requires run[k].staged == [] && run[k].forwarder == Receiving
    ensures forall x :: Times(run[k].attempted, x) == Times(run[k].dropped, x) + Times(run[k].forwarded, x)
    ensures run[k].forwarded == run[k].enqueued
    ensures run[k].used == 0
  {
    ForwardedInOrder(run, limit, k);
    RunInv(run, limit, k);
    AllIdle(run[k].producers);
    assert InHand(run[k].forwarder) == [];
    forall x ensures Times(run[k].attempted, x) == Times(run[k].dropped, x) + Times(run[k].forwarded, x) {
      assert Pending(run[k].producers, x) == 0;
    }
  }
  // ------------------------------------------------------------- what is dropped

  /** An attempt is dropped exactly when its bytes do not fit beside those accounted for; otherwise they are reserved. */
  lemma DroppedIffOver(s: State, p: nat, item: Item, limit: nat)
    requires Inv(s, limit) && Enabled(s, Attempt(p, item))
    ensures
      var t := Do(s, Attempt(p, item), limit);
      && t.attempted == s.attempted + [item]
      && (t.dropped == s.dropped + [item] <==> Accounted(s) + item.size > limit)
      && (Accounted(s) + item.size > limit ==> t.producers == s.producers && Accounted(t) == Accounted(s))
      && (Accounted(s) + item.size <= limit ==>
            t.dropped == s.dropped && t.producers == s.producers[p := Reserved(item)] && Accounted(t) == Accounted(s) + item.size)
  {
    PendingBytesUpdate(s.producers, p, Reserved(item));
  }

  /** Only attempts are dropped, and no step but an attempt raises what is accounted for. */
  lemma OthersDropNothing(s: State, step: Step, limit: nat)
    requires Inv(s, limit) && Enabled(s, step) && !step.Attempt?
    ensures
      var t := Do(s, step, limit);
      t.attempted == s.attempted && t.dropped == s.dropped && Accounted(t) <= Accounted(s)
  {
    StepKeeps(s, step, limit);
  }

  /** What is accounted for was attempted, and nothing has been dropped unless the attempts exceed the limit. */
  ghost predicate Fits(s: State, limit: nat) {
    Accounted(s) <= Bytes(s.attempted) && (Bytes(s.attempted) <= limit ==> s.dropped == [])
  }

  lemma StepKeepsFits(s: State, t: State, limit: nat)
    requires Inv(s, limit) && Next(s, t, limit) && Fits(s, limit)
    ensures Fits(t, limit)
  {
    var step :| Enabled(s, step) && t == Do(s, step, limit);
    if step.Attempt? {
      DroppedIffOver(s, step.p, step.item, limit);
      BytesSnoc(s.attempted, step.item);
    } else {
      OthersDropNothing(s, step, limit);
    }
  }

  lemma {:induction false} RunFits(run: seq<State>, limit: nat, k: nat)
    requires IsRun(run, limit) && k < |run|
    ensures Fits(run[k], limit)
  {
    if k == 0 {
      AllIdle(run[0].producers);
    } else {
      RunFits(run, limit, k - 1);
      RunInv(run, limit, k - 1);
      var moved := Next(run[k - 1], run[k], limit);
      assert moved;
      StepKeepsFits(run[k - 1], run[k], limit);
    }
  }

  /** If all attempts together fit in the limit, nothing is dropped, and at rest every one of them has been forwarded. */
  lemma WithinLimitAllForwarded(run: seq<State>, limit: nat, k: nat)
    requires IsRun(run, limit) && k < |run| && Bytes(run[k].attempted) <= limit
    ensures run[k].dropped == []
    ensures run[k].open && run[k].staged == [] && run[k].forwarder == Receiving
            && (forall p | 0 <= p < |run[k].producers| :: run[k].producers[p] == Idle) ==>
              forall x :: Times(run[k].forwarded, x) == Times(run[k].attempted, x)
  {
    RunFits(run, limit, k);
    if run[k].open && run[k].staged == [] && run[k].forwarder == Receiving
       && forall p | 0 <= p < |run[k].producers| :: run[k].producers[p] == Idle {
      DroppedOrForwarded(run, limit, k);
    }
  }
}
