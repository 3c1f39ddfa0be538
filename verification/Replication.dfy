/**
 One origin node replicating one keyed piece of state to one peer.

 The origin changes its state, takes a sequence number and enqueues a live
 event, all under the channel's transition lock, one change at a time
 (`ChannelReplacement` shows when that is so). The snapshot publisher does
 not take that lock: it takes a number, then reads the state, then enqueues,
 so its three steps interleave freely with the three of a live change. The bus
 is a FIFO log. The peer filters by the highest number it has applied.

 Presence rosters (key: user), channel counts (one key per channel) and
 signed-in users (one key per user) are all instances.
 */
module Replication {

  datatype Event<K, V> = Put(key: K, value: V) | Del(key: K)

  datatype Msg<K, V> =
    | Live(stamp: nat, event: Event<K, V>)
    | Snap(stamp: nat, contents: map<K, V>)
    | Other  // about other state

  /** A live change in progress: state changed, then numbered, then enqueued. */
  datatype LiveOp<K, V> = Idle | Mutated(event: Event<K, V>) | Stamped(stamp: nat, event: Event<K, V>)

  /** A snapshot in progress: numbered, then captured, then enqueued. */
  datatype SnapOp<K, V> = Resting | Numbered(stamp: nat) | Captured(stamp: nat, contents: map<K, V>)

  datatype Origin<K, V> = Origin(
    state: map<K, V>, counter: nat, live: LiveOp<K, V>, snap: SnapOp<K, V>, log: seq<Msg<K, V>>)

  /**
   `last` is the highest number applied and `pos` how much of the log the peer
   has passed. `intact` is a history variable no decision reads: false after a
   loss that no adequate snapshot has repaired yet.
   */
  datatype Replica<K, V> = Replica(state: map<K, V>, last: nat, pos: nat, intact: bool)

  datatype Link<K, V> = Link(origin: Origin<K, V>, replica: Replica<K, V>)

  function Apply<K, V>(m: map<K, V>, e: Event<K, V>): map<K, V> {
    match e
    case Put(k, v) => m[k := v]
    case Del(k) => m - {k}
  }

  /** Whether a message numbered `stamp` is newer than `last`; 0 (older peers) always is. */
  predicate Accepts(last: nat, stamp: nat) {
    stamp == 0 || last < stamp
  }

  /** The number remembered after `Accepts`. */
  function Remember(last: nat, stamp: nat): nat {
    if last < stamp then stamp else last
  }

  // ------------------------------------------------------------------ histories

  datatype Entry<K, V> = Entry(stamp: nat, event: Event<K, V>)

  /** Folds events, oldest first. */
  function ApplyAll<K, V>(m: map<K, V>, es: seq<Event<K, V>>): map<K, V> {
    if es == [] then m else Apply(ApplyAll(m, es[..|es| - 1]), es[|es| - 1])
  }

  /** The live entries of a log, in log order. */
  function LiveOf<K, V>(log: seq<Msg<K, V>>): seq<Entry<K, V>> {
    if log == [] then []
    else
      var m := log[|log| - 1];
      LiveOf(log[..|log| - 1]) + (if m.Live? then [Entry(m.stamp, m.event)] else [])
  }

  /** Events of `h` numbered above `s`, in order. */
  function After<K, V>(h: seq<Entry<K, V>>, s: nat): seq<Event<K, V>> {
    if h == [] then []
    else
      After(h[..|h| - 1], s) + (if h[|h| - 1].stamp > s then [h[|h| - 1].event] else [])
  }

  /** Every numbered change of the origin so far, in order. */
  function Hist<K, V>(o: Origin<K, V>): seq<Entry<K, V>> {
    LiveOf(o.log) + (if o.live.Stamped? then [Entry(o.live.stamp, o.live.event)] else [])
  }

  /** The change not numbered yet, if any. */
  function Unnumbered<K, V>(o: Origin<K, V>): seq<Event<K, V>> {
    if o.live.Mutated? then [o.live.event] else []
  }

  /** Every change numbered above `s`, including one not numbered yet. */
  function Tail<K, V>(o: Origin<K, V>, s: nat): seq<Event<K, V>> {
    After(Hist(o), s) + Unnumbered(o)
  }

  /** The highest live number the peer has passed in the log, lost or not. */
  function Behind<K, V>(log: seq<Msg<K, V>>, pos: nat): nat
    requires pos <= |log|
  {
    var h := LiveOf(log[..pos]);
    if h == [] then 0 else h[|h| - 1].stamp
  }

  // ---------------------------------------------------------------------- steps

  /** Origin steps. The last three: a snapshot abandoned, a number or a message for other state. */
  ghost predicate OriginStep<K, V>(o: Origin<K, V>, o': Origin<K, V>) {
    || (o.live.Idle? && o'.live.Mutated? && o' == o.(state := Apply(o.state, o'.live.event), live := o'.live))
    || (o.live.Mutated? && o' == o.(counter := o.counter + 1, live := Stamped(o.counter + 1, o.live.event)))
    || (o.live.Stamped? && o' == o.(live := Idle, log := o.log + [Live(o.live.stamp, o.live.event)]))
    || (o.snap.Resting? && o' == o.(counter := o.counter + 1, snap := Numbered(o.counter + 1)))
    || (o.snap.Numbered? && o' == o.(snap := Captured(o.snap.stamp, o.state)))
    || (o.snap.Captured? && o' == o.(snap := Resting, log := o.log + [Snap(o.snap.stamp, o.snap.contents)]))
    || o' == o.(snap := Resting)
    || o' == o.(counter := o.counter + 1)
    || o' == o.(log := o.log + [Other])
  }

  /**
   The peer handles the next message. A live event or a snapshot not newer than
   `last` changes nothing. An accepted snapshot replaces the state; a snapshot
   that changes nothing need not be recorded (session snapshots are not).
   */
  ghost predicate Handles<K, V>(log: seq<Msg<K, V>>, r: Replica<K, V>, r': Replica<K, V>)
    requires r.pos < |log|
  {
    r'.pos == r.pos + 1 &&
    match log[r.pos]
    case Live(n, e) =>
      r'.intact == r.intact &&
      if Accepts(r.last, n) then r'.state == Apply(r.state, e) && r'.last == Remember(r.last, n)
      else r'.state == r.state && r'.last == r.last
    case Snap(n, c) =>
      if Accepts(r.last, n) then
        && r'.state == c
        && (r'.last == Remember(r.last, n) || (r'.last == r.last && c == r.state))
        && r'.intact == (Behind(log, r.pos) <= n || (r.intact && c == r.state))
      else r' == r.(pos := r.pos + 1)
    case Other => r' == r.(pos := r.pos + 1)
  }

  /** Steps that lose no live event: handling a message, or losing a snapshot. */
  ghost predicate ReliableStep<K, V>(log: seq<Msg<K, V>>, r: Replica<K, V>, r': Replica<K, V>) {
    r.pos < |log| && (Handles(log, r, r') || (!log[r.pos].Live? && r' == r.(pos := r.pos + 1)))
  }

  /** A live event lost, the peer's entry reaped by TTL, or its number forgotten by GC. */
  ghost predicate DamagingStep<K, V>(log: seq<Msg<K, V>>, r: Replica<K, V>, r': Replica<K, V>) {
    || (r.pos < |log| && log[r.pos].Live? && r' == r.(pos := r.pos + 1, intact := false))
    || r' == r.(state := map[], intact := r.intact && r.state == map[])
    || r' == r.(last := 0)
  }

  ghost predicate ReliableNext<K, V>(l: Link<K, V>, l': Link<K, V>) {
    || l' == l
    || (OriginStep(l.origin, l'.origin) && l'.replica == l.replica)
    || (l'.origin == l.origin && ReliableStep(l.origin.log, l.replica, l'.replica))
  }

  ghost predicate Next<K, V>(l: Link<K, V>, l': Link<K, V>) {
    || ReliableNext(l, l')
    || (l'.origin == l.origin && DamagingStep(l.origin.log, l.replica, l'.replica))
  }

  ghost predicate Init<K, V>(l: Link<K, V>) {
    && l.origin == Origin(map[], l.origin.counter, Idle, Resting, [])
    && l.replica.pos == 0 && l.replica.last == 0
    && (l.replica.intact ==> l.replica.state == map[])
  }

  /** Nothing in progress at the origin's live path and nothing left on the bus. */
  predicate Drained<K, V>(l: Link<K, V>) {
    l.origin.live.Idle? && l.replica.pos == |l.origin.log|
  }

  // ------------------------------------------------------------------ invariant

  ghost predicate Increasing<K, V>(h: seq<Entry<K, V>>) {
    forall i, j | 0 <= i < j < |h| :: h[i].stamp < h[j].stamp
  }

  ghost predicate Bounded<K, V>(h: seq<Entry<K, V>>, top: nat) {
    forall i | 0 <= i < |h| :: 0 < h[i].stamp <= top
  }

  /** A snapshot numbered `n` brings any receiver that passed numbers up to `s <= n` to the present. */
  ghost predicate Covers<K, V>(o: Origin<K, V>, c: map<K, V>, n: nat) {
    0 < n <= o.counter && forall s: nat | s <= n :: ApplyAll(c, Tail(o, s)) == o.state
  }

  ghost predicate OriginInv<K, V>(o: Origin<K, V>) {
    && Increasing(Hist(o))
    && Bounded(Hist(o), o.counter)
    && (forall s: nat :: ApplyAll(o.state, Tail(o, s)) == o.state)
    && (forall i | 0 <= i < |o.log| && o.log[i].Snap? :: Covers(o, o.log[i].contents, o.log[i].stamp))
    && (o.snap.Numbered? ==> 0 < o.snap.stamp <= o.counter)
    && (o.snap.Captured? ==> Covers(o, o.snap.contents, o.snap.stamp))
  }

  /** Replaying what the peer has not passed brings it to the present. */
  ghost predicate ReplicaInv<K, V>(o: Origin<K, V>, r: Replica<K, V>) {
    && r.pos <= |o.log|
    && r.last <= o.counter
    && (r.intact ==>
          forall s: nat | s == Behind(o.log, r.pos) || Behind(o.log, r.pos) <= s <= r.last ::
            ApplyAll(r.state, Tail(o, s)) == o.state)
  }

  ghost predicate Inv<K, V>(l: Link<K, V>) {
    OriginInv(l.origin) && ReplicaInv(l.origin, l.replica)
  }

  // --------------------------------------------------------------- fold algebra

  lemma ApplyAllSnoc<K, V>(m: map<K, V>, es: seq<Event<K, V>>, e: Event<K, V>)
    ensures ApplyAll(m, es + [e]) == Apply(ApplyAll(m, es), e)
  {
    assert (es + [e])[..|es|] == es;
  }

  lemma {:induction false} ApplyAllCons<K, V>(m: map<K, V>, e: Event<K, V>, es: seq<Event<K, V>>)
    ensures ApplyAll(m, [e] + es) == ApplyAll(Apply(m, e), es)
  {
    if es == [] {
      assert [e] + es == [e];
      assert ApplyAll(m, [e]) == Apply(ApplyAll(m, []), e) by { assert [e][..0] == []; }
    } else {
      var init := es[..|es| - 1];
      ApplyAllCons(m, e, init);
      assert ([e] + es)[..|es|] == [e] + init;
    }
  }

  /** Events overwrite their key: doing `e` early makes no difference once `e` is done last. */
  lemma {:induction false} EarlyIsHarmless<K, V>(m: map<K, V>, es: seq<Event<K, V>>, e: Event<K, V>)
    ensures Apply(ApplyAll(Apply(m, e), es), e) == Apply(ApplyAll(m, es), e)
  {
    if es != [] {
      var init, x := es[..|es| - 1], es[|es| - 1];
      EarlyIsHarmless(m, init, e);
      var a, b := ApplyAll(Apply(m, e), init), ApplyAll(m, init);
      assert a - {e.key} == b - {e.key} by {
        assert forall k | k in a && k != e.key :: Apply(a, e)[k] == a[k];
        assert forall k | k in b && k != e.key :: Apply(b, e)[k] == b[k];
        assert forall k | k != e.key :: k in a <==> k in Apply(a, e);
        assert forall k | k != e.key :: k in b <==> k in Apply(b, e);
      }
      SameOffKey(a, b, x, e);
    }
  }

  lemma SameOffKey<K, V>(a: map<K, V>, b: map<K, V>, x: Event<K, V>, e: Event<K, V>)
    requires a - {e.key} == b - {e.key}
    ensures Apply(Apply(a, x), e) == Apply(Apply(b, x), e)
  {
    var p, q := Apply(Apply(a, x), e), Apply(Apply(b, x), e);
    assert forall k | k != e.key :: k in a <==> k in a - {e.key};
    assert forall k | k != e.key :: k in b <==> k in b - {e.key};
    assert forall k | k in a && k != e.key :: (a - {e.key})[k] == a[k];
    assert forall k | k in b && k != e.key :: (b - {e.key})[k] == b[k];
    assert p.Keys == q.Keys;
    assert forall k | k in p :: p[k] == q[k];
  }

  // ------------------------------------------------------------ history algebra

  lemma AfterSnoc<K, V>(h: seq<Entry<K, V>>, x: Entry<K, V>, s: nat)
    ensures After(h + [x], s) == After(h, s) + (if x.stamp > s then [x.event] else [])
  {
    assert (h + [x])[..|h|] == h;
  }

  lemma {:induction false} AfterConcat<K, V>(a: seq<Entry<K, V>>, b: seq<Entry<K, V>>, s: nat)
    ensures After(a + b, s) == After(a, s) + After(b, s)
  {
    if b == [] {
      assert a + b == a;
    } else {
      var init, x, ab := b[..|b| - 1], b[|b| - 1], a + b;
      AfterConcat(a, init, s);
      assert ab[..|ab| - 1] == a + init && ab[|ab| - 1] == x;
      var tip := if x.stamp > s then [x.event] else [];
      assert (After(a, s) + After(init, s)) + tip == After(a, s) + (After(init, s) + tip);
    }
  }

  lemma {:induction false} AfterAllOld<K, V>(h: seq<Entry<K, V>>, s: nat)
    requires forall i | 0 <= i < |h| :: h[i].stamp <= s
    ensures After(h, s) == []
  {
    if h != [] { AfterAllOld(h[..|h| - 1], s); }
  }

  /** Between two numbers with no entry in between, `After` is the same. */
  lemma {:induction false} AfterAllNew<K, V>(h: seq<Entry<K, V>>, s: nat, t: nat)
    requires forall i | 0 <= i < |h| :: s < h[i].stamp && t < h[i].stamp
    ensures After(h, s) == After(h, t)
  {
    if h != [] { AfterAllNew(h[..|h| - 1], s, t); }
  }

  lemma {:induction false} LiveOfConcat<K, V>(a: seq<Msg<K, V>>, b: seq<Msg<K, V>>)
    ensures LiveOf(a + b) == LiveOf(a) + LiveOf(b)
  {
    if b == [] {
      assert a + b == a;
    } else {
      LiveOfConcat(a, b[..|b| - 1]);
      assert (a + b)[..|a + b| - 1] == a + b[..|b| - 1];
    }
  }

  /** The history splits at a position into passed, current and remaining entries. */
  lemma HistSplit<K, V>(o: Origin<K, V>, pos: nat) returns (before: seq<Entry<K, V>>, rest: seq<Entry<K, V>>)
    requires pos < |o.log|
    ensures before == LiveOf(o.log[..pos])
    ensures Hist(o) == before + LiveOf([o.log[pos]]) + rest
    ensures LiveOf(o.log[..pos + 1]) == before + LiveOf([o.log[pos]])
  {
    before := LiveOf(o.log[..pos]);
    assert o.log[..pos + 1] == o.log[..pos] + [o.log[pos]];
    assert o.log == o.log[..pos + 1] + o.log[pos + 1..];
    LiveOfConcat(o.log[..pos], [o.log[pos]]);
    LiveOfConcat(o.log[..pos + 1], o.log[pos + 1..]);
    rest := LiveOf(o.log[pos + 1..]) + (if o.live.Stamped? then [Entry(o.live.stamp, o.live.event)] else []);
  }

  /** Passing anything but a live event passes no live entry. */
  lemma BehindPastOther<K, V>(log: seq<Msg<K, V>>, pos: nat)
    requires pos < |log| && !log[pos].Live?
    ensures Behind(log, pos + 1) == Behind(log, pos)
  {
    assert log[..pos + 1] == log[..pos] + [log[pos]];
    LiveOfConcat(log[..pos], [log[pos]]);
  }

  lemma BehindPastLive<K, V>(log: seq<Msg<K, V>>, pos: nat)
    requires pos < |log| && log[pos].Live?
    ensures Behind(log, pos + 1) == log[pos].stamp
  {
    assert log[..pos + 1] == log[..pos] + [log[pos]];
    LiveOfConcat(log[..pos], [log[pos]]);
  }

  lemma AfterAtEntry<K, V>(before: seq<Entry<K, V>>, x: Entry<K, V>, rest: seq<Entry<K, V>>, s: nat)
    requires forall i | 0 <= i < |before| :: before[i].stamp <= s
    requires s < x.stamp && forall i | 0 <= i < |rest| :: x.stamp < rest[i].stamp
    ensures After(before + [x] + rest, s) == [x.event] + After(before + [x] + rest, x.stamp)
  {
    var a := before + [x];
    assert After(a, s) == [x.event] by {
      AfterSnoc(before, x, s);
      AfterAllOld(before, s);
    }
    AfterAllOld(a, x.stamp);
    AfterAllNew(rest, s, x.stamp);
    calc {
      After(a + rest, s);
    ==  { AfterConcat(a, rest, s); }
      [x.event] + After(rest, x.stamp);
    ==  { AfterConcat(a, rest, x.stamp); }
      [x.event] + After(a + rest, x.stamp);
    }
  }

  /** The history around a live event in the log: older entries, the event, newer entries. */
  lemma HistAtLive<K, V>(o: Origin<K, V>, pos: nat) returns (before: seq<Entry<K, V>>, x: Entry<K, V>, rest: seq<Entry<K, V>>)
    requires pos < |o.log| && o.log[pos].Live?
    requires Increasing(Hist(o)) && Bounded(Hist(o), o.counter)
    ensures Hist(o) == before + [x] + rest && x == Entry(o.log[pos].stamp, o.log[pos].event)
    ensures Behind(o.log, pos) < x.stamp <= o.counter
    ensures forall i | 0 <= i < |before| :: before[i].stamp <= Behind(o.log, pos)
    ensures forall i | 0 <= i < |rest| :: x.stamp < rest[i].stamp
  {
    before, rest := HistSplit(o, pos);
    x := Entry(o.log[pos].stamp, o.log[pos].event);
    assert LiveOf([o.log[pos]]) == [x];
    SplitIncreasing(before, x, rest, o.counter);
  }

  lemma SplitIncreasing<K, V>(before: seq<Entry<K, V>>, x: Entry<K, V>, rest: seq<Entry<K, V>>, top: nat)
    requires Increasing(before + [x] + rest) && Bounded(before + [x] + rest, top)
    ensures 0 < x.stamp <= top
    ensures before != [] ==> before[|before| - 1].stamp < x.stamp
    ensures forall i | 0 <= i < |before| :: before[i].stamp <= before[|before| - 1].stamp
    ensures forall i | 0 <= i < |rest| :: x.stamp < rest[i].stamp
  {
    var h, n := before + [x] + rest, |before|;
    assert h[n] == x;
    forall i | 0 <= i < n ensures before[i].stamp < x.stamp && before[i].stamp <= before[n - 1].stamp {
      assert h[i] == before[i] && h[n - 1] == before[n - 1];
      assert i < n - 1 ==> h[i].stamp < h[n - 1].stamp;
    }
    forall i | 0 <= i < |rest| ensures x.stamp < rest[i].stamp {
      assert h[n + 1 + i] == rest[i];
    }
  }

  /** What the peer still misses starts with the live event it is about to handle. */
  lemma TailAtLive<K, V>(o: Origin<K, V>, pos: nat, s: nat)
    requires pos < |o.log| && o.log[pos].Live?
    requires Increasing(Hist(o)) && Bounded(Hist(o), o.counter)
    requires Behind(o.log, pos) <= s < o.log[pos].stamp
    ensures Tail(o, s) == [o.log[pos].event] + Tail(o, o.log[pos].stamp)
  {
    var before, x, rest := HistAtLive(o, pos);
    AfterAtEntry(before, x, rest, s);
    assert [x.event] + After(Hist(o), x.stamp) + Unnumbered(o) == [x.event] + (After(Hist(o), x.stamp) + Unnumbered(o));
  }

  /** Numbers at or above every entry leave only the change not numbered yet. */
  lemma TailBeyond<K, V>(o: Origin<K, V>, s: nat)
    requires Bounded(Hist(o), o.counter) && o.counter <= s
    ensures Tail(o, s) == if o.live.Mutated? then [o.live.event] else []
  {
    AfterAllOld(Hist(o), s);
  }

  // --------------------------------------------------------------- preservation

  /** A new change extends every tail by itself. */
  lemma TailOnMutate<K, V>(o: Origin<K, V>, e: Event<K, V>, s: nat)
    requires o.live.Idle?
    ensures Tail(o.(state := Apply(o.state, e), live := Mutated(e)), s) == Tail(o, s) + [e]
  {
  }

  /** Numbering a change leaves every tail up to the old counter as it was. */
  lemma TailOnStamp<K, V>(o: Origin<K, V>, s: nat)
    requires o.live.Mutated? && s <= o.counter
    ensures Tail(o.(counter := o.counter + 1, live := Stamped(o.counter + 1, o.live.event)), s) == Tail(o, s)
  {
    AfterSnoc(LiveOf(o.log), Entry(o.counter + 1, o.live.event), s);
    assert LiveOf(o.log) + [] == LiveOf(o.log);
  }

  lemma HistOnEnqueue<K, V>(o: Origin<K, V>, m: Msg<K, V>)
    requires m.Live? ==> o.live.Stamped? && m == Live(o.live.stamp, o.live.event)
    ensures Hist(o.(live := if m.Live? then Idle else o.live, log := o.log + [m])) == Hist(o)
  {
    LiveOfConcat(o.log, [m]);
    assert LiveOf([m]) == if m.Live? then [Entry(m.stamp, m.event)] else [];
  }

  /** States agreeing before a change agree after it. */
  lemma CoversOnMutate<K, V>(o: Origin<K, V>, e: Event<K, V>, c: map<K, V>, s: nat)
    requires o.live.Idle? && ApplyAll(c, Tail(o, s)) == o.state
    ensures
      var o' := o.(state := Apply(o.state, e), live := Mutated(e));
      ApplyAll(c, Tail(o', s)) == o'.state
  {
    TailOnMutate(o, e, s);
    ApplyAllSnoc(c, Tail(o, s), e);
  }

  lemma MutateKeeps<K, V>(l: Link<K, V>, e: Event<K, V>, o': Origin<K, V>)
    requires Inv(l) && l.origin.live.Idle?
    requires o' == l.origin.(state := Apply(l.origin.state, e), live := Mutated(e))
    ensures Inv(Link(o', l.replica))
  {
    var o, r := l.origin, l.replica;
    forall s: nat ensures ApplyAll(o'.state, Tail(o', s)) == o'.state {
      TailOnMutate(o, e, s);
      ApplyAllSnoc(o'.state, Tail(o, s), e);
      EarlyIsHarmless(o.state, Tail(o, s), e);
    }
    forall i | 0 <= i < |o.log| && o.log[i].Snap? ensures Covers(o', o.log[i].contents, o.log[i].stamp) {
      assert Covers(o, o.log[i].contents, o.log[i].stamp);
      forall s: nat | s <= o.log[i].stamp ensures ApplyAll(o.log[i].contents, Tail(o', s)) == o'.state {
        CoversOnMutate(o, e, o.log[i].contents, s);
      }
    }
    if o.snap.Captured? {
      forall s: nat | s <= o.snap.stamp ensures ApplyAll(o.snap.contents, Tail(o', s)) == o'.state {
        CoversOnMutate(o, e, o.snap.contents, s);
      }
    }
    if r.intact {
      forall s: nat | s == Behind(o.log, r.pos) || Behind(o.log, r.pos) <= s <= r.last
        ensures ApplyAll(r.state, Tail(o', s)) == o'.state {
        CoversOnMutate(o, e, r.state, s);
      }
    }
  }

  lemma CoversOnStamp<K, V>(o: Origin<K, V>, c: map<K, V>, n: nat)
    requires o.live.Mutated? && Covers(o, c, n)
    ensures Covers(o.(counter := o.counter + 1, live := Stamped(o.counter + 1, o.live.event)), c, n)
  {
    var o' := o.(counter := o.counter + 1, live := Stamped(o.counter + 1, o.live.event));
    forall s: nat | s <= n ensures ApplyAll(c, Tail(o', s)) == o'.state { TailOnStamp(o, s); }
  }

  lemma StampHist<K, V>(o: Origin<K, V>, o': Origin<K, V>)
    requires Increasing(Hist(o)) && Bounded(Hist(o), o.counter) && o.live.Mutated?
    requires o' == o.(counter := o.counter + 1, live := Stamped(o.counter + 1, o.live.event))
    ensures Increasing(Hist(o')) && Bounded(Hist(o'), o'.counter)
  {
    assert Hist(o) == LiveOf(o.log);
    assert Hist(o') == Hist(o) + [Entry(o'.counter, o.live.event)];
  }

  lemma StampKeepsOrigin<K, V>(o: Origin<K, V>, o': Origin<K, V>)
    requires OriginInv(o) && o.live.Mutated?
    requires o' == o.(counter := o.counter + 1, live := Stamped(o.counter + 1, o.live.event))
    ensures OriginInv(o')
  {
    StampHist(o, o');
    forall s: nat ensures ApplyAll(o'.state, Tail(o', s)) == o'.state {
      if s <= o.counter { TailOnStamp(o, s); } else { TailBeyond(o', s); }
    }
    forall i | 0 <= i < |o.log| && o.log[i].Snap? ensures Covers(o', o.log[i].contents, o.log[i].stamp) {
      CoversOnStamp(o, o.log[i].contents, o.log[i].stamp);
    }
    if o.snap.Captured? { CoversOnStamp(o, o.snap.contents, o.snap.stamp); }
  }

  lemma StampKeeps<K, V>(l: Link<K, V>, o': Origin<K, V>)
    requires Inv(l) && l.origin.live.Mutated?
    requires o' == l.origin.(counter := l.origin.counter + 1, live := Stamped(l.origin.counter + 1, l.origin.live.event))
    ensures Inv(Link(o', l.replica))
  {
    var o, r := l.origin, l.replica;
    StampKeepsOrigin(o, o');
    if r.intact {
      BehindBounded(o, r.pos);
      forall s: nat | s == Behind(o.log, r.pos) || Behind(o.log, r.pos) <= s <= r.last
        ensures ApplyAll(r.state, Tail(o', s)) == o'.state {
        TailOnStamp(o, s);
      }
    }
  }

  lemma BehindBounded<K, V>(o: Origin<K, V>, pos: nat)
    requires pos <= |o.log| && Bounded(Hist(o), o.counter)
    ensures Behind(o.log, pos) <= o.counter
  {
    var h := LiveOf(o.log[..pos]);
    assert o.log == o.log[..pos] + o.log[pos..];
    LiveOfConcat(o.log[..pos], o.log[pos..]);
    if h != [] { assert Hist(o)[|h| - 1] == h[|h| - 1]; }
  }

  lemma CoversSame<K, V>(o: Origin<K, V>, o': Origin<K, V>, c: map<K, V>, n: nat)
    requires Covers(o, c, n)
    requires o'.state == o.state && o.counter <= o'.counter && Hist(o') == Hist(o) && Unnumbered(o') == Unnumbered(o)
    ensures Covers(o', c, n)
  {
    forall s: nat | s <= n ensures ApplyAll(c, Tail(o', s)) == o'.state { assert Tail(o', s) == Tail(o, s); }
  }

  /** Steps that leave history, state and the change in progress alone keep every tail. */
  lemma SameTailsKeepOrigin<K, V>(o: Origin<K, V>, o': Origin<K, V>)
    requires OriginInv(o)
    requires o'.state == o.state && o.counter <= o'.counter
    requires Hist(o') == Hist(o) && Unnumbered(o') == Unnumbered(o)
    requires o.log <= o'.log
    requires forall i | |o.log| <= i < |o'.log| && o'.log[i].Snap? :: Covers(o, o'.log[i].contents, o'.log[i].stamp)
    requires o'.snap.Numbered? ==> 0 < o'.snap.stamp <= o'.counter
    requires o'.snap.Captured? ==> Covers(o, o'.snap.contents, o'.snap.stamp)
    ensures OriginInv(o')
  {
    forall s: nat ensures ApplyAll(o'.state, Tail(o', s)) == o'.state { assert Tail(o', s) == Tail(o, s); }
    forall i | 0 <= i < |o'.log| && o'.log[i].Snap? ensures Covers(o', o'.log[i].contents, o'.log[i].stamp) {
      if i < |o.log| { assert o'.log[i] == o.log[i]; }
      CoversSame(o, o', o'.log[i].contents, o'.log[i].stamp);
    }
    if o'.snap.Captured? { CoversSame(o, o', o'.snap.contents, o'.snap.stamp); }
  }

  lemma SameTailsKeepReplica<K, V>(o: Origin<K, V>, o': Origin<K, V>, r: Replica<K, V>)
    requires ReplicaInv(o, r) && o.log <= o'.log
    requires o'.state == o.state && o.counter <= o'.counter && Hist(o') == Hist(o) && Unnumbered(o') == Unnumbered(o)
    ensures ReplicaInv(o', r)
  {
    assert o'.log[..r.pos] == o.log[..r.pos];
    if r.intact {
      forall s: nat | s == Behind(o.log, r.pos) || Behind(o.log, r.pos) <= s <= r.last
        ensures ApplyAll(r.state, Tail(o', s)) == o'.state {
        assert Tail(o', s) == Tail(o, s);
      }
    }
  }

  lemma OtherOriginStepKeeps<K, V>(l: Link<K, V>, o': Origin<K, V>)
    requires Inv(l) && OriginStep(l.origin, o')
    requires !(l.origin.live.Idle? && o'.live.Mutated?) && !(l.origin.live.Mutated? && o'.live.Stamped?)
    ensures Inv(Link(o', l.replica))
  {
    if o'.log != l.origin.log { HistOnEnqueue(l.origin, o'.log[|l.origin.log|]); }
    SameTailsKeepOrigin(l.origin, o');
    SameTailsKeepReplica(l.origin, o', l.replica);
  }

  lemma OriginStepKeeps<K, V>(l: Link<K, V>, o': Origin<K, V>)
    requires Inv(l) && OriginStep(l.origin, o')
    ensures Inv(Link(o', l.replica))
  {
    var o := l.origin;
    if o.live.Idle? && o'.live.Mutated? {
      MutateKeeps(l, o'.live.event, o');
    } else if o.live.Mutated? && o'.live.Stamped? {
      StampKeeps(l, o');
    } else {
      OtherOriginStepKeeps(l, o');
    }
  }

  lemma HandlesKeeps<K, V>(o: Origin<K, V>, r: Replica<K, V>, r': Replica<K, V>)
    requires OriginInv(o) && ReplicaInv(o, r) && r.pos < |o.log| && Handles(o.log, r, r')
    ensures ReplicaInv(o, r')
  {
    match o.log[r.pos]
    case Snap(n, c) =>
      BehindPastOther(o.log, r.pos);
      assert Covers(o, c, n);
    case Other => BehindPastOther(o.log, r.pos);
    case Live(n, e) => HandlesLiveKeeps(o, r, r');
  }

  lemma HandlesLiveKeeps<K, V>(o: Origin<K, V>, r: Replica<K, V>, r': Replica<K, V>)
    requires Increasing(Hist(o)) && Bounded(Hist(o), o.counter)
    requires ReplicaInv(o, r) && r.pos < |o.log| && Handles(o.log, r, r') && o.log[r.pos].Live?
    ensures ReplicaInv(o, r')
  {
    var n, e := o.log[r.pos].stamp, o.log[r.pos].event;
    BehindPastLive(o.log, r.pos);
    BehindBelow(o, r.pos);
    if r.intact && Accepts(r.last, n) {
      assert ApplyAll(r.state, Tail(o, Behind(o.log, r.pos))) == o.state;
      TailAtLive(o, r.pos, Behind(o.log, r.pos));
      ApplyAllCons(r.state, e, Tail(o, n));
    }
  }

  lemma BehindBelow<K, V>(o: Origin<K, V>, pos: nat)
    requires pos < |o.log| && o.log[pos].Live?
    requires Increasing(Hist(o)) && Bounded(Hist(o), o.counter)
    ensures Behind(o.log, pos) < o.log[pos].stamp <= o.counter
  {
    var before, x, rest := HistAtLive(o, pos);
  }

  lemma PeerStepKeeps<K, V>(o: Origin<K, V>, r: Replica<K, V>, r': Replica<K, V>)
    requires OriginInv(o) && ReplicaInv(o, r)
    requires ReliableStep(o.log, r, r') || DamagingStep(o.log, r, r')
    ensures ReplicaInv(o, r')
  {
    if r.pos < |o.log| && Handles(o.log, r, r') {
      HandlesKeeps(o, r, r');
    } else if r.pos < |o.log| && !o.log[r.pos].Live? && r' == r.(pos := r.pos + 1) {
      BehindPastOther(o.log, r.pos);
    }
  }

  lemma NextKeeps<K, V>(l: Link<K, V>, l': Link<K, V>)
    requires Inv(l) && Next(l, l')
    ensures Inv(l')
  {
    if l' == l {
    } else if l'.origin == l.origin {
      PeerStepKeeps(l.origin, l.replica, l'.replica);
    } else {
      OriginStepKeeps(l, l'.origin);
      assert l' == Link(l'.origin, l.replica);
    }
  }

  // ----------------------------------------------------------------------- runs

  ghost predicate IsRun<K, V>(run: seq<Link<K, V>>) {
    run != [] && forall i, j {:trigger Next(run[i], run[j])} | 0 <= i && j == i + 1 < |run| :: Next(run[i], run[j])
  }

  /** From `from` on, the run loses no live event, reaps nothing and forgets no number. */
  ghost predicate ReliableFrom<K, V>(run: seq<Link<K, V>>, from: nat) {
    forall i, j {:trigger ReliableNext(run[i], run[j])} | from <= i && j == i + 1 < |run| :: ReliableNext(run[i], run[j])
  }

  lemma {:induction false} RunKeepsInv<K, V>(run: seq<Link<K, V>>, i: nat)
    requires IsRun(run) && Init(run[0]) && i < |run|
    ensures Inv(run[i])
  {
    if i == 0 {
      var o := run[0].origin;
      assert Hist(o) == [];
      assert forall s: nat :: Tail(o, s) == [];
    } else {
      RunKeepsInv(run, i - 1);
      var step := Next(run[i - 1], run[i]);
      assert step;
      NextKeeps(run[i - 1], run[i]);
    }
  }

  /** Whatever was lost and repaired before: intact and drained means equal. */
  lemma DrainedIntactIsEqual<K, V>(l: Link<K, V>)
    requires Inv(l) && Drained(l) && l.replica.intact
    ensures l.replica.state == l.origin.state
  {
    var o, r := l.origin, l.replica;
    assert o.log[..r.pos] == o.log;
    var h, b := LiveOf(o.log), Behind(o.log, r.pos);
    assert Hist(o) == h;
    forall i | 0 <= i < |h| ensures h[i].stamp <= b {
      if i < |h| - 1 { assert h[i].stamp < h[|h| - 1].stamp; }
    }
    AfterAllOld(h, b);
    assert Tail(o, b) == [];
  }

  ghost predicate Synced<K, V>(l: Link<K, V>) {
    && Inv(l) && l.replica.intact
    && Behind(l.origin.log, l.replica.pos) <= l.replica.last
  }

  lemma ReliableKeepsSynced<K, V>(l: Link<K, V>, l': Link<K, V>)
    requires Synced(l) && ReliableNext(l, l')
    ensures Synced(l')
  {
    NextKeeps(l, l');
    if l' == l {
    } else if l'.origin == l.origin {
      var pos := l.replica.pos;
      if pos < |l.origin.log| && l.origin.log[pos].Snap? { SnapshotStampPositive(l.origin, pos); }
      PeerKeepsSynced(l.origin, l.replica, l'.replica);
    } else {
      LogGrows(l.origin, l'.origin, l.replica.pos);
    }
  }

  lemma PeerKeepsSynced<K, V>(o: Origin<K, V>, r: Replica<K, V>, r': Replica<K, V>)
    requires r.pos <= |o.log| && r.intact && Behind(o.log, r.pos) <= r.last
    requires r' == r || ReliableStep(o.log, r, r')
    requires r.pos < |o.log| && o.log[r.pos].Snap? ==> o.log[r.pos].stamp > 0
    ensures r'.pos <= |o.log| && r'.intact && Behind(o.log, r'.pos) <= r'.last
  {
    if r' != r {
      if o.log[r.pos].Live? {
        BehindPastLive(o.log, r.pos);
      } else {
        BehindPastOther(o.log, r.pos);
      }
    }
  }

  lemma {:induction false} ReliableFromKeepsSynced<K, V>(run: seq<Link<K, V>>, from: nat, i: nat)
    requires from <= i < |run| && ReliableFrom(run, from) && Synced(run[from])
    ensures Synced(run[i])
  {
    if i > from {
      ReliableFromKeepsSynced(run, from, i - 1);
      var step := ReliableNext(run[i - 1], run[i]);
      assert step;
      ReliableKeepsSynced(run[i - 1], run[i]);
    }
  }

  /**
   Convergence: over every interleaving of changes and snapshots at the origin,
   on a bus that loses no live event (snapshots may be lost), the peer equals
   the origin once the bus drains.
   */
  lemma Convergence<K, V>(run: seq<Link<K, V>>)
    requires IsRun(run) && Init(run[0]) && run[0].replica.intact && ReliableFrom(run, 0)
    requires Drained(run[|run| - 1])
    ensures run[|run| - 1].replica.state == run[|run| - 1].origin.state
  {
    RunKeepsInv(run, 0);
    ReliableFromKeepsSynced(run, 0, |run| - 1);
    DrainedIntactIsEqual(run[|run| - 1]);
  }

  /** The peer accepts and records, at step `i`, a snapshot numbered above all it has applied. */
  ghost predicate AcceptsSnapshotAt<K, V>(run: seq<Link<K, V>>, i: nat)
    requires i + 1 < |run|
  {
    var l, l' := run[i], run[i + 1];
    && l'.origin == l.origin
    && l.replica.pos < |l.origin.log|
    && Handles(l.origin.log, l.replica, l'.replica)
    && l.origin.log[l.replica.pos].Snap?
    && l.replica.last < l.origin.log[l.replica.pos].stamp == l'.replica.last
  }

  /**
   Healing: from any damaged replica, after any losses, one accepted snapshot
   numbered above every live event the peer has passed, with no loss after it,
   makes the peer equal to the origin once the bus drains.
   */
  lemma Healing<K, V>(run: seq<Link<K, V>>, i: nat)
    requires IsRun(run) && Init(run[0]) && i + 1 < |run|
    requires AcceptsSnapshotAt(run, i)
    requires Behind(run[i].origin.log, run[i].replica.pos) <= run[i].origin.log[run[i].replica.pos].stamp
    requires ReliableFrom(run, i + 1) && Drained(run[|run| - 1])
    ensures run[|run| - 1].replica.state == run[|run| - 1].origin.state
  {
    RunKeepsInv(run, i + 1);
    BehindPastOther(run[i].origin.log, run[i].replica.pos);
    ReliableFromKeepsSynced(run, i + 1, |run| - 1);
    DrainedIntactIsEqual(run[|run| - 1]);
  }

  /**
   A live event refused because a snapshot outran it is already covered: without
   it, and equally if it were applied again, the peer reaches the present.
   */
  lemma RefusedIsCovered<K, V>(l: Link<K, V>)
    requires Inv(l) && l.replica.intact && l.replica.pos < |l.origin.log|
    requires l.origin.log[l.replica.pos].Live? && !Accepts(l.replica.last, l.origin.log[l.replica.pos].stamp)
    ensures
      var m := l.origin.log[l.replica.pos];
      && ApplyAll(l.replica.state, Tail(l.origin, m.stamp)) == l.origin.state
      && ApplyAll(Apply(l.replica.state, m.event), Tail(l.origin, m.stamp)) == l.origin.state
  {
    var o, r := l.origin, l.replica;
    var m := o.log[r.pos];
    BehindBelow(o, r.pos);
    TailAtLive(o, r.pos, Behind(o.log, r.pos));
    ApplyAllCons(r.state, m.event, Tail(o, m.stamp));
  }

  /** A live event delivered twice is applied once, and nothing numbered below it is applied after it. */
  lemma AppliedOnce<K, V>(log: seq<Msg<K, V>>, r: Replica<K, V>, r': Replica<K, V>, later: seq<Msg<K, V>>, r'': Replica<K, V>)
    requires r.pos < |log| && log[r.pos].Live? && Handles(log, r, r')
    requires r'.pos < |later| && later[r'.pos].Live? && 0 < later[r'.pos].stamp <= log[r.pos].stamp && Handles(later, r', r'')
    ensures r''.state == r'.state && r''.last == r'.last
  {
  }

  /** An event numbered above everything applied so far is applied. */
  lemma NewerIsApplied<K, V>(log: seq<Msg<K, V>>, r: Replica<K, V>, r': Replica<K, V>)
    requires r.pos < |log| && log[r.pos].Live? && r.last < log[r.pos].stamp && Handles(log, r, r')
    ensures r'.last == log[r.pos].stamp
    ensures forall k :: if k == log[r.pos].event.key then k in r'.state <==> log[r.pos].event.Put?
                        else SameAt(r'.state, r.state, k)
    ensures log[r.pos].event.Put? ==> r'.state[log[r.pos].event.key] == log[r.pos].event.value
  {
  }

  lemma SnapshotStampPositive<K, V>(o: Origin<K, V>, i: nat)
    requires OriginInv(o) && i < |o.log| && o.log[i].Snap?
    ensures 0 < o.log[i].stamp <= o.counter
  {
    assert Covers(o, o.log[i].contents, o.log[i].stamp);
  }

  // ------------------------------------------------------- exactly when it heals

  function Touched<K, V>(es: seq<Event<K, V>>): set<K> {
    set i | 0 <= i < |es| :: es[i].key
  }

  predicate SameAt<K, V(==)>(a: map<K, V>, b: map<K, V>, k: K) {
    (k in a <==> k in b) && (k in a && k in b ==> a[k] == b[k])
  }

  lemma {:induction false} FoldAt<K, V>(a: map<K, V>, b: map<K, V>, es: seq<Event<K, V>>, k: K)
    ensures k in Touched(es) ==> SameAt(ApplyAll(a, es), ApplyAll(b, es), k)
    ensures k !in Touched(es) ==> SameAt(ApplyAll(a, es), a, k)
  {
    if es != [] {
      var init, x := es[..|es| - 1], es[|es| - 1];
      FoldAt(a, b, init, k);
      if k in Touched(init) {
        var i :| 0 <= i < |init| && init[i].key == k;
        assert es[i].key == k;
      }
      if k in Touched(es) && k != x.key {
        var i :| 0 <= i < |es| && es[i].key == k;
        assert init[i].key == k;
      }
      assert es[|es| - 1].key in Touched(es);
    }
  }

  lemma SameEverywhere<K, V>(a: map<K, V>, b: map<K, V>)
    requires forall k | k in a.Keys + b.Keys :: SameAt(a, b, k)
    ensures a == b
  {
    assert forall k | k in a :: k in a.Keys + b.Keys;
    assert forall k | k in b :: k in a.Keys + b.Keys;
  }

  /** Two states become equal under the same changes if and only if these write every key on which they differ. */
  lemma FoldsAgreeIff<K, V>(a: map<K, V>, b: map<K, V>, es: seq<Event<K, V>>)
    ensures ApplyAll(a, es) == ApplyAll(b, es) <==>
            forall k | k in a.Keys + b.Keys && !SameAt(a, b, k) :: k in Touched(es)
  {
    var p, q := ApplyAll(a, es), ApplyAll(b, es);
    if forall k | k in a.Keys + b.Keys && !SameAt(a, b, k) :: k in Touched(es) {
      forall k | k in p.Keys + q.Keys ensures SameAt(p, q, k) {
        FoldAt(a, b, es, k);
        FoldAt(b, a, es, k);
      }
      SameEverywhere(p, q);
    } else {
      var k :| k in a.Keys + b.Keys && !SameAt(a, b, k) && k !in Touched(es);
      FoldAt(a, b, es, k);
      FoldAt(b, a, es, k);
    }
  }

  /**
   For any contents at all: replaying what the peer has not passed brings it to
   the present if and only if every key on which it is wrong is written again by
   a change it has not passed.
   */
  lemma RecoversIff<K, V>(o: Origin<K, V>, x: map<K, V>, s: nat)
    requires OriginInv(o)
    ensures ApplyAll(x, Tail(o, s)) == o.state <==>
            forall k | k in x.Keys + o.state.Keys && !SameAt(x, o.state, k) :: k in Touched(Tail(o, s))
  {
    assert ApplyAll(o.state, Tail(o, s)) == o.state;
    FoldsAgreeIff(x, o.state, Tail(o, s));
  }

  /** The peer after handling the rest of a log that holds only live events. */
  function Drain<K, V>(log: seq<Msg<K, V>>, r: Replica<K, V>): (r': Replica<K, V>)
    requires r.pos <= |log| && forall i | r.pos <= i < |log| :: log[i].Live?
    decreases |log| - r.pos
  {
    if r.pos == |log| then r
    else if Accepts(r.last, log[r.pos].stamp) then
      Drain(log, Replica(Apply(r.state, log[r.pos].event), Remember(r.last, log[r.pos].stamp), r.pos + 1, r.intact))
    else Drain(log, r.(pos := r.pos + 1))
  }

  /** Up to this number the peer will apply nothing more. */
  function Done<K, V>(log: seq<Msg<K, V>>, r: Replica<K, V>): nat
    requires r.pos <= |log|
  {
    Remember(r.last, Behind(log, r.pos))
  }

  lemma NextAhead<K, V>(o: Origin<K, V>, r: Replica<K, V>)
    requires Increasing(Hist(o)) && Bounded(Hist(o), o.counter)
    requires r.pos < |o.log| && o.log[r.pos].Live? && r.last < o.log[r.pos].stamp
    ensures ApplyAll(r.state, Tail(o, Done(o.log, r))) ==
            ApplyAll(Apply(r.state, o.log[r.pos].event), Tail(o, o.log[r.pos].stamp))
  {
    var m := o.log[r.pos];
    BehindBelow(o, r.pos);
    TailAtLive(o, r.pos, Done(o.log, r));
    ApplyAllCons(r.state, m.event, Tail(o, m.stamp));
  }

  /** Handling the rest event by event, with the sequence filter, applies exactly the changes above that number. */
  lemma {:induction false} DrainIsFold<K, V>(o: Origin<K, V>, r: Replica<K, V>)
    requires OriginInv(o) && o.live.Idle? && r.pos <= |o.log|
    requires forall i | r.pos <= i < |o.log| :: o.log[i].Live?
    ensures Drain(o.log, r).state == ApplyAll(r.state, Tail(o, Done(o.log, r)))
    decreases |o.log| - r.pos
  {
    if r.pos < |o.log| {
      var m := o.log[r.pos];
      BehindBelow(o, r.pos);
      BehindPastLive(o.log, r.pos);
      if Accepts(r.last, m.stamp) {
        NextAhead(o, r);
        DrainIsFold(o, Replica(Apply(r.state, m.event), m.stamp, r.pos + 1, r.intact));
      } else {
        DrainIsFold(o, r.(pos := r.pos + 1));
      }
    } else {
      TailAtEnd(o, Done(o.log, r));
    }
  }

  lemma TailAtEnd<K, V>(o: Origin<K, V>, s: nat)
    requires OriginInv(o) && o.live.Idle? && Behind(o.log, |o.log|) <= s
    ensures Tail(o, s) == []
  {
    assert o.log[..|o.log|] == o.log;
    var h := LiveOf(o.log);
    assert Hist(o) == h;
    forall i | 0 <= i < |h| ensures h[i].stamp <= s {
      if i < |h| - 1 { assert h[i].stamp < h[|h| - 1].stamp; }
    }
    AfterAllOld(h, s);
  }

  /**
   Exactly when any peer, damaged or not, is right once the origin falls quiet and
   the remaining live events are handled: if and only if every key it has wrong is
   written by one of them that it will apply.
   */
  lemma HealsIff<K, V>(o: Origin<K, V>, r: Replica<K, V>)
    requires OriginInv(o) && o.live.Idle? && r.pos <= |o.log|
    requires forall i | r.pos <= i < |o.log| :: o.log[i].Live?
    ensures Drain(o.log, r).state == o.state <==>
            forall k | k in r.state.Keys + o.state.Keys && !SameAt(r.state, o.state, k) ::
              k in Touched(Tail(o, Done(o.log, r)))
  {
    DrainIsFold(o, r);
    RecoversIff(o, r.state, Done(o.log, r));
  }

  /** Live events the peer has passed, handled or lost, that are numbered above `n`. */
  function Missed<K, V>(log: seq<Msg<K, V>>, pos: nat, n: nat): seq<Event<K, V>>
    requires pos <= |log|
  {
    After(LiveOf(log[..pos]), n)
  }

  /**
   A snapshot `c` numbered `n`, taken over at position `pos`, lacks exactly the
   changes passed above its number. It heals if each key those change is written
   again by what follows, or they leave it as the snapshot has it.
   */
  ghost predicate MissedIsHarmless<K, V>(o: Origin<K, V>, c: map<K, V>, n: nat, pos: nat)
    requires pos <= |o.log|
  {
    var missed := Missed(o.log, pos, n);
    forall k | k in Touched(missed) && !SameAt(c, ApplyAll(c, missed), k) ::
      k in Touched(Tail(o, Behind(o.log, pos)))
  }

  lemma HistAt<K, V>(o: Origin<K, V>, pos: nat) returns (before: seq<Entry<K, V>>, rest: seq<Entry<K, V>>)
    requires pos <= |o.log|
    ensures before == LiveOf(o.log[..pos]) && Hist(o) == before + rest
  {
    before := LiveOf(o.log[..pos]);
    assert o.log == o.log[..pos] + o.log[pos..];
    LiveOfConcat(o.log[..pos], o.log[pos..]);
    rest := LiveOf(o.log[pos..]) + (if o.live.Stamped? then [Entry(o.live.stamp, o.live.event)] else []);
  }

  lemma SplitAbove<K, V>(before: seq<Entry<K, V>>, rest: seq<Entry<K, V>>, top: nat, b: nat)
    requires Increasing(before + rest) && Bounded(before + rest, top)
    requires b == if before == [] then 0 else before[|before| - 1].stamp
    ensures After(before, b) == [] && forall i | 0 <= i < |rest| :: b < rest[i].stamp
  {
    var h, n := before + rest, |before|;
    forall i | 0 <= i < n ensures before[i].stamp <= b {
      assert h[i] == before[i] && h[n - 1] == before[n - 1];
      assert i < n - 1 ==> h[i].stamp < h[n - 1].stamp;
    }
    AfterAllOld(before, b);
    forall i | 0 <= i < |rest| ensures b < rest[i].stamp {
      assert h[n + i] == rest[i];
      assert n > 0 ==> h[n - 1] == before[n - 1];
    }
  }

  lemma AfterSplits<K, V>(before: seq<Entry<K, V>>, rest: seq<Entry<K, V>>, n: nat, b: nat)
    requires After(before, b) == [] && n <= b && forall i | 0 <= i < |rest| :: b < rest[i].stamp
    ensures After(before + rest, n) == After(before, n) + After(before + rest, b)
  {
    AfterConcat(before, rest, n);
    AfterConcat(before, rest, b);
    AfterAllNew(rest, n, b);
  }

  /** The changes above `n` are those passed above it, then those not passed. */
  lemma TailSplits<K, V>(o: Origin<K, V>, pos: nat, n: nat)
    requires Increasing(Hist(o)) && Bounded(Hist(o), o.counter) && pos <= |o.log| && n <= Behind(o.log, pos)
    ensures Tail(o, n) == Missed(o.log, pos, n) + Tail(o, Behind(o.log, pos))
  {
    var before, rest := HistAt(o, pos);
    SplitAbove(before, rest, o.counter, Behind(o.log, pos));
    AfterSplits(before, rest, n, Behind(o.log, pos));
  }

  lemma {:induction false} ApplyAllConcat<K, V>(m: map<K, V>, a: seq<Event<K, V>>, b: seq<Event<K, V>>)
    ensures ApplyAll(m, a + b) == ApplyAll(ApplyAll(m, a), b)
  {
    if b == [] {
      assert a + b == a;
    } else {
      ApplyAllConcat(m, a, b[..|b| - 1]);
      assert (a + b)[..|a + b| - 1] == a + b[..|b| - 1];
    }
  }

  /** A snapshot numbered below what was passed: exactly when what follows makes up for what it lacks. */
  lemma OldSnapshotHealsIff<K, V>(o: Origin<K, V>, c: map<K, V>, n: nat, pos: nat)
    requires OriginInv(o) && Covers(o, c, n) && pos <= |o.log| && n <= Behind(o.log, pos)
    ensures ApplyAll(c, Tail(o, Behind(o.log, pos))) == o.state <==> MissedIsHarmless(o, c, n, pos)
  {
    var missed, tail := Missed(o.log, pos, n), Tail(o, Behind(o.log, pos));
    var d := ApplyAll(c, missed);
    TailSplits(o, pos, n);
    ApplyAllConcat(c, missed, tail);
    assert ApplyAll(c, Tail(o, n)) == o.state;
    assert ApplyAll(d, tail) == o.state;
    FoldsAgreeIff(c, d, tail);
    forall k ensures k !in Touched(missed) ==> SameAt(c, d, k)
      ensures k !in c.Keys + d.Keys ==> SameAt(c, d, k) {
      FoldAt(c, c, missed, k);
    }
  }

  /** A snapshot numbered above everything passed lacks nothing. */
  lemma NewSnapshotMissesNothing<K, V>(o: Origin<K, V>, c: map<K, V>, n: nat, pos: nat)
    requires Increasing(Hist(o)) && pos <= |o.log| && Behind(o.log, pos) <= n
    ensures Missed(o.log, pos, n) == [] && MissedIsHarmless(o, c, n, pos)
  {
    var before, rest := HistAt(o, pos);
    assert forall i | 0 <= i < |before| :: Hist(o)[i] == before[i];
    forall i | 0 <= i < |before| ensures before[i].stamp <= n {
      if i < |before| - 1 { assert before[i].stamp < before[|before| - 1].stamp; }
    }
    AfterAllOld(before, n);
  }

  // ----------------------------------------------- healing and forgetting, in runs

  ghost predicate Forgets<K, V>(l: Link<K, V>, l': Link<K, V>) {
    l'.origin == l.origin && l'.replica == l.replica.(last := 0)
  }

  /** The peer takes over a snapshot. */
  ghost predicate Takes<K, V>(l: Link<K, V>, l': Link<K, V>) {
    && l'.origin == l.origin && l.replica.pos < |l.origin.log| && l.origin.log[l.replica.pos].Snap?
    && Accepts(l.replica.last, l.origin.log[l.replica.pos].stamp)
    && Handles(l.origin.log, l.replica, l'.replica)
  }

  /** No loss but forgotten numbers. */
  ghost predicate ForgetfulNext<K, V>(l: Link<K, V>, l': Link<K, V>) {
    ReliableNext(l, l') || Forgets(l, l')
  }

  ghost predicate QuietNext<K, V>(l: Link<K, V>, l': Link<K, V>) {
    ForgetfulNext(l, l') && !Takes(l, l')
  }

  ghost predicate ForgetfulFrom<K, V>(run: seq<Link<K, V>>, from: nat) {
    forall i, j {:trigger ForgetfulNext(run[i], run[j])} | from <= i && j == i + 1 < |run| :: ForgetfulNext(run[i], run[j])
  }

  /** From `from` on no snapshot is taken over either. */
  ghost predicate QuietFrom<K, V>(run: seq<Link<K, V>>, from: nat) {
    forall i, j {:trigger QuietNext(run[i], run[j])} | from <= i && j == i + 1 < |run| :: QuietNext(run[i], run[j])
  }

  /** What the peer has is `c` with the changes it applied since; `b` had been passed when it took `c`. */
  ghost predicate Rebuilt<K, V>(l: Link<K, V>, c: map<K, V>, b: nat)
    requires l.replica.pos <= |l.origin.log|
  {
    var s := Behind(l.origin.log, l.replica.pos);
    b <= s && l.replica.last <= s && ApplyAll(l.replica.state, Tail(l.origin, s)) == ApplyAll(c, Tail(l.origin, b))
  }

  /** Two starting points that lead to the same state still do after a step of the origin. */
  lemma OriginKeepsMeeting<K, V>(o: Origin<K, V>, o': Origin<K, V>, x: map<K, V>, s: nat, c: map<K, V>, b: nat)
    requires OriginStep(o, o') && s <= o.counter && b <= o.counter
    requires ApplyAll(x, Tail(o, s)) == ApplyAll(c, Tail(o, b))
    ensures ApplyAll(x, Tail(o', s)) == ApplyAll(c, Tail(o', b))
  {
    if o.live.Idle? && o'.live.Mutated? {
      var e := o'.live.event;
      TailOnMutate(o, e, s);
      TailOnMutate(o, e, b);
      ApplyAllSnoc(x, Tail(o, s), e);
      ApplyAllSnoc(c, Tail(o, b), e);
    } else if o.live.Mutated? && o'.live.Stamped? {
      TailOnStamp(o, s);
      TailOnStamp(o, b);
    } else {
      OtherStepKeepsTail(o, o', s);
      OtherStepKeepsTail(o, o', b);
    }
  }

  lemma OtherStepKeepsTail<K, V>(o: Origin<K, V>, o': Origin<K, V>, s: nat)
    requires OriginStep(o, o') && !(o.live.Idle? && o'.live.Mutated?) && !(o.live.Mutated? && o'.live.Stamped?)
    ensures Tail(o', s) == Tail(o, s)
  {
    if o'.log != o.log { HistOnEnqueue(o, o'.log[|o.log|]); }
  }

  lemma LogGrows<K, V>(o: Origin<K, V>, o': Origin<K, V>, pos: nat)
    requires OriginStep(o, o') && pos <= |o.log|
    ensures o.log <= o'.log && Behind(o'.log, pos) == Behind(o.log, pos)
  {
    assert o'.log[..pos] == o.log[..pos];
  }

  lemma OriginKeepsRebuilt<K, V>(l: Link<K, V>, o': Origin<K, V>, c: map<K, V>, b: nat)
    requires Bounded(Hist(l.origin), l.origin.counter) && l.replica.pos <= |l.origin.log|
    requires Rebuilt(l, c, b) && OriginStep(l.origin, o')
    ensures l.origin.log <= o'.log && Rebuilt(Link(o', l.replica), c, b)
  {
    var s := Behind(l.origin.log, l.replica.pos);
    LogGrows(l.origin, o', l.replica.pos);
    BehindBounded(l.origin, l.replica.pos);
    OriginKeepsMeeting(l.origin, o', l.replica.state, s, c, b);
  }

  lemma PeerKeepsRebuilt<K, V>(l: Link<K, V>, l': Link<K, V>, c: map<K, V>, b: nat)
    requires Inv(l) && Rebuilt(l, c, b)
    requires l'.origin == l.origin && ReliableStep(l.origin.log, l.replica, l'.replica) && !Takes(l, l')
    ensures Inv(l') && l.origin.log <= l'.origin.log && Rebuilt(l', c, b)
  {
    var o, r := l.origin, l.replica;
    var m := o.log[r.pos];
    if m.Live? {
      BehindBelow(o, r.pos);
      BehindPastLive(o.log, r.pos);
      TailAtLive(o, r.pos, Behind(o.log, r.pos));
      ApplyAllCons(r.state, m.event, Tail(o, m.stamp));
    } else {
      BehindPastOther(o.log, r.pos);
    }
  }

  lemma QuietKeepsRebuilt<K, V>(l: Link<K, V>, l': Link<K, V>, c: map<K, V>, b: nat)
    requires Inv(l) && Rebuilt(l, c, b) && QuietNext(l, l')
    ensures Inv(l') && l.origin.log <= l'.origin.log && Rebuilt(l', c, b)
  {
    assert Forgets(l, l') ==> DamagingStep(l.origin.log, l.replica, l'.replica);
    NextKeeps(l, l');
    if l'.origin == l.origin {
      if !Forgets(l, l') && l' != l && ReliableStep(l.origin.log, l.replica, l'.replica) {
        PeerKeepsRebuilt(l, l', c, b);
      }
    } else {
      OriginKeepsRebuilt(l, l'.origin, c, b);
      assert l' == Link(l'.origin, l.replica);
    }
  }

  lemma QuietKeepsIntact<K, V>(l: Link<K, V>, l': Link<K, V>)
    requires Inv(l) && l.replica.intact && QuietNext(l, l')
    ensures Inv(l') && l'.replica.intact && l.origin.log <= l'.origin.log
  {
    assert Forgets(l, l') ==> DamagingStep(l.origin.log, l.replica, l'.replica);
    NextKeeps(l, l');
  }

  lemma {:induction false} QuietRunIntact<K, V>(run: seq<Link<K, V>>, from: nat, k: nat)
    requires from <= k < |run| && QuietFrom(run, from) && Inv(run[from]) && run[from].replica.intact
    ensures Inv(run[k]) && run[k].replica.intact && run[from].origin.log <= run[k].origin.log
  {
    if k > from {
      QuietRunIntact(run, from, k - 1);
      var step := QuietNext(run[k - 1], run[k]);
      assert step;
      QuietKeepsIntact(run[k - 1], run[k]);
    }
  }

  /** The condition of `SnapshotHealsIff`: what the snapshot taken at step `i` lacks, against the origin at the end. */
  ghost predicate TakenIsHarmless<K, V>(run: seq<Link<K, V>>, i: nat)
    requires i + 1 < |run| && Takes(run[i], run[i + 1])
  {
    var log, pos, end := run[i].origin.log, run[i].replica.pos, run[|run| - 1].origin;
    pos <= |end.log| && MissedIsHarmless(end, log[pos].contents, log[pos].stamp, pos)
  }

  /**
   Healing, exactly: after any losses the peer takes over a snapshot, and then
   loses nothing but perhaps numbers. Once the bus drains it equals the origin if
   and only if the live events it had passed above the snapshot's number change
   nothing the snapshot has, except on keys written again later.
   */
  lemma SnapshotHealsIff<K, V>(run: seq<Link<K, V>>, i: nat)
    requires IsRun(run) && Init(run[0]) && i + 1 < |run| && Takes(run[i], run[i + 1])
    requires QuietFrom(run, i + 1) && Drained(run[|run| - 1])
    ensures run[|run| - 1].replica.state == run[|run| - 1].origin.state <==> TakenIsHarmless(run, i)
  {
    var l := run[i];
    if Behind(l.origin.log, l.replica.pos) <= l.origin.log[l.replica.pos].stamp {
      NewSnapshotHeals(run, i);
    } else {
      OldSnapshotHeals(run, i);
    }
  }

  lemma OldSnapshotHeals<K, V>(run: seq<Link<K, V>>, i: nat)
    requires IsRun(run) && Init(run[0]) && i + 1 < |run| && Takes(run[i], run[i + 1])
    requires QuietFrom(run, i + 1) && Drained(run[|run| - 1])
    requires run[i].origin.log[run[i].replica.pos].stamp < Behind(run[i].origin.log, run[i].replica.pos)
    ensures HealedIff(run[|run| - 1], run[i].origin.log, run[i].replica.pos)
  {
    RebuiltInRun(run, i, |run| - 1);
    TakenHealsIff(run[i].origin.log, run[i].replica.pos, run[|run| - 1]);
  }

  lemma NewSnapshotHeals<K, V>(run: seq<Link<K, V>>, i: nat)
    requires IsRun(run) && Init(run[0]) && i + 1 < |run| && Takes(run[i], run[i + 1])
    requires QuietFrom(run, i + 1) && Drained(run[|run| - 1])
    requires Behind(run[i].origin.log, run[i].replica.pos) <= run[i].origin.log[run[i].replica.pos].stamp
    ensures run[|run| - 1].replica.state == run[|run| - 1].origin.state && TakenIsHarmless(run, i)
  {
    var o, pos, end := run[i].origin, run[i].replica.pos, run[|run| - 1];
    RunKeepsInv(run, i + 1);
    QuietRunIntact(run, i + 1, |run| - 1);
    DrainedIntactIsEqual(end);
    SamePrefix(o.log, end.origin.log, pos);
    NewSnapshotMissesNothing(end.origin, o.log[pos].contents, o.log[pos].stamp, pos);
  }

  lemma {:induction false} QuietRunRebuilt<K, V>(run: seq<Link<K, V>>, from: nat, k: nat, c: map<K, V>, b: nat)
    requires from <= k < |run| && QuietFrom(run, from) && Inv(run[from]) && Rebuilt(run[from], c, b)
    ensures Inv(run[k]) && run[from].origin.log <= run[k].origin.log && Rebuilt(run[k], c, b)
    decreases k - from
  {
    if from < k {
      var l, l' := run[from], run[from + 1];
      var step := QuietNext(l, l');
      assert step;
      QuietKeepsRebuilt(l, l', c, b);
      QuietRunRebuilt(run, from + 1, k, c, b);
    }
  }

  lemma RebuiltInRun<K, V>(run: seq<Link<K, V>>, i: nat, k: nat)
    requires IsRun(run) && Init(run[0]) && i + 1 <= k < |run| && Takes(run[i], run[i + 1]) && QuietFrom(run, i + 1)
    requires run[i].origin.log[run[i].replica.pos].stamp < Behind(run[i].origin.log, run[i].replica.pos)
    ensures run[i].origin.log <= run[k].origin.log && Inv(run[k])
    ensures Rebuilt(run[k], run[i].origin.log[run[i].replica.pos].contents, Behind(run[i].origin.log, run[i].replica.pos))
  {
    RunKeepsInv(run, i + 1);
    TakenIsRebuilt(run[i], run[i + 1]);
    QuietRunRebuilt(run, i + 1, k, run[i].origin.log[run[i].replica.pos].contents, Behind(run[i].origin.log, run[i].replica.pos));
  }

  ghost predicate HealedIff<K, V>(end: Link<K, V>, log: seq<Msg<K, V>>, pos: nat)
    requires pos < |log| && log[pos].Snap?
  {
    && log <= end.origin.log
    && (end.replica.state == end.origin.state <==> MissedIsHarmless(end.origin, log[pos].contents, log[pos].stamp, pos))
  }

  lemma TakenHealsIff<K, V>(log: seq<Msg<K, V>>, pos: nat, end: Link<K, V>)
    requires pos < |log| && log[pos].Snap? && log[pos].stamp < Behind(log, pos) && log <= end.origin.log
    requires Inv(end) && Drained(end) && Rebuilt(end, log[pos].contents, Behind(log, pos))
    ensures end.replica.state == end.origin.state <==> MissedIsHarmless(end.origin, log[pos].contents, log[pos].stamp, pos)
  {
    SamePrefix(log, end.origin.log, pos);
    RebuiltHealsIff(end, log[pos].contents, log[pos].stamp, pos);
  }

  lemma RebuiltHealsIff<K, V>(l: Link<K, V>, c: map<K, V>, n: nat, pos: nat)
    requires Inv(l) && Drained(l) && pos < |l.origin.log| && l.origin.log[pos] == Snap(n, c)
    requires n < Behind(l.origin.log, pos) && Rebuilt(l, c, Behind(l.origin.log, pos))
    ensures l.replica.state == l.origin.state <==> MissedIsHarmless(l.origin, c, n, pos)
  {
    RebuiltAtEnd(l, c, Behind(l.origin.log, pos));
    CoveredInLog(l.origin, pos);
    OldSnapshotHealsIff(l.origin, c, n, pos);
  }

  lemma CoveredInLog<K, V>(o: Origin<K, V>, pos: nat)
    requires OriginInv(o) && pos < |o.log| && o.log[pos].Snap?
    ensures Covers(o, o.log[pos].contents, o.log[pos].stamp)
  {
  }

  lemma TakenIsRebuilt<K, V>(l: Link<K, V>, l': Link<K, V>)
    requires OriginInv(l.origin) && Takes(l, l')
    requires l.origin.log[l.replica.pos].stamp < Behind(l.origin.log, l.replica.pos)
    ensures Rebuilt(l', l.origin.log[l.replica.pos].contents, Behind(l.origin.log, l.replica.pos))
  {
    SnapshotStampPositive(l.origin, l.replica.pos);
    BehindPastOther(l.origin.log, l.replica.pos);
  }

  lemma SamePrefix<K, V>(log: seq<Msg<K, V>>, log': seq<Msg<K, V>>, pos: nat)
    requires log <= log' && pos < |log|
    ensures Behind(log', pos) == Behind(log, pos) && log'[pos] == log[pos]
  {
    assert log'[..pos] == log[..pos];
  }

  lemma RebuiltAtEnd<K, V>(l: Link<K, V>, c: map<K, V>, b: nat)
    requires Inv(l) && Rebuilt(l, c, b) && Drained(l)
    ensures l.replica.state == ApplyAll(c, Tail(l.origin, b))
  {
    TailAtEnd(l.origin, Behind(l.origin.log, l.replica.pos));
  }

  /** The last step, if any, at which a snapshot is taken over. */
  lemma {:induction false} LastTaken<K, V>(run: seq<Link<K, V>>, k: nat) returns (i: int)
    requires ForgetfulFrom(run, 0) && k < |run|
    requires QuietFrom(run, k)
    ensures -1 <= i < k && QuietFrom(run, i + 1)
    ensures i >= 0 ==> i + 1 < |run| && Takes(run[i], run[i + 1])
  {
    if k == 0 {
      i := -1;
    } else {
      var step := ForgetfulNext(run[k - 1], run[k]);
      assert step;
      if Takes(run[k - 1], run[k]) {
        i := k - 1;
      } else {
        assert QuietFrom(run, k - 1) by {
          forall a, b | k - 1 <= a && b == a + 1 < |run| ensures QuietNext(run[a], run[b]) {
            if a >= k {
              var quiet := QuietNext(run[a], run[b]);
              assert quiet;
            }
          }
        }
        i := LastTaken(run, k - 1);
      }
    }
  }

  lemma QuietTakesNothing<K, V>(run: seq<Link<K, V>>, from: nat, k: nat)
    requires QuietFrom(run, from) && from <= k && k + 1 < |run|
    ensures !Takes(run[k], run[k + 1])
  {
    var quiet := QuietNext(run[k], run[k + 1]);
    assert quiet;
  }

  /**
   Forgetting, exactly: over every run that loses no live event and reaps nothing,
   but may forget numbers at any time, a drained peer equals the origin if and
   only if the last snapshot it took over, if any, was harmless in that sense.
   */
  lemma ForgettingIff<K, V>(run: seq<Link<K, V>>)
    requires run != [] && Init(run[0]) && run[0].replica.intact && ForgetfulFrom(run, 0) && Drained(run[|run| - 1])
    ensures run[|run| - 1].replica.state == run[|run| - 1].origin.state <==>
            forall i | 0 <= i && i + 1 < |run| && Takes(run[i], run[i + 1]) && QuietFrom(run, i + 1) :: TakenIsHarmless(run, i)
  {
    ForgetfulIsRun(run);
    var last := LastTaken(run, |run| - 1);
    if last < 0 {
      RunKeepsInv(run, 0);
      QuietRunIntact(run, 0, |run| - 1);
      DrainedIntactIsEqual(run[|run| - 1]);
      forall i | 0 <= i && i + 1 < |run| ensures !Takes(run[i], run[i + 1]) {
        QuietTakesNothing(run, 0, i);
      }
    } else {
      SnapshotHealsIff(run, last);
      forall i | 0 <= i && i + 1 < |run| && Takes(run[i], run[i + 1]) && QuietFrom(run, i + 1) ensures i == last {
        if i < last {
          QuietTakesNothing(run, i + 1, last);
        } else if last < i {
          QuietTakesNothing(run, last + 1, i);
        }
      }
    }
  }

  lemma ForgetfulIsRun<K, V>(run: seq<Link<K, V>>)
    requires run != [] && ForgetfulFrom(run, 0)
    ensures IsRun(run)
  {
    forall i, j | 0 <= i && j == i + 1 < |run| ensures Next(run[i], run[j]) {
      var step := ForgetfulNext(run[i], run[j]);
      assert step;
      assert Forgets(run[i], run[j]) ==> DamagingStep(run[i].origin.log, run[i].replica, run[j].replica);
    }
  }

  /** So forgetting does no harm as long as no snapshot arrives numbered below a live event already passed. */
  lemma ForgettingIsSafe<K, V>(run: seq<Link<K, V>>)
    requires run != [] && Init(run[0]) && run[0].replica.intact && ForgetfulFrom(run, 0) && Drained(run[|run| - 1])
    requires forall i | 0 <= i && i + 1 < |run| && Takes(run[i], run[i + 1]) ::
               Behind(run[i].origin.log, run[i].replica.pos) <= run[i].origin.log[run[i].replica.pos].stamp
    ensures run[|run| - 1].replica.state == run[|run| - 1].origin.state
  {
    ForgetfulIsRun(run);
    var last := LastTaken(run, |run| - 1);
    if last < 0 {
      RunKeepsInv(run, 0);
      QuietRunIntact(run, 0, |run| - 1);
    } else {
      RunKeepsInv(run, last + 1);
      QuietRunIntact(run, last + 1, |run| - 1);
    }
    DrainedIntactIsEqual(run[|run| - 1]);
  }

  // ------------------------------------------------------------ counterexamples

  /** The origin with user "a" replicated, then a snapshot of {a} numbered 2, then "b" numbered 3. */
  function CrossedOrigin(log: seq<Msg<string, ()>>, snap: SnapOp<string, ()>): Origin<string, ()> {
    Origin(map["a" := (), "b" := ()], 3, Idle, snap, [Live(1, Put("a", ())), Live(3, Put("b", ()))] + log)
  }

  /** The common prefix of both counterexamples; the peer has applied only "a". */
  lemma CrossedRun() returns (run: seq<Link<string, ()>>)
    ensures IsRun(run) && Init(run[0]) && run[0].replica.intact && ReliableFrom(run, 0)
    ensures run[|run| - 1] == Link(CrossedOrigin([], Captured(2, map["a" := ()])), Replica(map["a" := ()], 1, 1, true))
  {
    var a, b := Put("a", ()), Put("b", ());
    var A, AB := map["a" := ()], map["a" := (), "b" := ()];
    var r0, r1 := Replica(map[], 0, 0, true), Replica(A, 1, 1, true);
    var l0 := Link(Origin(map[], 0, Idle, Resting, []), r0);
    var l1 := Link(Origin(A, 0, Mutated(a), Resting, []), r0);
    var l2 := Link(Origin(A, 1, Stamped(1, a), Resting, []), r0);
    var l3 := Link(Origin(A, 1, Idle, Resting, [Live(1, a)]), r0);
    var l4 := Link(l3.origin, r1);
    var l5 := Link(Origin(A, 2, Idle, Numbered(2), [Live(1, a)]), r1);
    var l6 := Link(Origin(A, 2, Idle, Captured(2, A), [Live(1, a)]), r1);
    var l7 := Link(Origin(AB, 2, Mutated(b), Captured(2, A), [Live(1, a)]), r1);
    var l8 := Link(Origin(AB, 3, Stamped(3, b), Captured(2, A), [Live(1, a)]), r1);
    var l9 := Link(CrossedOrigin([], Captured(2, A)), r1);
    assert Apply(map[], a) == A && Apply(A, b) == AB;
    assert [] + [Live(1, a)] == [Live(1, a)];
    assert [Live(1, a)] + [Live(3, b)] == CrossedOrigin([], Resting).log;
    run := [l0, l1, l2, l3, l4, l5, l6, l7, l8, l9];
    assert ReliableNext(l0, l1);
    assert ReliableNext(l1, l2);
    assert ReliableNext(l2, l3);
    assert ReliableNext(l3, l4) by { assert Handles(l3.origin.log, r0, r1); }
    assert ReliableNext(l4, l5);
    assert ReliableNext(l5, l6);
    assert ReliableNext(l6, l7);
    assert ReliableNext(l7, l8);
    assert ReliableNext(l8, l9);
  }

  /**
   "Accepted snapshot, no later loss" is not enough: the live event for "b" is
   lost, then a snapshot captured before "b" (numbered lower, enqueued later) is
   accepted, nothing is lost after it, the bus drains, and the peer lacks "b".
   */
  lemma StaleSnapshotFails() returns (run: seq<Link<string, ()>>, i: nat)
    ensures IsRun(run) && Init(run[0]) && i + 1 < |run|
    ensures AcceptsSnapshotAt(run, i) && ReliableFrom(run, i + 1) && Drained(run[|run| - 1])
    ensures run[|run| - 1].replica.state != run[|run| - 1].origin.state
  {
    var A := map["a" := ()];
    run := CrossedRun();
    var l0 := run[|run| - 1];
    var l1 := Link(l0.origin, Replica(A, 1, 2, false));
    var l2 := Link(CrossedOrigin([Snap(2, A)], Resting), l1.replica);
    var l3 := Link(l2.origin, Replica(A, 2, 3, false));
    assert DamagingStep(l0.origin.log, l0.replica, l1.replica);
    assert l0.origin.log + [Snap(2, A)] == l2.origin.log;
    assert OriginStep(l1.origin, l2.origin);
    CrossedBehind();
    assert Handles(l2.origin.log, l2.replica, l3.replica);
    i := |run| + 1;
    ghost var pre := run;
    run := run + [l1, l2, l3];
    assert forall j, k | 0 <= j && k == j + 1 < |pre| :: Next(run[j], run[k]) by {
      assert forall j, k | 0 <= j && k == j + 1 < |pre| :: Next(pre[j], pre[k]);
    }
    assert "b" in l3.origin.state && "b" !in l3.replica.state;
  }

  lemma CrossedBehind()
    ensures Behind(CrossedOrigin([Snap(2, map["a" := ()])], Resting).log, 2) == 3
  {
    var log := CrossedOrigin([Snap(2, map["a" := ()])], Resting).log;
    BehindPastLive(log, 1);
  }

  /**
   Forgetting a number while an older snapshot is still unsent undoes a change
   with no loss at all: "b" is applied, the number is forgotten, the snapshot
   captured before "b" is accepted, and the drained peer lacks "b". Signed-in
   users are the stream where the clocks allow it (`SessionForgetting`).
   */
  lemma ForgettingFails() returns (run: seq<Link<string, ()>>)
    ensures IsRun(run) && Init(run[0]) && Drained(run[|run| - 1])
    ensures forall j, k | 0 <= j && k == j + 1 < |run| ::
              ReliableNext(run[j], run[k]) || run[k] == run[j].(replica := run[j].replica.(last := 0))
    ensures run[|run| - 1].replica.state != run[|run| - 1].origin.state
  {
    var A, AB := map["a" := ()], map["a" := (), "b" := ()];
    run := CrossedRun();
    var l0 := run[|run| - 1];
    var l1 := Link(l0.origin, Replica(AB, 3, 2, true));
    var l2 := Link(l0.origin, Replica(AB, 0, 2, true));
    var l3 := Link(CrossedOrigin([Snap(2, A)], Resting), l2.replica);
    var l4 := Link(l3.origin, Replica(A, 2, 3, false));
    assert Apply(A, Put("b", ())) == AB;
    assert Handles(l0.origin.log, l0.replica, l1.replica);
    assert ReliableNext(l0, l1);
    assert DamagingStep(l1.origin.log, l1.replica, l2.replica);
    assert l0.origin.log + [Snap(2, A)] == l3.origin.log;
    assert OriginStep(l2.origin, l3.origin);
    CrossedBehind();
    assert A != AB by { assert "b" !in A && "b" in AB; }
    assert Handles(l3.origin.log, l3.replica, l4.replica);
    ghost var pre := run;
    run := run + [l1, l2, l3, l4];
    forall j, k | 0 <= j && k == j + 1 < |pre| ensures ReliableNext(run[j], run[k]) {
      assert ReliableNext(pre[j], pre[k]);
    }
  }
}
