/**
 What a cache channel replays to a new subscriber, while the channel object behind
 the name is created, emptied, removed by the last leave, a rejected join or GC,
 and created again. A publisher first obtains the channel object and then stores
 into it; in between the object may be removed from the map.
 */
module CacheReplay {
  import opened PeerTable
  import opened Channels

  type Publisher = nat

  /** A channel object; `id` tells one object from a later one with the same name. */
  datatype Object = Object(id: nat, members: set<SocketId>, cached: Option<Cached>)

  /**
   One channel name. `holds` are objects obtained by publishers that have not
   stored yet. `last` is the reference: the last server-published payload, kept
   forever, as if channels were never removed.
   */
  datatype State = State(
    current: Option<Object>, nextId: nat, holds: map<Publisher, nat>, last: Option<Cached>, clock: int)

  datatype Step =
    | Obtain(publisher: Publisher)
    | Store(publisher: Publisher, payload: string)
    | Relay  // client events and protocol frames
    | Subscribe(socket: SocketId)
    | RejectedJoin
    | Unsubscribe(socket: SocketId)
    | Gc

  function CachedIn(st: State): Option<Cached> {
    if st.current.Some? then st.current.value.cached else None
  }

  predicate Enabled(st: State, a: Step, now: int) {
    st.clock <= now && (a.Store? ==> a.publisher in st.holds)
  }

  function Created(st: State): State
    ensures Created(st).current.Some?
  {
    if st.current.Some? then st
    else st.(current := Some(Object(st.nextId, {}, None)), nextId := st.nextId + 1)
  }

  /** Reading the payload drops it once it is past its TTL. */
  function Expire(o: Object, ttl: Option<nat>, now: int): Object {
    if Replayed(o.cached, ttl, now).None? then o.(cached := None) else o
  }

  /** Removes the object if it has no members and nothing to replay. */
  function Prune(st: State, ttl: Option<nat>, now: int): State {
    if st.current.None? || st.current.value.members != {} then st
    else
      var o := Expire(st.current.value, ttl, now);
      if o.cached.None? then st.(current := None) else st.(current := Some(o))
  }

  function Do(st0: State, a: Step, ttl: Option<nat>, now: int): State
    requires Enabled(st0, a, now)
  {
    var st := st0.(clock := now);
    match a
    case Obtain(p) =>
      var st' := Created(st);
      st'.(holds := st'.holds[p := st'.current.value.id])
    case Store(p, payload) =>
      var entry := Some(Cached(payload, now));
      var st' := st.(holds := st.holds - {p}, last := entry);
      if Reaches(st, p) then st'.(current := Some(st.current.value.(cached := entry))) else st'
    case Relay => st
    case Subscribe(s) =>
      var st' := Created(st);
      st'.(current := Some(Expire(st'.current.value.(members := st'.current.value.members + {s}), ttl, now)))
    case RejectedJoin => Prune(Created(st), ttl, now)
    case Unsubscribe(s) =>
      if st.current.None? then st
      else Prune(st.(current := Some(st.current.value.(members := st.current.value.members - {s}))), ttl, now)
    case Gc => Prune(st, ttl, now)
  }

  /** The object this publisher obtained is still the one in the map. */
  predicate Reaches(st: State, p: Publisher)
    requires p in st.holds
  {
    st.current.Some? && st.current.value.id == st.holds[p]
  }

  /** What a subscriber joining now is sent. */
  function Replay(st: State, ttl: Option<nat>, now: int): Option<string> {
    Replayed(CachedIn(st), ttl, now)
  }

  /** From now on the name replays exactly the last published payload not older than the TTL. */
  ghost predicate Refines(st: State, ttl: Option<nat>) {
    forall t: int | st.clock <= t :: Replay(st, ttl, t) == Replayed(st.last, ttl, t)
  }

  /** A store is lost on an object no longer in the map, unless the name replays the same thing anyway. */
  predicate Faithful(st: State, a: Step, ttl: Option<nat>, now: int)
    requires Enabled(st, a, now)
  {
    a.Store? ==>
      || Reaches(st, a.publisher)
      || (CachedIn(st).Some? && CachedIn(st).value.payload == a.payload && (ttl.Some? ==> CachedIn(st).value.insertedAt == now))
  }

  lemma ExpiredStaysExpired(slot: Option<Cached>, ttl: Option<nat>, now: int, t: int)
    requires Replayed(slot, ttl, now).None? && now <= t
    ensures Replayed(slot, ttl, t).None?
  {
  }

  lemma PruneReplays(st: State, ttl: Option<nat>, now: int, t: int)
    requires now <= t
    ensures Replay(Prune(st, ttl, now), ttl, t) == Replay(st, ttl, t)
  {
    if Replay(st, ttl, now).None? { ExpiredStaysExpired(CachedIn(st), ttl, now, t); }
  }

  /** Every step but a store keeps what is replayed from now on. */
  lemma OthersKeepReplay(st: State, a: Step, ttl: Option<nat>, now: int, t: int)
    requires Enabled(st, a, now) && !a.Store? && now <= t
    ensures Replay(Do(st, a, ttl, now), ttl, t) == Replay(st, ttl, t)
    ensures Do(st, a, ttl, now).last == st.last
  {
    var st1 := st.(clock := now);
    match a
    case Subscribe(_) =>
      if Replay(st, ttl, now).None? { ExpiredStaysExpired(CachedIn(st), ttl, now, t); }
    case RejectedJoin => PruneReplays(Created(st1), ttl, now, t);
    case Unsubscribe(s) =>
      if st.current.Some? {
        PruneReplays(st1.(current := Some(st.current.value.(members := st.current.value.members - {s}))), ttl, now, t);
      }
    case Gc => PruneReplays(st1, ttl, now, t);
    case _ =>
  }

  /** A step keeps the refinement if and only if it is faithful. */
  lemma StepRefinesIff(st: State, a: Step, ttl: Option<nat>, now: int)
    requires Refines(st, ttl) && Enabled(st, a, now)
    ensures Refines(Do(st, a, ttl, now), ttl) <==> Faithful(st, a, ttl, now)
  {
    var st' := Do(st, a, ttl, now);
    if a.Store? {
      if !Reaches(st, a.publisher) {
        assert CachedIn(st') == CachedIn(st);
        if Refines(st', ttl) {
          assert Replay(st', ttl, now) == Replayed(st'.last, ttl, now);
          if ttl.Some? {
            var c := CachedIn(st).value;
            var end := if c.insertedAt < now then now + ttl.value else c.insertedAt + ttl.value;
            assert Replay(st', ttl, end) == Replayed(st'.last, ttl, end);
          }
        }
      }
    } else {
      forall t: int | now <= t ensures Replay(st', ttl, t) == Replayed(st'.last, ttl, t) {
        OthersKeepReplay(st, a, ttl, now, t);
      }
    }
  }

  // ----------------------------------------------------------------------- runs

  predicate Next(st: State, st': State, a: Step, ttl: Option<nat>, now: int) {
    Enabled(st, a, now) && Faithful(st, a, ttl, now) && st' == Do(st, a, ttl, now)
  }

  ghost predicate IsRun(run: seq<State>, acts: seq<(Step, int)>, ttl: Option<nat>) {
    |run| == |acts| + 1 &&
    forall i, j {:trigger run[i], run[j]} | 0 <= i && j == i + 1 < |run| ::
      Next(run[i], run[j], acts[i].0, ttl, acts[i].1)
  }

  lemma {:induction false} RunRefines(run: seq<State>, acts: seq<(Step, int)>, ttl: Option<nat>, k: nat)
    requires IsRun(run, acts, ttl) && k <= |acts|
    requires run[0].current == None && run[0].last == None
    ensures Refines(run[k], ttl)
  {
    if k > 0 {
      RunRefines(run, acts, ttl, k - 1);
      assert Next(run[k - 1], run[k], acts[k - 1].0, ttl, acts[k - 1].1);
      StepRefinesIff(run[k - 1], acts[k - 1].0, ttl, acts[k - 1].1);
    }
  }

  /**
   Over every run of publishes, relayed frames, subscribes, rejected joins,
   leaves, GC and time passing, a new subscriber is sent exactly the last
   server-published payload not older than the TTL.
   */
  lemma ReplayIsLastPublished(run: seq<State>, acts: seq<(Step, int)>, ttl: Option<nat>, now: int)
    requires IsRun(run, acts, ttl) && run[0].current == None && run[0].last == None
    requires run[|acts|].clock <= now
    ensures Replay(run[|acts|], ttl, now) == Replayed(run[|acts|].last, ttl, now)
  {
    RunRefines(run, acts, ttl, |acts|);
  }

  /** Step `i` is the last store, and it stores `payload`. */
  ghost predicate IsLastStore(acts: seq<(Step, int)>, i: nat, payload: string) {
    && i < |acts| && acts[i].0.Store? && acts[i].0.payload == payload
    && forall j | i < j < |acts| :: !acts[j].0.Store?
  }

  lemma {:induction false} LastFromStores(run: seq<State>, acts: seq<(Step, int)>, ttl: Option<nat>)
    requires IsRun(run, acts, ttl) && run[0].last == None
    ensures
      var last := run[|acts|].last;
      if last.None? then forall i | 0 <= i < |acts| :: !acts[i].0.Store?
      else exists i: nat :: IsLastStore(acts, i, last.value.payload) && acts[i].1 == last.value.insertedAt
    decreases |acts|
  {
    if acts != [] {
      var k := |acts| - 1;
      var front, a := acts[..k], acts[k];
      assert Next(run[k], run[k + 1], a.0, ttl, a.1);
      assert IsRun(run[..k + 1], front, ttl);
      LastFromStores(run[..k + 1], front, ttl);
      if a.0.Store? {
        assert IsLastStore(acts, k, a.0.payload);
      } else if run[k].last.Some? {
        var i: nat :| IsLastStore(front, i, run[k].last.value.payload) && front[i].1 == run[k].last.value.insertedAt;
        assert IsLastStore(acts, i, run[k].last.value.payload);
      }
    }
  }

  lemma OneLastStore(acts: seq<(Step, int)>, i: nat, p: string, j: nat, q: string)
    requires IsLastStore(acts, i, p) && IsLastStore(acts, j, q)
    ensures i == j && p == q
  {
  }

  /**
   The same from the publishes alone: a new subscriber is sent `payload` if and
   only if the last publish was `payload`, no longer ago than the TTL if there is one.
   */
  lemma ReplayFromStores(run: seq<State>, acts: seq<(Step, int)>, ttl: Option<nat>, now: int, payload: string)
    requires IsRun(run, acts, ttl) && run[0].current == None && run[0].last == None
    requires run[|acts|].clock <= now
    ensures Replay(run[|acts|], ttl, now) == Some(payload) <==>
            exists i: nat :: IsLastStore(acts, i, payload) && (ttl.None? || now - acts[i].1 <= ttl.value)
  {
    ReplayIsLastPublished(run, acts, ttl, now);
    LastFromStores(run, acts, ttl);
    var last := run[|acts|].last;
    if last.Some? {
      var i: nat :| IsLastStore(acts, i, last.value.payload) && acts[i].1 == last.value.insertedAt;
      forall j: nat | IsLastStore(acts, j, payload) ensures j == i && payload == last.value.payload {
        OneLastStore(acts, i, last.value.payload, j, payload);
      }
    }
  }

  /** A channel with a subscriber is not removed: the subscriber stays until it leaves. */
  lemma SubscriberStays(st: State, a: Step, ttl: Option<nat>, now: int, s: SocketId)
    requires Enabled(st, a, now) && st.current.Some? && s in st.current.value.members && a != Unsubscribe(s)
    ensures
      var st' := Do(st, a, ttl, now);
      st'.current.Some? && st'.current.value.id == st.current.value.id && s in st'.current.value.members
  {
  }

  /** GC between obtaining the channel and storing into it: the payload is published and nobody is sent it. */
  lemma OrphanedStoreFails() returns (st: State)
    ensures
      var s0 := State(None, 0, map[], None, 0);
      var s1 := Do(s0, Obtain(1), None, 0);
      var s2 := Do(s1, Gc, None, 0);
      Enabled(s2, Store(1, "news"), 0) && st == Do(s2, Store(1, "news"), None, 0)
    ensures Replay(st, None, 0) == None && Replayed(st.last, None, 0) == Some("news")
  {
    var s0 := State(None, 0, map[], None, 0);
    var s1 := Do(s0, Obtain(1), None, 0);
    var s2 := Do(s1, Gc, None, 0);
    assert s1.holds == map[1 := 0] && s2.current == None;
    st := Do(s2, Store(1, "news"), None, 0);
  }
}
