/**
 The transition lock belongs to a channel object, and the object goes when it is
 found empty. The leave that empties it changes the roster and publishes under
 its lock, but another leaver or the collector may take the empty object out of
 the map in between; a join then gets a new object with a lock of its own. So
 changes of one channel can be published out of the order they were made in.
 */
module ChannelReplacement {
  import R = Replication

  /** A change made under an object's lock and not published yet. */
  datatype Section<K, V> = Mutated(event: R.Event<K, V>) | Stamped(stamp: nat, event: R.Event<K, V>)

  /** `current` is the object in the map; objects are numbered as they are created. */
  datatype Origin<K, V> = Origin(
    contents: map<K, V>, counter: nat, current: nat, sections: map<nat, Section<K, V>>, snap: R.SnapOp<K, V>,
    log: seq<R.Msg<K, V>>)

  datatype Peer<K, V> = Peer(state: map<K, V>, last: nat, pos: nat)

  datatype Link<K, V> = Link(origin: Origin<K, V>, peer: Peer<K, V>)

  datatype Action<K, V> =
    | Change(event: R.Event<K, V>)
    | Number(object: nat)
    | Enqueue(object: nat)
    | Replace
    | Start
    | Capture
    | Send
    | Abandon
    | OtherNumber
    | Handle

  /** With `guarded`, an object is taken out of the map only when nobody holds its lock. */
  predicate Enabled<K, V>(l: Link<K, V>, a: Action<K, V>, guarded: bool) {
    var o := l.origin;
    match a
    case Change(_) => o.current !in o.sections
    case Number(g) => g in o.sections && o.sections[g].Mutated?
    case Enqueue(g) => g in o.sections && o.sections[g].Stamped?
    case Replace => |o.contents| == 0 && (guarded ==> o.current !in o.sections)
    case Start => o.snap.Resting?
    case Capture => o.snap.Numbered?
    case Send => o.snap.Captured?
    case Abandon => true
    case OtherNumber => true
    case Handle => l.peer.pos < |o.log|
  }

  function OriginAfter<K, V>(o: Origin<K, V>, a: Action<K, V>, guarded: bool): Origin<K, V>
    requires Enabled(Link(o, Peer(map[], 0, 0)), a, guarded) && !a.Handle?
  {
    match a
    case Change(e) => o.(contents := R.Apply(o.contents, e), sections := o.sections[o.current := Mutated(e)])
    case Number(g) =>
      o.(counter := o.counter + 1, sections := o.sections[g := Stamped(o.counter + 1, o.sections[g].event)])
    case Enqueue(g) => o.(sections := o.sections - {g}, log := o.log + [R.Live(o.sections[g].stamp, o.sections[g].event)])
    case Replace => o.(current := o.current + 1)
    case Start => o.(counter := o.counter + 1, snap := R.Numbered(o.counter + 1))
    case Capture => o.(snap := R.Captured(o.snap.stamp, o.contents))
    case Send => o.(snap := R.Resting, log := o.log + [R.Snap(o.snap.stamp, o.snap.contents)])
    case Abandon => o.(snap := R.Resting)
    case OtherNumber => o.(counter := o.counter + 1)
  }

  function Handled<K, V>(p: Peer<K, V>, m: R.Msg<K, V>): Peer<K, V> {
    match m
    case Live(n, e) =>
      if R.Accepts(p.last, n) then Peer(R.Apply(p.state, e), R.Remember(p.last, n), p.pos + 1) else p.(pos := p.pos + 1)
    case Snap(n, c) =>
      if R.Accepts(p.last, n) then Peer(c, R.Remember(p.last, n), p.pos + 1) else p.(pos := p.pos + 1)
    case Other => p.(pos := p.pos + 1)
  }

  function Do<K, V>(l: Link<K, V>, a: Action<K, V>, guarded: bool): Link<K, V>
    requires Enabled(l, a, guarded)
  {
    if a.Handle? then l.(peer := Handled(l.peer, l.origin.log[l.peer.pos]))
    else l.(origin := OriginAfter(l.origin, a, guarded))
  }

  function Fresh<K, V>(): Link<K, V> {
    Link(Origin(map[], 0, 0, map[], R.Resting, []), Peer(map[], 0, 0))
  }

  /** Every lock is free and the bus is drained. */
  predicate AtRest<K, V>(l: Link<K, V>) {
    |l.origin.sections| == 0 && l.peer.pos == |l.origin.log|
  }

  ghost predicate Next<K, V>(l: Link<K, V>, l': Link<K, V>, a: Action<K, V>, guarded: bool) {
    Enabled(l, a, guarded) && l' == Do(l, a, guarded)
  }

  /** The actions, one after another, lead from nothing to `l`. */
  ghost predicate Reaches<K(!new), V(!new)>(acts: seq<Action<K, V>>, guarded: bool, l: Link<K, V>)
    decreases |acts|
  {
    if acts == [] then l == Fresh()
    else
      var front, a := acts[..|acts| - 1], acts[|acts| - 1];
      exists p :: Next(p, l, a, guarded) && Reaches(front, guarded, p)
  }

  ghost predicate Reachable<K(!new), V(!new)>(l: Link<K, V>, guarded: bool) {
    exists acts :: Reaches(acts, guarded, l)
  }

  // -------------------------------------------------------------- one lock at a time

  ghost predicate OneLock<K, V>(o: Origin<K, V>) {
    o.sections.Keys <= {o.current}
  }

  function LiveFor<K, V>(o: Origin<K, V>): R.LiveOp<K, V> {
    if o.current !in o.sections then R.Idle
    else match o.sections[o.current]
      case Mutated(e) => R.Mutated(e)
      case Stamped(n, e) => R.Stamped(n, e)
  }

  function OriginFor<K, V>(o: Origin<K, V>): R.Origin<K, V> {
    R.Origin(o.contents, o.counter, LiveFor(o), o.snap, o.log)
  }

  function ReplicaFor<K, V>(p: Peer<K, V>): R.Replica<K, V> {
    R.Replica(p.state, p.last, p.pos, true)
  }

  function LinkFor<K, V>(l: Link<K, V>): R.Link<K, V> {
    R.Link(OriginFor(l.origin), ReplicaFor(l.peer))
  }

  lemma OriginStepsFor<K, V>(o: Origin<K, V>, a: Action<K, V>)
    requires Enabled(Link(o, Peer(map[], 0, 0)), a, true) && !a.Handle? && OneLock(o)
    ensures
      var o' := OriginAfter(o, a, true);
      OneLock(o') && (OriginFor(o') == OriginFor(o) || R.OriginStep(OriginFor(o), OriginFor(o')))
  {
    var p, p' := OriginFor(o), OriginFor(OriginAfter(o, a, true));
    match a
    case Change(e) => assert p' == p.(state := R.Apply(p.state, e), live := R.Mutated(e));
    case Number(g) =>
      assert g == o.current by { assert g in o.sections.Keys; }
      assert p' == p.(counter := p.counter + 1, live := R.Stamped(p.counter + 1, p.live.event));
    case Enqueue(g) =>
      assert g == o.current by { assert g in o.sections.Keys; }
      assert p' == p.(live := R.Idle, log := p.log + [R.Live(p.live.stamp, p.live.event)]);
    case Replace => assert p' == p;
    case Start => assert p' == p.(counter := p.counter + 1, snap := R.Numbered(p.counter + 1));
    case Capture => assert p' == p.(snap := R.Captured(p.snap.stamp, p.state));
    case Send => assert p' == p.(snap := R.Resting, log := p.log + [R.Snap(p.snap.stamp, p.snap.contents)]);
    case Abandon => assert p' == p.(snap := R.Resting);
    case OtherNumber => assert p' == p.(counter := p.counter + 1);
  }

  lemma HandleStepsFor<K, V>(l: Link<K, V>)
    requires l.peer.pos < |l.origin.log| && R.Synced(LinkFor(l))
    ensures R.Handles(l.origin.log, ReplicaFor(l.peer), ReplicaFor(Handled(l.peer, l.origin.log[l.peer.pos])))
  {
    if l.origin.log[l.peer.pos].Snap? { R.SnapshotStampPositive(OriginFor(l.origin), l.peer.pos); }
  }

  lemma StepKeepsSynced<K, V>(l: Link<K, V>, a: Action<K, V>)
    requires Enabled(l, a, true) && OneLock(l.origin) && R.Synced(LinkFor(l))
    ensures OneLock(Do(l, a, true).origin) && R.Synced(LinkFor(Do(l, a, true)))
  {
    if a.Handle? { HandleStepsFor(l); } else { OriginStepsFor(l.origin, a); }
    R.ReliableKeepsSynced(LinkFor(l), LinkFor(Do(l, a, true)));
  }

  lemma {:induction false} GuardedSynced<K(!new), V(!new)>(acts: seq<Action<K, V>>, l: Link<K, V>)
    requires Reaches(acts, true, l)
    ensures OneLock(l.origin) && R.Synced(LinkFor(l))
    decreases |acts|
  {
    if acts == [] {
      R.RunKeepsInv([LinkFor(l)], 0);
    } else {
      var p :| Reaches(acts[..|acts| - 1], true, p) && Next(p, l, acts[|acts| - 1], true);
      GuardedSynced(acts[..|acts| - 1], p);
      StepKeepsSynced(p, acts[|acts| - 1]);
    }
  }

  // ------------------------------------------------------------------- two locks

  lemma ReachesOne<K(!new), V(!new)>(p: Link<K, V>, a: Action<K, V>, l: Link<K, V>)
    requires Reachable(p, false) && Next(p, l, a, false)
    ensures Reachable(l, false)
  {
    var acts: seq<Action<K, V>> :| Reaches(acts, false, p);
    var more := acts + [a];
    var front, last := more[..|more| - 1], more[|more| - 1];
    assert front == acts && last == a;
    assert Next(p, l, last, false) && Reaches(front, false, p);
    assert Reaches(more, false, l);
  }

  lemma UpdatedThenRemoved<X>(m: map<nat, X>, g: nat, x: X)
    ensures m[g := x] - {g} == m - {g}
  {
    var a, b := m[g := x] - {g}, m - {g};
    assert a.Keys == b.Keys;
    assert forall k | k in a :: a[k] == m[k] == b[k];
  }

  /** A change under the lock of `g` is numbered and enqueued. */
  lemma Publishes<K(!new), V(!new)>(l: Link<K, V>, g: nat) returns (l': Link<K, V>)
    requires Reachable(l, false) && g in l.origin.sections && l.origin.sections[g].Mutated?
    ensures Reachable(l', false) && l'.peer == l.peer
    ensures
      var o := l.origin;
      l'.origin == o.(counter := o.counter + 1, sections := o.sections - {g},
                      log := o.log + [R.Live(o.counter + 1, o.sections[g].event)])
  {
    var numbered := Do(l, Number(g), false);
    l' := Do(numbered, Enqueue(g), false);
    ReachesOne(l, Number(g), numbered);
    ReachesOne(numbered, Enqueue(g), l');
    UpdatedThenRemoved(l.origin.sections, g, numbered.origin.sections[g]);
  }

  /** A join is published and taken over by the peer. */
  lemma Joined<K(!new), V(!new)>(k: K, v: V) returns (l: Link<K, V>)
    ensures Reachable(l, false)
    ensures l == Link(Origin(map[k := v], 1, 0, map[], R.Resting, [R.Live(1, R.Put(k, v))]), Peer(map[k := v], 1, 1))
  {
    var start: Link<K, V> := Fresh();
    assert Reaches([], false, start);
    l := Do(start, Change(R.Put(k, v)), false);
    ReachesOne(start, Change(R.Put(k, v)), l);
    l := Publishes(l, 0);
    assert l.origin.sections == map[];
    ReachesOne(l, Handle, Do(l, Handle, false));
    l := Do(l, Handle, false);
  }

  /** The member leaves; before that is published the object is replaced and the member is back. */
  lemma Overtaken<K(!new), V(!new)>(k: K, v: V) returns (l: Link<K, V>)
    ensures Reachable(l, false)
    ensures l == Link(Origin(map[k := v], 1, 1, map[0 := Mutated(R.Del(k)), 1 := Mutated(R.Put(k, v))], R.Resting,
                             [R.Live(1, R.Put(k, v))]), Peer(map[k := v], 1, 1))
  {
    var joined := Joined(k, v);
    var left := Do(joined, Change(R.Del(k)), false);
    ReachesOne(joined, Change(R.Del(k)), left);
    assert left.origin.contents == map[];
    var replaced := Do(left, Replace, false);
    ReachesOne(left, Replace, replaced);
    l := Do(replaced, Change(R.Put(k, v)), false);
    ReachesOne(replaced, Change(R.Put(k, v)), l);
  }

  /** The return is published first, the leave after it. */
  lemma Crossed<K(!new), V(!new)>(k: K, v: V) returns (l: Link<K, V>)
    ensures Reachable(l, false) && l.origin.sections == map[] && l.origin.contents == map[k := v]
    ensures l.origin.log == [R.Live(1, R.Put(k, v)), R.Live(2, R.Put(k, v)), R.Live(3, R.Del(k))]
    ensures l.peer == Peer(map[k := v], 1, 1)
  {
    l := Overtaken(k, v);
    l := Publishes(l, 1);
    l := Publishes(l, 0);
  }

  lemma HandlesLive<K(!new), V(!new)>(l: Link<K, V>, n: nat, e: R.Event<K, V>) returns (l': Link<K, V>)
    requires Reachable(l, false) && l.peer.pos < |l.origin.log| && l.origin.log[l.peer.pos] == R.Live(n, e) && l.peer.last < n
    ensures Reachable(l', false) && l' == l.(peer := Peer(R.Apply(l.peer.state, e), n, l.peer.pos + 1))
  {
    l' := Do(l, Handle, false);
    ReachesOne(l, Handle, l');
  }

  /** So the peer hears of the leave last, and for good. */
  lemma LeftForGood<K(!new), V(!new)>(k: K, v: V) returns (l: Link<K, V>)
    ensures Reachable(l, false) && AtRest(l)
    ensures l.origin.contents == map[k := v] && l.peer.state == map[]
  {
    l := Crossed(k, v);
    l := HandlesLive(l, 2, R.Put(k, v));
    l := HandlesLive(l, 3, R.Del(k));
  }

  /** At rest, the peer always holds what the channel holds. */
  ghost predicate AlwaysRight<K(!new), V(!new)>(guarded: bool) {
    forall l: Link<K, V> | Reachable(l, guarded) && AtRest(l) :: l.peer.state == l.origin.contents
  }

  /** That is so if and only if no object is ever taken out of the map while a change under its lock is unpublished. */
  lemma AlwaysRightIff<K(!new), V(!new)>(guarded: bool, k: K, v: V)
    ensures AlwaysRight<K, V>(guarded) <==> guarded
  {
    if guarded {
      forall l: Link<K, V> | Reachable(l, guarded) && AtRest(l) ensures l.peer.state == l.origin.contents {
        var acts :| Reaches(acts, guarded, l);
        GuardedSynced(acts, l);
        assert LiveFor(l.origin).Idle?;
        R.DrainedIntactIsEqual(LinkFor(l));
      }
    } else {
      var l := LeftForGood(k, v);
      assert k in l.origin.contents;
    }
  }
}
