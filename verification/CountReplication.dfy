/**
 Subscriber counts between one origin and one peer. A live count names one
 channel; a snapshot lists every channel that has subscribers, read one channel
 at a time after the snapshot's number was taken. For each channel the stream is
 an instance of `Replication`, in which messages about other channels are noise.
 */
module CountReplication {
  import opened PeerTable
  import opened PeerCounts
  import R = Replication

  datatype Msg = Count(stamp: nat, channel: Channel, count: nat) | Snapshot(stamp: nat, counts: map<Channel, nat>)

  /** A count changed under its channel's lock and not published yet. */
  datatype Pending = Changed(count: nat) | Stamped(stamp: nat, count: nat)

  datatype Publisher =
    | Resting
    | Numbered(stamp: nat)
    | Reading(stamp: nat, todo: set<Channel>, seen: map<Channel, nat>)

  datatype Origin = Origin(
    counts: map<Channel, nat>, counter: nat, live: map<Channel, Pending>, publisher: Publisher, log: seq<Msg>)

  datatype Peer = Peer(slots: map<Channel, Slot>, pos: nat)

  datatype Link = Link(origin: Origin, peer: Peer)

  function CountAt(counts: map<Channel, nat>, c: Channel): nat {
    if c in counts then counts[c] else 0
  }

  function SlotAt(p: Peer, c: Channel): Slot {
    if c in p.slots then p.slots[c] else Slot(None, 0)
  }

  // ---------------------------------------------------------------------- steps

  datatype Action =
    | Change(channel: Channel, count: nat)
    | Number(channel: Channel)
    | Enqueue(channel: Channel)
    | Start
    | ListChannels(todo: set<Channel>)
    | Read(channel: Channel)
    | Send
    | Abandon
    | OtherNumber
    | Handle(peer: Peer, now: int)
    | LoseSnapshot

  /** The channels a snapshot may skip reading are those without subscribers when it lists them. */
  ghost predicate Enabled(l: Link, a: Action) {
    var o := l.origin;
    match a
    case Change(c, _) => c !in o.live
    case Number(c) => c in o.live && o.live[c].Changed?
    case Enqueue(c) => c in o.live && o.live[c].Stamped?
    case Start => o.publisher.Resting?
    case ListChannels(todo) => o.publisher.Numbered? && forall c | c in o.counts && o.counts[c] > 0 :: c in todo
    case Read(c) => o.publisher.Reading? && c in o.publisher.todo
    case Send => o.publisher.Reading? && o.publisher.todo == {}
    case Abandon => true
    case OtherNumber => true
    case Handle(p', now) => l.peer.pos < |o.log| && Handles(l.peer, o.log[l.peer.pos], p', now)
    case LoseSnapshot => l.peer.pos < |o.log| && o.log[l.peer.pos].Snapshot?
  }

  ghost predicate Handles(p: Peer, m: Msg, p': Peer, now: int) {
    p'.pos == p.pos + 1 &&
    forall c: Channel {:trigger SlotAt(p', c)} :: SlotAt(p', c) ==
      match m
      case Count(stamp, ch, n) => if ch == c then Reported(SlotAt(p, c), stamp, n, now) else SlotAt(p, c)
      case Snapshot(stamp, counts) =>
        if c in counts then Listed(SlotAt(p, c), stamp, counts[c], now) else Omitted(SlotAt(p, c), stamp)
  }

  function Positive(counts: map<Channel, nat>): map<Channel, nat> {
    map c | c in counts && counts[c] > 0 :: counts[c]
  }

  ghost function OriginAfter(o: Origin, a: Action): Origin
    requires Enabled(Link(o, Peer(map[], 0)), a) && !a.Handle? && !a.LoseSnapshot?
  {
    match a
    case Change(c, n) => o.(counts := o.counts[c := n], live := o.live[c := Changed(n)])
    case Number(c) => o.(counter := o.counter + 1, live := o.live[c := Stamped(o.counter + 1, o.live[c].count)])
    case Enqueue(c) => o.(live := o.live - {c}, log := o.log + [Count(o.live[c].stamp, c, o.live[c].count)])
    case Start => o.(counter := o.counter + 1, publisher := Numbered(o.counter + 1))
    case ListChannels(todo) => o.(publisher := Reading(o.publisher.stamp, todo, map[]))
    case Read(c) =>
      var p := o.publisher;
      o.(publisher := Reading(p.stamp, p.todo - {c}, p.seen[c := CountAt(o.counts, c)]))
    case Send => o.(publisher := Resting, log := o.log + [Snapshot(o.publisher.stamp, Positive(o.publisher.seen))])
    case Abandon => o.(publisher := Resting)
    case OtherNumber => o.(counter := o.counter + 1)
  }

  ghost predicate Next(l: Link, l': Link, a: Action) {
    Enabled(l, a) &&
    match a
    case Handle(p', _) => l' == l.(peer := p')
    case LoseSnapshot => l' == l.(peer := l.peer.(pos := l.peer.pos + 1))
    case _ => l' == l.(origin := OriginAfter(l.origin, a))
  }

  ghost predicate Init(l: Link) {
    l == Link(Origin(map[], 0, map[], Resting, []), Peer(map[], 0))
  }

  predicate Drained(l: Link, c: Channel) {
    c !in l.origin.live && l.peer.pos == |l.origin.log|
  }

  // ------------------------------------------------------ one channel's instance

  function Value(n: nat): map<(), nat> {
    if n > 0 then map[() := n] else map[]
  }

  function EventFor(n: nat): R.Event<(), nat> {
    if n > 0 then R.Put((), n) else R.Del(())
  }

  function MsgFor(m: Msg, c: Channel): R.Msg<(), nat> {
    match m
    case Count(stamp, ch, n) => if ch == c then R.Live(stamp, EventFor(n)) else R.Other
    case Snapshot(stamp, counts) => R.Snap(stamp, Value(CountAt(counts, c)))
  }

  function LogFor(log: seq<Msg>, c: Channel): seq<R.Msg<(), nat>> {
    seq(|log|, i requires 0 <= i < |log| => MsgFor(log[i], c))
  }

  function LiveFor(o: Origin, c: Channel): R.LiveOp<(), nat> {
    if c !in o.live then R.Idle
    else match o.live[c]
      case Changed(n) => R.Mutated(EventFor(n))
      case Stamped(s, n) => R.Stamped(s, EventFor(n))
  }

  function SnapFor(o: Origin, c: Channel): R.SnapOp<(), nat> {
    match o.publisher
    case Resting => R.Resting
    case Numbered(s) => R.Numbered(s)
    case Reading(s, todo, seen) => if c in todo then R.Numbered(s) else R.Captured(s, Value(CountAt(seen, c)))
  }

  function OriginFor(o: Origin, c: Channel): R.Origin<(), nat> {
    R.Origin(Value(CountAt(o.counts, c)), o.counter, LiveFor(o, c), SnapFor(o, c), LogFor(o.log, c))
  }

  function ReplicaFor(p: Peer, c: Channel): R.Replica<(), nat> {
    R.Replica(Value(CountOf(SlotAt(p, c).entry)), SlotAt(p, c).last, p.pos, true)
  }

  function LinkFor(l: Link, c: Channel): R.Link<(), nat> {
    R.Link(OriginFor(l.origin, c), ReplicaFor(l.peer, c))
  }

  lemma LogForSnoc(log: seq<Msg>, m: Msg, c: Channel)
    ensures LogFor(log + [m], c) == LogFor(log, c) + [MsgFor(m, c)]
  {
  }

  lemma ApplyValue(old_: nat, n: nat)
    ensures R.Apply(Value(old_), EventFor(n)) == Value(n)
  {
    assert map[() := n] - {()} == map[];
  }

  /** Every origin step is a step, or no step, of each channel's instance. */
  lemma OriginStepsFor(o: Origin, a: Action, c: Channel)
    requires Enabled(Link(o, Peer(map[], 0)), a) && !a.Handle? && !a.LoseSnapshot?
    ensures
      var p, p' := OriginFor(o, c), OriginFor(OriginAfter(o, a), c);
      p' == p || R.OriginStep(p, p')
  {
    match a
    case Change(ch, n) => if ch == c { ApplyValue(CountAt(o.counts, c), n); }
    case Enqueue(ch) => LogForSnoc(o.log, Count(o.live[ch].stamp, ch, o.live[ch].count), c);
    case Send => LogForSnoc(o.log, Snapshot(o.publisher.stamp, Positive(o.publisher.seen)), c);
    case _ =>
  }

  lemma HandleStepsFor(l: Link, p': Peer, now: int, c: Channel)
    requires l.peer.pos < |l.origin.log| && Handles(l.peer, l.origin.log[l.peer.pos], p', now)
    requires R.Synced(LinkFor(l, c))
    ensures R.Handles(LogFor(l.origin.log, c), ReplicaFor(l.peer, c), ReplicaFor(p', c))
  {
    var m, s := l.origin.log[l.peer.pos], SlotAt(l.peer, c);
    assert LogFor(l.origin.log, c)[l.peer.pos] == MsgFor(m, c);
    match m
    case Count(_, ch, n) => if ch == c { ApplyValue(CountOf(s.entry), n); }
    case Snapshot(stamp, counts) =>
      R.SnapshotStampPositive(OriginFor(l.origin, c), l.peer.pos);
  }

  lemma NextFor(l: Link, l': Link, a: Action, c: Channel)
    requires Next(l, l', a) && R.Synced(LinkFor(l, c))
    ensures R.Synced(LinkFor(l', c))
  {
    match a {
      case Handle(p', now) => HandleStepsFor(l, p', now, c);
      case LoseSnapshot => assert LogFor(l.origin.log, c)[l.peer.pos].Snap?;
      case _ => OriginStepsFor(l.origin, a, c);
    }
    R.ReliableKeepsSynced(LinkFor(l, c), LinkFor(l', c));
  }

  // ----------------------------------------------------------------------- runs

  ghost predicate IsRun(run: seq<Link>, acts: seq<Action>) {
    |run| == |acts| + 1 &&
    forall i, j {:trigger Next(run[i], run[j], acts[i])} | 0 <= i && j == i + 1 < |run| :: Next(run[i], run[j], acts[i])
  }

  lemma {:induction false} RunSynced(run: seq<Link>, acts: seq<Action>, c: Channel, k: nat)
    requires IsRun(run, acts) && Init(run[0]) && k <= |acts|
    ensures R.Synced(LinkFor(run[k], c))
  {
    if k == 0 {
      R.RunKeepsInv([LinkFor(run[0], c)], 0);
    } else {
      RunSynced(run, acts, c, k - 1);
      var step := Next(run[k - 1], run[k], acts[k - 1]);
      assert step;
      NextFor(run[k - 1], run[k], acts[k - 1], c);
    }
  }

  /** Once the bus drains, the peer holds the origin's count of every channel; nothing stored counts as none. */
  lemma CountsConverge(run: seq<Link>, acts: seq<Action>, c: Channel)
    requires IsRun(run, acts) && Init(run[0]) && Drained(run[|acts|], c)
    ensures CountOf(SlotAt(run[|acts|].peer, c).entry) == CountAt(run[|acts|].origin.counts, c)
  {
    RunSynced(run, acts, c, |acts|);
    var l := run[|acts|];
    R.DrainedIntactIsEqual(LinkFor(l, c));
    ValueInjective(CountOf(SlotAt(l.peer, c).entry), CountAt(l.origin.counts, c));
  }

  lemma ValueInjective(a: nat, b: nat)
    requires Value(a) == Value(b)
    ensures a == b
  {
    if a > 0 { assert () in Value(a) && Value(a)[()] == a; }
    if b > 0 { assert () in Value(b) && Value(b)[()] == b; }
  }

  /** A node's stored entries for channel `c`, one per peer that has one. */
  function Entries(links: map<NodeId, Link>, c: Channel): map<NodeId, CountEntry> {
    map j | j in links && SlotAt(links[j].peer, c).entry.Some? :: SlotAt(links[j].peer, c).entry.value
  }

  /** The true count of `c` on every node: `local` at home, the origin's own count elsewhere. */
  function TrueCount(links: map<NodeId, Link>, self: NodeId, local: nat, c: Channel): NodeId -> nat {
    j => if j == self then local else if j in links then CountAt(links[j].origin.counts, c) else 0
  }

  /** The peers with nothing stored for `c`, or something no older than fifteen seconds. */
  function Recent(entries: map<NodeId, CountEntry>, nodes: set<NodeId>, now: int): set<NodeId> {
    set j | j in nodes && (j in entries ==> now <= entries[j].insertedAt + 15)
  }

  /**
   Fleet total: a node follows each of its peers over a run of its own; when all
   are drained for `c`, its local count plus `Sum` is the number of subscribers on
   this node and on the peers whose stored counts are not older than fifteen
   seconds; with no older one, in the whole fleet.
   */
  lemma TotalIsFleetTotal(
    runs: map<NodeId, (seq<Link>, seq<Action>)>, links: map<NodeId, Link>, self: NodeId, local: nat, c: Channel, now: int)
    requires runs.Keys == links.Keys && self !in links
    requires forall j | j in runs ::
               IsRun(runs[j].0, runs[j].1) && Init(runs[j].0[0]) && links[j] == runs[j].0[|runs[j].1|] && Drained(links[j], c)
    ensures local + SumOver(Entries(links, c).Keys, FreshCount(Entries(links, c), now))
         == SumOver(Recent(Entries(links, c), links.Keys, now) + {self}, TrueCount(links, self, local, c))
    ensures (forall j | j in Entries(links, c) :: now <= Entries(links, c)[j].insertedAt + 15) ==>
              Recent(Entries(links, c), links.Keys, now) == links.Keys
  {
    var es := Entries(links, c);
    var f, g, recent := FreshCount(es, now), TrueCount(links, self, local, c), Recent(es, links.Keys, now);
    forall j | j in recent ensures f(j) == g(j) {
      CountsConverge(runs[j].0, runs[j].1, c);
    }
    SumSupport(links.Keys, es.Keys, f);
    SumSupport(links.Keys, recent, f);
    SumSame(recent, f, g);
    SumWithout(recent + {self}, g, self);
    assert recent + {self} - {self} == recent;
  }

  // ------------------------------------------------------- the cache that does this

  /** The counts as a map; a node lists each of its channels once. */
  function AsMap(counts: seq<(Channel, nat)>): map<Channel, nat> {
    if counts == [] then map[] else AsMap(counts[..|counts| - 1])[counts[|counts| - 1].0 := counts[|counts| - 1].1]
  }

  ghost predicate Once(counts: seq<(Channel, nat)>) {
    forall a, b | 0 <= a < b < |counts| :: counts[a].0 != counts[b].0
  }

  lemma ChannelsSnoc(counts: seq<(Channel, nat)>, last: (Channel, nat))
    ensures Channels(counts + [last]) == Channels(counts) + {last.0}
  {
    var all := counts + [last];
    assert all[|counts|].0 in Channels(all);
    forall i | 0 <= i < |counts| ensures counts[i].0 in Channels(all) && all[i].0 in Channels(counts) {
      assert all[i] == counts[i];
    }
  }

  lemma {:induction false} AsMapLists(counts: seq<(Channel, nat)>)
    ensures AsMap(counts).Keys == Channels(counts)
    ensures Once(counts) ==> forall i | 0 <= i < |counts| :: counts[i].0 in AsMap(counts) && AsMap(counts)[counts[i].0] == counts[i].1
  {
    if counts != [] {
      var init, last := counts[..|counts| - 1], counts[|counts| - 1];
      assert counts == init + [last];
      AsMapLists(init);
      ChannelsSnoc(init, last);
      if Once(counts) {
        forall i | 0 <= i < |counts| ensures counts[i].0 in AsMap(counts) && AsMap(counts)[counts[i].0] == counts[i].1 {
          if i < |init| { assert init[i] == counts[i]; }
        }
      }
    }
  }

  /** Listing each channel once has the effect of the count listed for it. */
  lemma {:induction false} ListedOnce(s: Slot, stamp: nat, counts: seq<(Channel, nat)>, c: Channel, i: nat, now: int)
    requires Once(counts) && i < |counts| && counts[i].0 == c
    ensures AfterSnapshot(s, stamp, counts, c, now) == Listed(s, stamp, counts[i].1, now)
  {
    assert counts[i].0 in Channels(counts);
    var init := counts[..|counts| - 1];
    if i == |counts| - 1 {
      assert c !in Channels(init);
      NotListed(s, stamp, init, c, now);
    } else {
      ListedOnce(s, stamp, init, c, i, now);
      assert init[i].0 in Channels(init);
    }
  }

  /** On the wire a list, in the protocol a map: the effect on a channel's slot is the same. */
  lemma ListIsMap(s: Slot, stamp: nat, counts: seq<(Channel, nat)>, c: Channel, now: int)
    requires Once(counts)
    ensures AfterSnapshot(s, stamp, counts, c, now) ==
            if c in AsMap(counts) then Listed(s, stamp, AsMap(counts)[c], now) else Omitted(s, stamp)
  {
    AsMapLists(counts);
    if c in Channels(counts) {
      var i :| 0 <= i < |counts| && counts[i].0 == c;
      ListedOnce(s, stamp, counts, c, i, now);
    }
  }

  /** The cache holds for `node` what the protocol's peer `p` holds. */
  ghost predicate Holds(cache: PeerChannelCounts, app: string, node: NodeId, p: Peer)
    reads cache
  {
    forall c: Channel :: SlotOf(cache.inner, cache.peerSeqs, node, (app, c)) == SlotAt(p, c)
  }

  function AfterCounts(p: Peer, stamp: nat, counts: seq<(Channel, nat)>, now: int): Peer {
    Peer(map c | c in p.slots.Keys + Channels(counts) :: AfterSnapshot(SlotAt(p, c), stamp, counts, c, now), p.pos + 1)
  }

  lemma AfterCountsSlot(p: Peer, stamp: nat, counts: seq<(Channel, nat)>, now: int, c: Channel)
    ensures SlotAt(AfterCounts(p, stamp, counts, now), c) == AfterSnapshot(SlotAt(p, c), stamp, counts, c, now)
  {
  }

  lemma AfterCountsHandles(p: Peer, stamp: nat, counts: seq<(Channel, nat)>, now: int)
    requires Once(counts)
    ensures Handles(p, Snapshot(stamp, AsMap(counts)), AfterCounts(p, stamp, counts, now), now)
  {
    forall c: Channel
      ensures SlotAt(AfterCounts(p, stamp, counts, now), c) ==
              if c in AsMap(counts) then Listed(SlotAt(p, c), stamp, AsMap(counts)[c], now) else Omitted(SlotAt(p, c), stamp) {
      AfterCountsSlot(p, stamp, counts, now, c);
      ListIsMap(SlotAt(p, c), stamp, counts, c, now);
    }
  }

  /** The cache handling a snapshot from a peer is the protocol's step. */
  method HandleSnapshotMessage(cache: PeerChannelCounts, app: string, node: NodeId, counts: seq<(Channel, nat)>, stamp: nat,
                               now: int, ghost p: Peer)
    returns (ghost p': Peer)
    requires Holds(cache, app, node, p) && Once(counts)
    modifies cache
    ensures Holds(cache, app, node, p') && Handles(p, Snapshot(stamp, AsMap(counts)), p', now)
  {
    cache.HandleSnapshot(app, node, counts, stamp, now);
    p' := AfterCounts(p, stamp, counts, now);
    forall c: Channel ensures SlotOf(cache.inner, cache.peerSeqs, node, (app, c)) == SlotAt(p', c) {
      AfterCountsSlot(p, stamp, counts, now, c);
    }
    AfterCountsHandles(p, stamp, counts, now);
  }

  /** And so is handling a live count. */
  method HandleCountMessage(cache: PeerChannelCounts, app: string, node: NodeId, channel: Channel, count: nat, stamp: nat,
                            now: int, ghost p: Peer)
    returns (ghost p': Peer)
    requires Holds(cache, app, node, p)
    modifies cache
    ensures Holds(cache, app, node, p') && Handles(p, Count(stamp, channel, count), p', now)
  {
    cache.HandleCount(node, (app, channel), count, stamp, now);
    p' := Peer(p.slots[channel := Reported(SlotAt(p, channel), stamp, count, now)], p.pos + 1);
  }
  /** The entries the cache has for a channel. */
  function Stored(inner: Counts, key: Key): map<NodeId, CountEntry> {
    if key in inner then inner[key] else map[]
  }

  lemma StoredEntries(cache: PeerChannelCounts, app: string, c: Channel, links: map<NodeId, Link>)
    requires forall j | j in links :: Holds(cache, app, j, links[j].peer)
    requires Stored(cache.inner, (app, c)).Keys <= links.Keys
    ensures Stored(cache.inner, (app, c)) == Entries(links, c)
  {
    forall j | j in links ensures SlotOf(cache.inner, cache.peerSeqs, j, (app, c)) == SlotAt(links[j].peer, c) {
      assert Holds(cache, app, j, links[j].peer);
    }
  }

  /** The fleet total as the program computes it, from a cache that holds what each peer's stream put there. */
  method FleetCount(cache: PeerChannelCounts, app: string, c: Channel, self: NodeId, local: nat, now: int,
                    ghost runs: map<NodeId, (seq<Link>, seq<Action>)>, ghost links: map<NodeId, Link>)
    returns (total: nat)
    requires runs.Keys == links.Keys && self !in links
    requires forall j | j in runs ::
               IsRun(runs[j].0, runs[j].1) && Init(runs[j].0[0]) && links[j] == runs[j].0[|runs[j].1|] && Drained(links[j], c)
    requires forall j | j in links :: Holds(cache, app, j, links[j].peer)
    requires Stored(cache.inner, (app, c)).Keys <= links.Keys
    ensures total == SumOver(Recent(Stored(cache.inner, (app, c)), links.Keys, now) + {self}, TrueCount(links, self, local, c))
    ensures (forall j | j in Stored(cache.inner, (app, c)) :: now <= Stored(cache.inner, (app, c))[j].insertedAt + 15) ==>
              total == SumOver(links.Keys + {self}, TrueCount(links, self, local, c))
  {
    var sum := cache.Sum((app, c), now);
    total := local + sum;
    StoredEntries(cache, app, c, links);
    TotalIsFleetTotal(runs, links, self, local, c, now);
  }
}
