/**
 Signed-in users between one origin and one peer. A live event names one user; a
 snapshot lists every user with a socket, read user by user after the snapshot's
 number was taken. The peer keeps one number per user, and a snapshot records its
 own only for the users it changes. For each user the stream is an instance of
 `Replication`, in which events about other users are noise.
 */
module SessionReplication {
  import opened PeerTable
  import P = PresenceRoom
  import R = Replication
  import F = SessionForgetting
  import W = Watchlist

  datatype Msg = Session(stamp: nat, user: UserId, online: bool) | Snapshot(stamp: nat, users: set<UserId>)

  /** A user's transition under that user's lock, not published yet. */
  datatype Pending = Changed(online: bool) | Stamped(stamp: nat, online: bool)

  datatype Publisher =
    | Resting
    | Numbered(stamp: nat)
    | Reading(stamp: nat, todo: set<UserId>, seen: set<UserId>)

  datatype Origin = Origin(
    users: set<UserId>, counter: nat, live: map<UserId, Pending>, publisher: Publisher, log: seq<Msg>)

  datatype Link = Link(origin: Origin, peer: F.Peer, pos: nat)

  // ---------------------------------------------------------------------- steps

  datatype Action =
    | Change(user: UserId, online: bool)
    | Number(user: UserId)
    | Enqueue(user: UserId)
    | Start
    | ListUsers(todo: set<UserId>)
    | Read(user: UserId)
    | Send
    | OtherNumber
    | Handle(now: int)
    | LoseSnapshot

  /** The users a snapshot may skip reading are those without a socket when it begins. */
  predicate Enabled(l: Link, a: Action) {
    var o := l.origin;
    match a
    case Change(u, online) => u !in o.live && (online <==> u !in o.users)
    case Number(u) => u in o.live && o.live[u].Changed?
    case Enqueue(u) => u in o.live && o.live[u].Stamped?
    case Start => o.publisher.Resting?
    case ListUsers(todo) => o.publisher.Numbered? && o.users <= todo
    case Read(u) => o.publisher.Reading? && u in o.publisher.todo
    case Send => o.publisher.Reading? && o.publisher.todo == {}
    case OtherNumber => true
    case Handle(_) => l.pos < |o.log|
    case LoseSnapshot => l.pos < |o.log| && o.log[l.pos].Snapshot?
  }

  /** What the peer does with a message. */
  function Handling(m: Msg, now: int): F.Step {
    match m
    case Session(stamp, u, online) => F.Live(u, online, stamp, now)
    case Snapshot(stamp, users) => F.Snapshot(users, stamp, now)
  }

  function OriginAfter(o: Origin, a: Action): Origin
    requires Enabled(Link(o, F.NOBODY, 0), a) && !a.Handle? && !a.LoseSnapshot?
  {
    match a
    case Change(u, online) =>
      o.(users := if online then o.users + {u} else o.users - {u}, live := o.live[u := Changed(online)])
    case Number(u) => o.(counter := o.counter + 1, live := o.live[u := Stamped(o.counter + 1, o.live[u].online)])
    case Enqueue(u) => o.(live := o.live - {u}, log := o.log + [Session(o.live[u].stamp, u, o.live[u].online)])
    case Start => o.(counter := o.counter + 1, publisher := Numbered(o.counter + 1))
    case ListUsers(todo) => o.(publisher := Reading(o.publisher.stamp, todo, {}))
    case Read(u) =>
      var p := o.publisher;
      o.(publisher := Reading(p.stamp, p.todo - {u}, if u in o.users then p.seen + {u} else p.seen - {u}))
    case Send => o.(publisher := Resting, log := o.log + [Snapshot(o.publisher.stamp, o.publisher.seen)])
    case OtherNumber => o.(counter := o.counter + 1)
  }

  function Do(l: Link, a: Action): Link
    requires Enabled(l, a)
  {
    match a
    case Handle(now) => l.(peer := F.Do(l.peer, Handling(l.origin.log[l.pos], now)), pos := l.pos + 1)
    case LoseSnapshot => l.(pos := l.pos + 1)
    case _ => l.(origin := OriginAfter(l.origin, a))
  }

  const START := Link(Origin({}, 0, map[], Resting, []), F.NOBODY, 0)

  predicate Drained(l: Link, u: UserId) {
    u !in l.origin.live && l.pos == |l.origin.log|
  }

  // --------------------------------------------------------- one user's instance

  function Value(online: bool): map<(), ()> {
    if online then map[() := ()] else map[]
  }

  function EventFor(online: bool): R.Event<(), ()> {
    if online then R.Put((), ()) else R.Del(())
  }

  function MsgFor(m: Msg, u: UserId): R.Msg<(), ()> {
    match m
    case Session(stamp, x, online) => if x == u then R.Live(stamp, EventFor(online)) else R.Other
    case Snapshot(stamp, users) => R.Snap(stamp, Value(u in users))
  }

  function LogFor(log: seq<Msg>, u: UserId): seq<R.Msg<(), ()>> {
    seq(|log|, i requires 0 <= i < |log| => MsgFor(log[i], u))
  }

  function LiveFor(o: Origin, u: UserId): R.LiveOp<(), ()> {
    if u !in o.live then R.Idle
    else match o.live[u]
      case Changed(online) => R.Mutated(EventFor(online))
      case Stamped(s, online) => R.Stamped(s, EventFor(online))
  }

  function SnapFor(o: Origin, u: UserId): R.SnapOp<(), ()> {
    match o.publisher
    case Resting => R.Resting
    case Numbered(s) => R.Numbered(s)
    case Reading(s, todo, seen) => if u in todo then R.Numbered(s) else R.Captured(s, Value(u in seen))
  }

  function OriginFor(o: Origin, u: UserId): R.Origin<(), ()> {
    R.Origin(Value(u in o.users), o.counter, LiveFor(o, u), SnapFor(o, u), LogFor(o.log, u))
  }

  function ReplicaFor(p: F.Peer, pos: nat, u: UserId): R.Replica<(), ()> {
    R.Replica(Value(u in p.users), F.LastFor(p, u), pos, true)
  }

  function LinkFor(l: Link, u: UserId): R.Link<(), ()> {
    R.Link(OriginFor(l.origin, u), ReplicaFor(l.peer, l.pos, u))
  }

  lemma LogForSnoc(log: seq<Msg>, m: Msg, u: UserId)
    ensures LogFor(log + [m], u) == LogFor(log, u) + [MsgFor(m, u)]
  {
  }

  lemma ApplyValue(before: bool, online: bool)
    ensures R.Apply(Value(before), EventFor(online)) == Value(online)
  {
    assert map[() := ()] - {()} == map[];
  }

  /** Every origin step is a step, or no step, of each user's instance. */
  lemma OriginStepsFor(o: Origin, a: Action, u: UserId)
    requires Enabled(Link(o, F.NOBODY, 0), a) && !a.Handle? && !a.LoseSnapshot?
    ensures
      var p, p' := OriginFor(o, u), OriginFor(OriginAfter(o, a), u);
      p' == p || R.OriginStep(p, p')
  {
    match a
    case Change(x, online) => if x == u { ApplyValue(u in o.users, online); }
    case Enqueue(x) => LogForSnoc(o.log, Session(o.live[x].stamp, x, o.live[x].online), u);
    case Send => LogForSnoc(o.log, Snapshot(o.publisher.stamp, o.publisher.seen), u);
    case _ =>
  }

  /** A peer never heard from has no users stored. */
  ghost predicate Sound(p: F.Peer) {
    p.heardAt.None? ==> p.users == {}
  }

  lemma LiveStepsFor(p: F.Peer, x: UserId, online: bool, stamp: nat, now: int, u: UserId)
    requires Sound(p)
    ensures
      var p' := F.DoLive(p, x, online, stamp, now);
      && Sound(p')
      && if x == u && F.News(p, u, stamp)
         then (u in p'.users <==> online) && F.LastFor(p', u) == R.Remember(F.LastFor(p, u), stamp)
         else (u in p'.users <==> u in p.users) && F.LastFor(p', u) == F.LastFor(p, u)
  {
  }

  /** A snapshot decides about a user exactly if it is news; it records its number only when that changes something. */
  lemma SnapshotStepsFor(p: F.Peer, reported: set<UserId>, stamp: nat, now: int, u: UserId)
    ensures
      var p' := F.DoSnapshot(p, reported, stamp, now);
      && (u in p'.users <==> if F.News(p, u, stamp) then u in reported else u in p.users)
      && F.LastFor(p', u) == if u in F.Decided(p, reported, stamp) then R.Remember(F.LastFor(p, u), stamp) else F.LastFor(p, u)
  {
  }

  lemma HandleStepsFor(l: Link, now: int, u: UserId)
    requires l.pos < |l.origin.log| && Sound(l.peer) && R.Synced(LinkFor(l, u))
    ensures
      var l' := Do(l, Handle(now));
      Sound(l'.peer) && R.Handles(LogFor(l.origin.log, u), ReplicaFor(l.peer, l.pos, u), ReplicaFor(l'.peer, l'.pos, u))
  {
    var m := l.origin.log[l.pos];
    assert LogFor(l.origin.log, u)[l.pos] == MsgFor(m, u);
    match m
    case Session(stamp, x, online) =>
      LiveStepsFor(l.peer, x, online, stamp, now, u);
      ApplyValue(u in l.peer.users, online);
    case Snapshot(stamp, users) =>
      SnapshotStepsFor(l.peer, users, stamp, now, u);
      R.SnapshotStampPositive(OriginFor(l.origin, u), l.pos);
  }

  lemma StepKeepsSynced(l: Link, a: Action, u: UserId)
    requires Enabled(l, a) && Sound(l.peer) && R.Synced(LinkFor(l, u))
    ensures Sound(Do(l, a).peer) && R.Synced(LinkFor(Do(l, a), u))
  {
    match a {
      case Handle(now) => HandleStepsFor(l, now, u);
      case LoseSnapshot => assert LogFor(l.origin.log, u)[l.pos].Snap?;
      case _ => OriginStepsFor(l.origin, a, u);
    }
    R.ReliableKeepsSynced(LinkFor(l, u), LinkFor(Do(l, a), u));
  }

  // ----------------------------------------------------------------------- runs

  ghost predicate Next(l: Link, l': Link, a: Action) {
    Enabled(l, a) && l' == Do(l, a)
  }

  ghost predicate IsRun(run: seq<Link>, acts: seq<Action>) {
    && |run| == |acts| + 1 && run[0] == START
    && forall i, j {:trigger Next(run[i], run[j], acts[i])} | 0 <= i && j == i + 1 < |run| :: Next(run[i], run[j], acts[i])
  }

  lemma {:induction false} RunSynced(run: seq<Link>, acts: seq<Action>, u: UserId, k: nat)
    requires IsRun(run, acts) && k <= |acts|
    ensures Sound(run[k].peer) && R.Synced(LinkFor(run[k], u))
  {
    if k == 0 {
      R.RunKeepsInv([LinkFor(run[0], u)], 0);
    } else {
      RunSynced(run, acts, u, k - 1);
      var step := Next(run[k - 1], run[k], acts[k - 1]);
      assert step;
      StepKeepsSynced(run[k - 1], acts[k - 1], u);
    }
  }

  /** Once the bus drains, the peer has a user stored if and only if the user has a socket at the origin. */
  lemma SessionsConverge(run: seq<Link>, acts: seq<Action>, u: UserId)
    requires IsRun(run, acts) && Drained(run[|acts|], u)
    ensures u in run[|acts|].peer.users <==> u in run[|acts|].origin.users
  {
    RunSynced(run, acts, u, |acts|);
    var l := run[|acts|];
    R.DrainedIntactIsEqual(LinkFor(l, u));
    assert Value(u in l.peer.users) == Value(u in l.origin.users);
    assert () in Value(true) && () !in Value(false);
  }

  // ----------------------------------------------------------------- fleet-wide

  lemma StoredSomewhere(w: W.Node, links: map<NodeId, Link>, u: UserId)
    requires w.peers.Keys <= links.Keys
    requires forall j | j in links :: links[j].peer.users == RosterOf(w.peers, j).Keys
    ensures u in Announced(w.peers) <==> exists j | j in links :: u in links[j].peer.users
  {
    if u in Announced(w.peers) {
      var j :| j in w.peers && u in w.peers[j].members;
      assert j in links && u in links[j].peer.users;
    }
    if j :| j in links && u in links[j].peer.users {
      assert j in w.peers && u in w.peers[j].members;
    }
  }

  /**
   A node follows each peer over a run of its own. When every stream is drained
   for `u` and no expiry waits, the last notification about `u` says online if and
   only if `u` has a socket on some node of the fleet.
   */
  lemma OnlineIsFleetwide(w: seq<W.Node>, steps: seq<W.Step>, runs: map<NodeId, (seq<Link>, seq<Action>)>,
                          links: map<NodeId, Link>, u: UserId)
    requires W.IsRun(w, steps) && w[0] == W.Node(map[], map[], [], []) && w[|steps|].expired == []
    requires runs.Keys == links.Keys && w[|steps|].peers.Keys <= links.Keys
    requires forall j | j in runs :: IsRun(runs[j].0, runs[j].1) && links[j] == runs[j].0[|runs[j].1|] && Drained(links[j], u)
    requires forall j | j in links :: links[j].peer.users == RosterOf(w[|steps|].peers, j).Keys
    ensures P.Says(w[|steps|].log, u) == Some(true) <==>
            u in P.Users(w[|steps|].sockets) || exists j | j in links :: u in links[j].origin.users
  {
    W.WatchlistTruth(w, steps, u);
    StoredSomewhere(w[|steps|], links, u);
    forall j | j in links ensures u in links[j].peer.users <==> u in links[j].origin.users {
      SessionsConverge(runs[j].0, runs[j].1, u);
    }
  }

  // ------------------------------------------------------ the handlers that do this

  /** The node holds for peer `n` what the protocol's peer `p` holds. */
  ghost predicate Holds(peers: Peers<()>, seqs: map<(NodeId, UserId), nat>, n: NodeId, p: F.Peer) {
    && p.users == RosterOf(peers, n).Keys
    && p.heardAt == (if n in peers then Some(peers[n].insertedAt) else None)
    && forall u: UserId :: F.LastFor(p, u) == W.LastFor(seqs, n, u)
  }

  lemma LiveHolds(peers: Peers<()>, seqs: map<(NodeId, UserId), nat>, n: NodeId, p: F.Peer, u: UserId, online: bool,
                  stamp: nat, now: int)
    requires Holds(peers, seqs, n, p) && F.News(p, u, stamp)
    ensures
      var peers' := if online then AddLive(peers, n, u, (), now) else RemoveLive(peers, n, u, now);
      Holds(peers', if stamp == 0 then seqs else seqs[(n, u) := stamp], n, F.DoLive(p, u, online, stamp, now))
  {
    var p' := F.DoLive(p, u, online, stamp, now);
    var seqs' := if stamp == 0 then seqs else seqs[(n, u) := stamp];
    forall x: UserId ensures F.LastFor(p', x) == W.LastFor(seqs', n, x) {
      assert F.LastFor(p, x) == W.LastFor(seqs, n, x);
    }
  }

  lemma SnapshotDecides(peers: Peers<()>, seqs: map<(NodeId, UserId), nat>, n: NodeId, p: F.Peer, reported: set<UserId>,
                        stamp: nat)
    requires Holds(peers, seqs, n, p)
    ensures F.Decided(p, reported, stamp) ==
            W.Newer(seqs, n, reported - RosterOf(peers, n).Keys, stamp) + W.Newer(seqs, n, RosterOf(peers, n).Keys - reported, stamp)
  {
    assert forall u: UserId :: F.LastFor(p, u) == W.LastFor(seqs, n, u);
  }

  lemma SnapshotHolds(peers: Peers<()>, seqs: map<(NodeId, UserId), nat>, n: NodeId, p: F.Peer, reported: set<UserId>,
                      stamp: nat, now: int, peers': Peers<()>, seqs': map<(NodeId, UserId), nat>)
    requires Holds(peers, seqs, n, p) && W.HeardAt(peers', n, now)
    requires RosterOf(peers', n).Keys == W.Settled(seqs, n, RosterOf(peers, n).Keys, reported, stamp)
    requires W.Records(seqs, seqs', n, F.Decided(p, reported, stamp), stamp)
    ensures Holds(peers', seqs', n, F.DoSnapshot(p, reported, stamp, now))
  {
    var p' := F.DoSnapshot(p, reported, stamp, now);
    forall u: UserId ensures (u in p'.users <==> u in RosterOf(peers', n).Keys) && F.LastFor(p', u) == W.LastFor(seqs', n, u) {
      assert F.LastFor(p, u) == W.LastFor(seqs, n, u);
      SnapshotStepsFor(p, reported, stamp, now, u);
    }
  }

  /** Handling a live event is the protocol's step. */
  method HandleSessionMessage(sessions: W.Sessions, n: NodeId, u: UserId, online: bool, stamp: nat, now: int, ghost p: F.Peer)
    requires Holds(sessions.peers, sessions.seqs, n, p)
    modifies sessions
    ensures Holds(sessions.peers, sessions.seqs, n, F.Do(p, F.Live(u, online, stamp, now)))
  {
    ghost var peers, seqs := sessions.peers, sessions.seqs;
    var ok := sessions.AcceptSeq(n, u, stamp);
    if ok {
      LiveHolds(peers, seqs, n, p, u, online, stamp, now);
      if online {
        sessions.UserOnline(n, u, now);
      } else {
        sessions.UserOffline(n, u, now);
      }
    }
  }

  /** And so is handling a snapshot. */
  method HandleSnapshotMessage(sessions: W.Sessions, n: NodeId, reported: set<UserId>, stamp: nat, now: int, ghost p: F.Peer)
    requires Holds(sessions.peers, sessions.seqs, n, p)
    modifies sessions
    ensures Holds(sessions.peers, sessions.seqs, n, F.Do(p, F.Snapshot(reported, stamp, now)))
  {
    ghost var peers, seqs := sessions.peers, sessions.seqs;
    ghost var ons, offs := sessions.HandleSnapshot(n, reported, stamp, now);
    SnapshotDecides(peers, seqs, n, p, reported, stamp);
    SnapshotHolds(peers, seqs, n, p, reported, stamp, now, sessions.peers, sessions.seqs);
  }
}
