/**
 Online and offline notifications about signed-in users on one node. The state
 that decides is the same as for a presence room: users with a local socket, and
 users stored for each peer; the notifications play the part of member frames.
 */
module Watchlist {
  import opened PeerTable
  import P = PresenceRoom
  import R = Replication

  type SocketId = P.SocketId

  /** `log` holds the notifications emitted: `Added` for online, `Removed` for offline. */
  datatype Node = Node(sockets: map<SocketId, UserId>, peers: Peers<()>, log: seq<P.Frame>, expired: seq<UserId>)

  /** Fleet-wide online, as far as this node knows. */
  function Online(w: Node): set<UserId> {
    P.Users(w.sockets) + Announced(w.peers)
  }

  datatype Step =
    | SignIn(socket: SocketId, user: UserId, now: int)
    | Disconnect(socket: SocketId, now: int)
    | RemoteOnline(origin: NodeId, user: UserId, now: int)
    | RemoteOffline(origin: NodeId, user: UserId, now: int)
    | Heard(origin: NodeId, now: int)  // a session snapshot refreshes its sender first
    | Sweep(stale: seq<UserId>, now: int)
    | AnnounceExpired(now: int)

  predicate Enabled(w: Node, a: Step) {
    match a
    case SignIn(s, _, _) => s !in w.sockets  // a socket's identity is bound once
    case Disconnect(s, _) => s in w.sockets
    case Sweep(stale, now) => P.Elements(stale) == StaleUsers(w.peers, now)
    case AnnounceExpired(_) => w.expired != []
    case _ => true
  }

  function Do(w: Node, a: Step): Node
    requires Enabled(w, a)
  {
    match a
    case SignIn(s, u, now) =>
      var known := u in P.Users(w.sockets) || PresentExcluding(w.peers, now, u, None);
      w.(sockets := w.sockets[s := u], log := if known then w.log else w.log + [P.Added(u)])
    case Disconnect(s, now) =>
      var u, rest := w.sockets[s], w.sockets - {s};
      var quiet := u in P.Users(rest) || PresentExcluding(w.peers, now, u, None);
      w.(sockets := rest, log := if quiet then w.log else w.log + [P.Removed(u)])
    case RemoteOnline(n, u, now) =>
      var known := u in P.Users(w.sockets) || PresentExcluding(w.peers, now, u, Some(n));
      w.(peers := AddLive(w.peers, n, u, (), now), log := if known then w.log else w.log + [P.Added(u)])
    case RemoteOffline(n, u, now) =>
      var q := RemoveLive(w.peers, n, u, now);
      var still := u in P.Users(w.sockets) || PresentExcluding(q, now, u, None);
      w.(peers := q, log := if still then w.log else w.log + [P.Removed(u)])
    case Heard(n, now) => w.(peers := w.peers[n := Entry(now, RosterOf(w.peers, n))])
    case Sweep(stale, now) => w.(peers := Reap(w.peers, now), expired := w.expired + stale)
    case AnnounceExpired(now) =>
      var u := w.expired[0];
      var still := u in P.Users(w.sockets) || PresentExcluding(w.peers, now, u, None);
      w.(expired := w.expired[1..], log := if still then w.log else w.log + [P.Removed(u)])
  }

  /** The step does not decide about a user stored only in entries past their TTL. */
  predicate Faithful(w: Node, a: Step)
    requires Enabled(w, a)
  {
    var r := AsRoom(w);
    match a
    case Disconnect(s, now) => !P.OnlyStale(r.(members := w.sockets - {s}), w.peers, w.sockets[s], now)
    case RemoteOffline(n, u, now) => !P.OnlyStale(r, RemoveLive(w.peers, n, u, now), u, now)
    case AnnounceExpired(now) => !P.OnlyStale(r, w.peers, w.expired[0], now)
    case _ => true
  }

  // ------------------------------------------------------------------ as a room

  const LISTENER: SocketId := "listener"

  /** The room whose only client hears every notification. */
  function AsRoom(w: Node): P.Room<()> {
    P.Room(w.sockets, w.peers, map[LISTENER := w.log], w.expired, map[], {})
  }

  /** The notifications say who is online, save for users whose expiry is about to be announced. */
  ghost predicate Truthful(w: Node) {
    Online(w) <= P.ViewOf(w.log) <= Online(w) + P.Elements(w.expired)
  }

  lemma TruthfulIsAgrees(w: Node)
    ensures Truthful(w) <==> P.Agrees(AsRoom(w))
  {
    assert LISTENER in AsRoom(w).sent;
  }

  lemma HeardAnnounces(p: Peers<()>, n: NodeId, now: int)
    ensures Announced(p[n := Entry(now, RosterOf(p, n))]) == Announced(p)
  {
    var q := p[n := Entry(now, RosterOf(p, n))];
    forall x | x in Announced(q) ensures x in Announced(p) {
      var m :| m in q && x in q[m].members;
      assert m in p && x in p[m].members;
    }
    forall x | x in Announced(p) ensures x in Announced(q) {
      var m :| m in p && x in p[m].members;
      assert m in q && x in q[m].members;
    }
  }

  lemma SignInTruthful(w: Node, s: SocketId, u: UserId, now: int)
    requires Truthful(w) && s !in w.sockets
    ensures Truthful(Do(w, SignIn(s, u, now)))
  {
    P.JoinLocals(w.sockets, s, u);
    P.PresentIsAnnounced(w.peers, now, u);
    P.ViewSnoc(w.log, P.Added(u));
  }

  lemma DisconnectTruthfulIff(w: Node, s: SocketId, now: int)
    requires Truthful(w) && s in w.sockets
    ensures Truthful(Do(w, Disconnect(s, now))) <==> Faithful(w, Disconnect(s, now))
  {
    P.LeaveLocals(w.sockets, s);
    P.PresentIsAnnounced(w.peers, now, w.sockets[s]);
    P.ViewSnoc(w.log, P.Removed(w.sockets[s]));
  }

  lemma SentTo(log: seq<P.Frame>, f: P.Frame)
    ensures P.SendAll(map[LISTENER := log], [f], None) == map[LISTENER := log + [f]]
  {
  }

  lemma OnlineTruthful(w: Node, n: NodeId, u: UserId, now: int)
    requires Truthful(w)
    ensures Truthful(Do(w, RemoteOnline(n, u, now)))
  {
    var r, w' := AsRoom(w), Do(w, RemoteOnline(n, u, now));
    TruthfulIsAgrees(w);
    TruthfulIsAgrees(w');
    SentTo(w.log, P.Added(u));
    assert AsRoom(w') == P.DoRemoteAdded(r, n, u, (), true, now);
    P.AddedAgreesIff(r, n, u, (), true, now);
  }

  lemma OfflineTruthfulIff(w: Node, n: NodeId, u: UserId, now: int)
    requires Truthful(w)
    ensures Truthful(Do(w, RemoteOffline(n, u, now))) <==> Faithful(w, RemoteOffline(n, u, now))
  {
    var r, w' := AsRoom(w), Do(w, RemoteOffline(n, u, now));
    TruthfulIsAgrees(w);
    TruthfulIsAgrees(w');
    SentTo(w.log, P.Removed(u));
    assert AsRoom(w') == P.DoRemoteRemoved(r, n, u, true, now);
    P.RemovedAgreesIff(r, n, u, true, now);
    assert LISTENER in r.sent;
  }

  lemma SweepTruthful(w: Node, stale: seq<UserId>, now: int)
    requires Truthful(w) && P.Elements(stale) == StaleUsers(w.peers, now)
    ensures Truthful(Do(w, Sweep(stale, now)))
  {
    var r, w' := AsRoom(w), Do(w, Sweep(stale, now));
    TruthfulIsAgrees(w);
    TruthfulIsAgrees(w');
    assert AsRoom(w') == P.Do(r, P.Sweep(stale, now));
    P.SweepAgrees(r, stale, now);
  }

  lemma ExpiryTruthfulIff(w: Node, now: int)
    requires Truthful(w) && w.expired != []
    ensures Truthful(Do(w, AnnounceExpired(now))) <==> Faithful(w, AnnounceExpired(now))
  {
    var r, w', u, rest := AsRoom(w), Do(w, AnnounceExpired(now)), w.expired[0], w.expired[1..];
    assert w.expired == [u] + rest;
    TruthfulIsAgrees(w);
    TruthfulIsAgrees(w');
    P.PresentIsAnnounced(w.peers, now, u);
    assert LISTENER in r.sent;
    if u in P.Users(w.sockets) || PresentExcluding(w.peers, now, u, None) {
      assert AsRoom(w') == r.(expired := rest);
      P.UnannouncedExpiryIff(r, u, rest);
    } else {
      SentTo(w.log, P.Removed(u));
      assert AsRoom(w') == P.Broadcast(r.(expired := rest), [P.Removed(u)], None);
      P.AnnouncedIff(r, u, rest);
    }
  }

  /** A step keeps the notifications right if and only if it decides about nobody stored only in expired entries. */
  lemma StepTruthfulIff(w: Node, a: Step)
    requires Truthful(w) && Enabled(w, a)
    ensures Truthful(Do(w, a)) <==> Faithful(w, a)
  {
    match a
    case SignIn(s, u, now) => SignInTruthful(w, s, u, now);
    case Disconnect(s, now) => DisconnectTruthfulIff(w, s, now);
    case RemoteOnline(n, u, now) => OnlineTruthful(w, n, u, now);
    case RemoteOffline(n, u, now) => OfflineTruthfulIff(w, n, u, now);
    case Heard(n, now) => HeardAnnounces(w.peers, n, now);
    case Sweep(stale, now) => SweepTruthful(w, stale, now);
    case AnnounceExpired(now) => ExpiryTruthfulIff(w, now);
  }

  /**
   User "u" is stored for peer "n", last heard from more than the TTL ago. Peer
   "m" says "u" went offline there: "u" is announced offline while still stored.
   */
  lemma SignedOutWhileStored(u: UserId, n: NodeId, m: NodeId)
    requires m != n
    ensures
      var w := Node(map[], map[n := Entry(0, map[u := ()])], [P.Added(u)], []);
      Truthful(w) && !Truthful(Do(w, RemoteOffline(m, u, SNAPSHOT_TTL + 1)))
  {
    var w := Node(map[], map[n := Entry(0, map[u := ()])], [P.Added(u)], []);
    P.ViewSnoc([], P.Added(u));
    assert n in w.peers && u in w.peers[n].members;
    assert Truthful(w);
    StepTruthfulIff(w, RemoteOffline(m, u, SNAPSHOT_TTL + 1));
  }

  // ----------------------------------------------------------------------- runs

  ghost predicate Next(w: Node, a: Step, w': Node) {
    Enabled(w, a) && Faithful(w, a) && w' == Do(w, a)
  }

  ghost predicate IsRun(run: seq<Node>, steps: seq<Step>) {
    |run| == |steps| + 1 &&
    forall i, j {:trigger Next(run[i], steps[i], run[j])} | 0 <= i && j == i + 1 < |run| :: Next(run[i], steps[i], run[j])
  }

  lemma {:induction false} RunTruthful(run: seq<Node>, steps: seq<Step>, k: nat)
    requires IsRun(run, steps) && run[0] == Node(map[], map[], [], []) && k <= |steps|
    ensures Truthful(run[k])
  {
    if k > 0 {
      RunTruthful(run, steps, k - 1);
      var step := Next(run[k - 1], steps[k - 1], run[k]);
      assert step;
      StepTruthfulIff(run[k - 1], steps[k - 1]);
    }
  }

  /**
   Watchlist truth: whenever no expiry waits to be announced, the last
   notification about a user says online if and only if the user has a local
   socket or is stored for some peer.
   */
  lemma WatchlistTruth(run: seq<Node>, steps: seq<Step>, u: UserId)
    requires IsRun(run, steps) && run[0] == Node(map[], map[], [], []) && run[|steps|].expired == []
    ensures P.Says(run[|steps|].log, u) == Some(true) <==> u in Online(run[|steps|])
  {
    RunTruthful(run, steps, |steps|);
    P.ShownIsSaid(run[|steps|].log, u);
  }

  lemma ReapedIsStale(p: Peers<()>, now: int, u: UserId)
    requires u in Announced(p) && u !in Announced(Reap(p, now))
    ensures u in StaleUsers(p, now)
  {
    FreshIsPresent(p, now, u);
  }

  /**
   Every change of a user's fleet-wide state is announced by the very step that
   makes it, or, when GC makes it, is put in line to be announced.
   */
  lemma EveryChangeIsAnnounced(w: Node, a: Step, u: UserId)
    requires Enabled(w, a)
    ensures
      var w' := Do(w, a);
      && (u !in Online(w) && u in Online(w') ==> w'.log == w.log + [P.Added(u)])
      && (u in Online(w) && u !in Online(w') ==>
            if a.Sweep? then u in a.stale && w'.expired == w.expired + a.stale else w'.log == w.log + [P.Removed(u)])
  {
    match a
    case SignIn(s, x, now) =>
      P.JoinLocals(w.sockets, s, x);
      P.PresentIsAnnounced(w.peers, now, x);
    case Disconnect(s, now) =>
      P.LeaveLocals(w.sockets, s);
      P.PresentIsAnnounced(w.peers, now, w.sockets[s]);
    case RemoteOnline(n, x, now) =>
      AddLiveAnnounces(w.peers, n, x, (), now);
      assert PresentExcluding(w.peers, now, x, Some(n)) ==> x in Announced(w.peers);
    case RemoteOffline(n, x, now) =>
      RemoveLiveAnnounces(w.peers, n, x, now);
      P.PresentIsAnnounced(RemoveLive(w.peers, n, x, now), now, x);
    case Heard(n, now) => HeardAnnounces(w.peers, n, now);
    case Sweep(stale, now) =>
      if u in Announced(w.peers) && u !in Announced(Reap(w.peers, now)) {
        ReapedIsStale(w.peers, now, u);
        assert u in P.Elements(stale);
        var i :| 0 <= i < |stale| && stale[i] == u;
      }
    case AnnounceExpired(now) =>
  }

  /**
   And nothing else is announced: an online notification names a user that no local
   socket and no other peer had, an offline one a user that nobody has any more.
   */
  lemma OnlyChangesAreAnnounced(w: Node, a: Step)
    requires Enabled(w, a)
    ensures
      var w' := Do(w, a);
      w'.log == w.log || exists f: P.Frame ::
        && w'.log == w.log + [f]
        && match f
           case Added(u) => u in Online(w') && u !in P.Users(w.sockets) &&
             !P.NamedBy(w.peers, u, a.now, if a.RemoteOnline? then Some(a.origin) else None)
           case Removed(u) => u !in P.Users(w'.sockets) && !P.NamedBy(w'.peers, u, a.now, None)
           case Roster(_) => false
  {
    match a
    case SignIn(s, u, now) =>
      P.JoinLocals(w.sockets, s, u);
      P.NamedIsPresent(w.peers, u, now, None);
    case Disconnect(s, now) => P.NamedIsPresent(w.peers, w.sockets[s], now, None);
    case RemoteOnline(n, u, now) =>
      AddLiveAnnounces(w.peers, n, u, (), now);
      P.NamedIsPresent(w.peers, u, now, Some(n));
    case RemoteOffline(n, u, now) => P.NamedIsPresent(RemoveLive(w.peers, n, u, now), u, now, None);
    case AnnounceExpired(now) => P.NamedIsPresent(w.peers, w.expired[0], now, None);
    case _ =>
  }

  /** Whoever is next in that line and still offline is announced; whoever is back is not. */
  lemma ExpiryIsAnnounced(w: Node, now: int)
    requires w.expired != [] && Faithful(w, AnnounceExpired(now))
    ensures
      var u, w' := w.expired[0], Do(w, AnnounceExpired(now));
      w'.expired == w.expired[1..] && w'.log == if u in Online(w) then w.log else w.log + [P.Removed(u)]
  {
    P.PresentIsAnnounced(w.peers, now, w.expired[0]);
  }

  // --------------------------------------------------- the handlers that do this

  /** The steps one after another. */
  function DoAll(w: Node, steps: seq<Step>): Node {
    if steps == [] then w
    else
      var w' := DoAll(w, steps[..|steps| - 1]);
      if Enabled(w', steps[|steps| - 1]) then Do(w', steps[|steps| - 1]) else w'
  }

  function LastFor(seqs: map<(NodeId, UserId), nat>, n: NodeId, u: UserId): nat {
    if (n, u) in seqs then seqs[(n, u)] else 0
  }

  /** `after` are the numbers `before` with `stamp` recorded for each of `us`; 0 is no number. */
  ghost predicate Records(before: map<(NodeId, UserId), nat>, after: map<(NodeId, UserId), nat>, n: NodeId, us: set<UserId>,
                          stamp: nat)
  {
    forall m: NodeId, x: UserId :: LastFor(after, m, x) ==
      if m == n && x in us && stamp != 0 then stamp else LastFor(before, m, x)
  }

  predicate HeardAt(p: Peers<()>, n: NodeId, now: int) {
    n in p && p[n].insertedAt == now
  }

  class Sessions {
    var sockets: map<SocketId, UserId>
    var peers: Peers<()>
    var log: seq<P.Frame>
    var expired: seq<UserId>
    var seqs: map<(NodeId, UserId), nat>

    ghost function State(): Node
      reads this
    {
      Node(sockets, peers, log, expired)
    }

    method AcceptSeq(n: NodeId, u: UserId, stamp: nat) returns (ok: bool)
      modifies this`seqs
      ensures ok <==> R.Accepts(LastFor(old(seqs), n, u), stamp)
      ensures seqs == if ok && stamp != 0 then old(seqs)[(n, u) := stamp] else old(seqs)
    {
      if stamp == 0 {
        return true;
      }
      if stamp <= LastFor(seqs, n, u) {
        return false;
      }
      seqs := seqs[(n, u) := stamp];
      ok := true;
    }

    method UserOnline(n: NodeId, u: UserId, now: int)
      modifies this`peers, this`log
      ensures State() == Do(old(State()), RemoteOnline(n, u, now))
    {
      var was := u in P.Users(sockets) || PresentExcluding(peers, now, u, Some(n));
      peers := AddLive(peers, n, u, (), now);
      if !was {
        log := log + [P.Added(u)];
      }
    }

    method UserOffline(n: NodeId, u: UserId, now: int)
      modifies this`peers, this`log
      ensures State() == Do(old(State()), RemoteOffline(n, u, now))
    {
      peers := RemoveLive(peers, n, u, now);
      if u !in P.Users(sockets) && !PresentExcluding(peers, now, u, None) {
        log := log + [P.Removed(u)];
      }
    }

    /**
     A peer's complete set of signed-in users: a refresh, then users it adds, then
     users it drops, each only if the snapshot is newer than the last update about
     that user. `ons` and `offs` are those users, in whatever order the sets are walked.
     */
    method HandleSnapshot(n: NodeId, reported: set<UserId>, stamp: nat, now: int)
      returns (ghost ons: seq<UserId>, ghost offs: seq<UserId>)
      modifies this`peers, this`log, this`seqs
      ensures State() == DoAll(DoAll(Do(old(State()), Heard(n, now)), Onlines(n, ons, now)), Offlines(n, offs, now))
      ensures Walked(ons, Newer(old(seqs), n, reported - RosterOf(old(peers), n).Keys, stamp))
      ensures Walked(offs, Newer(old(seqs), n, RosterOf(old(peers), n).Keys - reported, stamp))
      ensures RosterOf(peers, n).Keys == Settled(old(seqs), n, RosterOf(old(peers), n).Keys, reported, stamp)
      ensures Records(old(seqs), seqs, n, P.Elements(ons) + P.Elements(offs), stamp)
      ensures HeardAt(peers, n, now)
    {
      ghost var w := State();
      peers := peers[n := Entry(now, RosterOf(peers, n))];
      ons, offs := ApplyDifference(n, reported, stamp, now);
      SnapshotRoster(Do(w, Heard(n, now)), n, ons, offs, now);
      SnapshotStores(old(seqs), n, RosterOf(w.peers, n).Keys, reported, ons, offs, stamp);
    }

    method ApplyDifference(n: NodeId, reported: set<UserId>, stamp: nat, now: int)
      returns (ghost ons: seq<UserId>, ghost offs: seq<UserId>)
      modifies this`peers, this`log, this`seqs
      ensures State() == DoAll(DoAll(old(State()), Onlines(n, ons, now)), Offlines(n, offs, now))
      ensures Walked(ons, Newer(old(seqs), n, reported - RosterOf(old(peers), n).Keys, stamp))
      ensures Walked(offs, Newer(old(seqs), n, RosterOf(old(peers), n).Keys - reported, stamp))
      ensures Records(old(seqs), seqs, n, P.Elements(ons) + P.Elements(offs), stamp)
    {
      var previous := RosterOf(peers, n).Keys;
      ons := AddEach(n, reported - previous, stamp, now);
      ghost var between := seqs;
      RecordsOthers(old(seqs), between, n, P.Elements(ons), previous - reported, stamp);
      SameNewer(old(seqs), between, n, previous - reported, stamp);
      offs := DropEach(n, previous - reported, stamp, now);
      RecordsBoth(old(seqs), between, seqs, n, P.Elements(ons), P.Elements(offs), stamp);
    }

    /** One user the snapshot adds. */
    method TryOnline(n: NodeId, u: UserId, stamp: nat, now: int) returns (ok: bool)
      modifies this`peers, this`log, this`seqs
      ensures ok <==> R.Accepts(LastFor(old(seqs), n, u), stamp)
      ensures State() == if ok then Do(old(State()), RemoteOnline(n, u, now)) else old(State())
      ensures Records(old(seqs), seqs, n, if ok then {u} else {}, stamp)
    {
      ok := AcceptSeq(n, u, stamp);
      if ok {
        UserOnline(n, u, now);
      }
    }

    /** One user the snapshot drops. */
    method TryOffline(n: NodeId, u: UserId, stamp: nat, now: int) returns (ok: bool)
      modifies this`peers, this`log, this`seqs
      ensures ok <==> R.Accepts(LastFor(old(seqs), n, u), stamp)
      ensures State() == if ok then Do(old(State()), RemoteOffline(n, u, now)) else old(State())
      ensures Records(old(seqs), seqs, n, if ok then {u} else {}, stamp)
    {
      ok := AcceptSeq(n, u, stamp);
      if ok {
        UserOffline(n, u, now);
      }
    }

    method AddEach(n: NodeId, users: set<UserId>, stamp: nat, now: int) returns (ghost ons: seq<UserId>)
      modifies this`peers, this`log, this`seqs
      ensures State() == DoAll(old(State()), Onlines(n, ons, now))
      ensures Walked(ons, Newer(old(seqs), n, users, stamp))
      ensures Records(old(seqs), seqs, n, P.Elements(ons), stamp)
    {
      ons := [];
      var todo := users;
      while todo != {}
        invariant todo <= users && State() == DoAll(old(State()), Onlines(n, ons, now))
        invariant Records(old(seqs), seqs, n, P.Elements(ons), stamp)
        invariant Walked(ons, Newer(old(seqs), n, users - todo, stamp))
        decreases todo
      {
        var u :| u in todo;
        WalkedMore(old(seqs), n, users, todo, ons, u, stamp);
        OnlineNext(old(State()), n, ons, u, now);
        ghost var before := seqs;
        var ok := TryOnline(n, u, stamp, now);
        RecordsNext(old(seqs), before, seqs, n, ons, u, ok, stamp);
        if ok {
          ons := ons + [u];
        }
        todo := todo - {u};
      }
      assert users - todo == users;
    }

    method DropEach(n: NodeId, users: set<UserId>, stamp: nat, now: int) returns (ghost offs: seq<UserId>)
      modifies this`peers, this`log, this`seqs
      ensures State() == DoAll(old(State()), Offlines(n, offs, now))
      ensures Walked(offs, Newer(old(seqs), n, users, stamp))
      ensures Records(old(seqs), seqs, n, P.Elements(offs), stamp)
    {
      offs := [];
      var todo := users;
      while todo != {}
        invariant todo <= users && State() == DoAll(old(State()), Offlines(n, offs, now))
        invariant Records(old(seqs), seqs, n, P.Elements(offs), stamp)
        invariant Walked(offs, Newer(old(seqs), n, users - todo, stamp))
        decreases todo
      {
        var u :| u in todo;
        WalkedMore(old(seqs), n, users, todo, offs, u, stamp);
        OfflineNext(old(State()), n, offs, u, now);
        ghost var before := seqs;
        var ok := TryOffline(n, u, stamp, now);
        RecordsNext(old(seqs), before, seqs, n, offs, u, ok, stamp);
        if ok {
          offs := offs + [u];
        }
        todo := todo - {u};
      }
      assert users - todo == users;
    }
  }

  /** Where the snapshot is news it decides, elsewhere what was stored stays. */
  function Settled(seqs: map<(NodeId, UserId), nat>, n: NodeId, previous: set<UserId>, reported: set<UserId>, stamp: nat): set<UserId> {
    set u | u in previous + reported && if R.Accepts(LastFor(seqs, n, u), stamp) then u in reported else u in previous
  }

  /** `us` names each of `named` once. */
  ghost predicate Walked(us: seq<UserId>, named: set<UserId>) {
    P.Elements(us) == named && |us| == |named|
  }

  function Onlines(n: NodeId, us: seq<UserId>, now: int): seq<Step> {
    seq(|us|, i requires 0 <= i < |us| => RemoteOnline(n, us[i], now))
  }

  function Offlines(n: NodeId, us: seq<UserId>, now: int): seq<Step> {
    seq(|us|, i requires 0 <= i < |us| => RemoteOffline(n, us[i], now))
  }

  /** The users about whom `stamp` is news. */
  function Newer(seqs: map<(NodeId, UserId), nat>, n: NodeId, us: set<UserId>, stamp: nat): set<UserId> {
    set u | u in us && R.Accepts(LastFor(seqs, n, u), stamp)
  }

  lemma WalkedMore(seqs: map<(NodeId, UserId), nat>, n: NodeId, users: set<UserId>, todo: set<UserId>, us: seq<UserId>,
                   u: UserId, stamp: nat)
    requires u in todo && todo <= users && Walked(us, Newer(seqs, n, users - todo, stamp))
    ensures Walked(if R.Accepts(LastFor(seqs, n, u), stamp) then us + [u] else us, Newer(seqs, n, users - (todo - {u}), stamp))
  {
    var before, after := Newer(seqs, n, users - todo, stamp), Newer(seqs, n, users - (todo - {u}), stamp);
    assert u !in before;
    if R.Accepts(LastFor(seqs, n, u), stamp) {
      assert after == before + {u};
      OneMore(us, u);
    } else {
      assert after == before;
    }
  }

  lemma OneMore(us: seq<UserId>, u: UserId)
    ensures P.Elements(us + [u]) == P.Elements(us) + {u}
  {
    P.ElementsConcat(us, [u]);
    assert P.Elements([u]) == {u} by { assert [u][0] == u; }
  }

  /** Recording leaves the number of anybody else alone. */
  lemma RecordsOthers(before: map<(NodeId, UserId), nat>, after: map<(NodeId, UserId), nat>, n: NodeId, us: set<UserId>,
                      others: set<UserId>, stamp: nat)
    requires Records(before, after, n, us, stamp) && us !! others
    ensures forall u | u in others :: LastFor(before, n, u) == LastFor(after, n, u)
  {
  }

  lemma RecordsBoth(a: map<(NodeId, UserId), nat>, b: map<(NodeId, UserId), nat>, c: map<(NodeId, UserId), nat>, n: NodeId,
                    us: set<UserId>, vs: set<UserId>, stamp: nat)
    requires Records(a, b, n, us, stamp) && Records(b, c, n, vs, stamp)
    ensures Records(a, c, n, us + vs, stamp)
  {
  }

  lemma RecordsNext(a: map<(NodeId, UserId), nat>, b: map<(NodeId, UserId), nat>, c: map<(NodeId, UserId), nat>, n: NodeId,
                    us: seq<UserId>, u: UserId, ok: bool, stamp: nat)
    requires Records(a, b, n, P.Elements(us), stamp) && Records(b, c, n, if ok then {u} else {}, stamp)
    ensures Records(a, c, n, P.Elements(if ok then us + [u] else us), stamp)
  {
    OneMore(us, u);
  }

  lemma SameNewer(a: map<(NodeId, UserId), nat>, b: map<(NodeId, UserId), nat>, n: NodeId, us: set<UserId>, stamp: nat)
    requires forall u | u in us :: LastFor(a, n, u) == LastFor(b, n, u)
    ensures Newer(a, n, us, stamp) == Newer(b, n, us, stamp)
  {
  }

  lemma SnapshotRoster(w: Node, n: NodeId, ons: seq<UserId>, offs: seq<UserId>, now: int)
    ensures RosterOf(DoAll(DoAll(w, Onlines(n, ons, now)), Offlines(n, offs, now)).peers, n).Keys ==
            RosterOf(w.peers, n).Keys + P.Elements(ons) - P.Elements(offs)
    ensures HeardAt(w.peers, n, now) ==> HeardAt(DoAll(DoAll(w, Onlines(n, ons, now)), Offlines(n, offs, now)).peers, n, now)
  {
    OnlinesStored(w, n, ons, now);
    OfflinesDropped(DoAll(w, Onlines(n, ons, now)), n, offs, now);
  }

  lemma SnapshotStores(seqs: map<(NodeId, UserId), nat>, n: NodeId, previous: set<UserId>, reported: set<UserId>,
                       ons: seq<UserId>, offs: seq<UserId>, stamp: nat)
    requires Walked(ons, Newer(seqs, n, reported - previous, stamp))
    requires Walked(offs, Newer(seqs, n, previous - reported, stamp))
    ensures previous + P.Elements(ons) - P.Elements(offs) == Settled(seqs, n, previous, reported, stamp)
  {
  }

  lemma {:induction false} OnlinesStored(w: Node, n: NodeId, us: seq<UserId>, now: int)
    ensures RosterOf(DoAll(w, Onlines(n, us, now)).peers, n).Keys == RosterOf(w.peers, n).Keys + P.Elements(us)
    ensures HeardAt(w.peers, n, now) ==> HeardAt(DoAll(w, Onlines(n, us, now)).peers, n, now)
  {
    if us != [] {
      var front, u := us[..|us| - 1], us[|us| - 1];
      assert us == front + [u];
      OnlinesStored(w, n, front, now);
      OnlineNext(w, n, front, u, now);
      OneMore(front, u);
    }
  }

  lemma {:induction false} OfflinesDropped(w: Node, n: NodeId, us: seq<UserId>, now: int)
    ensures RosterOf(DoAll(w, Offlines(n, us, now)).peers, n).Keys == RosterOf(w.peers, n).Keys - P.Elements(us)
    ensures HeardAt(w.peers, n, now) ==> HeardAt(DoAll(w, Offlines(n, us, now)).peers, n, now)
  {
    if us != [] {
      var front, u := us[..|us| - 1], us[|us| - 1];
      assert us == front + [u];
      OfflinesDropped(w, n, front, now);
      OfflineNext(w, n, front, u, now);
      OneMore(front, u);
    }
  }

  lemma OnlineNext(w: Node, n: NodeId, us: seq<UserId>, u: UserId, now: int)
    ensures DoAll(w, Onlines(n, us + [u], now)) == Do(DoAll(w, Onlines(n, us, now)), RemoteOnline(n, u, now))
  {
    assert Onlines(n, us + [u], now) == Onlines(n, us, now) + [RemoteOnline(n, u, now)];
    DoAllSnoc(w, Onlines(n, us, now), RemoteOnline(n, u, now));
  }

  lemma OfflineNext(w: Node, n: NodeId, us: seq<UserId>, u: UserId, now: int)
    ensures DoAll(w, Offlines(n, us + [u], now)) == Do(DoAll(w, Offlines(n, us, now)), RemoteOffline(n, u, now))
  {
    assert Offlines(n, us + [u], now) == Offlines(n, us, now) + [RemoteOffline(n, u, now)];
    DoAllSnoc(w, Offlines(n, us, now), RemoteOffline(n, u, now));
  }

  lemma DoAllSnoc(w: Node, steps: seq<Step>, a: Step)
    ensures DoAll(w, steps + [a]) == if Enabled(DoAll(w, steps), a) then Do(DoAll(w, steps), a) else DoAll(w, steps)
  {
    assert (steps + [a])[..|steps|] == steps;
  }
}
