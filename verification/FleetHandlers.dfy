/**
 The handlers of one node, as the fleet sees them. The fleet theorem is about user
 ids, so it keeps rosters without member information; forgetting that information
 turns each handler's effect into the fleet's step for the message it handles.
 */
module FleetHandlers {
  import opened PeerTable
  import opened PresenceCaches
  import F = Fleet
  import H = PresenceHandlers
  import P = PresenceRoom
  import R = Replication

  function Ids<V>(members: map<UserId, V>): map<UserId, ()> {
    map u | u in members :: ()
  }

  function ErasePeers<V>(p: Peers<V>): Peers<()> {
    map n | n in p :: Entry(p[n].insertedAt, Ids(p[n].members))
  }

  function Erase<V>(r: P.Room<V>): P.Room<()> {
    P.Room(r.members, ErasePeers(r.peers), r.sent, r.expired, r.left, r.kicked)
  }

  // ------------------------------------------------ erasing commutes with handling

  lemma ErasedAnnounced<V>(p: Peers<V>)
    ensures Announced(ErasePeers(p)) == Announced(p)
  {
    var q := ErasePeers(p);
    forall u | u in Announced(p) ensures u in Announced(q) {
      var n :| n in p && u in p[n].members;
      assert n in q && u in q[n].members;
    }
    forall u | u in Announced(q) ensures u in Announced(p) {
      var n :| n in q && u in q[n].members;
      assert n in p && u in p[n].members;
    }
  }

  lemma ErasedPresent<V>(p: Peers<V>, now: int, u: UserId, except: Option<NodeId>)
    ensures PresentExcluding(ErasePeers(p), now, u, except) <==> PresentExcluding(p, now, u, except)
  {
    var q := ErasePeers(p);
    assert forall n | n in p :: Fresh(q[n], now) <==> Fresh(p[n], now);
    assert forall n | n in p :: u in q[n].members <==> u in p[n].members;
  }

  lemma ErasedAdd<V>(p: Peers<V>, n: NodeId, u: UserId, info: V, now: int)
    ensures ErasePeers(AddLive(p, n, u, info, now)) == AddLive(ErasePeers(p), n, u, (), now)
  {
    assert Ids(RosterOf(p, n)) == RosterOf(ErasePeers(p), n);
    assert Ids(RosterOf(p, n)[u := info]) == Ids(RosterOf(p, n))[u := ()];
  }

  lemma ErasedRemove<V>(p: Peers<V>, n: NodeId, u: UserId, now: int)
    ensures ErasePeers(RemoveLive(p, n, u, now)) == RemoveLive(ErasePeers(p), n, u, now)
  {
    if n in p { assert Ids(p[n].members - {u}) == Ids(p[n].members) - {u}; }
  }

  lemma ErasedInsert<V>(p: Peers<V>, n: NodeId, ms: map<UserId, V>, now: int)
    ensures ErasePeers(InsertSnapshot(p, n, ms, now)) == InsertSnapshot(ErasePeers(p), n, Ids(ms), now)
  {
  }

  lemma ErasedTouch<V>(p: Peers<V>, n: NodeId, now: int)
    ensures ErasePeers(Touch(p, n, now)) == Touch(ErasePeers(p), n, now)
  {
  }

  lemma ErasedRemoteAdded<V>(r: P.Room<V>, n: NodeId, u: UserId, info: V, attached: bool, now: int)
    ensures Erase(P.DoRemoteAdded(r, n, u, info, attached, now)) == P.DoRemoteAdded(Erase(r), n, u, (), attached, now)
  {
    ErasedPresent(r.peers, now, u, Some(n));
    ErasedAdd(r.peers, n, u, info, now);
  }

  lemma ErasedRemoteRemoved<V>(r: P.Room<V>, n: NodeId, u: UserId, attached: bool, now: int)
    ensures Erase(P.DoRemoteRemoved(r, n, u, attached, now)) == P.DoRemoteRemoved(Erase(r), n, u, attached, now)
  {
    ErasedRemove(r.peers, n, u, now);
    ErasedPresent(RemoveLive(r.peers, n, u, now), now, u, None);
  }

  lemma ErasedSnapshot<V>(r: P.Room<V>, n: NodeId, ms: map<UserId, V>, fs: seq<P.Frame>, attached: bool, now: int)
    requires P.Legal(r, P.RemoteSnapshot(n, ms, fs, attached, now))
    ensures P.Legal(Erase(r), P.RemoteSnapshot(n, Ids(ms), fs, attached, now))
    ensures Erase(P.Do(r, P.RemoteSnapshot(n, ms, fs, attached, now))) ==
            P.Do(Erase(r), P.RemoteSnapshot(n, Ids(ms), fs, attached, now))
  {
    ErasedInsert(r.peers, n, ms, now);
    ErasedAnnounced(r.peers);
    ErasedAnnounced(InsertSnapshot(r.peers, n, ms, now));
  }

  // --------------------------------------------------------- handlers as fleet steps

  /** The fleet's node after a message: the room and the origin's number as the handler left them. */
  function After(n: F.Node, room: P.Room<()>, j: NodeId, last: nat, intact: bool): F.Node
    requires j in n.readers
  {
    n.(room := room, readers := n.readers[j := F.Reader(last, n.readers[j].pos + 1, intact)])
  }

  /** The node reads `m` next on its link from `j`, and its number for `j` is the handler's. */
  ghost predicate Reads(n: F.Node, seqs: map<NodeId, (nat, int)>, log: seq<R.Msg<UserId, ()>>, j: NodeId, m: R.Msg<UserId, ()>) {
    j in n.readers && n.readers[j].pos < |log| && log[n.readers[j].pos] == m && n.readers[j].last == H.LastOf(seqs, j)
  }

  /** What `HandleMemberAdded` ensures is the fleet's step for the live event it handles. */
  lemma MemberAddedIsFleetStep(
      n: F.Node, r: P.Room<Option<Info>>, r': P.Room<Option<Info>>, seqs: map<NodeId, (nat, int)>, seqs': map<NodeId, (nat, int)>,
      log: seq<R.Msg<UserId, ()>>, j: NodeId, u: UserId, info: Option<Info>, stamp: nat, attached: bool, now: int)
    requires n.room == Erase(r) && Reads(n, seqs, log, j, R.Live(stamp, R.Put(u, ()))) && H.Noted(seqs, seqs', j, stamp)
    requires r' == if R.Accepts(H.LastOf(seqs, j), stamp) then P.DoRemoteAdded(r, j, u, info, attached, now) else r
    requires R.Accepts(H.LastOf(seqs, j), stamp) ==> P.Faithful(n.room, P.RemoteAdded(j, u, (), attached, now))
    ensures F.HandleStep(n, After(n, Erase(r'), j, H.LastOf(seqs', j), n.readers[j].intact), log, j,
                         P.RemoteAdded(j, u, (), attached, now))
  {
    ErasedRemoteAdded(r, j, u, info, attached, now);
  }

  /** The same for `HandleMemberRemoved`. */
  lemma MemberRemovedIsFleetStep(
      n: F.Node, r: P.Room<Option<Info>>, r': P.Room<Option<Info>>, seqs: map<NodeId, (nat, int)>, seqs': map<NodeId, (nat, int)>,
      log: seq<R.Msg<UserId, ()>>, j: NodeId, u: UserId, stamp: nat, attached: bool, now: int)
    requires n.room == Erase(r) && Reads(n, seqs, log, j, R.Live(stamp, R.Del(u))) && H.Noted(seqs, seqs', j, stamp)
    requires r' == if R.Accepts(H.LastOf(seqs, j), stamp) then P.DoRemoteRemoved(r, j, u, attached, now) else r
    requires R.Accepts(H.LastOf(seqs, j), stamp) ==> P.Faithful(n.room, P.RemoteRemoved(j, u, attached, now))
    ensures F.HandleStep(n, After(n, Erase(r'), j, H.LastOf(seqs', j), n.readers[j].intact), log, j,
                         P.RemoteRemoved(j, u, attached, now))
  {
    ErasedRemoteRemoved(r, j, u, attached, now);
  }

  /** The same for `HandleSnapshot`, accepted. */
  lemma SnapshotIsFleetStep(
      n: F.Node, r: P.Room<Option<Info>>, r': P.Room<Option<Info>>, seqs: map<NodeId, (nat, int)>, seqs': map<NodeId, (nat, int)>,
      log: seq<R.Msg<UserId, ()>>, j: NodeId, ms: map<UserId, Option<Info>>, fs: seq<P.Frame>, stamp: nat, attached: bool, now: int)
    requires n.room == Erase(r) && Reads(n, seqs, log, j, R.Snap(stamp, Ids(ms))) && H.Noted(seqs, seqs', j, stamp)
    requires R.Accepts(H.LastOf(seqs, j), stamp)
    requires P.Legal(r, P.RemoteSnapshot(j, ms, fs, attached, now))
    requires r' == P.Do(r, P.RemoteSnapshot(j, ms, fs, attached, now))
    requires P.Legal(n.room, P.RemoteSnapshot(j, Ids(ms), fs, attached, now)) ==>
               P.Faithful(n.room, P.RemoteSnapshot(j, Ids(ms), fs, attached, now))
    ensures
      var intact := R.Behind(log, n.readers[j].pos) <= stamp || (n.readers[j].intact && Ids(ms) == RosterOf(n.room.peers, j));
      F.HandleStep(n, After(n, Erase(r'), j, H.LastOf(seqs', j), intact), log, j, P.RemoteSnapshot(j, Ids(ms), fs, attached, now))
  {
    ErasedSnapshot(r, j, ms, fs, attached, now);
  }

  /** And refused, when it only refreshes. */
  lemma StaleSnapshotIsFleetStep(
      n: F.Node, r: P.Room<Option<Info>>, r': P.Room<Option<Info>>, seqs: map<NodeId, (nat, int)>, seqs': map<NodeId, (nat, int)>,
      log: seq<R.Msg<UserId, ()>>, j: NodeId, ms: map<UserId, ()>, stamp: nat, now: int)
    requires n.room == Erase(r) && Reads(n, seqs, log, j, R.Snap(stamp, ms)) && H.Noted(seqs, seqs', j, stamp)
    requires !R.Accepts(H.LastOf(seqs, j), stamp) && r' == P.Do(r, P.StaleSnapshot(j, now))
    ensures F.HandleStep(n, After(n, Erase(r'), j, H.LastOf(seqs', j), n.readers[j].intact), log, j, P.StaleSnapshot(j, now))
  {
    ErasedTouch(r.peers, j, now);
  }
  // -------------------------------------------------- joins and leaves as fleet steps

  lemma ErasedFresh<V>(p: Peers<V>, now: int)
    ensures FreshUsers(ErasePeers(p), now) == FreshUsers(p, now)
  {
    var q := ErasePeers(p);
    forall u | u in FreshUsers(p, now) ensures u in FreshUsers(q, now) {
      var n :| n in p && Fresh(p[n], now) && u in p[n].members;
      assert n in q && Fresh(q[n], now) && u in q[n].members;
    }
    forall u | u in FreshUsers(q, now) ensures u in FreshUsers(p, now) {
      var n :| n in q && Fresh(q[n], now) && u in q[n].members;
      assert n in p && Fresh(p[n], now) && u in p[n].members;
    }
  }

  lemma ErasedAdmits<V>(r: P.Room<V>, u: UserId, cap: nat, now: int)
    ensures P.Admits(Erase(r), u, cap, now) <==> P.Admits(r, u, cap, now)
  {
    ErasedPresent(r.peers, now, u, None);
    ErasedFresh(r.peers, now);
    assert P.Known(Erase(r), now) == P.Known(r, now);
  }

  lemma ErasedSeat<V>(r: P.Room<V>, s: P.SocketId, u: UserId, now: int)
    ensures Erase(P.Seat(r, s, u, now)) == P.Seat(Erase(r), s, u, now)
  {
    ErasedPresent(r.peers, now, u, None);
    ErasedFresh(r.peers, now);
    assert P.LeftFor(Erase(r), s) == P.LeftFor(r, s) && P.Locals(Erase(r)) == P.Locals(r);
  }

  lemma ErasedJoin<V>(r: P.Room<V>, s: P.SocketId, u: UserId, cap: nat, now: int)
    ensures Erase(P.DoJoin(r, s, u, cap, now)) == P.DoJoin(Erase(r), s, u, cap, now)
  {
    ErasedAdmits(r, u, cap, now);
    ErasedSeat(r, s, u, now);
  }

  lemma ErasedResubscribe<V>(r: P.Room<V>, s: P.SocketId, drained: nat, now: int)
    requires s in r.sent && drained <= |r.sent[s]|
    ensures Erase(P.DoResubscribe(r, s, drained, now)) == P.DoResubscribe(Erase(r), s, drained, now)
  {
    ErasedFresh(r.peers, now);
  }

  lemma ErasedLeave<V>(r: P.Room<V>, s: P.SocketId, drained: nat, now: int)
    requires s in r.sent ==> drained <= |r.sent[s]|
    ensures Erase(P.DoLeave(r, s, drained, now)) == P.DoLeave(Erase(r), s, drained, now)
  {
    if s in r.members { ErasedPresent(r.peers, now, r.members[s], None); }
  }

  /** The fleet's node after a join or leave: a change of the local users is about to be published. */
  function AfterOwn(n: F.Node, room: P.Room<()>, change: Option<R.Event<UserId, ()>>): F.Node {
    match change
    case None => n.(room := room)
    case Some(e) => n.(room := room, origin := n.origin.(state := R.Apply(n.origin.state, e), live := R.Mutated(e)))
  }

  /** The step of `PresenceRoom` that a subscribe takes. */
  function SubscribeStep<V>(r: P.Room<V>, s: P.SocketId, u: UserId, cap: nat, drained: nat, now: int): P.Step<()> {
    if s in r.members && s in r.sent && P.Admits(r, u, cap, now) then P.Resubscribe(s, drained, now) else P.Join(s, u, cap, now)
  }

  lemma JoinLocalUsers(r: P.Room<()>, s: P.SocketId, u: UserId, cap: nat, now: int)
    ensures P.Locals(P.DoJoin(r, s, u, cap, now)) ==
            if s in r.members || !P.Admits(r, u, cap, now) then P.Locals(r) else P.Locals(r) + {u}
  {
    if s !in r.members { P.JoinLocals(r.members, s, u); }
  }

  lemma JoinIsFleetStep(n: F.Node, s: P.SocketId, u: UserId, cap: nat, userAdded: bool, now: int)
    requires userAdded <==> P.Admits(n.room, u, cap, now) && s !in n.room.members && u !in P.Locals(n.room)
    requires P.Faithful(n.room, P.Join(s, u, cap, now)) && (userAdded ==> n.origin.live.Idle?)
    ensures F.LocalStep(n, AfterOwn(n, P.DoJoin(n.room, s, u, cap, now), if userAdded then Some(R.Put(u, ())) else None),
                        P.Join(s, u, cap, now))
  {
    JoinLocalUsers(n.room, s, u, cap, now);
    var n' := AfterOwn(n, P.DoJoin(n.room, s, u, cap, now), if userAdded then Some(R.Put(u, ())) else None);
    assert P.Locals(n'.room) == P.Locals(n.room) <==> !userAdded;
  }

  /** What `Join` ensures is the fleet's local step; it publishes exactly when it adds the user. */
  lemma SubscribeIsFleetStep(
      n: F.Node, r: P.Room<Option<Info>>, r': P.Room<Option<Info>>, s: P.SocketId, u: UserId, cap: nat, drained: nat,
      userAdded: bool, now: int)
    requires n.room == Erase(r) && (s in r.sent ==> drained <= |r.sent[s]|)
    requires r' == P.DoSubscribe(r, s, u, cap, drained, now)
    requires userAdded <==> P.Admits(r, u, cap, now) && s !in r.members && u !in P.Locals(r)
    requires P.Faithful(n.room, SubscribeStep(r, s, u, cap, drained, now)) && (userAdded ==> n.origin.live.Idle?)
    ensures F.LocalStep(n, AfterOwn(n, Erase(r'), if userAdded then Some(R.Put(u, ())) else None),
                        SubscribeStep(r, s, u, cap, drained, now))
  {
    ErasedAdmits(r, u, cap, now);
    if SubscribeStep(r, s, u, cap, drained, now).Resubscribe? {
      ErasedResubscribe(r, s, drained, now);
    } else {
      ErasedJoin(r, s, u, cap, now);
      JoinIsFleetStep(n, s, u, cap, userAdded, now);
    }
  }

  /** What `Leave` ensures is the fleet's local step; it publishes exactly when the user's last socket leaves. */
  lemma LeaveIsFleetStep(
      n: F.Node, r: P.Room<Option<Info>>, r': P.Room<Option<Info>>, s: P.SocketId, drained: nat, publishes: Option<UserId>,
      now: int)
    requires n.room == Erase(r) && P.Legal(r, P.Leave(s, drained, now)) && r' == P.DoLeave(r, s, drained, now)
    requires publishes == if s in r.members && r.members[s] !in P.Locals(r') then Some(r.members[s]) else None
    requires P.Faithful(n.room, P.Leave(s, drained, now)) && (publishes.Some? ==> n.origin.live.Idle?)
    ensures F.LocalStep(n, AfterOwn(n, Erase(r'), if publishes.Some? then Some(R.Del(publishes.value)) else None),
                        P.Leave(s, drained, now))
  {
    ErasedLeave(r, s, drained, now);
    if s in r.members { P.LeaveLocals(r.members, s); }
  }
}
