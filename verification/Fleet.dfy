/**
 The whole fleet for one presence channel: every node is an origin, a peer of
 every other node, and a host of clients. A fleet step is a room step at one node
 together with what it does to the replication links; links are instances of
 `Replication`, rooms of `PresenceRoom`, and the theorem joins the two.
 */
module Fleet {
  import opened PeerTable
  import P = PresenceRoom
  import R = Replication

  type Roster = map<UserId, ()>

  /** How far a node has read one peer's stream. */
  datatype Reader = Reader(last: nat, pos: nat, intact: bool)

  datatype Node = Node(room: P.Room<()>, origin: R.Origin<UserId, ()>, readers: map<NodeId, Reader>)

  type State = map<NodeId, Node>

  function ReplicaOf(n: Node, j: NodeId): R.Replica<UserId, ()>
    requires j in n.readers
  {
    R.Replica(RosterOf(n.room.peers, j), n.readers[j].last, n.readers[j].pos, n.readers[j].intact)
  }

  /** The link over which `i` follows `j`. */
  function LinkOf(f: State, i: NodeId, j: NodeId): R.Link<UserId, ()>
    requires i in f && j in f && j in f[i].readers
  {
    R.Link(f[j].origin, ReplicaOf(f[i], j))
  }

  ghost predicate Shaped(f: State) {
    forall i | i in f :: f[i].readers.Keys == f.Keys - {i} && f[i].room.peers.Keys <= f.Keys - {i}
  }

  ghost predicate NodeInv(n: Node) {
    P.Agrees(n.room) && n.origin.state.Keys == P.Locals(n.room)
  }

  ghost predicate NodesInv(f: State) {
    forall i | i in f :: NodeInv(f[i])
  }

  ghost predicate LinksInv(f: State)
    requires Shaped(f)
  {
    forall i, j | i in f && j in f && i != j :: R.Inv(LinkOf(f, i, j))
  }

  ghost predicate Inv(f: State) {
    Shaped(f) && NodesInv(f) && LinksInv(f)
  }

  ghost predicate Init(f: State) {
    && Shaped(f)
    && forall i | i in f ::
         && f[i].room == P.Empty()
         && f[i].origin == R.Origin(map[], 0, R.Idle, R.Resting, [])
         && forall j | j in f[i].readers :: f[i].readers[j] == Reader(0, 0, true)
  }

  // ---------------------------------------------------------------------- steps

  datatype Action =
    | Local(node: NodeId, step: P.Step<()>)
    | Publish(node: NodeId)
    | Handle(node: NodeId, peer: NodeId, step: P.Step<()>)
    | Lose(node: NodeId, peer: NodeId)
    | Forget(node: NodeId, peer: NodeId)

  /** A join or leave that changes the set of local users starts a live change at the origin. */
  ghost predicate OriginFollows(n: Node, n': Node, u: UserId) {
    var before, after := P.Locals(n.room), P.Locals(n'.room);
    if before == after then n'.origin == n.origin
    else
      var e := if u in after then R.Put(u, ()) else R.Del(u);
      n.origin.live.Idle? && n'.origin == n.origin.(state := R.Apply(n.origin.state, e), live := R.Mutated(e))
  }

  /** Readers after a sweep: reaping a non-empty roster damages that link. */
  function Swept(n: Node, now: int): map<NodeId, Reader> {
    map j | j in n.readers ::
      n.readers[j].(intact :=
        && n.readers[j].intact
        && (j !in n.room.peers || Fresh(n.room.peers[j], now) || RosterOf(n.room.peers, j) == map[]))
  }

  ghost predicate LocalStep(n: Node, n': Node, a: P.Step<()>) {
    P.Next(n.room, a, n'.room) &&
    match a
    case Join(_, u, _, _) => OriginFollows(n, n', u) && n'.readers == n.readers
    case Leave(s, _, _) =>
      n'.readers == n.readers && if s in n.room.members then OriginFollows(n, n', n.room.members[s]) else n'.origin == n.origin
    case Sweep(_, now) => n'.origin == n.origin && n'.readers == Swept(n, now)
    case Resubscribe(_, _, _) => n'.origin == n.origin && n'.readers == n.readers
    case Drain(_, _) => n'.origin == n.origin && n'.readers == n.readers
    case Kick(_) => n'.origin == n.origin && n'.readers == n.readers
    case AnnounceExpired(_, _) => n'.origin == n.origin && n'.readers == n.readers
    case _ => false
  }

  /** The handler that a message leads to, given the number last applied. */
  ghost predicate Dispatches(m: R.Msg<UserId, ()>, j: NodeId, accepted: bool, a: P.Step<()>) {
    match m
    case Live(_, Put(u, _)) => accepted && a.RemoteAdded? && a.origin == j && a.user == u
    case Live(_, Del(u)) => accepted && a.RemoteRemoved? && a.origin == j && a.user == u
    case Snap(_, c) =>
      if accepted then a.RemoteSnapshot? && a.origin == j && a.members == c else a.StaleSnapshot? && a.origin == j
    case Other => false
  }

  ghost predicate HandleStep(n: Node, n': Node, log: seq<R.Msg<UserId, ()>>, j: NodeId, a: P.Step<()>)
    requires j in n.readers
  {
    var rd := n.readers[j];
    && rd.pos < |log|
    && n'.origin == n.origin
    && j in n'.readers
    && n'.readers == n.readers[j := n'.readers[j]]
    && var m := log[rd.pos];
       if m.Other? then n' == n.(readers := n.readers[j := rd.(pos := rd.pos + 1)])
       else
       var accepted := R.Accepts(rd.last, m.stamp);
       && n'.readers[j].pos == rd.pos + 1
       && n'.readers[j].last == (if accepted then R.Remember(rd.last, m.stamp) else rd.last)
       && n'.readers[j].intact == (if m.Snap? && accepted
                                   then R.Behind(log, rd.pos) <= m.stamp || (rd.intact && m.contents == RosterOf(n.room.peers, j))
                                   else rd.intact)
       && if m.Live? && !accepted then n'.room == n.room
          else Dispatches(m, j, accepted, a) && P.Next(n.room, a, n'.room)
  }

  /** Every origin step but the change itself, which joins and leaves make. */
  ghost predicate PublishStep(n: Node, n': Node) {
    && n' == n.(origin := n'.origin) && R.OriginStep(n.origin, n'.origin)
    && n'.origin.state == n.origin.state && !(n.origin.live.Idle? && n'.origin.live.Mutated?)
  }

  ghost predicate LoseStep(n: Node, n': Node, log: seq<R.Msg<UserId, ()>>, j: NodeId)
    requires j in n.readers
  {
    var rd := n.readers[j];
    && rd.pos < |log|
    && n' == n.(readers := n.readers[j := rd.(pos := rd.pos + 1, intact := rd.intact && !log[rd.pos].Live?)])
  }

  ghost predicate ForgetStep(n: Node, n': Node, j: NodeId)
    requires j in n.readers
  {
    n' == n.(readers := n.readers[j := n.readers[j].(last := 0)])
  }

  ghost predicate Next(f: State, f': State, act: Action) {
    && act.node in f && act.node in f'
    && f' == f[act.node := f'[act.node]]
    && (act.Handle? || act.Lose? || act.Forget? ==> act.peer in f && act.peer in f[act.node].readers)
    && var n, n' := f[act.node], f'[act.node];
       match act
       case Local(_, a) => LocalStep(n, n', a)
       case Publish(_) => PublishStep(n, n')
       case Handle(_, j, a) => HandleStep(n, n', f[j].origin.log, j, a)
       case Lose(_, j) => LoseStep(n, n', f[j].origin.log, j)
       case Forget(_, j) => ForgetStep(n, n', j)
  }

  // --------------------------------------------------------------------- a step

  /** What one node may do to its links: move its own origin, or one step on each link it reads. */
  ghost predicate Moves(f: State, i: NodeId, n': Node)
    requires i in f && Shaped(f)
  {
    && n'.readers.Keys == f[i].readers.Keys
    && (n'.origin == f[i].origin || R.OriginStep(f[i].origin, n'.origin))
    && forall j | j in f[i].readers ::
         var log, r, r' := f[j].origin.log, ReplicaOf(f[i], j), ReplicaOf(n', j);
         r' == r || R.ReliableStep(log, r, r') || R.DamagingStep(log, r, r')
  }

  lemma MovesKeepLink(f: State, i: NodeId, n': Node, a: NodeId, b: NodeId)
    requires Shaped(f) && i in f && Moves(f, i, n') && a in f && b in f && a != b
    requires R.Inv(LinkOf(f, a, b))
    ensures b in f[i := n'][a].readers && R.Inv(LinkOf(f[i := n'], a, b))
  {
    var l, l' := LinkOf(f, a, b), LinkOf(f[i := n'], a, b);
    if a == i {
      assert l'.origin == l.origin && l'.replica == ReplicaOf(n', b);
    } else {
      assert l'.replica == l.replica;
    }
    R.NextKeeps(l, l');
  }

  lemma MovesKeepShape(f: State, i: NodeId, n': Node)
    requires Shaped(f) && i in f && Moves(f, i, n') && n'.room.peers.Keys <= f.Keys - {i}
    ensures Shaped(f[i := n'])
  {
    assert f[i := n'].Keys == f.Keys;
  }

  lemma MovesKeepLinks(f: State, i: NodeId, n': Node)
    requires Shaped(f) && LinksInv(f) && i in f && Moves(f, i, n') && Shaped(f[i := n'])
    ensures LinksInv(f[i := n'])
  {
    var f' := f[i := n'];
    forall a, b | a in f' && b in f' && a != b ensures R.Inv(LinkOf(f', a, b)) {
      MovesKeepLink(f, i, n', a, b);
    }
  }

  lemma JoinFollows(n: Node, n': Node, a: P.Step<()>)
    requires NodeInv(n) && LocalStep(n, n', a) && a.Join?
    ensures NodeInv(n') && n'.room.peers == n.room.peers
    ensures n'.origin == n.origin || R.OriginStep(n.origin, n'.origin)
  {
    P.StepAgreesIff(n.room, a);
    if a.socket !in n.room.members { P.JoinLocals(n.room.members, a.socket, a.user); }
  }

  lemma LeaveFollows(n: Node, n': Node, a: P.Step<()>)
    requires NodeInv(n) && LocalStep(n, n', a) && a.Leave?
    ensures NodeInv(n') && n'.room.peers == n.room.peers
    ensures n'.origin == n.origin || R.OriginStep(n.origin, n'.origin)
  {
    P.StepAgreesIff(n.room, a);
    if a.socket in n.room.members { P.LeaveLocals(n.room.members, a.socket); }
  }

  /** Steps other than joins and leaves leave the local users alone. */
  lemma OtherKeepsNode(n: Node, n': Node, a: P.Step<()>)
    requires NodeInv(n) && P.Next(n.room, a, n'.room) && !a.Join? && !a.Leave? && n'.origin.state == n.origin.state
    ensures NodeInv(n')
  {
    P.StepAgreesIff(n.room, a);
  }

  lemma ReapRosters(p: Peers<()>, now: int, j: NodeId)
    ensures RosterOf(Reap(p, now), j) == if j in p && !Fresh(p[j], now) then map[] else RosterOf(p, j)
  {
  }

  lemma SweepMoves(f: State, i: NodeId, n': Node, a: P.Step<()>)
    requires Shaped(f) && i in f && LocalStep(f[i], n', a) && a.Sweep?
    ensures Moves(f, i, n') && n'.room.peers.Keys <= f[i].room.peers.Keys
  {
    var n, p := f[i], f[i].room.peers;
    forall j | j in n.readers
      ensures ReplicaOf(n', j) == ReplicaOf(n, j) || R.DamagingStep(f[j].origin.log, ReplicaOf(n, j), ReplicaOf(n', j)) {
      ReapRosters(p, a.now, j);
    }
  }

  lemma HandleReplica(n: Node, n': Node, log: seq<R.Msg<UserId, ()>>, j: NodeId, a: P.Step<()>)
    requires j in n.readers && HandleStep(n, n', log, j, a)
    ensures R.ReliableStep(log, ReplicaOf(n, j), ReplicaOf(n', j))
    ensures n'.origin == n.origin && n'.readers.Keys == n.readers.Keys
    ensures forall k | k in n.readers && k != j :: ReplicaOf(n', k) == ReplicaOf(n, k)
    ensures n'.room.peers.Keys <= n.room.peers.Keys + {j}
  {
    var m := log[n.readers[j].pos];
    if m.Other? || (m.Live? && !R.Accepts(n.readers[j].last, m.stamp)) {
    } else {
      HandlerPeers(n.room, a, j);
      HandlerRosters(n.room, a, j);
      if m.Live? && m.event.Put? { assert m.event.value == (); }
    }
  }

  lemma HandleMoves(f: State, i: NodeId, j: NodeId, n': Node, a: P.Step<()>)
    requires Shaped(f) && i in f && j in f && j in f[i].readers && HandleStep(f[i], n', f[j].origin.log, j, a)
    ensures Moves(f, i, n') && n'.room.peers.Keys <= f[i].room.peers.Keys + {j}
  {
    HandleReplica(f[i], n', f[j].origin.log, j, a);
    OneLinkMoves(f, i, j, n');
  }

  lemma OneLinkMoves(f: State, i: NodeId, j: NodeId, n': Node)
    requires Shaped(f) && i in f && j in f && j in f[i].readers
    requires n'.origin == f[i].origin && n'.readers.Keys == f[i].readers.Keys
    requires R.ReliableStep(f[j].origin.log, ReplicaOf(f[i], j), ReplicaOf(n', j))
    requires forall k | k in f[i].readers && k != j :: ReplicaOf(n', k) == ReplicaOf(f[i], k)
    ensures Moves(f, i, n') && MovesSafely(f, i, n')
  {
  }

  ghost predicate Handler(r: P.Room<()>, a: P.Step<()>, j: NodeId) {
    && P.Legal(r, a) && (a.RemoteAdded? || a.RemoteRemoved? || a.RemoteSnapshot? || a.StaleSnapshot?)
    && a.origin == j
  }

  function PeersAfter(p: Peers<()>, a: P.Step<()>): Peers<()> {
    match a
    case RemoteAdded(n, u, info, _, now) => AddLive(p, n, u, info, now)
    case RemoteRemoved(n, u, _, now) => RemoveLive(p, n, u, now)
    case RemoteSnapshot(n, ms, _, _, now) => InsertSnapshot(p, n, ms, now)
    case StaleSnapshot(n, now) => Touch(p, n, now)
    case _ => p
  }

  lemma HandlerPeers(r: P.Room<()>, a: P.Step<()>, j: NodeId)
    requires Handler(r, a, j)
    ensures P.Do(r, a).members == r.members && P.Do(r, a).peers == PeersAfter(r.peers, a)
  {
  }

  /** A handler for peer `j` touches only `j`'s roster, and in the way the link's step says. */
  lemma HandlerRosters(r: P.Room<()>, a: P.Step<()>, j: NodeId)
    requires Handler(r, a, j)
    ensures
      var p := PeersAfter(r.peers, a);
      && p.Keys <= r.peers.Keys + {j}
      && (forall k | k != j :: RosterOf(p, k) == RosterOf(r.peers, k))
      && RosterOf(p, j) ==
           match a
           case RemoteAdded(_, u, _, _, _) => RosterOf(r.peers, j)[u := ()]
           case RemoteRemoved(_, u, _, _) => RosterOf(r.peers, j) - {u}
           case RemoteSnapshot(_, ms, _, _, _) => ms
           case _ => RosterOf(r.peers, j)
  {
    match a
    case RemoteAdded(_, u, info, _, _) => assert info == ();
    case _ =>
  }

  lemma LocalMoves(f: State, i: NodeId, n': Node, a: P.Step<()>)
    requires Shaped(f) && i in f && NodeInv(f[i]) && LocalStep(f[i], n', a)
    ensures Moves(f, i, n') && NodeInv(n') && n'.room.peers.Keys <= f[i].room.peers.Keys
  {
    if a.Join? {
      JoinFollows(f[i], n', a);
    } else if a.Leave? {
      LeaveFollows(f[i], n', a);
    } else {
      OtherKeepsNode(f[i], n', a);
      if a.Sweep? { SweepMoves(f, i, n', a); }
    }
  }

  lemma LoseMoves(f: State, i: NodeId, n': Node, j: NodeId)
    requires Shaped(f) && i in f && j in f && j in f[i].readers && LoseStep(f[i], n', f[j].origin.log, j)
    ensures Moves(f, i, n')
  {
    LoseReplica(f[i], n', f[j].origin.log, j);
  }

  lemma LoseReplica(n: Node, n': Node, log: seq<R.Msg<UserId, ()>>, j: NodeId)
    requires j in n.readers && LoseStep(n, n', log, j)
    ensures R.ReliableStep(log, ReplicaOf(n, j), ReplicaOf(n', j)) || R.DamagingStep(log, ReplicaOf(n, j), ReplicaOf(n', j))
    ensures forall k | k in n.readers && k != j :: ReplicaOf(n', k) == ReplicaOf(n, k)
  {
    var r := ReplicaOf(n, j);
    if log[r.pos].Live? {
      assert ReplicaOf(n', j) == r.(pos := r.pos + 1, intact := false);
    } else {
      assert ReplicaOf(n', j) == r.(pos := r.pos + 1);
    }
  }

  lemma ForgetMoves(f: State, i: NodeId, n': Node, j: NodeId)
    requires Shaped(f) && i in f && j in f && j in f[i].readers && ForgetStep(f[i], n', j)
    ensures Moves(f, i, n')
  {
    assert R.DamagingStep(f[j].origin.log, ReplicaOf(f[i], j), ReplicaOf(n', j));
  }

  lemma NextMoves(f: State, f': State, act: Action)
    requires Shaped(f) && Next(f, f', act) && NodeInv(f[act.node])
    ensures Moves(f, act.node, f'[act.node]) && NodeInv(f'[act.node])
    ensures f'[act.node].room.peers.Keys <= f.Keys - {act.node}
  {
    var i := act.node;
    if act.Local? {
      LocalMoves(f, i, f'[i], act.step);
    } else if act.Handle? {
      HandleMoves(f, i, act.peer, f'[i], act.step);
      if f'[i].room != f[i].room { OtherKeepsNode(f[i], f'[i], act.step); }
    } else if act.Lose? {
      LoseMoves(f, i, f'[i], act.peer);
    } else if act.Forget? {
      ForgetMoves(f, i, f'[i], act.peer);
    }
  }

  lemma NextKeeps(f: State, f': State, act: Action)
    requires Inv(f) && Next(f, f', act)
    ensures Inv(f')
  {
    var i := act.node;
    NextMoves(f, f', act);
    MovesKeepShape(f, i, f'[i]);
    MovesKeepLinks(f, i, f'[i]);
  }

  // ----------------------------------------------------------------------- runs

  ghost predicate IsRun(run: seq<State>, acts: seq<Action>) {
    |run| == |acts| + 1 &&
    forall i, j {:trigger Next(run[i], run[j], acts[i])} | 0 <= i && j == i + 1 < |run| :: Next(run[i], run[j], acts[i])
  }

  lemma InitInv(f: State)
    requires Init(f)
    ensures Inv(f)
  {
    forall i, j | i in f && j in f && i != j ensures R.Inv(LinkOf(f, i, j)) {
      var l := LinkOf(f, i, j);
      assert f[j].origin.state == map[] && f[i].readers[j] == Reader(0, 0, true);
      R.RunKeepsInv([l], 0);
    }
    forall i | i in f ensures NodeInv(f[i]) {
      assert P.Locals(f[i].room) == {};
    }
  }

  lemma {:induction false} RunInv(run: seq<State>, acts: seq<Action>, k: nat)
    requires IsRun(run, acts) && Init(run[0]) && k <= |acts|
    ensures Inv(run[k])
  {
    if k == 0 {
      InitInv(run[0]);
    } else {
      RunInv(run, acts, k - 1);
      var step := Next(run[k - 1], run[k], acts[k - 1]);
      assert step;
      NextKeeps(run[k - 1], run[k], acts[k - 1]);
    }
  }

  /** Everyone subscribed anywhere in the fleet. */
  function Everyone(f: State): set<UserId> {
    set k, u | k in f && u in P.Locals(f[k].room) :: u
  }

  /** Node `i` has nothing left to read and no loss left unrepaired. */
  ghost predicate CaughtUp(f: State, i: NodeId)
    requires i in f && Shaped(f)
  {
    forall j | j in f && j != i :: R.Drained(LinkOf(f, i, j)) && f[i].readers[j].intact
  }

  lemma CaughtUpKnowsEveryone(f: State, i: NodeId)
    requires Inv(f) && i in f && CaughtUp(f, i)
    ensures P.Truth(f[i].room) == Everyone(f)
  {
    var p := f[i].room.peers;
    forall j | j in f && j != i ensures RosterOf(p, j).Keys == P.Locals(f[j].room) {
      R.DrainedIntactIsEqual(LinkOf(f, i, j));
      assert NodeInv(f[j]);
    }
    forall u | u in Announced(p) ensures u in Everyone(f) {
      var j :| j in p && u in p[j].members;
      assert j in f && j != i && u in RosterOf(p, j);
    }
    forall u | u in Everyone(f) ensures u in P.Truth(f[i].room) {
      var k :| k in f && u in P.Locals(f[k].room);
      if k != i {
        assert u in RosterOf(p, k);
        assert k in p && u in p[k].members;
      }
    }
  }

  /**
   Fleet-wide agreement: over every run of joins, leaves, live events, snapshots
   taken outside the lock, losses, sweeps and forgotten numbers on any number of
   nodes, every un-kicked client of a node that has caught up shows exactly the
   users subscribed anywhere in the fleet.
   */
  lemma EveryClientSeesEveryone(run: seq<State>, acts: seq<Action>, i: NodeId, s: P.SocketId)
    requires IsRun(run, acts) && Init(run[0])
    requires i in run[|acts|] && Shaped(run[|acts|]) && CaughtUp(run[|acts|], i)
    requires run[|acts|][i].room.expired == [] && s in run[|acts|][i].room.sent
    ensures P.ViewOf(run[|acts|][i].room.sent[s]) == Everyone(run[|acts|])
  {
    var f := run[|acts|];
    RunInv(run, acts, |acts|);
    CaughtUpKnowsEveryone(f, i);
    assert NodeInv(f[i]);
  }

  // -------------------------------------------------------- runs without losses

  /** No live event lost, no number forgotten, no roster reaped that still names someone. */
  ghost predicate Dependable(f: State, act: Action) {
    match act
    case Lose(i, j) =>
      && i in f && j in f && j in f[i].readers
      && f[i].readers[j].pos < |f[j].origin.log| && !f[j].origin.log[f[i].readers[j].pos].Live?
    case Forget(_, _) => false
    case Local(i, Sweep(_, now)) =>
      i in f && forall j | j in f[i].room.peers && !Fresh(f[i].room.peers[j], now) :: f[i].room.peers[j].members == map[]
    case _ => true
  }

  ghost predicate MovesSafely(f: State, i: NodeId, n': Node)
    requires i in f && Shaped(f)
  {
    && n'.readers.Keys == f[i].readers.Keys
    && (n'.origin == f[i].origin || R.OriginStep(f[i].origin, n'.origin))
    && forall j | j in f[i].readers ::
         ReplicaOf(n', j) == ReplicaOf(f[i], j) || R.ReliableStep(f[j].origin.log, ReplicaOf(f[i], j), ReplicaOf(n', j))
  }

  lemma SafeSweep(n: Node, n': Node, a: P.Step<()>)
    requires LocalStep(n, n', a) && a.Sweep?
    requires forall j | j in n.room.peers && !Fresh(n.room.peers[j], a.now) :: n.room.peers[j].members == map[]
    ensures n'.readers.Keys == n.readers.Keys && forall j | j in n.readers :: ReplicaOf(n', j) == ReplicaOf(n, j)
  {
    forall j | j in n.readers ensures ReplicaOf(n', j) == ReplicaOf(n, j) {
      ReapRosters(n.room.peers, a.now, j);
    }
  }

  lemma SameReaders(n: Node, n': Node)
    requires n'.readers == n.readers && n'.room.peers == n.room.peers
    ensures forall j | j in n.readers :: ReplicaOf(n', j) == ReplicaOf(n, j)
  {
  }

  lemma QuietKeepsPeers(n: Node, n': Node, a: P.Step<()>)
    requires LocalStep(n, n', a) && !a.Sweep? && !a.Join? && !a.Leave?
    ensures n'.room.peers == n.room.peers && n'.readers == n.readers && n'.origin == n.origin
  {
  }

  lemma SafeLocal(f: State, i: NodeId, n': Node, a: P.Step<()>)
    requires Shaped(f) && i in f && NodeInv(f[i]) && LocalStep(f[i], n', a) && Dependable(f, Local(i, a))
    ensures MovesSafely(f, i, n')
  {
    if a.Sweep? {
      SafeSweep(f[i], n', a);
    } else {
      if a.Join? {
        JoinFollows(f[i], n', a);
      } else if a.Leave? {
        LeaveFollows(f[i], n', a);
      } else {
        QuietKeepsPeers(f[i], n', a);
      }
      SameReaders(f[i], n');
    }
  }

  lemma SafeLose(f: State, i: NodeId, n': Node, j: NodeId)
    requires Shaped(f) && i in f && j in f && j in f[i].readers && LoseStep(f[i], n', f[j].origin.log, j)
    requires Dependable(f, Lose(i, j))
    ensures MovesSafely(f, i, n')
  {
    var r := ReplicaOf(f[i], j);
    assert ReplicaOf(n', j) == r.(pos := r.pos + 1);
    LoseReplica(f[i], n', f[j].origin.log, j);
  }

  lemma SafeHandle(f: State, i: NodeId, j: NodeId, n': Node, a: P.Step<()>)
    requires Shaped(f) && i in f && j in f && j in f[i].readers && HandleStep(f[i], n', f[j].origin.log, j, a)
    ensures MovesSafely(f, i, n')
  {
    HandleReplica(f[i], n', f[j].origin.log, j, a);
    OneLinkMoves(f, i, j, n');
  }

  lemma NextMovesSafely(f: State, f': State, act: Action)
    requires Shaped(f) && Next(f, f', act) && Dependable(f, act) && NodeInv(f[act.node])
    ensures MovesSafely(f, act.node, f'[act.node])
  {
    var i := act.node;
    if act.Local? {
      SafeLocal(f, i, f'[i], act.step);
    } else if act.Handle? {
      SafeHandle(f, i, act.peer, f'[i], act.step);
    } else if act.Lose? {
      SafeLose(f, i, f'[i], act.peer);
    }
  }

  ghost predicate LinksSynced(f: State)
    requires Shaped(f)
  {
    forall i, j | i in f && j in f && i != j :: R.Synced(LinkOf(f, i, j))
  }

  lemma SafeKeepsLink(f: State, i: NodeId, n': Node, a: NodeId, b: NodeId)
    requires Shaped(f) && i in f && MovesSafely(f, i, n') && a in f && b in f && a != b
    requires R.Synced(LinkOf(f, a, b))
    ensures b in f[i := n'][a].readers && R.Synced(LinkOf(f[i := n'], a, b))
  {
    var l, l' := LinkOf(f, a, b), LinkOf(f[i := n'], a, b);
    if a == i {
      assert l'.origin == l.origin && l'.replica == ReplicaOf(n', b);
    } else {
      assert l'.replica == l.replica;
    }
    R.ReliableKeepsSynced(l, l');
  }

  lemma SafeKeepsLinks(f: State, i: NodeId, n': Node)
    requires Shaped(f) && LinksSynced(f) && i in f && MovesSafely(f, i, n') && Shaped(f[i := n'])
    ensures LinksSynced(f[i := n'])
  {
    var f' := f[i := n'];
    forall a, b | a in f' && b in f' && a != b ensures R.Synced(LinkOf(f', a, b)) {
      SafeKeepsLink(f, i, n', a, b);
    }
  }

  lemma NextKeepsSynced(f: State, f': State, act: Action)
    requires act.node in f && Shaped(f) && NodeInv(f[act.node]) && Shaped(f') && LinksSynced(f) && Next(f, f', act) && Dependable(f, act)
    ensures LinksSynced(f')
  {
    NextMovesSafely(f, f', act);
    SafeKeepsLinks(f, act.node, f'[act.node]);
  }

  lemma InitSynced(f: State)
    requires Init(f)
    ensures LinksSynced(f)
  {
    InitInv(f);
    forall i, j | i in f && j in f && i != j ensures R.Synced(LinkOf(f, i, j)) {
      assert f[i].readers[j] == Reader(0, 0, true);
      assert R.Inv(LinkOf(f, i, j));
    }
  }

  ghost predicate DependableNext(f: State, f': State, act: Action) {
    Next(f, f', act) && Dependable(f, act)
  }

  ghost predicate IsDependableRun(run: seq<State>, acts: seq<Action>) {
    |run| == |acts| + 1 &&
    forall i, j {:trigger DependableNext(run[i], run[j], acts[i])} | 0 <= i && j == i + 1 < |run| ::
      DependableNext(run[i], run[j], acts[i])
  }

  lemma DependableIsRun(run: seq<State>, acts: seq<Action>)
    requires IsDependableRun(run, acts)
    ensures IsRun(run, acts)
  {
    forall i, j | 0 <= i && j == i + 1 < |run| ensures Next(run[i], run[j], acts[i]) {
      var step := DependableNext(run[i], run[j], acts[i]);
      assert step;
    }
  }

  lemma DependableKeepsSynced(f: State, f': State, act: Action)
    requires Inv(f) && LinksSynced(f) && DependableNext(f, f', act)
    ensures Inv(f') && LinksSynced(f')
  {
    NextKeeps(f, f', act);
    NextKeepsSynced(f, f', act);
  }

  lemma {:induction false} RunSynced(run: seq<State>, acts: seq<Action>, k: nat)
    requires IsDependableRun(run, acts) && Init(run[0]) && k <= |acts|
    ensures Inv(run[k]) && LinksSynced(run[k])
  {
    if k == 0 {
      InitInv(run[0]);
      InitSynced(run[0]);
    } else {
      RunSynced(run, acts, k - 1);
      var step := DependableNext(run[k - 1], run[k], acts[k - 1]);
      assert step;
      DependableKeepsSynced(run[k - 1], run[k], acts[k - 1]);
    }
  }

  /** Without losses, an empty bus alone makes every client everywhere show everyone. */
  lemma DependableFleetConverges(run: seq<State>, acts: seq<Action>, i: NodeId, s: P.SocketId)
    requires IsDependableRun(run, acts) && Init(run[0])
    requires i in run[|acts|] && Shaped(run[|acts|])
    requires forall j | j in run[|acts|] && j != i :: R.Drained(LinkOf(run[|acts|], i, j))
    requires run[|acts|][i].room.expired == [] && s in run[|acts|][i].room.sent
    ensures P.ViewOf(run[|acts|][i].room.sent[s]) == Everyone(run[|acts|])
  {
    var f := run[|acts|];
    RunSynced(run, acts, |acts|);
    forall j | j in f && j != i ensures f[i].readers[j].intact {
      assert R.Synced(LinkOf(f, i, j));
    }
    DependableIsRun(run, acts);
    EveryClientSeesEveryone(run, acts, i, s);
  }
}
