/**
 One presence channel on one node: its local subscribers, the rosters stored for
 its peers, and the frames queued for each subscriber that has not been kicked.
 The question is whether the member set a client computes from its frames is the
 fleet-wide membership this node knows.

 Three details of the handlers matter. Live handlers, joins and leaves decide with
 TTL-filtered rosters, so a user known only from a roster past its TTL is
 invisible to them. Every handler looks the channel up before taking its
 transition lock; `attached` says that the channel it found is still the one
 subscribers are in when the lock is taken. And the answer to a subscribe is
 written directly, ahead of the connection's queue, and an unsubscribe purges
 nothing from that queue: frames of an earlier subscription can arrive after the
 roster of a later one.
 */
module PresenceRoom {
  import opened PeerTable

  type SocketId = string

  // --------------------------------------------------------------------- frames

  /** `subscription_succeeded` with its roster, `member_added`, `member_removed`. */
  datatype Frame = Roster(users: set<UserId>) | Added(user: UserId) | Removed(user: UserId)

  function Show(v: set<UserId>, f: Frame): set<UserId> {
    match f
    case Roster(us) => us
    case Added(u) => v + {u}
    case Removed(u) => v - {u}
  }

  /** The member set a client holds after receiving `fs`. */
  function ViewOf(fs: seq<Frame>): set<UserId> {
    if fs == [] then {} else Show(ViewOf(fs[..|fs| - 1]), fs[|fs| - 1])
  }

  /** What `fs` last say about `u`, if anything. */
  function Says(fs: seq<Frame>, u: UserId): Option<bool> {
    if fs == [] then None
    else match fs[|fs| - 1]
      case Roster(us) => Some(u in us)
      case Added(x) => if x == u then Some(true) else Says(fs[..|fs| - 1], u)
      case Removed(x) => if x == u then Some(false) else Says(fs[..|fs| - 1], u)
  }

  function Elements(s: seq<UserId>): set<UserId> {
    set i | 0 <= i < |s| :: s[i]
  }

  /** `fs` announces exactly the removals `gone` and the additions `come`, in some order. */
  ghost predicate IsDiff(fs: seq<Frame>, gone: set<UserId>, come: set<UserId>) {
    && (forall i | 0 <= i < |fs| :: (fs[i].Removed? && fs[i].user in gone) || (fs[i].Added? && fs[i].user in come))
    && (forall u | u in gone :: Removed(u) in fs)
    && (forall u | u in come :: Added(u) in fs)
  }

  // ----------------------------------------------------------------------- room

  /**
   `sent` is what each un-kicked subscriber has been or will be written, in that
   order, since it joined. `expired` were reaped by GC and are not announced yet.
   `left` are frames still queued for sockets that have left, and `kicked` the
   sockets whose queue overflowed, which are about to be closed.
   */
  datatype Room<V> = Room(
    members: map<SocketId, UserId>,
    peers: Peers<V>,
    sent: map<SocketId, seq<Frame>>,
    expired: seq<UserId>,
    left: map<SocketId, seq<Frame>>,
    kicked: set<SocketId>)

  function Empty<V>(): Room<V> {
    Room(map[], map[], map[], [], map[], {})
  }

  function LeftFor<V>(r: Room<V>, s: SocketId): seq<Frame> {
    if s in r.left then r.left[s] else []
  }

  function Users(members: map<SocketId, UserId>): set<UserId> {
    set s | s in members :: members[s]
  }

  function Locals<V>(r: Room<V>): set<UserId> {
    Users(r.members)
  }

  /** The membership this node knows: local users and everything stored for peers. */
  function Truth<V>(r: Room<V>): set<UserId> {
    Locals(r) + Announced(r.peers)
  }

  /** Every client shows the truth, save for removals GC is about to announce. */
  ghost predicate Agrees<V>(r: Room<V>) {
    Showing(r.sent, Truth(r), Elements(r.expired))
  }

  /** Every client shows `truth` and at most `slack` beyond it. */
  ghost predicate Showing(sent: map<SocketId, seq<Frame>>, truth: set<UserId>, slack: set<UserId>) {
    forall s | s in sent :: truth <= ViewOf(sent[s]) <= truth + slack
  }

  function SendAll(sent: map<SocketId, seq<Frame>>, fs: seq<Frame>, except: Option<SocketId>): map<SocketId, seq<Frame>> {
    map s | s in sent :: if except == Some(s) then sent[s] else sent[s] + fs
  }

  function Broadcast<V>(r: Room<V>, fs: seq<Frame>, except: Option<SocketId>): Room<V> {
    r.(sent := SendAll(r.sent, fs, except))
  }

  // ---------------------------------------------------------------------- steps

  datatype Step<V> =
    | RemoteAdded(origin: NodeId, user: UserId, info: V, attached: bool, now: int)
    | RemoteRemoved(origin: NodeId, user: UserId, attached: bool, now: int)
    | RemoteSnapshot(origin: NodeId, members: map<UserId, V>, frames: seq<Frame>, attached: bool, now: int)
    | StaleSnapshot(origin: NodeId, now: int)
    | Join(socket: SocketId, user: UserId, cap: nat, now: int)
    | Resubscribe(socket: SocketId, drained: nat, now: int)
    | Leave(socket: SocketId, drained: nat, now: int)
    | Drain(socket: SocketId, count: nat)
    | Kick(socket: SocketId)
    | Sweep(stale: seq<UserId>, now: int)
    | AnnounceExpired(attached: bool, now: int)

  function Gone<V>(r: Room<V>, after: Peers<V>): set<UserId> {
    Announced(r.peers) - Announced(after) - Locals(r)
  }

  function Come<V>(r: Room<V>, after: Peers<V>): set<UserId> {
    Announced(after) - Announced(r.peers) - Locals(r)
  }

  /** Local users and those in fresh rosters: what a joiner is told. */
  function Known<V>(r: Room<V>, now: int): set<UserId> {
    Locals(r) + FreshUsers(r.peers, now)
  }

  /** Admission: a user already known is admitted; otherwise the fleet-wide cap decides. */
  predicate Admits<V>(r: Room<V>, u: UserId, cap: nat, now: int) {
    u in Locals(r) || PresentExcluding(r.peers, now, u, None) || |Known(r, now)| < cap
  }

  predicate NoRoster(fs: seq<Frame>) {
    forall i | 0 <= i < |fs| :: !fs[i].Roster?
  }

  /**
   Choices a step may carry: an order for a diff, an order for a sweep, how much
   of a queue has been written. Rosters are written directly, never queued.
   */
  ghost predicate Legal<V>(r: Room<V>, a: Step<V>) {
    match a
    case RemoteSnapshot(n, ms, fs, attached, now) =>
      attached ==> IsDiff(fs, Gone(r, InsertSnapshot(r.peers, n, ms, now)), Come(r, InsertSnapshot(r.peers, n, ms, now)))
    case Resubscribe(s, drained, _) => s in r.sent && drained <= |r.sent[s]|
    case Leave(s, drained, _) => s in r.sent ==> drained <= |r.sent[s]| && NoRoster(r.sent[s][drained..])
    case Drain(s, count) => s in r.left && count <= |r.left[s]|
    case Sweep(stale, now) => Elements(stale) == StaleUsers(r.peers, now)
    case AnnounceExpired(_, _) => r.expired != []
    case _ => true
  }

  function DoRemoteAdded<V>(r: Room<V>, n: NodeId, u: UserId, info: V, attached: bool, now: int): Room<V> {
    var known := (attached && u in Locals(r)) || PresentExcluding(r.peers, now, u, Some(n));
    var r' := r.(peers := AddLive(r.peers, n, u, info, now));
    if !known && attached then Broadcast(r', [Added(u)], None) else r'
  }

  function DoRemoteRemoved<V>(r: Room<V>, n: NodeId, u: UserId, attached: bool, now: int): Room<V> {
    var r' := r.(peers := RemoveLive(r.peers, n, u, now));
    if attached && u !in Locals(r) && !PresentExcluding(r'.peers, now, u, None)
    then Broadcast(r', [Removed(u)], None) else r'
  }

  function DoJoin<V>(r: Room<V>, s: SocketId, u: UserId, cap: nat, now: int): Room<V> {
    if s in r.members || !Admits(r, u, cap, now) then r else Seat(r, s, u, now)
  }

  /** What an admitted joiner is told. */
  function RosterFor<V>(r: Room<V>, u: UserId, now: int): set<UserId> {
    Locals(r) + {u} + FreshUsers(r.peers, now)
  }

  /**
   An admitted new socket: others hear of a user new to the fleet, the joiner
   gets the roster, and after it whatever an earlier subscription left queued.
   */
  function Seat<V>(r: Room<V>, s: SocketId, u: UserId, now: int): Room<V> {
    var known := u in Locals(r) || PresentExcluding(r.peers, now, u, None);
    var others := if known then r.sent else SendAll(r.sent, [Added(u)], Some(s));
    var members := r.members[s := u];
    var own := [Roster(Users(members) + FreshUsers(r.peers, now))] + LeftFor(r, s);
    r.(members := members,
       sent := if s in r.kicked then others - {s} else others[s := own],
       left := r.left - {s})
  }

  /** A repeated subscribe is answered directly, ahead of frames still in the client's queue. */
  function DoResubscribe<V>(r: Room<V>, s: SocketId, drained: nat, now: int): Room<V>
    requires s in r.sent && drained <= |r.sent[s]|
  {
    var fs := r.sent[s];
    r.(sent := r.sent[s := fs[..drained] + [Roster(Locals(r) + FreshUsers(r.peers, now))] + fs[drained..]])
  }

  /** A subscribe: a member that is admitted again is answered, anybody else joins. */
  function DoSubscribe<V>(r: Room<V>, s: SocketId, u: UserId, cap: nat, drained: nat, now: int): Room<V>
    requires s in r.sent ==> drained <= |r.sent[s]|
  {
    if s in r.members && s in r.sent && Admits(r, u, cap, now) then DoResubscribe(r, s, drained, now)
    else DoJoin(r, s, u, cap, now)
  }

  function DoLeave<V>(r: Room<V>, s: SocketId, drained: nat, now: int): Room<V>
    requires s in r.sent ==> drained <= |r.sent[s]|
  {
    if s !in r.members then r
    else
      var u := r.members[s];
      var left := if s in r.sent then r.left[s := r.sent[s][drained..]] else r.left;
      var r' := r.(members := r.members - {s}, sent := r.sent - {s}, left := left);
      if u in Locals(r') || PresentExcluding(r.peers, now, u, None) then r' else Broadcast(r', [Removed(u)], None)
  }

  function DoAnnounceExpired<V>(r: Room<V>, attached: bool, now: int): Room<V>
    requires r.expired != []
  {
    var u, r' := r.expired[0], r.(expired := r.expired[1..]);
    if attached && u !in Locals(r) && u !in FreshUsers(r.peers, now) then Broadcast(r', [Removed(u)], None) else r'
  }

  ghost function Do<V>(r: Room<V>, a: Step<V>): Room<V>
    requires Legal(r, a)
  {
    match a
    case RemoteAdded(n, u, info, attached, now) => DoRemoteAdded(r, n, u, info, attached, now)
    case RemoteRemoved(n, u, attached, now) => DoRemoteRemoved(r, n, u, attached, now)
    case RemoteSnapshot(n, ms, fs, attached, now) =>
      var r' := r.(peers := InsertSnapshot(r.peers, n, ms, now));
      if attached then Broadcast(r', fs, None) else r'
    case StaleSnapshot(n, now) => r.(peers := Touch(r.peers, n, now))
    case Join(s, u, cap, now) => DoJoin(r, s, u, cap, now)
    case Resubscribe(s, drained, now) => DoResubscribe(r, s, drained, now)
    case Leave(s, drained, now) => DoLeave(r, s, drained, now)
    case Drain(s, count) => r.(left := r.left[s := r.left[s][count..]])
    case Kick(s) => r.(sent := r.sent - {s}, kicked := r.kicked + {s})
    case Sweep(stale, now) => r.(peers := Reap(r.peers, now), expired := r.expired + stale)
    case AnnounceExpired(attached, now) => DoAnnounceExpired(r, attached, now)
  }

  // ----------------------------------------------------- when a step is faithful

  /** `u` is stored, but only in rosters past their TTL, and not local. */
  predicate OnlyStale<V>(r: Room<V>, peers: Peers<V>, u: UserId, now: int) {
    u !in Locals(r) && u in Announced(peers) && !PresentExcluding(peers, now, u, None)
  }

  /**
   The joiner ends up right: what an earlier subscription left queued names nobody
   who is not a member, and every member is named last as added there, or not at
   all and then in the roster.
   */
  ghost predicate JoinerRight<V>(r: Room<V>, s: SocketId, u: UserId, now: int) {
    && ViewOf(LeftFor(r, s)) <= Truth(r) + {u} + Elements(r.expired)
    && forall v | v in Truth(r) + {u} ::
         match Says(LeftFor(r, s), v)
         case Some(added) => added
         case None => v in RosterFor(r, u, now)
  }

  /**
   The condition, known before the step, under which it keeps clients in
   agreement. A handler that reached the current channel must not decide about a
   user known only from expired rosters. One that missed it must have had nothing
   to announce: clients show the newcomer already, or its removal is pending anyway.
   */
  ghost predicate Faithful<V>(r: Room<V>, a: Step<V>)
    requires Legal(r, a)
  {
    match a
    case RemoteAdded(_, u, _, attached, _) => attached || forall s | s in r.sent :: u in ViewOf(r.sent[s])
    case RemoteRemoved(n, u, attached, now) =>
      var q := RemoveLive(r.peers, n, u, now);
      r.sent == map[] ||
      (if attached then !OnlyStale(r, q, u, now)
       else u in Locals(r) + Announced(q) || u !in Truth(r) || u in Elements(r.expired))
    case RemoteSnapshot(n, ms, _, attached, now) =>
      var q := InsertSnapshot(r.peers, n, ms, now);
      attached || r.sent == map[] ||
      (Gone(r, q) <= Elements(r.expired) && forall s | s in r.sent :: Come(r, q) <= ViewOf(r.sent[s]))
    case Join(s, u, cap, now) =>
      s in r.members || !Admits(r, u, cap, now) || s in r.kicked || JoinerRight(r, s, u, now)
    case Resubscribe(s, drained, now) =>
      forall v | v in Announced(r.peers) ::
        v in Locals(r) + FreshUsers(r.peers, now) || Says(r.sent[s][drained..], v).Some?
    case Leave(s, _, now) =>
      s !in r.members || r.sent.Keys <= {s} || !OnlyStale(r.(members := r.members - {s}), r.peers, r.members[s], now)
    case AnnounceExpired(attached, now) =>
      r.sent == map[] ||
      (if attached then !OnlyStale(r, r.peers, r.expired[0], now)
       else r.expired[0] in Truth(r) + Elements(r.expired[1..]) || forall s | s in r.sent :: r.expired[0] !in ViewOf(r.sent[s]))
    case _ => true
  }

  // ---------------------------------------------------------------- view algebra

  lemma ViewSnoc(fs: seq<Frame>, f: Frame)
    ensures ViewOf(fs + [f]) == Show(ViewOf(fs), f)
  {
    assert (fs + [f])[..|fs|] == fs;
  }

  lemma {:induction false} ViewDiffAt(a: seq<Frame>, fs: seq<Frame>, gone: set<UserId>, come: set<UserId>, u: UserId)
    requires gone !! come
    requires forall i | 0 <= i < |fs| :: (fs[i].Removed? && fs[i].user in gone) || (fs[i].Added? && fs[i].user in come)
    ensures u in gone && Removed(u) in fs ==> u !in ViewOf(a + fs)
    ensures u in come && Added(u) in fs ==> u in ViewOf(a + fs)
    ensures u !in gone + come ==> (u in ViewOf(a + fs) <==> u in ViewOf(a))
  {
    if fs == [] {
      assert a + fs == a;
    } else {
      var init, f := fs[..|fs| - 1], fs[|fs| - 1];
      ViewDiffAt(a, init, gone, come, u);
      assert a + fs == a + init + [f];
      ViewSnoc(a + init, f);
      assert fs == init + [f];
    }
  }

  lemma ViewDiff(a: seq<Frame>, fs: seq<Frame>, gone: set<UserId>, come: set<UserId>)
    requires gone !! come && IsDiff(fs, gone, come)
    ensures ViewOf(a + fs) == ViewOf(a) - gone + come
  {
    forall u ensures u in ViewOf(a + fs) <==> u in ViewOf(a) - gone + come {
      ViewDiffAt(a, fs, gone, come, u);
    }
  }

  /** The last frames that say something about `u` decide; before them, what came before does. */
  lemma {:induction false} SaysDecides(a: seq<Frame>, b: seq<Frame>, u: UserId)
    ensures u in ViewOf(a + b) <==> match Says(b, u) case Some(added) => added case None => u in ViewOf(a)
  {
    if b == [] {
      assert a + b == a;
    } else {
      var init, f := b[..|b| - 1], b[|b| - 1];
      SaysDecides(a, init, u);
      assert a + b == (a + init) + [f];
      ViewSnoc(a + init, f);
    }
  }

  lemma ShownIsSaid(fs: seq<Frame>, u: UserId)
    ensures u in ViewOf(fs) <==> Says(fs, u) == Some(true)
  {
    SaysDecides([], fs, u);
    assert [] + fs == fs;
  }

  /** A roster, then frames. */
  lemma RosterThen(a: seq<Frame>, us: set<UserId>, b: seq<Frame>, u: UserId)
    ensures u in ViewOf(a + [Roster(us)] + b) <==> match Says(b, u) case Some(added) => added case None => u in us
  {
    SaysDecides(a + [Roster(us)], b, u);
    ViewSnoc(a, Roster(us));
  }

  // -------------------------------------------------------------- what is shown

  lemma ShowAdded(sent: map<SocketId, seq<Frame>>, truth: set<UserId>, slack: set<UserId>, u: UserId, except: Option<SocketId>)
    requires Showing(sent, truth, slack)
    requires except.Some? ==> except.value !in sent
    ensures Showing(SendAll(sent, [Added(u)], except), truth + {u}, slack)
  {
    forall s | s in sent ensures ViewOf(sent[s] + [Added(u)]) == ViewOf(sent[s]) + {u} { ViewSnoc(sent[s], Added(u)); }
  }

  lemma RemovedView(sent: map<SocketId, seq<Frame>>, u: UserId, s: SocketId)
    requires s in sent
    ensures
      var sent' := SendAll(sent, [Removed(u)], None);
      s in sent' && ViewOf(sent'[s]) == ViewOf(sent[s]) - {u}
  {
    ViewSnoc(sent[s], Removed(u));
  }

  /** A removal sent to all is right exactly if nobody listens or the user is gone. */
  lemma ShowRemovedIff(sent: map<SocketId, seq<Frame>>, truth: set<UserId>, slack: set<UserId>, u: UserId,
                       truth': set<UserId>, slack': set<UserId>)
    requires Showing(sent, truth, slack) && truth - {u} <= truth' <= truth && slack - {u} <= slack'
    ensures Showing(SendAll(sent, [Removed(u)], None), truth', slack') <==> sent == map[] || u !in truth'
  {
    var sent' := SendAll(sent, [Removed(u)], None);
    if u !in truth' {
      forall s | s in sent' ensures truth' <= ViewOf(sent'[s]) <= truth' + slack' {
        RemovedView(sent, u, s);
        OneRemoved(ViewOf(sent[s]), truth, slack, u, truth', slack');
      }
    } else if sent != map[] {
      var s :| s in sent;
      RemovedView(sent, u, s);
      assert !(truth' <= ViewOf(sent'[s]));
    }
  }

  lemma OneRemoved(v: set<UserId>, truth: set<UserId>, slack: set<UserId>, u: UserId, truth': set<UserId>, slack': set<UserId>)
    requires truth <= v <= truth + slack && truth - {u} <= truth' <= truth && slack - {u} <= slack' && u !in truth'
    ensures truth' <= v - {u} <= truth' + slack'
  {
  }

  lemma ShowDiff(sent: map<SocketId, seq<Frame>>, truth: set<UserId>, slack: set<UserId>, fs: seq<Frame>,
                 gone: set<UserId>, come: set<UserId>)
    requires Showing(sent, truth, slack) && gone !! come && IsDiff(fs, gone, come)
    ensures Showing(SendAll(sent, fs, None), truth - gone + come, slack)
  {
    forall s | s in sent ensures ViewOf(sent[s] + fs) == ViewOf(sent[s]) - gone + come {
      ViewDiff(sent[s], fs, gone, come);
    }
  }

  // --------------------------------------------------------- one step, both ways

  /** A newcomer that nobody is told about. */
  lemma UntoldIff<V>(r: Room<V>, q: Peers<V>, u: UserId)
    requires Agrees(r) && Announced(q) == Announced(r.peers) + {u}
    ensures Agrees(r.(peers := q)) <==> forall s | s in r.sent :: u in ViewOf(r.sent[s])
  {
    assert Truth(r.(peers := q)) == Truth(r) + {u};
  }

  lemma ToldAgrees<V>(r: Room<V>, q: Peers<V>, u: UserId)
    requires Agrees(r) && Announced(q) == Announced(r.peers) + {u}
    ensures Agrees(Broadcast(r.(peers := q), [Added(u)], None))
  {
    assert Truth(r.(peers := q)) == Truth(r) + {u};
    ShowAdded(r.sent, Truth(r), Elements(r.expired), u, None);
  }

  lemma AddedAgreesIff<V>(r: Room<V>, n: NodeId, u: UserId, info: V, attached: bool, now: int)
    requires Agrees(r)
    ensures Agrees(DoRemoteAdded(r, n, u, info, attached, now)) <==> Faithful(r, RemoteAdded(n, u, info, attached, now))
  {
    var q := AddLive(r.peers, n, u, info, now);
    AddLiveAnnounces(r.peers, n, u, info, now);
    assert PresentExcluding(r.peers, now, u, Some(n)) ==> u in Announced(r.peers);
    UntoldIff(r, q, u);
    ToldAgrees(r, q, u);
  }

  lemma RemovedTruth<V>(r: Room<V>, n: NodeId, u: UserId, now: int)
    ensures
      var q := RemoveLive(r.peers, n, u, now);
      Locals(r) + Announced(q) == if u in Locals(r) + Announced(q) then Truth(r) else Truth(r) - {u}
  {
    RemoveLiveAnnounces(r.peers, n, u, now);
  }

  lemma RemovalToldIff<V>(r: Room<V>, q: Peers<V>, u: UserId)
    requires Agrees(r) && u !in Locals(r) && Announced(r.peers) - {u} <= Announced(q) <= Announced(r.peers)
    ensures Agrees(Broadcast(r.(peers := q), [Removed(u)], None)) <==> r.sent == map[] || u !in Announced(q)
  {
    var T' := Locals(r) + Announced(q);
    assert Truth(r.(peers := q)) == T';
    ShowRemovedIff(r.sent, Truth(r), Elements(r.expired), u, T', Elements(r.expired));
  }

  lemma RemovalUntoldIff<V>(r: Room<V>, q: Peers<V>)
    requires Agrees(r) && Announced(q) <= Announced(r.peers)
    ensures Agrees(r.(peers := q)) <==>
            r.sent == map[] || Truth(r) - (Locals(r) + Announced(q)) <= Elements(r.expired)
  {
    assert Truth(r.(peers := q)) == Locals(r) + Announced(q);
    UnannouncedIff(r.sent, Truth(r), Elements(r.expired), Locals(r) + Announced(q));
  }

  lemma RemovedAgreesIff<V>(r: Room<V>, n: NodeId, u: UserId, attached: bool, now: int)
    requires Agrees(r)
    ensures Agrees(DoRemoteRemoved(r, n, u, attached, now)) <==> Faithful(r, RemoteRemoved(n, u, attached, now))
  {
    var q := RemoveLive(r.peers, n, u, now);
    RemovedTruth(r, n, u, now);
    RemoveLiveAnnounces(r.peers, n, u, now);
    PresentIsAnnounced(q, now, u);
    if attached && u !in Locals(r) && !PresentExcluding(q, now, u, None) {
      RemovalToldIff(r, q, u);
    } else {
      RemovalUntoldIff(r, q);
    }
  }

  /** With nothing sent, losing users is right exactly if nobody listens or each was pending removal anyway. */
  lemma UnannouncedIff(sent: map<SocketId, seq<Frame>>, truth: set<UserId>, slack: set<UserId>, truth': set<UserId>)
    requires Showing(sent, truth, slack) && truth' <= truth
    ensures Showing(sent, truth', slack) <==> sent == map[] || truth - truth' <= slack
  {
    if sent != map[] {
      var s :| s in sent;
      assert truth <= ViewOf(sent[s]) <= truth + slack;
    }
  }

  lemma PresentIsAnnounced<V>(p: Peers<V>, now: int, u: UserId)
    ensures PresentExcluding(p, now, u, None) ==> u in Announced(p)
  {
  }

  lemma SnapshotAgreesIff<V>(r: Room<V>, n: NodeId, ms: map<UserId, V>, fs: seq<Frame>, attached: bool, now: int)
    requires Agrees(r) && Legal(r, RemoteSnapshot(n, ms, fs, attached, now))
    ensures Agrees(Do(r, RemoteSnapshot(n, ms, fs, attached, now))) <==> Faithful(r, RemoteSnapshot(n, ms, fs, attached, now))
  {
    var r' := Do(r, RemoteSnapshot(n, ms, fs, attached, now));
    var q := InsertSnapshot(r.peers, n, ms, now);
    var gone, come := Gone(r, q), Come(r, q);
    assert Truth(r') == Truth(r) - gone + come;
    assert gone <= Truth(r) && come !! Truth(r);
    if attached {
      ShowDiff(r.sent, Truth(r), Elements(r.expired), fs, gone, come);
    } else {
      assert r'.sent == r.sent;
      MissedDiffIff(r.sent, Truth(r), Elements(r.expired), gone, come);
    }
  }

  lemma MissedDiffIff(sent: map<SocketId, seq<Frame>>, truth: set<UserId>, slack: set<UserId>, gone: set<UserId>, come: set<UserId>)
    requires Showing(sent, truth, slack) && gone <= truth && come !! truth
    ensures Showing(sent, truth - gone + come, slack) <==>
            sent == map[] || (gone <= slack && forall s | s in sent :: come <= ViewOf(sent[s]))
  {
    if sent != map[] {
      var s :| s in sent;
      assert truth <= ViewOf(sent[s]) <= truth + slack;
    }
  }

  lemma JoinLocals(m: map<SocketId, UserId>, s: SocketId, u: UserId)
    requires s !in m
    ensures Users(m[s := u]) == Users(m) + {u}
  {
    var m' := m[s := u];
    assert forall t | t in m :: m'[t] == m[t];
    assert m'[s] == u;
  }

  lemma SeatAgreesIff<V>(r: Room<V>, s: SocketId, u: UserId, now: int)
    requires Agrees(r) && s !in r.members
    ensures Agrees(Seat(r, s, u, now)) <==> s in r.kicked || JoinerRight(r, s, u, now)
  {
    var r', T, E := Seat(r, s, u, now), Truth(r), Elements(r.expired);
    JoinLocals(r.members, s, u);
    assert Truth(r') == T + {u};
    forall t | t in r'.sent && t != s ensures T + {u} <= ViewOf(r'.sent[t]) <= T + {u} + E {
      SeatOther(r, s, u, now, t);
    }
    if s !in r.kicked {
      assert r'.sent[s] == [Roster(RosterFor(r, u, now))] + LeftFor(r, s);
      JoinerRightIff(r, s, u, now);
    }
  }

  /** What the joiner shows is the roster, overruled by what it is still sent. */
  lemma JoinerRightIff<V>(r: Room<V>, s: SocketId, u: UserId, now: int)
    ensures
      var own := [Roster(RosterFor(r, u, now))] + LeftFor(r, s);
      JoinerRight(r, s, u, now) <==> Truth(r) + {u} <= ViewOf(own) <= Truth(r) + {u} + Elements(r.expired)
  {
    var X, left, T, E := RosterFor(r, u, now), LeftFor(r, s), Truth(r) + {u}, Elements(r.expired);
    var own := [Roster(X)] + left;
    assert [] + [Roster(X)] + left == own;
    FreshWithinAnnounced(r.peers, now);
    assert X <= T;
    forall v
      ensures v in ViewOf(own) <==> match Says(left, v) case Some(added) => added case None => v in X
      ensures v in ViewOf(left) <==> Says(left, v) == Some(true) {
      RosterThen([], X, left, v);
      ShownIsSaid(left, v);
    }
  }

  lemma SeatOther<V>(r: Room<V>, s: SocketId, u: UserId, now: int, t: SocketId)
    requires Agrees(r) && t in r.sent && t != s
    ensures
      var r' := Seat(r, s, u, now);
      t in r'.sent && Truth(r) + {u} <= ViewOf(r'.sent[t]) <= Truth(r) + {u} + Elements(r.expired)
  {
    PresentIsAnnounced(r.peers, now, u);
    ViewSnoc(r.sent[t], Added(u));
  }

  /** Exactly when a join, first or repeated, leaves every client right. */
  lemma JoinAgreesIff<V>(r: Room<V>, s: SocketId, u: UserId, cap: nat, now: int)
    requires Agrees(r)
    ensures Agrees(DoJoin(r, s, u, cap, now)) <==> Faithful(r, Join(s, u, cap, now))
  {
    if s !in r.members { SeatAgreesIff(r, s, u, now); }
  }

  /** With nothing left queued the joiner is right exactly if no roster past its TTL is the only one to name someone. */
  lemma FirstJoinRightIff<V>(r: Room<V>, s: SocketId, u: UserId, now: int)
    requires LeftFor(r, s) == []
    ensures JoinerRight(r, s, u, now) <==> Announced(r.peers) <= RosterFor(r, u, now)
  {
    assert ViewOf([]) == {};
  }

  lemma FreshWithinAnnounced<V>(p: Peers<V>, now: int)
    ensures FreshUsers(p, now) <= Announced(p)
  {
  }

  /** Who is known: users with a socket here, and users some peer named in the last fifteen seconds. */
  lemma KnownIff<V>(r: Room<V>, now: int, v: UserId)
    ensures v in Known(r, now) <==>
            || (exists t | t in r.members :: r.members[t] == v)
            || (exists n | n in r.peers :: v in r.peers[n].members && now <= r.peers[n].insertedAt + 15)
  {
    if v in FreshUsers(r.peers, now) {
      var n :| n in r.peers && Fresh(r.peers[n], now) && v in r.peers[n].members;
    }
  }

  /** A new socket gets in if and only if its user is known already or the known users are fewer than the limit. */
  lemma AdmittedIff<V>(r: Room<V>, s: SocketId, u: UserId, cap: nat, now: int)
    requires s !in r.members
    ensures s in DoJoin(r, s, u, cap, now).members <==> u in Known(r, now) || |Known(r, now)| < cap
    ensures s !in DoJoin(r, s, u, cap, now).members ==> DoJoin(r, s, u, cap, now) == r
  {
    FreshIsPresent(r.peers, now, u);
    assert Seat(r, s, u, now).members == r.members[s := u];
  }

  lemma SeatKnown<V>(r: Room<V>, s: SocketId, u: UserId, now: int)
    requires s !in r.members
    ensures Known(Seat(r, s, u, now), now) == Known(r, now) + {u}
  {
    JoinLocals(r.members, s, u);
  }

  /** An admitted new user never takes the fleet-wide member count the node knows past the cap. */
  lemma JoinWithinCap<V>(r: Room<V>, s: SocketId, u: UserId, cap: nat, now: int)
    ensures
      var r' := DoJoin(r, s, u, cap, now);
      Known(r', now) == Known(r, now) || |Known(r', now)| <= cap
  {
    if s !in r.members && Admits(r, u, cap, now) {
      SeatKnown(r, s, u, now);
      FreshIsPresent(r.peers, now, u);
      if u in Known(r, now) { assert Known(r, now) + {u} == Known(r, now); }
    }
  }

  lemma ResubscribeAgreesIff<V>(r: Room<V>, s: SocketId, drained: nat, now: int)
    requires Agrees(r) && Legal(r, Resubscribe(s, drained, now))
    ensures Agrees(DoResubscribe(r, s, drained, now)) <==> Faithful(r, Resubscribe(s, drained, now))
  {
    var r' := DoResubscribe(r, s, drained, now);
    var a, b, X := r.sent[s][..drained], r.sent[s][drained..], Locals(r) + FreshUsers(r.peers, now);
    FreshWithinAnnounced(r.peers, now);
    assert X <= Truth(r) == Truth(r');
    assert a + b == r.sent[s];
    assert r'.sent[s] == a + [Roster(X)] + b;
    forall u ensures u in ViewOf(r'.sent[s]) <==> if Says(b, u).Some? then u in ViewOf(r.sent[s]) else u in X {
      RosterThen(a, X, b, u);
      SaysDecides(a, b, u);
    }
  }

  lemma LeaveLocals(m: map<SocketId, UserId>, s: SocketId)
    requires s in m
    ensures Users(m) == Users(m - {s}) + {m[s]}
  {
    var m' := m - {s};
    assert forall t | t in m' :: m'[t] == m[t];
    assert forall t | t in m && t != s :: t in m';
  }

  lemma LeaveAgreesIff<V>(r: Room<V>, s: SocketId, drained: nat, now: int)
    requires Agrees(r) && Legal(r, Leave(s, drained, now))
    ensures Agrees(DoLeave(r, s, drained, now)) <==> Faithful(r, Leave(s, drained, now))
  {
    if s in r.members {
      var r', u, sent := DoLeave(r, s, drained, now), r.members[s], r.sent - {s};
      var L', T, E := Users(r.members - {s}), Truth(r), Elements(r.expired);
      LeaveLocals(r.members, s);
      PresentIsAnnounced(r.peers, now, u);
      assert T == L' + Announced(r.peers) + {u};
      assert Truth(r') == L' + Announced(r.peers);
      assert Showing(sent, T, E);
      assert sent == map[] <==> r.sent.Keys <= {s} by {
        assert sent.Keys == r.sent.Keys - {s};
        assert sent == map[] <==> sent.Keys == {};
      }
      if u in L' || PresentExcluding(r.peers, now, u, None) {
        assert r'.sent == sent && Truth(r') == T;
      } else {
        ShowRemovedIff(sent, T, E, u, Truth(r'), E);
        assert r'.sent == SendAll(sent, [Removed(u)], None);
      }
    }
  }

  lemma ElementsHead(s: seq<UserId>)
    requires s != []
    ensures Elements(s) == {s[0]} + Elements(s[1..])
  {
    forall x | x in Elements(s) ensures x in {s[0]} + Elements(s[1..]) {
      var i :| 0 <= i < |s| && s[i] == x;
      if i > 0 { assert s[1..][i - 1] == x; }
    }
    forall x | x in Elements(s[1..]) ensures x in Elements(s) {
      var i :| 0 <= i < |s[1..]| && s[1..][i] == x;
      assert s[i + 1] == x;
    }
  }

  lemma ElementsConcat(s: seq<UserId>, t: seq<UserId>)
    ensures Elements(s + t) == Elements(s) + Elements(t)
  {
    forall x | x in Elements(s) + Elements(t) ensures x in Elements(s + t) {
      if x in Elements(s) {
        var i :| 0 <= i < |s| && s[i] == x;
        assert (s + t)[i] == x;
      } else {
        var i :| 0 <= i < |t| && t[i] == x;
        assert (s + t)[|s| + i] == x;
      }
    }
  }

  /** The removal is announced. */
  lemma AnnouncedIff<V>(r: Room<V>, u: UserId, rest: seq<UserId>)
    requires Agrees(r) && r.expired == [u] + rest && u !in Locals(r)
    ensures Agrees(Broadcast(r.(expired := rest), [Removed(u)], None)) <==> r.sent == map[] || u !in Announced(r.peers)
  {
    ElementsHead(r.expired);
    assert r.expired[1..] == rest;
    ShowRemovedIff(r.sent, Truth(r), Elements(r.expired), u, Truth(r), Elements(rest));
  }

  /** The removal is dropped. */
  lemma UnannouncedExpiryIff<V>(r: Room<V>, u: UserId, rest: seq<UserId>)
    requires Agrees(r) && r.expired == [u] + rest
    ensures Agrees(r.(expired := rest)) <==>
            u in Truth(r) + Elements(rest) || forall s | s in r.sent :: u !in ViewOf(r.sent[s])
  {
    ElementsHead(r.expired);
    assert r.expired[1..] == rest;
    UnannouncedDebtIff(r.sent, Truth(r), Elements(rest), u);
  }

  lemma AnnounceAgreesIff<V>(r: Room<V>, attached: bool, now: int)
    requires Agrees(r) && r.expired != []
    ensures Agrees(DoAnnounceExpired(r, attached, now)) <==> Faithful(r, AnnounceExpired(attached, now))
  {
    var u, rest := r.expired[0], r.expired[1..];
    assert r.expired == [u] + rest;
    FreshIsPresent(r.peers, now, u);
    PresentIsAnnounced(r.peers, now, u);
    if attached && u !in Locals(r) && u !in FreshUsers(r.peers, now) {
      AnnouncedIff(r, u, rest);
    } else {
      UnannouncedExpiryIff(r, u, rest);
    }
  }

  lemma UnannouncedDebtIff(sent: map<SocketId, seq<Frame>>, truth: set<UserId>, rest: set<UserId>, u: UserId)
    requires Showing(sent, truth, {u} + rest)
    ensures Showing(sent, truth, rest) <==> u in truth + rest || forall s | s in sent :: u !in ViewOf(sent[s])
  {
  }

  lemma SweepAgrees<V>(r: Room<V>, stale: seq<UserId>, now: int)
    requires Agrees(r) && Legal(r, Sweep(stale, now))
    ensures Agrees(Do(r, Sweep(stale, now)))
  {
    FreshIsPresent(r.peers, now, "");
    ElementsConcat(r.expired, stale);
  }

  // ----------------------------------------------------------------- whole runs

  /** From agreement, a step keeps every un-kicked client in agreement if and only if it is faithful. */
  lemma StepAgreesIff<V>(r: Room<V>, a: Step<V>)
    requires Agrees(r) && Legal(r, a)
    ensures Agrees(Do(r, a)) <==> Faithful(r, a)
  {
    match a
    case RemoteAdded(n, u, info, attached, now) => AddedAgreesIff(r, n, u, info, attached, now);
    case RemoteRemoved(n, u, attached, now) => RemovedAgreesIff(r, n, u, attached, now);
    case RemoteSnapshot(n, ms, fs, attached, now) => SnapshotAgreesIff(r, n, ms, fs, attached, now);
    case StaleSnapshot(n, now) =>
      TouchAnnounces(r.peers, n, now);
      assert Locals(Do(r, a)) == Locals(r);
    case Join(s, u, cap, now) => JoinAgreesIff(r, s, u, cap, now);
    case Resubscribe(s, drained, now) => ResubscribeAgreesIff(r, s, drained, now);
    case Leave(s, drained, now) => LeaveAgreesIff(r, s, drained, now);
    case Drain(s, count) => assert Locals(Do(r, a)) == Locals(r);
    case Kick(s) => assert Locals(Do(r, a)) == Locals(r);
    case Sweep(stale, now) => SweepAgrees(r, stale, now);
    case AnnounceExpired(attached, now) => AnnounceAgreesIff(r, attached, now);
  }

  /** A faithful step. */
  ghost predicate Next<V>(r: Room<V>, a: Step<V>, r': Room<V>) {
    Legal(r, a) && Faithful(r, a) && r' == Do(r, a)
  }

  ghost predicate IsRun<V>(rooms: seq<Room<V>>, steps: seq<Step<V>>) {
    |rooms| == |steps| + 1 && forall i | 0 <= i < |steps| :: Next(rooms[i], steps[i], rooms[i + 1])
  }

  /**
   Client view agreement: over every run of joins, leaves, live events,
   snapshots and sweeps from an empty room, whenever no removal is waiting to be
   announced, each un-kicked client shows exactly local users plus stored ones.
   */
  lemma {:induction false} ClientViewAgreement<V>(rooms: seq<Room<V>>, steps: seq<Step<V>>, s: SocketId)
    requires IsRun(rooms, steps) && rooms[0] == Empty()
    requires s in rooms[|steps|].sent && rooms[|steps|].expired == []
    ensures ViewOf(rooms[|steps|].sent[s]) == Truth(rooms[|steps|])
  {
    RunAgrees(rooms, steps, |steps|);
  }

  lemma {:induction false} RunAgrees<V>(rooms: seq<Room<V>>, steps: seq<Step<V>>, i: nat)
    requires IsRun(rooms, steps) && Agrees(rooms[0]) && i <= |steps|
    ensures Agrees(rooms[i])
  {
    if i > 0 {
      RunAgrees(rooms, steps, i - 1);
      var step := Next(rooms[i - 1], steps[i - 1], rooms[i]);
      assert step;
      StepAgreesIff(rooms[i - 1], steps[i - 1]);
    }
  }

  // ---------------------------------------------------------------------- kicked

  predicate CutOff<V>(r: Room<V>, s: SocketId) {
    s in r.kicked && s !in r.sent
  }

  lemma SentKeeps<V>(r: Room<V>, fs: seq<Frame>, except: Option<SocketId>, s: SocketId)
    requires CutOff(r, s)
    ensures CutOff(Broadcast(r, fs, except), s)
  {
  }

  lemma JoinKeepsCutOff<V>(r: Room<V>, t: SocketId, u: UserId, cap: nat, now: int, s: SocketId)
    requires CutOff(r, s)
    ensures CutOff(DoJoin(r, t, u, cap, now), s)
  {
    SentKeeps(r, [Added(u)], Some(t), s);
  }

  lemma LeaveKeepsCutOff<V>(r: Room<V>, t: SocketId, drained: nat, now: int, s: SocketId)
    requires CutOff(r, s) && (t in r.sent ==> drained <= |r.sent[t]|)
    ensures CutOff(DoLeave(r, t, drained, now), s)
  {
  }

  lemma HandlersKeepCutOff<V>(r: Room<V>, a: Step<V>, s: SocketId)
    requires CutOff(r, s) && Legal(r, a) && !a.Join? && !a.Leave?
    ensures CutOff(Do(r, a), s)
  {
    match a
    case RemoteAdded(n, u, info, attached, now) => SentKeeps(r.(peers := AddLive(r.peers, n, u, info, now)), [Added(u)], None, s);
    case RemoteRemoved(n, u, attached, now) => SentKeeps(r.(peers := RemoveLive(r.peers, n, u, now)), [Removed(u)], None, s);
    case RemoteSnapshot(n, ms, fs, attached, now) => SentKeeps(r.(peers := InsertSnapshot(r.peers, n, ms, now)), fs, None, s);
    case AnnounceExpired(attached, now) => SentKeeps(r.(expired := r.expired[1..]), [Removed(r.expired[0])], None, s);
    case _ =>
  }

  lemma CutOffStays<V>(r: Room<V>, a: Step<V>, s: SocketId)
    requires Legal(r, a) && CutOff(r, s)
    ensures CutOff(Do(r, a), s)
  {
    if a.Join? {
      JoinKeepsCutOff(r, a.socket, a.user, a.cap, a.now, s);
    } else if a.Leave? {
      LeaveKeepsCutOff(r, a.socket, a.drained, a.now, s);
    } else {
      HandlersKeepCutOff(r, a, s);
    }
  }

  /** Any step, faithful or not. */
  ghost predicate AnyNext<V>(r: Room<V>, a: Step<V>, r': Room<V>) {
    Legal(r, a) && r' == Do(r, a)
  }

  /** A kicked socket is written nothing ever again, whatever it or anybody else does, re-joining included. */
  lemma {:induction false} KickedForGood<V>(rooms: seq<Room<V>>, steps: seq<Step<V>>, s: SocketId, k: nat, l: nat)
    requires |rooms| == |steps| + 1 && k < l < |rooms| && steps[k] == Kick(s)
    requires forall i, j {:trigger AnyNext(rooms[i], steps[i], rooms[j])} | 0 <= i && j == i + 1 < |rooms| ::
               AnyNext(rooms[i], steps[i], rooms[j])
    ensures CutOff(rooms[l], s)
  {
    var step := AnyNext(rooms[l - 1], steps[l - 1], rooms[l]);
    assert step;
    if l > k + 1 {
      KickedForGood(rooms, steps, s, k, l - 1);
      CutOffStays(rooms[l - 1], steps[l - 1], s);
    }
  }

  /** Frames left queued are written in order: writing some and then more is writing all of these at once. */
  lemma DrainsInOrder<V>(r: Room<V>, s: SocketId, a: nat, b: nat)
    requires s in r.left && a + b <= |r.left[s]|
    ensures
      var r' := Do(r, Drain(s, a));
      && Legal(r', Drain(s, b)) && Do(r', Drain(s, b)) == Do(r, Drain(s, a + b))
      && r'.left[s] == r.left[s][a..] && Do(r, Drain(s, 0)) == r
  {
    assert r.left[s][a..][b..] == r.left[s][a + b..] && r.left[s][0..] == r.left[s];
    assert r.left[s := r.left[s]] == r.left;
  }

  // ------------------------------------------------------------- only news is sent

  /** Someone has named `u` in the last fifteen seconds, `except` aside. */
  ghost predicate NamedBy<V>(p: Peers<V>, u: UserId, now: int, except: Option<NodeId>) {
    exists n | n in p :: Some(n) != except && now <= p[n].insertedAt + 15 && u in p[n].members
  }

  /**
   A frame is news: an added user is a member now and was none before, as far as
   this node and peers other than the one that speaks knew; a removed user is none now.
   */
  ghost predicate IsNews<V>(r: Room<V>, r': Room<V>, speaker: Option<NodeId>, now: int, f: Frame) {
    match f
    case Added(u) => u in Truth(r') && u !in Locals(r) && !NamedBy(r.peers, u, now, speaker)
    case Removed(u) => u !in Locals(r') && !NamedBy(r'.peers, u, now, None)
    case Roster(_) => false
  }

  ghost predicate OnlyNews<V>(r: Room<V>, r': Room<V>, speaker: Option<NodeId>, now: int, s: SocketId) {
    s in r.sent && s in r'.sent ==>
      && r.sent[s] <= r'.sent[s]
      && forall i | |r.sent[s]| <= i < |r'.sent[s]| :: IsNews(r, r', speaker, now, r'.sent[s][i])
  }

  lemma NamedIsPresent<V>(p: Peers<V>, u: UserId, now: int, except: Option<NodeId>)
    ensures NamedBy(p, u, now, except) <==> PresentExcluding(p, now, u, except)
  {
  }

  lemma HandledIsNews<V>(r: Room<V>, a: Step<V>, s: SocketId)
    requires Legal(r, a) && (a.RemoteAdded? || a.RemoteRemoved?)
    ensures OnlyNews(r, Do(r, a), if a.RemoteAdded? then Some(a.origin) else None, a.now, s)
  {
    match a
    case RemoteAdded(n, u, info, _, now) =>
      NamedIsPresent(r.peers, u, now, Some(n));
      AddLiveAnnounces(r.peers, n, u, info, now);
    case RemoteRemoved(n, u, _, now) => NamedIsPresent(RemoveLive(r.peers, n, u, now), u, now, None);
  }

  lemma SnapshotIsNews<V>(r: Room<V>, a: Step<V>, s: SocketId)
    requires Legal(r, a) && a.RemoteSnapshot?
    ensures OnlyNews(r, Do(r, a), None, a.now, s)
  {
    var r', q := Do(r, a), InsertSnapshot(r.peers, a.origin, a.members, a.now);
    if a.attached && s in r.sent {
      forall i | 0 <= i < |a.frames| ensures IsNews(r, r', None, a.now, a.frames[i]) {
        var f := a.frames[i];
        if f.Added? {
          assert f.user in Come(r, q);
        } else {
          assert f.user in Gone(r, q);
        }
      }
      assert r'.sent[s] == r.sent[s] + a.frames;
    }
  }

  lemma OneFrame<V>(r: Room<V>, r': Room<V>, now: int, s: SocketId, fs: seq<Frame>)
    requires s in r.sent && s in r'.sent ==> r'.sent[s] == r.sent[s] + fs
    requires |fs| <= 1 && (fs != [] ==> IsNews(r, r', None, now, fs[0]))
    ensures OnlyNews(r, r', None, now, s)
  {
  }

  lemma JoinIsNews<V>(r: Room<V>, t: SocketId, u: UserId, cap: nat, now: int, s: SocketId)
    requires t != s
    ensures OnlyNews(r, DoJoin(r, t, u, cap, now), None, now, s)
  {
    if t in r.members || !Admits(r, u, cap, now) {
      OneFrame(r, r, now, s, []);
    } else {
      var r' := Seat(r, t, u, now);
      var fs := if u in Locals(r) || PresentExcluding(r.peers, now, u, None) then [] else [Added(u)];
      NamedIsPresent(r.peers, u, now, None);
      JoinLocals(r.members, t, u);
      assert u in Truth(r');
      OneFrame(r, r', now, s, fs);
    }
  }

  lemma LeaveIsNews<V>(r: Room<V>, t: SocketId, drained: nat, now: int, s: SocketId)
    requires t != s && (t in r.sent ==> drained <= |r.sent[t]|)
    ensures OnlyNews(r, DoLeave(r, t, drained, now), None, now, s)
  {
    if t !in r.members {
      OneFrame(r, r, now, s, []);
    } else {
      var r', u := DoLeave(r, t, drained, now), r.members[t];
      var fs := if u in Locals(r') || PresentExcluding(r.peers, now, u, None) then [] else [Removed(u)];
      NamedIsPresent(r.peers, u, now, None);
      assert r'.peers == r.peers && r'.members == r.members - {t};
      OneFrame(r, r', now, s, fs);
    }
  }

  lemma ExpiryIsNews<V>(r: Room<V>, a: Step<V>, s: SocketId)
    requires Legal(r, a) && a.AnnounceExpired?
    ensures OnlyNews(r, Do(r, a), None, a.now, s)
  {
    NamedIsPresent(r.peers, r.expired[0], a.now, None);
    FreshIsPresent(r.peers, a.now, r.expired[0]);
  }

  /** Whatever happens, a client that neither joins nor is answered is sent news and nothing else, after what it was sent before. */
  lemma SentIsNews<V>(r: Room<V>, a: Step<V>, s: SocketId, now: int)
    requires Legal(r, a) && !((a.Join? || a.Leave? || a.Resubscribe?) && a.socket == s)
    requires !a.Drain? && !a.Kick? ==> now == a.now
    ensures OnlyNews(r, Do(r, a), if a.RemoteAdded? then Some(a.origin) else None, now, s)
  {
    if a.RemoteAdded? || a.RemoteRemoved? {
      HandledIsNews(r, a, s);
    } else if a.RemoteSnapshot? {
      SnapshotIsNews(r, a, s);
    } else if a.Join? {
      JoinIsNews(r, a.socket, a.user, a.cap, a.now, s);
    } else if a.Leave? {
      LeaveIsNews(r, a.socket, a.drained, a.now, s);
    } else if a.AnnounceExpired? {
      ExpiryIsNews(r, a, s);
    }
  }

  // ------------------------------------------------------------ counterexamples

  /** A room with client "s" of user "b", and user "u" stored for peers "m" and "n" at time 0. */
  function SharedUser(): Room<()> {
    Room(map["s" := "b"], map["m" := Entry(0, map["u" := ()]), "n" := Entry(0, map["u" := ()])],
         map["s" := [Roster({"b"}), Added("u")]], [], map[], {})
  }

  lemma SharedUserAgrees()
    ensures Agrees(SharedUser()) && Truth(SharedUser()) == {"b", "u"}
  {
    var r := SharedUser();
    assert r.members["s"] == "b" && r.peers["m"].members == map["u" := ()];
    assert Users(r.members) == {"b"};
    assert "m" in r.peers && "u" in r.peers["m"].members;
    assert Announced(r.peers) == {"u"};
    ViewSnoc([], Roster({"b"}));
    ViewSnoc([Roster({"b"})], Added("u"));
    assert [] + [Roster({"b"})] == [Roster({"b"})];
    assert [Roster({"b"})] + [Added("u")] == r.sent["s"];
  }

  /** At time 20 both rosters are past their TTL; "n" reports that "u" left; clients drop "u", still stored for "m". */
  lemma StaleRosterFails()
    ensures Agrees(SharedUser()) && !Agrees(DoRemoteRemoved(SharedUser(), "n", "u", true, 20))
  {
    SharedUserAgrees();
    var r := SharedUser();
    var q := RemoveLive(r.peers, "n", "u", 20);
    assert q["m"] == r.peers["m"] && "u" in q["m"].members;
    assert OnlyStale(r, q, "u", 20);
    assert r.sent != map[] by { assert "s" in r.sent; }
    RemovedAgreesIff(r, "n", "u", true, 20);
  }

  /** The channel was looked up before the join created it, so "v" is stored and nobody hears of it. */
  lemma MissedChannelFails()
    ensures Agrees(SharedUser()) && !Agrees(DoRemoteAdded(SharedUser(), "n", "v", (), false, 0))
  {
    SharedUserAgrees();
    var r := SharedUser();
    assert r.sent != map[] by { assert "s" in r.sent; }
    AddedAgreesIff(r, "n", "v", (), false, 0);
    assert ViewOf(r.sent["s"]) == {"b", "u"};
  }

  const QUEUED: map<SocketId, seq<Frame>> := map["s" := [Added("v")]]

  function Joined(): Room<()> {
    Room(map["s" := "b"], map[], map["s" := [Roster({"b"})]], [], map[], {})
  }

  function Hearing(): Room<()> {
    Room(map["s" := "b"], map["n" := Entry(0, map["v" := ()])], map["s" := [Roster({"b"}), Added("v")]], [], map[], {})
  }

  function Left(): Room<()> {
    Room(map[], map["n" := Entry(0, map["v" := ()])], map[], [], QUEUED, {})
  }

  function Deserted(): Room<()> {
    Room(map[], map["n" := Entry(0, map[])], map[], [], QUEUED, {})
  }

  lemma OneUser()
    ensures Users(map["s" := "b"]) == {"b"}
  {
    assert map["s" := "b"]["s"] == "b";
  }

  lemma FirstJoins()
    ensures Next(Empty(), Join("s", "b", 10, 0), Joined())
  {
    var r0: Room<()> := Empty();
    OneUser();
    assert Locals(r0) == {} && Announced(r0.peers) == {} && FreshUsers(r0.peers, 0) == {};
    assert [Roster({"b"})] + [] == [Roster({"b"})];
    FirstJoinRightIff(r0, "s", "b", 0);
  }

  lemma ThenHears()
    ensures Next(Joined(), RemoteAdded("n", "v", (), true, 0), Hearing())
  {
    OneUser();
    assert Locals(Joined()) == {"b"};
    assert [Roster({"b"})] + [Added("v")] == [Roster({"b"}), Added("v")];
  }

  lemma ThenLeaves()
    ensures Next(Hearing(), Leave("s", 1, 0), Left())
  {
    assert [Roster({"b"}), Added("v")][1..] == [Added("v")];
    assert map["s" := "b"] - {"s"} == map[];
    assert Hearing().sent - {"s"} == map[];
  }

  lemma ThenTheOtherLeaves()
    ensures DoRemoteRemoved(Left(), "n", "v", true, 0) == Deserted()
  {
    assert map["v" := ()] - {"v"} == map[];
  }

  /**
   A client joins, hears of "v", leaves with that frame still queued, and joins
   again after "v" has left: the new roster is written first, the old frame after
   it, and the client shows "v" for good.
   */
  lemma RejoinFails() returns (rooms: seq<Room<()>>, steps: seq<Step<()>>, last: Room<()>)
    ensures IsRun(rooms, steps) && rooms[0] == Empty() && last == DoJoin(rooms[|steps|], "s", "b", 10, 0)
    ensures last.expired == [] && "s" in last.sent
    ensures ViewOf(last.sent["s"]) == {"b", "v"} && Truth(last) == {"b"}
  {
    var a0, a1 := Join("s", "b", 10, 0), RemoteAdded("n", "v", (), true, 0);
    var a2, a3 := Leave("s", 1, 0), RemoteRemoved("n", "v", true, 0);
    rooms, steps := [Empty(), Joined(), Hearing(), Left(), Deserted()], [a0, a1, a2, a3];
    FirstJoins();
    ThenHears();
    ThenLeaves();
    ThenTheOtherLeaves();
    UnheardRemoval(Left(), "n", "v", 0);
    FourSteps(Empty(), a0, Joined(), a1, Hearing(), a2, Left(), a3, Deserted());
    last := Rejoined();
    Rejoins();
    RejoinedIsWrong();
  }

  lemma UnheardRemoval<V>(r: Room<V>, n: NodeId, u: UserId, now: int)
    requires r.sent == map[]
    ensures Next(r, RemoteRemoved(n, u, true, now), DoRemoteRemoved(r, n, u, true, now))
  {
  }

  lemma FourSteps<V>(r0: Room<V>, a0: Step<V>, r1: Room<V>, a1: Step<V>, r2: Room<V>, a2: Step<V>, r3: Room<V>, a3: Step<V>, r4: Room<V>)
    requires Next(r0, a0, r1) && Next(r1, a1, r2) && Next(r2, a2, r3) && Next(r3, a3, r4)
    ensures IsRun([r0, r1, r2, r3, r4], [a0, a1, a2, a3])
  {
  }

  function Rejoined(): Room<()> {
    Room(map["s" := "b"], map["n" := Entry(0, map[])], map["s" := [Roster({"b"}), Added("v")]], [], map[], {})
  }

  lemma Rejoins()
    ensures DoJoin(Deserted(), "s", "b", 10, 0) == Rejoined()
  {
    var r := Deserted();
    OneUser();
    assert Locals(r) == {} && FreshUsers(r.peers, 0) == {};
    assert Known(r, 0) == {};
    assert [Roster({"b"})] + [Added("v")] == [Roster({"b"}), Added("v")];
    assert QUEUED - {"s"} == map[];
  }

  lemma RejoinedIsWrong()
    ensures ViewOf(Rejoined().sent["s"]) == {"b", "v"} && Truth(Rejoined()) == {"b"}
  {
    OneUser();
    assert Announced(Rejoined().peers) == {};
    ViewSnoc([], Roster({"b"}));
    ViewSnoc([Roster({"b"})], Added("v"));
    assert [] + [Roster({"b"})] == [Roster({"b"})];
    assert [Roster({"b"})] + [Added("v")] == Rejoined().sent["s"];
  }
}
