/**
 How long a peer's roster lives. Whatever a peer says refreshes what is stored for
 it; a sweep takes away the rosters of peers that have been silent for more than
 fifteen seconds, and no others.
 */
module PeerLiveness {
  import opened PeerTable
  import P = PresenceRoom
  import W = Watchlist

  /** What a peer may say; a roster that is not news is `Stale`, and a session snapshot is first of all `Alive`. */
  datatype News<V> =
    | Snapshot(members: map<UserId, V>)
    | Stale
    | Alive
    | Added(user: UserId, info: V)
    | Removed(user: UserId)

  function Hear<V>(p: Peers<V>, n: NodeId, news: News<V>, now: int): Peers<V> {
    match news
    case Snapshot(members) => InsertSnapshot(p, n, members, now)
    case Stale => Touch(p, n, now)
    case Alive => p[n := Entry(now, RosterOf(p, n))]
    case Added(u, info) => AddLive(p, n, u, info, now)
    case Removed(u) => RemoveLive(p, n, u, now)
  }

  /** The roster that the peer's own words make of `roster`. */
  function Spelled<V>(roster: map<UserId, V>, news: News<V>): map<UserId, V> {
    match news
    case Snapshot(members) => members
    case Stale => roster
    case Alive => roster
    case Added(u, info) => roster[u := info]
    case Removed(u) => roster - {u}
  }

  /** A peer not stored yet is stored from now on. */
  predicate Creates<V>(news: News<V>) {
    news.Snapshot? || news.Alive? || news.Added?
  }

  lemma HearOthers<V>(p: Peers<V>, n: NodeId, news: News<V>, now: int, m: NodeId)
    requires m != n
    ensures m in Hear(p, n, news, now) <==> m in p
    ensures m in p ==> Hear(p, n, news, now)[m] == p[m]
  {
  }

  lemma HearStores<V>(p: Peers<V>, n: NodeId, news: News<V>, now: int)
    ensures n in Hear(p, n, news, now) <==> n in p || Creates(news)
    ensures RosterOf(Hear(p, n, news, now), n) == Spelled(RosterOf(p, n), news)
    ensures n in Hear(p, n, news, now) ==> Hear(p, n, news, now)[n].insertedAt == now
  {
    if news.Removed? && n !in p { assert RosterOf(p, n) - {news.user} == map[]; }
  }

  /** After news at `now`, sweeps keep the peer's roster for fifteen seconds exactly. */
  lemma KeptForFifteenSeconds<V>(p: Peers<V>, n: NodeId, news: News<V>, now: int, t: int)
    requires n in p || Creates(news)
    ensures
      var q := Hear(p, n, news, now);
      && (n in Reap(q, t) <==> t <= now + 15)
      && (n in Reap(q, t) ==> Reap(q, t)[n].members == Spelled(RosterOf(p, n), news))
      && forall u | u in Spelled(RosterOf(p, n), news) ::
           if t <= now + 15 then PresentExcluding(q, t, u, None) && PresentExcluding(Reap(q, t), t, u, None)
           else u in StaleUsers(q, t)
  {
    var q := Hear(p, n, news, now);
    HearStores(p, n, news, now);
    forall u | u in Spelled(RosterOf(p, n), news)
      ensures if t <= now + 15 then PresentExcluding(q, t, u, None) && PresentExcluding(Reap(q, t), t, u, None)
              else u in StaleUsers(q, t) {
      assert n in q && u in q[n].members;
      if t <= now + 15 { assert n in Reap(q, t) && Fresh(q[n], t); }
    }
  }

  // ----------------------------------------------------------------------- runs

  datatype Step<V> = Hears(node: NodeId, news: News<V>, now: int) | Sweep(now: int)

  function Do<V>(p: Peers<V>, a: Step<V>): Peers<V> {
    match a
    case Hears(n, news, now) => Hear(p, n, news, now)
    case Sweep(now) => Reap(p, now)
  }

  function After<V>(p: Peers<V>, steps: seq<Step<V>>): Peers<V> {
    if steps == [] then p else Do(After(p, steps[..|steps| - 1]), steps[|steps| - 1])
  }

  /** The roster that the words of `n` make of `roster`, one after another. */
  function SpelledAll<V>(roster: map<UserId, V>, steps: seq<Step<V>>, n: NodeId): map<UserId, V> {
    if steps == [] then roster
    else
      var before, a := SpelledAll(roster, steps[..|steps| - 1], n), steps[|steps| - 1];
      if a.Hears? && a.node == n then Spelled(before, a.news) else before
  }

  ghost predicate InTime<V>(steps: seq<Step<V>>) {
    forall i, j | 0 <= i < j < |steps| :: steps[i].now <= steps[j].now
  }

  predicate HeardFrom<V>(steps: seq<Step<V>>, n: NodeId, i: nat) {
    i < |steps| && steps[i].Hears? && steps[i].node == n
  }

  /** From step `i` on, every sweep comes within fifteen seconds of some word of `n`. */
  ghost predicate NeverSilent<V>(steps: seq<Step<V>>, n: NodeId, i: nat) {
    forall k | i < k < |steps| && steps[k].Sweep? ::
      exists j | i <= j < k :: HeardFrom(steps, n, j) && steps[k].now <= steps[j].now + 15
  }

  lemma FrontNeverSilent<V>(steps: seq<Step<V>>, n: NodeId, i: nat)
    requires steps != [] && NeverSilent(steps, n, i)
    ensures NeverSilent(steps[..|steps| - 1], n, i)
  {
    var front := steps[..|steps| - 1];
    forall k | i < k < |front| && front[k].Sweep?
      ensures exists j | i <= j < k :: HeardFrom(front, n, j) && front[k].now <= front[j].now + 15 {
      assert steps[k] == front[k];
      var j :| i <= j < k && HeardFrom(steps, n, j) && steps[k].now <= steps[j].now + 15;
      assert HeardFrom(front, n, j) && front[j] == steps[j];
    }
  }

  /** The peer is stored, and no word of it since step `i` is newer than its roster. */
  ghost predicate Refreshed<V>(q: Peers<V>, steps: seq<Step<V>>, n: NodeId, i: nat) {
    n in q && forall j | i <= j && HeardFrom(steps, n, j) :: steps[j].now <= q[n].insertedAt
  }

  lemma SpelledSnoc<V>(roster: map<UserId, V>, steps: seq<Step<V>>, i: nat, n: NodeId)
    requires i < |steps|
    ensures
      var k := |steps| - 1;
      SpelledAll(roster, steps[i..], n) ==
        if HeardFrom(steps, n, k) then Spelled(SpelledAll(roster, steps[..k][i..], n), steps[k].news)
        else SpelledAll(roster, steps[..k][i..], n)
  {
    var k := |steps| - 1;
    assert steps[i..][..k - i] == steps[..k][i..] && steps[i..][k - i] == steps[k];
  }

  /** One step, for a stored peer that speaks, or that is not silent for too long. */
  lemma StepKeepsEntry<V>(p: Peers<V>, a: Step<V>, n: NodeId)
    requires n in p && (a.Sweep? ==> a.now <= p[n].insertedAt + 15)
    ensures n in Do(p, a)
    ensures
      var e := Do(p, a)[n];
      if a.Hears? && a.node == n then e.members == Spelled(p[n].members, a.news) && e.insertedAt == a.now else e == p[n]
  {
    if a.Hears? {
      if a.node == n { HearStores(p, n, a.news, a.now); } else { HearOthers(p, a.node, a.news, a.now, n); }
    }
  }

  lemma SweepIsSoon<V>(q: Peers<V>, steps: seq<Step<V>>, n: NodeId, i: nat)
    requires i + 1 < |steps| && NeverSilent(steps, n, i) && Refreshed(q, steps[..|steps| - 1], n, i)
    ensures steps[|steps| - 1].Sweep? ==> steps[|steps| - 1].now <= q[n].insertedAt + 15
  {
    var k := |steps| - 1;
    if steps[k].Sweep? {
      var j :| i <= j < k && HeardFrom(steps, n, j) && steps[k].now <= steps[j].now + 15;
      assert HeardFrom(steps[..k], n, j) && steps[..k][j] == steps[j];
    }
  }

  lemma StepKeepsRefreshed<V>(q: Peers<V>, steps: seq<Step<V>>, n: NodeId, i: nat)
    requires InTime(steps) && i + 1 < |steps| && NeverSilent(steps, n, i) && Refreshed(q, steps[..|steps| - 1], n, i)
    ensures Refreshed(Do(q, steps[|steps| - 1]), steps, n, i)
  {
    var k := |steps| - 1;
    SweepIsSoon(q, steps, n, i);
    StepKeepsEntry(q, steps[k], n);
    forall j | i <= j && HeardFrom(steps, n, j) ensures steps[j].now <= Do(q, steps[k])[n].insertedAt {
      if j < k { assert HeardFrom(steps[..k], n, j) && steps[..k][j] == steps[j]; }
      assert steps[j].now <= steps[k].now;
    }
  }

  lemma {:induction false} RunRefreshed<V>(p: Peers<V>, steps: seq<Step<V>>, n: NodeId, i: nat)
    requires InTime(steps) && HeardFrom(steps, n, i) && Creates(steps[i].news) && NeverSilent(steps, n, i)
    ensures Refreshed(After(p, steps), steps, n, i)
    decreases |steps|
  {
    var k := |steps| - 1;
    if i == k {
      HearStores(After(p, steps[..k]), n, steps[i].news, steps[i].now);
    } else {
      FrontNeverSilent(steps, n, i);
      RunRefreshed(p, steps[..k], n, i);
      StepKeepsRefreshed(After(p, steps[..k]), steps, n, i);
    }
  }

  lemma FirstWord<V>(p: Peers<V>, steps: seq<Step<V>>, n: NodeId)
    requires steps != [] && HeardFrom(steps, n, |steps| - 1)
    ensures
      var k := |steps| - 1;
      RosterOf(After(p, steps), n) == SpelledAll(RosterOf(After(p, steps[..k]), n), steps[k..], n)
  {
    var k := |steps| - 1;
    var roster := RosterOf(After(p, steps[..k]), n);
    HearStores(After(p, steps[..k]), n, steps[k].news, steps[k].now);
    SpelledSnoc(roster, steps, k, n);
    assert steps[..k][k..] == [];
  }

  lemma NextWord<V>(p: Peers<V>, steps: seq<Step<V>>, n: NodeId, i: nat, roster: map<UserId, V>)
    requires i + 1 < |steps| && NeverSilent(steps, n, i) && Refreshed(After(p, steps[..|steps| - 1]), steps[..|steps| - 1], n, i)
    requires RosterOf(After(p, steps[..|steps| - 1]), n) == SpelledAll(roster, steps[..|steps| - 1][i..], n)
    ensures RosterOf(After(p, steps), n) == SpelledAll(roster, steps[i..], n)
  {
    var k := |steps| - 1;
    var before := After(p, steps[..k]);
    SweepIsSoon(before, steps, n, i);
    StepKeepsEntry(before, steps[k], n);
    SpelledSnoc(roster, steps, i, n);
  }

  lemma {:induction false} RosterFromWords<V>(p: Peers<V>, steps: seq<Step<V>>, n: NodeId, i: nat)
    requires InTime(steps) && HeardFrom(steps, n, i) && Creates(steps[i].news) && NeverSilent(steps, n, i)
    ensures RosterOf(After(p, steps), n) == SpelledAll(RosterOf(After(p, steps[..i]), n), steps[i..], n)
    decreases |steps|
  {
    var k := |steps| - 1;
    if i == k {
      FirstWord(p, steps, n);
    } else {
      var front := steps[..k];
      FrontNeverSilent(steps, n, i);
      RunRefreshed(p, front, n, i);
      RosterFromWords(p, front, n, i);
      assert front[..i] == steps[..i];
      NextWord(p, steps, n, i, RosterOf(After(p, steps[..i]), n));
    }
  }

  /**
   A peer heard at least every fifteen seconds is never reaped: from the step that
   stored it, its roster is what its own words make of it, whatever the others say
   and however often a sweep runs.
   */
  lemma NeverReaped<V>(p: Peers<V>, steps: seq<Step<V>>, n: NodeId, i: nat)
    requires InTime(steps) && HeardFrom(steps, n, i) && Creates(steps[i].news) && NeverSilent(steps, n, i)
    ensures n in After(p, steps)
    ensures After(p, steps)[n].members == SpelledAll(RosterOf(After(p, steps[..i]), n), steps[i..], n)
  {
    RunRefreshed(p, steps, n, i);
    RosterFromWords(p, steps, n, i);
  }

  /** Conversely: why a peer is stored, and the word it was last refreshed by. */
  lemma {:induction false} StoredBecause<V>(steps: seq<Step<V>>, n: NodeId) returns (i: nat, j: nat)
    requires n in After(map[], steps)
    ensures i <= j && HeardFrom(steps, n, i) && Creates(steps[i].news) && NeverSilent(steps, n, i)
    ensures HeardFrom(steps, n, j) && After(map[], steps)[n].insertedAt == steps[j].now
    decreases |steps|
  {
    var k := |steps| - 1;
    var front, a := steps[..k], steps[k];
    var before: Peers<V> := After(map[], front);
    if a.Hears? && a.node == n {
      HearStores(before, n, a.news, a.now);
      j := k;
      if n in before {
        var j' := 0;
        i, j' := StoredBecause(front, n);
        assert HeardFrom(steps, n, i);
      } else {
        i := k;
      }
    } else {
      if a.Hears? { HearOthers(before, a.node, a.news, a.now, n); }
      i, j := StoredBecause(front, n);
      assert HeardFrom(steps, n, i) && HeardFrom(steps, n, j);
    }
    ExtendNeverSilent(steps, n, i, j);
  }

  lemma ExtendNeverSilent<V>(steps: seq<Step<V>>, n: NodeId, i: nat, j: nat)
    requires steps != [] && i <= j
    requires i < |steps| - 1 ==> NeverSilent(steps[..|steps| - 1], n, i)
    requires steps[|steps| - 1].Sweep? && i < |steps| - 1 ==>
               j < |steps| - 1 && HeardFrom(steps, n, j) && steps[|steps| - 1].now <= steps[j].now + 15
    ensures NeverSilent(steps, n, i)
  {
    var front := steps[..|steps| - 1];
    forall k | i < k < |steps| && steps[k].Sweep?
      ensures exists j | i <= j < k :: HeardFrom(steps, n, j) && steps[k].now <= steps[j].now + 15 {
      if k < |front| {
        assert front[k] == steps[k];
        var j' :| i <= j' < k && HeardFrom(front, n, j') && front[k].now <= front[j'].now + 15;
        assert HeardFrom(steps, n, j') && front[j'] == steps[j'];
      }
    }
  }

  /** Exactly which peers are stored after any run from an empty table. */
  lemma StoredIff<V>(steps: seq<Step<V>>, n: NodeId)
    requires InTime(steps)
    ensures n in After(map[], steps) <==>
            exists i: nat :: HeardFrom(steps, n, i) && Creates(steps[i].news) && NeverSilent(steps, n, i)
  {
    if n in After(map[], steps) {
      var i, j := StoredBecause(steps, n);
    }
    if i: nat :| HeardFrom(steps, n, i) && Creates(steps[i].news) && NeverSilent(steps, n, i) {
      NeverReaped(map[], steps, n, i);
    }
  }
  // ------------------------------------------------- presence rooms and sessions

  /** What a step of a presence channel is to the table of rosters. */
  function RoomSteps<V>(a: P.Step<V>): seq<Step<V>> {
    match a
    case RemoteAdded(n, u, info, _, now) => [Hears(n, Added(u, info), now)]
    case RemoteRemoved(n, u, _, now) => [Hears(n, Removed(u), now)]
    case RemoteSnapshot(n, members, _, _, now) => [Hears(n, Snapshot(members), now)]
    case StaleSnapshot(n, now) => [Hears(n, Stale, now)]
    case Sweep(_, now) => [Sweep(now)]
    case _ => []
  }

  function WatchSteps(a: W.Step): seq<Step<()>> {
    match a
    case RemoteOnline(n, u, now) => [Hears(n, Added(u, ()), now)]
    case RemoteOffline(n, u, now) => [Hears(n, Removed(u), now)]
    case Heard(n, now) => [Hears(n, Alive, now)]
    case Sweep(_, now) => [Sweep(now)]
    case _ => []
  }

  lemma AfterOne<V>(p: Peers<V>, a: Step<V>)
    ensures After(p, [a]) == Do(p, a) && After(p, []) == p
  {
    assert [a][..0] == [];
  }

  lemma {:induction false} AfterConcat<V>(p: Peers<V>, a: seq<Step<V>>, b: seq<Step<V>>)
    ensures After(p, a + b) == After(After(p, a), b)
  {
    if b == [] {
      assert a + b == a;
    } else {
      AfterConcat(p, a, b[..|b| - 1]);
      assert (a + b)[..|a + b| - 1] == a + b[..|b| - 1];
    }
  }

  /** The rosters of a presence channel change by these steps only. */
  lemma RoomHears<V>(r: P.Room<V>, a: P.Step<V>)
    requires P.Legal(r, a)
    ensures P.Do(r, a).peers == After(r.peers, RoomSteps(a))
  {
    if RoomSteps(a) != [] { AfterOne(r.peers, RoomSteps(a)[0]); }
  }

  /** And so do the signed-in users stored for peers. */
  lemma WatchHears(w: W.Node, a: W.Step)
    requires W.Enabled(w, a)
    ensures W.Do(w, a).peers == After(w.peers, WatchSteps(a))
  {
    if WatchSteps(a) != [] { AfterOne(w.peers, WatchSteps(a)[0]); }
  }

  function AllRoomSteps<V>(steps: seq<P.Step<V>>): seq<Step<V>> {
    if steps == [] then [] else AllRoomSteps(steps[..|steps| - 1]) + RoomSteps(steps[|steps| - 1])
  }

  lemma {:induction false} RoomRunHears<V>(rooms: seq<P.Room<V>>, steps: seq<P.Step<V>>)
    requires P.IsRun(rooms, steps)
    ensures rooms[|steps|].peers == After(rooms[0].peers, AllRoomSteps(steps))
    decreases |steps|
  {
    if steps != [] {
      var k := |steps| - 1;
      assert P.Next(rooms[k], steps[k], rooms[k + 1]);
      assert P.IsRun(rooms[..k + 1], steps[..k]);
      RoomRunHears(rooms[..k + 1], steps[..k]);
      RoomHears(rooms[k], steps[k]);
      AfterConcat(rooms[0].peers, AllRoomSteps(steps[..k]), RoomSteps(steps[k]));
    }
  }

  /** Over every run of a presence channel, exactly the peers heard at least every fifteen seconds have a roster. */
  lemma RoomStoresIff<V>(rooms: seq<P.Room<V>>, steps: seq<P.Step<V>>, n: NodeId)
    requires P.IsRun(rooms, steps) && rooms[0] == P.Empty() && InTime(AllRoomSteps(steps))
    ensures
      var heard := AllRoomSteps(steps);
      n in rooms[|steps|].peers <==>
      exists i: nat :: HeardFrom(heard, n, i) && Creates(heard[i].news) && NeverSilent(heard, n, i)
  {
    RoomRunHears(rooms, steps);
    StoredIff(AllRoomSteps(steps), n);
  }
}
