/**
 When a peer may forget a sequence number, with time. A number is dropped once it
 has not been raised for sixty seconds; the same tick first reaps a peer not heard
 from for fifteen. For presence rosters and counts every accepted message winds
 both clocks. Signed-in users are different: one entry per peer, refreshed by any
 user's event, but one number per user, raised only by news about that user. So
 the number of a user who stays signed in is forgotten while the entry lives.
 */
module SessionForgetting {
  import opened PeerTable
  import R = Replication

  /** How long a number is kept: four times the TTL. */
  const HORIZON := SNAPSHOT_TTL * 4

  /** What a node holds about one peer's users: when it last heard, and each user's number with its time. */
  datatype Peer = Peer(users: set<UserId>, heardAt: Option<int>, numbers: map<UserId, (nat, int)>)

  datatype Step =
    | Live(user: UserId, online: bool, stamp: nat, now: int)
    | Snapshot(reported: set<UserId>, stamp: nat, now: int)
    | Tick(now: int)

  function LastFor(p: Peer, u: UserId): nat {
    if u in p.numbers then p.numbers[u].0 else 0
  }

  predicate News(p: Peer, u: UserId, stamp: nat) {
    R.Accepts(LastFor(p, u), stamp)
  }

  function DoLive(p: Peer, u: UserId, online: bool, stamp: nat, now: int): Peer {
    if !News(p, u, stamp) then p
    else
      var numbers := if stamp == 0 then p.numbers else p.numbers[u := (stamp, now)];
      if online then Peer(p.users + {u}, Some(now), numbers)
      else if p.heardAt.Some? then Peer(p.users - {u}, Some(now), numbers)
      else p.(numbers := numbers)
  }

  /** The users whose state the snapshot would change and about whom it is news. */
  function Decided(p: Peer, reported: set<UserId>, stamp: nat): set<UserId> {
    set u | u in (reported - p.users) + (p.users - reported) && News(p, u, stamp)
  }

  function DoSnapshot(p: Peer, reported: set<UserId>, stamp: nat, now: int): Peer {
    var decided := Decided(p, reported, stamp);
    Peer(
      p.users + (decided * reported) - (decided - reported),
      Some(now),
      if stamp == 0 then p.numbers else map u | u in p.numbers.Keys + decided :: if u in decided then (stamp, now) else p.numbers[u])
  }

  function DoTick(p: Peer, now: int): Peer {
    var live := p.heardAt.Some? && now - p.heardAt.value <= SNAPSHOT_TTL;
    Peer(if live then p.users else {}, if live then p.heardAt else None,
         map u | u in p.numbers && now - p.numbers[u].1 < HORIZON :: p.numbers[u])
  }

  function Do(p: Peer, a: Step): Peer {
    match a
    case Live(u, online, stamp, now) => DoLive(p, u, online, stamp, now)
    case Snapshot(reported, stamp, now) => DoSnapshot(p, reported, stamp, now)
    case Tick(now) => DoTick(p, now)
  }

  function DoAll(p: Peer, steps: seq<Step>): Peer {
    if steps == [] then p else Do(DoAll(p, steps[..|steps| - 1]), steps[|steps| - 1])
  }

  // ------------------------------------------------------- within the horizon

  /** `u` has a number of at least `m`, raised no earlier than `t`. */
  predicate Has(p: Peer, u: UserId, m: nat, t: int) {
    u in p.numbers && m <= p.numbers[u].0 && t <= p.numbers[u].1
  }

  ghost predicate Within(steps: seq<Step>, from: int, to: int) {
    forall i | 0 <= i < |steps| :: from <= steps[i].now < to
  }

  lemma StepKeepsNumber(p: Peer, a: Step, u: UserId, m: nat, t: int)
    requires Has(p, u, m, t) && t <= a.now < t + HORIZON
    ensures Has(Do(p, a), u, m, t)
  {
  }

  lemma {:induction false} RunKeepsNumber(p: Peer, steps: seq<Step>, u: UserId, m: nat, t: int)
    requires Has(p, u, m, t) && Within(steps, t, t + HORIZON)
    ensures Has(DoAll(p, steps), u, m, t)
  {
    if steps != [] {
      var front := steps[..|steps| - 1];
      assert forall i | 0 <= i < |front| :: front[i] == steps[i];
      RunKeepsNumber(p, front, u, m, t);
      StepKeepsNumber(DoAll(p, front), steps[|steps| - 1], u, m, t);
    }
  }

  /**
   Whatever happens in between, a snapshot that arrives within the horizon of a
   user's event decides nothing about that user if it is numbered below the event.
   */
  lemma OldSnapshotRefused(p: Peer, u: UserId, online: bool, m: nat, t: int, steps: seq<Step>, reported: set<UserId>, n: nat, now: int)
    requires 0 < n < m && News(p, u, m) && Within(steps, t, t + HORIZON)
    ensures
      var before := DoAll(DoLive(p, u, online, m, t), steps);
      u in DoSnapshot(before, reported, n, now).users <==> u in before.users
  {
    RunKeepsNumber(DoLive(p, u, online, m, t), steps, u, m, t);
  }

  /** Nothing here is about `u`, and no tick comes a minute after `t`. */
  ghost predicate AboutOthers(steps: seq<Step>, u: UserId, t: int) {
    forall i | 0 <= i < |steps| :: match steps[i]
      case Live(x, _, _, _) => x != u
      case Snapshot(_, _, _) => false
      case Tick(now) => now < t + 60
  }

  lemma {:induction false} NumberStays(p: Peer, steps: seq<Step>, u: UserId, t: int)
    requires u in p.numbers && p.numbers[u].1 == t && AboutOthers(steps, u, t)
    ensures u in DoAll(p, steps).numbers && DoAll(p, steps).numbers[u] == p.numbers[u]
  {
    if steps != [] {
      var front := steps[..|steps| - 1];
      assert forall i | 0 <= i < |front| :: front[i] == steps[i];
      NumberStays(p, front, u, t);
      assert match steps[|steps| - 1] case Live(x, _, _, _) => x != u case Snapshot(_, _, _) => false case Tick(now) => now < t + 60;
    }
  }

  /** A number not raised again is forgotten by the first tick a minute later, and by none before. */
  lemma ForgottenAfterAMinute(p: Peer, u: UserId, online: bool, m: nat, t: int, steps: seq<Step>, now: int)
    requires 0 < m && News(p, u, m) && AboutOthers(steps, u, t)
    ensures u in DoTick(DoAll(DoLive(p, u, online, m, t), steps), now).numbers <==> now < t + 60
  {
    NumberStays(DoLive(p, u, online, m, t), steps, u, t);
  }

  /** A tick forgets the users of a peer that has been silent for more than fifteen seconds, and no others. */
  lemma SilentPeerIsReaped(p: Peer, a: Step, now: int)
    requires !a.Tick? && Do(p, a).heardAt == Some(a.now)
    ensures DoTick(Do(p, a), now).users == if now <= a.now + 15 then Do(p, a).users else {}
  {
  }

  // ------------------------------------------------------- beyond the horizon

  /** "a" and "b" sign in, numbered 1 and 3; another user comes and goes every ten seconds. */
  const BUSY: seq<Step> := [
    Live("a", true, 1, 0), Live("b", true, 3, 2), Live("k", true, 4, 10), Live("k", false, 5, 20),
    Live("k", true, 6, 30), Live("k", false, 7, 40), Live("k", true, 8, 50), Live("k", false, 9, 60)]

  const NOBODY := Peer({}, None, map[])

  /**
   The publisher takes number 2 and reads {a} just before "b" signs in, and sends
   more than a minute later. The peer is never silent for fifteen seconds, so the
   tick at 65 reaps nothing, but it forgets the number of "b"; the snapshot then
   signs "b" out, though "b" never left and no message was lost.
   */
  lemma ForgottenInTime()
    ensures DoAll(NOBODY, BUSY).users == {"a", "b"}
    ensures DoTick(DoAll(NOBODY, BUSY), 65).users == {"a", "b"}
    ensures DoSnapshot(DoTick(DoAll(NOBODY, BUSY), 65), {"a"}, 2, 66).users == {"a"}
  {
    var p := BusyEnd();
    var q := DoTick(p, 65);
    assert q.users == {"a", "b"} && "b" !in q.numbers && "a" !in q.numbers;
    assert Decided(q, {"a"}, 2) == {"b"};
  }

  /** The entry of the other user after it was seen at `now`. */
  function Seen(online: bool, stamp: nat, now: int): Peer {
    Peer(if online then {"a", "b", "k"} else {"a", "b"}, Some(now), map["a" := (1, 0), "b" := (3, 2), "k" := (stamp, now)])
  }

  lemma SeenAgain(online: bool, stamp: nat, now: int, online': bool, stamp': nat, now': int)
    requires stamp < stamp'
    ensures DoLive(Seen(online, stamp, now), "k", online', stamp', now') == Seen(online', stamp', now')
  {
    assert {"a", "b", "k"} - {"k"} == {"a", "b"} == {"a", "b"} - {"k"};
  }

  lemma FirstSeen()
    ensures DoLive(DoLive(DoLive(NOBODY, "a", true, 1, 0), "b", true, 3, 2), "k", true, 4, 10) == Seen(true, 4, 10)
  {
  }

  lemma BusyEnd() returns (p: Peer)
    ensures p == DoAll(NOBODY, BUSY) == Seen(false, 9, 60)
  {
    TakeOne(NOBODY, BUSY, 0);
    TakeOne(NOBODY, BUSY, 1);
    TakeOne(NOBODY, BUSY, 2);
    FirstSeen();
    TakeOne(NOBODY, BUSY, 3);
    SeenAgain(true, 4, 10, false, 5, 20);
    TakeOne(NOBODY, BUSY, 4);
    SeenAgain(false, 5, 20, true, 6, 30);
    TakeOne(NOBODY, BUSY, 5);
    SeenAgain(true, 6, 30, false, 7, 40);
    TakeOne(NOBODY, BUSY, 6);
    SeenAgain(false, 7, 40, true, 8, 50);
    TakeOne(NOBODY, BUSY, 7);
    SeenAgain(true, 8, 50, false, 9, 60);
    assert BUSY[..8] == BUSY;
    p := DoAll(NOBODY, BUSY);
  }

  lemma TakeOne(p: Peer, steps: seq<Step>, k: nat)
    requires k < |steps|
    ensures DoAll(p, steps[..k + 1]) == Do(DoAll(p, steps[..k]), steps[k])
  {
    assert steps[..k + 1][..k] == steps[..k];
  }
}
