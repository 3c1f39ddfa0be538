/**
 The presence cache as the program keeps it: rosters of every peer for every
 (app, channel), changed in place. Each operation is specified by its `PeerTable`
 counterpart on the one channel it names.
 */
module PresenceCaches {
  import opened PeerTable

  type Info = string
  type Key = (string, string)
  type Rosters = Peers<Option<Info>>

  datatype Member = Member(userId: UserId, info: Option<Info>)

  datatype ExpiredMember = ExpiredMember(key: Key, userId: UserId)

  function At(peers: map<Key, Rosters>, key: Key): Rosters {
    if key in peers then peers[key] else map[]
  }

  /** A later entry for the same user wins. */
  function Collect(ms: seq<Member>): map<UserId, Option<Info>> {
    if ms == [] then map[] else Collect(ms[..|ms| - 1])[ms[|ms| - 1].userId := ms[|ms| - 1].info]
  }

  /** A snapshot's roster: exactly the users it lists, each with what its last entry says. */
  lemma {:induction false} CollectIs(ms: seq<Member>)
    ensures forall u :: u in Collect(ms) <==> exists i | 0 <= i < |ms| :: ms[i].userId == u
    ensures forall i | 0 <= i < |ms| && (forall j | i < j < |ms| :: ms[j].userId != ms[i].userId) ::
              ms[i].userId in Collect(ms) && Collect(ms)[ms[i].userId] == ms[i].info
  {
    if ms != [] {
      var front, last := ms[..|ms| - 1], ms[|ms| - 1];
      CollectIs(front);
      forall u ensures u in Collect(ms) <==> exists i | 0 <= i < |ms| :: ms[i].userId == u {
        if u in Collect(front) {
          var i :| 0 <= i < |front| && front[i].userId == u;
          assert ms[i].userId == u;
        }
        if i :| 0 <= i < |ms| && ms[i].userId == u {
          assert i < |front| ==> front[i].userId == u;
        }
      }
      forall i | 0 <= i < |ms| && (forall j | i < j < |ms| :: ms[j].userId != ms[i].userId)
        ensures ms[i].userId in Collect(ms) && Collect(ms)[ms[i].userId] == ms[i].info {
        if i < |front| {
          assert front[i] == ms[i] && last.userId != ms[i].userId;
          assert forall j | i < j < |front| :: front[j].userId != front[i].userId;
        }
      }
    }
  }

  ghost predicate Distinct(ms: seq<Member>) {
    forall i, j | 0 <= i < j < |ms| :: ms[i].userId != ms[j].userId
  }

  /** `m` is in a fresh roster, with that roster's info. */
  ghost predicate FreshMember(p: Rosters, now: int, m: Member) {
    exists n | n in p :: Fresh(p[n], now) && m.userId in p[n].members && p[n].members[m.userId] == m.info
  }

  ghost predicate IsExpired(peers: map<Key, Rosters>, now: int, e: ExpiredMember) {
    e.key in peers && e.userId in StaleUsers(peers[e.key], now)
  }

  class PresenceCache {
    var peers: map<Key, Rosters>

    constructor ()
      ensures peers == map[]
    {
      peers := map[];
    }

    method InsertSnapshot(key: Key, node: NodeId, members: seq<Member>, now: int)
      modifies this
      ensures peers == old(peers)[key := PeerTable.InsertSnapshot(At(old(peers), key), node, Collect(members), now)]
    {
      var inner := At(peers, key);
      var collected := map[];
      for i := 0 to |members|
        invariant collected == Collect(members[..i])
      {
        assert members[..i + 1][..i] == members[..i];
        collected := collected[members[i].userId := members[i].info];
      }
      assert members[..|members|] == members;
      peers := peers[key := inner[node := Entry(now, collected)]];
    }

    method Touch(key: Key, node: NodeId, now: int)
      modifies this
      ensures At(peers, key) == PeerTable.Touch(At(old(peers), key), node, now)
      ensures peers - {key} == old(peers) - {key}
    {
      if key in peers && node in peers[key] {
        peers := peers[key := peers[key][node := peers[key][node].(insertedAt := now)]];
      }
    }

    method AddLive(key: Key, node: NodeId, user: UserId, info: Option<Info>, now: int) returns (added: bool)
      modifies this
      ensures peers == old(peers)[key := PeerTable.AddLive(At(old(peers), key), node, user, info, now)]
      ensures added <==> user !in RosterOf(At(old(peers), key), node)
    {
      var inner := At(peers, key);
      var peer := if node in inner then inner[node] else Entry(now, map[]);
      peer := peer.(insertedAt := now);
      added := user !in peer.members;
      peer := peer.(members := peer.members[user := info]);
      peers := peers[key := inner[node := peer]];
    }

    method RemoveLive(key: Key, node: NodeId, user: UserId, now: int) returns (removed: bool)
      modifies this
      ensures At(peers, key) == PeerTable.RemoveLive(At(old(peers), key), node, user, now)
      ensures peers - {key} == old(peers) - {key}
      ensures removed <==> user in RosterOf(At(old(peers), key), node)
    {
      if key !in peers || node !in peers[key] {
        return false;
      }
      var peer := peers[key][node].(insertedAt := now);
      removed := user in peer.members;
      peer := peer.(members := peer.members - {user});
      peers := peers[key := peers[key][node := peer]];
    }

    method IsPresentExcluding(key: Key, user: UserId, except: Option<NodeId>, now: int) returns (present: bool)
      ensures present <==> PresentExcluding(At(peers, key), now, user, except)
    {
      if key !in peers {
        return false;
      }
      var inner := peers[key];
      var todo := inner.Keys;
      while todo != {}
        invariant todo <= inner.Keys
        invariant forall n | n in inner && n !in todo ::
                    except == Some(n) || !Fresh(inner[n], now) || user !in inner[n].members
        decreases todo
      {
        var n :| n in todo;
        todo := todo - {n};
        if except == Some(n) || now - inner[n].insertedAt > SNAPSHOT_TTL {
          continue;
        }
        if user in inner[n].members {
          return true;
        }
      }
      present := false;
    }

    /** Every user of a fresh roster once, with the info one fresh roster has for it. */
    method RemoteMembersFor(key: Key, now: int) returns (out: seq<Member>)
      ensures Distinct(out)
      ensures forall m | m in out :: FreshMember(At(peers, key), now, m)
      ensures (set m | m in out :: m.userId) == FreshUsers(At(peers, key), now)
    {
      out := [];
      if key !in peers {
        return;
      }
      var inner := peers[key];
      var seen: set<UserId> := {};
      var todo := inner.Keys;
      while todo != {}
        invariant todo <= inner.Keys
        invariant Distinct(out) && seen == set m | m in out :: m.userId
        invariant forall m | m in out :: FreshMember(inner, now, m)
        invariant forall n, u | n in inner && n !in todo && Fresh(inner[n], now) && u in inner[n].members :: u in seen
        decreases todo
      {
        var n :| n in todo;
        todo := todo - {n};
        if now - inner[n].insertedAt > SNAPSHOT_TTL {
          continue;
        }
        var users := inner[n].members.Keys;
        while users != {}
          invariant users <= inner[n].members.Keys
          invariant Distinct(out) && seen == set m | m in out :: m.userId
          invariant forall m | m in out :: FreshMember(inner, now, m)
          invariant forall u | u in inner[n].members && u !in users :: u in seen
          invariant forall k, u | k in inner && k !in todo && k != n && Fresh(inner[k], now) && u in inner[k].members :: u in seen
          decreases users
        {
          var u :| u in users;
          users := users - {u};
          if u !in seen {
            var m := Member(u, inner[n].members[u]);
            assert FreshMember(inner, now, m);
            SeenGrows(out, m);
            seen := seen + {u};
            out := out + [m];
          }
        }
      }
      assert forall u | u in seen :: u in FreshUsers(inner, now) by {
        forall u | u in seen ensures u in FreshUsers(inner, now) {
          var m :| m in out && m.userId == u;
          assert FreshMember(inner, now, m);
        }
      }
    }

    /** Reaps every roster past its TTL and reports exactly the users they named. */
    method GcExpired(now: int) returns (expired: seq<ExpiredMember>)
      modifies this
      ensures forall key :: At(peers, key) == Reap(At(old(peers), key), now)
      ensures forall key | key in peers :: peers[key] != map[]
      ensures forall e :: e in expired <==> IsExpired(old(peers), now, e)
    {
      expired := [];
      var todo := peers.Keys;
      while todo != {}
        invariant todo <= old(peers).Keys && peers.Keys <= old(peers).Keys
        invariant forall key | key in todo :: key in peers && peers[key] == old(peers)[key]
        invariant forall key | key !in todo :: At(peers, key) == Reap(At(old(peers), key), now)
        invariant forall key | key in peers && key !in todo :: peers[key] != map[]
        invariant forall e :: e in expired <==> IsExpired(old(peers), now, e) && e.key !in todo
        decreases todo
      {
        var key :| key in todo;
        todo := todo - {key};
        var kept, gone := SweepChannel(key, peers[key], now);
        expired := expired + gone;
        peers := if kept == map[] then peers - {key} else peers[key := kept];
      }
    }
  }

  lemma SeenGrows(out: seq<Member>, m: Member)
    requires Distinct(out) && m.userId !in set x | x in out :: x.userId
    ensures Distinct(out + [m])
    ensures (set x | x in out + [m] :: x.userId) == (set x | x in out :: x.userId) + {m.userId}
  {
    forall i | 0 <= i < |out| ensures out[i].userId != m.userId { assert out[i] in out; }
    assert forall x :: x in out + [m] <==> x in out || x == m;
  }

  /** One channel of the sweep. */
  method SweepChannel(key: Key, rosters: Rosters, now: int) returns (kept: Rosters, gone: seq<ExpiredMember>)
    ensures kept == Reap(rosters, now)
    ensures forall e :: e in gone <==> e.key == key && e.userId in StaleUsers(rosters, now)
  {
    kept, gone := rosters, [];
    var drop := set n | n in rosters && now - rosters[n].insertedAt > SNAPSHOT_TTL;
    var todo := drop;
    while todo != {}
      invariant todo <= drop
      invariant kept == map n | n in rosters && n !in drop - todo :: rosters[n]
      invariant forall e :: e in gone <==> e.key == key && exists n | n in drop - todo :: e.userId in rosters[n].members
      decreases todo
    {
      var n :| n in todo;
      var named := Named(key, rosters[n].members.Keys);
      gone := gone + named;
      kept := kept - {n};
      todo := todo - {n};
    }
  }

  method Named(key: Key, users: set<UserId>) returns (out: seq<ExpiredMember>)
    ensures forall e :: e in out <==> e.key == key && e.userId in users
  {
    out := [];
    var todo := users;
    while todo != {}
      invariant todo <= users
      invariant forall e :: e in out <==> e.key == key && e.userId in users - todo
      decreases todo
    {
      var u :| u in todo;
      todo := todo - {u};
      out := out + [ExpiredMember(key, u)];
    }
  }
}
