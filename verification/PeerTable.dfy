/**
 What one node has stored about its peers for one presence channel (or, for
 signed-in users, for one app): a roster per peer, each with the time it was last
 refreshed. Queries that decide what to announce ignore rosters past their TTL;
 `Announced` does not.
 */
module PeerTable {

  type NodeId = string
  type UserId = string

  const SNAPSHOT_TTL := 15

  datatype Option<+T> = None | Some(value: T)

  datatype Entry<V> = Entry(insertedAt: int, members: map<UserId, V>)

  type Peers<V> = map<NodeId, Entry<V>>

  predicate Fresh<V>(e: Entry<V>, now: int) {
    now - e.insertedAt <= SNAPSHOT_TTL
  }

  function InsertSnapshot<V>(p: Peers<V>, n: NodeId, members: map<UserId, V>, now: int): Peers<V> {
    p[n := Entry(now, members)]
  }

  function Touch<V>(p: Peers<V>, n: NodeId, now: int): Peers<V> {
    if n in p then p[n := p[n].(insertedAt := now)] else p
  }

  /** The roster stored for `n`; nothing stored is the empty roster. */
  function RosterOf<V>(p: Peers<V>, n: NodeId): map<UserId, V> {
    if n in p then p[n].members else map[]
  }

  function AddLive<V>(p: Peers<V>, n: NodeId, u: UserId, info: V, now: int): Peers<V> {
    p[n := Entry(now, RosterOf(p, n)[u := info])]
  }

  function RemoveLive<V>(p: Peers<V>, n: NodeId, u: UserId, now: int): Peers<V> {
    if n in p then p[n := Entry(now, p[n].members - {u})] else p
  }

  /** Whether a fresh roster of a peer other than `except` holds `u`. */
  predicate PresentExcluding<V>(p: Peers<V>, now: int, u: UserId, except: Option<NodeId>) {
    exists n | n in p :: except != Some(n) && Fresh(p[n], now) && u in p[n].members
  }

  /** Users in fresh rosters. */
  function FreshUsers<V>(p: Peers<V>, now: int): set<UserId> {
    set n, u | n in p && Fresh(p[n], now) && u in p[n].members :: u
  }

  /** Users in any stored roster, fresh or not. */
  function Announced<V>(p: Peers<V>): set<UserId> {
    set n, u | n in p && u in p[n].members :: u
  }

  /** The table without the rosters past their TTL. */
  function Reap<V>(p: Peers<V>, now: int): Peers<V> {
    map n | n in p && Fresh(p[n], now) :: p[n]
  }

  /** Users in rosters past their TTL. */
  function StaleUsers<V>(p: Peers<V>, now: int): set<UserId> {
    set n, u | n in p && !Fresh(p[n], now) && u in p[n].members :: u
  }

  // ------------------------------------------------------------------ set facts

  lemma FreshIsPresent<V>(p: Peers<V>, now: int, u: UserId)
    ensures u in FreshUsers(p, now) <==> PresentExcluding(p, now, u, None)
    ensures FreshUsers(p, now) <= Announced(p)
    ensures FreshUsers(p, now) + StaleUsers(p, now) == Announced(p)
    ensures Announced(Reap(p, now)) == FreshUsers(p, now)
  {
    forall x | x in Announced(Reap(p, now)) ensures x in FreshUsers(p, now) {
      var n :| n in Reap(p, now) && x in Reap(p, now)[n].members;
    }
    forall x | x in FreshUsers(p, now) ensures x in Announced(Reap(p, now)) {
      var n :| n in p && Fresh(p[n], now) && x in p[n].members;
      assert n in Reap(p, now);
    }
  }

  /** The excluded peer counts for nothing: as if it had no roster. */
  lemma ExcludedIsIgnored<V>(p: Peers<V>, now: int, u: UserId, n: NodeId)
    ensures PresentExcluding(p, now, u, Some(n)) <==> PresentExcluding(p - {n}, now, u, None)
  {
    var q := p - {n};
    assert forall m | m in q :: q[m] == p[m];
    if m :| m in p && m != n && Fresh(p[m], now) && u in p[m].members {
      assert m in q;
    }
  }

  lemma AddLiveAnnounces<V>(p: Peers<V>, n: NodeId, u: UserId, info: V, now: int)
    ensures Announced(AddLive(p, n, u, info, now)) == Announced(p) + {u}
  {
    var q := AddLive(p, n, u, info, now);
    forall x | x in Announced(q) ensures x in Announced(p) + {u} {
      var m :| m in q && x in q[m].members;
    }
    forall x | x in Announced(p) + {u} ensures x in Announced(q) {
      if x == u {
        assert n in q && u in q[n].members;
      } else {
        var m :| m in p && x in p[m].members;
        assert m in q && x in q[m].members;
      }
    }
  }

  /** Removing `u` from one roster can only lose `u`, and keeps it if another roster holds it. */
  lemma RemoveLiveAnnounces<V>(p: Peers<V>, n: NodeId, u: UserId, now: int)
    ensures Announced(p) - {u} <= Announced(RemoveLive(p, n, u, now)) <= Announced(p)
    ensures u in Announced(RemoveLive(p, n, u, now)) <==> exists m | m in p && m != n :: u in p[m].members
  {
    var q := RemoveLive(p, n, u, now);
    forall x | x in Announced(q) ensures x in Announced(p) {
      var m :| m in q && x in q[m].members;
      assert m in p && x in p[m].members;
    }
    forall x | x in Announced(p) - {u} ensures x in Announced(q) {
      var m :| m in p && x in p[m].members;
      assert m in q && x in q[m].members;
    }
    if m :| m in p && m != n && u in p[m].members {
      assert m in q && u in q[m].members;
    }
  }

  lemma TouchAnnounces<V>(p: Peers<V>, n: NodeId, now: int)
    ensures Announced(Touch(p, n, now)) == Announced(p)
  {
    var q := Touch(p, n, now);
    forall x | x in Announced(q) ensures x in Announced(p) {
      var m :| m in q && x in q[m].members;
      assert m in p && x in p[m].members;
    }
    forall x | x in Announced(p) ensures x in Announced(q) {
      var m :| m in p && x in p[m].members;
      assert m in q && x in q[m].members;
    }
  }
}
