/**
 One channel on one node: its member sockets, the reference count of each presence
 user, and the payload a cache channel replays to late subscribers.
 */
module Channels {
  import opened PeerTable

  type SocketId = string

  /** Member sockets with the presence user each joined as, if any. */
  type Members = map<SocketId, Option<UserId>>

  function SocketsOf(members: Members, u: UserId): set<SocketId> {
    set s | s in members && members[s] == Some(u)
  }

  function UsersOf(members: Members): set<UserId> {
    set s | s in members && members[s].Some? :: members[s].value
  }

  /** Each user's count is the number of its sockets; users without sockets have no entry. */
  ghost predicate Counted(members: Members, refs: map<UserId, nat>) {
    refs.Keys == UsersOf(members) && forall u | u in refs :: refs[u] == |SocketsOf(members, u)|
  }

  datatype SubscribeResult = SubscribeResult(wasNew: bool, userAdded: bool, memberCount: nat)

  datatype UnsubscribeOutcome = UnsubscribeOutcome(wasMember: bool, userRemoved: Option<UserId>, memberCount: nat)

  datatype Cached = Cached(payload: string, insertedAt: int)

  /** What a cache slot replays at `now`: its payload, unless older than the TTL. */
  function Replayed(slot: Option<Cached>, ttl: Option<nat>, now: int): Option<string> {
    if slot.None? || (ttl.Some? && now - slot.value.insertedAt > ttl.value) then None else Some(slot.value.payload)
  }

  const CACHE_MISS_WEBHOOK_INTERVAL := 60

  class Channel {
    const presence: bool
    const cache: bool
    const cacheTtl: Option<nat>
    var members: Members
    var refs: map<UserId, nat>
    var cached: Option<Cached>
    var missNotifiedAt: Option<int>

    ghost predicate Valid()
      reads this
    {
      && (if presence then Counted(members, refs) else refs == map[])
      && (!cache ==> cached == None)
    }

    constructor (presence: bool, cache: bool, cacheTtl: Option<nat>)
      ensures Valid() && members == map[] && cached == None && missNotifiedAt == None
      ensures this.presence == presence && this.cache == cache && this.cacheTtl == cacheTtl
    {
      this.presence, this.cache, this.cacheTtl := presence, cache, cacheTtl;
      members, refs, cached, missNotifiedAt := map[], map[], None, None;
    }

    /** Distinct users on presence channels; sockets otherwise. */
    method UserCount() returns (n: nat)
      requires Valid()
      ensures n == if presence then |UsersOf(members)| else |members|
    {
      n := if presence then |refs| else |members|;
      assert |refs| == |refs.Keys|;
    }

    method HasUserId(u: UserId) returns (here: bool)
      requires Valid()
      ensures here <==> presence && u in UsersOf(members)
    {
      here := u in refs;
    }

    method Subscribe(s: SocketId, user: Option<UserId>) returns (r: SubscribeResult)
      requires Valid()
      modifies this`members, this`refs
      ensures Valid()
      ensures members == if s in old(members) then old(members) else old(members)[s := user]
      ensures r.wasNew <==> s !in old(members)
      ensures r.userAdded <==> presence && r.wasNew && user.Some? && user.value !in UsersOf(old(members))
      ensures r.memberCount == |members|
    {
      if s in members {
        return SubscribeResult(false, false, |members|);
      }
      if presence { CountedJoin(members, refs, s, user); }
      var userAdded := false;
      if presence && user.Some? {
        var n := if user.value in refs then refs[user.value] else 0;
        if n == 0 {
          userAdded := true;
        }
        refs := refs[user.value := n + 1];
      }
      members := members[s := user];
      r := SubscribeResult(true, userAdded, |members|);
    }

    method Unsubscribe(s: SocketId) returns (o: UnsubscribeOutcome)
      requires Valid()
      modifies this`members, this`refs
      ensures Valid()
      ensures members == old(members) - {s}
      ensures o.wasMember <==> s in old(members)
      ensures o.userRemoved ==
              if presence && s in old(members) && old(members)[s].Some? && old(members)[s].value !in UsersOf(members)
              then old(members)[s] else None
      ensures o.memberCount == |members|
    {
      if s !in members {
        assert members - {s} == members;
        return UnsubscribeOutcome(false, None, |members|);
      }
      var user := members[s];
      if presence { CountedLeave(members, refs, s); }
      members := members - {s};
      var userRemoved := None;
      if presence && user.Some? {
        var reachedZero := false;
        if user.value in refs {
          var n := if refs[user.value] == 0 then 0 else refs[user.value] - 1;
          refs := refs[user.value := n];
          reachedZero := n == 0;
        }
        if reachedZero && user.value in refs && refs[user.value] == 0 {
          refs := refs - {user.value};
          userRemoved := user;
        }
      }
      o := UnsubscribeOutcome(true, userRemoved, |members|);
    }

    method CachedPayload(now: int) returns (p: Option<string>)
      requires Valid()
      modifies this`cached
      ensures Valid()
      ensures p == Replayed(old(cached), cacheTtl, now)
      ensures p.Some? <==> old(cached).Some? && (cacheTtl.None? || now <= old(cached).value.insertedAt + cacheTtl.value)
      ensures p.Some? ==> p.value == old(cached).value.payload && cached == old(cached)
      ensures p.None? ==> cached == None
    {
      if cached.None? {
        return None;
      }
      if cacheTtl.Some? && now - cached.value.insertedAt > cacheTtl.value {
        cached := None;
        return None;
      }
      p := Some(cached.value.payload);
    }

    method SetCachedPayload(payload: string, now: int)
      requires Valid()
      modifies this`cached, this`missNotifiedAt
      ensures Valid()
      ensures cached == if cache then Some(Cached(payload, now)) else old(cached)
      ensures missNotifiedAt == if cache then None else old(missNotifiedAt)
    {
      if cache {
        cached := Some(Cached(payload, now));
        missNotifiedAt := None;
      }
    }

    /** One webhook per empty period: refused within the interval, re-armed by a publish. */
    method ClaimCacheMiss(now: int) returns (notify: bool)
      modifies this`missNotifiedAt
      ensures notify == Due(old(missNotifiedAt), now) && missNotifiedAt == Missed(old(missNotifiedAt), Miss(now))
    {
      if missNotifiedAt.Some? && now - missNotifiedAt.value < CACHE_MISS_WEBHOOK_INTERVAL {
        return false;
      }
      missNotifiedAt := Some(now);
      notify := true;
    }
  }

  // ------------------------------------------------------------ cache-miss webhooks

  datatype MissStep = Miss(now: int) | Refill

  predicate Due(at: Option<int>, now: int) {
    at.None? || now - at.value >= CACHE_MISS_WEBHOOK_INTERVAL
  }

  function Missed(at: Option<int>, step: MissStep): Option<int> {
    match step
    case Miss(now) => if Due(at, now) then Some(now) else at
    case Refill => None
  }

  function AllMissed(at: Option<int>, steps: seq<MissStep>): Option<int> {
    if steps == [] then at else Missed(AllMissed(at, steps[..|steps| - 1]), steps[|steps| - 1])
  }

  /** The webhook goes out at step `i`. */
  predicate Notified(at: Option<int>, steps: seq<MissStep>, i: nat)
    requires i < |steps|
  {
    steps[i].Miss? && Due(AllMissed(at, steps[..i]), steps[i].now)
  }

  lemma {:induction false} NotedSince(at: Option<int>, steps: seq<MissStep>, i: nat, j: nat)
    requires i < j <= |steps| && Notified(at, steps, i) && forall k | i < k < j :: steps[k].Miss?
    ensures AllMissed(at, steps[..j]).Some? && steps[i].now <= AllMissed(at, steps[..j]).value
  {
    assert steps[..j][..j - 1] == steps[..j - 1];
    if j > i + 1 {
      NotedSince(at, steps, i, j - 1);
    }
  }

  /** Over every run, two webhooks with no publish between them are a whole interval apart. */
  lemma NotifiedApart(at: Option<int>, steps: seq<MissStep>, i: nat, j: nat)
    requires i < j < |steps| && Notified(at, steps, i) && Notified(at, steps, j)
    requires forall k | i < k < j :: steps[k].Miss?
    ensures steps[j].now - steps[i].now >= CACHE_MISS_WEBHOOK_INTERVAL
  {
    NotedSince(at, steps, i, j);
  }

  /** Step `i` put a webhook out and nothing was published between it and step `j`. */
  ghost predicate NotifiedSince(at: Option<int>, steps: seq<MissStep>, i: nat, j: nat) {
    i < j < |steps| && Notified(at, steps, i) && forall k | i < k < j :: steps[k].Miss?
  }

  lemma {:induction false} LastNotified(steps: seq<MissStep>, j: nat) returns (i: nat)
    requires j < |steps| && AllMissed(None, steps[..j]).Some?
    ensures NotifiedSince(None, steps, i, j) && AllMissed(None, steps[..j]).value == steps[i].now
  {
    assert steps[..j][..j - 1] == steps[..j - 1];
    if Notified(None, steps, j - 1) {
      i := j - 1;
    } else {
      i := LastNotified(steps, j - 1);
    }
  }

  /** A miss notifies if and only if no webhook since the last publish is less than a minute old. */
  lemma NotifiedIff(steps: seq<MissStep>, j: nat)
    requires j < |steps| && steps[j].Miss?
    ensures Notified(None, steps, j) <==> forall i: nat | NotifiedSince(None, steps, i, j) :: steps[i].now + 60 <= steps[j].now
  {
    if Notified(None, steps, j) {
      forall i: nat | NotifiedSince(None, steps, i, j) ensures steps[i].now + 60 <= steps[j].now {
        NotifiedApart(None, steps, i, j);
      }
    } else {
      var i := LastNotified(steps, j);
    }
  }

  // -------------------------------------------------------------- count algebra

  lemma SocketsAfterJoin(members: Members, s: SocketId, user: Option<UserId>, u: UserId)
    requires s !in members
    ensures SocketsOf(members[s := user], u) == SocketsOf(members, u) + if user == Some(u) then {s} else {}
    ensures |SocketsOf(members[s := user], u)| == |SocketsOf(members, u)| + if user == Some(u) then 1 else 0
  {
    assert SocketsOf(members[s := user], u) == SocketsOf(members, u) + if user == Some(u) then {s} else {};
  }

  lemma UsersAfterJoin(members: Members, s: SocketId, user: Option<UserId>)
    requires s !in members
    ensures UsersOf(members[s := user]) == UsersOf(members) + if user.Some? then {user.value} else {}
  {
    var m := members[s := user];
    assert forall t | t in members :: m[t] == members[t];
    forall u | u in UsersOf(members) ensures u in UsersOf(m) {
      var t :| t in members && members[t] == Some(u);
      assert m[t] == Some(u);
    }
    if user.Some? { assert m[s] == user; }
  }

  lemma CountedJoinPlain(members: Members, refs: map<UserId, nat>, s: SocketId)
    requires s !in members && Counted(members, refs)
    ensures Counted(members[s := None], refs)
  {
    UsersAfterJoin(members, s, None);
    forall v | v in refs ensures refs[v] == |SocketsOf(members[s := None], v)| {
      SocketsAfterJoin(members, s, None, v);
    }
  }

  lemma CountedJoinUser(members: Members, refs: map<UserId, nat>, s: SocketId, u: UserId, n: nat)
    requires s !in members && Counted(members, refs) && n == |SocketsOf(members, u)|
    ensures Counted(members[s := Some(u)], refs[u := n + 1])
  {
    UsersAfterJoin(members, s, Some(u));
    var refs' := refs[u := n + 1];
    forall v | v in refs' ensures refs'[v] == |SocketsOf(members[s := Some(u)], v)| {
      SocketsAfterJoin(members, s, Some(u), v);
    }
  }

  /** The counts after a join: one more, from zero exactly when the user is new. */
  lemma CountedJoin(members: Members, refs: map<UserId, nat>, s: SocketId, user: Option<UserId>)
    requires s !in members && Counted(members, refs)
    ensures user.None? ==> Counted(members[s := user], refs)
    ensures user.Some? ==>
              var u := user.value;
              var n := if u in refs then refs[u] else 0;
              && (n == 0 <==> u !in UsersOf(members))
              && Counted(members[s := user], refs[u := n + 1])
  {
    match user
    case None => CountedJoinPlain(members, refs, s);
    case Some(u) =>
      var n := CountFor(members, refs, u);
      CountedJoinUser(members, refs, s, u, n);
  }

  /** A user's entry, or zero, is its number of sockets; zero means it is not here. */
  lemma CountFor(members: Members, refs: map<UserId, nat>, u: UserId) returns (n: nat)
    requires Counted(members, refs)
    ensures n == (if u in refs then refs[u] else 0) == |SocketsOf(members, u)|
    ensures n == 0 <==> u !in UsersOf(members)
  {
    n := if u in refs then refs[u] else 0;
    UserHasSocket(members, u);
  }

  lemma SocketsAfterLeave(members: Members, s: SocketId, u: UserId)
    requires s in members
    ensures SocketsOf(members - {s}, u) == SocketsOf(members, u) - {s}
    ensures members[s] == Some(u) ==> |SocketsOf(members, u)| == |SocketsOf(members - {s}, u)| + 1
  {
    if members[s] == Some(u) {
      assert SocketsOf(members, u) == SocketsOf(members - {s}, u) + {s};
    }
  }

  /** A user other than the leaver's keeps its sockets. */
  lemma UsersAfterLeave(members: Members, s: SocketId)
    requires s in members
    ensures UsersOf(members - {s}) ==
            if members[s].Some? && SocketsOf(members - {s}, members[s].value) == {}
            then UsersOf(members) - {members[s].value} else UsersOf(members)
  {
    UsersHaveSockets(members);
    UsersHaveSockets(members - {s});
    forall u ensures u in UsersOf(members - {s}) <==> SocketsOf(members, u) - {s} != {} {
      SocketsAfterLeave(members, s, u);
    }
    forall u | members[s] != Some(u) ensures SocketsOf(members, u) - {s} == SocketsOf(members, u) {}
  }

  lemma OthersKeepSockets(members: Members, s: SocketId, u: UserId)
    requires s in members && members[s] != Some(u)
    ensures SocketsOf(members - {s}, u) == SocketsOf(members, u)
  {
  }

  lemma LeaverHasOneLess(members: Members, refs: map<UserId, nat>, s: SocketId, u: UserId)
    requires s in members && members[s] == Some(u) && Counted(members, refs)
    ensures u in refs && refs[u] == |SocketsOf(members - {s}, u)| + 1
    ensures u in UsersOf(members - {s}) <==> refs[u] > 1
  {
    SocketsAfterLeave(members, s, u);
    assert u in UsersOf(members);
    UserHasSocket(members - {s}, u);
  }

  /** The counts after a leave: one less, and no entry once the last socket is gone. */
  lemma CountedLeave(members: Members, refs: map<UserId, nat>, s: SocketId)
    requires s in members && Counted(members, refs)
    ensures members[s].None? ==> Counted(members - {s}, refs)
    ensures members[s].Some? ==>
              var u := members[s].value;
              && u in refs && refs[u] > 0
              && (u in UsersOf(members - {s}) <==> refs[u] > 1)
              && Counted(members - {s}, if refs[u] == 1 then refs - {u} else refs[u := refs[u] - 1])
  {
    UsersAfterLeave(members, s);
    forall u | members[s] != Some(u) ensures SocketsOf(members - {s}, u) == SocketsOf(members, u) {
      OthersKeepSockets(members, s, u);
    }
    if members[s].Some? {
      LeaverHasOneLess(members, refs, s, members[s].value);
    }
  }

  lemma UserHasSocket(members: Members, u: UserId)
    ensures u in UsersOf(members) <==> SocketsOf(members, u) != {}
  {
    if u in UsersOf(members) {
      var s :| s in members && members[s] == Some(u);
      assert s in SocketsOf(members, u);
    }
    if SocketsOf(members, u) != {} {
      var s :| s in SocketsOf(members, u);
    }
  }

  lemma UsersHaveSockets(members: Members)
    ensures forall u :: u in UsersOf(members) <==> SocketsOf(members, u) != {}
  {
    forall u ensures u in UsersOf(members) <==> SocketsOf(members, u) != {} {
      UserHasSocket(members, u);
    }
  }
}
