/**
 The bus handlers and the join and leave paths of one node for one presence
 channel, written as the program runs them, over its presence cache and its
 channel object. Each is proved to be the corresponding `PresenceRoom` step.
 */
module PresenceHandlers {
  import opened PeerTable
  import opened PresenceCaches
  import C = Channels
  import P = PresenceRoom
  import R = Replication

  type SocketId = P.SocketId

  function UserBySocket(members: C.Members): map<SocketId, UserId> {
    map s | s in members && members[s].Some? :: members[s].value
  }

  lemma NamedUsers(members: C.Members)
    ensures P.Users(UserBySocket(members)) == C.UsersOf(members)
  {
    forall u | u in C.UsersOf(members) ensures u in P.Users(UserBySocket(members)) {
      var s :| s in members && members[s] == Some(u);
      assert s in UserBySocket(members);
    }
  }

  function LastOf(seqs: map<NodeId, (nat, int)>, n: NodeId): nat {
    if n in seqs then seqs[n].0 else 0
  }

  /** The numbers after a message numbered `stamp`: the origin's never falls, the others' stay. */
  ghost predicate Noted(before: map<NodeId, (nat, int)>, after: map<NodeId, (nat, int)>, origin: NodeId, stamp: nat) {
    forall n :: LastOf(after, n) == if n == origin then R.Remember(LastOf(before, n), stamp) else LastOf(before, n)
  }

  class Handlers {
    const nodeId: NodeId
    const key: Key
    const cache: PresenceCache
    const channel: C.Channel
    var sent: map<SocketId, seq<P.Frame>>
    var expired: seq<UserId>
    var left: map<SocketId, seq<P.Frame>>
    var kicked: set<SocketId>
    var peerSeqs: map<NodeId, (nat, int)>

    ghost predicate Valid()
      reads this, channel
    {
      channel.Valid() && channel.presence && forall s | s in channel.members :: channel.members[s].Some?
    }

    ghost function Room(): P.Room<Option<Info>>
      reads this, cache, channel
    {
      P.Room(UserBySocket(channel.members), At(cache.peers, key), sent, expired, left, kicked)
    }

    constructor (nodeId: NodeId, key: Key, cache: PresenceCache, channel: C.Channel)
      requires channel.Valid() && channel.presence && channel.members == map[]
      ensures Valid() && this.nodeId == nodeId && this.key == key && this.cache == cache && this.channel == channel
      ensures Room() == P.Room(map[], At(cache.peers, key), map[], [], map[], {}) && peerSeqs == map[]
    {
      this.nodeId, this.key, this.cache, this.channel := nodeId, key, cache, channel;
      sent, expired, left, kicked, peerSeqs := map[], [], map[], {}, map[];
    }

    method Broadcast(frame: P.Frame, except: Option<SocketId>)
      modifies this`sent
      ensures sent == P.SendAll(old(sent), [frame], except)
    {
      var todo := sent.Keys;
      while todo != {}
        invariant todo <= sent.Keys == old(sent).Keys
        invariant forall s | s in sent ::
                    sent[s] == if s in todo || except == Some(s) then old(sent)[s] else old(sent)[s] + [frame]
        decreases todo
      {
        var s :| s in todo;
        todo := todo - {s};
        if except != Some(s) {
          sent := sent[s := sent[s] + [frame]];
        }
      }
    }

    method AcceptSeq(node: NodeId, stamp: nat, now: int) returns (ok: bool)
      modifies this`peerSeqs
      ensures ok <==> R.Accepts(LastOf(old(peerSeqs), node), stamp)
      ensures Noted(old(peerSeqs), peerSeqs, node, stamp)
    {
      if stamp == 0 {
        return true;
      }
      var entry := if node in peerSeqs then peerSeqs[node] else (0, now);
      if stamp <= entry.0 {
        peerSeqs := peerSeqs[node := entry];
        return false;
      }
      peerSeqs := peerSeqs[node := (stamp, now)];
      ok := true;
    }

    method HandleMemberAdded(origin: NodeId, user: UserId, info: Option<Info>, stamp: nat, attached: bool, now: int)
      requires Valid()
      modifies this, cache
      ensures Valid()
      ensures Room() == if origin == nodeId || !R.Accepts(LastOf(old(peerSeqs), origin), stamp) then old(Room())
                        else P.DoRemoteAdded(old(Room()), origin, user, info, attached, now)
      ensures Noted(old(peerSeqs), peerSeqs, origin, if origin == nodeId then 0 else stamp)
    {
      if origin == nodeId {
        return;
      }
      var ok := AcceptSeq(origin, stamp, now);
      if !ok {
        return;
      }
      NamedUsers(channel.members);
      var here := channel.HasUserId(user);
      var elsewhere := cache.IsPresentExcluding(key, user, Some(origin), now);
      var _ := cache.AddLive(key, origin, user, info, now);
      if !((attached && here) || elsewhere) {
        if attached {
          Broadcast(P.Added(user), None);
        }
      }
    }

    method HandleMemberRemoved(origin: NodeId, user: UserId, stamp: nat, attached: bool, now: int) returns (gone: bool)
      requires Valid()
      modifies this, cache
      ensures Valid()
      ensures Room() == if origin == nodeId || !R.Accepts(LastOf(old(peerSeqs), origin), stamp) then old(Room())
                        else P.DoRemoteRemoved(old(Room()), origin, user, attached, now)
      ensures Noted(old(peerSeqs), peerSeqs, origin, if origin == nodeId then 0 else stamp)
      ensures gone ==> !PresentExcluding(At(cache.peers, key), now, user, None)
    {
      gone := false;
      if origin == nodeId {
        return;
      }
      var ok := AcceptSeq(origin, stamp, now);
      if !ok {
        return;
      }
      NamedUsers(channel.members);
      var _ := cache.RemoveLive(key, origin, user, now);
      var here := channel.HasUserId(user);
      var elsewhere := cache.IsPresentExcluding(key, user, None, now);
      gone := !(attached && here) && !elsewhere;
      if gone && attached {
        Broadcast(P.Removed(user), None);
      }
    }

    /** The diff is announced user by user, in whatever order the sets are walked. */
    method HandleSnapshot(origin: NodeId, members: seq<Member>, stamp: nat, attached: bool, now: int)
      returns (ghost frames: seq<P.Frame>)
      requires Valid()
      modifies this, cache
      ensures Valid()
      ensures
        var step := P.RemoteSnapshot(origin, Collect(members), frames, attached, now);
        if origin == nodeId then Room() == old(Room())
        else if !R.Accepts(LastOf(old(peerSeqs), origin), stamp) then
          Room() == P.Do(old(Room()), P.StaleSnapshot(origin, now))
        else P.Legal(old(Room()), step) && Room() == P.Do(old(Room()), step)
      ensures Noted(old(peerSeqs), peerSeqs, origin, if origin == nodeId then 0 else stamp)
    {
      frames := [];
      if origin == nodeId {
        return;
      }
      var ok := AcceptSeq(origin, stamp, now);
      if !ok {
        cache.Touch(key, origin, now);
        return;
      }
      if !attached {
        cache.InsertSnapshot(key, origin, members, now);
        return;
      }
      frames := ApplySnapshot(origin, members, now);
    }

    method ApplySnapshot(origin: NodeId, members: seq<Member>, now: int) returns (ghost frames: seq<P.Frame>)
      requires Valid()
      modifies this`sent, cache
      ensures Valid()
      ensures At(cache.peers, key) == PeerTable.InsertSnapshot(At(old(cache.peers), key), origin, Collect(members), now)
      ensures P.IsDiff(frames, P.Gone(old(Room()), At(cache.peers, key)), P.Come(old(Room()), At(cache.peers, key)))
      ensures sent == P.SendAll(old(sent), frames, None)
    {
      NamedUsers(channel.members);
      var before := Announced(At(cache.peers, key));
      cache.InsertSnapshot(key, origin, members, now);
      var after := Announced(At(cache.peers, key));
      assert forall s | s in sent :: sent[s] + [] == sent[s];
      frames := AnnounceEach(before - after, false, [], sent);
      frames := AnnounceEach(after - before, true, frames, old(sent));
    }

    /** Announces each user of `users` that has no local socket, after `done` already sent. */
    method AnnounceEach(users: set<UserId>, added: bool, ghost done: seq<P.Frame>, ghost start: map<SocketId, seq<P.Frame>>)
      returns (ghost frames: seq<P.Frame>)
      requires Valid() && sent == P.SendAll(start, done, None)
      modifies this`sent
      ensures sent == P.SendAll(start, frames, None)
      ensures done <= frames
      ensures forall i | |done| <= i < |frames| ::
                frames[i].Roster? == false && frames[i].Added? == added && frames[i].user in users - C.UsersOf(channel.members)
      ensures forall u | u in users - C.UsersOf(channel.members) :: (if added then P.Added(u) else P.Removed(u)) in frames
    {
      frames := done;
      var todo := users;
      while todo != {}
        invariant todo <= users && sent == P.SendAll(start, frames, None) && done <= frames
        invariant forall i | |done| <= i < |frames| ::
                    frames[i].Roster? == false && frames[i].Added? == added && frames[i].user in users - C.UsersOf(channel.members)
        invariant forall u | u in users - C.UsersOf(channel.members) - todo ::
                    (if added then P.Added(u) else P.Removed(u)) in frames
        decreases todo
      {
        var u :| u in todo;
        todo := todo - {u};
        var here := channel.HasUserId(u);
        if !here {
          var frame := if added then P.Added(u) else P.Removed(u);
          Broadcast(frame, None);
          SendAllTwice(start, frames, frame);
          frames := frames + [frame];
        }
      }
    }

    /** Whether a subscribe is admitted, and what it reads of the peers. */
    method Admit(user: UserId, cap: nat, now: int) returns (admitted: bool, remotely: bool, remoteIds: set<UserId>)
      requires Valid()
      ensures admitted <==> P.Admits(Room(), user, cap, now)
      ensures remotely <==> PresentExcluding(At(cache.peers, key), now, user, None)
      ensures remoteIds == FreshUsers(At(cache.peers, key), now)
    {
      NamedUsers(channel.members);
      var remote := cache.RemoteMembersFor(key, now);
      remoteIds := set m | m in remote :: m.userId;
      remotely := cache.IsPresentExcluding(key, user, None, now);
      var here := channel.HasUserId(user);
      if here || remotely {
        return true, remotely, remoteIds;
      }
      var userCount := channel.UserCount();
      var remoteOnly := remoteIds - C.UsersOf(channel.members);
      CountsAdd(C.UsersOf(channel.members), remoteIds);
      admitted := userCount + |remoteOnly| < cap;
    }

    /**
     A subscribe: admission, membership, announcement and roster, under the
     transition lock. A socket that is a member already is only answered, with
     `drained` of its frames written; peers are told of a user that is added.
     */
    method Join(socket: SocketId, user: UserId, cap: nat, drained: nat, now: int) returns (admitted: bool, userAdded: bool)
      requires Valid() && (socket in sent ==> drained <= |sent[socket]|)
      modifies this`sent, this`left, channel`members, channel`refs
      ensures Valid()
      ensures Room() == P.DoSubscribe(old(Room()), socket, user, cap, drained, now)
      ensures admitted <==> P.Admits(old(Room()), user, cap, now)
      ensures userAdded <==> admitted && socket !in old(channel.members) && user !in C.UsersOf(old(channel.members))
    {
      var remotely, remoteIds;
      admitted, remotely, remoteIds := Admit(user, cap, now);
      userAdded := false;
      if !admitted {
        return;
      }
      if socket in channel.members {
        Answer(socket, drained, remoteIds, now);
        return;
      }
      userAdded := Seat(socket, user, remotely, remoteIds, now);
    }

    /** The roster, written directly to a subscriber, ahead of what is queued for it. */
    method Answer(socket: SocketId, drained: nat, remoteIds: set<UserId>, now: int)
      requires Valid() && (socket in sent ==> drained <= |sent[socket]|)
      requires remoteIds == FreshUsers(At(cache.peers, key), now)
      modifies this`sent
      ensures Room() == if socket in old(sent) then P.DoResubscribe(old(Room()), socket, drained, now) else old(Room())
    {
      NamedUsers(channel.members);
      if socket in sent {
        var roster := P.Roster(C.UsersOf(channel.members) + remoteIds);
        sent := sent[socket := sent[socket][..drained] + [roster] + sent[socket][drained..]];
      }
    }

    method Seat(socket: SocketId, user: UserId, remotely: bool, remoteIds: set<UserId>, now: int) returns (userAdded: bool)
      requires Valid() && socket !in channel.members
      requires remotely == PresentExcluding(At(cache.peers, key), now, user, None)
      requires remoteIds == FreshUsers(At(cache.peers, key), now)
      modifies this`sent, this`left, channel`members, channel`refs
      ensures Valid()
      ensures Room() == P.Seat(old(Room()), socket, user, now)
      ensures userAdded <==> user !in C.UsersOf(old(channel.members))
    {
      JoinUsers(channel.members, socket, user);
      ghost var room := Room();
      var r := channel.Subscribe(socket, Some(user));
      assert Valid();
      userAdded := r.userAdded;
      if userAdded && !remotely {
        Broadcast(P.Added(user), Some(socket));
      }
      assert sent == if user in P.Locals(room) || remotely then room.sent else P.SendAll(room.sent, [P.Added(user)], Some(socket));
      sent := if socket in kicked then sent - {socket}
              else sent[socket := [P.Roster(C.UsersOf(channel.members) + remoteIds)] + (if socket in left then left[socket] else [])];
      left := left - {socket};
    }

    /** A leave, with `drained` of the socket's frames written: peers are told of `publishes`; `withheld` says that its webhook waits for a peer. */
    method Leave(socket: SocketId, drained: nat, now: int) returns (publishes: Option<UserId>, withheld: bool)
      requires Valid() && P.Legal(Room(), P.Leave(socket, drained, now))
      modifies this`sent, this`left, channel`members, channel`refs
      ensures Valid()
      ensures Room() == P.DoLeave(old(Room()), socket, drained, now)
      ensures publishes == if socket in old(channel.members) && old(channel.members)[socket].value !in C.UsersOf(channel.members)
                           then old(channel.members)[socket] else None
      ensures withheld <==> publishes.Some? && PresentExcluding(At(cache.peers, key), now, publishes.value, None)
    {
      withheld := false;
      ghost var before := channel.members;
      if socket in channel.members { LeaveRoom(Room(), channel.members, socket, drained, now); }
      var outcome := channel.Unsubscribe(socket);
      publishes := outcome.userRemoved;
      if !outcome.wasMember {
        assert channel.members == before;
        return;
      }
      if socket in sent {
        left := left[socket := sent[socket][drained..]];
      }
      sent := sent - {socket};
      if publishes.Some? {
        withheld := AnnounceLeave(publishes.value, now);
      }
    }

    method AnnounceLeave(user: UserId, now: int) returns (withheld: bool)
      modifies this`sent
      ensures withheld <==> PresentExcluding(At(cache.peers, key), now, user, None)
      ensures sent == if withheld then old(sent) else P.SendAll(old(sent), [P.Removed(user)], None)
    {
      withheld := cache.IsPresentExcluding(key, user, None, now);
      if !withheld {
        Broadcast(P.Removed(user), None);
      }
    }

    /** The connection task writes `count` frames left queued for a socket that is no longer a member. */
    method Drain(socket: SocketId, count: nat)
      requires P.Legal(Room(), P.Drain(socket, count))
      modifies this`left
      ensures Room() == P.Do(old(Room()), P.Drain(socket, count))
    {
      left := left[socket := left[socket][count..]];
    }

    /** A full queue: the subscriber is cut off, and its connection about to be closed. */
    method Kick(socket: SocketId)
      modifies this`sent, this`kicked
      ensures Room() == P.Do(old(Room()), P.Kick(socket))
    {
      sent := sent - {socket};
      kicked := kicked + {socket};
    }

    /** GC reaps outside the transition lock; the removals are announced one by one afterwards. */
    method Sweep(now: int) returns (ghost stale: seq<UserId>)
      modifies this`expired, cache
      ensures P.Legal(old(Room()), P.Sweep(stale, now)) && Room() == P.Do(old(Room()), P.Sweep(stale, now))
    {
      ghost var before := At(cache.peers, key);
      var all := cache.GcExpired(now);
      var mine := OfChannel(all, key);
      stale := mine;
      forall u ensures u in P.Elements(mine) <==> u in StaleUsers(before, now) {
        assert ExpiredMember(key, u) in all <==> u in StaleUsers(before, now);
      }
      expired := expired + mine;
    }

    method AnnounceNext(attached: bool, now: int)
      requires Valid() && expired != []
      modifies this`expired, this`sent
      ensures Valid()
      ensures Room() == P.DoAnnounceExpired(old(Room()), attached, now)
    {
      var user := expired[0];
      expired := expired[1..];
      NamedUsers(channel.members);
      if attached {
        var remaining := cache.RemoteMembersFor(key, now);
        var here := channel.HasUserId(user);
        if user !in (set m | m in remaining :: m.userId) && !here {
          Broadcast(P.Removed(user), None);
        }
      }
    }
  }

  lemma JoinUsers(members: C.Members, s: SocketId, user: UserId)
    requires s !in members
    ensures UserBySocket(members[s := Some(user)]) == UserBySocket(members)[s := user]
    ensures P.Users(UserBySocket(members)) == C.UsersOf(members)
    ensures P.Users(UserBySocket(members)[s := user]) == C.UsersOf(members[s := Some(user)]) == C.UsersOf(members) + {user}
  {
    NamedUsers(members);
    NamedUsers(members[s := Some(user)]);
    C.UsersAfterJoin(members, s, Some(user));
  }

  lemma LeaveRoom(r: P.Room<Option<Info>>, members: C.Members, s: SocketId, drained: nat, now: int)
    requires r.members == UserBySocket(members) && s in members && members[s].Some?
    requires s in r.sent ==> drained <= |r.sent[s]|
    ensures
      var u, sent := members[s].value, r.sent - {s};
      var quiet := u in C.UsersOf(members - {s}) || PresentExcluding(r.peers, now, u, None);
      P.DoLeave(r, s, drained, now) ==
        P.Room(UserBySocket(members - {s}), r.peers, if quiet then sent else P.SendAll(sent, [P.Removed(u)], None), r.expired,
               if s in r.sent then r.left[s := r.sent[s][drained..]] else r.left, r.kicked)
  {
    LeaveUsers(members, s);
  }

  lemma LeaveUsers(members: C.Members, s: SocketId)
    requires s in members && members[s].Some?
    ensures UserBySocket(members - {s}) == UserBySocket(members) - {s} && UserBySocket(members)[s] == members[s].value
    ensures P.Users(UserBySocket(members) - {s}) == C.UsersOf(members - {s})
  {
    NamedUsers(members - {s});
  }

  /** The users `all` names for this channel, in order. */
  method OfChannel(all: seq<ExpiredMember>, key: Key) returns (mine: seq<UserId>)
    ensures P.Elements(mine) == set e | e in all && e.key == key :: e.userId
  {
    mine := [];
    for i := 0 to |all|
      invariant P.Elements(mine) == set e | e in all[..i] && e.key == key :: e.userId
    {
      assert all[..i + 1] == all[..i] + [all[i]];
      assert forall e :: e in all[..i + 1] <==> e in all[..i] || e == all[i];
      if all[i].key == key {
        P.ElementsConcat(mine, [all[i].userId]);
        assert P.Elements([all[i].userId]) == {all[i].userId} by { assert [all[i].userId][0] == all[i].userId; }
        mine := mine + [all[i].userId];
      }
    }
    assert all[..|all|] == all;
  }

  lemma SendAllTwice(start: map<SocketId, seq<P.Frame>>, fs: seq<P.Frame>, f: P.Frame)
    ensures P.SendAll(P.SendAll(start, fs, None), [f], None) == P.SendAll(start, fs + [f], None)
  {
    assert forall s | s in start :: start[s] + fs + [f] == start[s] + (fs + [f]);
  }

  lemma CountsAdd(a: set<UserId>, b: set<UserId>)
    ensures |a + b| == |a| + |b - a|
  {
    assert a + b == a + (b - a);
  }
}
