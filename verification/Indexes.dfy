/**
 The indexes of one app on one node: each connection's own subscription set and
 bound user, the channel map, the user index and the watch sets. After every
 complete operation they all describe the same facts.
 */
module Indexes {
  import opened PeerTable

  type SocketId = string
  type Channel = string

  datatype Conn = Conn(subs: set<Channel>, user: Option<UserId>)

  /** A channel's member sockets; `retained` says that a cached payload keeps it when empty. */
  datatype ChannelEntry = ChannelEntry(members: set<SocketId>, retained: bool)

  type Conns = map<SocketId, Conn>
  type ChannelMap = map<Channel, ChannelEntry>
  type UserIndex = map<UserId, seq<SocketId>>
  type Watchers = map<UserId, set<UserId>>

  const MAX_WATCHLIST_SIZE := 100
  /** The registration check casts the table's length to 32 bits. */
  const U32_RANGE := 0x1_0000_0000

  function MembersOf(channels: ChannelMap, c: Channel): set<SocketId> {
    if c in channels then channels[c].members else {}
  }

  function SocketsOf(index: UserIndex, u: UserId): seq<SocketId> {
    if u in index then index[u] else []
  }

  function WatchersOf(watchers: Watchers, u: UserId): set<UserId> {
    if u in watchers then watchers[u] else {}
  }

  /** A socket is a member exactly of the channels in its own subscription set. */
  ghost predicate SubsAgree(conns: Conns, channels: ChannelMap) {
    forall s, c :: s in MembersOf(channels, c) <==> Subscribed(conns, s, c)
  }

  predicate Subscribed(conns: Conns, s: SocketId, c: Channel) {
    s in conns && c in conns[s].subs
  }

  ghost predicate NoneEmpty(channels: ChannelMap) {
    forall c | c in channels :: channels[c].members != {} || channels[c].retained
  }

  /** The user index lists exactly the sockets bound to each user, each once. */
  ghost predicate UsersAgree(conns: Conns, index: UserIndex) {
    && (forall u, s :: s in SocketsOf(index, u) <==> BoundTo(conns, s, u))
    && (forall u | u in index :: index[u] != [] && Distinct(index[u]))
  }

  predicate BoundTo(conns: Conns, s: SocketId, u: UserId) {
    s in conns && conns[s].user == Some(u)
  }

  ghost predicate Distinct(ss: seq<SocketId>) {
    forall i, j | 0 <= i < j < |ss| :: ss[i] != ss[j]
  }

  /** Whoever watches is online here. */
  ghost predicate WatchersOnline(index: UserIndex, watchers: Watchers) {
    forall u | u in watchers :: watchers[u] != {} && watchers[u] <= index.Keys
  }

  datatype SignInResult = Bound(firstSocket: bool) | AlreadyBound | Refused

  class AppIndexes {
    var conns: Conns
    var channels: ChannelMap
    var index: UserIndex
    var watchers: Watchers

    ghost predicate Valid()
      reads this
    {
      && SubsAgree(conns, channels)
      && NoneEmpty(channels)
      && UsersAgree(conns, index)
      && WatchersOnline(index, watchers)
    }

    constructor ()
      ensures Valid() && conns == map[] && channels == map[] && index == map[] && watchers == map[]
    {
      conns, channels, index, watchers := map[], map[], map[], map[];
    }

    /**
     Registration inserts first and backs out if the app is over its limit. Nothing
     stops a second registration under the same id: the indexes then agree exactly if
     the first had neither subscribed nor signed in.
     */
    method Register(s: SocketId, max: Option<nat>) returns (ok: bool)
      requires Valid()
      modifies this`conns
      ensures ok <==> max.None? || |old(conns).Keys + {s}| % U32_RANGE <= max.value
      ensures conns == if ok then old(conns)[s := Conn({}, None)] else old(conns) - {s}
      ensures Valid() <==> s !in old(conns) || old(conns)[s] == Conn({}, None)
    {
      ghost var before := conns;
      conns := conns[s := Conn({}, None)];
      assert conns.Keys == before.Keys + {s};
      assert |conns| == |conns.Keys|;
      ok := true;
      if max.Some? && |conns| % U32_RANGE > max.value {
        conns := conns - {s};
        assert conns == before - {s};
        ok := false;
      }
      if s !in before || before[s] == Conn({}, None) {
        BlankConn(before, conns, channels, index, s);
      } else {
        LostConn(before, conns, channels, index, s);
      }
    }

    /** A subscribe: refused over the per-connection limit or by admission; repeated, a no-op. */
    method Subscribe(s: SocketId, c: Channel, limit: nat, admit: bool) returns (ok: bool)
      requires Valid() && s in conns
      modifies this`conns, this`channels
      ensures Valid()
      ensures ok <==> admit && (c in old(conns)[s].subs || |old(conns)[s].subs| < limit)
      ensures conns == if ok then old(conns)[s := old(conns)[s].(subs := old(conns)[s].subs + {c})] else old(conns)
      ensures forall d :: MembersOf(channels, d) ==
                if ok && d == c then MembersOf(old(channels), d) + {s} else MembersOf(old(channels), d)
    {
      if c !in conns[s].subs && |conns[s].subs| >= limit {
        return false;
      }
      EnterChannel(s, c, admit);
      if !admit {
        SubsSame(conns, old(channels), channels);
        return false;
      }
      conns := conns[s := conns[s].(subs := conns[s].subs + {c})];
      SubsAfterJoin(old(conns), old(channels), channels, s, c);
      UsersSame(old(conns), conns, index);
      ok := true;
    }

    /** Finds or creates the channel and enters it if admitted; a refused join leaves no empty channel behind. */
    method EnterChannel(s: SocketId, c: Channel, admit: bool)
      requires NoneEmpty(channels)
      modifies this`channels
      ensures forall d :: MembersOf(channels, d) ==
                if admit && d == c then MembersOf(old(channels), d) + {s} else MembersOf(old(channels), d)
      ensures NoneEmpty(channels)
    {
      if c !in channels {
        channels := channels[c := ChannelEntry({}, false)];
      }
      if !admit {
        DropIfEmpty(c);
        return;
      }
      channels := channels[c := channels[c].(members := channels[c].members + {s})];
    }

    method DropIfEmpty(c: Channel)
      modifies this`channels
      ensures channels == if c in old(channels) && old(channels)[c].members == {} && !old(channels)[c].retained
                          then old(channels) - {c} else old(channels)
    {
      if c in channels && channels[c].members == {} && !channels[c].retained {
        channels := channels - {c};
      }
    }

    /** Removes the socket from the channel map only; its own set is the caller's business. */
    method LeaveChannel(s: SocketId, c: Channel)
      requires NoneEmpty(channels)
      modifies this`channels
      ensures forall d :: MembersOf(channels, d) ==
                if d == c then MembersOf(old(channels), d) - {s} else MembersOf(old(channels), d)
      ensures NoneEmpty(channels)
    {
      if c !in channels {
        return;
      }
      channels := channels[c := channels[c].(members := channels[c].members - {s})];
      DropIfEmpty(c);
    }

    method Unsubscribe(s: SocketId, c: Channel)
      requires Valid() && s in conns
      modifies this`conns, this`channels
      ensures Valid()
      ensures conns == old(conns)[s := old(conns)[s].(subs := old(conns)[s].subs - {c})]
      ensures forall d :: MembersOf(channels, d) ==
                if d == c then MembersOf(old(channels), d) - {s} else MembersOf(old(channels), d)
    {
      conns := conns[s := conns[s].(subs := conns[s].subs - {c})];
      LeaveChannel(s, c);
      SubsAfterLeave(old(conns), old(channels), channels, s, c);
      UsersSame(old(conns), conns, index);
    }

    /** A socket's identity is bound once; its watchlist is cut to the first hundred entries. */
    method SignIn(s: SocketId, u: UserId, watchlist: seq<Option<UserId>>) returns (r: SignInResult)
      requires Valid() && s in conns
      modifies this`conns, this`index, this`watchers
      ensures Valid()
      ensures
        match old(conns)[s].user
        case Some(x) =>
          && r == (if x == u then AlreadyBound else Refused)
          && conns == old(conns) && index == old(index) && watchers == old(watchers)
        case None =>
          && r == Bound(u !in old(index))
          && conns == old(conns)[s := old(conns)[s].(user := Some(u))]
          && index == old(index)[u := SocketsOf(old(index), u) + [s]]
          && forall w :: WatchersOf(watchers, w) ==
               WatchersOf(old(watchers), w) + if Named(watchlist, w) then {u} else {}
    {
      match conns[s].user
      case Some(x) =>
        r := if x == u then AlreadyBound else Refused;
      case None =>
        r := Bound(u !in index);
        UsersAfterBind(conns, index, s, u);
        conns := conns[s := conns[s].(user := Some(u))];
        index := index[u := SocketsOf(index, u) + [s]];
        SubsSameConns(old(conns), conns, channels);
        AddWatches(u, Kept(watchlist));
        forall w ensures Some(w) in Kept(watchlist) <==> Named(watchlist, w) { KeptIff(watchlist, w); }
    }

    /** Entries that are not strings are skipped. */
    method AddWatches(u: UserId, list: seq<Option<UserId>>)
      requires WatchersOnline(index, watchers) && u in index
      modifies this`watchers
      ensures WatchersOnline(index, watchers)
      ensures forall w :: WatchersOf(watchers, w) ==
                WatchersOf(old(watchers), w) + if Some(w) in list then {u} else {}
    {
      for i := 0 to |list|
        invariant WatchersOnline(index, watchers)
        invariant forall w :: WatchersOf(watchers, w) ==
                    WatchersOf(old(watchers), w) + if Some(w) in list[..i] then {u} else {}
      {
        if list[i].Some? {
          var w := list[i].value;
          watchers := watchers[w := WatchersOf(watchers, w) + {u}];
        }
        assert list[..i + 1] == list[..i] + [list[i]];
      }
      assert list[..|list|] == list;
    }

    /** Drops `u` from every watch set, unless it is online again. */
    method RemoveAllWatchesFor(u: UserId)
      requires forall w | w in watchers :: watchers[w] != {}
      modifies this`watchers
      ensures forall w :: WatchersOf(watchers, w) ==
                if u in index then WatchersOf(old(watchers), w) else WatchersOf(old(watchers), w) - {u}
      ensures forall w | w in watchers :: watchers[w] != {}
    {
      var todo := watchers.Keys;
      while todo != {}
        invariant todo <= watchers.Keys <= old(watchers).Keys
        invariant forall w :: WatchersOf(watchers, w) ==
                    if w in todo || u in index then WatchersOf(old(watchers), w) else WatchersOf(old(watchers), w) - {u}
        invariant forall w | w in watchers :: watchers[w] != {}
        decreases todo
      {
        var w :| w in todo;
        todo := todo - {w};
        if u in index {
          return;
        }
        var rest := watchers[w] - {u};
        watchers := if rest == {} then watchers - {w} else watchers[w := rest];
      }
    }

    /** Leaves every channel in the connection's own set. */
    method LeaveAll(s: SocketId)
      requires Valid() && s in conns
      modifies this`channels
      ensures forall c :: MembersOf(channels, c) == MembersOf(old(channels), c) - {s}
      ensures NoneEmpty(channels)
    {
      var todo := conns[s].subs;
      while todo != {}
        invariant forall c :: MembersOf(channels, c) ==
                    if c in todo then MembersOf(old(channels), c) else MembersOf(old(channels), c) - {s}
        invariant NoneEmpty(channels)
        decreases todo
      {
        var c :| c in todo;
        todo := todo - {c};
        LeaveChannel(s, c);
      }
    }

    /** Removes the socket from the user index; true when it was the user's last one. */
    method UnbindUser(u: UserId, s: SocketId) returns (last: bool)
      modifies this`index
      ensures last <==> u in old(index) && Without(old(index)[u], s) == []
      ensures index == AfterUnbind(old(index), u, s)
    {
      last := false;
      if u in index {
        var rest := Without(index[u], s);
        index := index[u := rest];
        if rest == [] {
          index := index - {u};
          last := true;
        }
      }
    }

    /** A connection goes away: afterwards nothing refers to its socket. */
    method Cleanup(s: SocketId) returns (offline: Option<UserId>)
      requires Valid() && s in conns
      modifies this
      ensures Valid()
      ensures conns == old(conns) - {s}
      ensures forall c :: MembersOf(channels, c) == MembersOf(old(channels), c) - {s}
      ensures forall u :: SocketsOf(index, u) == Without(SocketsOf(old(index), u), s)
      ensures forall u :: offline == Some(u) <==> old(conns)[s].user == Some(u) && u !in index
      ensures forall w :: WatchersOf(watchers, w) ==
                WatchersOf(old(watchers), w) - if offline.Some? then {offline.value} else {}
    {
      LeaveAll(s);
      SubsAfterGone(conns, old(channels), channels, s);
      offline := None;
      var bound := conns[s].user;
      if bound.Some? {
        UsersAfterUnbind(conns, index, s, bound.value);
        var last := UnbindUser(bound.value, s);
        if last {
          RemoveAllWatchesFor(bound.value);
          offline := bound;
        }
        WatchersAfterUnbind(old(index), old(watchers), watchers, bound.value, s);
      } else {
        UsersWithoutUnbound(conns, index, s);
      }
      conns := conns - {s};
    }
  }

  function Kept(watchlist: seq<Option<UserId>>): seq<Option<UserId>> {
    if |watchlist| > MAX_WATCHLIST_SIZE then watchlist[..MAX_WATCHLIST_SIZE] else watchlist
  }

  /** One of the first hundred entries is `w`. */
  ghost predicate Named(watchlist: seq<Option<UserId>>, w: UserId) {
    exists i | 0 <= i < |watchlist| && i < 100 :: watchlist[i] == Some(w)
  }

  lemma KeptIff(watchlist: seq<Option<UserId>>, w: UserId)
    ensures Some(w) in Kept(watchlist) <==> Named(watchlist, w)
  {
    if Some(w) in Kept(watchlist) {
      var i :| 0 <= i < |Kept(watchlist)| && Kept(watchlist)[i] == Some(w);
      assert watchlist[i] == Some(w);
    }
    if i :| 0 <= i < |watchlist| && i < 100 && watchlist[i] == Some(w) {
      assert Kept(watchlist)[i] == Some(w);
    }
  }

  /** The sockets other than `s`, in order. */
  function Without(ss: seq<SocketId>, s: SocketId): (r: seq<SocketId>)
    ensures forall t :: t in r <==> t in ss && t != s
  {
    if ss == [] then []
    else
      var init := Without(ss[..|ss| - 1], s);
      assert ss == ss[..|ss| - 1] + [ss[|ss| - 1]];
      if ss[|ss| - 1] == s then init else init + [ss[|ss| - 1]]
  }

  function AfterUnbind(index: UserIndex, u: UserId, s: SocketId): UserIndex {
    if u !in index then index
    else if Without(index[u], s) == [] then index - {u}
    else index[u := Without(index[u], s)]
  }

  lemma {:induction false} WithoutDistinct(ss: seq<SocketId>, s: SocketId)
    requires Distinct(ss)
    ensures Distinct(Without(ss, s))
  {
    if ss != [] {
      var init, x := ss[..|ss| - 1], ss[|ss| - 1];
      WithoutDistinct(init, s);
      assert forall i | 0 <= i < |init| :: init[i] == ss[i];
      var r := Without(init, s);
      forall i | 0 <= i < |r| ensures r[i] != x {
        assert r[i] in init;
      }
    }
  }

  lemma {:induction false} WithoutAbsent(ss: seq<SocketId>, s: SocketId)
    requires s !in ss
    ensures Without(ss, s) == ss
  {
    if ss != [] {
      WithoutAbsent(ss[..|ss| - 1], s);
      assert ss == ss[..|ss| - 1] + [ss[|ss| - 1]];
    }
  }

  /** A connection without subscriptions and user may come and go. */
  lemma BlankConn(before: Conns, after: Conns, channels: ChannelMap, index: UserIndex, s: SocketId)
    requires SubsAgree(before, channels) && UsersAgree(before, index)
    requires s !in before || before[s] == Conn({}, None)
    requires after == before[s := Conn({}, None)] || after == before - {s}
    ensures SubsAgree(after, channels) && UsersAgree(after, index)
  {
    forall t, c ensures Subscribed(after, t, c) <==> Subscribed(before, t, c) {
    }
    forall t, u ensures BoundTo(after, t, u) <==> BoundTo(before, t, u) {
    }
  }

  /** One with either may not: the channel map or the user index still names it. */
  lemma LostConn(before: Conns, after: Conns, channels: ChannelMap, index: UserIndex, s: SocketId)
    requires SubsAgree(before, channels) && UsersAgree(before, index)
    requires s in before && before[s] != Conn({}, None)
    requires after == before[s := Conn({}, None)] || after == before - {s}
    ensures !SubsAgree(after, channels) || !UsersAgree(after, index)
  {
    if before[s].subs != {} {
      var c :| c in before[s].subs;
      assert Subscribed(before, s, c) && !Subscribed(after, s, c);
      assert s in MembersOf(channels, c);
    } else {
      var u := before[s].user.value;
      assert BoundTo(before, s, u) && !BoundTo(after, s, u);
      assert s in SocketsOf(index, u);
    }
  }

  lemma SubsSame(conns: Conns, before: ChannelMap, after: ChannelMap)
    requires SubsAgree(conns, before)
    requires forall d :: MembersOf(after, d) == MembersOf(before, d)
    ensures SubsAgree(conns, after)
  {
  }

  lemma SubsSameConns(before: Conns, after: Conns, channels: ChannelMap)
    requires SubsAgree(before, channels)
    requires before.Keys == after.Keys && forall s | s in before :: before[s].subs == after[s].subs
    ensures SubsAgree(after, channels)
  {
    forall s, c ensures Subscribed(after, s, c) <==> Subscribed(before, s, c) {
    }
  }

  lemma SubsAfterJoin(conns: Conns, before: ChannelMap, after: ChannelMap, s: SocketId, c: Channel)
    requires SubsAgree(conns, before) && s in conns
    requires forall d :: MembersOf(after, d) == if d == c then MembersOf(before, d) + {s} else MembersOf(before, d)
    ensures SubsAgree(conns[s := conns[s].(subs := conns[s].subs + {c})], after)
  {
    var joined := conns[s := conns[s].(subs := conns[s].subs + {c})];
    forall t, d ensures t in MembersOf(after, d) <==> Subscribed(joined, t, d) {
      assert t in MembersOf(before, d) <==> Subscribed(conns, t, d);
    }
  }

  lemma SubsAfterLeave(conns: Conns, before: ChannelMap, after: ChannelMap, s: SocketId, c: Channel)
    requires SubsAgree(conns, before) && s in conns
    requires forall d :: MembersOf(after, d) == if d == c then MembersOf(before, d) - {s} else MembersOf(before, d)
    ensures SubsAgree(conns[s := conns[s].(subs := conns[s].subs - {c})], after)
  {
    var left := conns[s := conns[s].(subs := conns[s].subs - {c})];
    forall t, d ensures t in MembersOf(after, d) <==> Subscribed(left, t, d) {
      assert t in MembersOf(before, d) <==> Subscribed(conns, t, d);
    }
  }

  lemma SubsAfterGone(conns: Conns, before: ChannelMap, after: ChannelMap, s: SocketId)
    requires SubsAgree(conns, before)
    requires forall d :: MembersOf(after, d) == MembersOf(before, d) - {s}
    ensures SubsAgree(conns - {s}, after)
  {
    forall t, d ensures t in MembersOf(after, d) <==> Subscribed(conns - {s}, t, d) {
      assert t in MembersOf(before, d) <==> Subscribed(conns, t, d);
    }
  }

  lemma UsersSame(before: Conns, after: Conns, index: UserIndex)
    requires UsersAgree(before, index)
    requires before.Keys == after.Keys && forall s | s in before :: before[s].user == after[s].user
    ensures UsersAgree(after, index)
  {
    forall s, u ensures BoundTo(after, s, u) <==> BoundTo(before, s, u) {
    }
  }

  lemma UsersAfterBind(conns: Conns, index: UserIndex, s: SocketId, u: UserId)
    requires UsersAgree(conns, index) && s in conns && conns[s].user.None?
    ensures UsersAgree(conns[s := conns[s].(user := Some(u))], index[u := SocketsOf(index, u) + [s]])
  {
    var ss := SocketsOf(index, u);
    var conns', index' := conns[s := conns[s].(user := Some(u))], index[u := ss + [s]];
    assert !BoundTo(conns, s, u) && s !in ss;
    assert Distinct(ss);
    forall v, t ensures t in SocketsOf(index', v) <==> BoundTo(conns', t, v) {
      assert t in SocketsOf(index, v) <==> BoundTo(conns, t, v);
    }
    assert Distinct(ss + [s]) by {
      forall i | 0 <= i < |ss| ensures ss[i] != s { assert ss[i] in ss; }
    }
  }

  lemma UsersAfterUnbind(conns: Conns, index: UserIndex, s: SocketId, u: UserId)
    requires UsersAgree(conns, index) && BoundTo(conns, s, u)
    ensures u in index
    ensures UsersAgree(conns - {s}, AfterUnbind(index, u, s))
    ensures forall v :: SocketsOf(AfterUnbind(index, u, s), v) == Without(SocketsOf(index, v), s)
  {
    assert s in SocketsOf(index, u);
    WithoutDistinct(index[u], s);
    var index' := AfterUnbind(index, u, s);
    forall v ensures SocketsOf(index', v) == Without(SocketsOf(index, v), s) {
      if v != u {
        assert s in SocketsOf(index, v) <==> BoundTo(conns, s, v);
        WithoutAbsent(SocketsOf(index, v), s);
      }
    }
    forall v, t ensures t in SocketsOf(index', v) <==> BoundTo(conns - {s}, t, v) {
      assert t in SocketsOf(index, v) <==> BoundTo(conns, t, v);
    }
  }

  lemma UsersWithoutUnbound(conns: Conns, index: UserIndex, s: SocketId)
    requires UsersAgree(conns, index) && s in conns && conns[s].user.None?
    ensures UsersAgree(conns - {s}, index)
    ensures forall v :: SocketsOf(index, v) == Without(SocketsOf(index, v), s)
  {
    forall v, t ensures t in SocketsOf(index, v) <==> BoundTo(conns - {s}, t, v) {
      assert t in SocketsOf(index, v) <==> BoundTo(conns, t, v);
    }
    forall v ensures SocketsOf(index, v) == Without(SocketsOf(index, v), s) {
      assert s in SocketsOf(index, v) <==> BoundTo(conns, s, v);
      WithoutAbsent(SocketsOf(index, v), s);
    }
  }

  lemma WatchersAfterUnbind(index: UserIndex, before: Watchers, after: Watchers, u: UserId, s: SocketId)
    requires WatchersOnline(index, before)
    requires forall w | w in after :: after[w] != {}
    requires forall w :: WatchersOf(after, w) ==
               if u in AfterUnbind(index, u, s) then WatchersOf(before, w) else WatchersOf(before, w) - {u}
    ensures WatchersOnline(AfterUnbind(index, u, s), after)
  {
    forall w | w in after ensures after[w] <= AfterUnbind(index, u, s).Keys {
      assert after[w] == WatchersOf(after, w);
      assert w in before;
    }
  }
}
