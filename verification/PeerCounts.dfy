/** Subscriber counts of non-presence channels, as each node stores them for its peers. */
module PeerCounts {
  import opened PeerTable
  import R = Replication

  type Channel = string

  datatype CountEntry = CountEntry(count: nat, insertedAt: int)

  /** What a node holds about one peer and one channel: the stored count and the last number applied. */
  datatype Slot = Slot(entry: Option<CountEntry>, last: nat)

  function CountOf(e: Option<CountEntry>): nat {
    if e.Some? then e.value.count else 0
  }

  predicate IsFresh(e: CountEntry, now: int) {
    now - e.insertedAt <= SNAPSHOT_TTL
  }

  /** A count for the channel, live or listed in a snapshot. */
  function Reported(s: Slot, stamp: nat, count: nat, now: int): Slot {
    if R.Accepts(s.last, stamp) then Slot(Some(CountEntry(count, now)), R.Remember(s.last, stamp)) else s
  }

  function Listed(s: Slot, stamp: nat, count: nat, now: int): Slot {
    if R.Accepts(s.last, stamp) then Reported(s, stamp, count, now)
    else s.(entry := if s.entry.Some? then Some(s.entry.value.(insertedAt := now)) else None)
  }

  /** A snapshot that leaves the channel out: empty there, if that is news. */
  function Omitted(s: Slot, stamp: nat): Slot {
    if s.entry.Some? && R.Accepts(s.last, stamp) then Slot(None, R.Remember(s.last, stamp)) else s
  }

  /** The channel's slot after the listed counts, in list order. */
  function AllListed(s: Slot, stamp: nat, counts: seq<(Channel, nat)>, c: Channel, now: int): Slot {
    if counts == [] then s
    else
      var s' := AllListed(s, stamp, counts[..|counts| - 1], c, now);
      var (ch, n) := counts[|counts| - 1];
      if ch == c then Listed(s', stamp, n, now) else s'
  }

  function Channels(counts: seq<(Channel, nat)>): set<Channel> {
    set i | 0 <= i < |counts| :: counts[i].0
  }

  function AfterSnapshot(s: Slot, stamp: nat, counts: seq<(Channel, nat)>, c: Channel, now: int): Slot {
    if c in Channels(counts) then AllListed(s, stamp, counts, c, now) else Omitted(s, stamp)
  }

  // ----------------------------------------------------------------------- sums

  ghost function SumOver(ns: set<NodeId>, f: NodeId -> nat): nat {
    if ns == {} then 0 else var n :| n in ns; f(n) + SumOver(ns - {n}, f)
  }

  lemma {:induction false} SumWithout(ns: set<NodeId>, f: NodeId -> nat, x: NodeId)
    requires x in ns
    ensures SumOver(ns, f) == f(x) + SumOver(ns - {x}, f)
    decreases |ns|
  {
    var n :| n in ns && SumOver(ns, f) == f(n) + SumOver(ns - {n}, f);
    if n != x {
      SumWithout(ns - {n}, f, x);
      SumWithout(ns - {x}, f, n);
      assert ns - {n} - {x} == ns - {x} - {n};
    }
  }

  lemma {:induction false} SumSame(ns: set<NodeId>, f: NodeId -> nat, g: NodeId -> nat)
    requires forall n | n in ns :: f(n) == g(n)
    ensures SumOver(ns, f) == SumOver(ns, g)
    decreases |ns|
  {
    if ns != {} {
      var n :| n in ns;
      SumWithout(ns, f, n);
      SumWithout(ns, g, n);
      SumSame(ns - {n}, f, g);
    }
  }

  /** Nodes counted as zero may be left out. */
  lemma {:induction false} SumSupport(ns: set<NodeId>, ms: set<NodeId>, f: NodeId -> nat)
    requires ms <= ns && forall n | n in ns - ms :: f(n) == 0
    ensures SumOver(ns, f) == SumOver(ms, f)
    decreases |ns|
  {
    if ns - ms != {} {
      var n :| n in ns - ms;
      SumWithout(ns, f, n);
      SumSupport(ns - {n}, ms, f);
    } else {
      assert ns == ms;
    }
  }

  function FreshCount(entries: map<NodeId, CountEntry>, now: int): NodeId -> nat {
    n => if n in entries && IsFresh(entries[n], now) then entries[n].count else 0
  }

  /** What a sum at `t` takes from one peer's slot. */
  function Contributes(e: Option<CountEntry>, t: int): nat {
    if e.Some? && IsFresh(e.value, t) then e.value.count else 0
  }

  /** A count that is news is summed for fifteen seconds exactly, then no more until the peer speaks again. */
  lemma ReportedCounts(s: Slot, stamp: nat, count: nat, now: int, t: int)
    requires stamp == 0 || s.last < stamp
    ensures Contributes(Reported(s, stamp, count, now).entry, t) == if t <= now + 15 then count else 0
    ensures Contributes(Listed(s, stamp, count, now).entry, t) == if t <= now + 15 then count else 0
  {
  }

  /** A listed count that is not news keeps the stored one, for another fifteen seconds; a live one changes nothing. */
  lemma OldCountRefreshes(s: Slot, stamp: nat, count: nat, now: int, t: int)
    requires 0 < stamp <= s.last
    ensures Contributes(Listed(s, stamp, count, now).entry, t) == if t <= now + 15 then CountOf(s.entry) else 0
    ensures Reported(s, stamp, count, now) == s
  {
  }

  /** The sum is that of the counts heard in the last fifteen seconds; older ones add nothing. */
  lemma OnlyFreshCount(entries: map<NodeId, CountEntry>, now: int)
    ensures
      var recent := set n | n in entries && now <= entries[n].insertedAt + 15;
      SumOver(entries.Keys, FreshCount(entries, now)) ==
      SumOver(recent, n => if n in entries then entries[n].count else 0)
  {
    var recent := set n | n in entries && now <= entries[n].insertedAt + 15;
    SumSupport(entries.Keys, recent, FreshCount(entries, now));
    SumSame(recent, FreshCount(entries, now), n => if n in entries then entries[n].count else 0);
  }

  // ------------------------------------------------------------------ the cache

  type Key = (string, Channel)

  type Counts = map<Key, map<NodeId, CountEntry>>
  type Seqs = map<(NodeId, Key), nat>

  function SlotOf(inner: Counts, seqs: Seqs, node: NodeId, key: Key): Slot {
    Slot(if key in inner && node in inner[key] then Some(inner[key][node]) else None,
         if (node, key) in seqs then seqs[(node, key)] else 0)
  }

  class PeerChannelCounts {
    var inner: Counts
    var peerSeqs: Seqs

    constructor ()
      ensures inner == map[] && peerSeqs == map[]
    {
      inner, peerSeqs := map[], map[];
    }

    /** Sum of the fresh counts of all peers. */
    method Sum(key: Key, now: int) returns (total: nat)
      ensures total == if key in inner then SumOver(inner[key].Keys, FreshCount(inner[key], now)) else 0
    {
      if key !in inner {
        return 0;
      }
      var entries := inner[key];
      ghost var f := FreshCount(entries, now);
      total := 0;
      var todo := entries.Keys;
      while todo != {}
        invariant todo <= entries.Keys
        invariant total + SumOver(todo, f) == SumOver(entries.Keys, f)
        decreases todo
      {
        var n :| n in todo;
        SumWithout(todo, f, n);
        todo := todo - {n};
        if now - entries[n].insertedAt <= SNAPSHOT_TTL {
          total := total + entries[n].count;
        }
      }
    }

    method AcceptSeq(node: NodeId, key: Key, stamp: nat) returns (ok: bool)
      modifies this`peerSeqs
      ensures ok <==> R.Accepts(SlotOf(old(inner), old(peerSeqs), node, key).last, stamp)
      ensures SlotOf(inner, peerSeqs, node, key).last ==
              if ok then R.Remember(SlotOf(old(inner), old(peerSeqs), node, key).last, stamp)
              else SlotOf(old(inner), old(peerSeqs), node, key).last
      ensures forall n, k | (n, k) != (node, key) ::
                SlotOf(inner, peerSeqs, n, k) == SlotOf(old(inner), old(peerSeqs), n, k)
    {
      if stamp == 0 {
        return true;
      }
      var last := if (node, key) in peerSeqs then peerSeqs[(node, key)] else 0;
      if stamp <= last {
        return false;
      }
      peerSeqs := peerSeqs[(node, key) := stamp];
      ok := true;
    }

    method Store(node: NodeId, key: Key, entry: CountEntry)
      modifies this`inner
      ensures SlotOf(inner, peerSeqs, node, key) == SlotOf(old(inner), old(peerSeqs), node, key).(entry := Some(entry))
      ensures forall n, k | (n, k) != (node, key) ::
                SlotOf(inner, peerSeqs, n, k) == SlotOf(old(inner), old(peerSeqs), n, k)
    {
      var entries := if key in inner then inner[key] else map[];
      inner := inner[key := entries[node := entry]];
    }

    /** A live count from a peer. */
    method HandleCount(node: NodeId, key: Key, count: nat, stamp: nat, now: int)
      modifies this
      ensures SlotOf(inner, peerSeqs, node, key) ==
              Reported(SlotOf(old(inner), old(peerSeqs), node, key), stamp, count, now)
      ensures forall n, k | (n, k) != (node, key) ::
                SlotOf(inner, peerSeqs, n, k) == SlotOf(old(inner), old(peerSeqs), n, k)
    {
      var ok := AcceptSeq(node, key, stamp);
      if ok {
        Store(node, key, CountEntry(count, now));
      }
    }

    /** A peer's full set of counts: listed channels are set, stored channels it omits are dropped. */
    method HandleSnapshot(app: string, node: NodeId, counts: seq<(Channel, nat)>, stamp: nat, now: int)
      modifies this
      ensures forall c :: SlotOf(inner, peerSeqs, node, (app, c)) ==
                AfterSnapshot(SlotOf(old(inner), old(peerSeqs), node, (app, c)), stamp, counts, c, now)
      ensures forall n, k: Key | n != node || k.0 != app ::
                SlotOf(inner, peerSeqs, n, k) == SlotOf(old(inner), old(peerSeqs), n, k)
    {
      for i := 0 to |counts|
        invariant forall c :: SlotOf(inner, peerSeqs, node, (app, c)) ==
                    AllListed(SlotOf(old(inner), old(peerSeqs), node, (app, c)), stamp, counts[..i], c, now)
        invariant forall n, k: Key | n != node || k.0 != app ::
                    SlotOf(inner, peerSeqs, n, k) == SlotOf(old(inner), old(peerSeqs), n, k)
      {
        assert counts[..i + 1][..i] == counts[..i];
        var key := (app, counts[i].0);
        var ok := AcceptSeq(node, key, stamp);
        if ok {
          Store(node, key, CountEntry(counts[i].1, now));
        } else if key in inner && node in inner[key] {
          Store(node, key, inner[key][node].(insertedAt := now));
        }
      }
      assert counts[..|counts|] == counts;
      forall c | c !in Channels(counts) ensures SlotOf(inner, peerSeqs, node, (app, c)) ==
          SlotOf(old(inner), old(peerSeqs), node, (app, c)) {
        NotListed(SlotOf(old(inner), old(peerSeqs), node, (app, c)), stamp, counts, c, now);
      }
      DropOmitted(app, node, set i | 0 <= i < |counts| :: counts[i].0, stamp);
    }

    method DropOmitted(app: string, node: NodeId, present: set<Channel>, stamp: nat)
      modifies this
      ensures forall c :: SlotOf(inner, peerSeqs, node, (app, c)) ==
                if c in present then SlotOf(old(inner), old(peerSeqs), node, (app, c))
                    else Omitted(SlotOf(old(inner), old(peerSeqs), node, (app, c)), stamp)
      ensures forall n, k: Key | n != node || k.0 != app ::
                SlotOf(inner, peerSeqs, n, k) == SlotOf(old(inner), old(peerSeqs), n, k)
    {
      var todo := set k | k in inner && k.0 == app && k.1 !in present && node in inner[k];
      while todo != {}
        invariant forall k | k in todo ::
                    && k.0 == app && k.1 !in present && SlotOf(inner, peerSeqs, node, k).entry.Some?
                    && SlotOf(inner, peerSeqs, node, k) == SlotOf(old(inner), old(peerSeqs), node, k)
        invariant forall c | (app, c) !in todo :: SlotOf(inner, peerSeqs, node, (app, c)) ==
                    if c in present then SlotOf(old(inner), old(peerSeqs), node, (app, c))
                        else Omitted(SlotOf(old(inner), old(peerSeqs), node, (app, c)), stamp)
        invariant forall n, k: Key | n != node || k.0 != app ::
                    SlotOf(inner, peerSeqs, n, k) == SlotOf(old(inner), old(peerSeqs), n, k)
        decreases todo
      {
        var key :| key in todo;
        todo := todo - {key};
        Omit(node, key, stamp);
      }
    }

    /** One stored channel that a snapshot leaves out. */
    method Omit(node: NodeId, key: Key, stamp: nat)
      requires SlotOf(inner, peerSeqs, node, key).entry.Some?
      modifies this
      ensures SlotOf(inner, peerSeqs, node, key) == Omitted(SlotOf(old(inner), old(peerSeqs), node, key), stamp)
      ensures forall n, k | (n, k) != (node, key) ::
                SlotOf(inner, peerSeqs, n, k) == SlotOf(old(inner), old(peerSeqs), n, k)
    {
      var ok := AcceptSeq(node, key, stamp);
      if ok {
        Drop(node, key);
      }
    }

    method Drop(node: NodeId, key: Key)
      requires key in inner
      modifies this`inner
      ensures SlotOf(inner, peerSeqs, node, key) == SlotOf(old(inner), old(peerSeqs), node, key).(entry := None)
      ensures forall n, k | (n, k) != (node, key) ::
                SlotOf(inner, peerSeqs, n, k) == SlotOf(old(inner), old(peerSeqs), n, k)
    {
      inner := inner[key := inner[key] - {node}];
    }
  }

  lemma {:induction false} NotListed(s: Slot, stamp: nat, counts: seq<(Channel, nat)>, c: Channel, now: int)
    requires c !in Channels(counts)
    ensures AllListed(s, stamp, counts, c, now) == s
  {
    if counts != [] {
      var init := counts[..|counts| - 1];
      assert counts[|counts| - 1].0 in Channels(counts);
      assert forall i | 0 <= i < |init| :: init[i] == counts[i] && counts[i].0 in Channels(counts);
      NotListed(s, stamp, init, c, now);
    }
  }
}
