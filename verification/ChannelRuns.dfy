/** Presence transitions over whole runs of subscribes and unsubscribes. */
module ChannelRuns {
  import opened PeerTable
  import opened Channels

  datatype Op = Sub(socket: SocketId, user: Option<UserId>) | Unsub(socket: SocketId)

  datatype Transition = UserAdded(user: UserId) | UserRemoved(user: UserId)

  function After(m: Members, op: Op): Members {
    match op
    case Sub(s, user) => if s in m then m else m[s := user]
    case Unsub(s) => m - {s}
  }

  /** The transition a presence channel reports for one operation (see `Channel`). */
  function Reported(m: Members, op: Op): seq<Transition> {
    match op
    case Sub(s, user) => if s !in m && user.Some? && user.value !in UsersOf(m) then [UserAdded(user.value)] else []
    case Unsub(s) =>
      if s in m && m[s].Some? && m[s].value !in UsersOf(m - {s}) then [UserRemoved(m[s].value)] else []
  }

  /** `Channel`'s methods report exactly these transitions and reach exactly these members. */
  method RunOp(ch: Channel, op: Op) returns (ts: seq<Transition>)
    requires ch.Valid() && ch.presence
    modifies ch`members, ch`refs
    ensures ch.Valid()
    ensures ch.members == After(old(ch.members), op) && ts == Reported(old(ch.members), op)
  {
    ts := [];
    match op
    case Sub(s, user) =>
      var r := ch.Subscribe(s, user);
      if r.userAdded { ts := [UserAdded(user.value)]; }
    case Unsub(s) =>
      var o := ch.Unsubscribe(s);
      if o.userRemoved.Some? { ts := [UserRemoved(o.userRemoved.value)]; }
  }

  function FinalMembers(ops: seq<Op>): Members {
    if ops == [] then map[] else After(FinalMembers(ops[..|ops| - 1]), ops[|ops| - 1])
  }

  function AllReported(ops: seq<Op>): seq<Transition> {
    if ops == [] then []
    else AllReported(ops[..|ops| - 1]) + Reported(FinalMembers(ops[..|ops| - 1]), ops[|ops| - 1])
  }

  /** A listener that follows one user and is confused (`None`) by two arrivals or two departures in a row. */
  function Follow(ts: seq<Transition>, u: UserId): Option<bool> {
    if ts == [] then Some(false)
    else
      var before := Follow(ts[..|ts| - 1], u);
      match ts[|ts| - 1]
      case UserAdded(w) => if w != u then before else if before == Some(false) then Some(true) else None
      case UserRemoved(w) => if w != u then before else if before == Some(true) then Some(false) else None
  }

  lemma FollowSnoc(ts: seq<Transition>, t: Transition, u: UserId)
    ensures Follow(ts + [t], u) ==
            match t
            case UserAdded(w) => if w != u then Follow(ts, u) else if Follow(ts, u) == Some(false) then Some(true) else None
            case UserRemoved(w) => if w != u then Follow(ts, u) else if Follow(ts, u) == Some(true) then Some(false) else None
  {
    assert (ts + [t])[..|ts|] == ts;
  }

  /**
   Arrivals and departures of every user alternate over every run, and the last
   one tells whether the user is present.
   */
  lemma {:induction false} TransitionsAlternate(ops: seq<Op>, u: UserId)
    ensures Follow(AllReported(ops), u) == Some(u in UsersOf(FinalMembers(ops)))
  {
    if ops == [] {
    } else {
      var init, op := ops[..|ops| - 1], ops[|ops| - 1];
      var m := FinalMembers(init);
      TransitionsAlternate(init, u);
      var ts := AllReported(init);
      match op
      case Sub(s, user) =>
        if s !in m { UsersAfterJoin(m, s, user); }
        if Reported(m, op) == [] { assert ts + [] == ts; } else { FollowSnoc(ts, UserAdded(user.value), u); }
      case Unsub(s) =>
        if s in m {
          UsersAfterLeave(m, s);
          UsersHaveSockets(m);
          UsersHaveSockets(m - {s});
        } else {
          assert m - {s} == m;
        }
        if Reported(m, op) == [] {
          assert ts + [] == ts;
        } else {
          assert m[s].value in UsersOf(m);
          FollowSnoc(ts, UserRemoved(m[s].value), u);
        }
    }
  }
}

/**
 Leaves without the transition lock: each unsubscribe removes its socket, then
 decrements and tests the user's count, then removes the count if it is still
 zero, as three atomic steps interleaved in any order.
 */
module ConcurrentLeave {
  import opened PeerTable

  type Thread = nat
  type SocketId = string

  datatype Pc = Start | Detached | Tested(zero: bool) | Done(reported: bool)

  /** `sockets` are the user's remaining sockets, `count` its reference count. */
  datatype State = State(sockets: set<SocketId>, count: Option<nat>, pcs: map<Thread, Pc>)

  function Step(st: State, t: Thread, socket: SocketId): State
    requires t in st.pcs
  {
    match st.pcs[t]
    case Start =>
      if socket in st.sockets then st.(sockets := st.sockets - {socket}, pcs := st.pcs[t := Detached])
      else st.(pcs := st.pcs[t := Done(false)])
    case Detached =>
      if st.count.None? then st.(pcs := st.pcs[t := Tested(false)])
      else
        var n: nat := if st.count.value == 0 then 0 else st.count.value - 1;
        st.(count := Some(n), pcs := st.pcs[t := Tested(n == 0)])
    case Tested(zero) =>
      if zero && st.count == Some(0) then st.(count := None, pcs := st.pcs[t := Done(true)])
      else st.(pcs := st.pcs[t := Done(false)])
    case Done(_) => st
  }

  function At(st: State, pc: Pc): set<Thread> {
    set t | t in st.pcs && st.pcs[t] == pc
  }

  ghost predicate Inv(st: State, socketOf: map<Thread, SocketId>) {
    && socketOf.Keys == st.pcs.Keys
    && (forall s | s in st.sockets :: exists t | t in st.pcs :: st.pcs[t] == Start && socketOf[t] == s)
    && Tallied(st)
  }

  /** A thread's move changes only its own place. */
  lemma Moved(st: State, t: Thread, socketOf: map<Thread, SocketId>, pc: Pc)
    requires t in st.pcs && t in socketOf
    ensures
      var st' := Step(st, t, socketOf[t]);
      At(st', pc) == if pc == st'.pcs[t] then At(st, pc) + {t} else if pc == st.pcs[t] then At(st, pc) - {t} else At(st, pc)
  {
    var st' := Step(st, t, socketOf[t]);
    assert st'.pcs == st.pcs[t := st'.pcs[t]];
  }

  /** Every remaining socket still has a thread about to remove it. */
  lemma SocketsStillClaimed(st: State, t: Thread, socketOf: map<Thread, SocketId>)
    requires Inv(st, socketOf) && t in st.pcs
    ensures
      var st' := Step(st, t, socketOf[t]);
      forall s | s in st'.sockets :: exists k | k in st'.pcs :: st'.pcs[k] == Start && socketOf[k] == s
  {
    var st' := Step(st, t, socketOf[t]);
    forall s | s in st'.sockets ensures exists k | k in st'.pcs :: st'.pcs[k] == Start && socketOf[k] == s {
      var k :| k in st.pcs && st.pcs[k] == Start && socketOf[k] == s;
      assert st'.pcs[k] == Start;
    }
  }

  ghost predicate Tallied(st: State) {
    Tally(st.count, st.sockets, At(st, Detached), At(st, Tested(true)), At(st, Done(true)))
  }

  /** The count against the sockets left and the threads that detached one, that saw zero and that reported. */
  ghost predicate Tally(count: Option<nat>, sockets: set<SocketId>, detached: set<Thread>, sawZero: set<Thread>,
                        reported: set<Thread>)
  {
    match count
    case Some(n) => n == |sockets| + |detached| && reported == {} && |sawZero| == (if n == 0 then 1 else 0)
    case None => sockets == {} && detached == {} && sawZero == {} && |reported| == 1
  }

  lemma TallyDetach(count: Option<nat>, sockets: set<SocketId>, detached: set<Thread>, sawZero: set<Thread>,
                    reported: set<Thread>, socket: SocketId, t: Thread)
    requires Tally(count, sockets, detached, sawZero, reported) && socket in sockets && t !in detached
    ensures Tally(count, sockets - {socket}, detached + {t}, sawZero, reported)
  {
  }

  lemma RemoveStepKeepsTally(st: State, t: Thread, socketOf: map<Thread, SocketId>)
    requires Tallied(st) && t in st.pcs && t in socketOf && st.pcs[t] == Start
    ensures Tallied(Step(st, t, socketOf[t]))
  {
    Moved(st, t, socketOf, Detached);
    Moved(st, t, socketOf, Tested(true));
    Moved(st, t, socketOf, Done(true));
    if socketOf[t] in st.sockets {
      TallyDetach(st.count, st.sockets, At(st, Detached), At(st, Tested(true)), At(st, Done(true)), socketOf[t], t);
    }
  }

  lemma DecrementStepKeepsTally(st: State, t: Thread, socketOf: map<Thread, SocketId>)
    requires Tallied(st) && t in st.pcs && t in socketOf && st.pcs[t] == Detached
    ensures Tallied(Step(st, t, socketOf[t]))
  {
    Moved(st, t, socketOf, Detached);
    Moved(st, t, socketOf, Tested(true));
    Moved(st, t, socketOf, Done(true));
    var st' := Step(st, t, socketOf[t]);
    assert t in At(st, Detached);
    assert At(st', Done(true)) == At(st, Done(true));
    assert At(st', Detached) == At(st, Detached) - {t};
    assert |At(st, Detached)| == |At(st, Detached) - {t}| + 1;
    assert At(st, Tested(true)) == {};
  }

  lemma ReportStepKeepsTally(st: State, t: Thread, socketOf: map<Thread, SocketId>)
    requires Tallied(st) && t in st.pcs && t in socketOf && st.pcs[t] == Tested(true)
    ensures Tallied(Step(st, t, socketOf[t]))
  {
    ZeroIsAlone(st, t);
    var st' := Step(st, t, socketOf[t]);
    assert st'.count == None && st'.sockets == {};
    Moved(st, t, socketOf, Detached);
    Moved(st, t, socketOf, Tested(true));
    Moved(st, t, socketOf, Done(true));
    assert At(st', Detached) == {} && At(st', Tested(true)) == {} && At(st', Done(true)) == {t};
  }

  lemma SilentStepKeepsTally(st: State, t: Thread, socketOf: map<Thread, SocketId>)
    requires Tallied(st) && t in st.pcs && t in socketOf && st.pcs[t] == Tested(false)
    ensures Tallied(Step(st, t, socketOf[t]))
  {
    Moved(st, t, socketOf, Detached);
    Moved(st, t, socketOf, Tested(true));
    Moved(st, t, socketOf, Done(true));
    var st' := Step(st, t, socketOf[t]);
    assert st'.count == st.count && st'.sockets == st.sockets;
  }

  /** Only one thread can be the one that saw zero, and the entry is still there for it. */
  lemma ZeroIsAlone(st: State, t: Thread)
    requires Tallied(st) && t in st.pcs && st.pcs[t] == Tested(true)
    ensures st.count == Some(0) && At(st, Tested(true)) == {t}
    ensures st.sockets == {} && At(st, Detached) == {} && At(st, Done(true)) == {}
  {
    assert t in At(st, Tested(true));
    assert At(st, Tested(true)) == {t} + (At(st, Tested(true)) - {t});
  }

  lemma StepKeepsTally(st: State, t: Thread, socketOf: map<Thread, SocketId>)
    requires Tallied(st) && t in st.pcs && t in socketOf
    ensures Tallied(Step(st, t, socketOf[t]))
  {
    match st.pcs[t]
    case Start => RemoveStepKeepsTally(st, t, socketOf);
    case Detached => DecrementStepKeepsTally(st, t, socketOf);
    case Tested(true) => ReportStepKeepsTally(st, t, socketOf);
    case Tested(false) => SilentStepKeepsTally(st, t, socketOf);
    case Done(_) =>
  }

  lemma StepKeeps(st: State, t: Thread, socketOf: map<Thread, SocketId>)
    requires Inv(st, socketOf) && t in st.pcs
    ensures Inv(Step(st, t, socketOf[t]), socketOf)
  {
    SocketsStillClaimed(st, t, socketOf);
    StepKeepsTally(st, t, socketOf);
  }

  /** The threads of `schedule` step one after another. */
  function Run(st: State, schedule: seq<Thread>, socketOf: map<Thread, SocketId>): State
    requires socketOf.Keys == st.pcs.Keys
  {
    if schedule == [] then st
    else
      var st' := Run(st, schedule[..|schedule| - 1], socketOf);
      var t := schedule[|schedule| - 1];
      if t in st'.pcs && t in socketOf then Step(st', t, socketOf[t]) else st'
  }

  lemma {:induction false} RunKeeps(st: State, schedule: seq<Thread>, socketOf: map<Thread, SocketId>)
    requires Inv(st, socketOf)
    ensures Inv(Run(st, schedule, socketOf), socketOf)
  {
    if schedule != [] {
      RunKeeps(st, schedule[..|schedule| - 1], socketOf);
      var st', t := Run(st, schedule[..|schedule| - 1], socketOf), schedule[|schedule| - 1];
      if t in st'.pcs { StepKeeps(st', t, socketOf); }
    }
  }

  /**
   Any number of threads unsubscribing all sockets of one user (several may
   target the same socket), in any interleaving: when all are done, exactly one
   has reported the user removed, and no count remains.
   */
  lemma ExactlyOneReports(sockets: set<SocketId>, socketOf: map<Thread, SocketId>, schedule: seq<Thread>)
    requires sockets != {} && forall s | s in sockets :: exists t | t in socketOf :: socketOf[t] == s
    ensures
      var st0 := State(sockets, Some(|sockets|), map t | t in socketOf :: Start);
      var st := Run(st0, schedule, socketOf);
      (forall t | t in st.pcs :: st.pcs[t].Done?) ==>
        |At(st, Done(true))| == 1 && st.count == None && st.sockets == {}
  {
    var st0 := State(sockets, Some(|sockets|), map t | t in socketOf :: Start);
    assert At(st0, Detached) == {} && At(st0, Tested(true)) == {};
    forall s | s in sockets ensures exists t | t in st0.pcs :: st0.pcs[t] == Start && socketOf[t] == s {
      var t :| t in socketOf && socketOf[t] == s;
      assert st0.pcs[t] == Start;
    }
    RunKeeps(st0, schedule, socketOf);
    var st := Run(st0, schedule, socketOf);
    if forall t | t in st.pcs :: st.pcs[t].Done? {
      assert At(st, Detached) == {} && At(st, Tested(true)) == {};
      assert st.sockets == {};
    }
  }
}
