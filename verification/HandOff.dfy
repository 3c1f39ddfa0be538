/**
 Which node reports a user's removal to the webhook receiver when every node
 holding the user lets go at about the same time. A node that still sees the user
 on a peer withholds its report and says so on the bus; the flags and the order
 of node ids then pick a reporter. Node ids are compared as the program compares
 them; numbers stand for their order.
 */
module HandOff {

  type Node = nat

  const WITHHELD_WINDOW := 60

  /** `MemberRemoved` from one node to another, with the sender's withheld flag. */
  datatype Mail = Mail(from: Node, to: Node, withheld: bool)

  /**
   One user: nodes it is local to, peers each node has it stored for, when each
   node withheld its report, messages on the bus, and the reports made.
   */
  datatype State = State(
    local: set<Node>, sees: map<Node, set<Node>>, withheld: map<Node, int>, mail: set<Mail>, reports: seq<Node>)

  datatype Action = Leave(node: Node) | Receive(mail: Mail)

  predicate Enabled(s: State, a: Action) {
    match a
    case Leave(i) => i in s.local && i in s.sees
    case Receive(m) => m in s.mail && m.to in s.sees
  }

  function DoLeave(s: State, i: Node, now: int): State
    requires i in s.sees
  {
    var still := s.sees[i] != {};
    var s' := s.(local := s.local - {i}, mail := s.mail + set j | j in s.sees && j != i :: Mail(i, j, still));
    if still then s'.(withheld := s.withheld[i := now]) else s'.(reports := s.reports + [i])
  }

  function DoReceive(s: State, m: Mail, now: int): State
    requires m.to in s.sees
  {
    var s' := s.(mail := s.mail - {m}, sees := s.sees[m.to := s.sees[m.to] - {m.from}]);
    var gone := m.to !in s.local && s'.sees[m.to] == {};
    if gone && m.withheld && m.to < m.from && m.to in s.withheld then
      var claimed := s'.(withheld := s.withheld - {m.to});
      if now - s.withheld[m.to] < WITHHELD_WINDOW then claimed.(reports := s.reports + [m.to]) else claimed
    else s'
  }

  function Do(s: State, a: Action, now: int): State
    requires Enabled(s, a)
  {
    match a
    case Leave(i) => DoLeave(s, i, now)
    case Receive(m) => DoReceive(s, m, now)
  }

  // ------------------------------------------------------------ one node's part

  /** A record of a withheld report may still be claimed. */
  predicate Claimable<K>(at: map<K, int>, key: K, now: int) {
    key in at && now - at[key] < WITHHELD_WINDOW
  }

  /** Removal reports this node withheld, by key, with the time of each. */
  class WithheldReports<K(==)> {
    var at: map<K, int>

    constructor ()
      ensures at == map[]
    {
      at := map[];
    }

    /** Records one; dropping old records on the way takes nothing away that could still be claimed. */
    method Note(key: K, now: int)
      modifies this
      ensures forall k, t | now <= t :: Claimable(at, k, t) <==>
                if k == key then t - now < WITHHELD_WINDOW else Claimable(old(at), k, t)
    {
      at := map k | k in at && now - at[k] < WITHHELD_WINDOW :: at[k];
      at := at[key := now];
    }

    /** A record is claimed at most once. */
    method Claim(key: K, now: int) returns (claimed: bool)
      modifies this
      ensures claimed <==> Claimable(old(at), key, now)
      ensures forall k, t :: Claimable(at, k, t) <==> k != key && Claimable(old(at), k, t)
    {
      claimed := key in at && now - at[key] < WITHHELD_WINDOW;
      at := at - {key};
    }
  }

  /** One node's handling of one user, over the records it keeps for all of them. */
  class Reporter<K(==)> {
    const id: Node
    const key: K
    const withheld: WithheldReports<K>
    var local: bool
    var sees: set<Node>

    /** This node's share of the fleet's state, as far as it can still matter. */
    ghost predicate Matches(s: State, now: int)
      reads this, withheld
    {
      && id in s.sees && sees == s.sees[id] && (local <==> id in s.local)
      && forall t | now <= t :: Claimable(withheld.at, key, t) <==> Claimable(s.withheld, id, t)
    }

    constructor (id: Node, key: K, withheld: WithheldReports<K>, local: bool, sees: set<Node>)
      ensures this.id == id && this.key == key && this.withheld == withheld && this.local == local && this.sees == sees
    {
      this.id, this.key, this.withheld, this.local, this.sees := id, key, withheld, local, sees;
    }

    /** The last local socket lets go: report, or withhold and say so to all peers. */
    method Leave(now: int, ghost s: State) returns (flag: bool, reports: bool)
      requires local && Matches(s, now)
      modifies this`local, withheld
      ensures
        var s' := DoLeave(s, id, now);
        && Matches(s', now)
        && s'.mail == s.mail + (set j | j in s.sees && j != id :: Mail(id, j, flag))
        && s'.reports == s.reports + if reports then [id] else []
      ensures forall k, t | k != key && now <= t :: Claimable(withheld.at, k, t) <==> Claimable(old(withheld.at), k, t)
    {
      local := false;
      flag, reports := sees != {}, sees == {};
      if flag {
        withheld.Note(key, now);
      }
    }

    /** A peer's message that its last socket let go. */
    method Receive(from: Node, flag: bool, now: int, ghost s: State) returns (reports: bool)
      requires Matches(s, now)
      modifies this`sees, withheld
      ensures
        var s' := DoReceive(s, Mail(from, id, flag), now);
        Matches(s', now) && s'.reports == s.reports + if reports then [id] else []
      ensures forall k, t | k != key && now <= t :: Claimable(withheld.at, k, t) <==> Claimable(old(withheld.at), k, t)
    {
      sees := sees - {from};
      reports := false;
      if !local && sees == {} && flag && id < from {
        assert Claimable(withheld.at, key, now) <==> Claimable(s.withheld, id, now);
        reports := withheld.Claim(key, now);
      }
    }
  }

  /** Agreeing views and nothing withheld: every node knows exactly the other holders. */
  ghost predicate Init(s: State, holders: set<Node>) {
    && s.local == holders && holders <= s.sees.Keys
    && (forall i | i in s.sees :: s.sees[i] == holders - {i})
    && s.withheld == map[] && s.mail == {} && s.reports == []
  }

  /** All actions happen within one withheld window starting at `start`. */
  ghost predicate IsRun(run: seq<State>, acts: seq<(Action, int)>, start: int) {
    |run| == |acts| + 1 &&
    forall k, l {:trigger Next(run[k], run[l], acts[k], start)} | 0 <= k && l == k + 1 < |run| ::
      Next(run[k], run[l], acts[k], start)
  }

  ghost predicate Next(s: State, s': State, act: (Action, int), start: int) {
    Enabled(s, act.0) && start <= act.1 < start + WITHHELD_WINDOW && s' == Do(s, act.0, act.1)
  }

  predicate Over(s: State) {
    s.local == {} && s.mail == {}
  }

  // ------------------------------------------------------------------ invariant

  ghost predicate Base(s: State, holders: set<Node>, start: int) {
    Holding(s, holders, start) && Posted(s, holders) && Seen(s, holders)
  }

  ghost predicate Holding(s: State, holders: set<Node>, start: int) {
    && s.local <= holders <= s.sees.Keys
    && s.withheld.Keys <= holders - s.local
    && (forall i | i in s.withheld :: start <= s.withheld[i])
  }

  /** Mail comes from holders that let go, one for each receiver, and only where it is still news. */
  ghost predicate Posted(s: State, holders: set<Node>) {
    && (forall m | m in s.mail ::
          m.from in holders && m.from !in s.local && m.to in s.sees && m.to != m.from && m.from in s.sees[m.to])
    && (forall m, k | m in s.mail && k in s.mail && m.from == k.from && m.to == k.to :: m == k)
  }

  predicate Awaited(s: State, j: Node, i: Node) {
    Mail(j, i, true) in s.mail || Mail(j, i, false) in s.mail
  }

  predicate Rightly(s: State, holders: set<Node>, j: Node, i: Node) {
    j in holders && j != i && (j in s.local || Awaited(s, j, i))
  }

  /** Each node sees exactly the other holders that hold on or whose mail is under way. */
  ghost predicate Seen(s: State, holders: set<Node>) {
    && (forall i, j | i in s.sees && j in s.sees[i] :: Rightly(s, holders, j, i))
    && (forall i, j | i in s.sees && j in s.local && j != i :: j in s.sees[i])
  }

  function Letters(s: State, i: Node, withheld: bool): set<Mail> {
    set j | j in s.sees && j != i :: Mail(i, j, withheld)
  }

  lemma LeavePosted(s: State, i: Node, now: int, holders: set<Node>)
    requires Posted(s, holders) && Seen(s, holders) && s.local <= holders && Enabled(s, Leave(i))
    ensures Posted(DoLeave(s, i, now), holders)
  {
    var s', flag := DoLeave(s, i, now), s.sees[i] != {};
    assert s'.sees == s.sees && s'.mail == s.mail + Letters(s, i, flag);
    forall m | m in s'.mail
      ensures m.from in holders && m.from !in s'.local && m.to in s.sees && m.to != m.from && m.from in s.sees[m.to] {
      if m !in s.mail { assert m in Letters(s, i, flag); }
    }
    forall m, k | m in s'.mail && k in s'.mail && m.from == k.from && m.to == k.to ensures m == k {
      if m !in s.mail { assert m in Letters(s, i, flag); }
      if k !in s.mail { assert k in Letters(s, i, flag); }
    }
  }

  lemma LeaveSeen(s: State, i: Node, now: int, holders: set<Node>)
    requires Seen(s, holders) && Enabled(s, Leave(i))
    ensures Seen(DoLeave(s, i, now), holders)
  {
    var s', flag := DoLeave(s, i, now), s.sees[i] != {};
    assert s'.sees == s.sees && s'.mail == s.mail + Letters(s, i, flag);
    forall k, j | k in s'.sees && j in s'.sees[k] ensures Rightly(s', holders, j, k) {
      assert Rightly(s, holders, j, k);
      if j == i {
        assert Mail(i, k, flag) in Letters(s, i, flag);
      } else if j !in s.local {
        assert Awaited(s, j, k);
      }
    }
  }

  lemma LeaveBase(s: State, i: Node, now: int, holders: set<Node>, start: int)
    requires Base(s, holders, start) && Enabled(s, Leave(i)) && start <= now
    ensures Base(DoLeave(s, i, now), holders, start)
  {
    LeavePosted(s, i, now, holders);
    LeaveSeen(s, i, now, holders);
  }

  lemma SeenAfterMail(s: State, m: Mail, s': State, holders: set<Node>)
    requires Posted(s, holders) && Seen(s, holders) && m in s.mail && m.to in s.sees
    requires s'.mail == s.mail - {m} && s'.local == s.local
    requires s'.sees == s.sees[m.to := s.sees[m.to] - {m.from}]
    ensures Seen(s', holders)
  {
    forall i, j | i in s'.sees && j in s'.sees[i] ensures Rightly(s', holders, j, i) {
      assert j in s.sees[i];
      assert Rightly(s, holders, j, i);
    }
    forall i, j | i in s'.sees && j in s'.local && j != i ensures j in s'.sees[i] {
      assert j in s.sees[i];
    }
  }

  lemma ReceivePosted(s: State, m: Mail, now: int, holders: set<Node>)
    requires Posted(s, holders) && Enabled(s, Receive(m))
    ensures Posted(DoReceive(s, m, now), holders)
  {
    var s' := DoReceive(s, m, now);
    assert s'.mail == s.mail - {m} && s'.local == s.local;
    assert s'.sees == s.sees[m.to := s.sees[m.to] - {m.from}];
  }

  lemma ReceiveBase(s: State, m: Mail, now: int, holders: set<Node>, start: int)
    requires Base(s, holders, start) && Enabled(s, Receive(m)) && start <= now
    ensures Base(DoReceive(s, m, now), holders, start)
  {
    SeenAfterMail(s, m, DoReceive(s, m, now), holders);
    ReceivePosted(s, m, now, holders);
  }

  lemma InitBase(s: State, holders: set<Node>, start: int)
    requires Init(s, holders)
    ensures Base(s, holders, start)
  {
  }

  // --------------------------------------------------------------- at least one

  ghost predicate IsLowest(low: Node, holders: set<Node>) {
    low in holders && forall i | i in holders :: low <= i
  }

  /** While nobody has reported: all that left withheld and said so, and the lowest still sees someone. */
  ghost predicate Owed(s: State, holders: set<Node>, low: Node) {
    s.reports == [] ==>
      && (forall m | m in s.mail :: m.withheld)
      && s.withheld.Keys == holders - s.local
      && (low !in s.local && low in s.sees ==> s.sees[low] != {})
  }

  lemma StepKeepsOwed(s: State, a: Action, now: int, holders: set<Node>, low: Node, start: int)
    requires Base(s, holders, start) && IsLowest(low, holders) && Owed(s, holders, low)
    requires Enabled(s, a) && start <= now < start + WITHHELD_WINDOW
    ensures Owed(Do(s, a, now), holders, low)
  {
    match a
    case Leave(i) =>
    case Receive(m) =>
      assert m.from in holders && m.from != m.to;
  }

  lemma {:induction false} RunKeepsOwed(run: seq<State>, acts: seq<(Action, int)>, start: int, holders: set<Node>, low: Node, k: nat)
    requires IsRun(run, acts, start) && Init(run[0], holders) && IsLowest(low, holders) && k <= |acts|
    ensures Base(run[k], holders, start) && Owed(run[k], holders, low)
  {
    if k == 0 {
      InitBase(run[0], holders, start);
    } else {
      RunKeepsOwed(run, acts, start, holders, low, k - 1);
      var step := Next(run[k - 1], run[k], acts[k - 1], start);
      assert step;
      var a, now := acts[k - 1].0, acts[k - 1].1;
      StepKeepsOwed(run[k - 1], a, now, holders, low, start);
      match a
      case Leave(i) => LeaveBase(run[k - 1], i, now, holders, start);
      case Receive(m) => ReceiveBase(run[k - 1], m, now, holders, start);
    }
  }

  /** Any number of nodes, any interleaving: when every holder has let go, someone has reported. */
  lemma SomeNodeReports(run: seq<State>, acts: seq<(Action, int)>, start: int, holders: set<Node>)
    requires IsRun(run, acts, start) && Init(run[0], holders) && holders != {} && Over(run[|acts|])
    ensures run[|acts|].reports != []
  {
    var low := Lowest(holders);
    RunKeepsOwed(run, acts, start, holders, low, |acts|);
    var s := run[|acts|];
    assert forall j | j in s.sees[low] :: Rightly(s, holders, j, low);
  }

  lemma {:induction false} Lowest(holders: set<Node>) returns (low: Node)
    requires holders != {}
    ensures IsLowest(low, holders)
    decreases |holders|
  {
    var any :| any in holders;
    low := any;
    if holders != {any} {
      var rest := Lowest(holders - {any});
      if rest < any { low := rest; }
      assert forall i | i in holders :: i == any || i in holders - {any};
    }
  }

  // ---------------------------------------------------------------- exactly one

  /** With holders `a <= b` only: at most one report, and none can follow the first. */
  ghost predicate Settled(s: State, a: Node, b: Node) {
    && |s.reports| <= 1
    && (s.reports == [] ==> forall m | m in s.mail :: m.withheld)
    && (s.reports != [] ==> s.local == {} && (a !in s.withheld || Mail(b, a, true) !in s.mail))
  }

  lemma StepKeepsSettled(s: State, act: Action, now: int, a: Node, b: Node, start: int)
    requires a <= b && Base(s, {a, b}, start) && Settled(s, a, b)
    requires Enabled(s, act) && start <= now
    ensures Settled(Do(s, act, now), a, b)
  {
    match act
    case Leave(i) =>
      if s.sees[i] == {} { assert s.local <= {i}; }
    case Receive(m) =>
      if Do(s, act, now).reports != s.reports {
        assert m == Mail(b, a, true);
        assert s.local == {};
      }
  }

  lemma {:induction false} RunKeepsSettled(run: seq<State>, acts: seq<(Action, int)>, start: int, a: Node, b: Node, k: nat)
    requires a <= b && IsRun(run, acts, start) && Init(run[0], {a, b}) && k <= |acts|
    ensures Base(run[k], {a, b}, start) && Settled(run[k], a, b)
  {
    RunKeepsOwed(run, acts, start, {a, b}, a, k);
    if k > 0 {
      RunKeepsSettled(run, acts, start, a, b, k - 1);
      var step := Next(run[k - 1], run[k], acts[k - 1], start);
      assert step;
      StepKeepsSettled(run[k - 1], acts[k - 1].0, acts[k - 1].1, a, b, start);
    }
  }

  /** With one or two holders, in a fleet of any size: exactly one report. */
  lemma TwoHoldersReportOnce(run: seq<State>, acts: seq<(Action, int)>, start: int, a: Node, b: Node)
    requires a <= b && IsRun(run, acts, start) && Init(run[0], {a, b}) && Over(run[|acts|])
    ensures |run[|acts|].reports| == 1
  {
    SomeNodeReports(run, acts, start, {a, b});
    RunKeepsSettled(run, acts, start, a, b, |acts|);
  }

  /** The higher of two holders reports only if it never withheld. */
  ghost predicate LowerFirst(s: State, a: Node, b: Node) {
    (b in s.withheld ==> b !in s.reports) && forall i | i in s.reports :: i == a || i == b
  }

  lemma StepKeepsLowerFirst(s: State, act: Action, now: int, a: Node, b: Node, start: int)
    requires a < b && Base(s, {a, b}, start) && Settled(s, a, b) && LowerFirst(s, a, b) && Enabled(s, act)
    ensures LowerFirst(Do(s, act, now), a, b) && (b in s.withheld ==> b in Do(s, act, now).withheld)
  {
    match act
    case Leave(i) =>
    case Receive(m) => assert m.from in {a, b} && m.from != m.to;
  }

  lemma {:induction false} RunKeepsLowerFirst(run: seq<State>, acts: seq<(Action, int)>, start: int, a: Node, b: Node, k: nat, l: nat)
    requires a < b && IsRun(run, acts, start) && Init(run[0], {a, b}) && k <= l <= |acts|
    ensures LowerFirst(run[l], a, b) && (b in run[k].withheld ==> b in run[l].withheld)
  {
    if l > 0 {
      RunKeepsLowerFirst(run, acts, start, a, b, if k < l then k else l - 1, l - 1);
      RunKeepsSettled(run, acts, start, a, b, l - 1);
      var step := Next(run[l - 1], run[l], acts[l - 1], start);
      assert step;
      StepKeepsLowerFirst(run[l - 1], acts[l - 1].0, acts[l - 1].1, a, b, start);
    }
  }

  /** When the higher of two holders withholds its report, the lower one makes it. */
  lemma LowerIdReports(run: seq<State>, acts: seq<(Action, int)>, start: int, a: Node, b: Node, k: nat)
    requires a < b && IsRun(run, acts, start) && Init(run[0], {a, b}) && Over(run[|acts|])
    requires k <= |acts| && b in run[k].withheld
    ensures run[|acts|].reports == [a]
  {
    TwoHoldersReportOnce(run, acts, start, a, b);
    RunKeepsLowerFirst(run, acts, start, a, b, k, |acts|);
    var r := run[|acts|].reports;
    assert r[0] in r;
  }

  /** A withheld report is made within a minute or not at all, by the lower node, when nobody is left but the sender. */
  lemma ClaimedWithinAMinute(s: State, m: Mail, now: int)
    requires m.to in s.sees
    ensures DoReceive(s, m, now).reports ==
            if m.withheld && m.to < m.from && m.to !in s.local && s.sees[m.to] <= {m.from}
               && m.to in s.withheld && now < s.withheld[m.to] + 60
            then s.reports + [m.to] else s.reports
  {
    assert s.sees[m.to] <= {m.from} <==> s.sees[m.to] - {m.from} == {};
  }

  // ------------------------------------------------------ three holders or more

  /** The actions one after another, all at the same moment. */
  ghost predicate Playable(s: State, acts: seq<Action>, now: int)
    decreases |acts|, 0
  {
    acts == [] ||
    (Playable(s, acts[..|acts| - 1], now) && Enabled(Play(s, acts[..|acts| - 1], now), acts[|acts| - 1]))
  }

  ghost function Play(s: State, acts: seq<Action>, now: int): State
    requires Playable(s, acts, now)
    decreases |acts|, 1
  {
    if acts == [] then s else Do(Play(s, acts[..|acts| - 1], now), acts[|acts| - 1], now)
  }

  lemma PlayOne(s: State, acts: seq<Action>, a: Action, now: int)
    requires Playable(s, acts, now) && Enabled(Play(s, acts, now), a)
    ensures Playable(s, acts + [a], now) && Play(s, acts + [a], now) == Do(Play(s, acts, now), a, now)
  {
    assert (acts + [a])[..|acts|] == acts;
  }

  lemma PlaySameNext(s: State, acts: seq<Action>, t: State, others: seq<Action>, a: Action, now: int)
    requires Playable(s, acts, now) && Playable(t, others, now) && Play(s, acts, now) == Play(t, others, now)
    requires Playable(t, others + [a], now)
    ensures Playable(s, acts + [a], now) && Play(s, acts + [a], now) == Play(t, others + [a], now)
  {
    assert (acts + [a])[..|acts|] == acts && (others + [a])[..|others|] == others;
  }

  lemma {:induction false} PlayBoth(s: State, acts: seq<Action>, t: State, more: seq<Action>, now: int)
    requires Playable(s, acts, now) && t == Play(s, acts, now) && Playable(t, more, now)
    ensures Playable(s, acts + more, now) && Play(s, acts + more, now) == Play(t, more, now)
  {
    if more == [] {
      assert acts + more == acts;
    } else {
      var front, a := more[..|more| - 1], more[|more| - 1];
      assert more == front + [a] && acts + more == acts + front + [a];
      PlayBoth(s, acts, t, front, now);
      PlaySameNext(s, acts + front, t, front, a, now);
    }
  }

  lemma PlayMore(s: State, acts: seq<Action>, more: seq<Action>, now: int)
    requires Playable(s, acts, now) && Playable(Play(s, acts, now), more, now)
    ensures Playable(s, acts + more, now) && Play(s, acts + more, now) == Play(Play(s, acts, now), more, now)
  {
    PlayBoth(s, acts, Play(s, acts, now), more, now);
  }

  lemma {:induction false} PlayIsRun(s: State, acts: seq<Action>, start: int) returns (run: seq<State>, timed: seq<(Action, int)>)
    requires Playable(s, acts, start)
    ensures IsRun(run, timed, start) && |timed| == |acts| && run[0] == s && run[|acts|] == Play(s, acts, start)
  {
    if acts == [] {
      run, timed := [s], [];
    } else {
      var front, a := acts[..|acts| - 1], acts[|acts| - 1];
      var run0, timed0 := PlayIsRun(s, front, start);
      run, timed := run0 + [Play(s, acts, start)], timed0 + [(a, start)];
      RunGrows(run0, timed0, start, a, Play(s, acts, start));
    }
  }

  lemma RunGrows(run: seq<State>, acts: seq<(Action, int)>, start: int, a: Action, t: State)
    requires IsRun(run, acts, start) && Next(run[|acts|], t, (a, start), start)
    ensures IsRun(run + [t], acts + [(a, start)], start)
  {
    var run', acts' := run + [t], acts + [(a, start)];
    forall k, l | 0 <= k && l == k + 1 < |run'| ensures Next(run'[k], run'[l], acts'[k], start) {
      if l < |run| {
        var step := Next(run[k], run[l], acts[k], start);
        assert step;
      }
    }
  }

  // Everybody lets go before hearing of anybody else.

  function LettersFrom(froms: set<Node>, tos: set<Node>): set<Mail> {
    set i, j | i in froms && j in tos && j != i :: Mail(i, j, true)
  }

  /** The state once the holders in `gone` have let go: each withheld and said so to all. */
  function AfterLeaves(s: State, gone: set<Node>, now: int): State {
    State(s.local - gone, s.sees, map i | i in gone :: now, LettersFrom(gone, s.sees.Keys), [])
  }

  lemma OneLeaves(s: State, holders: set<Node>, gone: set<Node>, i: Node, now: int)
    requires Init(s, holders) && gone <= holders && i in holders - gone && holders != {i}
    ensures Enabled(AfterLeaves(s, gone, now), Leave(i))
    ensures DoLeave(AfterLeaves(s, gone, now), i, now) == AfterLeaves(s, gone + {i}, now)
  {
    var t := AfterLeaves(s, gone, now);
    assert s.sees[i] == holders - {i} != {};
    assert (set j | j in s.sees && j != i :: Mail(i, j, true)) == LettersFrom({i}, s.sees.Keys);
    assert LettersFrom(gone, s.sees.Keys) + LettersFrom({i}, s.sees.Keys) == LettersFrom(gone + {i}, s.sees.Keys);
    assert (map k | k in gone :: now)[i := now] == map k | k in gone + {i} :: now;
    assert s.local - gone - {i} == s.local - (gone + {i});
  }

  lemma NobodyLeft(s: State, holders: set<Node>, now: int)
    requires Init(s, holders)
    ensures AfterLeaves(s, {}, now) == s
  {
    assert s.local - {} == s.local;
    assert LettersFrom({}, s.sees.Keys) == {};
  }

  lemma OneMoreLeaves(s: State, holders: set<Node>, gone: set<Node>, i: Node, now: int)
    requires Init(s, holders) && gone <= holders && i in gone && holders != {i}
    ensures
      var t := AfterLeaves(s, gone - {i}, now);
      Enabled(t, Leave(i)) && Do(t, Leave(i), now) == AfterLeaves(s, gone, now)
  {
    OneLeaves(s, holders, gone - {i}, i, now);
    assert gone - {i} + {i} == gone;
  }

  lemma PlayTo(s: State, acts: seq<Action>, t: State, a: Action, t': State, now: int)
    requires Playable(s, acts, now) && Play(s, acts, now) == t && Enabled(t, a) && Do(t, a, now) == t'
    ensures Playable(s, acts + [a], now) && Play(s, acts + [a], now) == t'
  {
    PlayOne(s, acts, a, now);
  }

  lemma {:induction false} AllLeave(s: State, holders: set<Node>, gone: set<Node>, now: int) returns (acts: seq<Action>)
    requires Init(s, holders) && gone <= holders && |holders| >= 2
    ensures Playable(s, acts, now) && Play(s, acts, now) == AfterLeaves(s, gone, now)
    decreases gone
  {
    if gone == {} {
      acts := [];
      NobodyLeft(s, holders, now);
    } else {
      var i :| i in gone;
      acts := AllLeave(s, holders, gone - {i}, now);
      assert holders != {i} by { assert |{i}| == 1; }
      OneMoreLeaves(s, holders, gone, i, now);
      PlayTo(s, acts, AfterLeaves(s, gone - {i}, now), Leave(i), AfterLeaves(s, gone, now), now);
      acts := acts + [Leave(i)];
    }
  }

  // One node hears of others; while one remains it stays silent, and of the last it reports.

  function Heard(s: State, i: Node, froms: set<Node>): State
    requires i in s.sees
  {
    s.(mail := s.mail - LettersFrom(froms, {i}), sees := s.sees[i := s.sees[i] - froms])
  }

  lemma OneHeard(s: State, i: Node, froms: set<Node>, f: Node, c: Node, now: int)
    requires i in s.sees && c in s.sees[i] && c !in froms && f != c && f != i && f !in froms && Mail(f, i, true) in s.mail
    ensures Enabled(Heard(s, i, froms), Receive(Mail(f, i, true)))
    ensures DoReceive(Heard(s, i, froms), Mail(f, i, true), now) == Heard(s, i, froms + {f})
  {
    var t := Heard(s, i, froms);
    assert s.sees[i] - froms - {f} == s.sees[i] - (froms + {f});
    assert c in t.sees[i] - {f};
    assert LettersFrom(froms + {f}, {i}) == LettersFrom(froms, {i}) + {Mail(f, i, true)};
    assert s.mail - LettersFrom(froms, {i}) - {Mail(f, i, true)} == s.mail - LettersFrom(froms + {f}, {i});
  }

  lemma {:induction false} HearMany(s: State, i: Node, froms: set<Node>, c: Node, now: int) returns (acts: seq<Action>)
    requires i in s.sees && c in s.sees[i] && c !in froms && i !in froms
    requires forall f | f in froms :: Mail(f, i, true) in s.mail
    ensures Playable(s, acts, now) && Play(s, acts, now) == Heard(s, i, froms)
    decreases |froms|
  {
    if froms == {} {
      acts := [];
      assert s.sees[i] - {} == s.sees[i] && s.mail - {} == s.mail;
      assert LettersFrom({}, {i}) == {};
      assert Heard(s, i, {}) == s;
    } else {
      var f :| f in froms;
      acts := HearMany(s, i, froms - {f}, c, now);
      OneHeard(s, i, froms - {f}, f, c, now);
      assert froms - {f} + {f} == froms;
      PlayOne(s, acts, Receive(Mail(f, i, true)), now);
      acts := acts + [Receive(Mail(f, i, true))];
    }
  }

  /** A node with the lower id that hears of the last other holder reports. */
  lemma LastHeard(s: State, i: Node, c: Node, now: int)
    requires i in s.sees && s.sees[i] == {c} && i !in s.local && i < c && Mail(c, i, true) in s.mail
    requires i in s.withheld && s.withheld[i] == now
    ensures
      var t := DoReceive(s, Mail(c, i, true), now);
      && Enabled(s, Receive(Mail(c, i, true)))
      && t == State(s.local, s.sees[i := {}], s.withheld - {i}, s.mail - {Mail(c, i, true)}, s.reports + [i])
  {
    assert {c} - {c} == {};
  }

  /** Node `i` hears of every other holder, `c` last, and reports. */
  lemma Announces(s: State, i: Node, c: Node, now: int) returns (acts: seq<Action>, t: State)
    requires i in s.sees && c in s.sees[i] && i !in s.sees[i] && i !in s.local && i < c
    requires forall f | f in s.sees[i] :: Mail(f, i, true) in s.mail
    requires i in s.withheld && s.withheld[i] == now
    ensures Playable(s, acts, now) && t == Play(s, acts, now)
    ensures t.local == s.local && t.reports == s.reports + [i] && t.withheld == s.withheld - {i}
    ensures t.sees == s.sees[i := {}] && t.mail == s.mail - LettersFrom(s.sees[i], {i})
  {
    var froms := s.sees[i] - {c};
    acts := HearMany(s, i, froms, c, now);
    var h := Heard(s, i, froms);
    assert h.sees[i] == {c} by { assert s.sees[i] - froms == {c}; }
    assert Mail(c, i, true) !in LettersFrom(froms, {i});
    LastHeard(h, i, c, now);
    PlayOne(s, acts, Receive(Mail(c, i, true)), now);
    acts := acts + [Receive(Mail(c, i, true))];
    t := DoReceive(h, Mail(c, i, true), now);
    assert LettersFrom(s.sees[i], {i}) == LettersFrom(froms, {i}) + {Mail(c, i, true)};
    assert s.mail - LettersFrom(froms, {i}) - {Mail(c, i, true)} == s.mail - LettersFrom(s.sees[i], {i});
  }

  /** The rest of the mail, in any order. */
  lemma {:induction false} DeliverRest(s: State, now: int) returns (acts: seq<Action>)
    requires forall m | m in s.mail :: m.to in s.sees
    ensures Playable(s, acts, now)
    ensures
      var t := Play(s, acts, now);
      t.mail == {} && t.local == s.local && |s.reports| <= |t.reports|
    decreases |s.mail|
  {
    if s.mail == {} {
      acts := [];
    } else {
      var m :| m in s.mail;
      var s1 := DoReceive(s, m, now);
      assert s1.mail == s.mail - {m} && s1.sees.Keys == s.sees.Keys && s1.local == s.local && |s.reports| <= |s1.reports|;
      PlayOne(s, [], Receive(m), now);
      var rest := DeliverRest(s1, now);
      assert [] + [Receive(m)] == [Receive(m)];
      PlayMore(s, [Receive(m)], rest, now);
      acts := [Receive(m)] + rest;
    }
  }

  /** From any agreeing state with three holders or more there is a complete run with two reports. */
  lemma ManyHoldersMayReportTwice(s: State, holders: set<Node>, start: int) returns (run: seq<State>, acts: seq<(Action, int)>)
    requires Init(s, holders) && |holders| >= 3
    ensures IsRun(run, acts, start) && run[0] == s && Over(run[|acts|])
    ensures |run[|acts|].reports| >= 2
  {
    var a, b, c := ThreeOf(holders);
    var leaving := AllLeave(s, holders, holders, start);
    var s1 := AfterLeaves(s, holders, start);
    assert s1.local == {};
    var first, s2 := Announces(s1, a, c, start);
    LettersToOthers(s1, a, b, s2);
    var second, s3 := Announces(s2, b, c, start);
    var rest := DeliverRest(s3, start);
    PlayMore(s, leaving, first, start);
    PlayMore(s, leaving + first, second, start);
    PlayMore(s, leaving + first + second, rest, start);
    run, acts := PlayIsRun(s, leaving + first + second + rest, start);
  }

  lemma ThreeOf(holders: set<Node>) returns (a: Node, b: Node, c: Node)
    requires |holders| >= 3
    ensures a in holders && b in holders && c in holders && a < b < c
  {
    a := Lowest(holders);
    assert |holders - {a}| == |holders| - 1;
    assert holders - {a} != {};
    b := Lowest(holders - {a});
    assert |holders - {a} - {b}| == |holders| - 2;
    assert holders - {a} - {b} != {};
    c :| c in holders - {a} - {b};
    assert c in holders - {a};
  }

  lemma LettersToOthers(s: State, a: Node, b: Node, t: State)
    requires a in s.sees && b in s.sees && a != b && t.mail == s.mail - LettersFrom(s.sees[a], {a})
    requires forall f | f in s.sees[b] :: Mail(f, b, true) in s.mail
    ensures forall f | f in s.sees[b] :: Mail(f, b, true) in t.mail
  {
  }

  /** Every complete run makes exactly one report. */
  ghost predicate AlwaysOnce(holders: set<Node>) {
    forall run: seq<State>, acts: seq<(Action, int)>, start: int
      | IsRun(run, acts, start) && Init(run[0], holders) && Over(run[|acts|]) :: |run[|acts|].reports| == 1
  }

  /** Exactly once is guaranteed if and only if one or two nodes hold the user. */
  lemma ExactlyOnceIff(holders: set<Node>)
    ensures AlwaysOnce(holders) <==> 1 <= |holders| <= 2
  {
    var s := State(holders, map i | i in holders :: holders - {i}, map[], {}, []);
    assert Init(s, holders);
    if |holders| == 0 {
      NoHolders(s);
    } else if |holders| <= 2 {
      FewHolders(holders);
    } else {
      var run, acts := ManyHoldersMayReportTwice(s, holders, 0);
      assert IsRun(run, acts, 0) && Init(run[0], holders) && Over(run[|acts|]);
    }
  }

  lemma NoHolders(s: State)
    requires Init(s, {})
    ensures !AlwaysOnce({})
  {
    assert IsRun([s], [], 0) && Init([s][0], {}) && Over([s][0]);
  }

  lemma FewHolders(holders: set<Node>)
    requires 1 <= |holders| <= 2
    ensures AlwaysOnce(holders)
  {
    var a := Lowest(holders);
    var b := if |holders| == 1 then a else Other(holders, a);
    assert holders == {a, b} by {
      assert |holders - {a}| == |holders| - 1;
      if |holders| == 1 {
        assert holders - {a} == {};
      } else {
        assert |holders - {a} - {b}| == 0;
        assert holders - {a} - {b} == {};
      }
    }
    forall run: seq<State>, acts: seq<(Action, int)>, start: int
      | IsRun(run, acts, start) && Init(run[0], holders) && Over(run[|acts|])
      ensures |run[|acts|].reports| == 1 {
      TwoHoldersReportOnce(run, acts, start, a, b);
    }
  }

  ghost function Other(holders: set<Node>, a: Node): (b: Node)
    requires a in holders && |holders| == 2
    ensures b in holders && b != a
  {
    assert |holders - {a}| == 1;
    assert holders - {a} != {};
    var b :| b in holders - {a};
    b
  }
}
