/** What the invariant and the arithmetic give together: statements about whole runs of the controller. */
module Guarantees {
  import opened Wrappers
  import opened Loads
  import opened Cluster
  import opened Protocol
  import opened Invariant

  // ----- accounting

  /** In every reachable state: the table has exactly the configured IPs, at least one; no count is
      negative; and for each IP the count, corrected by what the mutex holder still owes, is the
      number of nodes annotated with it plus the number of deletions of nodes annotated with it, each
      after the position at which the node was counted. */
  lemma {:induction false} Accounting(s: State)
    requires Reachable(s) && s.serving
    ensures s.hist != [] && s.ipMap.Keys == Leaked(s).Keys == (set ip | ip in s.ipList) && s.ipMap != map[]
    ensures forall ip | ip in s.ipMap ::
              && 0 <= s.ipMap[ip] && 0 <= Leaked(s)[ip]
              && s.ipMap[ip] + Pending(s.mutex, s.rpcs, ip) == Load(Server(s), ip) + Leaked(s)[ip]
  {
    ReachableInv(s);
    assert s.ipList[0] in s.ipMap.Keys;
    forall ip | ip in s.ipMap ensures Counted(Server(s), s.ipMap, Leaked(s), s.mutex, s.rpcs, ip) {}
  }

  /** The same with nothing owed. */
  lemma {:induction false} AtRest(s: State)
    requires Inv(s) && s.serving && s.mutex == None
    ensures s.ipMap.Keys == Leaked(s).Keys == (set ip | ip in s.ipList)
    ensures forall ip | ip in s.ipMap :: s.ipMap[ip] == Load(Server(s), ip) + Leaked(s)[ip]
  {
    forall ip | ip in s.ipMap ensures Counted(Server(s), s.ipMap, Leaked(s), s.mutex, s.rpcs, ip) {}
  }

  /** Every IP a publish answers is a configured one, and only a publish answers an IP. */
  lemma {:induction false} AnswersAreConfigured(s: State, id: nat)
    requires Reachable(s) && id in s.rpcs && s.rpcs[id].pc.Done?
    ensures s.rpcs[id].pc.outcome.Assigned? ==> s.rpcs[id].kind.Publish? && s.rpcs[id].pc.outcome.ip in s.ipList
    ensures s.rpcs[id].pc.outcome.Removed? ==> s.rpcs[id].kind.Unpublish?
  {
    ReachableInv(s);
    assert Planned(s.ipMap, s.rpcs[id]);
    if s.rpcs[id].pc.outcome.Assigned? {
      assert s.rpcs[id].pc.outcome.ip in s.ipMap.Keys;
    }
  }

  /** The nodes annotated with any of the given IPs. */
  function HoldersOf(c: Nodes, ips: set<IP>): set<Name> {
    set n | n in c && c[n].ip.Some? && c[n].ip.value in ips
  }

  lemma {:induction false} HoldersSplit(c: Nodes, ips: set<IP>, ip: IP)
    requires ip in ips
    ensures |HoldersOf(c, ips)| == |HoldersOf(c, ips - {ip})| + Load(c, ip)
  {
    var rest := HoldersOf(c, ips - {ip});
    assert HoldersOf(c, ips) == rest + Holders(c, ip);
    assert rest !! Holders(c, ip);
  }

  lemma {:induction false} LoadsAddUp(c: Nodes, m: Table, d: Table)
    requires m.Keys == d.Keys && forall ip | ip in m :: m[ip] == Load(c, ip) + d[ip]
    ensures Total(m) == |HoldersOf(c, m.Keys)| + Total(d)
    decreases |m|
  {
    if m == map[] {
      assert d == map[];
      assert HoldersOf(c, m.Keys) == {};
    } else {
      var ip :| ip in m;
      TotalSplit(m, ip);
      TotalSplit(d, ip);
      LoadsAddUp(c, m - {ip}, d - {ip});
      HoldersSplit(c, m.Keys, ip);
      assert (m - {ip}).Keys == m.Keys - {ip};
    }
  }

  /** No node is counted twice: whenever the mutex is free, all counts together are the number of
      nodes annotated with a configured IP plus the leaked ones. */
  lemma {:induction false} CountedOnce(s: State)
    requires Reachable(s) && s.serving && s.mutex == None
    ensures s.hist != [] && Total(s.ipMap) == |HoldersOf(Server(s), s.ipMap.Keys)| + Total(Leaked(s))
  {
    ReachableInv(s);
    AtRest(s);
    LoadsAddUp(Server(s), s.ipMap, Leaked(s));
  }

  // ----- rebuilding the table

  function Minus(m: Table, d: Table): Table
    requires m.Keys == d.Keys
  {
    map ip | ip in m :: m[ip] - d[ip]
  }

  lemma {:induction false} RecountIs(ipList: seq<IP>, c: Nodes, order: seq<Name>, m: Table, leaked: Table)
    requires m.Keys == leaked.Keys == (set ip | ip in ipList) && Lists(order, c)
    requires forall ip | ip in m :: m[ip] == Load(c, ip) + leaked[ip]
    ensures Recount(ipList, Annotations(c, order)) == Minus(m, leaked)
  {
    var a := Annotations(c, order);
    assert forall ip | ip in ipList :: ip in m.Keys;
    forall ip | ip in ipList ensures multiset(a)[Some(ip)] == m[ip] - leaked[ip] {
      CountIsLoad(c, order, ip);
    }
    SameTable(ipList, a, m, leaked);
  }

  lemma {:induction false} SameTable(ipList: seq<IP>, a: seq<Option<IP>>, m: Table, leaked: Table)
    requires m.Keys == leaked.Keys == set ip | ip in ipList
    requires forall ip | ip in ipList :: ip in m && multiset(a)[Some(ip)] == m[ip] - leaked[ip]
    ensures Recount(ipList, a) == Minus(m, leaked)
  {
  }

  lemma {:induction false} MinusNothing(m: Table, d: Table)
    requires m.Keys == d.Keys
    ensures Minus(m, d) == m <==> forall ip | ip in d :: d[ip] == 0
  {
  }

  /** With the mutex free, recounting the API server's nodes, in any order, gives the incrementally
      kept table less the leaked counts; it gives the same table exactly when nothing has leaked. */
  lemma {:induction false} RecountAgrees(s: State, order: seq<Name>)
    requires Reachable(s) && s.serving && s.mutex == None && s.hist != [] && Lists(order, Server(s))
    ensures s.ipMap.Keys == Leaked(s).Keys
    ensures Recount(s.ipList, Annotations(Server(s), order)) == Minus(s.ipMap, Leaked(s))
    ensures Recount(s.ipList, Annotations(Server(s), order)) == s.ipMap <==> forall ip | ip in Leaked(s) :: Leaked(s)[ip] == 0
  {
    ReachableInv(s);
    AtRest(s);
    RecountIs(s.ipList, Server(s), order, s.ipMap, Leaked(s));
    MinusNothing(s.ipMap, Leaked(s));
  }

  /** Ending the process between requests and starting it again with the same IPs forgets exactly the
      leaked counts. */
  lemma {:induction false} RestartForgetsLeaks(s: State, order: seq<Name>)
    requires Reachable(s) && s.serving && s.mutex == None && Enabled(s, Restart(s.ipList))
    requires Enabled(Apply(s, Restart(s.ipList)), Resync(order))
    ensures s.ipMap.Keys == Leaked(s).Keys
    ensures Apply(Apply(s, Restart(s.ipList)), Resync(order)).ipMap == Minus(s.ipMap, Leaked(s))
  {
    var s1 := Apply(s, Restart(s.ipList));
    assert s1.ipList == s.ipList && Server(s1) == Server(s);
    FreshResync(s1, order);
    RecountAgrees(s, order);
  }

  /** A lister that has just been filled shows what the API server has. */
  lemma {:induction false} FreshStore(s: State)
    requires WellFormed(s) && s.base == |s.hist| - 1 && s.seen == map[]
    ensures Store(s) == Server(s)
  {
  }

  lemma {:induction false} FreshResync(s: State, order: seq<Name>)
    requires s.hist != [] && s.base == |s.hist| - 1 && s.seen == map[] && Enabled(s, Resync(order))
    ensures Lists(order, Server(s))
    ensures Apply(s, Resync(order)).ipMap == Recount(s.ipList, Annotations(Server(s), order))
  {
    FreshStore(s);
  }

  /** Starting up never gets stuck: whatever the cluster and the lister look like, a process that has
      not built its table can build it and serve. */
  lemma {:induction false} StartsServing(s: State) returns (order: seq<Name>)
    requires Reachable(s) && !s.serving
    ensures Enabled(s, Resync(order)) && Apply(s, Resync(order)).serving
  {
    ReachableInv(s);
    order := ListOf(Store(s));
  }

  // ----- what a run does to the table

  /** The changes of the table along a run, in order. */
  ghost function Changes(s: State, run: seq<Action>): seq<Change>
    requires Can(s, run)
    decreases |run|
  {
    if run == [] then []
    else (if run[0].Commit? then [ChangeOf(s.rpcs[run[0].id])] else []) + Changes(Apply(s, run[0]), run[1..])
  }

  predicate NoRestart(run: seq<Action>) {
    forall i | 0 <= i < |run| :: !run[i].Restart?
  }

  lemma {:induction false} StepOnTable(s: State, a: Action)
    requires Inv(s) && s.serving && Enabled(s, a) && !a.Restart?
    ensures Apply(s, a).serving && Apply(s, a).ipList == s.ipList
    ensures a.Commit? ==> var c := ChangeOf(s.rpcs[a.id]);
              c.ip in s.ipMap && (c.Inc? ==> Least(s.ipMap, c.ip)) && Apply(s, a).ipMap == Bump(s.ipMap, c)
    ensures !a.Commit? ==> Apply(s, a).ipMap == s.ipMap
  {
    if a.Commit? { assert Planned(s.ipMap, s.rpcs[a.id]); }
  }

  /** However the RPCs interleave, fail and retry, the table goes through a greedy history: every
      increment falls on an IP that is least loaded at the moment of the increment. */
  lemma {:induction false} RunsAreGreedy(s: State, run: seq<Action>)
    requires Inv(s) && s.serving && Can(s, run) && NoRestart(run)
    ensures Greedy(s.ipMap, Changes(s, run))
    ensures After(s, run).ipMap == Play(s.ipMap, Changes(s, run))
    ensures After(s, run).serving && After(s, run).ipList == s.ipList
    decreases |run|
  {
    if run != [] {
      var s1 := Apply(s, run[0]);
      StepOnTable(s, run[0]);
      Preserved(s, run[0]);
      RunsAreGreedy(s1, run[1..]);
      var rest := Changes(s1, run[1..]);
      if run[0].Commit? {
        var c := ChangeOf(s.rpcs[run[0].id]);
        assert ([c] + rest)[0] == c && ([c] + rest)[1..] == rest;
      } else {
        assert [] + rest == rest;
      }
    }
  }

  /** The gap between the most and the least loaded IP is at most one, or what it was at the start if
      that was more, plus one for each unpublish that took effect. */
  lemma {:induction false} ImbalanceOfRuns(s: State, run: seq<Action>)
    requires Reachable(s) && s.serving && Can(s, run) && NoRestart(run)
    ensures s.ipMap != map[] && After(s, run).ipMap != map[]
    ensures Spread(After(s, run).ipMap) <= Max(1, Spread(s.ipMap)) + Removals(Changes(s, run))
  {
    Accounting(s);
    ReachableInv(s);
    RunsAreGreedy(s, run);
    BoundedImbalance(s.ipMap, Changes(s, run));
  }

  /** A run in which no unpublish takes effect places its nodes as well as any placement could. */
  lemma {:induction false} RunsAreOptimal(s: State, run: seq<Action>)
    requires Reachable(s) && s.serving && Can(s, run) && NoRestart(run) && OnlyIncrements(Changes(s, run))
    ensures s.ipMap != map[] && BestPlacement(s.ipMap, |Changes(s, run)|, After(s, run).ipMap)
  {
    Accounting(s);
    ReachableInv(s);
    RunsAreGreedy(s, run);
    GreedyIsBest(s.ipMap, Changes(s, run));
  }

  /** How a run schedules its RPCs and breaks its ties does not matter for the collection of counts. */
  lemma {:induction false} SchedulesAgree(s1: State, run1: seq<Action>, s2: State, run2: seq<Action>)
    requires Reachable(s1) && s1.serving && Can(s1, run1) && NoRestart(run1) && OnlyIncrements(Changes(s1, run1))
    requires Reachable(s2) && s2.serving && Can(s2, run2) && NoRestart(run2) && OnlyIncrements(Changes(s2, run2))
    requires SameLoads(s1.ipMap, s2.ipMap) && |Changes(s1, run1)| == |Changes(s2, run2)|
    ensures SameLoads(After(s1, run1).ipMap, After(s2, run2).ipMap)
  {
    ReachableInv(s1);
    ReachableInv(s2);
    RunsAreGreedy(s1, run1);
    RunsAreGreedy(s2, run2);
    TieBreakingIrrelevant(s1.ipMap, s2.ipMap, Changes(s1, run1), Changes(s2, run2));
  }

  /** From equal counts, one write per configured IP reaches each IP exactly once and leaves equal
      counts; taking those nodes away again, in any order, restores the table. */
  lemma {:induction false} RoundsOfRuns(s: State, c: int, up: seq<Action>, down: seq<Action>)
    requires Reachable(s) && s.serving && AllEqual(s.ipMap, c)
    requires Can(s, up) && NoRestart(up) && OnlyIncrements(Changes(s, up)) && |Changes(s, up)| == |s.ipMap|
    requires Can(After(s, up), down) && NoRestart(down)
    ensures var hit := Changes(s, up);
            && Distinct(hit) && Targets(hit) == s.ipMap.Keys
            && After(s, up).ipMap.Keys == s.ipMap.Keys && AllEqual(After(s, up).ipMap, c + 1)
    ensures var gone := Changes(After(s, up), down);
            Removals(gone) == |gone| && Distinct(gone) && Targets(gone) == s.ipMap.Keys
            ==> After(After(s, up), down).ipMap == s.ipMap
  {
    ReachableInv(s);
    RunsAreGreedy(s, up);
    FullRound(s.ipMap, c, Changes(s, up));
    PreservedByRuns(s, up);
    RunsAreGreedy(After(s, up), down);
    var gone := Changes(After(s, up), down);
    if Removals(gone) == |gone| && Distinct(gone) && Targets(gone) == s.ipMap.Keys {
      BatchUndone(s.ipMap, c, Changes(s, up), gone);
    }
  }

  /** After unpublishes have left the counts lopsided, publishes even them out again: the counts are
      within one of each other exactly when at least the initial deficit has been placed. */
  lemma {:induction false} RecoveryOfRuns(s: State, run: seq<Action>)
    requires Reachable(s) && s.serving && Can(s, run) && NoRestart(run) && OnlyIncrements(Changes(s, run))
    ensures s.ipMap != map[] && After(s, run).ipMap != map[]
    ensures Spread(After(s, run).ipMap) <= 1 <==> Deficit(s.ipMap, MaxLoad(s.ipMap)) <= |Changes(s, run)|
  {
    Accounting(s);
    ReachableInv(s);
    RunsAreGreedy(s, run);
    Recovery(s.ipMap, Changes(s, run));
  }

  // ----- the distribution of nodes

  predicate NoDelete(run: seq<Action>) {
    forall i | 0 <= i < |run| :: !run[i].Delete?
  }

  /** How many nodes are deleted along the run while annotated with the IP. */
  ghost function Deleted(s: State, run: seq<Action>, ip: IP): nat
    requires Can(s, run)
    decreases |run|
  {
    if run == [] then 0 else DeletedBy(s, run[0], ip) + Deleted(Apply(s, run[0]), run[1..], ip)
  }

  ghost function DeletedBy(s: State, a: Action, ip: IP): nat
    requires Enabled(s, a)
  {
    if a.Delete? && Server(s)[a.node].ip == Some(ip) then 1 else 0
  }

  /** The deletions the table does not know of, or would not know of if it were built now. */
  ghost function Unknown(s: State, ip: IP): set<(Name, nat)> {
    Lost(s.hist, s.base, if s.serving then s.counted else s.seen, ip)
  }

  lemma {:induction false} StepOnUnknown(s: State, a: Action, ip: IP)
    requires Inv(s) && Enabled(s, a) && !a.Restart?
    ensures |Unknown(Apply(s, a), ip)| <= |Unknown(s, ip)| + DeletedBy(s, a, ip)
    ensures s.serving || !a.Observe? ==> |Unknown(Apply(s, a), ip)| == |Unknown(s, ip)| + DeletedBy(s, a, ip)
  {
    if a.UpdateOk? || a.Touch? || a.Create? {
      PutLosesNone(s, a, ip);
    } else if a.Delete? {
      DeleteLoses(s, a.node, ip);
    } else if a.Observe? {
      ObserveFinds(s, a.node, a.at, ip);
    } else {
      NoneLost(s, a, ip);
    }
  }

  lemma {:induction false} PutLosesNone(s: State, a: Action, ip: IP)
    requires Enabled(s, a) && (a.UpdateOk? || a.Touch? || a.Create?)
    ensures Unknown(Apply(s, a), ip) == Unknown(s, ip)
  {
    var c := Server(Apply(s, a));
    assert Apply(s, a).hist == s.hist + [c] && Server(s).Keys <= c.Keys;
    LostPut(s.hist, s.base, if s.serving then s.counted else s.seen, c, ip);
  }

  lemma {:induction false} DeleteLoses(s: State, n: Name, ip: IP)
    requires Inv(s) && Enabled(s, Delete(n))
    ensures |Unknown(Apply(s, Delete(n)), ip)| == |Unknown(s, ip)| + DeletedBy(s, Delete(n), ip)
  {
    LostErase(s.hist, s.base, if s.serving then s.counted else s.seen, n, ip);
  }

  lemma {:induction false} ObserveFinds(s: State, n: Name, at: nat, ip: IP)
    requires Enabled(s, Observe(n, at))
    ensures |Unknown(Apply(s, Observe(n, at)), ip)| <= |Unknown(s, ip)|
    ensures s.serving ==> Unknown(Apply(s, Observe(n, at)), ip) == Unknown(s, ip)
  {
    LostShrinks(s.hist, s.base, s.seen, n, at, ip);
  }

  lemma {:induction false} NoneLost(s: State, a: Action, ip: IP)
    requires Enabled(s, a) && !(a.UpdateOk? || a.Touch? || a.Create? || a.Delete? || a.Observe? || a.Restart?)
    ensures Unknown(Apply(s, a), ip) == Unknown(s, ip)
  {
  }

  lemma {:induction false} LostShrinks(hist: seq<Nodes>, base: nat, seen: map<Name, nat>, n: Name, at: nat, ip: IP)
    requires Position(base, seen, n) <= at
    ensures |Lost(hist, base, seen[n := at], ip)| <= |Lost(hist, base, seen, ip)|
  {
    SubsetSize(Lost(hist, base, seen[n := at], ip), Lost(hist, base, seen, ip));
  }

  /** The lister stands still until the table is built. */
  predicate StillUntilBuilt(run: seq<Action>) {
    run == [] || run[0].Resync? || (!run[0].Observe? && StillUntilBuilt(run[1..]))
  }

  /** As long as the process lives, the deletions its table does not know of grow by exactly the nodes
      that are deleted while annotated, less those the lister shows gone before the table is built. */
  lemma {:induction false} LeaksAreDeletions(s: State, run: seq<Action>, ip: IP)
    requires Inv(s) && Can(s, run) && NoRestart(run)
    ensures |Unknown(After(s, run), ip)| <= |Unknown(s, ip)| + Deleted(s, run, ip)
    ensures s.serving || StillUntilBuilt(run) ==> |Unknown(After(s, run), ip)| == |Unknown(s, ip)| + Deleted(s, run, ip)
    decreases |run|
  {
    if run != [] {
      if s.serving { StepOnTable(s, run[0]); }
      StepOnUnknown(s, run[0], ip);
      Preserved(s, run[0]);
      LeaksAreDeletions(Apply(s, run[0]), run[1..], ip);
    }
  }

  /** A process that has just started. */
  ghost predicate Fresh(s: State) {
    s.hist != [] && s.base == |s.hist| - 1 && s.seen == map[] && !s.serving
  }

  lemma {:induction false} NothingUnknown(s: State, ip: IP)
    requires Fresh(s)
    ensures Unknown(s, ip) == {}
  {
  }

  lemma {:induction false} FirstIsRestart(run: seq<Action>)
    requires !NoRestart(run) && NoRestart(run[1..])
    ensures run[0].Restart?
  {
    assert forall i | 0 < i < |run| :: run[i] == run[1..][i - 1];
  }

  lemma {:induction false} RestartIsFresh(s: State, a: Action)
    requires Enabled(s, a) && a.Restart?
    ensures Fresh(Apply(s, a))
  {
  }

  /** Every run ends in a process that started somewhere along it. */
  lemma {:induction false} LastStart(s: State, run: seq<Action>) returns (start: State, rest: seq<Action>)
    requires Inv(s) && Can(s, run) && (Fresh(s) || !NoRestart(run))
    ensures Inv(start) && Fresh(start) && Can(start, rest) && NoRestart(rest) && After(start, rest) == After(s, run)
    decreases |run|
  {
    if NoRestart(run) {
      start, rest := s, run;
    } else {
      Preserved(s, run[0]);
      if NoRestart(run[1..]) {
        FirstIsRestart(run);
        RestartIsFresh(s, run[0]);
        start, rest := Apply(s, run[0]), run[1..];
      } else {
        start, rest := LastStart(Apply(s, run[0]), run[1..]);
      }
    }
  }

  /** In every reachable state the leaked counts are numbers of deletions: since the process started at
      least that many annotated nodes were deleted, and exactly that many if the lister stood still
      until the table was built. */
  lemma {:induction false} LeaksSinceStart(s: State, ip: IP) returns (start: State, run: seq<Action>)
    requires Reachable(s) && s.serving && ip in s.ipMap
    ensures Inv(start) && Fresh(start) && Can(start, run) && NoRestart(run) && After(start, run) == s
    ensures Leaked(s)[ip] <= Deleted(start, run, ip)
    ensures StillUntilBuilt(run) ==> Leaked(s)[ip] == Deleted(start, run, ip)
  {
    var s0, whole :| Init(s0) && Can(s0, whole) && After(s0, whole) == s;
    InitHolds(s0);
    start, run := LastStart(s0, whole);
    LeaksAreDeletions(start, run, ip);
    NothingUnknown(start, ip);
  }

  lemma {:induction false} NoNewLeaks(s: State, run: seq<Action>)
    requires Inv(s) && s.serving && Can(s, run) && NoRestart(run) && NoDelete(run)
    ensures After(s, run).ipMap.Keys == s.ipMap.Keys
    ensures forall ip | ip in s.ipMap :: Leaked(After(s, run))[ip] == Leaked(s)[ip]
  {
    RunsAreGreedy(s, run);
    PreservedByRuns(s, run);
    forall ip | ip in s.ipMap ensures Leaked(After(s, run))[ip] == Leaked(s)[ip] {
      LeaksAreDeletions(s, run, ip);
      NothingDeleted(s, run, ip);
    }
  }

  lemma {:induction false} NothingDeleted(s: State, run: seq<Action>, ip: IP)
    requires Can(s, run) && NoDelete(run)
    ensures Deleted(s, run, ip) == 0
    decreases |run|
  {
    if run != [] { NothingDeleted(Apply(s, run[0]), run[1..], ip); }
  }

  /** The evenly spread cluster the driver is for. Start with counts at most one apart and nothing
      leaked; let any publishes run, however they interleave with each other, with failures and with a
      lagging lister, and let no unpublish take effect and no node go away. Whenever the mutex is free,
      every configured IP serves the average number of annotated nodes, rounded down or up. */
  lemma {:induction false} EvenlySpread(s: State, run: seq<Action>, ip: IP)
    requires Reachable(s) && s.serving && s.ipMap != map[] && Spread(s.ipMap) <= 1
    requires forall j | j in Leaked(s) :: Leaked(s)[j] == 0
    requires Can(s, run) && NoRestart(run) && NoDelete(run) && OnlyIncrements(Changes(s, run))
    requires After(s, run).mutex == None && ip in s.ipList
    ensures After(s, run).hist != []
    ensures var c, ips := Server(After(s, run)), set j | j in s.ipList;
            var n := |HoldersOf(c, ips)|;
            && ips != {}
            && (Load(c, ip) == n / |ips| || Load(c, ip) == CeilDiv(n, |ips|))
  {
    var end := After(s, run);
    ReachableInv(s);
    RunsAreGreedy(s, run);
    NoNewLeaks(s, run);
    PreservedByRuns(s, run);
    AtRest(end);
    BoundedImbalance(s.ipMap, Changes(s, run));
    NoRemovals(Changes(s, run));
    assert ip in end.ipMap.Keys;
    EvenlyServed(Server(end), end.ipMap, Leaked(end), ip);
  }

  lemma {:induction false} EvenlyServed(c: Nodes, m: Table, leaked: Table, ip: IP)
    requires ip in m && Spread(m) <= 1 && m.Keys == leaked.Keys && forall j | j in leaked :: leaked[j] == 0
    requires forall j | j in m :: m[j] == Load(c, j) + leaked[j]
    ensures var n := |HoldersOf(c, m.Keys)|;
            m.Keys != {} && (Load(c, ip) == n / |m.Keys| || Load(c, ip) == CeilDiv(n, |m.Keys|))
  {
    LoadsAddUp(c, m, leaked);
    ZeroTotal(leaked);
    Flat(m, ip);
    assert |m| == |m.Keys|;
  }

  lemma {:induction false} ZeroTotal(m: Table)
    requires forall ip | ip in m :: m[ip] == 0
    ensures Total(m) == 0
  {
    TotalAtLeast(m, 0);
    TotalAtMost(m, 0);
  }
}
