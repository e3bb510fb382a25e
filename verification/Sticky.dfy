/** A node keeps the IP it was given: what later requests for the same node can and cannot answer. */
module Sticky {
  import opened Wrappers
  import opened Loads
  import opened Cluster
  import opened Protocol
  import opened Invariant

  /** The step may neither delete the node, nor erase its annotation, nor start a process that is not
      configured with the IP. */
  ghost predicate Harmless(s: State, a: Action, n: Name, ip: IP)
    requires Enabled(s, a)
  {
    && (a.Restart? ==> ip in a.ipList)
    && a != Delete(n)
    && (a.UpdateOk? ==> !(s.rpcs[a.id].kind.Unpublish? && s.rpcs[a.id].node == n))
  }

  ghost predicate Undisturbed(s: State, run: seq<Action>, n: Name, ip: IP)
    requires Can(s, run)
    decreases |run|
  {
    run == [] || (Harmless(s, run[0], n, ip) && Undisturbed(Apply(s, run[0]), run[1..], n, ip))
  }

  /** From position `at` on the node carries `ip`; whatever older version the lister may still show
      carries no listed IP. */
  ghost predicate Annotated(hist: seq<Nodes>, m: Table, seen: nat, n: Name, ip: IP, at: nat) {
    && at < |hist| && ip in m
    && (forall t: nat | at <= t < |hist| :: n in hist[t] && hist[t][n].ip == Some(ip))
    && (forall t: nat | seen <= t < at && n in hist[t] :: !Listed(m, hist[t][n]))
  }

  /** A publish for the node that started later holds that IP or an outdated copy without a listed
      one, and answers that IP or an error. */
  ghost predicate Bound(m: Table, r: Rpc, ip: IP) {
    match r.pc
    case Started => true
    case Fetched(copy) => copy.ip == Some(ip) || !Listed(m, copy)
    case Locked(copy) => copy.ip == Some(ip) || !Listed(m, copy)
    case Writing(copy, _) => true
    case Written(_) => false
    case Done(o) => o == Failed || o == Assigned(ip)
  }

  ghost predicate LaterBound(m: Table, rpcs: Rpcs, n: Name, ip: IP, from: nat) {
    forall id | id in rpcs && from <= id && rpcs[id].node == n && rpcs[id].kind.Publish? :: Bound(m, rpcs[id], ip)
  }

  ghost predicate Held(s: State, n: Name, ip: IP, at: nat, from: nat) {
    && s.serving && from <= s.next
    && Annotated(s.hist, s.ipMap, Seen(s, n), n, ip, at)
    && LaterBound(s.ipMap, s.rpcs, n, ip, from)
  }

  /** The same before the table is built: the lister shows nothing from before position `at`. */
  ghost predicate HeldOver(s: State, n: Name, ip: IP, at: nat) {
    && !s.serving && at <= s.base && ip in s.ipList
    && (forall t: nat | at <= t < |s.hist| :: n in s.hist[t] && s.hist[t][n].ip == Some(ip))
  }

  /** While a node carries a listed IP, no publish can write to it: the version check refuses every
      copy that does not carry that IP, and a copy that does is answered without writing. */
  lemma {:induction false} NoSecondWrite(s: State, id: nat)
    requires Inv(s) && id in s.rpcs && s.rpcs[id].kind.Publish?
    requires s.rpcs[id].node in Server(s) && Listed(s.ipMap, Server(s)[s.rpcs[id].node])
    ensures !Enabled(s, UpdateOk(id))
  {
    if Enabled(s, UpdateOk(id)) {
      Writer(s, id);
    }
  }

  lemma {:induction false} SameSince(hist: seq<Nodes>, from: nat, n: Name)
    requires hist != [] && History(hist) && n in hist[|hist| - 1] && hist[|hist| - 1][n].version <= from
    ensures forall t: nat | from <= t < |hist| :: n in hist[t] && hist[t][n] == hist[|hist| - 1][n]
  {
    assert Stable(hist, |hist| - 1, n);
  }

  lemma {:induction false} WriteHolds(s: State, id: nat)
    requires Inv(s) && Enabled(s, UpdateOk(id)) && s.rpcs[id].kind.Publish?
    ensures Held(Apply(s, UpdateOk(id)), s.rpcs[id].node, s.rpcs[id].pc.ip, |s.hist|, s.next)
  {
    var r := s.rpcs[id];
    Writer(s, id);
    assert Genuine(s.hist, s.base, Seen(s, r.node), r.node, r.pc.copy);
    SameSince(s.hist, Seen(s, r.node), r.node);
  }

  // ----- every harmless step keeps it

  /** The annotation part, for a step that appends at most one state of the API server. */
  lemma {:induction false} AnnotatedGrows(hist: seq<Nodes>, m: Table, seen: nat, n: Name, ip: IP, at: nat, c: Nodes)
    requires hist != [] && Annotated(hist, m, seen, n, ip, at)
    requires n in c && c[n].ip == Some(ip)
    ensures Annotated(hist + [c], m, seen, n, ip, at)
  {
  }

  /** The table keeps its keys, so a listed copy stays listed. */
  lemma {:induction false} SameKeys(s: State, m: Table, n: Name, ip: IP, at: nat, from: nat)
    requires Held(s, n, ip, at, from) && m.Keys == s.ipMap.Keys
    ensures Annotated(s.hist, m, Seen(s, n), n, ip, at) && LaterBound(m, s.rpcs, n, ip, from)
  {
  }

  lemma {:induction false} MoveBound(m: Table, rpcs: Rpcs, id: nat, pc: Pc, n: Name, ip: IP, from: nat)
    requires LaterBound(m, rpcs, n, ip, from) && id in rpcs
    requires from <= id && rpcs[id].node == n && rpcs[id].kind.Publish? ==> Bound(m, rpcs[id].(pc := pc), ip)
    ensures LaterBound(m, Moved(rpcs, id, pc), n, ip, from)
  {
  }

  lemma {:induction false} GetHolds(s: State, id: nat, n: Name, ip: IP, at: nat, from: nat)
    requires Inv(s) && Enabled(s, Get(id)) && Held(s, n, ip, at, from)
    ensures Held(Apply(s, Get(id)), n, ip, at, from)
  {
    var r := s.rpcs[id];
    MoveBound(s.ipMap, s.rpcs, id, Fetch(r.kind, View(s, r.node)), n, ip, from);
  }

  /** A step of an RPC other than reading the lister, its write and its commit. */
  lemma {:induction false} RpcKeeps(s: State, a: Action, n: Name, ip: IP, at: nat, from: nat)
    requires Inv(s) && Enabled(s, a) && Held(s, n, ip, at, from)
    requires a.GetError? || a.Lock? || a.Decide? || a.UpdateFail?
    ensures Held(Apply(s, a), n, ip, at, from)
  {
    var id := a.id;
    var r := s.rpcs[id];
    if from <= id && r.node == n && r.kind.Publish? {
      assert Bound(s.ipMap, r, ip);
    }
    match a {
      case GetError(_) => MoveBound(s.ipMap, s.rpcs, id, Done(Failed), n, ip, from);
      case Lock(_) => MoveBound(s.ipMap, s.rpcs, id, Locked(r.pc.copy), n, ip, from);
      case Decide(_, pick) => MoveBound(s.ipMap, s.rpcs, id, Choose(r.kind, r.pc.copy, s.ipMap, pick), n, ip, from);
      case UpdateFail(_) => MoveBound(s.ipMap, s.rpcs, id, Done(Failed), n, ip, from);
    }
  }

  lemma {:induction false} CommitHolds(s: State, id: nat, n: Name, ip: IP, at: nat, from: nat)
    requires Inv(s) && Enabled(s, Commit(id)) && Held(s, n, ip, at, from)
    ensures Held(Apply(s, Commit(id)), n, ip, at, from)
  {
    var r := s.rpcs[id];
    assert !(from <= id && r.node == n && r.kind.Publish?);
    SameKeys(s, Bump(s.ipMap, ChangeOf(r)), n, ip, at, from);
    MoveBound(Bump(s.ipMap, ChangeOf(r)), s.rpcs, id, AnswerOf(r), n, ip, from);
  }

  lemma {:induction false} WriteElsewhere(s: State, id: nat, n: Name, ip: IP, at: nat, from: nat)
    requires Inv(s) && Enabled(s, UpdateOk(id)) && Held(s, n, ip, at, from) && Harmless(s, UpdateOk(id), n, ip)
    ensures s.rpcs[id].node != n
    ensures Held(Apply(s, UpdateOk(id)), n, ip, at, from)
  {
    var r := s.rpcs[id];
    if r.node == n {
      NoSecondWrite(s, id);
    }
    AnnotatedGrows(s.hist, s.ipMap, Seen(s, n), n, ip, at, Server(s)[r.node := Node(|s.hist|, Mark(r))]);
    MoveBound(s.ipMap, s.rpcs, id, Written(r.pc.ip), n, ip, from);
  }

  /** Steps that start or finish an RPC, and steps of the environment. */
  lemma {:induction false} RestKeeps(s: State, a: Action, n: Name, ip: IP, at: nat, from: nat)
    requires Inv(s) && Enabled(s, a) && Held(s, n, ip, at, from) && Harmless(s, a, n, ip)
    requires a.Begin? || a.Return? || a.Observe? || a.Touch? || a.Create? || a.Delete?
    ensures Held(Apply(s, a), n, ip, at, from)
  {
    match a {
      case Touch(m) =>
        AnnotatedGrows(s.hist, s.ipMap, Seen(s, n), n, ip, at, Server(s)[m := Node(|s.hist|, Server(s)[m].ip)]);
      case Create(m) => AnnotatedGrows(s.hist, s.ipMap, Seen(s, n), n, ip, at, Server(s)[m := Node(|s.hist|, None)]);
      case Delete(m) => AnnotatedGrows(s.hist, s.ipMap, Seen(s, n), n, ip, at, Server(s) - {m});
      case _ =>
    }
  }

  lemma {:induction false} StepKeeps(s: State, a: Action, n: Name, ip: IP, at: nat, from: nat)
    requires Inv(s) && Enabled(s, a) && Held(s, n, ip, at, from) && Harmless(s, a, n, ip) && !a.Restart?
    ensures Held(Apply(s, a), n, ip, at, from)
  {
    match a {
      case Commit(id) => CommitHolds(s, id, n, ip, at, from);
      case UpdateOk(id) => WriteElsewhere(s, id, n, ip, at, from);
      case Get(id) => GetHolds(s, id, n, ip, at, from);
      case GetError(_) => RpcKeeps(s, a, n, ip, at, from);
      case Lock(_) => RpcKeeps(s, a, n, ip, at, from);
      case Decide(_, _) => RpcKeeps(s, a, n, ip, at, from);
      case UpdateFail(_) => RpcKeeps(s, a, n, ip, at, from);
      case _ => RestKeeps(s, a, n, ip, at, from);
    }
  }

  /** A process that starts finds the annotation in place. */
  lemma {:induction false} RestartHolds(s: State, ipList: seq<IP>, n: Name, ip: IP, at: nat)
    requires Enabled(s, Restart(ipList)) && ip in ipList && at < |s.hist|
    requires forall t: nat | at <= t < |s.hist| :: n in s.hist[t] && s.hist[t][n].ip == Some(ip)
    ensures HeldOver(Apply(s, Restart(ipList)), n, ip, at)
  {
  }

  /** Its table then has the IP, and its lister shows only versions of the node that carry it. */
  lemma {:induction false} BuiltHolds(s: State, order: seq<Name>, n: Name, ip: IP, at: nat, from: nat)
    requires Inv(s) && Enabled(s, Resync(order)) && HeldOver(s, n, ip, at) && from <= s.next
    ensures Held(Apply(s, Resync(order)), n, ip, at, from)
  {
    var s' := Apply(s, Resync(order));
    assert ip in s'.ipMap;
    assert at <= s.base <= Seen(s', n);
  }

  lemma {:induction false} BootKeeps(s: State, a: Action, n: Name, ip: IP, at: nat)
    requires Inv(s) && Enabled(s, a) && HeldOver(s, n, ip, at) && Harmless(s, a, n, ip) && !a.Restart? && !a.Resync?
    ensures HeldOver(Apply(s, a), n, ip, at)
  {
    assert s.rpcs == map[];
    assert n in s.hist[|s.hist| - 1];
  }

  /** Before and after the table is built. */
  ghost predicate Holds(s: State, n: Name, ip: IP, at: nat, from: nat) {
    if s.serving then Held(s, n, ip, at, from) else HeldOver(s, n, ip, at) && from <= s.next
  }

  lemma {:induction false} AnyStepKeeps(s: State, a: Action, n: Name, ip: IP, at: nat, from: nat)
    requires Inv(s) && Enabled(s, a) && Holds(s, n, ip, at, from) && Harmless(s, a, n, ip)
    ensures Holds(Apply(s, a), n, ip, at, from)
  {
    if a.Restart? {
      RestartHolds(s, a.ipList, n, ip, at);
    } else if a.Resync? {
      BuiltHolds(s, a.order, n, ip, at, from);
    } else if s.serving {
      StepKeeps(s, a, n, ip, at, from);
    } else {
      BootKeeps(s, a, n, ip, at);
    }
  }

  lemma {:induction false} RunKeeps(s: State, run: seq<Action>, n: Name, ip: IP, at: nat, from: nat)
    requires Inv(s) && Can(s, run) && Undisturbed(s, run, n, ip) && Holds(s, n, ip, at, from)
    ensures Holds(After(s, run), n, ip, at, from)
    decreases |run|
  {
    if run != [] {
      AnyStepKeeps(s, run[0], n, ip, at, from);
      Preserved(s, run[0]);
      RunKeeps(Apply(s, run[0]), run[1..], n, ip, at, from);
    }
  }

  // ----- no second increment

  /** How often along the run a publish for the node increments a count. */
  ghost function Increments(s: State, run: seq<Action>, n: Name): nat
    requires Can(s, run)
    decreases |run|
  {
    if run == [] then 0
    else (if run[0].Commit? && Places(s.rpcs[run[0].id], n) then 1 else 0) + Increments(Apply(s, run[0]), run[1..], n)
  }

  predicate Places(r: Rpc, n: Name) {
    r.kind.Publish? && r.node == n
  }

  /** The increment still owed for the node. */
  function Owed(s: State, n: Name): nat {
    if s.mutex.Some? && s.mutex.value in s.rpcs && s.rpcs[s.mutex.value].pc.Written? && Places(s.rpcs[s.mutex.value], n)
    then 1 else 0
  }

  lemma {:induction false} StepOnOwed(s: State, a: Action, n: Name, ip: IP, at: nat, from: nat)
    requires Inv(s) && Enabled(s, a) && Holds(s, n, ip, at, from)
    ensures (if a.Commit? && Places(s.rpcs[a.id], n) then 1 else 0) + Owed(Apply(s, a), n) <= Owed(s, n)
  {
    if a.UpdateOk? {
      WriteOnOwed(s, a.id, n, ip, at, from);
    } else if a.Commit? {
      CommitOnOwed(s, a.id, n);
    } else {
      OtherOnOwed(s, a, n);
    }
  }

  lemma {:induction false} WriteOnOwed(s: State, id: nat, n: Name, ip: IP, at: nat, from: nat)
    requires Inv(s) && Enabled(s, UpdateOk(id)) && Holds(s, n, ip, at, from)
    ensures Owed(Apply(s, UpdateOk(id)), n) == 0
  {
    Writer(s, id);
    if Places(s.rpcs[id], n) {
      assert n in s.hist[|s.hist| - 1];
      NoSecondWrite(s, id);
    }
  }

  lemma {:induction false} CommitOnOwed(s: State, id: nat, n: Name)
    requires Inv(s) && Enabled(s, Commit(id))
    ensures Owed(Apply(s, Commit(id)), n) == 0 && (Places(s.rpcs[id], n) ==> Owed(s, n) == 1)
  {
    assert Critical(s.rpcs[id].pc);
  }

  lemma {:induction false} OtherOnOwed(s: State, a: Action, n: Name)
    requires Inv(s) && Enabled(s, a) && !a.UpdateOk? && !a.Commit?
    ensures Owed(Apply(s, a), n) <= Owed(s, n)
  {
  }

  lemma {:induction false} IncrementsOwed(s: State, run: seq<Action>, n: Name, ip: IP, at: nat, from: nat)
    requires Inv(s) && Can(s, run) && Undisturbed(s, run, n, ip) && Holds(s, n, ip, at, from)
    ensures Increments(s, run, n) + Owed(After(s, run), n) <= Owed(s, n)
    decreases |run|
  {
    if run != [] {
      StepOnOwed(s, run[0], n, ip, at, from);
      AnyStepKeeps(s, run[0], n, ip, at, from);
      Preserved(s, run[0]);
      IncrementsOwed(Apply(s, run[0]), run[1..], n, ip, at, from);
    }
  }

  // ----- the theorem

  /** The node carries `ip`; a publish for it numbered `from` or later has answered `ip` or an error;
      and no publish for it can write. */
  ghost predicate Kept(s: State, n: Name, ip: IP, from: nat) {
    && s.hist != [] && n in Server(s) && Server(s)[n].ip == Some(ip)
    && forall id | id in s.rpcs && Places(s.rpcs[id], n) ::
         && !Enabled(s, UpdateOk(id))
         && (from <= id && s.rpcs[id].pc.Done? ==> s.rpcs[id].pc.outcome in {Failed, Assigned(ip)})
  }

  lemma {:induction false} HoldsIsKept(s: State, n: Name, ip: IP, at: nat, from: nat)
    requires Inv(s) && Holds(s, n, ip, at, from)
    ensures Kept(s, n, ip, from)
  {
    assert n in s.hist[|s.hist| - 1];
    forall id | id in s.rpcs && Places(s.rpcs[id], n)
      ensures !Enabled(s, UpdateOk(id))
      ensures from <= id && s.rpcs[id].pc.Done? ==> s.rpcs[id].pc.outcome in {Failed, Assigned(ip)}
    {
      NoSecondWrite(s, id);
      if from <= id { assert Bound(s.ipMap, s.rpcs[id], ip); }
    }
  }

  /** Once a publish has written `ip` to a node, and as long as nobody erases it or deletes the node,
      through any number of restarts of the process with lists that have `ip`: the node keeps `ip`;
      every publish for that node that starts afterwards answers `ip` or an error, for whatever volume
      and however far the lister lags; no publish writes to the node again; and apart from the
      writer's own increment no publish for the node increments a count. */
  lemma {:induction false} KeepsItsIP(s: State, writer: nat, run: seq<Action>)
    requires Reachable(s) && Enabled(s, UpdateOk(writer)) && s.rpcs[writer].kind.Publish?
    requires Can(Apply(s, UpdateOk(writer)), run)
    requires Undisturbed(Apply(s, UpdateOk(writer)), run, s.rpcs[writer].node, s.rpcs[writer].pc.ip)
    ensures Kept(After(Apply(s, UpdateOk(writer)), run), s.rpcs[writer].node, s.rpcs[writer].pc.ip, s.next)
    ensures Increments(Apply(s, UpdateOk(writer)), run, s.rpcs[writer].node) <= 1
  {
    ReachableInv(s);
    var s1, n, ip := Apply(s, UpdateOk(writer)), s.rpcs[writer].node, s.rpcs[writer].pc.ip;
    Preserved(s, UpdateOk(writer));
    WriteHolds(s, writer);
    RunKeeps(s1, run, n, ip, |s.hist|, s.next);
    IncrementsOwed(s1, run, n, ip, |s.hist|, s.next);
    PreservedByRuns(s1, run);
    HoldsIsKept(After(s1, run), n, ip, |s.hist|, s.next);
  }
}
