/** However requests interleave, each critical section has the effect of an uninterrupted request. */
module Serial {
  import opened Wrappers
  import opened Loads
  import opened Cluster
  import opened Protocol
  import opened Invariant
  import opened Guarantees
  import opened Answers
  import opened Sequential

  /** The request has left the critical section for good. */
  ghost predicate Over(s: State, id: nat) {
    id < s.next && (id in s.rpcs ==> s.rpcs[id].pc.Done?)
  }

  lemma {:induction false} OverStays(s: State, a: Action, id: nat)
    requires Enabled(s, a) && Over(s, id)
    ensures Over(Apply(s, a), id)
  {
  }

  lemma {:induction false} OverForGood(s: State, run: seq<Action>, id: nat)
    requires Can(s, run) && Over(s, id)
    ensures Over(After(s, run), id)
    decreases |run|
  {
    if run != [] {
      OverStays(s, run[0], id);
      OverForGood(Apply(s, run[0]), run[1..], id);
    }
  }

  /** The write of `r` was accepted and made position `w` of the history. */
  ghost predicate WroteAt(hist: seq<Nodes>, w: nat, r: Rpc)
    requires r.pc.Writing?
  {
    && 0 < w < |hist| && Accepts(hist[w - 1], r.node, r.pc.copy, true)
    && hist[w] == hist[w - 1][r.node := Node(w, Mark(r))]
  }

  /** The request `r` with its plan, made when the history had `from` positions and the table was `m`,
      is in the critical section; `w` is the position of its write, if it has written. */
  ghost predicate Underway(s: State, id: nat, r: Rpc, m: Table, from: nat, w: nat) {
    && s.mutex == Some(id) && id in s.rpcs && s.ipMap == m && from <= |s.hist| && r.pc.Writing?
    && (s.rpcs[id] == r ||
        (s.rpcs[id] == r.(pc := Written(r.pc.ip)) && from <= w && WroteAt(s.hist, w, r)))
  }

  /** Nobody but the mutex holder takes these steps. */
  lemma {:induction false} Holder(s: State, a: Action)
    requires Inv(s) && Enabled(s, a) && (a.Decide? || a.UpdateOk? || a.UpdateFail? || a.Commit?)
    ensures s.mutex == Some(a.id)
  {
    assert Critical(s.rpcs[a.id].pc);
  }

  lemma {:induction false} OwnStep(s: State, a: Action, id: nat, r: Rpc, m: Table, from: nat, w: nat) returns (w': nat)
    requires Inv(s) && Enabled(s, a) && (a.UpdateOk? || a.UpdateFail? || a.Commit?) && Underway(s, id, r, m, from, w)
    ensures Underway(Apply(s, a), id, r, m, from, w') || Over(Apply(s, a), id)
  {
    Holder(s, a);
    w' := if a.UpdateOk? then |s.hist| else w;
  }

  lemma {:induction false} OtherStep(s: State, a: Action, id: nat, r: Rpc, m: Table, from: nat, w: nat)
    requires Inv(s) && Enabled(s, a) && !a.Restart? && Underway(s, id, r, m, from, w)
    requires !(a.UpdateOk? || a.UpdateFail? || a.Commit?)
    ensures Underway(Apply(s, a), id, r, m, from, w)
  {
    StepExtends(s, a);
    if a.Decide? { Holder(s, a); }
  }

  /** What the request `r`, which took the mutex when the table was `m`, goes on to do if it chooses `pick`. */
  function Decided(r: Rpc, m: Table, pick: IP): Rpc
    requires r.pc.Locked?
  {
    r.(pc := Choose(r.kind, r.pc.copy, m, pick))
  }

  /** The request is in the critical section, before or after its decision. */
  ghost predicate Inside(s: State, id: nat, r: Rpc, m: Table, from: nat, pick: IP, w: nat)
    requires r.pc.Locked?
  {
    if id in s.rpcs && s.rpcs[id] == r then s.mutex == Some(id) && s.ipMap == m && from <= |s.hist|
    else Least(m, pick) && Underway(s, id, Decided(r, m, pick), m, from, w)
  }

  lemma {:induction false} BeforeDecision(s: State, a: Action, id: nat, r: Rpc, m: Table, from: nat) returns (pick: IP, w: nat)
    requires Inv(s) && Enabled(s, a) && !a.Restart? && r.pc.Locked? && m != map[]
    requires id in s.rpcs && s.rpcs[id] == r && s.mutex == Some(id) && s.ipMap == m && from <= |s.hist|
    ensures Inside(Apply(s, a), id, r, m, from, pick, w) || Over(Apply(s, a), id)
  {
    StepExtends(s, a);
    if a.Decide? || a.UpdateOk? || a.UpdateFail? || a.Commit? { Holder(s, a); }
    w := 0;
    pick := if a.Decide? && r.kind.Publish? && !Listed(m, r.pc.copy) then a.pick else SomeLeast(m);
  }

  lemma {:induction false} StepInside(s: State, a: Action, id: nat, r: Rpc, m: Table, from: nat, pick: IP, w: nat) returns (pick': IP, w': nat)
    requires Inv(s) && Enabled(s, a) && !a.Restart? && r.pc.Locked? && m != map[] && Inside(s, id, r, m, from, pick, w)
    ensures Inside(Apply(s, a), id, r, m, from, pick', w') || Over(Apply(s, a), id)
  {
    pick', w' := pick, w;
    if s.rpcs[id] == r {
      pick', w' := BeforeDecision(s, a, id, r, m, from);
    } else if a.UpdateOk? || a.UpdateFail? || a.Commit? {
      w' := OwnStep(s, a, id, Decided(r, m, pick), m, from, w);
    } else {
      OtherStep(s, a, id, Decided(r, m, pick), m, from, w);
    }
  }

  lemma {:induction false} RunInside(s: State, run: seq<Action>, id: nat, r: Rpc, m: Table, from: nat, pick: IP, w: nat) returns (pick': IP, w': nat)
    requires Inv(s) && Can(s, run) && NoRestart(run) && r.pc.Locked? && m != map[] && Inside(s, id, r, m, from, pick, w)
    ensures Inside(After(s, run), id, r, m, from, pick', w') || Over(After(s, run), id)
    decreases |run|
  {
    pick', w' := pick, w;
    if run != [] {
      pick', w' := StepInside(s, run[0], id, r, m, from, pick, w);
      Preserved(s, run[0]);
      if Over(Apply(s, run[0]), id) {
        OverForGood(Apply(s, run[0]), run[1..], id);
      } else {
        pick', w' := RunInside(Apply(s, run[0]), run[1..], id, r, m, from, pick', w');
      }
    }
  }

  /** The request `r`, holding the mutex and a copy when the table was `m`, ends as if alone: with the
      nodes as they were right before position `w`, the outcome, the new table and, at position `w`, the
      new nodes are those of an uninterrupted request. */
  ghost predicate AsAlone(r: Rpc, m: Table, end: State, id: nat, pick: IP, w: nat, reachable: bool)
    requires r.pc.Locked?
  {
    && 0 < w <= |end.hist| && Least(m, pick) && id in end.rpcs
    && var e := Alone(r.kind, r.node, Found(r.pc.copy), m, end.hist[w - 1], w, pick, reachable);
    && end.rpcs[id].pc == Done(e.outcome) && end.ipMap == e.table
    && if reachable then w < |end.hist| && e.nodes == end.hist[w] else e.nodes == end.hist[w - 1]
  }

  /** Only these steps end a critical section. */
  lemma {:induction false} Ends(s: State, a: Action, id: nat)
    requires Inv(s) && Enabled(s, a) && !a.Restart? && s.mutex == Some(id) && Over(Apply(s, a), id)
    ensures a.Decide? || a.UpdateFail? || a.Commit?
    ensures a.id == id
  {
    assert id in s.rpcs && Critical(s.rpcs[id].pc);
    if a.Decide? || a.UpdateOk? || a.UpdateFail? || a.Commit? { Holder(s, a); }
  }

  lemma {:induction false} EndsDeciding(s: State, id: nat, p: IP, r: Rpc)
    requires WellFormed(s) && Enabled(s, Decide(id, p)) && s.rpcs[id] == r && Over(Apply(s, Decide(id, p)), id)
    requires (r.kind.Publish? || r.pc.copy.ip.Some?) && s.ipMap != map[]
    ensures AsAlone(r, s.ipMap, Apply(s, Decide(id, p)), id, SomeLeast(s.ipMap), |s.hist|, false)
  {
    AloneDecides(r.kind, r.node, r.pc.copy, s.ipMap, Server(s), |s.hist|, SomeLeast(s.ipMap), false);
  }

  lemma {:induction false} EndsFailing(s: State, id: nat, r: Rpc, pick: IP)
    requires Enabled(s, UpdateFail(id)) && r.pc.Locked? && Least(s.ipMap, pick)
    requires (r.kind.Publish? || r.pc.copy.ip.Some?) && s.rpcs[id] == Decided(r, s.ipMap, pick)
    ensures AsAlone(r, s.ipMap, Apply(s, UpdateFail(id)), id, pick, |s.hist|, false)
  {
    AloneDecides(r.kind, r.node, r.pc.copy, s.ipMap, Server(s), |s.hist|, pick, false);
  }

  lemma {:induction false} EndsWritten(s: State, id: nat, r: Rpc, pick: IP, w: nat)
    requires Enabled(s, Commit(id)) && r.pc.Locked? && Least(s.ipMap, pick) && (r.kind.Publish? || r.pc.copy.ip.Some?)
    requires var d := Decided(r, s.ipMap, pick);
             d.pc.Writing? && s.rpcs[id] == d.(pc := Written(d.pc.ip)) && WroteAt(s.hist, w, d)
    ensures AsAlone(r, s.ipMap, Apply(s, Commit(id)), id, pick, w, true)
  {
    AloneDecides(r.kind, r.node, r.pc.copy, s.ipMap, s.hist[w - 1], w, pick, true);
  }

  lemma {:induction false} LastStep(s: State, a: Action, id: nat, r: Rpc, m: Table, from: nat, pick: IP, w: nat)
    returns (pick': IP, w': nat, reachable: bool)
    requires Inv(s) && Enabled(s, a) && !a.Restart? && r.pc.Locked? && m != map[] && Inside(s, id, r, m, from, pick, w)
    requires (r.kind.Publish? || r.pc.copy.ip.Some?) && Over(Apply(s, a), id)
    ensures from <= w' && AsAlone(r, m, Apply(s, a), id, pick', w', reachable)
  {
    Ends(s, a, id);
    match a {
      case Decide(_, p) =>
        EndsDeciding(s, id, p, r);
        pick', w', reachable := SomeLeast(m), |s.hist|, false;
      case UpdateFail(_) =>
        EndsFailing(s, id, r, pick);
        pick', w', reachable := pick, |s.hist|, false;
      case Commit(_) =>
        EndsWritten(s, id, r, pick, w);
        pick', w', reachable := pick, w, true;
    }
  }

  /** Serialisability. A request takes the mutex; then anything may happen, until it leaves the critical
      section. Its outcome and the table are then those of an uninterrupted request that found the
      table as it was when the mutex was taken, and the nodes as they were when its write arrived; and
      that write is the uninterrupted request's. */
  lemma {:induction false} Serialised(s: State, id: nat, run: seq<Action>, last: Action) returns (pick: IP, w: nat, reachable: bool)
    requires Reachable(s) && id in s.rpcs && s.rpcs[id].pc.Locked?
    requires Can(s, run) && NoRestart(run) && !Over(After(s, run), id)
    requires Enabled(After(s, run), last) && !last.Restart? && Over(Apply(After(s, run), last), id)
    ensures |s.hist| <= w && AsAlone(s.rpcs[id], s.ipMap, Apply(After(s, run), last), id, pick, w, reachable)
  {
    ReachableInv(s);
    var r := s.rpcs[id];
    assert Planned(s.ipMap, r) && Critical(r.pc);
    assert s.serving && s.ipList[0] in s.ipMap.Keys;
    pick, w := RunInside(s, run, id, r, s.ipMap, |s.hist|, "", 0);
    PreservedByRuns(s, run);
    pick, w, reachable := LastStep(After(s, run), last, id, r, s.ipMap, |s.hist|, pick, w);
  }

  // ----- the answer of a publish that wrote

  lemma {:induction false} WrittenStep(s: State, a: Action, id: nat)
    requires Inv(s) && Enabled(s, a) && !a.Restart? && id in s.rpcs && s.rpcs[id].pc.Written?
    ensures var s', n, ip := Apply(s, a), s.rpcs[id].node, s.rpcs[id].pc.ip;
            || Over(s', id)
            || (id in s'.rpcs && s'.rpcs[id] == s.rpcs[id] && s'.hist != [] &&
                (Carries(Server(s'), n, ip) <==> Carries(Server(s), n, ip) && a != Delete(n)))
  {
    assert Critical(s.rpcs[id].pc);
    if a.Decide? || a.UpdateOk? || a.UpdateFail? || a.Commit? {
      Holder(s, a);
    } else {
      OthersLeave(s, a, id);
    }
  }

  lemma {:induction false} OthersLeave(s: State, a: Action, id: nat)
    requires Enabled(s, a) && !a.Restart? && id in s.rpcs && s.rpcs[id].pc.Written? && id < s.next
    requires !(a.Decide? || a.UpdateOk? || a.UpdateFail? || a.Commit?)
    ensures var s', n, ip := Apply(s, a), s.rpcs[id].node, s.rpcs[id].pc.ip;
            id in s'.rpcs && s'.rpcs[id] == s.rpcs[id] && s'.hist != [] &&
            (Carries(Server(s'), n, ip) <==> Carries(Server(s), n, ip) && a != Delete(n))
  {
    if a.Touch? || a.Create? || a.Delete? {
      EnvironmentLeaves(s, a, s.rpcs[id].node, s.rpcs[id].pc.ip);
    } else {
      SameServer(s, a);
    }
  }

  lemma {:induction false} EnvironmentLeaves(s: State, a: Action, n: Name, ip: IP)
    requires Enabled(s, a) && (a.Touch? || a.Create? || a.Delete?)
    ensures Apply(s, a).rpcs == s.rpcs && Apply(s, a).hist != []
    ensures Carries(Server(Apply(s, a)), n, ip) <==> Carries(Server(s), n, ip) && a != Delete(n)
  {
  }

  lemma {:induction false} SameServer(s: State, a: Action)
    requires Enabled(s, a) && !(a.UpdateOk? || a.Touch? || a.Create? || a.Delete?)
    ensures Apply(s, a).hist == s.hist
  {
  }

  lemma {:induction false} InTail(a: Action, run: seq<Action>)
    requires run != []
    ensures a in run <==> a == run[0] || a in run[1..]
  {
  }

  lemma {:induction false} WrittenRun(s: State, run: seq<Action>, id: nat)
    requires Inv(s) && Can(s, run) && NoRestart(run) && id in s.rpcs && s.rpcs[id].pc.Written?
    requires id in After(s, run).rpcs && After(s, run).rpcs[id].pc.Written?
    ensures var n, ip, end := s.rpcs[id].node, s.rpcs[id].pc.ip, After(s, run);
            end.hist != [] && (Carries(Server(end), n, ip) <==> Carries(Server(s), n, ip) && Delete(n) !in run)
    decreases |run|
  {
    if run != [] {
      WrittenStep(s, run[0], id);
      Preserved(s, run[0]);
      if Over(Apply(s, run[0]), id) {
        OverForGood(Apply(s, run[0]), run[1..], id);
      } else {
        WrittenRun(Apply(s, run[0]), run[1..], id);
        InTail(Delete(s.rpcs[id].node), run);
      }
    }
  }

  /** The IP that a publish wrote and is about to answer is on the node exactly when the node was not
      deleted since the write. */
  lemma {:induction false} WrittenIsAnnotated(s: State, id: nat, run: seq<Action>)
    requires Reachable(s) && Enabled(s, UpdateOk(id)) && s.rpcs[id].kind.Publish?
    requires Can(Apply(s, UpdateOk(id)), run) && NoRestart(run)
    requires var end := After(Apply(s, UpdateOk(id)), run); id in end.rpcs && end.rpcs[id].pc.Written?
    ensures var n, ip, end := s.rpcs[id].node, s.rpcs[id].pc.ip, After(Apply(s, UpdateOk(id)), run);
            end.hist != [] && (Carries(Server(end), n, ip) <==> Delete(n) !in run)
  {
    ReachableInv(s);
    Preserved(s, UpdateOk(id));
    WrittenRun(Apply(s, UpdateOk(id)), run, id);
  }
}
