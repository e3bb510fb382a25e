/** What one request does when nothing interferes with it, as a function of what it finds; and the
    proof that this is what the protocol's steps do. */
module Sequential {
  import opened Wrappers
  import opened Loads
  import opened Cluster
  import opened Protocol
  import opened Invariant
  import opened Guarantees

  /** What asking the lister for a node can give. */
  datatype Lookup = Found(node: Node) | NotFound | Unavailable

  datatype Effect = Effect(outcome: Outcome, table: Table, nodes: Nodes)

  /** The API server takes a write that reaches it and is based on the node's present version. */
  predicate Accepts(c: Nodes, n: Name, copy: Node, reachable: bool) {
    reachable && n in c && c[n].version == copy.version
  }

  /** `pick` is the IP to write if one has to be chosen, `version` the next resource version. */
  function Alone(kind: Kind, n: Name, look: Lookup, m: Table, c: Nodes, version: nat, pick: IP, reachable: bool): Effect
    requires kind.Publish? ==> pick in m
  {
    if look.Unavailable? then Effect(Failed, m, c)
    else
      var fetched := Fetch(kind, Shown(look));
      if fetched.Done? then Effect(fetched.outcome, m, c)
      else
        var copy := fetched.copy;
        var pc := Choose(kind, copy, m, pick);
        if pc.Done? then Effect(pc.outcome, m, c)
        else if !Accepts(c, n, copy, reachable) then Effect(Failed, m, c)
        else if kind.Publish? then
          Effect(Assigned(pick), Bump(m, Inc(pick)), c[n := Node(version, Some(pick))])
        else
          Effect(Removed, Bump(m, Dec(pc.ip)), c[n := Node(version, None)])
  }

  function Shown(look: Lookup): Option<Node> {
    if look.Found? then Some(look.node) else None
  }

  // ----- when a request succeeds, and what it changes then

  /** A publish succeeds exactly when the lister shows the node and either the copy carries a listed IP
      or the write is accepted; an unpublish exactly when the node is unknown, or the copy carries no
      listed IP, or the write is accepted. */
  lemma {:induction false} SucceedsExactlyWhen(n: Name, look: Lookup, m: Table, c: Nodes, version: nat, pick: IP, reachable: bool)
    requires pick in m
    ensures Alone(Publish, n, look, m, c, version, pick, reachable).outcome.Assigned? <==>
            look.Found? && (Listed(m, look.node) || Accepts(c, n, look.node, reachable))
    ensures Alone(Unpublish, n, look, m, c, version, pick, reachable).outcome.Removed? <==>
            look.NotFound? || (look.Found? && (!Listed(m, look.node) || Accepts(c, n, look.node, reachable)))
  {
  }

  /** The table changes by exactly what the node objects change by, for every listed IP. */
  lemma {:induction false} EffectIsCounted(kind: Kind, n: Name, look: Lookup, m: Table, c: Nodes, version: nat, pick: IP,
                                           reachable: bool, ip: IP)
    requires pick in m && ip in m
    requires look.Found? && n in c && c[n].version == look.node.version ==> c[n] == look.node
    ensures var e := Alone(kind, n, look, m, c, version, pick, reachable);
            ip in e.table && e.table[ip] - m[ip] == Load(e.nodes, ip) - Load(c, ip)
  {
    var e := Alone(kind, n, look, m, c, version, pick, reachable);
    if e.nodes != c {
      HoldersWrite(c, n, e.nodes[n], ip);
    }
  }

  // ----- what the Container Storage Interface asks of repeated calls

  /** Repeating a publish that succeeded, for the same or any other volume, once the lister has caught
      up: the same IP, and no further effect. */
  lemma {:induction false} PublishTwice(n: Name, look: Lookup, m: Table, c: Nodes, version: nat, pick: IP, reachable: bool,
                                        version': nat, pick': IP, reachable': bool)
    requires pick in m && pick' in m
    requires look.Found? ==> n in c && c[n] == look.node
    ensures var e := Alone(Publish, n, look, m, c, version, pick, reachable);
            e.outcome.Assigned? ==>
              && n in e.nodes && pick' in e.table
              && Alone(Publish, n, Found(e.nodes[n]), e.table, e.nodes, version', pick', reachable') == e
  {
  }

  /** Repeating an unpublish that succeeded, once the lister has caught up: success, and no further
      effect; the node then carries no configured IP. */
  lemma {:induction false} UnpublishTwice(n: Name, look: Lookup, m: Table, c: Nodes, version: nat, reachable: bool,
                                          version': nat, reachable': bool)
    requires if n in c then look == Found(c[n]) || look.Unavailable? else !look.Found?
    ensures var e := Alone(Unpublish, n, look, m, c, version, "", reachable);
            e.outcome.Removed? ==>
              && (n in e.nodes ==> !Listed(e.table, e.nodes[n]))
              && Alone(Unpublish, n, if n in e.nodes then Found(e.nodes[n]) else NotFound,
                       e.table, e.nodes, version', "", reachable') == e
  {
  }

  /** What varies from one publish to the next: the next resource version, the IP that would be chosen
      and whether the API server can be reached. */
  datatype Call = Call(version: nat, pick: IP, reachable: bool)

  /** Publishes for one node, one after the other, for whatever volumes. */
  function PublishAll(n: Name, m: Table, c: Nodes, calls: seq<Call>): Effect
    requires n in c && forall call | call in calls :: call.pick in m
    decreases |calls|
  {
    if calls == [] then Effect(Failed, m, c)
    else
      var e := Alone(Publish, n, Found(c[n]), m, c, calls[0].version, calls[0].pick, calls[0].reachable);
      if |calls| == 1 then e else PublishAll(n, e.table, e.nodes, calls[1..])
  }

  /** Once the node carries a configured IP, all of them answer it and change nothing. */
  lemma {:induction false} PublishedAlready(n: Name, m: Table, c: Nodes, calls: seq<Call>)
    requires n in c && Listed(m, c[n]) && calls != [] && forall call | call in calls :: call.pick in m
    ensures PublishAll(n, m, c, calls) == Effect(Assigned(c[n].ip.value), m, c)
    decreases |calls|
  {
    if |calls| > 1 { PublishedAlready(n, m, c, calls[1..]); }
  }

  /** The first of them that reaches the API server is the only one that counts. */
  lemma {:induction false} FirstCounts(n: Name, m: Table, c: Nodes, calls: seq<Call>) returns (call: Call)
    requires n in c && !Listed(m, c[n]) && (forall x | x in calls :: x.pick in m) && exists x :: x in calls && x.reachable
    ensures call in calls && call.reachable
    ensures PublishAll(n, m, c, calls) == Alone(Publish, n, Found(c[n]), m, c, call.version, call.pick, true)
    decreases |calls|
  {
    assert calls[0] in calls;
    if calls[0].reachable {
      call := calls[0];
      if |calls| > 1 {
        var e := Alone(Publish, n, Found(c[n]), m, c, call.version, call.pick, true);
        PublishedAlready(n, e.table, e.nodes, calls[1..]);
      }
    } else {
      assert exists x :: x in calls[1..] && x.reachable;
      call := FirstCounts(n, m, c, calls[1..]);
    }
  }

  /** One unpublish undoes any number of publishes of volumes on the node, of which at least one reached
      the API server: the table is back where it was and the node carries nothing. There is no count of
      volumes per node. */
  lemma {:induction false} UnpublishUndoes(n: Name, m: Table, c: Nodes, calls: seq<Call>, version: nat)
    requires n in c && !Listed(m, c[n]) && (forall call | call in calls :: call.pick in m) && exists call :: call in calls && call.reachable
    ensures var e := PublishAll(n, m, c, calls);
            && e.outcome.Assigned? && n in e.nodes && e.nodes[n].ip == Some(e.outcome.ip)
            && Alone(Unpublish, n, Found(e.nodes[n]), e.table, e.nodes, version, "", true) ==
               Effect(Removed, m, c[n := Node(version, None)])
  {
    var call := FirstCounts(n, m, c, calls);
    assert Bump(Bump(m, Inc(call.pick)), Dec(call.pick)) == m;
  }

  // ----- the protocol's steps, taken without interference

  /** Steps that RPCs in flight take; none of them is the environment's. */
  predicate RpcSteps(run: seq<Action>) {
    forall i | 0 <= i < |run| ::
      run[i].Get? || run[i].GetError? || run[i].Lock? || run[i].Decide? || run[i].UpdateOk? || run[i].UpdateFail? ||
      run[i].Commit? || run[i].Return?
  }

  lemma {:induction false} Prefix(s: State, a: Action, run: seq<Action>)
    requires Enabled(s, a) && Can(Apply(s, a), run)
    ensures Can(s, [a] + run) && After(s, [a] + run) == After(Apply(s, a), run)
  {
  }

  /** The request is over, with the effect `e`; everything else is as in `s`. */
  ghost predicate Finished(s: State, id: nat, e: Effect, end: State)
    requires id in s.rpcs
  {
    && WellFormed(end) && Server(end) == e.nodes && end.ipMap == e.table && end.mutex == None
    && end.rpcs == s.rpcs[id := s.rpcs[id].(pc := Done(e.outcome))]
    && end.locks == s.locks && end.seen == s.seen && end.counted == s.counted && end.next == s.next
  }

  /** What an RPC about to write brings about. */
  function Wrote(s: State, r: Rpc, reachable: bool): Effect
    requires s.hist != [] && r.pc.Writing? && r.pc.ip in s.ipMap
  {
    if Accepts(Server(s), r.node, r.pc.copy, reachable) then
      Effect(if r.kind.Publish? then Assigned(r.pc.ip) else Removed,
             Bump(s.ipMap, if r.kind.Publish? then Inc(r.pc.ip) else Dec(r.pc.ip)),
             Server(s)[r.node := Node(|s.hist|, Mark(r))])
    else Effect(Failed, s.ipMap, Server(s))
  }

  lemma {:induction false} AfterWriting(s: State, id: nat, reachable: bool) returns (run: seq<Action>)
    requires WellFormed(s) && id in s.rpcs && s.rpcs[id].pc.Writing? && s.mutex == Some(id)
    requires s.rpcs[id].pc.ip in s.ipMap
    ensures Can(s, run) && RpcSteps(run)
    ensures Finished(s, id, Wrote(s, s.rpcs[id], reachable), After(s, run))
  {
    var r := s.rpcs[id];
    if Accepts(Server(s), r.node, r.pc.copy, reachable) {
      var s1 := Apply(s, UpdateOk(id));
      assert Enabled(s1, Commit(id));
      var s2 := Apply(s1, Commit(id));
      Prefix(s1, Commit(id), []);
      Prefix(s, UpdateOk(id), [Commit(id)] + []);
      run := [UpdateOk(id)] + ([Commit(id)] + []);
      assert After(s, run) == s2;
      assert s2.rpcs == s.rpcs[id := s.rpcs[id].(pc := AnswerOf(s1.rpcs[id]))];
    } else {
      Prefix(s, UpdateFail(id), []);
      run := [UpdateFail(id)] + [];
    }
  }

  lemma {:induction false} AfterLock(s: State, id: nat, pick: IP, reachable: bool) returns (run: seq<Action>)
    requires WellFormed(s) && id in s.rpcs && s.rpcs[id].pc.Locked? && s.mutex == Some(id) && Least(s.ipMap, pick)
    requires s.rpcs[id].kind.Publish? || s.rpcs[id].pc.copy.ip.Some?
    ensures Can(s, run) && RpcSteps(run)
    ensures var r := s.rpcs[id];
            Finished(s, id, Alone(r.kind, r.node, Found(r.pc.copy), s.ipMap, Server(s), |s.hist|, pick, reachable), After(s, run))
  {
    var r := s.rpcs[id];
    var s1 := Apply(s, Decide(id, pick));
    var pc := Choose(r.kind, r.pc.copy, s.ipMap, pick);
    assert s1.rpcs == s.rpcs[id := r.(pc := pc)];
    AloneDecides(r.kind, r.node, r.pc.copy, s.ipMap, Server(s), |s.hist|, pick, reachable);
    var rest := [];
    if pc.Writing? {
      rest := AfterWriting(s1, id, reachable);
      Overwrite(s.rpcs, id, r.(pc := pc), After(s1, rest).rpcs[id]);
    }
    Prefix(s, Decide(id, pick), rest);
    run := [Decide(id, pick)] + rest;
  }

  /** From the copy on, an uninterrupted request is its choice and its write. */
  lemma {:induction false} AloneDecides(kind: Kind, n: Name, copy: Node, m: Table, c: Nodes, version: nat, pick: IP, reachable: bool)
    requires pick in m && (kind.Publish? || copy.ip.Some?)
    ensures var pc, e := Choose(kind, copy, m, pick), Alone(kind, n, Found(copy), m, c, version, pick, reachable);
            && (pc.Done? ==> e == Effect(pc.outcome, m, c))
            && (pc.Writing? && !Accepts(c, n, copy, reachable) ==> e == Effect(Failed, m, c))
            && (pc.Writing? && Accepts(c, n, copy, reachable) && kind.Publish? ==>
                  e == Effect(Assigned(pick), Bump(m, Inc(pick)), c[n := Node(version, Some(pick))]))
            && (pc.Writing? && Accepts(c, n, copy, reachable) && kind.Unpublish? ==>
                  pc.ip in m && e == Effect(Removed, Bump(m, Dec(pc.ip)), c[n := Node(version, None)]))
  {
  }

  /** Only the last of two writes to the same key counts. */
  lemma {:induction false} Overwrite(rpcs: map<nat, Rpc>, id: nat, r: Rpc, q: Rpc)
    ensures rpcs[id := r][id := q] == rpcs[id := q]
  {
  }

  lemma {:induction false} AfterFetch(s: State, id: nat, pick: IP, reachable: bool) returns (run: seq<Action>)
    requires WellFormed(s) && id in s.rpcs && s.rpcs[id].pc.Fetched? && s.mutex == None && Least(s.ipMap, pick)
    requires s.rpcs[id].kind.Publish? || s.rpcs[id].pc.copy.ip.Some?
    ensures Can(s, run) && RpcSteps(run)
    ensures var r := s.rpcs[id];
            Finished(s, id, Alone(r.kind, r.node, Found(r.pc.copy), s.ipMap, Server(s), |s.hist|, pick, reachable), After(s, run))
  {
    var r := s.rpcs[id];
    var s1 := Apply(s, Lock(id));
    assert s1.rpcs == s.rpcs[id := r.(pc := Locked(r.pc.copy))];
    var rest := AfterLock(s1, id, pick, reachable);
    Overwrite(s.rpcs, id, r.(pc := Locked(r.pc.copy)), After(s1, rest).rpcs[id]);
    Prefix(s, Lock(id), rest);
    run := [Lock(id)] + rest;
  }

  lemma {:induction false} GetIs(s: State, id: nat)
    requires WellFormed(s) && id in s.rpcs && s.rpcs[id].pc == Started
    ensures Enabled(s, Get(id))
    ensures Apply(s, Get(id)) == SetPc(s, id, Fetch(s.rpcs[id].kind, View(s, s.rpcs[id].node)))
  {
  }

  lemma {:induction false} AfterStart(s: State, id: nat, look: Lookup, pick: IP, reachable: bool) returns (run: seq<Action>)
    requires WellFormed(s) && id in s.rpcs && s.rpcs[id].pc == Started && s.mutex == None && Least(s.ipMap, pick)
    requires !look.Unavailable? && View(s, s.rpcs[id].node) == Shown(look)
    ensures Can(s, run) && RpcSteps(run)
    ensures Finished(s, id, Alone(s.rpcs[id].kind, s.rpcs[id].node, look, s.ipMap, Server(s), |s.hist|, pick, reachable),
                     After(s, run))
  {
    var r := s.rpcs[id];
    var pc := Fetch(r.kind, Shown(look));
    var s1 := SetPc(s, id, pc);
    GetIs(s, id);
    var rest := [];
    if pc.Fetched? {
      assert look == Found(pc.copy);
      rest := AfterFetch(s1, id, pick, reachable);
      Overwrite(s.rpcs, id, r.(pc := pc), After(s1, rest).rpcs[id]);
    }
    Prefix(s, Get(id), rest);
    run := [Get(id)] + rest;
  }

  /** A request whose steps nobody interrupts does exactly what `Alone` says. */
  lemma {:induction false} AloneIsARun(s: State, id: nat, look: Lookup, pick: IP, reachable: bool) returns (run: seq<Action>)
    requires WellFormed(s) && id in s.rpcs && s.rpcs[id].pc == Started && s.mutex == None && Least(s.ipMap, pick)
    requires look.Unavailable? || View(s, s.rpcs[id].node) == Shown(look)
    ensures Can(s, run) && RpcSteps(run)
    ensures Finished(s, id, Alone(s.rpcs[id].kind, s.rpcs[id].node, look, s.ipMap, Server(s), |s.hist|, pick, reachable),
                     After(s, run))
  {
    if look.Unavailable? {
      Prefix(s, GetError(id), []);
      run := [GetError(id)] + [];
    } else {
      run := AfterStart(s, id, look, pick, reachable);
    }
  }

  // ----- runs one after the other

  lemma {:induction false} Front(s: State, a: seq<Action>)
    requires Can(s, a) && a != []
    ensures Enabled(s, a[0]) && Can(Apply(s, a[0]), a[1..])
    ensures After(s, a) == After(Apply(s, a[0]), a[1..])
  {
  }

  lemma {:induction false} ConcatNone(s: State, a: seq<Action>, b: seq<Action>)
    requires Can(s, a) && Can(After(s, a), b) && a == []
    ensures Can(s, a + b) && After(s, a + b) == After(After(s, a), b)
  {
    assert a + b == b;
    assert After(s, a) == s;
  }

  lemma {:induction false} ConcatOne(s: State, x: Action, rest: seq<Action>, b: seq<Action>, a: seq<Action>)
    requires Enabled(s, x) && Can(Apply(s, x), rest + b) && a == [x] + rest
    ensures Can(s, a + b) && After(s, a + b) == After(Apply(s, x), rest + b)
  {
    Prefix(s, x, rest + b);
    assert [x] + (rest + b) == a + b;
  }

  lemma {:induction false} Concat(s: State, a: seq<Action>, b: seq<Action>)
    requires Can(s, a) && Can(After(s, a), b)
    ensures Can(s, a + b) && After(s, a + b) == After(After(s, a), b)
    decreases |a|
  {
    if a == [] {
      ConcatNone(s, a, b);
    } else {
      Front(s, a);
      Concat(Apply(s, a[0]), a[1..], b);
      ConcatOne(s, a[0], a[1..], b, a);
    }
  }

  /** A publish that has read its copy can be overtaken by an unpublish of another volume on the same
      node, and then answers the IP that was just erased. */
  lemma {:induction false} Overtakes(s: State, p: nat, u: nat) returns (run: seq<Action>)
    requires WellFormed(s) && s.mutex == None
    requires p in s.rpcs && s.rpcs[p].kind.Publish? && s.rpcs[p].pc.Fetched? && Listed(s.ipMap, s.rpcs[p].pc.copy)
    requires u in s.rpcs && s.rpcs[u].kind.Unpublish? && s.rpcs[u].pc == Started && s.rpcs[u].node == s.rpcs[p].node
    requires View(s, s.rpcs[p].node) == Some(s.rpcs[p].pc.copy)
    requires s.rpcs[p].node in Server(s) && Server(s)[s.rpcs[p].node] == s.rpcs[p].pc.copy
    ensures Can(s, run) && OutOfDate(After(s, run), p, s.rpcs[p].node, s.rpcs[p].pc.copy.ip.value)
  {
    var first := AloneIsARun(s, u, Found(s.rpcs[p].pc.copy), SomeLeast(s.ipMap), true);
    var mid := After(s, first);
    var second := AfterFetch(mid, p, SomeLeast(mid.ipMap), true);
    Concat(s, first, second);
    run := first + second;
  }

  /** A publish has answered an IP that the node does not carry. */
  ghost predicate OutOfDate(s: State, p: nat, n: Name, ip: IP) {
    && p in s.rpcs && s.rpcs[p].pc == Done(Assigned(ip)) && s.rpcs[p].node == n
    && s.hist != [] && n in Server(s) && Server(s)[n].ip == None
  }

  /** A cluster of one node and one configured IP. */
  function OneNode(n: Name, mark: Option<IP>, ip: IP): State {
    State([ip], [map[n := Node(0, mark)]], 0, map[], false, map[], map[], None, {}, map[], 0)
  }

  lemma {:induction false} OneNodeServes(n: Name, mark: Option<IP>, ip: IP)
    ensures Init(OneNode(n, mark, ip)) && Enabled(OneNode(n, mark, ip), Resync([n]))
    ensures var s := Apply(OneNode(n, mark, ip), Resync([n])); s.ipMap == map[ip := if mark == Some(ip) then 1 else 0]
  {
    var s := OneNode(n, mark, ip);
    assert s.hist[0] == map[n := Node(0, mark)];
    FreshStore(s);
    assert (set m | m in [n]) == {n};
    assert Annotations(Store(s), [n]) == [mark];
  }

  /** A publish has read the node, and a request for another volume has started. */
  lemma {:induction false} BothStarted(s: State, n: Name, copy: Node, v1: string, kind: Kind, v2: string)
    requires WellFormed(s) && s.serving && s.rpcs == map[] && s.locks == {} && s.next == 0 && View(s, n) == Some(copy)
    requires n != "" && v1 != "" && v2 != "" && v1 != v2
    ensures var a1, a2, a3 := Begin(Publish, n, v1), Get(0), Begin(kind, n, v2);
            && Enabled(s, a1) && Enabled(Apply(s, a1), a2) && Enabled(Apply(Apply(s, a1), a2), a3)
            && Apply(Apply(Apply(s, a1), a2), a3) ==
               s.(locks := {Key(n, v1), Key(n, v2)}, next := 2,
                  rpcs := map[0 := Rpc(Publish, n, v1, Fetched(copy)), 1 := Rpc(kind, n, v2, Started)])
  {
    assert Key(n, v1)[|n| + 1..] == v1 && Key(n, v2)[|n| + 1..] == v2;
    var s1 := Apply(s, Begin(Publish, n, v1));
    assert View(s1, n) == View(s, n);
    var s2 := Apply(s1, Get(0));
    assert s2.rpcs == map[0 := Rpc(Publish, n, v1, Fetched(copy))] && s2.locks == {Key(n, v1)} && s2.next == 1;
  }

  /** Such an outdated answer does occur, on every cluster of one annotated node. */
  lemma {:induction false} Overtaken(n: Name, ip: IP, v1: string, v2: string) returns (s: State, run: seq<Action>)
    requires n != "" && v1 != "" && v2 != "" && v1 != v2
    ensures Init(s) && Can(s, run) && OutOfDate(After(s, run), 0, n, ip)
  {
    s := OneNode(n, Some(ip), ip);
    var copy := Node(0, Some(ip));
    OneNodeServes(n, Some(ip), ip);
    var s1 := Apply(s, Resync([n]));
    assert s1.hist == s.hist && View(s1, n) == Some(copy) && Server(s1)[n] == copy;
    var rest := StartBoth(s1, n, copy, v1, Unpublish, v2);
    var mid := After(s1, rest);
    assert View(mid, n) == View(s1, n) && Server(mid) == Server(s1);
    var last := Overtakes(mid, 0, 1);
    Concat(s1, rest, last);
    run := [Resync([n])] + (rest + last);
    Prefix(s, Resync([n]), rest + last);
  }

  lemma {:induction false} StartBoth(s: State, n: Name, copy: Node, v1: string, kind: Kind, v2: string) returns (run: seq<Action>)
    requires WellFormed(s) && s.serving && s.rpcs == map[] && s.locks == {} && s.next == 0 && View(s, n) == Some(copy)
    requires n != "" && v1 != "" && v2 != "" && v1 != v2
    ensures Can(s, run)
    ensures After(s, run) == s.(locks := {Key(n, v1), Key(n, v2)}, next := 2,
                                rpcs := map[0 := Rpc(Publish, n, v1, Fetched(copy)), 1 := Rpc(kind, n, v2, Started)])
  {
    BothStarted(s, n, copy, v1, kind, v2);
    Prefixes(s, Begin(Publish, n, v1), Get(0), Begin(kind, n, v2), []);
    run := [Begin(Publish, n, v1)] + ([Get(0)] + ([Begin(kind, n, v2)] + []));
  }

  // ----- two publishes for one node

  /** Of two publishes for a node that have read the same copy the first to the mutex gets its write
      accepted; the second is refused, and the node is counted once. */
  lemma {:induction false} OnlyOneWrites(s: State, n: Name, ip: IP) returns (run: seq<Action>)
    requires WellFormed(s) && s.mutex == None && s.ipMap == map[ip := 0] && 0 in s.rpcs && 1 in s.rpcs
    requires n in Server(s) && Server(s)[n].ip == None && Server(s)[n].version < |s.hist|
    requires forall id | id in {0, 1} :: s.rpcs[id].kind.Publish? && s.rpcs[id].node == n && s.rpcs[id].pc == Fetched(Server(s)[n])
    ensures Can(s, run) && Raced(After(s, run), n, ip)
  {
    var first := FirstWrites(s, n, ip);
    var mid := After(s, first);
    var second := SecondIsRefused(mid, n, ip, Server(s)[n]);
    Concat(s, first, second);
    run := first + second;
  }

  lemma {:induction false} FirstWrites(s: State, n: Name, ip: IP) returns (run: seq<Action>)
    requires WellFormed(s) && s.mutex == None && s.ipMap == map[ip := 0] && 0 in s.rpcs && n in Server(s) && Server(s)[n].ip == None
    requires s.rpcs[0].kind.Publish? && s.rpcs[0].node == n && s.rpcs[0].pc == Fetched(Server(s)[n])
    ensures Can(s, run)
    ensures var mid := After(s, run);
            && WellFormed(mid) && mid.mutex == None && mid.ipMap == map[ip := 1]
            && mid.rpcs == s.rpcs[0 := s.rpcs[0].(pc := Done(Assigned(ip)))]
            && n in Server(mid) && Server(mid)[n] == Node(|s.hist|, Some(ip))
  {
    assert Least(s.ipMap, ip);
    run := AfterFetch(s, 0, ip, true);
    assert Bump(s.ipMap, Inc(ip)) == map[ip := 1];
  }

  lemma {:induction false} SecondIsRefused(s: State, n: Name, ip: IP, copy: Node) returns (run: seq<Action>)
    requires WellFormed(s) && s.mutex == None && s.ipMap == map[ip := 1] && 0 in s.rpcs && s.rpcs[0].pc == Done(Assigned(ip))
    requires 1 in s.rpcs && s.rpcs[1].kind.Publish? && s.rpcs[1].node == n && s.rpcs[1].pc == Fetched(copy) && copy.ip == None
    requires n in Server(s) && Server(s)[n].ip == Some(ip) && Server(s)[n].version != copy.version
    ensures Can(s, run) && Raced(After(s, run), n, ip)
  {
    assert Least(s.ipMap, ip);
    run := AfterFetch(s, 1, ip, true);
  }

  ghost predicate Raced(s: State, n: Name, ip: IP) {
    && 0 in s.rpcs && s.rpcs[0].pc == Done(Assigned(ip)) && 1 in s.rpcs && s.rpcs[1].pc == Done(Failed)
    && s.hist != [] && n in Server(s) && Server(s)[n].ip == Some(ip) && s.ipMap == map[ip := 1]
  }

  /** Both publishes have read the node. */
  lemma {:induction false} BothFetched(s: State, n: Name, copy: Node, v1: string, v2: string) returns (run: seq<Action>)
    requires WellFormed(s) && s.serving && s.rpcs == map[] && s.locks == {} && s.next == 0 && View(s, n) == Some(copy)
    requires n != "" && v1 != "" && v2 != "" && v1 != v2
    ensures Can(s, run)
    ensures After(s, run) == s.(locks := {Key(n, v1), Key(n, v2)}, next := 2,
                                rpcs := map[0 := Rpc(Publish, n, v1, Fetched(copy)), 1 := Rpc(Publish, n, v2, Fetched(copy))])
  {
    var first := StartBoth(s, n, copy, v1, Publish, v2);
    var mid := After(s, first);
    assert View(mid, n) == View(s, n);
    GetIs(mid, 1);
    Overwrite(map[0 := Rpc(Publish, n, v1, Fetched(copy))], 1, Rpc(Publish, n, v2, Started), Rpc(Publish, n, v2, Fetched(copy)));
    Prefix(mid, Get(1), []);
    Concat(s, first, [Get(1)] + []);
    run := first + ([Get(1)] + []);
  }

  /** Two publishes of different volumes on one node do run side by side: both read the node without an
      annotation, and one of them is refused. */
  lemma {:induction false} PublishesRace(n: Name, ip: IP, v1: string, v2: string) returns (s: State, both: seq<Action>, run: seq<Action>)
    requires n != "" && v1 != "" && v2 != "" && v1 != v2
    ensures Init(s) && Can(s, both)
    ensures var mid := After(s, both);
            && mid.rpcs == map[0 := Rpc(Publish, n, v1, Fetched(Node(0, None))), 1 := Rpc(Publish, n, v2, Fetched(Node(0, None)))]
            && Can(mid, run) && Raced(After(mid, run), n, ip)
  {
    s := OneNode(n, None, ip);
    OneNodeServes(n, None, ip);
    var s1 := Apply(s, Resync([n]));
    assert s1.hist == s.hist && View(s1, n) == Some(Node(0, None)) && Server(s1)[n] == Node(0, None);
    var rest := BothFetched(s1, n, Node(0, None), v1, v2);
    var mid := After(s1, rest);
    assert Server(mid) == Server(s1);
    both := [Resync([n])] + rest;
    Prefix(s, Resync([n]), rest);
    run := OnlyOneWrites(mid, n, ip);
  }

  // ----- what the environment can do

  /** The lister can show a node at any later position, and nothing else changes with that. */
  lemma {:induction false} ListerCatchesUp(s: State, n: Name, at: nat)
    requires WellFormed(s) && Seen(s, n) <= at < |s.hist|
    ensures Enabled(s, Observe(n, at))
    ensures var s' := Apply(s, Observe(n, at));
            && WellFormed(s') && View(s', n) == (if n in s.hist[at] then Some(s.hist[at][n]) else None)
            && (forall m | m != n :: View(s', m) == View(s, m)) && s' == s.(seen := s'.seen)
  {
  }

  /** Once the lister has caught up, a publish on a node that carries a configured IP answers it, and
      changes neither the table nor the nodes. */
  lemma {:induction false} CaughtUpPublish(s: State, n: Name, volume: string) returns (run: seq<Action>)
    requires Reachable(s) && s.serving && s.mutex == None && s.hist != [] && n in Server(s) && Listed(s.ipMap, Server(s)[n])
    requires n != "" && volume != "" && Key(n, volume) !in s.locks
    ensures var a := Observe(n, |s.hist| - 1);
            && Can(s, [a] + ([Begin(Publish, n, volume)] + run))
            && var end := After(s, [a] + ([Begin(Publish, n, volume)] + run));
               && s.next in end.rpcs && end.rpcs[s.next].pc == Done(Assigned(Server(s)[n].ip.value))
               && end.ipMap == s.ipMap && end.hist != [] && Server(end) == Server(s)
  {
    ReachableInv(s);
    var a, b := Observe(n, |s.hist| - 1), Begin(Publish, n, volume);
    ListerCatchesUp(s, n, |s.hist| - 1);
    var s1 := Apply(s, a);
    run := AnsweredInPlace(s1, n, volume);
    Prefix(s, a, [b] + run);
  }

  lemma {:induction false} AnsweredInPlace(s: State, n: Name, volume: string) returns (run: seq<Action>)
    requires WellFormed(s) && s.serving && s.mutex == None && n in Server(s) && Listed(s.ipMap, Server(s)[n])
    requires n != "" && volume != "" && Key(n, volume) !in s.locks && View(s, n) == Some(Server(s)[n])
    ensures var b := Begin(Publish, n, volume);
            && Can(s, [b] + run)
            && var end := After(s, [b] + run);
               && s.next in end.rpcs && end.rpcs[s.next].pc == Done(Assigned(Server(s)[n].ip.value))
               && end.ipMap == s.ipMap && end.hist != [] && Server(end) == Server(s)
  {
    var b := Begin(Publish, n, volume);
    var s1 := Apply(s, b);
    assert View(s1, n) == View(s, n) && Server(s1) == Server(s);
    run := AloneIsARun(s1, s.next, Found(Server(s)[n]), SomeLeast(s.ipMap), true);
    Prefix(s, b, run);
  }

  /** Another client that writes a node gets the write of a request that has already read it refused. */
  lemma {:induction false} TouchRefuses(s: State, id: nat)
    requires Inv(s) && Enabled(s, UpdateOk(id))
    ensures var a := Touch(s.rpcs[id].node);
            && Enabled(s, a) && Enabled(Apply(s, a), UpdateFail(id)) && !Enabled(Apply(s, a), UpdateOk(id))
            && Server(Apply(s, a))[s.rpcs[id].node].ip == Server(s)[s.rpcs[id].node].ip
  {
    assert Stable(s.hist, |s.hist| - 1, s.rpcs[id].node);
  }

  /** The cluster has come to have these names: nodes that stayed are untouched, new ones carry no
      annotation, and nothing else has changed. */
  ghost predicate Became(s: State, end: State, names: set<Name>)
    requires s.hist != []
  {
    && end == s.(hist := end.hist) && WellFormed(end) && Server(end).Keys == names
    && (forall n | n in names && n in Server(s) :: Server(end)[n] == Server(s)[n])
    && (forall n | n in names && n !in Server(s) :: Server(end)[n].ip == None)
  }

  lemma {:induction false} DeleteOne(s: State, n: Name)
    requires WellFormed(s) && n in Server(s)
    ensures Enabled(s, Delete(n)) && Became(s, Apply(s, Delete(n)), Server(s).Keys - {n})
  {
  }

  lemma {:induction false} CreateOne(s: State, n: Name)
    requires WellFormed(s) && n !in Server(s)
    ensures Enabled(s, Create(n)) && Became(s, Apply(s, Create(n)), Server(s).Keys + {n})
  {
  }

  /** Going first and coming afterwards. */
  lemma {:induction false} BecameBoth(s: State, mid: State, end: State, between: set<Name>, names: set<Name>)
    requires s.hist != [] && Became(s, mid, between) && Became(mid, end, names)
    requires (names <= between) || (between == Server(s).Keys * names) || (Server(s).Keys <= between <= names)
    ensures Became(s, end, names)
  {
  }

  lemma {:induction false} NodesGo(s: State, gone: set<Name>) returns (run: seq<Action>)
    requires WellFormed(s) && gone <= Server(s).Keys
    ensures Can(s, run) && Became(s, After(s, run), Server(s).Keys - gone)
    decreases gone
  {
    run := [];
    if gone != {} {
      var n :| n in gone;
      DeleteOne(s, n);
      var s1 := Apply(s, Delete(n));
      var rest := NodesGo(s1, gone - {n});
      Prefix(s, Delete(n), rest);
      assert Server(s1).Keys - (gone - {n}) == Server(s).Keys - gone;
      BecameBoth(s, s1, After(s1, rest), Server(s).Keys - {n}, Server(s).Keys - gone);
      run := [Delete(n)] + rest;
    }
  }

  lemma {:induction false} NodesCome(s: State, added: set<Name>) returns (run: seq<Action>)
    requires WellFormed(s) && added !! Server(s).Keys
    ensures Can(s, run) && Became(s, After(s, run), Server(s).Keys + added)
    decreases added
  {
    run := [];
    if added != {} {
      var n :| n in added;
      CreateOne(s, n);
      var s1 := Apply(s, Create(n));
      var rest := NodesCome(s1, added - {n});
      Prefix(s, Create(n), rest);
      assert Server(s1).Keys + (added - {n}) == Server(s).Keys + added;
      BecameBoth(s, s1, After(s1, rest), Server(s).Keys + {n}, Server(s).Keys + added);
      run := [Create(n)] + rest;
    }
  }

  /** Nodes come and go at any time: whatever else is under way, the cluster can come to have any names. */
  lemma {:induction false} NodesComeAndGo(s: State, names: set<Name>) returns (run: seq<Action>)
    requires WellFormed(s)
    ensures Can(s, run) && Became(s, After(s, run), names)
  {
    var first := NodesGo(s, Server(s).Keys - names);
    var mid := After(s, first);
    assert Server(mid).Keys == Server(s).Keys * names;
    var second := NodesCome(mid, names - Server(s).Keys);
    assert Server(mid).Keys + (names - Server(s).Keys) == names;
    Concat(s, first, second);
    BecameBoth(s, mid, After(mid, second), Server(s).Keys * names, names);
    run := first + second;
  }

  // ----- an IP that is no longer configured

  lemma {:induction false} BootsAgain(s: State, ipList: seq<IP>, order: seq<Name>)
    requires Inv(s) && ipList != [] && Lists(order, Server(s))
    ensures Enabled(s, Restart(ipList)) && Enabled(Apply(s, Restart(ipList)), Resync(order))
    ensures var s2 := Apply(Apply(s, Restart(ipList)), Resync(order));
            && s2.hist == s.hist && s2.base == |s.hist| - 1 && s2.seen == map[] && s2.serving
            && s2.rpcs == map[] && s2.locks == {} && s2.mutex == None
            && s2.ipMap.Keys == set ip | ip in ipList
  {
    FreshStore(Apply(s, Restart(ipList)));
  }

  /** A publish on a fresh process for a node without a configured IP. */
  lemma {:induction false} FirstPublish(s: State, n: Name, volume: string) returns (run: seq<Action>, ip: IP)
    requires s.hist != [] && s.base == |s.hist| - 1 && s.seen == map[] && s.serving && s.locks == {} && s.mutex == None
    requires n in Server(s) && !Listed(s.ipMap, Server(s)[n]) && n != "" && volume != "" && s.ipMap != map[]
    ensures Can(s, run) && ip in s.ipMap
    ensures var end := After(s, run); end.hist != [] && n in Server(end) && Server(end)[n].ip == Some(ip)
  {
    var a := Begin(Publish, n, volume);
    var s1 := Apply(s, a);
    assert View(s1, n) == Some(Server(s)[n]) && Server(s1) == Server(s);
    var rest;
    rest, ip := PlacedAnew(s1, s.next);
    Prefix(s, a, rest);
    run := [a] + rest;
  }

  /** A process started without the IP that a node carries may give the node another one. */
  lemma {:induction false} Reassigned(s: State, ipList: seq<IP>, n: Name, volume: string) returns (run: seq<Action>, ip: IP)
    requires Reachable(s) && ipList != [] && s.hist != [] && n in Server(s) && n != "" && volume != ""
    requires Server(s)[n].ip.Some? && Server(s)[n].ip.value !in ipList
    ensures Can(s, [Restart(ipList)] + run) && ip in ipList
    ensures var end := After(s, [Restart(ipList)] + run); end.hist != [] && n in Server(end) && Server(end)[n].ip == Some(ip)
  {
    ReachableInv(s);
    var order := ListOf(Server(s));
    BootsAgain(s, ipList, order);
    var s1 := Apply(s, Restart(ipList));
    var s2 := Apply(s1, Resync(order));
    assert ipList[0] in s2.ipMap.Keys;
    var rest;
    rest, ip := FirstPublish(s2, n, volume);
    assert ip in s2.ipMap.Keys;
    run := [Resync(order)] + rest;
    Prefix(s1, Resync(order), rest);
    Prefix(s, Restart(ipList), run);
  }

  /** A publish that finds the node without a configured IP gives it one, if nobody interferes. */
  lemma {:induction false} PlacedAnew(s: State, id: nat) returns (run: seq<Action>, ip: IP)
    requires WellFormed(s) && id in s.rpcs && s.rpcs[id].pc == Started && s.rpcs[id].kind.Publish?
    requires s.mutex == None && s.ipMap != map[] && s.rpcs[id].node in Server(s)
    requires View(s, s.rpcs[id].node) == Some(Server(s)[s.rpcs[id].node]) && !Listed(s.ipMap, Server(s)[s.rpcs[id].node])
    ensures Can(s, run) && ip in s.ipMap
    ensures var end, n := After(s, run), s.rpcs[id].node; end.hist != [] && n in Server(end) && Server(end)[n].ip == Some(ip)
  {
    ip := SomeLeast(s.ipMap);
    run := AloneIsARun(s, id, Found(Server(s)[s.rpcs[id].node]), ip, true);
  }

  lemma {:induction false} Prefixes(s: State, a1: Action, a2: Action, a3: Action, run: seq<Action>)
    requires Enabled(s, a1) && Enabled(Apply(s, a1), a2) && Enabled(Apply(Apply(s, a1), a2), a3)
    requires Can(Apply(Apply(Apply(s, a1), a2), a3), run)
    ensures Can(s, [a1] + ([a2] + ([a3] + run)))
    ensures After(s, [a1] + ([a2] + ([a3] + run))) == After(Apply(Apply(Apply(s, a1), a2), a3), run)
  {
    Prefix(Apply(Apply(s, a1), a2), a3, run);
    Prefix(Apply(s, a1), a2, [a3] + run);
    Prefix(s, a1, [a2] + ([a3] + run));
  }

  // ----- no request is ever stuck

  lemma {:induction false} AfterWritten(s: State, id: nat) returns (run: seq<Action>)
    requires WellFormed(s) && id in s.rpcs && s.rpcs[id].pc.Written? && s.mutex == Some(id) && s.rpcs[id].pc.ip in s.ipMap
    ensures Can(s, run) && RpcSteps(run)
    ensures var r := s.rpcs[id];
            Finished(s, id, Effect(AnswerOf(r).outcome, Bump(s.ipMap, ChangeOf(r)), Server(s)), After(s, run))
  {
    Prefix(s, Commit(id), []);
    run := [Commit(id)] + [];
  }

  /** The RPC in the critical section can leave it. */
  lemma {:induction false} FreeTheMutex(s: State, h: nat) returns (run: seq<Action>, e: Effect)
    requires WellFormed(s) && s.mutex == Some(h) && h in s.rpcs && Critical(s.rpcs[h].pc)
    requires Planned(s.ipMap, s.rpcs[h]) && s.ipMap != map[]
    ensures Can(s, run) && RpcSteps(run)
    ensures Finished(s, h, e, After(s, run)) && e.table.Keys == s.ipMap.Keys
  {
    var r := s.rpcs[h];
    match r.pc {
      case Locked(copy) =>
        run := AfterLock(s, h, SomeLeast(s.ipMap), true);
        e := Alone(r.kind, r.node, Found(copy), s.ipMap, Server(s), |s.hist|, SomeLeast(s.ipMap), true);
      case Writing(_, _) =>
        run := AfterWriting(s, h, true);
        e := Wrote(s, r, true);
      case Written(_) =>
        run := AfterWritten(s, h);
        e := Effect(AnswerOf(r).outcome, Bump(s.ipMap, ChangeOf(r)), Server(s));
    }
  }

  /** An RPC outside the critical section can run to its end while the mutex is free. */
  lemma {:induction false} RunToEnd(s: State, id: nat) returns (run: seq<Action>)
    requires WellFormed(s) && id in s.rpcs && s.mutex == None && s.ipMap != map[]
    requires s.rpcs[id].pc.Started? || s.rpcs[id].pc.Fetched? || s.rpcs[id].pc.Done?
    requires s.rpcs[id].pc.Fetched? && s.rpcs[id].kind.Unpublish? ==> s.rpcs[id].pc.copy.ip.Some?
    ensures Can(s, run) && RpcSteps(run) && id !in After(s, run).rpcs
  {
    var first := [];
    match s.rpcs[id].pc {
      case Done(_) =>
      case Started =>
        var view := View(s, s.rpcs[id].node);
        first := AloneIsARun(s, id, if view.Some? then Found(view.value) else NotFound, SomeLeast(s.ipMap), true);
      case Fetched(_) => first := AfterFetch(s, id, SomeLeast(s.ipMap), true);
    }
    var mid := After(s, first);
    Prefix(mid, Return(id), []);
    Concat(s, first, [Return(id)] + []);
    run := first + ([Return(id)] + []);
  }

  /** No deadlock: whatever state the system has reached, every request in flight can be carried to
      its end by steps of the requests in flight alone. */
  lemma {:induction false} EveryRequestCanFinish(s: State, id: nat) returns (run: seq<Action>)
    requires Reachable(s) && id in s.rpcs
    ensures Can(s, run) && RpcSteps(run) && id !in After(s, run).rpcs
  {
    ReachableInv(s);
    assert Planned(s.ipMap, s.rpcs[id]);
    assert s.serving && s.ipList[0] in s.ipMap.Keys;
    if s.mutex == None {
      assert !Critical(s.rpcs[id].pc);
      run := RunToEnd(s, id);
    } else {
      var h := s.mutex.value;
      assert Planned(s.ipMap, s.rpcs[h]) && Critical(s.rpcs[h].pc);
      var first, e := FreeTheMutex(s, h);
      var mid := After(s, first);
      assert id != h ==> !Critical(s.rpcs[id].pc) && mid.rpcs[id] == s.rpcs[id];
      assert s.ipList[0] in mid.ipMap.Keys;
      var second := RunToEnd(mid, id);
      Concat(s, first, second);
      run := first + second;
    }
  }
}
