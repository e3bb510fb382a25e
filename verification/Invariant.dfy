/** What every step of the protocol keeps. */
module Invariant {
  import opened Wrappers
  import opened Loads
  import opened Cluster
  import opened Protocol

  // ----- resource versions

  /** The node has had its present content ever since the position its version names. */
  ghost predicate Stable(hist: seq<Nodes>, t: nat, n: Name)
    requires t < |hist| && n in hist[t]
  {
    var v := hist[t][n].version;
    v <= t && forall u | v <= u <= t :: n in hist[u] && hist[u][n] == hist[t][n]
  }

  ghost predicate History(hist: seq<Nodes>) {
    forall t: nat, n {:trigger Stable(hist, t, n)} | t < |hist| && n in hist[t] :: Stable(hist, t, n)
  }

  /** Equal versions of a node are the same object: this is what makes the API server's version check
      a check on the content the controller decided from. */
  lemma {:induction false} SameVersion(hist: seq<Nodes>, t: nat, u: nat, n: Name)
    requires History(hist) && t < |hist| && u < |hist| && n in hist[t] && n in hist[u]
    requires hist[t][n].version == hist[u][n].version
    ensures hist[t][n] == hist[u][n]
  {
    assert Stable(hist, t, n) && Stable(hist, u, n);
  }

  lemma {:induction false} HistoryPut(hist: seq<Nodes>, n: Name, ip: Option<IP>)
    requires hist != [] && History(hist)
    ensures History(hist + [hist[|hist| - 1][n := Node(|hist|, ip)]])
  {
    var last := |hist| - 1;
    var hist' := hist + [hist[last][n := Node(|hist|, ip)]];
    forall t: nat, m | t < |hist'| && m in hist'[t] ensures Stable(hist', t, m) {
      if t < |hist| {
        assert Stable(hist, t, m);
      } else if m != n {
        assert Stable(hist, last, m);
      }
    }
  }

  lemma {:induction false} HistoryErase(hist: seq<Nodes>, n: Name)
    requires hist != [] && History(hist)
    ensures History(hist + [hist[|hist| - 1] - {n}])
  {
    var last := |hist| - 1;
    var hist' := hist + [hist[last] - {n}];
    forall t: nat, m | t < |hist'| && m in hist'[t] ensures Stable(hist', t, m) {
      assert Stable(hist, if t < |hist| then t else last, m);
    }
  }

  // ----- the invariant

  type Rpcs = map<nat, Rpc>

  predicate HasCopy(pc: Pc) {
    pc.Fetched? || pc.Locked? || pc.Writing?
  }

  predicate Critical(pc: Pc) {
    pc.Locked? || pc.Writing? || pc.Written?
  }

  /** A copy in hand is a version of the node that the lister, filled at position `base` and now at
      position `at`, has shown. */
  ghost predicate Genuine(hist: seq<Nodes>, base: nat, at: nat, n: Name, copy: Node) {
    && copy.version <= at
    && copy.version < |hist|
    && n in hist[copy.version]
    && hist[copy.version][n] == copy
    && (copy.version < base < |hist| ==> n in hist[base] && hist[base][n] == copy)
  }

  ghost predicate Copies(hist: seq<Nodes>, base: nat, seen: map<Name, nat>, rpcs: Rpcs) {
    forall id | id in rpcs && HasCopy(rpcs[id].pc) ::
      Genuine(hist, base, Position(base, seen, rpcs[id].node), rpcs[id].node, rpcs[id].pc.copy)
  }

  /** Exactly the RPC in the critical section holds the mutex. */
  ghost predicate Exclusive(mutex: Option<nat>, rpcs: Rpcs) {
    && (mutex.Some? ==> mutex.value in rpcs)
    && forall id | id in rpcs :: Critical(rpcs[id].pc) <==> mutex == Some(id)
  }

  /** An RPC past its decision acts on what the table said, and the table has not moved since. */
  ghost predicate Planned(m: Table, r: Rpc) {
    match r.pc
    case Fetched(copy) => r.kind.Unpublish? ==> copy.ip.Some?
    case Locked(copy) => r.kind.Unpublish? ==> copy.ip.Some?
    case Writing(copy, ip) =>
      if r.kind.Publish? then Least(m, ip) && !Listed(m, copy) else ip in m && copy.ip == Some(ip)
    case Written(ip) => ip in m && (r.kind.Publish? ==> Least(m, ip))
    case Done(Assigned(ip)) => r.kind.Publish? && ip in m
    case Done(Removed) => r.kind.Unpublish?
    case _ => true
  }

  ghost predicate Plans(m: Table, rpcs: Rpcs) {
    forall id | id in rpcs :: Planned(m, rpcs[id])
  }

  /** The increment or decrement that the mutex holder owes the table. */
  function Pending(mutex: Option<nat>, rpcs: Rpcs, ip: IP): int {
    if mutex.Some? && mutex.value in rpcs && rpcs[mutex.value].pc == Written(ip)
    then if rpcs[mutex.value].kind.Publish? then 1 else -1
    else 0
  }

  ghost predicate Counted(c: Nodes, m: Table, leaked: Table, mutex: Option<nat>, rpcs: Rpcs, ip: IP) {
    && ip in m && 0 <= m[ip]
    && ip in leaked && 0 <= leaked[ip]
    && m[ip] + Pending(mutex, rpcs, ip) == Load(c, ip) + leaked[ip]
  }

  ghost predicate Counts(c: Nodes, m: Table, leaked: Table, mutex: Option<nat>, rpcs: Rpcs) {
    && m.Keys == leaked.Keys
    && forall ip {:trigger Counted(c, m, leaked, mutex, rpcs, ip)} | ip in m :: Counted(c, m, leaked, mutex, rpcs, ip)
  }

  ghost predicate Ids(rpcs: Rpcs, next: nat) {
    forall id | id in rpcs :: id < next
  }

  /** Nodes keep their annotations, and new ones have none. */
  ghost predicate Quietly(c: Nodes, d: Nodes) {
    forall n | n in d :: d[n].ip == if n in c then c[n].ip else None
  }

  /** Nobody has written an annotation since position `base`. */
  ghost predicate Quiet(hist: seq<Nodes>, base: nat) {
    forall t: nat, u | base <= t < u == t + 1 < |hist| :: Quietly(hist[t], hist[u])
  }

  /** The table was built from positions in the history. */
  ghost predicate Placed(hist: seq<Nodes>, counted: map<Name, nat>) {
    forall n | n in counted :: counted[n] < |hist|
  }

  /** Before the table is built no RPC runs. */
  ghost predicate Booting(s: State)
    requires s.hist != []
  {
    && s.rpcs == map[] && s.mutex == None && s.locks == {} && s.ipMap == map[] && s.counted == map[]
    && Quiet(s.hist, s.base)
  }

  ghost predicate Inv(s: State) {
    && WellFormed(s)
    && s.ipList != []
    && History(s.hist)
    && Copies(s.hist, s.base, s.seen, s.rpcs)
    && Exclusive(s.mutex, s.rpcs)
    && Plans(s.ipMap, s.rpcs)
    && Placed(s.hist, s.counted)
    && Counts(Server(s), s.ipMap, Leaked(s), s.mutex, s.rpcs)
    && Ids(s.rpcs, s.next)
    && (s.serving ==> s.ipMap.Keys == set ip | ip in s.ipList)
    && (!s.serving ==> Booting(s))
  }

  lemma {:induction false} InitHolds(s: State)
    requires Init(s)
    ensures Inv(s)
  {
    forall t: nat, n | t < |s.hist| && n in s.hist[t] ensures Stable(s.hist, t, n) {
      assert t == 0;
    }
  }

  // ----- one RPC moves to another program point

  function Moved(rpcs: Rpcs, id: nat, pc: Pc): Rpcs
    requires id in rpcs
  {
    rpcs[id := rpcs[id].(pc := pc)]
  }

  /** The mutex stays put, or is taken or given back by this RPC. */
  predicate Handover(before: Option<nat>, id: nat, mx: Option<nat>) {
    mx == before || (before == None && mx == Some(id)) || (before == Some(id) && mx == None)
  }

  lemma {:induction false} MoveExclusive(mutex: Option<nat>, rpcs: Rpcs, id: nat, pc: Pc, mx: Option<nat>)
    requires Exclusive(mutex, rpcs) && id in rpcs
    requires Handover(mutex, id, mx) && (Critical(pc) <==> mx == Some(id))
    ensures Exclusive(mx, Moved(rpcs, id, pc))
  {
  }

  lemma {:induction false} MoveCopies(hist: seq<Nodes>, base: nat, seen: map<Name, nat>, rpcs: Rpcs, id: nat, pc: Pc)
    requires Copies(hist, base, seen, rpcs) && id in rpcs
    requires HasCopy(pc) ==> Genuine(hist, base, Position(base, seen, rpcs[id].node), rpcs[id].node, pc.copy)
    ensures Copies(hist, base, seen, Moved(rpcs, id, pc))
  {
  }

  lemma {:induction false} MovePlans(m: Table, rpcs: Rpcs, id: nat, pc: Pc)
    requires Plans(m, rpcs) && id in rpcs && Planned(m, rpcs[id].(pc := pc))
    ensures Plans(m, Moved(rpcs, id, pc))
  {
  }

  lemma {:induction false} MoveCounts(c: Nodes, m: Table, leaked: Table, mutex: Option<nat>, rpcs: Rpcs, id: nat,
                                      pc: Pc, mx: Option<nat>)
    requires Counts(c, m, leaked, mutex, rpcs) && Exclusive(mutex, rpcs) && id in rpcs
    requires Handover(mutex, id, mx) && !rpcs[id].pc.Written? && !pc.Written?
    ensures Counts(c, m, leaked, mx, Moved(rpcs, id, pc))
  {
    forall ip | ip in m ensures Counted(c, m, leaked, mx, Moved(rpcs, id, pc), ip) {
      assert Counted(c, m, leaked, mutex, rpcs, ip);
    }
  }

  /** A step in which the RPC neither wrote a node nor changes the table. */
  lemma {:induction false} MoveKeeps(s: State, id: nat, pc: Pc, mx: Option<nat>)
    requires Inv(s) && id in s.rpcs
    requires Handover(s.mutex, id, mx) && (Critical(pc) <==> mx == Some(id))
    requires HasCopy(pc) ==> Genuine(s.hist, s.base, Seen(s, s.rpcs[id].node), s.rpcs[id].node, pc.copy)
    requires Planned(s.ipMap, s.rpcs[id].(pc := pc))
    requires !s.rpcs[id].pc.Written? && !pc.Written?
    ensures Inv(SetPc(s, id, pc).(mutex := mx))
  {
    MoveExclusive(s.mutex, s.rpcs, id, pc, mx);
    MoveCopies(s.hist, s.base, s.seen, s.rpcs, id, pc);
    MovePlans(s.ipMap, s.rpcs, id, pc);
    MoveCounts(Server(s), s.ipMap, Leaked(s), s.mutex, s.rpcs, id, pc, mx);
  }

  lemma {:induction false} GetKeeps(s: State, id: nat)
    requires Inv(s) && Enabled(s, Get(id))
    ensures Inv(Apply(s, Get(id)))
  {
    var r := s.rpcs[id];
    assert !Critical(r.pc);
    var view := View(s, r.node);
    if view.Some? {
      assert Stable(s.hist, Seen(s, r.node), r.node);
    }
    MoveKeeps(s, id, Fetch(r.kind, view), s.mutex);
  }

  lemma {:induction false} DecideKeeps(s: State, id: nat, pick: IP)
    requires Inv(s) && Enabled(s, Decide(id, pick))
    ensures Inv(Apply(s, Decide(id, pick)))
  {
    var r := s.rpcs[id];
    assert Critical(r.pc);
    var pc := Choose(r.kind, r.pc.copy, s.ipMap, pick);
    MoveKeeps(s, id, pc, if pc.Done? then None else s.mutex);
  }

  /** The remaining steps that only move the RPC along. */
  lemma {:induction false} PlainKeeps(s: State, a: Action)
    requires Inv(s) && Enabled(s, a) && (a.GetError? || a.Lock? || a.UpdateFail?)
    ensures Inv(Apply(s, a))
  {
    match a {
      case GetError(id) => MoveKeeps(s, id, Done(Failed), s.mutex);
      case Lock(id) => MoveKeeps(s, id, Locked(s.rpcs[id].pc.copy), Some(id));
      case UpdateFail(id) => MoveKeeps(s, id, Done(Failed), None);
    }
  }

  // ----- steps that write a node object

  lemma {:induction false} GrowCopies(hist: seq<Nodes>, base: nat, seen: map<Name, nat>, rpcs: Rpcs, c: Nodes)
    requires Copies(hist, base, seen, rpcs) && base < |hist|
    ensures Copies(hist + [c], base, seen, rpcs)
  {
  }

  lemma {:induction false} GrowQuiet(hist: seq<Nodes>, base: nat, c: Nodes)
    requires hist != [] && Quiet(hist, base) && Quietly(hist[|hist| - 1], c)
    ensures Quiet(hist + [c], base)
  {
  }

  // ----- leaks

  lemma {:induction false} LostPut(hist: seq<Nodes>, base: nat, counted: map<Name, nat>, c: Nodes, ip: IP)
    requires hist != [] && hist[|hist| - 1].Keys <= c.Keys
    ensures Lost(hist + [c], base, counted, ip) == Lost(hist, base, counted, ip)
  {
    forall t: nat, n ensures DeletedAt(hist + [c], t, n, ip) <==> DeletedAt(hist, t, n, ip) {
      if t + 1 == |hist| && n in hist[t] { assert n in c; }
    }
  }

  /** Writing a node object loses nothing. */
  lemma {:induction false} LeaksPut(hist: seq<Nodes>, base: nat, counted: map<Name, nat>, ips: set<IP>, c: Nodes)
    requires hist != [] && hist[|hist| - 1].Keys <= c.Keys
    ensures Leaks(hist + [c], base, counted, ips) == Leaks(hist, base, counted, ips)
  {
    forall ip | ip in ips { LostPut(hist, base, counted, c, ip); }
  }

  lemma {:induction false} ErasedAt(hist: seq<Nodes>, n: Name, ip: IP, t: nat, m: Name)
    requires hist != [] && n in hist[|hist| - 1]
    ensures var last := |hist| - 1;
            DeletedAt(hist + [hist[last] - {n}], t, m, ip) <==>
            DeletedAt(hist, t, m, ip) || (t == last && m == n && hist[last][n].ip == Some(ip))
  {
  }

  lemma {:induction false} LostAfter(hist: seq<Nodes>, base: nat, counted: map<Name, nat>, n: Name, ip: IP, p: (Name, nat))
    requires hist != [] && n in hist[|hist| - 1] && Position(base, counted, n) < |hist|
    ensures var last := |hist| - 1;
            p in Lost(hist + [hist[last] - {n}], base, counted, ip) <==>
            p in Lost(hist, base, counted, ip) || (p == (n, last) && hist[last][n].ip == Some(ip))
  {
    ErasedAt(hist, n, ip, p.1, p.0);
    LostIs(hist, base, counted, ip, p);
    LostIs(hist + [hist[|hist| - 1] - {n}], base, counted, ip, p);
  }

  lemma {:induction false} LostIs(hist: seq<Nodes>, base: nat, counted: map<Name, nat>, ip: IP, p: (Name, nat))
    ensures p in Lost(hist, base, counted, ip) <==> DeletedAt(hist, p.1, p.0, ip) && Position(base, counted, p.0) <= p.1
  {
  }

  lemma {:induction false} LostErase(hist: seq<Nodes>, base: nat, counted: map<Name, nat>, n: Name, ip: IP)
    requires hist != [] && n in hist[|hist| - 1] && Position(base, counted, n) < |hist|
    ensures var last := |hist| - 1;
            |Lost(hist + [hist[last] - {n}], base, counted, ip)| ==
            |Lost(hist, base, counted, ip)| + if hist[last][n].ip == Some(ip) then 1 else 0
  {
    var last := |hist| - 1;
    var before, after := Lost(hist, base, counted, ip), Lost(hist + [hist[last] - {n}], base, counted, ip);
    forall p: (Name, nat) ensures p in after <==> p in before || (p == (n, last) && hist[last][n].ip == Some(ip)) {
      LostAfter(hist, base, counted, n, ip, p);
    }
    assert (n, last) !in before;
    assert after == if hist[last][n].ip == Some(ip) then before + {(n, last)} else before;
  }

  /** Before the table is built a node that carries an annotation has carried it since `base`. */
  lemma {:induction false} CarriedBack(hist: seq<Nodes>, base: nat, n: Name, u: nat, t: nat)
    requires Quiet(hist, base) && base <= u <= t < |hist| && n in hist[t] && hist[t][n].ip.Some?
    ensures n in hist[u] && hist[u][n].ip == hist[t][n].ip
    decreases t
  {
    if u < t {
      assert Quietly(hist[t - 1], hist[t]);
      CarriedBack(hist, base, n, u, t - 1);
    }
  }

  /** An annotation that is gone went with its node. */
  lemma {:induction false} WentWithNode(hist: seq<Nodes>, base: nat, n: Name, ip: IP, u: nat, end: nat) returns (t: nat)
    requires Quiet(hist, base) && base <= u <= end < |hist| && n in hist[u] && hist[u][n].ip == Some(ip)
    requires !(n in hist[end] && hist[end][n].ip == Some(ip))
    ensures u <= t < end && DeletedAt(hist, t, n, ip)
    decreases end
  {
    var before := end - 1;
    assert Quietly(hist[before], hist[end]);
    if n in hist[before] && hist[before][n].ip == Some(ip) {
      t := before;
    } else {
      t := WentWithNode(hist, base, n, ip, u, before);
    }
  }

  lemma {:induction false} LostOnce(hist: seq<Nodes>, base: nat, n: Name, ip: IP, t: nat, u: nat)
    requires Quiet(hist, base) && base <= t && base <= u && DeletedAt(hist, t, n, ip) && DeletedAt(hist, u, n, ip)
    ensures t == u
  {
    if t < u { CarriedBack(hist, base, n, t + 1, u); }
    if u < t { CarriedBack(hist, base, n, u + 1, t); }
  }

  ghost function Firsts<A, B>(pairs: set<(A, B)>): set<A> {
    set p | p in pairs :: p.0
  }

  lemma {:induction false} FirstsSize<A, B>(pairs: set<(A, B)>)
    requires forall p, q | p in pairs && q in pairs && p.0 == q.0 :: p == q
    ensures |Firsts(pairs)| == |pairs|
    decreases |pairs|
  {
    if pairs != {} {
      var p :| p in pairs;
      var rest := pairs - {p};
      FirstsSize(rest);
      assert p.0 !in Firsts(rest);
      assert Firsts(pairs) == Firsts(rest) + {p.0};
    }
  }

  /** The lister shows at least every annotation the API server has. */
  lemma {:induction false} StoreCovers(s: State, ip: IP)
    requires WellFormed(s) && Quiet(s.hist, s.base)
    ensures Holders(Server(s), ip) <= Holders(Store(s), ip)
  {
    forall n | n in Holders(Server(s), ip) ensures n in Holders(Store(s), ip) {
      CarriedBack(s.hist, s.base, n, Seen(s, n), |s.hist| - 1);
      assert n in s.hist[Seen(s, n)];
    }
  }

  lemma {:induction false} LostIsUnseen(s: State, ip: IP, p: (Name, nat))
    requires WellFormed(s) && Quiet(s.hist, s.base) && p in Lost(s.hist, s.base, s.seen, ip)
    ensures p.0 in Holders(Store(s), ip) - Holders(Server(s), ip)
  {
    CarriedBack(s.hist, s.base, p.0, Seen(s, p.0), p.1);
    assert p.0 in s.hist[Seen(s, p.0)];
    if p.0 in Holders(Server(s), ip) {
      CarriedBack(s.hist, s.base, p.0, p.1 + 1, |s.hist| - 1);
    }
  }

  /** What the lister shows too much before the table is built are exactly the nodes whose deletion it
      has not shown yet, each of which was deleted once, after the position it is shown at. */
  lemma {:induction false} UnseenDeletions(s: State, ip: IP)
    requires WellFormed(s) && Quiet(s.hist, s.base)
    ensures var lost := Lost(s.hist, s.base, s.seen, ip);
            && Firsts(lost) == Holders(Store(s), ip) - Holders(Server(s), ip)
            && |lost| == Load(Store(s), ip) - Load(Server(s), ip)
  {
    var lost, gone := Lost(s.hist, s.base, s.seen, ip), Holders(Store(s), ip) - Holders(Server(s), ip);
    forall p | p in lost ensures p.0 in gone { LostIsUnseen(s, ip, p); }
    forall n | n in gone ensures n in Firsts(lost) { UnseenIsLost(s, ip, n); }
    LostApart(s, ip);
    FirstsSize(lost);
    StoreCovers(s, ip);
    SizeOfRest(Holders(Store(s), ip), Holders(Server(s), ip));
  }

  lemma {:induction false} SizeOfRest<T>(a: set<T>, b: set<T>)
    requires b <= a
    ensures |a - b| == |a| - |b|
  {
    assert a == (a - b) + b;
  }

  lemma {:induction false} UnseenIsLost(s: State, ip: IP, n: Name)
    requires WellFormed(s) && Quiet(s.hist, s.base) && n in Holders(Store(s), ip) - Holders(Server(s), ip)
    ensures n in Firsts(Lost(s.hist, s.base, s.seen, ip))
  {
    var t := WentWithNode(s.hist, s.base, n, ip, Seen(s, n), |s.hist| - 1);
    assert (n, t) in Lost(s.hist, s.base, s.seen, ip);
  }

  lemma {:induction false} LostApart(s: State, ip: IP)
    requires WellFormed(s) && Quiet(s.hist, s.base)
    ensures var lost := Lost(s.hist, s.base, s.seen, ip); forall p, q | p in lost && q in lost && p.0 == q.0 :: p == q
  {
    var lost := Lost(s.hist, s.base, s.seen, ip);
    forall p, q | p in lost && q in lost && p.0 == q.0 ensures p == q {
      LostOnce(s.hist, s.base, p.0, ip, p.1, q.1);
    }
  }

  /** Putting the pieces together after the API server moved on to `c`. */
  lemma {:induction false} Grown(s: State, c: Nodes, rpcs: Rpcs)
    requires WellFormed(s) && Placed(s.hist, s.counted) && s.ipList != [] && History(s.hist + [c])
    requires Copies(s.hist + [c], s.base, s.seen, rpcs) && Exclusive(s.mutex, rpcs) && Plans(s.ipMap, rpcs)
    requires Counts(c, s.ipMap, Leaks(s.hist + [c], s.base, s.counted, s.ipMap.Keys), s.mutex, rpcs) && Ids(rpcs, s.next)
    requires s.serving ==> s.ipMap.Keys == set ip | ip in s.ipList
    requires !s.serving ==> Booting(s) && rpcs == map[] && Quiet(s.hist + [c], s.base)
    ensures Inv(s.(hist := s.hist + [c], rpcs := rpcs))
  {
  }

  /** A copy that passes the version check is the present object. */
  lemma {:induction false} CurrentCopy(hist: seq<Nodes>, base: nat, at: nat, n: Name, copy: Node)
    requires hist != [] && History(hist) && Genuine(hist, base, at, n, copy)
    requires n in hist[|hist| - 1] && hist[|hist| - 1][n].version == copy.version
    ensures hist[|hist| - 1][n] == copy
  {
    SameVersion(hist, copy.version, |hist| - 1, n);
  }

  /** The annotation changes and the table is now owed exactly that change. */
  lemma {:induction false} UpdateCounts(c: Nodes, m: Table, leaked: Table, rpcs: Rpcs, id: nat, version: nat)
    requires id in rpcs && rpcs[id].pc.Writing? && Planned(m, rpcs[id])
    requires rpcs[id].node in c && c[rpcs[id].node] == rpcs[id].pc.copy
    requires Counts(c, m, leaked, Some(id), rpcs)
    ensures Counts(c[rpcs[id].node := Node(version, Mark(rpcs[id]))], m, leaked, Some(id),
                   Moved(rpcs, id, Written(rpcs[id].pc.ip)))
  {
    var r := rpcs[id];
    var o := Node(version, Mark(r));
    forall ip | ip in m ensures Counted(c[r.node := o], m, leaked, Some(id), Moved(rpcs, id, Written(r.pc.ip)), ip) {
      assert Counted(c, m, leaked, Some(id), rpcs, ip);
      HoldersWrite(c, r.node, o, ip);
    }
  }

  /** The mutex holder about to write decided from the present object. */
  lemma {:induction false} Writer(s: State, id: nat)
    requires Inv(s) && Enabled(s, UpdateOk(id))
    ensures s.mutex == Some(id) && Planned(s.ipMap, s.rpcs[id]) && s.serving
    ensures Server(s)[s.rpcs[id].node] == s.rpcs[id].pc.copy
  {
    var r := s.rpcs[id];
    assert Critical(r.pc);
    CurrentCopy(s.hist, s.base, Seen(s, r.node), r.node, r.pc.copy);
  }

  lemma {:induction false} UpdateCopies(s: State, id: nat, c: Nodes)
    requires Inv(s) && id in s.rpcs && s.rpcs[id].pc.Writing? && s.mutex == Some(id)
    requires Planned(s.ipMap, s.rpcs[id])
    ensures var rpcs := Moved(s.rpcs, id, Written(s.rpcs[id].pc.ip));
            && Copies(s.hist + [c], s.base, s.seen, rpcs)
            && Exclusive(s.mutex, rpcs)
            && Plans(s.ipMap, rpcs)
            && Ids(rpcs, s.next)
  {
    var pc := Written(s.rpcs[id].pc.ip);
    GrowCopies(s.hist, s.base, s.seen, s.rpcs, c);
    MoveCopies(s.hist + [c], s.base, s.seen, s.rpcs, id, pc);
    MoveExclusive(s.mutex, s.rpcs, id, pc, s.mutex);
    MovePlans(s.ipMap, s.rpcs, id, pc);
  }

  lemma {:induction false} WriteKeeps(s: State, id: nat)
    requires Inv(s) && id in s.rpcs && s.rpcs[id].pc.Writing? && s.mutex == Some(id)
    requires Planned(s.ipMap, s.rpcs[id]) && s.serving
    requires s.rpcs[id].node in Server(s) && Server(s)[s.rpcs[id].node] == s.rpcs[id].pc.copy
    ensures Inv(SetPc(Put(s, s.rpcs[id].node, Mark(s.rpcs[id])), id, Written(s.rpcs[id].pc.ip)))
  {
    var r := s.rpcs[id];
    var c := Server(s)[r.node := Node(|s.hist|, Mark(r))];
    UpdateCounts(Server(s), s.ipMap, Leaked(s), s.rpcs, id, |s.hist|);
    LeaksPut(s.hist, s.base, s.counted, s.ipMap.Keys, c);
    HistoryPut(s.hist, r.node, Mark(r));
    UpdateCopies(s, id, c);
    Grown(s, c, Moved(s.rpcs, id, Written(r.pc.ip)));
  }

  lemma {:induction false} UpdateKeeps(s: State, id: nat)
    requires Inv(s) && Enabled(s, UpdateOk(id))
    ensures Inv(Apply(s, UpdateOk(id)))
  {
    Writer(s, id);
    WriteKeeps(s, id);
  }

  lemma {:induction false} CommitPlans(m: Table, rpcs: Rpcs, id: nat, change: Change, pc: Pc)
    requires Plans(m, rpcs) && Exclusive(Some(id), rpcs) && change.ip in m
    requires id in rpcs && !Critical(pc) && Planned(m, rpcs[id].(pc := pc))
    ensures Plans(Bump(m, change), Moved(rpcs, id, pc))
  {
    var rpcs' := Moved(rpcs, id, pc);
    forall j | j in rpcs' ensures Planned(Bump(m, change), rpcs'[j]) {
      assert Planned(m, rpcs[j]);
      assert j != id ==> !Critical(rpcs[j].pc);
    }
  }

  /** The owed change is paid: what the table says is again what the node objects say. */
  lemma {:induction false} CommitCounts(c: Nodes, m: Table, leaked: Table, rpcs: Rpcs, id: nat, change: Change, pc: Pc)
    requires Counts(c, m, leaked, Some(id), rpcs) && id in rpcs && rpcs[id].pc == Written(change.ip)
    requires change.ip in m && change.Inc? == rpcs[id].kind.Publish?
    ensures Counts(c, Bump(m, change), leaked, None, Moved(rpcs, id, pc))
  {
    var m' := Bump(m, change);
    forall ip | ip in m' ensures Counted(c, m', leaked, None, Moved(rpcs, id, pc), ip) {
      assert Counted(c, m, leaked, Some(id), rpcs, ip);
    }
  }

  lemma {:induction false} CommitRpcs(s: State, id: nat)
    requires Inv(s) && Enabled(s, Commit(id))
    ensures s.mutex == Some(id) && s.serving && Planned(s.ipMap, s.rpcs[id])
    ensures var rpcs := Moved(s.rpcs, id, AnswerOf(s.rpcs[id]));
            && Copies(s.hist, s.base, s.seen, rpcs)
            && Exclusive(None, rpcs)
            && Ids(rpcs, s.next)
  {
    assert Critical(s.rpcs[id].pc);
    var pc := AnswerOf(s.rpcs[id]);
    MoveCopies(s.hist, s.base, s.seen, s.rpcs, id, pc);
    MoveExclusive(s.mutex, s.rpcs, id, pc, None);
  }

  lemma {:induction false} BumpKeys(m: Table, change: Change)
    requires change.ip in m
    ensures Bump(m, change).Keys == m.Keys
  {
  }

  lemma {:induction false} CommitKeeps(s: State, id: nat)
    requires Inv(s) && Enabled(s, Commit(id))
    ensures Inv(Apply(s, Commit(id)))
  {
    var r := s.rpcs[id];
    CommitRpcs(s, id);
    CommitPlans(s.ipMap, s.rpcs, id, ChangeOf(r), AnswerOf(r));
    CommitCounts(Server(s), s.ipMap, Leaked(s), s.rpcs, id, ChangeOf(r), AnswerOf(r));
    BumpKeys(s.ipMap, ChangeOf(r));
    Committed(s, Bump(s.ipMap, ChangeOf(r)), Moved(s.rpcs, id, AnswerOf(r)));
  }

  /** Putting the pieces together after the table changed. */
  lemma {:induction false} Committed(s: State, m: Table, rpcs: Rpcs)
    requires Inv(s) && s.serving && m.Keys == s.ipMap.Keys
    requires Copies(s.hist, s.base, s.seen, rpcs) && Exclusive(None, rpcs) && Plans(m, rpcs) && Ids(rpcs, s.next)
    requires Counts(Server(s), m, Leaked(s), None, rpcs)
    ensures Inv(s.(mutex := None, rpcs := rpcs, ipMap := m))
  {
  }

  // ----- steps that start and finish an RPC

  /** The counts look only at the RPC that holds the mutex. */
  lemma {:induction false} SameHolder(c: Nodes, m: Table, leaked: Table, mutex: Option<nat>, rpcs: Rpcs, rpcs': Rpcs)
    requires Counts(c, m, leaked, mutex, rpcs)
    requires mutex.Some? ==> mutex.value in rpcs && mutex.value in rpcs' && rpcs'[mutex.value] == rpcs[mutex.value]
    ensures Counts(c, m, leaked, mutex, rpcs')
  {
    forall ip | ip in m ensures Counted(c, m, leaked, mutex, rpcs', ip) {
      assert Counted(c, m, leaked, mutex, rpcs, ip);
    }
  }

  lemma {:induction false} BeginKeeps(s: State, kind: Kind, node: Name, volume: string)
    requires Inv(s) && Enabled(s, Begin(kind, node, volume))
    ensures Inv(Apply(s, Begin(kind, node, volume)))
  {
    var r := Rpc(kind, node, volume, Started);
    assert s.next !in s.rpcs;
    SameHolder(Server(s), s.ipMap, Leaked(s), s.mutex, s.rpcs, s.rpcs[s.next := r]);
  }

  lemma {:induction false} ReturnKeeps(s: State, id: nat)
    requires Inv(s) && Enabled(s, Return(id))
    ensures Inv(Apply(s, Return(id)))
  {
    assert !Critical(s.rpcs[id].pc);
    SameHolder(Server(s), s.ipMap, Leaked(s), s.mutex, s.rpcs, s.rpcs - {id});
  }

  // ----- steps of the environment

  lemma {:induction false} ObserveCopies(hist: seq<Nodes>, base: nat, seen: map<Name, nat>, rpcs: Rpcs, n: Name, at: nat)
    requires Copies(hist, base, seen, rpcs) && Position(base, seen, n) <= at
    ensures Copies(hist, base, seen[n := at], rpcs)
  {
    forall id | id in rpcs && HasCopy(rpcs[id].pc)
      ensures Genuine(hist, base, Position(base, seen[n := at], rpcs[id].node), rpcs[id].node, rpcs[id].pc.copy)
    {
    }
  }

  lemma {:induction false} ObserveKeeps(s: State, n: Name, at: nat)
    requires Inv(s) && Enabled(s, Observe(n, at))
    ensures Inv(Apply(s, Observe(n, at)))
  {
    ObserveCopies(s.hist, s.base, s.seen, s.rpcs, n, at);
    var s' := s.(seen := s.seen[n := at]);
    assert WellFormed(s');
    assert Leaked(s') == Leaked(s);
  }

  /** Counts carry over to other node objects and leaks that balance for every listed IP. */
  lemma {:induction false} Rebalance(c: Nodes, leaked: Table, c': Nodes, leaked': Table, m: Table,
                                     mutex: Option<nat>, rpcs: Rpcs)
    requires Counts(c, m, leaked, mutex, rpcs) && leaked'.Keys == leaked.Keys
    requires forall ip | ip in m :: 0 <= leaked'[ip] && Load(c', ip) + leaked'[ip] == Load(c, ip) + leaked[ip]
    ensures Counts(c', m, leaked', mutex, rpcs)
  {
    forall ip | ip in m ensures Counted(c', m, leaked', mutex, rpcs, ip) {
      assert Counted(c, m, leaked, mutex, rpcs, ip);
    }
  }

  /** Another client writes a node without touching its annotation, or creates one without any. */
  lemma {:induction false} PutKeeps(s: State, n: Name, ip: Option<IP>)
    requires Inv(s) && ip == (if n in Server(s) then Server(s)[n].ip else None)
    ensures Inv(Put(s, n, ip))
  {
    var o := Node(|s.hist|, ip);
    var c := Server(s)[n := o];
    HistoryPut(s.hist, n, ip);
    GrowCopies(s.hist, s.base, s.seen, s.rpcs, c);
    LeaksPut(s.hist, s.base, s.counted, s.ipMap.Keys, c);
    forall j | j in s.ipMap ensures 0 <= Leaked(s)[j] && Load(c, j) == Load(Server(s), j) {
      HoldersWrite(Server(s), n, o, j);
    }
    Rebalance(Server(s), Leaked(s), c, Leaked(s), s.ipMap, s.mutex, s.rpcs);
    if !s.serving { GrowQuiet(s.hist, s.base, c); }
    Grown(s, c, s.rpcs);
  }

  /** A deleted node that carried a listed IP goes over from the nodes to the leaks. */
  lemma {:induction false} DeleteCounts(c: Nodes, n: Name, m: Table, leaked: Table, leaked': Table, mutex: Option<nat>, rpcs: Rpcs)
    requires Counts(c, m, leaked, mutex, rpcs) && n in c && leaked'.Keys == leaked.Keys
    requires forall ip | ip in leaked :: leaked'[ip] == leaked[ip] + if c[n].ip == Some(ip) then 1 else 0
    ensures Counts(c - {n}, m, leaked', mutex, rpcs)
  {
    forall j | j in m ensures 0 <= leaked'[j] && Load(c - {n}, j) + leaked'[j] == Load(c, j) + leaked[j] {
      assert Counted(c, m, leaked, mutex, rpcs, j);
      HoldersDelete(c, n, j);
    }
    Rebalance(c, leaked, c - {n}, leaked', m, mutex, rpcs);
  }

  lemma {:induction false} DeleteKeeps(s: State, n: Name)
    requires Inv(s) && Enabled(s, Delete(n))
    ensures Inv(Apply(s, Delete(n)))
  {
    var c := Server(s) - {n};
    HistoryErase(s.hist, n);
    GrowCopies(s.hist, s.base, s.seen, s.rpcs, c);
    forall ip | ip in s.ipMap { LostErase(s.hist, s.base, s.counted, n, ip); }
    DeleteCounts(Server(s), n, s.ipMap, Leaked(s), Leaks(s.hist + [c], s.base, s.counted, s.ipMap.Keys), s.mutex, s.rpcs);
    if !s.serving { GrowQuiet(s.hist, s.base, c); }
    Grown(s, c, s.rpcs);
  }

  lemma {:induction false} RestartKeeps(s: State, ipList: seq<IP>)
    requires Inv(s) && Enabled(s, Restart(ipList))
    ensures Inv(Apply(s, Restart(ipList)))
  {
  }

  lemma {:induction false} ResyncKeeps(s: State, order: seq<Name>)
    requires Inv(s) && Enabled(s, Resync(order))
    ensures Inv(Apply(s, Resync(order)))
  {
    var s' := Apply(s, Resync(order));
    assert s'.ipMap.Keys == set ip | ip in s.ipList;
    forall ip | ip in s.ipList ensures s'.ipMap[ip] == Load(Server(s), ip) + |Lost(s.hist, s.base, s.seen, ip)| {
      CountIsLoad(Store(s), order, ip);
      UnseenDeletions(s, ip);
    }
    FreshCounts(Server(s), s'.ipMap, Leaked(s'));
    Built(s, s'.ipMap);
  }

  /** Putting the pieces together once the table is built. */
  lemma {:induction false} Built(s: State, m: Table)
    requires Inv(s) && !s.serving && m.Keys == set ip | ip in s.ipList
    requires Counts(Server(s), m, Leaks(s.hist, s.base, s.seen, m.Keys), None, map[])
    ensures Inv(s.(serving := true, ipMap := m, counted := s.seen))
  {
  }

  lemma {:induction false} FreshCounts(c: Nodes, m: Table, leaked: Table)
    requires m.Keys == leaked.Keys && forall ip | ip in m :: 0 <= leaked[ip] && m[ip] == Load(c, ip) + leaked[ip]
    ensures Counts(c, m, leaked, None, map[])
  {
  }

  // ----- every step, every run

  lemma {:induction false} Preserved(s: State, a: Action)
    requires Inv(s) && Enabled(s, a)
    ensures Inv(Apply(s, a))
  {
    match a {
      case Begin(kind, node, volume) => BeginKeeps(s, kind, node, volume);
      case Get(id) => GetKeeps(s, id);
      case GetError(id) => PlainKeeps(s, a);
      case Lock(id) => PlainKeeps(s, a);
      case Decide(id, pick) => DecideKeeps(s, id, pick);
      case UpdateOk(id) => UpdateKeeps(s, id);
      case UpdateFail(id) => PlainKeeps(s, a);
      case Commit(id) => CommitKeeps(s, id);
      case Return(id) => ReturnKeeps(s, id);
      case Observe(n, at) => ObserveKeeps(s, n, at);
      case Touch(n) => PutKeeps(s, n, Server(s)[n].ip);
      case Create(n) => PutKeeps(s, n, None);
      case Delete(n) => DeleteKeeps(s, n);
      case Restart(ipList) => RestartKeeps(s, ipList);
      case Resync(order) => ResyncKeeps(s, order);
    }
  }

  lemma {:induction false} PreservedByRuns(s: State, run: seq<Action>)
    requires Inv(s) && Can(s, run)
    ensures Inv(After(s, run))
    decreases |run|
  {
    if run != [] {
      Preserved(s, run[0]);
      PreservedByRuns(Apply(s, run[0]), run[1..]);
    }
  }

  lemma {:induction false} ReachableInv(s: State)
    requires Reachable(s)
    ensures Inv(s)
  {
    var s0, run :| Init(s0) && Can(s0, run) && After(s0, run) == s;
    InitHolds(s0);
    PreservedByRuns(s0, run);
  }
}
