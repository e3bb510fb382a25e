/** The API server's node objects, as far as the controller reads and writes them. */
module Cluster {
  import opened Wrappers
  import opened Loads

  type Name = string

  /** A node object: its resource version and its assigned-IP annotation, if it has one. */
  datatype Node = Node(version: nat, ip: Option<IP>)

  type Nodes = map<Name, Node>

  function Holders(c: Nodes, ip: IP): set<Name> {
    set n | n in c && c[n].ip == Some(ip)
  }

  /** How many node objects carry the IP. */
  function Load(c: Nodes, ip: IP): nat {
    |Holders(c, ip)|
  }

  /** Writing one object moves that one node between the holders, and nobody else. */
  lemma {:induction false} HoldersWrite(c: Nodes, n: Name, o: Node, ip: IP)
    ensures Holders(c[n := o], ip) ==
            if o.ip == Some(ip) then Holders(c, ip) + {n} else Holders(c, ip) - {n}
    ensures Load(c[n := o], ip) ==
            Load(c, ip) + (if o.ip == Some(ip) then 1 else 0)
                        - (if n in c && c[n].ip == Some(ip) then 1 else 0)
  {
  }

  lemma {:induction false} HoldersDelete(c: Nodes, n: Name, ip: IP)
    ensures Holders(c - {n}, ip) == Holders(c, ip) - {n}
    ensures Load(c - {n}, ip) == Load(c, ip) - (if n in c && c[n].ip == Some(ip) then 1 else 0)
  {
  }

  // ----- counting annotations in a list of nodes, in whatever order the lister returns it

  /** What rebuilding the table yields for a list of configured IPs and the annotations of the
      listed nodes: every configured IP, counted as often as it is annotated. */
  function Recount(ipList: seq<IP>, annotations: seq<Option<IP>>): Table {
    map ip | ip in ipList :: multiset(annotations)[Some(ip)]
  }

  function Annotations(c: Nodes, order: seq<Name>): (a: seq<Option<IP>>)
    requires forall n | n in order :: n in c
    ensures |a| == |order| && forall i | 0 <= i < |order| :: a[i] == c[order[i]].ip
  {
    if order == [] then [] else [c[order[0]].ip] + Annotations(c, order[1..])
  }

  predicate NoRepeats<T(==)>(s: seq<T>) {
    forall i, j | 0 <= i < j < |s| :: s[i] != s[j]
  }

  /** `order` lists each node of `c` once. */
  predicate Lists(order: seq<Name>, c: Nodes) {
    NoRepeats(order) && (set n | n in order) == c.Keys
  }

  /** The number of annotations in any listing of the nodes is the number of holders. */
  lemma {:induction false} CountIsLoad(c: Nodes, order: seq<Name>, ip: IP)
    requires Lists(order, c)
    ensures multiset(Annotations(c, order))[Some(ip)] == Load(c, ip)
    decreases |order|
  {
    if order == [] {
      assert Holders(c, ip) == {};
    } else {
      var n := order[0];
      ListsTail(c, order);
      CountIsLoad(c - {n}, order[1..], ip);
      CountTail(c, order, ip);
      HoldersDelete(c, n, ip);
    }
  }

  lemma {:induction false} CountTail(c: Nodes, order: seq<Name>, ip: IP)
    requires Lists(order, c) && order != [] && order[0] in c && Lists(order[1..], c - {order[0]})
    ensures multiset(Annotations(c, order))[Some(ip)] ==
            multiset(Annotations(c - {order[0]}, order[1..]))[Some(ip)] + if c[order[0]].ip == Some(ip) then 1 else 0
  {
    SameAnnotations(c, c - {order[0]}, order[1..]);
    CountFirst(c[order[0]].ip, Annotations(c, order[1..]), Some(ip));
  }

  lemma {:induction false} CountFirst<T>(x: T, rest: seq<T>, y: T)
    ensures multiset([x] + rest)[y] == multiset(rest)[y] + if x == y then 1 else 0
  {
    assert multiset([x] + rest) == multiset{x} + multiset(rest);
  }

  lemma {:induction false} ListsTail(c: Nodes, order: seq<Name>)
    requires Lists(order, c) && order != []
    ensures order[0] in c && Lists(order[1..], c - {order[0]})
  {
  }

  /** Every collection of nodes can be listed. */
  lemma {:induction false} ListOf(c: Nodes) returns (order: seq<Name>)
    ensures Lists(order, c)
    decreases |c|
  {
    if c == map[] {
      order := [];
    } else {
      var n :| n in c;
      var rest := ListOf(c - {n});
      order := [n] + rest;
      assert n !in (set m | m in rest);
      assert (set m | m in order) == {n} + (set m | m in rest);
    }
  }

  lemma SameAnnotations(c: Nodes, d: Nodes, order: seq<Name>)
    requires forall n | n in order :: n in c && n in d && c[n].ip == d[n].ip
    ensures Annotations(c, order) == Annotations(d, order)
  {
  }
}

/** Publish and unpublish requests as they interleave inside one controller process, together with
    the API server, the lagging lister the controller reads from, and process restarts. */
module Protocol {
  import opened Wrappers
  import opened Loads
  import opened Cluster

  datatype Kind = Publish | Unpublish

  /** What an RPC answers: an IP, plain success, or an error. */
  datatype Outcome = Assigned(ip: IP) | Removed | Failed

  /** Where an RPC stands. */
  datatype Pc =
    | Started                    // holds the volume lock, has not read the lister
    | Fetched(copy: Node)        // holds a node copy, waits for the mutex
    | Locked(copy: Node)         // holds the mutex, has not looked at the table
    | Writing(copy: Node, ip: IP) // holds the mutex, is about to write (publish) or erase (unpublish) ip
    | Written(ip: IP)            // holds the mutex, the write took effect, the count is not yet changed
    | Done(outcome: Outcome)     // mutex free again, the volume lock is still held

  datatype Rpc = Rpc(kind: Kind, node: Name, volume: string, pc: Pc)

  /** `hist` holds every state the API server went through; a node's resource version is the position
      at which it was last written. The lister shows each node as it was at some position that only
      moves forward: `seen`, or `base` for nodes it has had no event for since it was filled.
      `counted` has the positions at which it showed them when the table was built. */
  datatype State = State(
    ipList: seq<IP>,
    hist: seq<Nodes>,
    base: nat,
    seen: map<Name, nat>,
    serving: bool,
    ipMap: Table,
    counted: map<Name, nat>,
    mutex: Option<nat>,
    locks: set<string>,
    rpcs: map<nat, Rpc>,
    next: nat)

  datatype Action =
    // an RPC's own steps
    | Begin(kind: Kind, node: Name, volume: string)
    | Get(id: nat)
    | GetError(id: nat)
    | Lock(id: nat)
    | Decide(id: nat, pick: IP)
    | UpdateOk(id: nat)
    | UpdateFail(id: nat)
    | Commit(id: nat)
    | Return(id: nat)
    // steps of the environment
    | Observe(node: Name, at: nat)
    | Touch(node: Name)
    | Create(node: Name)
    | Delete(node: Name)
    // the controller process ends and another one starts, fills its lister, and rebuilds its table
    | Restart(ipList: seq<IP>)
    | Resync(order: seq<Name>)

  /** The key both RPCs lock. */
  function Key(node: Name, volume: string): string {
    node + "/" + volume
  }

  function KeyOf(r: Rpc): string {
    Key(r.node, r.volume)
  }

  ghost predicate WellFormed(s: State) {
    && s.hist != []
    && s.base < |s.hist|
    && forall n | n in s.seen :: s.base <= s.seen[n] < |s.hist|
  }

  function Server(s: State): Nodes
    requires s.hist != []
  {
    s.hist[|s.hist| - 1]
  }

  function Position(base: nat, seen: map<Name, nat>, n: Name): nat {
    if n in seen then seen[n] else base
  }

  function Seen(s: State, n: Name): nat {
    Position(s.base, s.seen, n)
  }

  /** The lister's copy of a node. */
  function View(s: State, n: Name): Option<Node>
    requires WellFormed(s)
  {
    var c := s.hist[Seen(s, n)];
    if n in c then Some(c[n]) else None
  }

  /** The lister's whole store. */
  ghost function Store(s: State): Nodes
    requires WellFormed(s)
  {
    map n | n in Names(s.hist) && View(s, n).Some? :: View(s, n).value
  }

  /** Every node name the API server ever had. */
  function Names(hist: seq<Nodes>): (ns: set<Name>)
    ensures forall t, n | 0 <= t < |hist| && n in hist[t] :: n in ns
  {
    if hist == [] then {} else
      var last := |hist| - 1;
      assert forall t | 0 <= t < last :: hist[..last][t] == hist[t];
      Names(hist[..last]) + hist[last].Keys
  }

  function SetPc(s: State, id: nat, pc: Pc): State
    requires id in s.rpcs
  {
    s.(rpcs := s.rpcs[id := s.rpcs[id].(pc := pc)])
  }

  /** The API server accepts a new version of one node. */
  function Put(s: State, n: Name, ip: Option<IP>): State
    requires s.hist != []
  {
    s.(hist := s.hist + [Server(s)[n := Node(|s.hist|, ip)]])
  }

  /** The copy carries a configured IP. */
  predicate Listed(m: Table, copy: Node) {
    copy.ip.Some? && copy.ip.value in m
  }

  /** Reading the lister. A missing node fails a publish and completes an unpublish; so does, for an
      unpublish, a node without the annotation. */
  function Fetch(kind: Kind, view: Option<Node>): Pc {
    match view
    case None => Done(if kind.Publish? then Failed else Removed)
    case Some(copy) => if kind.Unpublish? && copy.ip.None? then Done(Removed) else Fetched(copy)
  }

  /** Consulting the table, with the mutex held. A publish keeps a listed IP the copy already has and
      otherwise goes on to write `pick`; an unpublish goes on to erase a listed IP and otherwise has
      nothing to do. */
  function Choose(kind: Kind, copy: Node, m: Table, pick: IP): Pc {
    match kind
    case Publish => if Listed(m, copy) then Done(Assigned(copy.ip.value)) else Writing(copy, pick)
    case Unpublish => if Listed(m, copy) then Writing(copy, copy.ip.value) else Done(Removed)
  }

  /** What the mutex holder writes into the node object. */
  function Mark(r: Rpc): Option<IP>
    requires r.pc.Writing?
  {
    if r.kind.Publish? then Some(r.pc.ip) else None
  }

  /** The change of the table that a completed write calls for. */
  function ChangeOf(r: Rpc): Change
    requires r.pc.Written?
  {
    if r.kind.Publish? then Inc(r.pc.ip) else Dec(r.pc.ip)
  }

  function AnswerOf(r: Rpc): Pc
    requires r.pc.Written?
  {
    Done(if r.kind.Publish? then Assigned(r.pc.ip) else Removed)
  }

  ghost predicate Enabled(s: State, a: Action) {
    && WellFormed(s)
    && match a
       case Begin(kind, node, volume) => s.serving && node != "" && volume != "" && Key(node, volume) !in s.locks
       case Get(id) => id in s.rpcs && s.rpcs[id].pc == Started
       case GetError(id) => id in s.rpcs && s.rpcs[id].pc == Started
       case Lock(id) => id in s.rpcs && s.rpcs[id].pc.Fetched? && s.mutex == None
       case Decide(id, pick) =>
         && id in s.rpcs && s.rpcs[id].pc.Locked?
         && (s.rpcs[id].kind.Publish? && !Listed(s.ipMap, s.rpcs[id].pc.copy) ==> Least(s.ipMap, pick))
       case UpdateOk(id) =>
         && id in s.rpcs && s.rpcs[id].pc.Writing?
         && var n := s.rpcs[id].node;
            n in Server(s) && Server(s)[n].version == s.rpcs[id].pc.copy.version
       case UpdateFail(id) => id in s.rpcs && s.rpcs[id].pc.Writing?
       case Commit(id) => id in s.rpcs && s.rpcs[id].pc.Written? && s.rpcs[id].pc.ip in s.ipMap
       case Return(id) => id in s.rpcs && s.rpcs[id].pc.Done?
       case Observe(node, at) => Seen(s, node) <= at < |s.hist|
       case Touch(node) => node in Server(s)
       case Create(node) => node !in Server(s)
       case Delete(node) => node in Server(s)
       case Restart(ipList) => ipList != []
       case Resync(order) => !s.serving && Lists(order, Store(s))
  }

  ghost function Apply(s: State, a: Action): State
    requires Enabled(s, a)
  {
    match a
    case Begin(kind, node, volume) =>
      s.(locks := s.locks + {Key(node, volume)},
         rpcs := s.rpcs[s.next := Rpc(kind, node, volume, Started)],
         next := s.next + 1)
    case Get(id) =>
      SetPc(s, id, Fetch(s.rpcs[id].kind, View(s, s.rpcs[id].node)))
    case GetError(id) => SetPc(s, id, Done(Failed))
    case Lock(id) => SetPc(s, id, Locked(s.rpcs[id].pc.copy)).(mutex := Some(id))
    case Decide(id, pick) =>
      var pc := Choose(s.rpcs[id].kind, s.rpcs[id].pc.copy, s.ipMap, pick);
      SetPc(s, id, pc).(mutex := if pc.Done? then None else s.mutex)
    case UpdateOk(id) =>
      SetPc(Put(s, s.rpcs[id].node, Mark(s.rpcs[id])), id, Written(s.rpcs[id].pc.ip))
    case UpdateFail(id) => SetPc(s, id, Done(Failed)).(mutex := None)
    case Commit(id) =>
      SetPc(s, id, AnswerOf(s.rpcs[id])).(mutex := None, ipMap := Bump(s.ipMap, ChangeOf(s.rpcs[id])))
    case Return(id) =>
      s.(locks := s.locks - {KeyOf(s.rpcs[id])}, rpcs := s.rpcs - {id})
    case Observe(node, at) => s.(seen := s.seen[node := at])
    case Touch(node) => Put(s, node, Server(s)[node].ip)
    case Create(node) => Put(s, node, None)
    case Delete(node) => s.(hist := s.hist + [Server(s) - {node}])
    case Restart(ipList) =>
      State(ipList, s.hist, |s.hist| - 1, map[], false, map[], map[], None, {}, map[], s.next)
    case Resync(order) =>
      s.(serving := true, ipMap := Recount(s.ipList, Annotations(Store(s), order)), counted := s.seen)
  }

  // ----- counts that stay behind

  /** The node was deleted right after position `t`, while annotated with the IP. */
  predicate DeletedAt(hist: seq<Nodes>, t: nat, n: Name, ip: IP) {
    t + 1 < |hist| && n in hist[t] && hist[t][n].ip == Some(ip) && n !in hist[t + 1]
  }

  /** The deletions that the table does not know of: those of nodes annotated with the IP, after the
      position at which the node was counted. */
  ghost function Lost(hist: seq<Nodes>, base: nat, counted: map<Name, nat>, ip: IP): set<(Name, nat)> {
    set t, n | 0 <= t < |hist| && n in hist[t] && DeletedAt(hist, t, n, ip) && Position(base, counted, n) <= t :: (n, t)
  }

  ghost function Leaks(hist: seq<Nodes>, base: nat, counted: map<Name, nat>, ips: set<IP>): Table {
    map ip | ip in ips :: |Lost(hist, base, counted, ip)|
  }

  /** For each configured IP, how many nodes were deleted while annotated with it since they were
      counted. */
  ghost function Leaked(s: State): Table {
    Leaks(s.hist, s.base, s.counted, s.ipMap.Keys)
  }

  /** A fresh system: any nodes with any annotations, and a process that has just filled its lister. */
  ghost predicate Init(s: State) {
    && s.ipList != []
    && |s.hist| == 1 && (forall n | n in s.hist[0] :: s.hist[0][n].version == 0)
    && s.base == 0 && s.seen == map[]
    && !s.serving && s.ipMap == map[] && s.counted == map[]
    && s.mutex == None && s.locks == {} && s.rpcs == map[]
  }

  // ----- runs

  ghost predicate Can(s: State, run: seq<Action>)
    decreases |run|
  {
    run == [] || (Enabled(s, run[0]) && Can(Apply(s, run[0]), run[1..]))
  }

  ghost function After(s: State, run: seq<Action>): State
    requires Can(s, run)
    decreases |run|
  {
    if run == [] then s else After(Apply(s, run[0]), run[1..])
  }

  ghost predicate Reachable(s: State) {
    exists s0, run :: Init(s0) && Can(s0, run) && After(s0, run) == s
  }
}
