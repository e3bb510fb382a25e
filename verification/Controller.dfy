/** The controller as the driver runs it: objects whose fields the requests update in place. */
module Controller {
  import opened Wrappers
  import opened Loads
  import opened Cluster
  import opened Protocol
  import opened Sequential

  /** The API server's node collection: a write is taken if it is based on the present version. */
  class ApiServer {
    var nodes: Nodes
    var clock: nat

    constructor (nodes: Nodes, clock: nat)
      ensures this.nodes == nodes && this.clock == clock
    {
      this.nodes, this.clock := nodes, clock;
    }

    method Update(n: Name, copy: Node, ip: Option<IP>, reachable: bool) returns (ok: bool)
      modifies this
      ensures ok <==> Accepts(old(nodes), n, copy, reachable)
      ensures nodes == (if ok then old(nodes)[n := Node(old(clock), ip)] else old(nodes))
      ensures clock == old(clock) + if ok then 1 else 0
    {
      ok := reachable && n in nodes && nodes[n].version == copy.version;
      if ok {
        nodes := nodes[n := Node(clock, ip)];
        clock := clock + 1;
      }
    }
  }

  predicate Sorted(ips: seq<IP>, m: Table) {
    && (forall ip | ip in ips :: ip in m)
    && forall i, j | 0 <= i < j < |ips| :: m[ips[i]] <= m[ips[j]]
  }

  /** The IPs in order of their counts: a permutation in which no IP precedes one with a smaller count. */
  function SortByCount(ips: seq<IP>, m: Table): (r: seq<IP>)
    requires forall ip | ip in ips :: ip in m
    ensures multiset(r) == multiset(ips)
    ensures Sorted(r, m)
  {
    if ips == [] then [] else
      var rest := SortByCount(ips[1..], m);
      InsertPermutes(ips[0], rest, m);
      InsertSorts(ips[0], rest, m);
      HeadFirst(ips);
      Insert(ips[0], rest, m)
  }

  lemma {:induction false} HeadFirst(ips: seq<IP>)
    requires ips != []
    ensures multiset(ips) == multiset(ips[1..]) + multiset{ips[0]}
  {
    assert ips == [ips[0]] + ips[1..];
  }

  function Insert(ip: IP, sorted: seq<IP>, m: Table): seq<IP>
    requires ip in m && forall j | j in sorted :: j in m
  {
    if sorted == [] || m[ip] <= m[sorted[0]] then [ip] + sorted
    else [sorted[0]] + Insert(ip, sorted[1..], m)
  }

  lemma {:induction false} InsertPermutes(ip: IP, sorted: seq<IP>, m: Table)
    requires ip in m && forall j | j in sorted :: j in m
    ensures multiset(Insert(ip, sorted, m)) == multiset(sorted) + multiset{ip}
    ensures forall j | j in Insert(ip, sorted, m) :: j == ip || j in sorted
  {
    if sorted != [] {
      InsertPermutes(ip, sorted[1..], m);
      assert sorted == [sorted[0]] + sorted[1..];
    }
  }

  lemma {:induction false} InsertSorts(ip: IP, sorted: seq<IP>, m: Table)
    requires ip in m && Sorted(sorted, m)
    ensures Sorted(Insert(ip, sorted, m), m)
  {
    if sorted != [] && m[sorted[0]] < m[ip] {
      var head, rest := sorted[0], Insert(ip, sorted[1..], m);
      InsertPermutes(ip, sorted[1..], m);
      InsertSorts(ip, sorted[1..], m);
      forall j | j in rest ensures m[head] <= m[j] {
        if j != ip {
          var i :| 0 <= i < |sorted[1..]| && sorted[1..][i] == j;
          assert sorted[i + 1] == j;
        }
      }
      SortedCons(head, rest, m);
    } else {
      forall j | j in sorted ensures m[ip] <= m[j] {
        var i :| 0 <= i < |sorted| && sorted[i] == j;
      }
      SortedCons(ip, sorted, m);
    }
  }

  lemma {:induction false} SortedCons(head: IP, rest: seq<IP>, m: Table)
    requires head in m && Sorted(rest, m) && forall j | j in rest :: m[head] <= m[j]
    ensures Sorted([head] + rest, m)
  {
  }

  lemma {:induction false} HeadIsLeast(ips: seq<IP>, sorted: seq<IP>, m: Table)
    requires m != map[] && (forall j | j in m :: j in ips) && multiset(sorted) == multiset(ips) && Sorted(sorted, m)
    ensures sorted != [] && Least(m, sorted[0])
  {
    forall j | j in m ensures sorted != [] && m[sorted[0]] <= m[j] {
      assert j in multiset(sorted);
      var i :| 0 <= i < |sorted| && sorted[i] == j;
    }
    var some :| some in m;
  }

  lemma {:induction false} RecountAnother(ipList: seq<IP>, ip: IP)
    ensures Recount(ipList + [ip], []) == Recount(ipList, [])[ip := 0]
  {
  }

  lemma {:induction false} RecountNext(ipList: seq<IP>, annotations: seq<Option<IP>>, next: Option<IP>)
    ensures var table := Recount(ipList, annotations);
            Recount(ipList, annotations + [next]) ==
            if next.Some? && next.value in table then table[next.value := table[next.value] + 1] else table
  {
    assert multiset(annotations + [next]) == multiset(annotations) + multiset{next};
  }

  class LBController {
    var ipMap: Table

    /** Starting up: the table is rebuilt from the listed nodes. */
    constructor (ipList: seq<IP>, clusterNodes: seq<Option<IP>>)
      ensures ipMap == Recount(ipList, clusterNodes)
    {
      var table := ResyncIPMap(ipList, clusterNodes);
      ipMap := table;
    }

    /** Counting the annotations of the listed nodes over the configured IPs, in two passes. */
    static method ResyncIPMap(ipList: seq<IP>, clusterNodes: seq<Option<IP>>) returns (table: Table)
      ensures table == Recount(ipList, clusterNodes)
    {
      table := map[];
      for i := 0 to |ipList|
        invariant table == Recount(ipList[..i], [])
      {
        RecountAnother(ipList[..i], ipList[i]);
        assert ipList[..i + 1] == ipList[..i] + [ipList[i]];
        table := table[ipList[i] := 0];
      }
      assert ipList[..|ipList|] == ipList;
      for i := 0 to |clusterNodes|
        invariant table == Recount(ipList, clusterNodes[..i])
      {
        RecountNext(ipList, clusterNodes[..i], clusterNodes[i]);
        assert clusterNodes[..i + 1] == clusterNodes[..i] + [clusterNodes[i]];
        match clusterNodes[i] {
          case None =>
          case Some(ip) =>
            if ip in table {
              table := table[ip := table[ip] + 1];
            }
        }
      }
      assert clusterNodes[..|clusterNodes|] == clusterNodes;
    }

    /** The head of the sorted list of IPs. */
    method SelectIP() returns (ip: IP)
      requires ipMap != map[]
      ensures Least(ipMap, ip)
    {
      var ips: seq<IP> := [];
      var rest := ipMap.Keys;
      while rest != {}
        invariant rest <= ipMap.Keys
        invariant forall j | j in ips :: j in ipMap
        invariant forall j | j in ipMap :: j in rest || j in ips
        decreases rest
      {
        var j :| j in rest;
        ips, rest := ips + [j], rest - {j};
      }
      var sorted := SortByCount(ips, ipMap);
      HeadIsLeast(ips, sorted, ipMap);
      ip := sorted[0];
    }

    /** Giving a node an IP. */
    method AssignIPToNode(api: ApiServer, n: Name, volume: string, look: Lookup, reachable: bool)
      returns (outcome: Outcome, ghost pick: IP)
      requires ipMap != map[]
      modifies this, api
      ensures Least(old(ipMap), pick)
      ensures Effect(outcome, ipMap, api.nodes) ==
              Alone(Publish, n, look, old(ipMap), old(api.nodes), old(api.clock), pick, reachable)
    {
      pick := SomeLeast(ipMap);
      match look {
        case NotFound => return Failed, pick;
        case Unavailable => return Failed, pick;
        case Found(node) =>
          if node.ip.Some? && node.ip.value in ipMap {
            return Assigned(node.ip.value), pick;
          }
          var selected := SelectIP();
          pick := selected;
          var ok := api.Update(n, node, Some(selected), reachable);
          if !ok {
            return Failed, pick;
          }
          ipMap := ipMap[selected := ipMap[selected] + 1];
          return Assigned(selected), pick;
      }
    }

    /** Taking a node's IP away. */
    method RemoveIPFromNode(api: ApiServer, n: Name, volume: string, look: Lookup, reachable: bool) returns (outcome: Outcome)
      modifies this, api
      ensures Effect(outcome, ipMap, api.nodes) ==
              Alone(Unpublish, n, look, old(ipMap), old(api.nodes), old(api.clock), "", reachable)
    {
      match look {
        case NotFound => return Removed;
        case Unavailable => return Failed;
        case Found(node) =>
          if node.ip.None? {
            return Removed;
          }
          var ip := node.ip.value;
          if ip !in ipMap {
            return Removed;
          }
          var ok := api.Update(n, node, None, reachable);
          if !ok {
            return Failed;
          }
          ipMap := ipMap[ip := ipMap[ip] - 1];
          return Removed;
      }
    }
  }

  class VolumeLocks {
    var locks: set<string>

    constructor ()
      ensures locks == {}
    {
      locks := {};
    }

    method TryAcquire(key: string) returns (acquired: bool)
      modifies this
      ensures acquired <==> key !in old(locks)
      ensures locks == old(locks) + {key}
    {
      if key in locks {
        return false;
      }
      locks := locks + {key};
      return true;
    }

    method Release(key: string)
      modifies this
      ensures locks == old(locks) - {key}
    {
      locks := locks - {key};
    }
  }

  datatype Response = PublishContext(ip: IP) | Unpublished | InvalidArgument | Aborted | Internal

  /** The two requests as the server handles them from end to end. */
  class ControllerServer {
    const volumeLocks: VolumeLocks
    const lb: LBController

    constructor (volumeLocks: VolumeLocks, lb: LBController)
      ensures this.volumeLocks == volumeLocks && this.lb == lb
    {
      this.volumeLocks, this.lb := volumeLocks, lb;
    }

    /** No way out of the request leaves the lock set other than it was. */
    method ControllerPublishVolume(api: ApiServer, volume: string, n: Name, hasCapability: bool, look: Lookup, reachable: bool)
      returns (response: Response)
      requires lb.ipMap != map[]
      modifies volumeLocks, lb, api
      ensures volumeLocks.locks == old(volumeLocks.locks)
      ensures response == InvalidArgument <==> volume == "" || n == "" || !hasCapability
      ensures response == Aborted <==> volume != "" && n != "" && hasCapability && Key(n, volume) in old(volumeLocks.locks)
      ensures response in {InvalidArgument, Aborted} ==> lb.ipMap == old(lb.ipMap) && api.nodes == old(api.nodes)
      ensures response !in {InvalidArgument, Aborted} ==>
                exists pick ::
                  && Least(old(lb.ipMap), pick)
                  && var e := Alone(Publish, n, look, old(lb.ipMap), old(api.nodes), old(api.clock), pick, reachable);
                     && lb.ipMap == e.table && api.nodes == e.nodes
                     && response == if e.outcome.Assigned? then PublishContext(e.outcome.ip) else Internal
    {
      if volume == "" || n == "" || !hasCapability {
        return InvalidArgument;
      }
      var key := Key(n, volume);
      var acquired := volumeLocks.TryAcquire(key);
      if !acquired {
        return Aborted;
      }
      var outcome, pick := lb.AssignIPToNode(api, n, volume, look, reachable);
      response := if outcome.Assigned? then PublishContext(outcome.ip) else Internal;
      volumeLocks.Release(key);
    }

    method ControllerUnpublishVolume(api: ApiServer, volume: string, n: Name, look: Lookup, reachable: bool)
      returns (response: Response)
      modifies volumeLocks, lb, api
      ensures volumeLocks.locks == old(volumeLocks.locks)
      ensures response == InvalidArgument <==> volume == "" || n == ""
      ensures response == Aborted <==> volume != "" && n != "" && Key(n, volume) in old(volumeLocks.locks)
      ensures response in {InvalidArgument, Aborted} ==> lb.ipMap == old(lb.ipMap) && api.nodes == old(api.nodes)
      ensures response !in {InvalidArgument, Aborted} ==>
                var e := Alone(Unpublish, n, look, old(lb.ipMap), old(api.nodes), old(api.clock), "", reachable);
                && lb.ipMap == e.table && api.nodes == e.nodes
                && response == if e.outcome.Removed? then Unpublished else Internal
    {
      if volume == "" || n == "" {
        return InvalidArgument;
      }
      var key := Key(n, volume);
      var acquired := volumeLocks.TryAcquire(key);
      if !acquired {
        return Aborted;
      }
      var outcome := lb.RemoveIPFromNode(api, n, volume, look, reachable);
      response := if outcome.Removed? then Unpublished else Internal;
      volumeLocks.Release(key);
    }
  }
}
