/** Which volume locks are held, and by whom, in every state of every run. */
module LockDiscipline {
  import opened Cluster
  import opened Protocol
  import opened Invariant

  /** The lock set is the set of keys of the RPCs in flight, and no two of them share a key. */
  ghost predicate LockSet(locks: set<string>, rpcs: Rpcs) {
    && (forall id | id in rpcs :: KeyOf(rpcs[id]) in locks)
    && (forall k | k in locks :: exists id :: id in rpcs && KeyOf(rpcs[id]) == k)
    && (forall i, j | i in rpcs && j in rpcs && i != j :: KeyOf(rpcs[i]) != KeyOf(rpcs[j]))
  }

  lemma {:induction false} MoveLocks(locks: set<string>, next: nat, rpcs: Rpcs, id: nat, pc: Pc)
    requires LockSet(locks, rpcs) && Ids(rpcs, next) && id in rpcs
    ensures LockSet(locks, rpcs[id := rpcs[id].(pc := pc)]) && Ids(rpcs[id := rpcs[id].(pc := pc)], next)
  {
    var rpcs' := rpcs[id := rpcs[id].(pc := pc)];
    forall k | k in locks ensures exists j :: j in rpcs' && KeyOf(rpcs'[j]) == k {
      var j :| j in rpcs && KeyOf(rpcs[j]) == k;
      assert j in rpcs' && KeyOf(rpcs'[j]) == k;
    }
  }

  lemma {:induction false} BeginLocks(locks: set<string>, next: nat, rpcs: Rpcs, r: Rpc)
    requires LockSet(locks, rpcs) && Ids(rpcs, next) && KeyOf(r) !in locks
    ensures LockSet(locks + {KeyOf(r)}, rpcs[next := r]) && Ids(rpcs[next := r], next + 1)
  {
    var rpcs' := rpcs[next := r];
    assert next !in rpcs;
    forall k | k in locks + {KeyOf(r)} ensures exists j :: j in rpcs' && KeyOf(rpcs'[j]) == k {
      if k in locks {
        var j :| j in rpcs && KeyOf(rpcs[j]) == k;
        assert j in rpcs' && KeyOf(rpcs'[j]) == k;
      } else {
        assert next in rpcs' && KeyOf(rpcs'[next]) == k;
      }
    }
  }

  lemma {:induction false} ReturnLocks(locks: set<string>, next: nat, rpcs: Rpcs, id: nat)
    requires LockSet(locks, rpcs) && Ids(rpcs, next) && id in rpcs
    ensures LockSet(locks - {KeyOf(rpcs[id])}, rpcs - {id}) && Ids(rpcs - {id}, next)
  {
    var rpcs' := rpcs - {id};
    forall k | k in locks - {KeyOf(rpcs[id])} ensures exists j :: j in rpcs' && KeyOf(rpcs'[j]) == k {
      var j :| j in rpcs && KeyOf(rpcs[j]) == k;
      assert j in rpcs' && KeyOf(rpcs'[j]) == k;
    }
  }

  /** Every step of an RPC other than its first and last leaves its node, its volume and its locks alone. */
  lemma {:induction false} MiddleSteps(s: State, a: Action)
    requires Enabled(s, a) && Middle(a)
    ensures var s' := Apply(s, a);
            && s'.locks == s.locks && s'.next == s.next
            && a.id in s.rpcs && a.id in s'.rpcs
            && s'.rpcs == s.rpcs[a.id := s.rpcs[a.id].(pc := s'.rpcs[a.id].pc)]
  {
  }

  predicate Middle(a: Action) {
    a.Get? || a.GetError? || a.Lock? || a.Decide? || a.UpdateOk? || a.UpdateFail? || a.Commit?
  }

  lemma {:induction false} KeepsLocks(s: State, a: Action)
    requires Enabled(s, a) && LockSet(s.locks, s.rpcs) && Ids(s.rpcs, s.next)
    ensures LockSet(Apply(s, a).locks, Apply(s, a).rpcs) && Ids(Apply(s, a).rpcs, Apply(s, a).next)
  {
    if Middle(a) {
      MiddleSteps(s, a);
      MoveLocks(s.locks, s.next, s.rpcs, a.id, Apply(s, a).rpcs[a.id].pc);
    } else if a.Begin? {
      BeginLocks(s.locks, s.next, s.rpcs, Rpc(a.kind, a.node, a.volume, Started));
    } else if a.Return? {
      ReturnLocks(s.locks, s.next, s.rpcs, a.id);
    }
  }

  lemma {:induction false} RunsKeepLocks(s: State, run: seq<Action>)
    requires Can(s, run) && LockSet(s.locks, s.rpcs) && Ids(s.rpcs, s.next)
    ensures LockSet(After(s, run).locks, After(s, run).rpcs) && Ids(After(s, run).rpcs, After(s, run).next)
    decreases |run|
  {
    if run != [] {
      KeepsLocks(s, run[0]);
      RunsKeepLocks(Apply(s, run[0]), run[1..]);
    }
  }

  /** In every reachable state the lock set is the set of keys of the RPCs in flight, no two of which
      share a key; so without RPCs in flight nothing is locked. */
  lemma {:induction false} LocksAreInFlight(s: State)
    requires Reachable(s)
    ensures LockSet(s.locks, s.rpcs) && (s.rpcs == map[] <==> s.locks == {})
  {
    var s0, run :| Init(s0) && Can(s0, run) && After(s0, run) == s;
    RunsKeepLocks(s0, run);
    if s.rpcs != map[] {
      var id :| id in s.rpcs;
      assert KeyOf(s.rpcs[id]) in s.locks;
    }
    if s.locks != {} {
      var k :| k in s.locks;
      var id :| id in s.rpcs && KeyOf(s.rpcs[id]) == k;
    }
  }

  /** Which pairs share a key: equal ones, and those where a part of one node's name that follows a
      slash has moved over to the volume. */
  lemma {:induction false} KeyCollisions(n1: Name, v1: string, n2: Name, v2: string)
    ensures Key(n1, v1) == Key(n2, v2) <==>
            || (n1 == n2 && v1 == v2)
            || (exists w :: n2 == n1 + "/" + w && v1 == w + "/" + v2)
            || (exists w :: n1 == n2 + "/" + w && v2 == w + "/" + v1)
  {
    if Key(n1, v1) == Key(n2, v2) {
      if |n1| <= |n2| { Shorter(n1, v1, n2, v2); } else { Shorter(n2, v2, n1, v1); }
    }
    if w :| n2 == n1 + "/" + w && v1 == w + "/" + v2 {
      assert n1 + "/" + (w + "/" + v2) == n1 + "/" + w + "/" + v2;
    }
    if w :| n1 == n2 + "/" + w && v2 == w + "/" + v1 {
      assert n2 + "/" + (w + "/" + v1) == n2 + "/" + w + "/" + v1;
    }
  }

  lemma {:induction false} Shorter(n1: Name, v1: string, n2: Name, v2: string)
    requires Key(n1, v1) == Key(n2, v2) && |n1| <= |n2|
    ensures (n1 == n2 && v1 == v2) || exists w :: n2 == n1 + "/" + w && v1 == w + "/" + v2
  {
    var k1, k2 := Key(n1, v1), Key(n2, v2);
    assert k1[..|n1|] == n1 && k1[|n1| + 1..] == v1 && k1[|n1|] == '/';
    assert k2[..|n2|] == n2 && k2[|n2| + 1..] == v2 && k2[|n2|] == '/';
    if |n1| < |n2| {
      var w := n2[|n1| + 1..];
      assert n2 == n1 + "/" + w by { assert n2[..|n1|] == n1 && n2[|n1|] == '/'; }
      assert v1 == w + "/" + v2 by {
        assert k1[|n1| + 1..] == k2[|n1| + 1..|n2|] + k2[|n2|..];
        assert k2[|n2|..] == "/" + v2;
        assert k2[|n1| + 1..|n2|] == w;
      }
    }
  }

  /** A serving process admits a request, of either kind and whatever else is in flight, exactly when no
      request in flight has its key. */
  lemma {:induction false} AdmittedExactly(s: State, kind: Kind, node: Name, volume: string)
    requires Reachable(s) && s.serving && node != "" && volume != ""
    ensures Enabled(s, Begin(kind, node, volume)) <==> forall id | id in s.rpcs :: KeyOf(s.rpcs[id]) != Key(node, volume)
  {
    ReachableInv(s);
    LocksAreInFlight(s);
    if Key(node, volume) in s.locks {
      var id :| id in s.rpcs && KeyOf(s.rpcs[id]) == Key(node, volume);
    }
  }

  /** Node names have no slash. A request is then refused exactly when a request for the same node
      and the same volume is in flight, never because of any other. */
  lemma {:induction false} RefusedOnlyByItself(s: State, kind: Kind, node: Name, volume: string)
    requires Reachable(s) && s.serving && node != "" && volume != ""
    requires '/' !in node && forall id | id in s.rpcs :: '/' !in s.rpcs[id].node
    ensures !Enabled(s, Begin(kind, node, volume)) <==>
            exists id :: id in s.rpcs && s.rpcs[id].node == node && s.rpcs[id].volume == volume
  {
    AdmittedExactly(s, kind, node, volume);
    forall id | id in s.rpcs ensures KeyOf(s.rpcs[id]) == Key(node, volume) <==> s.rpcs[id].node == node && s.rpcs[id].volume == volume {
      KeyCollisions(s.rpcs[id].node, s.rpcs[id].volume, node, volume);
    }
  }

  /** Whatever way an RPC took to its end, finishing releases its own key and leaves the key of every
      other RPC in flight locked. */
  lemma {:induction false} ReleasesItsOwn(s: State, id: nat)
    requires Reachable(s) && Enabled(s, Return(id))
    ensures Apply(s, Return(id)).locks == s.locks - {KeyOf(s.rpcs[id])}
    ensures forall j | j in s.rpcs && j != id :: KeyOf(s.rpcs[j]) in Apply(s, Return(id)).locks
  {
    LocksAreInFlight(s);
  }
}
