/** Whether the IP a publish answers is still on the node. */
module Answers {
  import opened Wrappers
  import opened Loads
  import opened Cluster
  import opened Protocol
  import opened Invariant

  predicate Carries(c: Nodes, n: Name, ip: IP) {
    n in c && c[n].ip == Some(ip)
  }

  /** Right after position `t` the node lost its annotation, or went away with it. */
  predicate Lapse(hist: seq<Nodes>, t: nat, n: Name) {
    t + 1 < |hist| && n in hist[t] && hist[t][n].ip.Some? && (n in hist[t + 1] ==> hist[t + 1][n].ip.None?)
  }

  /** Right after position `t` the node got the IP. */
  predicate Gain(hist: seq<Nodes>, t: nat, n: Name, ip: IP) {
    t + 1 < |hist| && !Carries(hist[t], n, ip) && Carries(hist[t + 1], n, ip)
  }

  ghost predicate NoLapse(hist: seq<Nodes>, from: nat, n: Name) {
    forall t: nat | from <= t < |hist| :: !Lapse(hist, t, n)
  }

  // ----- lapses and gains are requests and deletions

  /** An unpublish for the node is accepted, or the annotated node is deleted. */
  ghost predicate Takes(s: State, a: Action, n: Name)
    requires Enabled(s, a)
  {
    || (a == Delete(n) && Server(s)[n].ip.Some?)
    || (a.UpdateOk? && s.rpcs[a.id].kind.Unpublish? && s.rpcs[a.id].node == n)
  }

  /** A publish for the node that chose the IP is accepted. */
  ghost predicate Gives(s: State, a: Action, n: Name, ip: IP)
    requires Enabled(s, a)
  {
    a.UpdateOk? && s.rpcs[a.id].kind.Publish? && s.rpcs[a.id].node == n && s.rpcs[a.id].pc.ip == ip
  }

  /** The annotation lapses exactly when an unpublish for the node is accepted or the annotated node is
      deleted, and the node gets an IP exactly when a publish for it is accepted that chose the IP. */
  lemma {:induction false} WhoDidIt(s: State, a: Action, n: Name, ip: IP)
    requires Inv(s) && Enabled(s, a)
    ensures Lapse(Apply(s, a).hist, |s.hist| - 1, n) <==> Takes(s, a, n)
    ensures Gain(Apply(s, a).hist, |s.hist| - 1, n, ip) <==> Gives(s, a, n, ip)
  {
    if a.UpdateOk? {
      Writer(s, a.id);
    }
  }

  lemma {:induction false} StepExtends(s: State, a: Action)
    requires Enabled(s, a)
    ensures var hist := Apply(s, a).hist; s.hist <= hist && |hist| <= |s.hist| + 1
  {
  }

  lemma {:induction false} RunExtends(s: State, run: seq<Action>)
    requires Can(s, run)
    ensures s.hist <= After(s, run).hist
    decreases |run|
  {
    if run != [] {
      StepExtends(s, run[0]);
      RunExtends(Apply(s, run[0]), run[1..]);
    }
  }

  lemma {:induction false} PrefixOfTail(s: State, run: seq<Action>, k: nat)
    requires Can(s, run) && run != [] && k < |run[1..]| && Can(Apply(s, run[0]), run[1..][..k])
    ensures Can(s, run[..k + 1]) && After(s, run[..k + 1]) == After(Apply(s, run[0]), run[1..][..k])
  {
    assert run[..k + 1][0] == run[0] && run[..k + 1][1..] == run[1..][..k];
  }

  /** Every position of the history was appended by an action of the run. */
  lemma {:induction false} Cause(s: State, run: seq<Action>, t: nat) returns (k: nat)
    requires Inv(s) && Can(s, run) && |s.hist| <= t + 1 < |After(s, run).hist|
    ensures k < |run| && Can(s, run[..k])
    ensures var at := After(s, run[..k]);
            && Inv(at) && Enabled(at, run[k]) && |at.hist| == t + 1 && |Apply(at, run[k]).hist| == t + 2
            && Apply(at, run[k]).hist <= After(s, run).hist
    decreases |run|
  {
    var next := Apply(s, run[0]);
    Preserved(s, run[0]);
    StepExtends(s, run[0]);
    RunExtends(next, run[1..]);
    if |next.hist| == t + 2 {
      k := 0;
    } else {
      k := Cause(next, run[1..], t);
      PrefixOfTail(s, run, k);
      k := k + 1;
    }
  }

  /** Along a run every lapse is an accepted unpublish for the node or a deletion of it, and every gain
      an accepted publish that chose the IP: position `t + 1` was made by action `k` of the run. */
  lemma {:induction false} CausesOfChange(s: State, run: seq<Action>, t: nat, n: Name, ip: IP) returns (k: nat)
    requires Init(s) && Can(s, run) && t + 1 < |After(s, run).hist|
    ensures k < |run| && Can(s, run[..k])
    ensures var at, hist := After(s, run[..k]), After(s, run).hist;
            && Enabled(at, run[k]) && |at.hist| == t + 1 && Apply(at, run[k]).hist == hist[..t + 2]
            && (Lapse(hist, t, n) <==> Takes(at, run[k], n))
            && (Gain(hist, t, n, ip) <==> Gives(at, run[k], n, ip))
  {
    InitHolds(s);
    k := Cause(s, run, t);
    CauseOf(After(s, run[..k]), run[k], After(s, run).hist, t, n, ip);
  }

  lemma {:induction false} CauseOf(at: State, a: Action, hist: seq<Nodes>, t: nat, n: Name, ip: IP)
    requires Inv(at) && Enabled(at, a) && |at.hist| == t + 1 && |Apply(at, a).hist| == t + 2 && Apply(at, a).hist <= hist
    ensures Apply(at, a).hist == hist[..t + 2]
    ensures Lapse(hist, t, n) <==> Takes(at, a, n)
    ensures Gain(hist, t, n, ip) <==> Gives(at, a, n, ip)
  {
    WhoDidIt(at, a, n, ip);
    SamePositions(Apply(at, a).hist, hist, t, n, ip);
  }

  lemma {:induction false} SamePositions(h: seq<Nodes>, hist: seq<Nodes>, t: nat, n: Name, ip: IP)
    requires h <= hist && t + 1 < |h|
    ensures Lapse(h, t, n) <==> Lapse(hist, t, n)
    ensures Gain(h, t, n, ip) <==> Gain(hist, t, n, ip)
  {
  }

  // ----- within the life of a process a configured IP is never replaced by another

  ghost predicate SteadyAt(c: Nodes, d: Nodes, ips: seq<IP>) {
    forall n | n in c && n in d && c[n].ip.Some? && c[n].ip.value in ips :: d[n].ip == c[n].ip || d[n].ip.None?
  }

  ghost predicate Steady(hist: seq<Nodes>, base: nat, ips: seq<IP>) {
    forall t: nat, u {:trigger SteadyAt(hist[t], hist[u], ips)} | base <= t < u == t + 1 < |hist| :: SteadyAt(hist[t], hist[u], ips)
  }

  lemma {:induction false} GrowSteady(hist: seq<Nodes>, base: nat, ips: seq<IP>, c: Nodes)
    requires hist != [] && Steady(hist, base, ips) && SteadyAt(hist[|hist| - 1], c, ips)
    ensures Steady(hist + [c], base, ips)
  {
    var hist' := hist + [c];
    forall t: nat, u | base <= t < u == t + 1 < |hist'| ensures SteadyAt(hist'[t], hist'[u], ips) {
      if u < |hist| { assert SteadyAt(hist[t], hist[u], ips); }
    }
  }

  lemma {:induction false} WriteIsSteady(s: State, id: nat)
    requires Inv(s) && Enabled(s, UpdateOk(id))
    ensures SteadyAt(Server(s), Server(Apply(s, UpdateOk(id))), s.ipList)
  {
    Writer(s, id);
    assert forall ip | ip in s.ipList :: ip in s.ipMap.Keys;
  }

  lemma {:induction false} StepIsSteady(s: State, a: Action)
    requires Inv(s) && Enabled(s, a) && Steady(s.hist, s.base, s.ipList)
    ensures Steady(Apply(s, a).hist, Apply(s, a).base, Apply(s, a).ipList)
  {
    if a.UpdateOk? || a.Touch? || a.Create? || a.Delete? {
      if a.UpdateOk? { WriteIsSteady(s, a.id); }
      GrowSteady(s.hist, s.base, s.ipList, Server(Apply(s, a)));
    } else {
      NoWriteIsSteady(s, a);
    }
  }

  lemma {:induction false} NoWriteIsSteady(s: State, a: Action)
    requires WellFormed(s) && Enabled(s, a) && Steady(s.hist, s.base, s.ipList)
    requires !(a.UpdateOk? || a.Touch? || a.Create? || a.Delete?)
    ensures Steady(Apply(s, a).hist, Apply(s, a).base, Apply(s, a).ipList)
  {
  }

  lemma {:induction false} RunsAreSteady(s: State, run: seq<Action>)
    requires Inv(s) && Can(s, run) && Steady(s.hist, s.base, s.ipList)
    ensures var end := After(s, run); Steady(end.hist, end.base, end.ipList)
    decreases |run|
  {
    if run != [] {
      StepIsSteady(s, run[0]);
      Preserved(s, run[0]);
      RunsAreSteady(Apply(s, run[0]), run[1..]);
    }
  }

  lemma {:induction false} ReachableSteady(s: State)
    requires Reachable(s)
    ensures Inv(s) && Steady(s.hist, s.base, s.ipList)
  {
    var s0, run :| Init(s0) && Can(s0, run) && After(s0, run) == s;
    InitHolds(s0);
    PreservedByRuns(s0, run);
    RunsAreSteady(s0, run);
  }

  // ----- following one node through the history

  /** Without a lapse a configured IP stays. */
  lemma {:induction false} Stays(hist: seq<Nodes>, base: nat, ips: seq<IP>, n: Name, ip: IP, t: nat, end: nat)
    requires Steady(hist, base, ips) && ip in ips && base <= t <= end < |hist|
    requires Carries(hist[t], n, ip) && NoLapse(hist, t, n)
    ensures Carries(hist[end], n, ip)
    decreases end
  {
    if t < end {
      Stays(hist, base, ips, n, ip, t, end - 1);
      assert SteadyAt(hist[end - 1], hist[end], ips);
      assert !Lapse(hist, end - 1, n);
    }
  }

  /** Whoever carries the IP now and did not always got it at some time, and has carried it since. */
  lemma {:induction false} Regained(hist: seq<Nodes>, n: Name, ip: IP, from: nat, end: nat) returns (w: nat)
    requires from < end < |hist| && !Carries(hist[from], n, ip) && Carries(hist[end], n, ip)
    ensures from <= w < end && Gain(hist, w, n, ip) && forall t | w < t < end :: !Lapse(hist, t, n)
    decreases end
  {
    if Carries(hist[end - 1], n, ip) {
      w := Regained(hist, n, ip, from, end - 1);
    } else {
      w := end - 1;
    }
  }

  /** Since position `from` the annotation never lapsed, or the IP was written again after it last did. */
  ghost predicate NeverLost(hist: seq<Nodes>, from: nat, n: Name, ip: IP) {
    NoLapse(hist, from, n) || exists w: nat :: from <= w && Gain(hist, w, n, ip) && NoLapse(hist, w + 1, n)
  }

  lemma {:induction false} CarriesExactlyWhen(hist: seq<Nodes>, base: nat, ips: seq<IP>, n: Name, ip: IP, from: nat)
    requires Steady(hist, base, ips) && ip in ips && from < |hist| && Carries(hist[from], n, ip)
    requires base < |hist| && forall t: nat | from <= t <= base :: Carries(hist[t], n, ip)
    ensures Carries(hist[|hist| - 1], n, ip) <==> NeverLost(hist, from, n, ip)
  {
    var last := |hist| - 1;
    if NoLapse(hist, from, n) {
      var t := if from <= base then base else from;
      Stays(hist, base, ips, n, ip, t, last);
    } else {
      if Carries(hist[last], n, ip) {
        var t: nat :| from <= t < |hist| && Lapse(hist, t, n);
        assert !Carries(hist[t + 1], n, ip);
        var w := Regained(hist, n, ip, t + 1, last);
        assert NoLapse(hist, w + 1, n);
      }
      if w: nat :| from <= w && Gain(hist, w, n, ip) && NoLapse(hist, w + 1, n) {
        assert base <= w;
        Stays(hist, base, ips, n, ip, w + 1, last);
      }
    }
  }

  /** A publish that has read a copy with a configured IP answers that IP. It is still on the node
      exactly when since the version of that copy no unpublish for the node was accepted and the node
      was not deleted, or after the last time that happened a publish wrote the same IP again. */
  lemma {:induction false} AnswerIsAnnotated(s: State, id: nat)
    requires Reachable(s) && id in s.rpcs && s.rpcs[id].kind.Publish? && s.rpcs[id].pc.Locked?
    requires Listed(s.ipMap, s.rpcs[id].pc.copy)
    ensures s.hist != []
    ensures var n, copy := s.rpcs[id].node, s.rpcs[id].pc.copy;
            Carries(Server(s), n, copy.ip.value) <==> NeverLost(s.hist, copy.version, n, copy.ip.value)
    ensures forall pick | Enabled(s, Decide(id, pick)) ::
              Apply(s, Decide(id, pick)).rpcs[id].pc == Done(Assigned(s.rpcs[id].pc.copy.ip.value))
  {
    ReachableSteady(s);
    CopyIsAnnotated(s, id);
    forall pick | Enabled(s, Decide(id, pick)) { AnswersTheCopy(s, id, pick); }
  }

  lemma {:induction false} AnswersTheCopy(s: State, id: nat, pick: IP)
    requires Enabled(s, Decide(id, pick)) && s.rpcs[id].kind.Publish? && Listed(s.ipMap, s.rpcs[id].pc.copy)
    ensures Apply(s, Decide(id, pick)).rpcs[id].pc == Done(Assigned(s.rpcs[id].pc.copy.ip.value))
  {
  }

  lemma {:induction false} CopyIsAnnotated(s: State, id: nat)
    requires Inv(s) && Steady(s.hist, s.base, s.ipList) && id in s.rpcs && HasCopy(s.rpcs[id].pc)
    requires Listed(s.ipMap, s.rpcs[id].pc.copy)
    ensures var n, copy := s.rpcs[id].node, s.rpcs[id].pc.copy;
            Carries(Server(s), n, copy.ip.value) <==> NeverLost(s.hist, copy.version, n, copy.ip.value)
  {
    var n, copy := s.rpcs[id].node, s.rpcs[id].pc.copy;
    CopyIsGenuine(s, id);
    GenuineIsAnnotated(s.hist, s.base, Seen(s, n), s.ipList, n, copy);
  }

  lemma {:induction false} GenuineIsAnnotated(hist: seq<Nodes>, base: nat, at: nat, ips: seq<IP>, n: Name, copy: Node)
    requires History(hist) && Steady(hist, base, ips) && base < |hist| && Genuine(hist, base, at, n, copy)
    requires copy.ip.Some? && copy.ip.value in ips
    ensures Carries(hist[|hist| - 1], n, copy.ip.value) <==> NeverLost(hist, copy.version, n, copy.ip.value)
  {
    CopyUntilBase(hist, base, at, n, copy);
    CarriesExactlyWhen(hist, base, ips, n, copy.ip.value, copy.version);
  }

  lemma {:induction false} CopyIsGenuine(s: State, id: nat)
    requires Inv(s) && id in s.rpcs && HasCopy(s.rpcs[id].pc) && Listed(s.ipMap, s.rpcs[id].pc.copy)
    ensures Genuine(s.hist, s.base, Seen(s, s.rpcs[id].node), s.rpcs[id].node, s.rpcs[id].pc.copy)
    ensures s.rpcs[id].pc.copy.ip.value in s.ipList
  {
    assert s.rpcs[id].pc.copy.ip.value in s.ipMap.Keys;
  }

  lemma {:induction false} CopyUntilBase(hist: seq<Nodes>, base: nat, at: nat, n: Name, copy: Node)
    requires History(hist) && base < |hist| && Genuine(hist, base, at, n, copy)
    ensures forall t: nat | copy.version <= t <= base :: n in hist[t] && hist[t][n] == copy
  {
    if copy.version < base {
      assert Stable(hist, base, n);
    }
  }

  /** In particular it is when the copy is the present version. */
  lemma {:induction false} FreshCopyIsRight(s: State, id: nat)
    requires Reachable(s) && id in s.rpcs && HasCopy(s.rpcs[id].pc)
    requires s.hist != [] && s.rpcs[id].node in Server(s) && Server(s)[s.rpcs[id].node].version == s.rpcs[id].pc.copy.version
    ensures Server(s)[s.rpcs[id].node] == s.rpcs[id].pc.copy
  {
    ReachableInv(s);
    var r := s.rpcs[id];
    CurrentCopy(s.hist, s.base, Seen(s, r.node), r.node, r.pc.copy);
  }
}
