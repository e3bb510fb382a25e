/** The arithmetic of least-loaded selection, on the controller's table of counts per server IP.
    A history of the table is a list of changes; it is greedy when every increment falls on an IP
    whose count is the smallest at that moment, as sorting the IPs by count and taking the first does. */
module Loads {

  type IP = string

  type Table = map<IP, int>

  datatype Change = Inc(ip: IP) | Dec(ip: IP)

  predicate Least(m: Table, ip: IP) {
    ip in m && forall j | j in m :: m[ip] <= m[j]
  }

  function Bump(m: Table, c: Change): (r: Table)
    requires c.ip in m
    ensures r.Keys == m.Keys
  {
    m[c.ip := if c.Inc? then m[c.ip] + 1 else m[c.ip] - 1]
  }

  /** Every change is to a listed IP, and every increment to a least-loaded one. */
  predicate Greedy(m: Table, cs: seq<Change>) {
    cs == [] ||
    (&& cs[0].ip in m
     && (cs[0].Inc? ==> Least(m, cs[0].ip))
     && Greedy(Bump(m, cs[0]), cs[1..]))
  }

  function Play(m: Table, cs: seq<Change>): Table
    requires Greedy(m, cs)
    decreases |cs|
  {
    if cs == [] then m else Play(Bump(m, cs[0]), cs[1..])
  }

  function Removals(cs: seq<Change>): nat {
    if cs == [] then 0 else (if cs[0].Dec? then 1 else 0) + Removals(cs[1..])
  }

  predicate OnlyIncrements(cs: seq<Change>) {
    forall i | 0 <= i < |cs| :: cs[i].Inc?
  }

  // ----- sums and extremes of a table

  ghost function Total(m: Table): int {
    if m == map[] then 0 else
      var ip :| ip in m;
      m[ip] + Total(m - {ip})
  }

  predicate IsMax(m: Table, x: int) {
    (exists ip :: ip in m && m[ip] == x) && forall ip | ip in m :: m[ip] <= x
  }

  predicate IsMin(m: Table, x: int) {
    (exists ip :: ip in m && m[ip] == x) && forall ip | ip in m :: x <= m[ip]
  }

  lemma {:induction false} Extremes(m: Table)
    requires m != map[]
    ensures (exists x :: IsMax(m, x)) && exists x :: IsMin(m, x)
    decreases |m|
  {
    var ip :| ip in m;
    var rest := m - {ip};
    assert forall j | j in m :: j == ip || (j in rest && rest[j] == m[j]);
    if rest == map[] {
      assert IsMax(m, m[ip]) && IsMin(m, m[ip]);
    } else {
      Extremes(rest);
      var hi :| IsMax(rest, hi);
      var lo :| IsMin(rest, lo);
      assert IsMax(m, if hi < m[ip] then m[ip] else hi);
      assert IsMin(m, if m[ip] < lo then m[ip] else lo);
    }
  }

  ghost function MaxLoad(m: Table): (x: int)
    requires m != map[]
    ensures IsMax(m, x)
  {
    Extremes(m);
    var x :| IsMax(m, x);
    x
  }

  ghost function MinLoad(m: Table): (x: int)
    requires m != map[]
    ensures IsMin(m, x)
  {
    Extremes(m);
    var x :| IsMin(m, x);
    x
  }

  ghost function SomeLeast(m: Table): (ip: IP)
    requires m != map[]
    ensures Least(m, ip)
  {
    var low := MinLoad(m);
    var ip :| ip in m && m[ip] == low;
    ip
  }

  ghost function Spread(m: Table): int
    requires m != map[]
  {
    MaxLoad(m) - MinLoad(m)
  }

  lemma {:induction false} TotalSplit(m: Table, ip: IP)
    requires ip in m
    ensures Total(m) == m[ip] + Total(m - {ip})
    decreases |m|
  {
    var j :| j in m && Total(m) == m[j] + Total(m - {j});
    if j != ip {
      TotalSplit(m - {j}, ip);
      TotalSplit(m - {ip}, j);
      assert m - {j} - {ip} == m - {ip} - {j};
    }
  }

  lemma {:induction false} TotalBump(m: Table, c: Change)
    requires c.ip in m
    ensures Total(Bump(m, c)) == Total(m) + (if c.Inc? then 1 else -1)
  {
    TotalSplit(m, c.ip);
    TotalSplit(Bump(m, c), c.ip);
    assert m - {c.ip} == Bump(m, c) - {c.ip};
  }

  lemma {:induction false} TotalAtMost(m: Table, hi: int)
    requires forall ip | ip in m :: m[ip] <= hi
    ensures Total(m) <= |m| * hi
    ensures Total(m) == |m| * hi ==> forall ip | ip in m :: m[ip] == hi
    decreases |m|
  {
    if m != map[] {
      var ip :| ip in m && Total(m) == m[ip] + Total(m - {ip});
      var rest := m - {ip};
      assert rest.Keys == m.Keys - {ip};
      TotalAtMost(rest, hi);
      Successor(|rest|, |m|, hi);
      assert forall j | j in m :: j == ip || (j in rest && rest[j] == m[j]);
    }
  }

  lemma {:induction false} TotalAtLeast(m: Table, lo: int)
    requires forall ip | ip in m :: lo <= m[ip]
    ensures |m| * lo <= Total(m)
    ensures Total(m) == |m| * lo ==> forall ip | ip in m :: m[ip] == lo
    decreases |m|
  {
    if m != map[] {
      var ip :| ip in m && Total(m) == m[ip] + Total(m - {ip});
      var rest := m - {ip};
      assert rest.Keys == m.Keys - {ip};
      TotalAtLeast(rest, lo);
      Successor(|rest|, |m|, lo);
      assert forall j | j in m :: j == ip || (j in rest && rest[j] == m[j]);
    }
  }

  lemma Successor(a: int, b: int, x: int)
    requires b == a + 1
    ensures b * x == a * x + x
  {
  }

  // ----- how far apart the loads can drift

  lemma {:induction false} SpreadStep(m: Table, c: Change)
    requires c.ip in m && (c.Inc? ==> Least(m, c.ip))
    ensures Spread(Bump(m, c)) <= if c.Inc? then Max(1, Spread(m)) else Spread(m) + 1
  {
  }

  function Max(a: int, b: int): int {
    if a < b then b else a
  }

  /** Whatever the mix of assignments and removals, only removals can widen the gap between the most
      and the least loaded IP beyond one, and each widens it by at most one. */
  lemma {:induction false} BoundedImbalance(m: Table, cs: seq<Change>)
    requires m != map[] && Greedy(m, cs)
    ensures Play(m, cs) != map[]
    ensures Spread(Play(m, cs)) <= Max(1, Spread(m)) + Removals(cs)
    decreases |cs|
  {
    if cs != [] {
      SpreadStep(m, cs[0]);
      BoundedImbalance(Bump(m, cs[0]), cs[1..]);
    }
  }

  // ----- optimality

  function CeilDiv(a: int, k: int): int
    requires k > 0
  {
    (a + k - 1) / k
  }

  lemma {:induction false} CeilDivIs(a: int, k: int, x: int)
    requires k > 0
    ensures a <= k * x <==> CeilDiv(a, k) <= x
  {
    var q := CeilDiv(a, k);
    Division(a + k - 1, k);
    if q <= x {
      Times(k, q, x);
    } else {
      Times(k, x + 1, q);
    }
  }

  lemma Division(a: int, k: int)
    requires k > 0
    ensures k * (a / k) <= a < k * (a / k) + k
  {
  }

  lemma Times(k: int, x: int, y: int)
    requires k > 0 && x <= y
    ensures k * x <= k * y && k * (x + 1) == k * x + k
  {
  }

  lemma {:induction false} MaxStep(m: Table, ip: IP)
    requires Least(m, ip)
    ensures MaxLoad(Bump(m, Inc(ip))) == Max(MaxLoad(m), CeilDiv(Total(m) + 1, |m|))
  {
    var m' := Bump(m, Inc(ip));
    var k := |m|;
    assert |m'| == k by { assert m'.Keys == m.Keys; }
    TotalBump(m, Inc(ip));
    TotalAtLeast(m', MinLoad(m'));
    TotalAtMost(m', MaxLoad(m'));
    CeilDivIs(Total(m) + 1, k, MaxLoad(m'));
    TotalAtLeast(m, m[ip]);
    TotalAtMost(m, MaxLoad(m));
    CeilDivIs(Total(m) + 1, k, m[ip]);
    assert m[ip] < CeilDiv(Total(m) + 1, k);
    var hi :| hi in m' && m'[hi] == MaxLoad(m');
    var top :| top in m && m[top] == MaxLoad(m);
    assert m'[top] >= MaxLoad(m);
    assert m[hi] <= MaxLoad(m);
  }

  /** After n greedy assignments the largest load is exactly the larger of the starting maximum and
      the average rounded up. */
  lemma {:induction false} GreedyMax(m: Table, cs: seq<Change>)
    requires m != map[] && Greedy(m, cs) && OnlyIncrements(cs)
    ensures Play(m, cs) != map[]
    ensures MaxLoad(Play(m, cs)) == Max(MaxLoad(m), CeilDiv(Total(m) + |cs|, |m|))
    decreases |cs|
  {
    if cs == [] {
      Average(m);
    } else {
      assert cs[0] == Inc(cs[0].ip);
      MaxAfter(m, cs[0].ip, |cs| - 1);
      GreedyMax(Bump(m, cs[0]), cs[1..]);
    }
  }

  /** One assignment more leaves the maximum to be reached as it was. */
  lemma {:induction false} MaxAfter(m: Table, ip: IP, n: nat)
    requires Least(m, ip)
    ensures var m' := Bump(m, Inc(ip));
            m' != map[] && Max(MaxLoad(m'), CeilDiv(Total(m') + n, |m'|)) == Max(MaxLoad(m), CeilDiv(Total(m) + n + 1, |m|))
  {
    var m' := Bump(m, Inc(ip));
    assert |m'| == |m| by { assert m'.Keys == m.Keys; }
    MaxStep(m, ip);
    TotalBump(m, Inc(ip));
    CeilDivMonotone(Total(m) + 1, Total(m) + n + 1, |m|);
  }

  lemma {:induction false} CeilDivMonotone(a: int, b: int, k: int)
    requires k > 0 && a <= b
    ensures CeilDiv(a, k) <= CeilDiv(b, k)
  {
    CeilDivIs(b, k, CeilDiv(b, k));
    CeilDivIs(a, k, CeilDiv(b, k));
  }

  /** Any way at all of placing n more nodes: no load shrinks and the total grows by n. */
  ghost predicate Placement(m: Table, p: Table, n: nat) {
    && p.Keys == m.Keys
    && (forall ip | ip in m :: m[ip] <= p[ip])
    && Total(p) == Total(m) + n
  }

  lemma {:induction false} GreedyIsPlacement(m: Table, cs: seq<Change>)
    requires Greedy(m, cs) && OnlyIncrements(cs)
    ensures Placement(m, Play(m, cs), |cs|)
    decreases |cs|
  {
    if cs != [] {
      TotalBump(m, cs[0]);
      GreedyIsPlacement(Bump(m, cs[0]), cs[1..]);
    }
  }

  /** No placement of the same number of nodes has a smaller maximum than the greedy one. */
  lemma {:induction false} GreedyIsOptimal(m: Table, cs: seq<Change>, p: Table)
    requires m != map[] && Greedy(m, cs) && OnlyIncrements(cs)
    requires Placement(m, p, |cs|)
    ensures Play(m, cs) != map[] && p != map[]
    ensures MaxLoad(Play(m, cs)) <= MaxLoad(p)
  {
    GreedyMax(m, cs);
    assert |p| == |m| by { assert p.Keys == m.Keys; }
    AverageUp(p, |m|, Total(m) + |cs|);
    var top :| top in m && m[top] == MaxLoad(m);
    assert m[top] <= p[top] <= MaxLoad(p);
  }

  /** Of all placements of n more nodes, `r` has the smallest maximum, and that maximum is the starting
      one or the average rounded up, whichever is larger. */
  ghost predicate BestPlacement(m: Table, n: nat, r: Table)
    requires m != map[]
  {
    && Placement(m, r, n) && r != map[]
    && MaxLoad(r) == Max(MaxLoad(m), CeilDiv(Total(m) + n, |m|))
    && forall p | Placement(m, p, n) :: p != map[] && MaxLoad(r) <= MaxLoad(p)
  }

  lemma {:induction false} GreedyIsBest(m: Table, cs: seq<Change>)
    requires m != map[] && Greedy(m, cs) && OnlyIncrements(cs)
    ensures BestPlacement(m, |cs|, Play(m, cs))
  {
    GreedyMax(m, cs);
    GreedyIsPlacement(m, cs);
    forall p | Placement(m, p, |cs|) ensures p != map[] && MaxLoad(Play(m, cs)) <= MaxLoad(p) {
      GreedyIsOptimal(m, cs, p);
    }
  }

  lemma {:induction false} AverageUp(m: Table, k: int, sum: int)
    requires m != map[] && k == |m| && sum == Total(m)
    ensures CeilDiv(sum, k) <= MaxLoad(m)
  {
    Average(m);
  }

  /** The average lies between the extremes, and reaches one only when they coincide. */
  lemma {:induction false} Average(m: Table)
    requires m != map[]
    ensures MinLoad(m) <= Total(m) / |m| && CeilDiv(Total(m), |m|) <= MaxLoad(m)
    ensures MaxLoad(m) <= Total(m) / |m| ==> MinLoad(m) == MaxLoad(m)
    ensures CeilDiv(Total(m), |m|) <= MinLoad(m) ==> MinLoad(m) == MaxLoad(m)
  {
    var k, lo, hi, sum := |m|, MinLoad(m), MaxLoad(m), Total(m);
    var a :| a in m && m[a] == lo;
    var b :| b in m && m[b] == hi;
    TotalAtLeast(m, lo);
    TotalAtMost(m, hi);
    FloorDivIs(sum, k, lo);
    FloorDivIs(sum, k, hi);
    CeilDivIs(sum, k, hi);
    CeilDivIs(sum, k, lo);
  }

  // ----- even split

  /** A table whose loads are at most one apart has every load at the average rounded down or up. */
  lemma {:induction false} Flat(m: Table, ip: IP)
    requires ip in m && Spread(m) <= 1
    ensures m[ip] == Total(m) / |m| || m[ip] == CeilDiv(Total(m), |m|)
  {
    Average(m);
    assert MinLoad(m) <= m[ip] <= MaxLoad(m);
    FloorBelowCeil(Total(m), |m|);
  }

  lemma {:induction false} FloorBelowCeil(a: int, k: int)
    requires k > 0
    ensures a / k <= CeilDiv(a, k)
  {
  }

  lemma {:induction false} FloorDivIs(a: int, k: int, x: int)
    requires k > 0
    ensures k * x <= a <==> x <= a / k
  {
    var q := a / k;
    Division(a, k);
    if x <= q {
      Times(k, x, q);
    } else {
      Times(k, q + 1, x);
      Times(k, q, q);
    }
  }

  lemma NoRemovals(cs: seq<Change>)
    requires OnlyIncrements(cs)
    ensures Removals(cs) == 0
  {
  }

  predicate AllEqual(m: Table, c: int) {
    forall ip | ip in m :: m[ip] == c
  }

  function Targets(cs: seq<Change>): set<IP> {
    set i | 0 <= i < |cs| :: cs[i].ip
  }

  predicate Distinct(cs: seq<Change>) {
    forall i, j | 0 <= i < j < |cs| :: cs[i].ip != cs[j].ip
  }

  lemma {:induction false} TargetsAppend(cs: seq<Change>, c: Change)
    ensures Targets(cs + [c]) == Targets(cs) + {c.ip}
  {
    assert (cs + [c])[|cs|] == c;
    assert forall i | 0 <= i < |cs| :: (cs + [c])[i] == cs[i];
  }

  lemma {:induction false} TargetsPrepend(c: Change, cs: seq<Change>)
    ensures Targets([c] + cs) == {c.ip} + Targets(cs)
  {
    assert ([c] + cs)[0] == c;
    assert forall i | 0 <= i < |cs| :: ([c] + cs)[i + 1] == cs[i];
  }

  function Raised(m: Table, hit: set<IP>): Table {
    map ip | ip in m :: if ip in hit then m[ip] + 1 else m[ip]
  }

  lemma {:induction false} LeastIsUntouched(m: Table, c: int, hit: set<IP>, ip: IP)
    requires AllEqual(m, c) && |hit| < |m| && Least(Raised(m, hit), ip)
    ensures ip !in hit
  {
    if m.Keys <= hit { SubsetSize(m.Keys, hit); }
    var u :| u in m && u !in hit;
    assert Raised(m, hit)[u] == c;
  }

  lemma RaiseOne(m: Table, hit: set<IP>, ip: IP)
    requires ip in m && ip !in hit
    ensures Bump(Raised(m, hit), Inc(ip)) == Raised(m, hit + {ip})
  {
  }

  /** While some IP is still untouched, the increments fall on different, untouched IPs. */
  lemma {:induction false} FirstRound(m: Table, c: int, hit: set<IP>, cs: seq<Change>)
    requires AllEqual(m, c) && hit <= m.Keys && |hit| + |cs| <= |m|
    requires Greedy(Raised(m, hit), cs) && OnlyIncrements(cs)
    ensures Distinct(cs) && Targets(cs) <= m.Keys - hit
    ensures Play(Raised(m, hit), cs) == Raised(m, hit + Targets(cs))
    decreases |cs|
  {
    if cs == [] {
      assert hit + Targets(cs) == hit;
    } else {
      var ip, rest := cs[0].ip, cs[1..];
      LeastIsUntouched(m, c, hit, ip);
      RaiseOne(m, hit, ip);
      assert cs[0] == Inc(ip);
      assert |hit + {ip}| == |hit| + 1;
      FirstRound(m, c, hit + {ip}, rest);
      assert cs == [Inc(ip)] + rest;
      TargetsPrepend(Inc(ip), rest);
      DistinctPrepend(Inc(ip), rest);
      Regroup(hit, {ip}, Targets(rest));
    }
  }

  lemma Regroup<T>(a: set<T>, b: set<T>, c: set<T>)
    ensures a + b + c == a + (b + c)
  {
  }

  lemma DistinctPrepend(c: Change, cs: seq<Change>)
    requires Distinct(cs) && c.ip !in Targets(cs)
    ensures Distinct([c] + cs)
  {
  }

  lemma {:induction false} SubsetSize<T>(a: set<T>, b: set<T>)
    requires a <= b
    ensures |a| <= |b|
  {
    assert |b - a| + |a| == |b| by { assert (b - a) + a == b; }
  }

  lemma {:induction false} TargetsSize(cs: seq<Change>)
    ensures |Targets(cs)| <= |cs|
    ensures Distinct(cs) ==> |Targets(cs)| == |cs|
  {
    if cs != [] {
      var n := |cs| - 1;
      TargetsSize(cs[..n]);
      TargetsAppend(cs[..n], cs[n]);
      assert cs == cs[..n] + [cs[n]];
      if Distinct(cs) {
        assert forall i | 0 <= i < n :: cs[..n][i] == cs[i];
        assert cs[n].ip !in Targets(cs[..n]);
      }
    }
  }

  /** From equal loads, one assignment per configured IP lands on each IP exactly once. */
  lemma {:induction false} FullRound(m: Table, c: int, cs: seq<Change>)
    requires AllEqual(m, c) && Greedy(m, cs) && OnlyIncrements(cs) && |cs| == |m|
    ensures Distinct(cs) && Targets(cs) == m.Keys
    ensures Play(m, cs).Keys == m.Keys && AllEqual(Play(m, cs), c + 1)
  {
    assert Raised(m, {}) == m;
    FirstRound(m, c, {}, cs);
    assert {} + Targets(cs) == Targets(cs);
    TargetsSize(cs);
    FullSubset(Targets(cs), m.Keys);
  }

  lemma {:induction false} FullSubset<T>(a: set<T>, b: set<T>)
    requires a <= b && |a| == |b|
    ensures a == b
  {
    if x :| x in b && x !in a {
      SubsetSize(a + {x}, b);
    }
  }

  function Lowered(m: Table, hit: set<IP>): Table {
    map ip | ip in m :: if ip in hit then m[ip] - 1 else m[ip]
  }

  lemma LowerOne(m: Table, hit: set<IP>, ip: IP)
    requires ip in m && ip !in hit
    ensures Bump(Lowered(m, hit), Dec(ip)) == Lowered(m, hit + {ip})
  {
  }

  /** Removing one node from each of several IPs, in any order. */
  lemma {:induction false} RemoveRound(m: Table, hit: set<IP>, cs: seq<Change>)
    requires Greedy(Lowered(m, hit), cs) && Removals(cs) == |cs| && Distinct(cs) && Targets(cs) !! hit
    ensures Play(Lowered(m, hit), cs) == Lowered(m, hit + Targets(cs))
    decreases |cs|
  {
    if cs == [] {
      assert hit + Targets(cs) == hit;
    } else {
      var ip, rest := cs[0].ip, cs[1..];
      RemovalsAtMost(rest);
      assert cs[0] == Dec(ip);
      assert cs == [Dec(ip)] + rest;
      TargetsPrepend(Dec(ip), rest);
      DistinctTail(Dec(ip), rest);
      LowerOne(m, hit, ip);
      RemoveRound(m, hit + {ip}, rest);
      Regroup(hit, {ip}, Targets(rest));
    }
  }

  lemma {:induction false} DistinctTail(c: Change, cs: seq<Change>)
    requires Distinct([c] + cs)
    ensures Distinct(cs) && c.ip !in Targets(cs)
  {
    var all := [c] + cs;
    assert forall i | 0 <= i < |cs| :: all[i + 1] == cs[i];
    assert all[0] == c;
  }

  lemma RemovalsAtMost(cs: seq<Change>)
    ensures Removals(cs) <= |cs|
  {
  }

  /** A batch of one assignment per IP followed by the removal of that batch changes nothing. */
  lemma {:induction false} BatchUndone(m: Table, c: int, up: seq<Change>, down: seq<Change>)
    requires AllEqual(m, c) && Greedy(m, up) && OnlyIncrements(up) && |up| == |m|
    requires Greedy(Play(m, up), down) && Removals(down) == |down| && Distinct(down)
    requires Targets(down) == Targets(up)
    ensures Play(Play(m, up), down) == m
  {
    FullRound(m, c, up);
    var mid := Play(m, up);
    LowerRound(mid, down);
    LowerAll(m, c, mid);
  }

  lemma {:induction false} LowerRound(m: Table, down: seq<Change>)
    requires Greedy(m, down) && Removals(down) == |down| && Distinct(down)
    ensures Play(m, down) == Lowered(m, Targets(down))
  {
    LowerNone(m);
    RemoveRound(m, {}, down);
    assert {} + Targets(down) == Targets(down);
  }

  lemma {:induction false} LowerNone(m: Table)
    ensures Lowered(m, {}) == m
  {
  }

  lemma {:induction false} LowerAll(m: Table, c: int, mid: Table)
    requires AllEqual(m, c) && mid.Keys == m.Keys && AllEqual(mid, c + 1)
    ensures Lowered(mid, m.Keys) == m
  {
    assert forall ip :: ip in mid <==> ip in m;
  }

  // ----- tie-breaking

  function AtLoad(m: Table, x: int): set<IP> {
    set ip | ip in m && m[ip] == x
  }

  /** How many IPs carry exactly the load x. */
  function Census(m: Table, x: int): nat {
    |AtLoad(m, x)|
  }

  ghost predicate SameLoads(m1: Table, m2: Table) {
    forall x :: Census(m1, x) == Census(m2, x)
  }

  lemma {:induction false} CensusBump(m: Table, ip: IP, x: int)
    requires ip in m
    ensures Census(Bump(m, Inc(ip)), x) ==
            Census(m, x) - (if x == m[ip] then 1 else 0) + (if x == m[ip] + 1 then 1 else 0)
  {
    var before, after := AtLoad(m, x), AtLoad(Bump(m, Inc(ip)), x);
    if x == m[ip] {
      assert after == before - {ip};
    } else if x == m[ip] + 1 {
      assert after == before + {ip};
    } else {
      assert after == before;
    }
  }

  lemma {:induction false} LeastOfSame(m1: Table, m2: Table, a: IP, b: IP)
    requires SameLoads(m1, m2) && Least(m1, a) && b in m2
    ensures m1[a] <= m2[b]
  {
    assert b in AtLoad(m2, m2[b]);
    assert Census(m2, m2[b]) == Census(m1, m2[b]);
    var j :| j in AtLoad(m1, m2[b]);
  }

  /** Ties do not matter: two greedy histories of the same length, however each broke its ties,
      leave equally many IPs at every load when they start with equally many at every load. */
  lemma {:induction false} TieBreakingIrrelevant(m1: Table, m2: Table, cs1: seq<Change>, cs2: seq<Change>)
    requires Greedy(m1, cs1) && OnlyIncrements(cs1) && Greedy(m2, cs2) && OnlyIncrements(cs2)
    requires |cs1| == |cs2| && SameLoads(m1, m2)
    ensures SameLoads(Play(m1, cs1), Play(m2, cs2))
    decreases |cs1|
  {
    if cs1 != [] {
      var a, b := cs1[0].ip, cs2[0].ip;
      LeastOfSame(m1, m2, a, b);
      LeastOfSame(m2, m1, b, a);
      assert cs1[0] == Inc(a) && cs2[0] == Inc(b);
      forall x ensures Census(Bump(m1, Inc(a)), x) == Census(Bump(m2, Inc(b)), x) {
        CensusBump(m1, a, x);
        CensusBump(m2, b, x);
      }
      TieBreakingIrrelevant(Bump(m1, Inc(a)), Bump(m2, Inc(b)), cs1[1..], cs2[1..]);
    }
  }

  // ----- recovery

  /** How many nodes must be placed before every IP is within one of the level `top`. */
  ghost function Deficit(m: Table, top: int): nat {
    if m == map[] then 0 else
      var ip :| ip in m;
      Gap(m[ip], top) + Deficit(m - {ip}, top)
  }

  function Gap(x: int, top: int): nat {
    if x < top - 1 then top - 1 - x else 0
  }

  lemma {:induction false} DeficitSplit(m: Table, top: int, ip: IP)
    requires ip in m
    ensures Deficit(m, top) == Gap(m[ip], top) + Deficit(m - {ip}, top)
    decreases |m|
  {
    var j :| j in m && Deficit(m, top) == Gap(m[j], top) + Deficit(m - {j}, top);
    if j != ip {
      DeficitSplit(m - {j}, top, ip);
      DeficitSplit(m - {ip}, top, j);
      assert m - {j} - {ip} == m - {ip} - {j};
    }
  }

  lemma {:induction false} DeficitZero(m: Table, top: int)
    ensures Deficit(m, top) == 0 <==> forall ip | ip in m :: top - 1 <= m[ip]
    decreases |m|
  {
    if m != map[] {
      var j :| j in m && Deficit(m, top) == Gap(m[j], top) + Deficit(m - {j}, top);
      var rest := m - {j};
      DeficitZero(rest, top);
      assert forall ip | ip in m :: ip == j || (ip in rest && rest[ip] == m[ip]);
      assert forall ip | ip in rest :: ip in m && rest[ip] == m[ip];
      if forall ip | ip in m :: top - 1 <= m[ip] {
        assert Gap(m[j], top) == 0;
        assert forall ip | ip in rest :: top - 1 <= rest[ip];
      }
      if Deficit(m, top) == 0 {
        assert Gap(m[j], top) == 0 && Deficit(rest, top) == 0;
        forall ip | ip in m ensures top - 1 <= m[ip] {
          if ip != j { assert rest[ip] == m[ip]; }
        }
      }
    }
  }

  /** Removals can leave the table lopsided; assignments then repair it, and the number needed is
      exactly the deficit below the starting maximum: not one fewer. */
  lemma {:induction false} Recovery(m: Table, cs: seq<Change>)
    requires m != map[] && Greedy(m, cs) && OnlyIncrements(cs)
    ensures Play(m, cs) != map[]
    ensures Spread(Play(m, cs)) <= 1 <==> Deficit(m, MaxLoad(m)) <= |cs|
    decreases |cs|
  {
    var top := MaxLoad(m);
    DeficitZero(m, top);
    if Deficit(m, top) == 0 {
      var lo :| lo in m && m[lo] == MinLoad(m);
      BoundedImbalance(m, cs);
      NoRemovals(cs);
    } else if cs == [] {
      var low :| low in m && m[low] < top - 1;
      assert MinLoad(m) <= m[low];
    } else {
      var ip := cs[0].ip;
      var m' := Bump(m, cs[0]);
      var low :| low in m && m[low] < top - 1;
      assert m[ip] <= m[low];
      DeficitSplit(m, top, ip);
      DeficitSplit(m', top, ip);
      assert m - {ip} == m' - {ip};
      var t :| t in m && m[t] == top;
      assert m'[t] == top;
      assert MaxLoad(m') == top by {
        var h :| h in m' && m'[h] == MaxLoad(m');
        assert m[h] <= top;
      }
      Recovery(m', cs[1..]);
    }
  }
}
