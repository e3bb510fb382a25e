/** Replacing placeholders in a subdirectory template, one placeholder after the other in whatever
    order a map happens to be traversed. */
module Placeholders {

  const PVC_NAME := "${pvc.metadata.name}"
  const PVC_NAMESPACE := "${pvc.metadata.namespace}"
  const PV_NAME := "${pv.metadata.name}"
  const KNOWN := {PVC_NAME, PVC_NAMESPACE, PV_NAME}

  /** Every non-overlapping occurrence of `k`, from the left, becomes `v`. */
  function ReplaceAll(s: string, k: string, v: string): string
    requires k != ""
    decreases |s|
  {
    if s == "" then ""
    else if k <= s then v + ReplaceAll(s[|k|..], k, v)
    else [s[0]] + ReplaceAll(s[1..], k, v)
  }

  /** One placeholder after the other, in the given order; empty ones are skipped. */
  function ReplaceInOrder(s: string, order: seq<string>, m: map<string, string>): string
    requires forall k | k in order :: k in m
    decreases |order|
  {
    if order == [] then s
    else ReplaceInOrder(if order[0] == "" then s else ReplaceAll(s, order[0], m[order[0]]), order[1..], m)
  }

  /** `order` is a way to traverse the map. */
  ghost predicate Traverses(order: seq<string>, m: map<string, string>) {
    && (forall i, j | 0 <= i < j < |order| :: order[i] != order[j])
    && (forall k :: k in order <==> k in m)
  }

  /** The loop over the map. */
  method ReplaceWithMap(s: string, m: map<string, string>) returns (r: string)
    ensures exists order :: Traverses(order, m) && r == ReplaceInOrder(s, order, m)
  {
    r := s;
    ghost var order: seq<string> := [];
    var rest := m.Keys;
    while rest != {}
      invariant rest <= m.Keys
      invariant forall k | k in order :: k in m
      invariant forall k :: k in m <==> k in rest || k in order
      invariant forall k | k in order :: k !in rest
      invariant forall i, j | 0 <= i < j < |order| :: order[i] != order[j]
      invariant r == ReplaceInOrder(s, order, m)
      decreases rest
    {
      var k :| k in rest;
      AppendStep(s, order, k, m);
      if k != "" {
        r := ReplaceAll(r, k, m[k]);
      }
      order, rest := order + [k], rest - {k};
    }
  }

  lemma {:induction false} SomeTraversal(m: map<string, string>) returns (order: seq<string>)
    ensures Traverses(order, m)
    decreases |m|
  {
    if m == map[] {
      order := [];
    } else {
      var k :| k in m;
      var rest := SomeTraversal(m - {k});
      order := [k] + rest;
    }
  }

  lemma {:induction false} AppendStep(s: string, order: seq<string>, k: string, m: map<string, string>)
    requires k in m && forall j | j in order :: j in m
    ensures forall j | j in order + [k] :: j in m
    ensures var before := ReplaceInOrder(s, order, m);
            ReplaceInOrder(s, order + [k], m) == if k == "" then before else ReplaceAll(before, k, m[k])
    decreases |order|
  {
    if order == [] {
      assert order + [k] == [k] && [k][1..] == [];
    } else {
      assert (order + [k])[1..] == order[1..] + [k];
      AppendStep(if order[0] == "" then s else ReplaceAll(s, order[0], m[order[0]]), order[1..], k, m);
    }
  }

  // ----- one simultaneous substitution

  /** Placeholders: each starts with its only dollar sign, and none is the start of another. */
  ghost predicate PlaceholderSet(ps: set<string>) {
    && (forall p | p in ps :: OneDollar(p))
    && (forall p, q | p in ps && q in ps && p <= q :: p == q)
  }

  ghost predicate OneDollar(p: string) {
    p != "" && p[0] == '$' && '$' !in p[1..]
  }

  /** Whatever follows the dollar sign may come in pieces. */
  lemma {:induction false} Shape(p: string, a: string, b: string, c: string)
    requires '$' !in a && '$' !in b && '$' !in c && p == "$" + (a + b + c)
    ensures OneDollar(p)
  {
    assert p[1..] == a + b + c;
  }

  lemma {:induction false} PieceFree()
    ensures '$' !in "{pvc.meta" && '$' !in "{pv.meta"
    ensures '$' !in "data.name" && '$' !in "space}" && '$' !in "}"
  {
  }

  lemma {:induction false} Dollars()
    ensures OneDollar(PVC_NAME)
    ensures OneDollar(PVC_NAMESPACE)
    ensures OneDollar(PV_NAME)
  {
    PieceFree();
    Shape(PVC_NAME, "{pvc.meta", "data.name", "}");
    Shape(PVC_NAMESPACE, "{pvc.meta", "data.name", "space}");
    Shape(PV_NAME, "{pv.meta", "data.name", "}");
  }

  lemma {:induction false} Apart()
    ensures !(PVC_NAME <= PVC_NAMESPACE) && !(PV_NAME <= PVC_NAME) && !(PV_NAME <= PVC_NAMESPACE)
    ensures |PV_NAME| < |PVC_NAME| < |PVC_NAMESPACE|
  {
    assert PVC_NAME[19] == '}' && PVC_NAMESPACE[19] == 's';
    assert PV_NAME[4] == '.' && PVC_NAME[4] == 'c' && PVC_NAMESPACE[4] == 'c';
  }

  lemma {:induction false} Known()
    ensures PlaceholderSet(KNOWN)
  {
    Dollars();
    Apart();
  }

  /** At every position at once: a placeholder with an entry becomes its value, all else stays. */
  ghost function Substitute(s: string, m: map<string, string>): string
    requires "" !in m
    decreases |s|
  {
    if s == "" then ""
    else if exists k :: k in m && k <= s then
      var k :| k in m && k <= s;
      m[k] + Substitute(s[|k|..], m)
    else [s[0]] + Substitute(s[1..], m)
  }

  /** Dollar signs occur only where a placeholder starts. */
  ghost predicate Template(s: string, ps: set<string>) {
    forall i | 0 <= i < |s| && s[i] == '$' :: StartsAt(s, i, ps)
  }

  ghost predicate StartsAt(s: string, i: nat, ps: set<string>)
    requires i <= |s|
  {
    exists p :: p in ps && p <= s[i..]
  }

  /** A map whose keys are placeholders and whose values bring in no dollar sign. */
  ghost predicate Values(m: map<string, string>, ps: set<string>) {
    m.Keys <= ps && forall k | k in m :: '$' !in m[k]
  }

  lemma {:induction false} TemplateTail(s: string, ps: set<string>, k: nat)
    requires Template(s, ps) && k <= |s|
    ensures Template(s[k..], ps)
  {
  }

  lemma {:induction false} TemplateAfterPlain(u: string, x: string, ps: set<string>)
    requires '$' !in u && Template(x, ps)
    ensures Template(u + x, ps)
  {
  }

  lemma {:induction false} TemplateAfterKey(p: string, x: string, ps: set<string>)
    requires PlaceholderSet(ps) && p in ps && Template(x, ps)
    ensures Template(p + x, ps)
  {
  }

  /** Two placeholders at the same place are the same. */
  lemma {:induction false} SameKey(p: string, q: string, s: string, ps: set<string>)
    requires PlaceholderSet(ps) && p in ps && q in ps && p <= s && q <= s
    ensures p == q
  {
  }

  // ----- both forms act on a piece at the front on its own

  lemma {:induction false} ReplacePlain(u: string, x: string, k: string, v: string)
    requires '$' !in u && k != "" && k[0] == '$'
    ensures ReplaceAll(u + x, k, v) == u + ReplaceAll(x, k, v)
    decreases |u|
  {
    if u == "" {
      assert u + x == x;
    } else {
      assert (u + x)[1..] == u[1..] + x;
      ReplacePlain(u[1..], x, k, v);
    }
  }

  lemma {:induction false} ReplaceKey(p: string, x: string, k: string, v: string, ps: set<string>)
    requires PlaceholderSet(ps) && p in ps && k in ps
    ensures ReplaceAll(p + x, k, v) == (if p == k then v else p) + ReplaceAll(x, k, v)
  {
    if p == k {
      assert (p + x)[|k|..] == x;
    } else {
      if k <= p + x { SameKey(p, k, p + x, ps); }
      assert (p + x)[1..] == p[1..] + x;
      ReplacePlain(p[1..], x, k, v);
    }
  }

  lemma {:induction false} SubstitutePlain(u: string, x: string, m: map<string, string>, ps: set<string>)
    requires '$' !in u && PlaceholderSet(ps) && m.Keys <= ps
    ensures "" !in m && Substitute(u + x, m) == u + Substitute(x, m)
    decreases |u|
  {
    if u == "" {
      assert u + x == x;
    } else {
      assert (u + x)[1..] == u[1..] + x;
      assert forall k | k in m :: k[0] == '$';
      SubstitutePlain(u[1..], x, m, ps);
    }
  }

  lemma {:induction false} SubstituteKey(p: string, x: string, m: map<string, string>, ps: set<string>)
    requires PlaceholderSet(ps) && p in ps && m.Keys <= ps
    ensures "" !in m && Substitute(p + x, m) == (if p in m then m[p] else p) + Substitute(x, m)
  {
    assert "" !in ps;
    forall k | k in m && k <= p + x ensures k == p { SameKey(k, p, p + x, ps); }
    if p in m {
      SubstituteFound(p, x, m);
    } else {
      assert (p + x)[1..] == p[1..] + x;
      SubstitutePlain(p[1..], x, m, ps);
    }
  }

  lemma {:induction false} SubstituteFound(p: string, x: string, m: map<string, string>)
    requires "" !in m && p in m && forall k | k in m && k <= p + x :: k == p
    ensures Substitute(p + x, m) == m[p] + Substitute(x, m)
  {
    assert p <= p + x && (p + x)[|p|..] == x;
  }

  // ----- replacing in order is substituting

  /** Replacing one placeholder first leaves the result of the substitution as it was. */
  lemma {:induction false} ReplaceStep(s: string, k: string, m: map<string, string>, ps: set<string>)
    requires PlaceholderSet(ps) && Template(s, ps) && Values(m, ps) && k in m
    ensures "" !in m && Template(ReplaceAll(s, k, m[k]), ps)
    ensures Substitute(ReplaceAll(s, k, m[k]), m - {k}) == Substitute(s, m)
    decreases |s|
  {
    var v, m' := m[k], m - {k};
    if s == "" {
    } else if s[0] != '$' {
      var u, x := [s[0]], s[1..];
      assert s == u + x;
      TemplateTail(s, ps, 1);
      ReplaceStep(x, k, m, ps);
      ReplacePlain(u, x, k, v);
      TemplateAfterPlain(u, ReplaceAll(x, k, v), ps);
      SubstitutePlain(u, x, m, ps);
      SubstitutePlain(u, ReplaceAll(x, k, v), m', ps);
    } else {
      assert StartsAt(s, 0, ps);
      assert s[0..] == s;
      var p :| p in ps && p <= s;
      var x := s[|p|..];
      assert s == p + x;
      TemplateTail(s, ps, |p|);
      ReplaceStep(x, k, m, ps);
      ReplaceKey(p, x, k, v, ps);
      SubstituteKey(p, x, m, ps);
      if p == k {
        TemplateAfterPlain(v, ReplaceAll(x, k, v), ps);
        SubstitutePlain(v, ReplaceAll(x, k, v), m', ps);
      } else {
        TemplateAfterKey(p, ReplaceAll(x, k, v), ps);
        SubstituteKey(p, ReplaceAll(x, k, v), m', ps);
      }
    }
  }

  lemma {:induction false} SubstituteNothing(s: string)
    ensures Substitute(s, map[]) == s
  {
    if s != "" {
      SubstituteNothing(s[1..]);
    }
  }

  function Restrict(m: map<string, string>, order: seq<string>): map<string, string> {
    map k | k in m && k in order :: m[k]
  }

  lemma {:induction false} InOrder(s: string, order: seq<string>, m: map<string, string>, ps: set<string>)
    requires PlaceholderSet(ps) && Template(s, ps) && Values(m, ps)
    requires forall k | k in order :: k in m
    requires forall i, j | 0 <= i < j < |order| :: order[i] != order[j]
    ensures "" !in m
    ensures ReplaceInOrder(s, order, m) == Substitute(s, Restrict(m, order))
    ensures Template(ReplaceInOrder(s, order, m), ps)
    decreases |order|
  {
    assert "" !in ps;
    var now := Restrict(m, order);
    if order == [] {
      assert now == map[];
      SubstituteNothing(s);
    } else {
      var k, rest := order[0], order[1..];
      RestrictRest(m, order);
      ReplaceStep(s, k, now, ps);
      InOrder(ReplaceAll(s, k, m[k]), rest, m, ps);
    }
  }

  lemma {:induction false} RestrictRest(m: map<string, string>, order: seq<string>)
    requires order != [] && order[0] in m && forall i, j | 0 <= i < j < |order| :: order[i] != order[j]
    ensures var now, k := Restrict(m, order), order[0];
            k in now && now[k] == m[k] && now - {k} == Restrict(m, order[1..])
  {
    assert order[0] !in order[1..];
    assert forall j :: j in order <==> j == order[0] || j in order[1..];
  }

  /** If the template's dollar signs only start placeholders and no value contains one, then every
      order of replacing gives the same result: the simultaneous substitution. */
  lemma {:induction false} Confluent(s: string, order: seq<string>, m: map<string, string>, ps: set<string>)
    requires PlaceholderSet(ps) && Template(s, ps) && Values(m, ps) && Traverses(order, m)
    ensures "" !in m && ReplaceInOrder(s, order, m) == Substitute(s, m)
    ensures Template(ReplaceInOrder(s, order, m), ps)
  {
    InOrder(s, order, m, ps);
    assert Restrict(m, order) == m;
  }

  // ----- expanding again

  lemma {:induction false} DollarFree(s: string, m: map<string, string>, ps: set<string>)
    requires PlaceholderSet(ps) && Template(s, ps) && Values(m, ps)
    ensures "" !in m && ('$' !in Substitute(s, m) <==> Template(s, m.Keys))
    decreases |s|
  {
    assert "" !in ps;
    if s == "" {
    } else if s[0] != '$' {
      var u, x := [s[0]], s[1..];
      assert s == u + x;
      TemplateTail(s, ps, 1);
      SubstitutePlain(u, x, m, ps);
      DollarFree(x, m, ps);
      if Template(s, m.Keys) { TemplateTail(s, m.Keys, 1); }
      if Template(x, m.Keys) { TemplateAfterPlain(u, x, m.Keys); }
    } else {
      assert StartsAt(s, 0, ps);
      assert s[0..] == s;
      var p :| p in ps && p <= s;
      var x := s[|p|..];
      assert s == p + x;
      TemplateTail(s, ps, |p|);
      SubstituteKey(p, x, m, ps);
      DollarFree(x, m, ps);
      if Template(s, m.Keys) {
        TemplateTail(s, m.Keys, |p|);
        assert StartsAt(s, 0, m.Keys);
        var q :| q in m.Keys && q <= s[0..];
        SameKey(p, q, s, ps);
      }
      if p in m && Template(x, m.Keys) { TemplateAfterKey(p, x, m.Keys); }
    }
  }

  lemma {:induction false} NothingToReplace(s: string, order: seq<string>, m: map<string, string>)
    requires '$' !in s && forall k | k in order :: k in m && k != "" && k[0] == '$'
    ensures ReplaceInOrder(s, order, m) == s
    decreases |order|
  {
    if order != [] {
      ReplacePlain(s, "", order[0], m[order[0]]);
      assert s + "" == s;
      assert forall k | k in order[1..] :: k in order;
      NothingToReplace(s, order[1..], m);
    }
  }

  /** Once every placeholder the template uses has an entry, the result contains no dollar sign, and
      expanding it again, with any placeholders at all, changes nothing. The result keeps a dollar
      sign exactly when some placeholder it uses has no entry. */
  lemma {:induction false} ExpandOnce(s: string, order: seq<string>, m: map<string, string>, ps: set<string>,
                                      order': seq<string>, m': map<string, string>)
    requires PlaceholderSet(ps) && Template(s, ps) && Values(m, ps) && Traverses(order, m)
    requires m'.Keys <= ps && Traverses(order', m')
    ensures "" !in m && ('$' !in ReplaceInOrder(s, order, m) <==> Template(s, m.Keys))
    ensures Template(s, m.Keys) ==>
              ReplaceInOrder(ReplaceInOrder(s, order, m), order', m') == ReplaceInOrder(s, order, m)
  {
    Confluent(s, order, m, ps);
    DollarFree(s, m, ps);
    if Template(s, m.Keys) {
      NothingToReplace(ReplaceInOrder(s, order, m), order', m');
    }
  }

  /** After a substitution none of its placeholders is left to replace. */
  lemma {:induction false} SubstitutedStays(s: string, m: map<string, string>, ps: set<string>, k: string, v: string)
    requires PlaceholderSet(ps) && Template(s, ps) && Values(m, ps) && k in m
    ensures "" !in m && ReplaceAll(Substitute(s, m), k, v) == Substitute(s, m)
    decreases |s|
  {
    assert "" !in ps;
    if s == "" {
    } else if s[0] != '$' {
      var u, x := [s[0]], s[1..];
      assert s == u + x;
      TemplateTail(s, ps, 1);
      SubstitutePlain(u, x, m, ps);
      SubstitutedStays(x, m, ps, k, v);
      ReplacePlain(u, Substitute(x, m), k, v);
    } else {
      assert StartsAt(s, 0, ps);
      assert s[0..] == s;
      var p :| p in ps && p <= s;
      var x := s[|p|..];
      assert s == p + x;
      TemplateTail(s, ps, |p|);
      SubstituteKey(p, x, m, ps);
      SubstitutedStays(x, m, ps, k, v);
      if p in m {
        ReplacePlain(m[p], Substitute(x, m), k, v);
      } else {
        ReplaceKey(p, Substitute(x, m), k, v, ps);
      }
    }
  }

  lemma {:induction false} ExpandedStays(s: string, m: map<string, string>, ps: set<string>, order': seq<string>, m': map<string, string>)
    requires PlaceholderSet(ps) && Template(s, ps) && Values(m, ps) && forall k | k in order' :: k in m && k in m'
    ensures "" !in m && ReplaceInOrder(Substitute(s, m), order', m') == Substitute(s, m)
    decreases |order'|
  {
    if order' != [] {
      SubstitutedStays(s, m, ps, order'[0], m'[order'[0]]);
      assert forall k | k in order'[1..] :: k in order';
      ExpandedStays(s, m, ps, order'[1..], m');
    }
  }

  /** Expanding the result again with entries for the same placeholders, whatever their values,
      changes nothing even if some placeholder has no entry. */
  lemma {:induction false} ExpandAgain(s: string, order: seq<string>, m: map<string, string>, ps: set<string>,
                                       order': seq<string>, m': map<string, string>)
    requires PlaceholderSet(ps) && Template(s, ps) && Values(m, ps) && Traverses(order, m)
    requires m'.Keys <= m.Keys && Traverses(order', m')
    ensures "" !in m
    ensures ReplaceInOrder(ReplaceInOrder(s, order, m), order', m') == ReplaceInOrder(s, order, m)
  {
    Confluent(s, order, m, ps);
    ExpandedStays(s, m, ps, order', m');
  }

  // ----- why both conditions are needed

  /** A value that is itself a placeholder makes the result depend on the order. */
  lemma {:induction false} ValuesMatter(p: string, q: string, v: string, ps: set<string>)
    requires PlaceholderSet(ps) && p in ps && q in ps && p != q
    ensures var m := map[p := q, q := v];
            && ReplaceInOrder(p, [p, q], m) == v
            && ReplaceInOrder(p, [q, p], m) == q
  {
    var m := map[p := q, q := v];
    assert OneDollar(p) && OneDollar(q);
    TwoSteps(p, p, q, m);
    TwoSteps(p, q, p, m);
    WholeKey(p, p, q, ps);
    WholeKey(q, q, v, ps);
    WholeKey(p, q, v, ps);
  }

  lemma {:induction false} TwoSteps(s: string, a: string, b: string, m: map<string, string>)
    requires a in m && b in m && a != "" && b != ""
    ensures ReplaceInOrder(s, [a, b], m) == ReplaceAll(ReplaceAll(s, a, m[a]), b, m[b])
  {
    var mid := ReplaceAll(s, a, m[a]);
    assert [a, b][1..] == [b];
    assert ReplaceInOrder(s, [a, b], m) == ReplaceInOrder(mid, [b], m);
    assert [b][1..] == [];
    assert ReplaceInOrder(mid, [b], m) == ReplaceInOrder(ReplaceAll(mid, b, m[b]), [], m);
  }

  lemma {:induction false} StrayDollar(s: string, k: string, v: string)
    requires |k| > 1 && s != "" && k[1] != s[0]
    ensures ReplaceAll("$" + s, k, v) == "$" + ReplaceAll(s, k, v)
  {
  }

  /** A stray dollar sign in the template does so too, even when no value contains one. */
  lemma {:induction false} TemplatesMatter(p: string, q: string, v: string, ps: set<string>)
    requires PlaceholderSet(ps) && p in ps && q in ps && p != q && |p| > 1 && |q| > 1
    ensures var m := map[p := q[1..], q := v];
            && ReplaceInOrder("$" + p, [p, q], m) == v
            && ReplaceInOrder("$" + p, [q, p], m) == q
  {
    var m, tail := map[p := q[1..], q := v], q[1..];
    assert OneDollar(p) && OneDollar(q) && p[1] == p[1..][0] && q[1] == tail[0];
    WholeKey(p, p, tail, ps);
    WholeKey(p, q, v, ps);
    WholeKey(q, q, v, ps);
    StrayDollar(p, p, tail);
    StrayDollar(p, q, v);
    assert "$" + tail == q;
    TwoSteps("$" + p, p, q, m);
    TwoSteps("$" + p, q, p, m);
  }

  lemma {:induction false} WholeKey(p: string, k: string, v: string, ps: set<string>)
    requires PlaceholderSet(ps) && p in ps && k in ps
    ensures ReplaceAll(p, k, v) == if p == k then v else p
  {
    ReplaceKey(p, "", k, v, ps);
    assert p + "" == p && v + "" == v;
  }

  // ----- characters

  lemma {:induction false} ReplaceAvoids(s: string, order: seq<string>, m: map<string, string>, c: char)
    requires c !in s && forall k | k in order :: k in m && c !in m[k]
    ensures c !in ReplaceInOrder(s, order, m)
    decreases |order|
  {
    if order != [] {
      var k := order[0];
      if k != "" { ReplaceAllAvoids(s, k, m[k], c); }
      ReplaceAvoids(if k == "" then s else ReplaceAll(s, k, m[k]), order[1..], m, c);
    }
  }

  lemma {:induction false} ReplaceAllAvoids(s: string, k: string, v: string, c: char)
    requires k != "" && c !in s && c !in v
    ensures c !in ReplaceAll(s, k, v)
    decreases |s|
  {
    if s == "" {
    } else if k <= s {
      ReplaceAllAvoids(s[|k|..], k, v, c);
    } else {
      ReplaceAllAvoids(s[1..], k, v, c);
    }
  }
}
