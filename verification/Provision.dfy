/** Building volumes and snapshots from request parameters, whose names are compared without regard
    to case and which are visited in whatever order a map happens to be traversed. */
module Provision {
  import opened Wrappers
  import opened Strings
  import opened Paths
  import opened Placeholders
  import opened Volumes

  type Params = map<string, string>

  const SERVER := "server"
  const SHARE := "share"
  const SUBDIR := "subdir"
  const ONDELETE := "ondelete"
  const PVC_NAME_KEY := "csi.storage.k8s.io/pvc/name"
  const PVC_NAMESPACE_KEY := "csi.storage.k8s.io/pvc/namespace"
  const PV_NAME_KEY := "csi.storage.k8s.io/pv/name"

  // ----- looking parameters up

  /** A parameter may be spelled in several ways that differ in case only. The one visited last
      counts: `pick` has that spelling for every name spelled in `keys`, and since a map is traversed
      in any order, it can be any spelling. */
  ghost predicate Picks(keys: set<string>, pick: map<string, string>) {
    && (forall k | k in keys :: Lower(k) in pick)
    && (forall name | name in pick :: pick[name] in keys && Lower(pick[name]) == name)
  }

  lemma {:induction false} PickNext(keys: set<string>, pick: map<string, string>, k: string)
    requires Picks(keys, pick)
    ensures Picks(keys + {k}, pick[Lower(k) := k])
  {
  }

  lemma {:induction false} SomePick(keys: set<string>) returns (pick: map<string, string>)
    ensures Picks(keys, pick)
    decreases keys
  {
    if keys == {} {
      pick := map[];
    } else {
      var k :| k in keys;
      var rest := SomePick(keys - {k});
      PickNext(keys - {k}, rest, k);
      assert keys - {k} + {k} == keys;
      pick := rest[Lower(k) := k];
    }
  }

  /** The value that a parameter is read with. */
  function Find(params: Params, pick: map<string, string>, name: string): Option<string> {
    if name in pick && pick[name] in params then Some(params[pick[name]]) else None
  }

  function OrElse(o: Option<string>, default: string): string {
    if o.Some? then o.value else default
  }

  // ----- the replacements for a subdirectory template

  function With(m: map<string, string>, key: string, o: Option<string>): map<string, string> {
    if o.Some? then m[key := o.value] else m
  }

  function Replacements(ns: Option<string>, pvc: Option<string>, pv: Option<string>): map<string, string> {
    With(With(With(map[], PVC_NAMESPACE, ns), PVC_NAME, pvc), PV_NAME, pv)
  }

  lemma {:induction false} ReplacementsAre(ns: Option<string>, pvc: Option<string>, pv: Option<string>)
    ensures var m := Replacements(ns, pvc, pv);
            && m.Keys <= KNOWN
            && (PVC_NAMESPACE in m <==> ns.Some?) && (ns.Some? ==> m[PVC_NAMESPACE] == ns.value)
            && (PVC_NAME in m <==> pvc.Some?) && (pvc.Some? ==> m[PVC_NAME] == pvc.value)
            && (PV_NAME in m <==> pv.Some?) && (pv.Some? ==> m[PV_NAME] == pv.value)
  {
  }

  lemma {:induction false} SetReplacement(ns: Option<string>, pvc: Option<string>, pv: Option<string>, v: string)
    ensures Replacements(ns, pvc, pv)[PVC_NAMESPACE := v] == Replacements(Some(v), pvc, pv)
    ensures Replacements(ns, pvc, pv)[PVC_NAME := v] == Replacements(ns, Some(v), pv)
    ensures Replacements(ns, pvc, pv)[PV_NAME := v] == Replacements(ns, pvc, Some(v))
  {
    Apart();
    SetFirst(PVC_NAMESPACE, PVC_NAME, PV_NAME, ns, pvc, pv, v);
    SetSecond(PVC_NAMESPACE, PVC_NAME, PV_NAME, ns, pvc, pv, v);
  }

  lemma {:induction false} SetFirst(a: string, b: string, c: string, x: Option<string>, y: Option<string>, z: Option<string>, v: string)
    requires a != b && a != c
    ensures With(With(With(map[], a, x), b, y), c, z)[a := v] == With(With(With(map[], a, Some(v)), b, y), c, z)
  {
  }

  lemma {:induction false} SetSecond(a: string, b: string, c: string, x: Option<string>, y: Option<string>, z: Option<string>, v: string)
    requires b != c
    ensures With(With(With(map[], a, x), b, y), c, z)[b := v] == With(With(With(map[], a, x), b, Some(v)), c, z)
  {
  }

  // ----- volumes

  /** What the parameters say. */
  datatype Request = Request(server: string, baseDir: string, subDir: string, onDelete: string, replace: map<string, string>)

  function RequestOf(params: Params, pick: map<string, string>): Request {
    Request(OrElse(Find(params, pick, SERVER), ""), OrElse(Find(params, pick, SHARE), ""),
            OrElse(Find(params, pick, SUBDIR), ""), OrElse(Find(params, pick, ONDELETE), ""),
            Replacements(Find(params, pick, PVC_NAMESPACE_KEY), Find(params, pick, PVC_NAME_KEY), Find(params, pick, PV_NAME_KEY)))
  }

  /** The policy a request asks for. */
  function Policy(q: Request, default: string): string {
    if q.onDelete == "" then default else q.onDelete
  }

  /** The subdirectory that is created: the template, expanded by traversing the replacements in
      `order`, or else the volume's name. */
  function Created(name: string, q: Request, order: seq<string>): string
    requires forall k | k in order :: k in q.replace
  {
    if q.subDir == "" then name else ReplaceInOrder(q.subDir, order, q.replace)
  }

  /** The volume of a request. */
  function Build(name: string, size: int, q: Request, default: string, order: seq<string>): Result<Volume, Error>
    requires forall k | k in order :: k in q.replace
  {
    if q.server == "" then Err(MissingServer)
    else if !Supported(q.onDelete) then Err(InvalidOnDelete)
    else
      var v := Volume("", q.server, q.baseDir,
                      Created(name, q, order), size, if q.subDir == "" then "" else name, Policy(q, default));
      Ok(v.(id := VolumeId(v)))
  }

  /** The seven parameters are told apart by name. */
  lemma {:induction false} NamesDiffer()
    ensures |SERVER| == 6 && |SUBDIR| == 6 && SERVER != SUBDIR && |SHARE| == 5 && |ONDELETE| == 8
    ensures |PVC_NAME_KEY| == 27 && |PVC_NAMESPACE_KEY| == 32 && |PV_NAME_KEY| == 26
  {
  }

  lemma {:induction false} ReadNext(params: Params, pick: map<string, string>, k: string)
    requires k in params
    ensures var q, q', name, v := RequestOf(params, pick), RequestOf(params, pick[Lower(k) := k]), Lower(k), params[k];
            q' == if name == SERVER then q.(server := v)
                  else if name == SHARE then q.(baseDir := v)
                  else if name == SUBDIR then q.(subDir := v)
                  else if name == ONDELETE then q.(onDelete := v)
                  else if name == PVC_NAMESPACE_KEY then q.(replace := q.replace[PVC_NAMESPACE := v])
                  else if name == PVC_NAME_KEY then q.(replace := q.replace[PVC_NAME := v])
                  else if name == PV_NAME_KEY then q.(replace := q.replace[PV_NAME := v])
                  else q
  {
    NamesDiffer();
    SetReplacement(Find(params, pick, PVC_NAMESPACE_KEY), Find(params, pick, PVC_NAME_KEY), Find(params, pick, PV_NAME_KEY), params[k]);
  }

  /** The loop over the parameters. */
  method ReadParams(params: Params) returns (q: Request)
    ensures exists pick :: Picks(params.Keys, pick) && q == RequestOf(params, pick)
  {
    var server, baseDir, subDir, onDelete := "", "", "", "";
    var replace: map<string, string> := map[];
    var rest := params.Keys;
    ghost var pick: map<string, string> := map[];
    while rest != {}
      invariant rest <= params.Keys && Picks(params.Keys - rest, pick)
      invariant Request(server, baseDir, subDir, onDelete, replace) == RequestOf(params, pick)
      decreases rest
    {
      var k :| k in rest;
      var v := params[k];
      ReadNext(params, pick, k);
      PickNext(params.Keys - rest, pick, k);
      assert params.Keys - (rest - {k}) == (params.Keys - rest) + {k};
      var lower := Lower(k);
      if lower == SERVER {
        server := v;
      } else if lower == SHARE {
        baseDir := v;
      } else if lower == SUBDIR {
        subDir := v;
      } else if lower == ONDELETE {
        onDelete := v;
      } else if lower == PVC_NAMESPACE_KEY {
        replace := replace[PVC_NAMESPACE := v];
      } else if lower == PVC_NAME_KEY {
        replace := replace[PVC_NAME := v];
      } else if lower == PV_NAME_KEY {
        replace := replace[PV_NAME := v];
      }
      rest, pick := rest - {k}, pick[lower := k];
    }
    assert params.Keys - {} == params.Keys;
    q := Request(server, baseDir, subDir, onDelete, replace);
  }

  predicate Recognised(name: string) {
    || name == SERVER || name == SHARE || name == SUBDIR || name == ONDELETE
    || name == PVC_NAMESPACE_KEY || name == PVC_NAME_KEY || name == PV_NAME_KEY
  }

  /** Where a recognised parameter goes. */
  function Field(q: Request, name: string): Option<string> {
    if name == SERVER then Some(q.server)
    else if name == SHARE then Some(q.baseDir)
    else if name == SUBDIR then Some(q.subDir)
    else if name == ONDELETE then Some(q.onDelete)
    else
      var p := if name == PVC_NAMESPACE_KEY then PVC_NAMESPACE else if name == PVC_NAME_KEY then PVC_NAME else PV_NAME;
      if p in q.replace then Some(q.replace[p]) else None
  }

  lemma {:induction false} FieldIs(params: Params, pick: map<string, string>, name: string, k: string)
    requires Recognised(name) && k in params && name in pick && pick[name] == k
    ensures Field(RequestOf(params, pick), name) == Some(params[k])
  {
    NamesDiffer();
    ReplacementsAre(Find(params, pick, PVC_NAMESPACE_KEY), Find(params, pick, PVC_NAME_KEY), Find(params, pick, PV_NAME_KEY));
  }

  /** The parameters by their names, and the placeholders they replace. */
  lemma {:induction false} ParamNames(params: Params, pick: map<string, string>)
    requires Picks(params.Keys, pick)
    ensures var q := RequestOf(params, pick);
            && q.server == (if "server" in pick then params[pick["server"]] else "")
            && q.baseDir == (if "share" in pick then params[pick["share"]] else "")
            && q.subDir == (if "subdir" in pick then params[pick["subdir"]] else "")
            && q.onDelete == (if "ondelete" in pick then params[pick["ondelete"]] else "")
    ensures var m := RequestOf(params, pick).replace;
            && Entry(params, pick, "csi.storage.k8s.io/pvc/name", m, "${pvc.metadata.name}")
            && Entry(params, pick, "csi.storage.k8s.io/pvc/namespace", m, "${pvc.metadata.namespace}")
            && Entry(params, pick, "csi.storage.k8s.io/pv/name", m, "${pv.metadata.name}")
  {
    ReplacementsAre(Find(params, pick, PVC_NAMESPACE_KEY), Find(params, pick, PVC_NAME_KEY), Find(params, pick, PV_NAME_KEY));
  }

  /** The parameter gives the placeholder its value, if it is there. */
  predicate Entry(params: Params, pick: map<string, string>, name: string, m: map<string, string>, placeholder: string) {
    if name in pick && pick[name] in params then placeholder in m && m[placeholder] == params[pick[name]] else placeholder !in m
  }

  /** Two spellings of a recognised parameter have the same value. */
  ghost predicate Unambiguous(params: Params) {
    forall j, k | j in params && k in params && Lower(j) == Lower(k) && Recognised(Lower(j)) :: params[j] == params[k]
  }

  /** Every spelling of a parameter may be the one that counts. */
  lemma {:induction false} AnySpelling(params: Params, k: string) returns (pick: map<string, string>)
    requires k in params
    ensures Picks(params.Keys, pick) && Lower(k) in pick && pick[Lower(k)] == k
  {
    pick := SomePick(params.Keys);
    PickNext(params.Keys, pick, k);
    assert params.Keys + {k} == params.Keys;
    pick := pick[Lower(k) := k];
  }

  lemma {:induction false} SameValue(params: Params, p: map<string, string>, p': map<string, string>, name: string)
    requires Unambiguous(params) && Picks(params.Keys, p) && Picks(params.Keys, p') && Recognised(name)
    ensures Find(params, p, name) == Find(params, p', name)
  {
  }

  lemma {:induction false} ReadsAgree(params: Params, p: map<string, string>, p': map<string, string>)
    requires Unambiguous(params) && Picks(params.Keys, p) && Picks(params.Keys, p')
    ensures RequestOf(params, p) == RequestOf(params, p')
  {
    SameValue(params, p, p', SERVER);
    SameValue(params, p, p', SHARE);
    SameValue(params, p, p', SUBDIR);
    SameValue(params, p, p', ONDELETE);
    SameValue(params, p, p', PVC_NAMESPACE_KEY);
    SameValue(params, p, p', PVC_NAME_KEY);
    SameValue(params, p, p', PV_NAME_KEY);
  }

  /** The order of traversal does not influence what is read exactly when no two spellings of a
      recognised parameter disagree. */
  lemma {:induction false} OrderIrrelevant(params: Params)
    ensures Unambiguous(params) <==>
            forall p, p' | Picks(params.Keys, p) && Picks(params.Keys, p') :: RequestOf(params, p) == RequestOf(params, p')
  {
    if Unambiguous(params) {
      forall p, p' | Picks(params.Keys, p) && Picks(params.Keys, p') ensures RequestOf(params, p) == RequestOf(params, p') {
        ReadsAgree(params, p, p');
      }
    } else {
      var j, k :| j in params && k in params && Lower(j) == Lower(k) && Recognised(Lower(j)) && params[j] != params[k];
      var p := AnySpelling(params, j);
      var p' := AnySpelling(params, k);
      FieldIs(params, p, Lower(j), j);
      FieldIs(params, p', Lower(k), k);
    }
  }

  /** The volume that the parameters describe, for some order of visiting them and some order of
      expanding its subdirectory. */
  method NewNFSVolume(name: string, size: int, params: Params, default: string) returns (r: Result<Volume, Error>)
    ensures exists pick, order :: Picks(params.Keys, pick) && Traverses(order, RequestOf(params, pick).replace) &&
                                  r == Build(name, size, RequestOf(params, pick), default, order)
  {
    var q := ReadParams(params);
    ghost var pick :| Picks(params.Keys, pick) && q == RequestOf(params, pick);
    ghost var order := SomeTraversal(q.replace);
    if q.server == "" {
      return Err(MissingServer);
    }
    var vol := Volume("", q.server, q.baseDir, "", size, "", "");
    if q.subDir == "" {
      vol := vol.(subDir := name);
    } else {
      var expanded := ReplaceWithMap(q.subDir, q.replace);
      order :| Traverses(order, q.replace) && expanded == ReplaceInOrder(q.subDir, order, q.replace);
      vol := vol.(subDir := expanded, uuid := name);
    }
    var ok := ValidateOnDelete(q.onDelete);
    if !ok {
      return Err(InvalidOnDelete);
    }
    vol := vol.(onDelete := if q.onDelete != "" then q.onDelete else default);
    return Ok(vol.(id := VolumeId(vol)));
  }

  // ----- what the identifier of a built volume is good for

  ghost predicate RequestHashFree(q: Request) {
    && '#' !in q.server && '#' !in q.baseDir && '#' !in q.subDir
    && forall k | k in q.replace :: '#' !in q.replace[k]
  }

  lemma {:induction false} BuiltHashFree(name: string, size: int, q: Request, default: string, order: seq<string>)
    requires (forall k | k in order :: k in q.replace) && RequestHashFree(q) && '#' !in name
    requires Build(name, size, q, default, order).Ok?
    ensures var v := Build(name, size, q, default, order).value;
            HashFree(v) && v.id == VolumeId(v)
  {
    ReplaceAvoids(q.subDir, order, q.replace, '#');
  }

  /** Exactly when two built volumes share an identifier: server, share and recorded policy agree up to
      slashes, and either both have no subdirectory and names that agree up to slashes, or both have
      one, under the same name and with expansions that agree up to slashes. */
  lemma {:induction false} SameBuiltId(n1: string, s1: int, q1: Request, d1: string, o1: seq<string>,
                                       n2: string, s2: int, q2: Request, d2: string, o2: seq<string>)
    requires (forall k | k in o1 :: k in q1.replace) && RequestHashFree(q1) && Build(n1, s1, q1, d1, o1).Ok?
    requires (forall k | k in o2 :: k in q2.replace) && RequestHashFree(q2) && Build(n2, s2, q2, d2, o2).Ok?
    requires n1 != "" && n2 != "" && '#' !in n1 && '#' !in n2
    ensures Build(n1, s1, q1, d1, o1).value.id == Build(n2, s2, q2, d2, o2).value.id <==>
            && Trim(q1.server, '/') == Trim(q2.server, '/') && Trim(q1.baseDir, '/') == Trim(q2.baseDir, '/')
            && Recorded(Policy(q1, d1)) == Recorded(Policy(q2, d2))
            && (q1.subDir == "" <==> q2.subDir == "")
            && if q1.subDir == "" then Trim(n1, '/') == Trim(n2, '/')
               else n1 == n2 && Trim(ReplaceInOrder(q1.subDir, o1, q1.replace), '/') == Trim(ReplaceInOrder(q2.subDir, o2, q2.replace), '/')
  {
    var v1, v2 := Build(n1, s1, q1, d1, o1).value, Build(n2, s2, q2, d2, o2).value;
    BuiltHashFree(n1, s1, q1, d1, o1);
    BuiltHashFree(n2, s2, q2, d2, o2);
    SameId(v1, v2);
    SameElements(v1, v2);
  }

  lemma {:induction false} SameElements(v: Volume, w: Volume)
    ensures Elements(v) == Elements(w) <==>
            && Trim(v.server, '/') == Trim(w.server, '/') && Trim(v.baseDir, '/') == Trim(w.baseDir, '/')
            && Trim(v.subDir, '/') == Trim(w.subDir, '/') && v.uuid == w.uuid && Recorded(v.onDelete) == Recorded(w.onDelete)
  {
    var x, y := Elements(v), Elements(w);
    assert x[0] == Trim(v.server, '/') && x[1] == Trim(v.baseDir, '/') && x[2] == Trim(v.subDir, '/') && x[3] == v.uuid && x[4] == Recorded(v.onDelete);
    assert y[0] == Trim(w.server, '/') && y[1] == Trim(w.baseDir, '/') && y[2] == Trim(w.subDir, '/') && y[3] == w.uuid && y[4] == Recorded(w.onDelete);
  }

  /** Different names give different identifiers, whatever else the requests ask for, also when one
      of them sets a subdirectory and the other does not. */
  lemma {:induction false} NamesMakeIdsUnique(n1: string, s1: int, q1: Request, d1: string, o1: seq<string>,
                                              n2: string, s2: int, q2: Request, d2: string, o2: seq<string>)
    requires (forall k | k in o1 :: k in q1.replace) && RequestHashFree(q1) && Build(n1, s1, q1, d1, o1).Ok?
    requires (forall k | k in o2 :: k in q2.replace) && RequestHashFree(q2) && Build(n2, s2, q2, d2, o2).Ok?
    requires n1 != n2 && n1 != "" && n2 != ""
    requires '/' !in n1 && '#' !in n1 && '/' !in n2 && '#' !in n2
    ensures Build(n1, s1, q1, d1, o1).value.id != Build(n2, s2, q2, d2, o2).value.id
  {
    SameBuiltId(n1, s1, q1, d1, o1, n2, s2, q2, d2, o2);
    TrimBare(n1, '/');
    TrimBare(n2, '/');
  }

  /** Names that differ only in slashes at their ends do share an identifier. */
  lemma {:induction false} SlashedNamesCollide(name: string, size: int, q: Request, default: string)
    requires q.subDir == "" && q.server != "" && Supported(q.onDelete)
    ensures Build(name, size, q, default, []).Ok? && Build(name + "/", size, q, default, []).Ok?
    ensures Build(name, size, q, default, []).value.id == Build(name + "/", size, q, default, []).value.id
  {
    var v, w := Build(name, size, q, default, []).value, Build(name + "/", size, q, default, []).value;
    TrimTrailing(name);
    assert Elements(v) == Elements(w);
  }

  lemma {:induction false} TrimTrailing(s: string)
    ensures Trim(s + "/", '/') == Trim(s, '/')
  {
    if s == "" {
      assert (s + "/")[1..] == "";
    } else if s[0] == '/' {
      assert (s + "/")[1..] == s[1..] + "/";
      TrimTrailing(s[1..]);
    } else {
      assert (s + "/")[..|s|] == s;
    }
  }

  lemma {:induction false} FoundAgain(workDir: string, v: Volume)
    requires HashFree(v) && v.id == VolumeId(v)
    ensures ParseVolumeId(v.id) == Ok(Decoded(v)) && SharePath(v) == SharePath(Decoded(v))
    ensures Resolve(Decoded(v), "") == ActionOf(v.onDelete)
    ensures (MountPath(workDir, v) == MountPath(workDir, Decoded(v)) && VolumePath(workDir, v) == VolumePath(workDir, Decoded(v)))
            <==> workDir != "" || v.uuid != "" || !Rooted(v.subDir)
  {
    RoundTrip(v);
    ShareAgrees(v);
    ActionSurvivesUnset(v);
    PathsAgree(workDir, v);
  }

  /** A volume is built exactly when a server is named and the requested policy is none or one of the
      three, in any letter case; a missing server is reported first. */
  lemma {:induction false} BuildSucceeds(name: string, size: int, q: Request, default: string, order: seq<string>)
    requires forall k | k in order :: k in q.replace
    ensures var r := Build(name, size, q, default, order);
            && (r.Ok? <==> q.server != "" && AcceptedPolicy(q.onDelete))
            && (r == Err(MissingServer) <==> q.server == "")
            && (r.Err? && q.server != "" ==> r == Err(InvalidOnDelete))
            && (r.Ok? ==> r.value.server == q.server && r.value.baseDir == q.baseDir && r.value.size == size)
  {
    Actions(q.onDelete);
  }

  predicate AcceptedPolicy(onDelete: string) {
    onDelete == "" || EqualFold(onDelete, "delete") || EqualFold(onDelete, "retain") || EqualFold(onDelete, "archive")
  }

  /** The action a request asks for: its policy's, or else the default's. */
  ghost predicate Asks(onDelete: string, default: string, action: DeleteAction) {
    && (EqualFold(onDelete, "retain") ==> action == Keep)
    && (EqualFold(onDelete, "archive") ==> action == MoveAside)
    && (EqualFold(onDelete, "delete") ==> action == Remove)
    && (onDelete == "" ==> (action == Keep <==> EqualFold(default, "retain")) && (action == MoveAside <==> EqualFold(default, "archive")))
  }

  lemma {:induction false} PolicyAsks(q: Request, default: string)
    ensures Asks(q.onDelete, default, ActionOf(Policy(q, default)))
  {
    Actions(q.onDelete);
    Actions(default);
    PoliciesDiffer();
  }

  /** What is created is what is later deleted: the volume parsed from a built volume's identifier has
      the requested server, share and policy, and the built volume's directories exactly when there is
      a working directory, or the request set a subdirectory, or the name does not start with a slash. */
  lemma {:induction false} CreateAndDeleteAgree(workDir: string, name: string, size: int, q: Request, default: string, order: seq<string>)
    requires (forall k | k in order :: k in q.replace) && RequestHashFree(q) && name != "" && '#' !in name
    requires Build(name, size, q, default, order).Ok?
    ensures var v := Build(name, size, q, default, order).value;
            && ParseVolumeId(v.id).Ok?
            && var d := ParseVolumeId(v.id).value;
            && d.server == Trim(q.server, '/')
            && SharePath(v) == SharePath(d) == Clean("/" + q.baseDir)
            && Asks(q.onDelete, default, Resolve(d, ""))
            && (MountPath(workDir, v) == MountPath(workDir, d) && VolumePath(workDir, v) == VolumePath(workDir, d)
                <==> workDir != "" || q.subDir != "" || !Rooted(name))
  {
    BuiltHashFree(name, size, q, default, order);
    FoundAgain(workDir, Build(name, size, q, default, order).value);
    PolicyAsks(q, default);
  }

  /** Without a working directory they do differ for the name "/a". */
  lemma {:induction false} DirectoriesDiffer()
    ensures var r := Build("/a", 0, Request("nfs", "share", "", "", map[]), "", []);
            && r.Ok? && ParseVolumeId(r.value.id).Ok?
            && MountPath("", r.value) != MountPath("", ParseVolumeId(r.value.id).value)
  {
    var q := Request("nfs", "share", "", "", map[]);
    MountsDiffer("/a", q);
  }

  lemma {:induction false} MountsDiffer(name: string, q: Request)
    requires RequestHashFree(q) && '#' !in name && Rooted(name) && q.server != "" && q.subDir == "" && q.onDelete == ""
    ensures var r := Build(name, 0, q, "", []);
            && r.Ok? && ParseVolumeId(r.value.id).Ok?
            && MountPath("", r.value) != MountPath("", ParseVolumeId(r.value.id).value)
  {
    var v := Build(name, 0, q, "", []).value;
    BuiltHashFree(name, 0, q, "", []);
    RoundTrip(v);
    CleanTrimmed(name);
  }

  // ----- the parameters handed on to the node

  class ParamMap {
    var entries: Params

    constructor (entries: Params)
      ensures this.entries == entries
    {
      this.entries := entries;
    }
  }

  /** The name under which a parameter is stored, or under which it will be. */
  ghost predicate Slot(params: Params, key: string, k: string) {
    if exists j :: j in params && EqualFold(j, key) then k in params && EqualFold(k, key) else k == key
  }

  /** Setting a parameter under whatever spelling it already has. */
  method SetKeyValueInMap(m: ParamMap?, key: string, value: string) returns (ghost slot: string)
    modifies if m == null then {} else {m}
    ensures m != null ==> Slot(old(m.entries), key, slot) && m.entries == old(m.entries)[slot := value]
  {
    slot := key;
    if m == null {
      return;
    }
    var rest := m.entries.Keys;
    while rest != {}
      invariant rest <= m.entries.Keys && m.entries == old(m.entries)
      invariant forall j | j in m.entries && j !in rest :: !EqualFold(j, key)
      decreases rest
    {
      var k :| k in rest;
      if EqualFold(k, key) {
        m.entries := m.entries[k := value];
        return k;
      }
      rest := rest - {k};
    }
    m.entries := m.entries[key := value];
  }

  /** The parameter is then read with the value in every order of traversal exactly when its other
      spellings have that value. */
  lemma {:induction false} SetParam(params: Params, key: string, slot: string, value: string)
    requires Slot(params, key, slot)
    ensures var params' := params[slot := value];
            (forall pick | Picks(params'.Keys, pick) :: Find(params', pick, Lower(key)) == Some(value))
            <==> (forall j | j in params && j != slot && EqualFold(j, key) :: params[j] == value)
  {
    var params' := params[slot := value];
    assert Lower(slot) == Lower(key) && slot in params';
    if forall j | j in params && j != slot && EqualFold(j, key) :: params[j] == value {
      forall pick | Picks(params'.Keys, pick) ensures Find(params', pick, Lower(key)) == Some(value) {
        assert pick[Lower(key)] in params';
      }
    } else {
      var j :| j in params && j != slot && EqualFold(j, key) && params[j] != value;
      var pick := AnySpelling(params', j);
      assert Find(params', pick, Lower(key)) == Some(params[j]);
    }
  }

  /** Every other parameter is read as it could be read before. */
  lemma {:induction false} OthersKept(params: Params, key: string, slot: string, value: string, pick': map<string, string>)
    requires Slot(params, key, slot) && Picks(params[slot := value].Keys, pick')
    ensures exists pick :: Picks(params.Keys, pick) &&
                           forall name | name != Lower(key) :: Find(params[slot := value], pick', name) == Find(params, pick, name)
  {
    var pick := if slot in params then pick' else pick' - {Lower(key)};
    assert Lower(slot) == Lower(key);
    assert Picks(params.Keys, pick);
  }

  lemma {:induction false} SameNames(params: Params, pick: map<string, string>, slot: string, value: string, pick': map<string, string>, name: string)
    requires Picks(params.Keys, pick) && Picks(params[slot := value].Keys, pick') && name != Lower(slot)
    ensures Find(params[slot := value], pick', name).Some? <==> Find(params, pick, name).Some?
  {
    if name in pick { assert pick[name] in params[slot := value].Keys; }
    if name in pick' { assert pick'[name] in params.Keys; }
  }

  /** Storing the subdirectory leaves the set of replacements as it was. */
  lemma {:induction false} SameReplacements(params: Params, pick: map<string, string>, slot: string, value: string, pick': map<string, string>)
    requires Lower(slot) == SUBDIR && Picks(params.Keys, pick) && Picks(params[slot := value].Keys, pick')
    ensures RequestOf(params[slot := value], pick').replace.Keys == RequestOf(params, pick).replace.Keys <= KNOWN
  {
    var params' := params[slot := value];
    NamesDiffer();
    SameNames(params, pick, slot, value, pick', PVC_NAMESPACE_KEY);
    SameNames(params, pick, slot, value, pick', PVC_NAME_KEY);
    SameNames(params, pick, slot, value, pick', PV_NAME_KEY);
    SameKeys(Find(params, pick, PVC_NAMESPACE_KEY), Find(params, pick, PVC_NAME_KEY), Find(params, pick, PV_NAME_KEY),
             Find(params', pick', PVC_NAMESPACE_KEY), Find(params', pick', PVC_NAME_KEY), Find(params', pick', PV_NAME_KEY));
  }

  lemma {:induction false} SameKeys(ns: Option<string>, pvc: Option<string>, pv: Option<string>,
                                    ns': Option<string>, pvc': Option<string>, pv': Option<string>)
    requires (ns.Some? <==> ns'.Some?) && (pvc.Some? <==> pvc'.Some?) && (pv.Some? <==> pv'.Some?)
    ensures Replacements(ns', pvc', pv').Keys == Replacements(ns, pvc, pv).Keys <= KNOWN
  {
    ReplacementsAre(ns, pvc, pv);
    ReplacementsAre(ns', pvc', pv');
  }

  lemma {:induction false} StoredSubDir(params: Params, slot: string, value: string, pick: map<string, string>)
    requires Slot(params, SUBDIR, slot) && Picks(params[slot := value].Keys, pick)
    ensures Lower(slot) == SUBDIR
    ensures (forall j | j in params && EqualFold(j, SUBDIR) :: j == slot) ==> RequestOf(params[slot := value], pick).subDir == value
  {
    assert Lower(SUBDIR) == SUBDIR;
    SetParam(params, SUBDIR, slot, value);
  }

  /** A built subdirectory is the substitution, and expanding it again does not change it. */
  lemma {:induction false} ExpandedForGood(name: string, q: Request, order: seq<string>, order': seq<string>, m': map<string, string>)
    requires q.replace.Keys == m'.Keys <= KNOWN && Traverses(order, q.replace) && Traverses(order', m')
    requires if q.subDir == "" then '$' !in name else Template(q.subDir, KNOWN) && Values(q.replace, KNOWN)
    ensures var d := Created(name, q, order);
            && ReplaceInOrder(d, order', m') == d
            && "" !in q.replace && d == if q.subDir == "" then name else Substitute(q.subDir, q.replace)
  {
    Known();
    assert "" !in KNOWN;
    if q.subDir == "" {
      Plain(name, order', m');
    } else {
      Confluent(q.subDir, order, q.replace, KNOWN);
      ExpandAgain(q.subDir, order, q.replace, KNOWN, order', m');
    }
  }

  /** The node mounts the directory that was created. Creation stores the expanded subdirectory back
      into the parameters; the node expands it again with the replacements found there; the result is
      the created subdirectory, in whatever order either side traverses the parameters and the
      replacements, if the subdirectory is not given in two spellings. */
  lemma {:induction false} MountedIsCreated(name: string, size: int, params: Params, pick: map<string, string>, default: string, order: seq<string>,
                                            slot: string, pick': map<string, string>, order': seq<string>)
    requires Picks(params.Keys, pick) && Traverses(order, RequestOf(params, pick).replace)
    requires Build(name, size, RequestOf(params, pick), default, order).Ok?
    requires var q := RequestOf(params, pick);
             if q.subDir == "" then '$' !in name else Template(q.subDir, KNOWN) && Values(q.replace, KNOWN)
    requires Slot(params, SUBDIR, slot) && forall j | j in params && EqualFold(j, SUBDIR) :: j == slot
    requires var ctx := params[slot := Build(name, size, RequestOf(params, pick), default, order).value.subDir];
             Picks(ctx.Keys, pick') && Traverses(order', RequestOf(ctx, pick').replace)
    ensures var q := RequestOf(params, pick);
            var v := Build(name, size, q, default, order).value;
            var q' := RequestOf(params[slot := v.subDir], pick');
            && q'.subDir == v.subDir && ReplaceInOrder(q'.subDir, order', q'.replace) == v.subDir
            && "" !in q.replace && v.subDir == if q.subDir == "" then name else Substitute(q.subDir, q.replace)
  {
    var q := RequestOf(params, pick);
    var v := Build(name, size, q, default, order).value;
    StoredSubDir(params, slot, v.subDir, pick');
    SameReplacements(params, pick, slot, v.subDir, pick');
    ExpandedForGood(name, q, order, order', RequestOf(params[slot := v.subDir], pick').replace);
  }

  /** The subdirectory that a node mounts, reading the parameters and traversing the replacements in
      the given orders. */
  function Mounted(params: Params, pick: map<string, string>, order: seq<string>): string
    requires forall k | k in order :: k in RequestOf(params, pick).replace
  {
    ReplaceInOrder(RequestOf(params, pick).subDir, order, RequestOf(params, pick).replace)
  }

  /** Dollar signs in the subdirectory, however spelled, start placeholders, and none is in a replacement. */
  ghost predicate PlainParams(params: Params) {
    && (forall j | j in params && Lower(j) == SUBDIR :: Template(params[j], KNOWN))
    && (forall k | k in params && Lower(k) in {PVC_NAMESPACE_KEY, PVC_NAME_KEY, PV_NAME_KEY} :: '$' !in params[k])
  }

  ghost predicate ExpandsTo(s: string, m: map<string, string>, d: string) {
    "" !in m && Substitute(s, m) == d
  }

  /** Every spelling of the subdirectory other than `slot` expands to `d`, whichever spelling of the
      replacements counts. */
  ghost predicate OthersExpandTo(params: Params, slot: string, d: string) {
    forall j, p | j in params && j != slot && Lower(j) == SUBDIR && Picks(params.Keys, p) ::
      ExpandsTo(params[j], RequestOf(params, p).replace, d)
  }

  lemma {:induction false} PlainValues(params: Params, pick: map<string, string>)
    requires Picks(params.Keys, pick) && PlainParams(params)
    ensures Values(RequestOf(params, pick).replace, KNOWN)
  {
    ReplacementsAre(Find(params, pick, PVC_NAMESPACE_KEY), Find(params, pick, PVC_NAME_KEY), Find(params, pick, PV_NAME_KEY));
  }

  lemma {:induction false} MountedIs(params: Params, pick: map<string, string>, order: seq<string>, j: string)
    requires Picks(params.Keys, pick) && PlainParams(params) && Traverses(order, RequestOf(params, pick).replace)
    requires j in params && Lower(j) == SUBDIR && SUBDIR in pick && pick[SUBDIR] == j
    ensures ExpandsTo(params[j], RequestOf(params, pick).replace, Mounted(params, pick, order))
  {
    Known();
    PlainValues(params, pick);
    Confluent(params[j], order, RequestOf(params, pick).replace, KNOWN);
  }

  /** The replacements do not depend on the subdirectory. */
  lemma {:induction false} ReplacementsApart(params: Params, p: map<string, string>, slot: string, value: string, p': map<string, string>)
    requires Lower(slot) == SUBDIR && forall name | name != SUBDIR :: Find(params[slot := value], p', name) == Find(params, p, name)
    ensures RequestOf(params[slot := value], p').replace == RequestOf(params, p).replace
  {
    NamesDiffer();
  }

  lemma {:induction false} StoredPlain(params: Params, slot: string, d: string)
    requires PlainParams(params) && Lower(slot) == SUBDIR && Template(d, KNOWN)
    ensures PlainParams(params[slot := d])
  {
    NamesDiffer();
  }

  /** The parameters and the replacements are visited in these orders. */
  ghost predicate Reads(params: Params, pick: map<string, string>, order: seq<string>) {
    Picks(params.Keys, pick) && Traverses(order, RequestOf(params, pick).replace)
  }

  /** Whatever the orders, the node mounts `d`. */
  ghost predicate AlwaysMounts(params: Params, d: string) {
    forall p, order | Reads(params, p, order) :: Mounted(params, p, order) == d
  }

  lemma {:induction false} CountsOther(params: Params, slot: string, d: string, p: map<string, string>, name: string)
    requires Lower(slot) == name && Picks(params[slot := d].Keys, p)
    ensures name in p && Lower(p[name]) == name
    ensures p[name] != slot ==> p[name] in params && params[slot := d][p[name]] == params[p[name]]
  {
    assert slot in params[slot := d].Keys;
  }

  /** A node that counts another spelling mounts what that one expands to. */
  lemma {:induction false} MountsOther(params: Params, slot: string, d: string, p: map<string, string>, order: seq<string>)
    requires PlainParams(params) && Slot(params, SUBDIR, slot) && Lower(slot) == SUBDIR && Template(d, KNOWN)
    requires Reads(params[slot := d], p, order) && SUBDIR in p && p[SUBDIR] != slot && OthersExpandTo(params, slot, d)
    ensures Mounted(params[slot := d], p, order) == d
  {
    CountsOther(params, slot, d, p, SUBDIR);
    StoredPlain(params, slot, d);
    MountedIs(params[slot := d], p, order, p[SUBDIR]);
    var before := ReadBefore(params, slot, d, p);
    assert ExpandsTo(params[p[SUBDIR]], RequestOf(params, before).replace, d);
  }

  lemma {:induction false} ReadBefore(params: Params, slot: string, d: string, p: map<string, string>) returns (before: map<string, string>)
    requires Slot(params, SUBDIR, slot) && Lower(slot) == SUBDIR && Picks(params[slot := d].Keys, p)
    ensures Picks(params.Keys, before) && RequestOf(params[slot := d], p).replace == RequestOf(params, before).replace
  {
    assert Lower(SUBDIR) == SUBDIR;
    OthersKept(params, SUBDIR, slot, d, p);
    before :| Picks(params.Keys, before) && forall name | name != Lower(SUBDIR) :: Find(params[slot := d], p, name) == Find(params, before, name);
    ReplacementsApart(params, before, slot, d, p);
  }

  lemma {:induction false} PickOther(params: Params, slot: string, d: string, j: string, p: map<string, string>, name: string)
    requires slot in params && j in params && j != slot && Lower(slot) == name == Lower(j) && Picks(params.Keys, p)
    ensures Picks(params[slot := d].Keys, p[name := j])
    ensures forall x | x != name :: Find(params[slot := d], p[name := j], x) == Find(params, p, x)
  {
    assert params[slot := d].Keys == params.Keys == params.Keys + {j};
    PickNext(params.Keys, p, j);
  }

  lemma {:induction false} SlotTaken(params: Params, slot: string, j: string)
    requires Slot(params, SUBDIR, slot) && j in params && Lower(j) == SUBDIR
    ensures slot in params
  {
    assert Lower(SUBDIR) == SUBDIR;
    assert EqualFold(j, SUBDIR);
  }

  /** Any other spelling may be the one that a node counts. */
  lemma {:induction false} OtherIsMounted(params: Params, slot: string, d: string, j: string, p: map<string, string>)
    requires PlainParams(params) && slot in params && Lower(slot) == SUBDIR && Template(d, KNOWN)
    requires j in params && j != slot && Lower(j) == SUBDIR && Picks(params.Keys, p)
    requires AlwaysMounts(params[slot := d], d)
    ensures ExpandsTo(params[j], RequestOf(params, p).replace, d)
  {
    var ctx, p' := params[slot := d], p[SUBDIR := j];
    PickOther(params, slot, d, j, p, SUBDIR);
    ReplacementsApart(params, p, slot, d, p');
    var order := SomeTraversal(RequestOf(ctx, p').replace);
    assert Reads(ctx, p', order);
    StoredPlain(params, slot, d);
    MountedIs(ctx, p', order, j);
  }

  lemma {:induction false} CreatedIsTemplate(name: string, params: Params, pick: map<string, string>, order: seq<string>)
    requires Picks(params.Keys, pick) && Traverses(order, RequestOf(params, pick).replace) && PlainParams(params)
    requires RequestOf(params, pick).subDir == "" ==> '$' !in name
    ensures Template(Created(name, RequestOf(params, pick), order), KNOWN)
    ensures RequestOf(params, pick).subDir != "" ==> Template(RequestOf(params, pick).subDir, KNOWN)
  {
    var q := RequestOf(params, pick);
    if q.subDir != "" {
      assert SUBDIR in pick && q.subDir == params[pick[SUBDIR]];
      Known();
      PlainValues(params, pick);
      Confluent(q.subDir, order, q.replace, KNOWN);
    }
  }

  /** A node that counts the stored spelling mounts what was created. */
  lemma {:induction false} MountsStored(name: string, params: Params, pick: map<string, string>, order: seq<string>,
                                        slot: string, p': map<string, string>, order': seq<string>)
    requires Picks(params.Keys, pick) && Traverses(order, RequestOf(params, pick).replace) && PlainParams(params)
    requires (RequestOf(params, pick).subDir == "" ==> '$' !in name) && Lower(slot) == SUBDIR
    requires var ctx := params[slot := Created(name, RequestOf(params, pick), order)];
             Picks(ctx.Keys, p') && SUBDIR in p' && p'[SUBDIR] == slot && Traverses(order', RequestOf(ctx, p').replace)
    ensures var d := Created(name, RequestOf(params, pick), order);
            Mounted(params[slot := d], p', order') == d
  {
    var q, d := RequestOf(params, pick), Created(name, RequestOf(params, pick), order);
    CreatedIsTemplate(name, params, pick, order);
    PlainValues(params, pick);
    SameReplacements(params, pick, slot, d, p');
    ExpandedForGood(name, q, order, order', RequestOf(params[slot := d], p').replace);
    assert RequestOf(params[slot := d], p').subDir == d;
  }

  lemma {:induction false} MountsIfOthersDo(name: string, params: Params, pick: map<string, string>, order: seq<string>, slot: string)
    requires Reads(params, pick, order) && PlainParams(params) && (RequestOf(params, pick).subDir == "" ==> '$' !in name)
    requires Slot(params, SUBDIR, slot) && Lower(slot) == SUBDIR && OthersExpandTo(params, slot, Created(name, RequestOf(params, pick), order))
    ensures var d := Created(name, RequestOf(params, pick), order); AlwaysMounts(params[slot := d], d)
  {
    var d := Created(name, RequestOf(params, pick), order);
    var ctx := params[slot := d];
    CreatedIsTemplate(name, params, pick, order);
    forall p, o | Reads(ctx, p, o) ensures Mounted(ctx, p, o) == d {
      CountsOther(params, slot, d, p, SUBDIR);
      if p[SUBDIR] == slot {
        MountsStored(name, params, pick, order, slot, p, o);
      } else {
        MountsOther(params, slot, d, p, o);
      }
    }
  }

  lemma {:induction false} OthersIfMounts(params: Params, slot: string, d: string)
    requires PlainParams(params) && Slot(params, SUBDIR, slot) && Lower(slot) == SUBDIR && Template(d, KNOWN)
    requires AlwaysMounts(params[slot := d], d)
    ensures OthersExpandTo(params, slot, d)
  {
    forall j, p | j in params && j != slot && Lower(j) == SUBDIR && Picks(params.Keys, p)
      ensures ExpandsTo(params[j], RequestOf(params, p).replace, d)
    {
      SlotTaken(params, slot, j);
      OtherIsMounted(params, slot, d, j, p);
    }
  }

  /** Exactly when the node mounts what was created, in every order in which it may read the parameters
      and traverse the replacements: every other spelling of the subdirectory must expand to it. */
  lemma {:induction false} MountedExactly(name: string, size: int, params: Params, pick: map<string, string>, default: string, order: seq<string>, slot: string)
    requires Reads(params, pick, order) && Build(name, size, RequestOf(params, pick), default, order).Ok?
    requires PlainParams(params) && (RequestOf(params, pick).subDir == "" ==> '$' !in name) && Slot(params, SUBDIR, slot)
    ensures var d := Build(name, size, RequestOf(params, pick), default, order).value.subDir;
            AlwaysMounts(params[slot := d], d) <==> OthersExpandTo(params, slot, d)
  {
    var d := Created(name, RequestOf(params, pick), order);
    assert Build(name, size, RequestOf(params, pick), default, order).value.subDir == d;
    SlotIsSubDir(params, slot);
    CreatedIsTemplate(name, params, pick, order);
    if OthersExpandTo(params, slot, d) { MountsIfOthersDo(name, params, pick, order, slot); }
    if AlwaysMounts(params[slot := d], d) { OthersIfMounts(params, slot, d); }
  }

  lemma {:induction false} SlotIsSubDir(params: Params, slot: string)
    requires Slot(params, SUBDIR, slot)
    ensures Lower(slot) == SUBDIR
  {
    assert Lower(SUBDIR) == SUBDIR;
  }

  /** Creation, counting one spelling, makes the subdirectory `d` and stores it under `slot`; the node
      counts another spelling and mounts another directory. */
  ghost predicate Disagree(params: Params, pick: map<string, string>, slot: string, pick': map<string, string>, d: string) {
    Reads(params, pick, []) && Reads(params[slot := d], pick', []) && Mounted(params[slot := d], pick', []) != d
  }

  lemma {:induction false} MountedPlain(params: Params, pick: map<string, string>)
    requires Picks(params.Keys, pick) && RequestOf(params, pick).replace == map[]
    ensures Reads(params, pick, []) && Mounted(params, pick, []) == RequestOf(params, pick).subDir
  {
  }

  lemma {:induction false} OnlyServerAndSubDir(params: Params, pick: map<string, string>, server: string, j: string)
    requires pick == map[SERVER := server, SUBDIR := j] && server in params && j in params
    ensures var q := RequestOf(params, pick);
            q.server == params[server] && q.subDir == params[j] && q.onDelete == "" && q.replace == map[]
  {
    NamesDiffer();
  }

  lemma {:induction false} OtherCounted(params: Params, pick: map<string, string>, slot: string, pick': map<string, string>, d: string)
    requires Picks(params.Keys, pick) && Picks(params.Keys, pick') && slot in params && params[slot] == d
    requires RequestOf(params, pick).replace == map[] == RequestOf(params, pick').replace && RequestOf(params, pick').subDir != d
    ensures Disagree(params, pick, slot, pick', d)
  {
    assert params[slot := d] == params;
    MountedPlain(params, pick);
    MountedPlain(params, pick');
  }

  lemma {:induction false} TwoSpellings(params: Params, server: string, j: string, k: string)
    requires params.Keys == {server, j, k} && Lower(server) == SERVER && Lower(j) == SUBDIR == Lower(k)
    requires params[server] != "" && params[j] != "" && params[j] != params[k]
    ensures var pick, pick' := map[SERVER := server, SUBDIR := j], map[SERVER := server, SUBDIR := k];
            && Slot(params, SUBDIR, j) && Disagree(params, pick, j, pick', params[j])
            && var r := Build("pv", 0, RequestOf(params, pick), "", []); r.Ok? && r.value.subDir == params[j]
  {
    var p, p' := map[SERVER := server, SUBDIR := j], map[SERVER := server, SUBDIR := k];
    assert SERVER != SUBDIR by { NamesDiffer(); }
    PicksTwo(params.Keys, server, j, k, SERVER, SUBDIR);
    PicksTwo(params.Keys, server, k, j, SERVER, SUBDIR);
    OnlyServerAndSubDir(params, p, server, j);
    OnlyServerAndSubDir(params, p', server, k);
    OtherCounted(params, p, j, p', params[j]);
    SlotOf(params, j);
    BuildPlain("pv", RequestOf(params, p));
  }

  lemma {:induction false} SlotOf(params: Params, j: string)
    requires j in params && Lower(j) == SUBDIR
    ensures Slot(params, SUBDIR, j)
  {
    assert Lower(SUBDIR) == SUBDIR;
  }

  lemma {:induction false} PicksTwo(keys: set<string>, server: string, j: string, k: string, a: string, b: string)
    requires keys == {server, j, k} && Lower(server) == a && Lower(j) == b == Lower(k) && a != b
    ensures Picks(keys, map[a := server, b := j])
  {
  }

  lemma {:induction false} BuildPlain(name: string, q: Request)
    requires q.server != "" && q.subDir != "" && q.onDelete == "" && q.replace == map[]
    ensures Build(name, 0, q, "", []).Ok? && Build(name, 0, q, "", []).value.subDir == q.subDir
  {
  }

  /** A request for which creation and mount do disagree: the subdirectory is given as "subdir" and as
      "subDir", creation makes "a" and the node mounts "b". */
  lemma {:induction false} MountedElsewhere()
    ensures var params := map["server" := "nfs", "subdir" := "a", "subDir" := "b"];
            var pick, pick' := map[SERVER := "server", SUBDIR := "subdir"], map[SERVER := "server", SUBDIR := "subDir"];
            && Slot(params, SUBDIR, "subdir") && Disagree(params, pick, "subdir", pick', "a")
            && var r := Build("pv", 0, RequestOf(params, pick), "", []); r.Ok? && r.value.subDir == "a"
  {
    Spellings();
    NamesDiffer();
    TwoSpellings(map["server" := "nfs", "subdir" := "a", "subDir" := "b"], "server", "subdir", "subDir");
  }

  lemma {:induction false} Spellings()
    ensures Lower("server") == SERVER && Lower("subdir") == SUBDIR && Lower("subDir") == SUBDIR && "subdir" != "subDir"
  {
    assert "subdir"[3] != "subDir"[3];
    assert Lower("subDir") == SUBDIR;
  }

  lemma {:induction false} Plain(s: string, order: seq<string>, m: map<string, string>)
    requires '$' !in s && m.Keys <= KNOWN && Traverses(order, m)
    ensures ReplaceInOrder(s, order, m) == s
  {
    Dollars();
    assert forall k | k in order :: OneDollar(k);
    NothingToReplace(s, order, m);
  }
}

/** Snapshots, their identifiers, and where their archives lie. */
module Snapshots {
  import opened Wrappers
  import opened Strings
  import opened Paths
  import opened Volumes
  import opened Provision

  datatype Snapshot = Snapshot(id: string, server: string, baseDir: string, uuid: string, src: string)

  function Elements(s: Snapshot): seq<string> {
    [Trim(s.server, '/'), Trim(s.baseDir, '/'), s.uuid, s.uuid, s.src]
  }

  function SnapshotId(s: Snapshot): string {
    Join(Elements(s), '#')
  }

  function ParseSnapshotId(id: string): Result<Snapshot, Error> {
    var segs := Split(id, '#');
    if |segs| == 5 then Ok(Snapshot(id, segs[0], segs[1], segs[2], segs[4])) else Err(InvalidId)
  }

  function ArchiveName(s: Snapshot): string {
    s.src + ".tar.gz"
  }

  /** The volume under which a snapshot is mounted. */
  function VolumeOf(s: Snapshot): Volume {
    Volume(s.id, s.server, s.baseDir, s.uuid, 0, s.uuid, "")
  }

  function ArchivePath(workDir: string, s: Snapshot): string {
    JoinPath(VolumePath(workDir, VolumeOf(s)), ArchiveName(s))
  }

  function Decoded(s: Snapshot): Snapshot {
    Snapshot(SnapshotId(s), Trim(s.server, '/'), Trim(s.baseDir, '/'), s.uuid, s.src)
  }

  predicate HashFree(s: Snapshot) {
    '#' !in s.server && '#' !in s.baseDir && '#' !in s.uuid && '#' !in s.src
  }

  /** An identifier is refused exactly when it does not have four separators. */
  lemma {:induction false} ParseFails(id: string)
    ensures ParseSnapshotId(id).Err? <==> multiset(id)['#'] != 4
  {
    SplitCounts(id, '#');
  }

  /** Parsing gives the snapshot back, without the slashes around its server and base directory,
      exactly when no field contains the separator. */
  lemma {:induction false} RoundTrip(s: Snapshot)
    ensures ParseSnapshotId(SnapshotId(s)) == Ok(Decoded(s)) <==> HashFree(s)
  {
    var e, segs := Elements(s), Split(SnapshotId(s), '#');
    TrimKeeps(s.server, '/', '#');
    TrimKeeps(s.baseDir, '/', '#');
    FiveFree(e[0], e[1], e[2], e[3], e[4], '#');
    SplitJoin(e, '#');
    SegmentsAreFree(SnapshotId(s), '#');
    if ParseSnapshotId(SnapshotId(s)) == Ok(Decoded(s)) {
      assert segs[0] == e[0] && segs[1] == e[1] && segs[2] == e[2] && segs[4] == e[4];
    }
  }

  /** The archive is looked for where it was put, and re-encoding the parsed snapshot gives the same
      identifier. */
  lemma {:induction false} ArchiveIsFound(workDir: string, s: Snapshot)
    ensures ArchivePath(workDir, Decoded(s)) == ArchivePath(workDir, s)
    ensures SharePath(VolumeOf(Decoded(s))) == SharePath(VolumeOf(s))
    ensures SnapshotId(Decoded(s)) == SnapshotId(s)
  {
    ShareAgrees(VolumeOf(s));
    TrimIsBare(s.server, '/');
    TrimIsBare(s.baseDir, '/');
    TrimBare(Trim(s.server, '/'), '/');
    TrimBare(Trim(s.baseDir, '/'), '/');
    assert Elements(Decoded(s)) == Elements(s);
  }

  /** The snapshot of a volume: the archive is named after the volume's uuid, or else its subdirectory. */
  function Build(name: string, server: string, baseDir: string, vol: Volume): Result<Snapshot, Error> {
    if server == "" then Err(MissingServer)
    else if vol.subDir == "" && vol.uuid == "" then Err(MissingSource)
    else
      var s := Snapshot("", server, baseDir, name, if vol.uuid != "" then vol.uuid else vol.subDir);
      Ok(s.(id := SnapshotId(s)))
  }

  /** Only the server and the share can be overridden. */
  ghost predicate Known(params: Params) {
    forall k | k in params :: Lower(k) == SERVER || Lower(k) == SHARE
  }

  method NewNFSSnapshot(name: string, params: Params, vol: Volume) returns (r: Result<Snapshot, Error>)
    ensures !Known(params) ==> r == Err(InvalidParameter)
    ensures Known(params) ==>
              exists pick :: Picks(params.Keys, pick) &&
                             r == Build(name, OrElse(Find(params, pick, SERVER), vol.server), OrElse(Find(params, pick, SHARE), vol.baseDir), vol)
  {
    var server, baseDir := vol.server, vol.baseDir;
    var rest := params.Keys;
    ghost var pick: map<string, string> := map[];
    while rest != {}
      invariant rest <= params.Keys && Picks(params.Keys - rest, pick)
      invariant server == OrElse(Find(params, pick, SERVER), vol.server)
      invariant baseDir == OrElse(Find(params, pick, SHARE), vol.baseDir)
      invariant forall k | k in params && k !in rest :: Lower(k) == SERVER || Lower(k) == SHARE
      decreases rest
    {
      var k :| k in rest;
      PickNext(params.Keys - rest, pick, k);
      assert params.Keys - (rest - {k}) == (params.Keys - rest) + {k};
      var lower := Lower(k);
      if lower == SERVER {
        server := params[k];
      } else if lower == SHARE {
        baseDir := params[k];
      } else {
        return Err(InvalidParameter);
      }
      rest, pick := rest - {k}, pick[lower := k];
    }
    assert params.Keys - {} == params.Keys;
    if server == "" {
      return Err(MissingServer);
    }
    var src := "";
    if vol.subDir != "" {
      src := vol.subDir;
    }
    if vol.uuid != "" {
      src := vol.uuid;
    }
    if src == "" {
      return Err(MissingSource);
    }
    var snap := Snapshot("", server, baseDir, name, src);
    return Ok(snap.(id := SnapshotId(snap)));
  }

  /** A snapshot is built exactly when a server is known and the volume has a name; a missing server is
      reported first. */
  lemma {:induction false} BuildSucceeds(name: string, server: string, baseDir: string, vol: Volume)
    ensures var r := Build(name, server, baseDir, vol);
            && (r.Ok? <==> server != "" && (vol.uuid != "" || vol.subDir != ""))
            && (r == Err(MissingServer) <==> server == "")
            && (r.Err? && server != "" ==> r == Err(MissingSource))
  {
  }

  /** The text of an identifier, and the place of an archive: in a directory named by the snapshot, below
      a mount point of that name. */
  lemma {:induction false} SnapshotIs(workDir: string, s: Snapshot)
    ensures SnapshotId(s) == Trim(s.server, '/') + "#" + Trim(s.baseDir, '/') + "#" + s.uuid + "#" + s.uuid + "#" + s.src
    ensures Clean(workDir) == workDir && Name(s.uuid) && Below(s.src + ".tar.gz") ==>
              ArchivePath(workDir, s) == Child(workDir, s.uuid) + "/" + s.uuid + "/" + s.src + ".tar.gz"
  {
    JoinFive(Trim(s.server, '/'), Trim(s.baseDir, '/'), s.uuid, s.uuid, s.src, '#');
    if Clean(workDir) == workDir && Name(s.uuid) && Below(s.src + ".tar.gz") {
      ArchiveIs(workDir, s);
    }
  }

  lemma {:induction false} ArchiveIs(workDir: string, s: Snapshot)
    requires Clean(workDir) == workDir && Name(s.uuid) && Below(s.src + ".tar.gz")
    ensures ArchivePath(workDir, s) == Child(workDir, s.uuid) + "/" + s.uuid + "/" + s.src + ".tar.gz"
  {
    var v := VolumeOf(s);
    SplitFree(s.uuid, '/');
    TrimBare(s.uuid, '/');
    Directories(workDir, v);
    JoinBelow(workDir, s.uuid);
    JoinBelow(MountPath(workDir, v), s.uuid);
    JoinBelow(VolumePath(workDir, v), ArchiveName(s));
  }

  /** A snapshot built from a volume is found again through its identifier: under the snapshot's name, on
      the server and in the share it was built with, with the volume's name as its source. */
  lemma {:induction false} RestoreFindsArchive(workDir: string, name: string, server: string, baseDir: string, vol: Volume)
    requires Build(name, server, baseDir, vol).Ok?
    requires '#' !in name && '#' !in server && '#' !in baseDir && '#' !in vol.uuid && '#' !in vol.subDir
    ensures var s := Build(name, server, baseDir, vol).value;
            && ParseSnapshotId(s.id).Ok?
            && var p := ParseSnapshotId(s.id).value;
            && ArchivePath(workDir, p) == ArchivePath(workDir, s)
            && VolumeOf(p).server == Trim(server, '/')
            && SharePath(VolumeOf(p)) == SharePath(VolumeOf(s)) == Clean("/" + baseDir)
            && p.uuid == name && p.src == if vol.uuid != "" then vol.uuid else vol.subDir
  {
    var s := Build(name, server, baseDir, vol).value;
    RoundTrip(s);
    ArchiveIsFound(workDir, s);
  }

  /** Snapshots of volumes with different names have differently named archives, so that the archive
      found under a snapshot's name tells whether it was taken of the same volume. */
  lemma {:induction false} ArchivesTellVolumesApart(snap: string, server: string, baseDir: string,
                                                    n1: string, s1: int, q1: Request, d1: string, o1: seq<string>,
                                                    n2: string, s2: int, q2: Request, d2: string, o2: seq<string>)
    requires (forall k | k in o1 :: k in q1.replace) && RequestHashFree(q1) && Provision.Build(n1, s1, q1, d1, o1).Ok?
    requires (forall k | k in o2 :: k in q2.replace) && RequestHashFree(q2) && Provision.Build(n2, s2, q2, d2, o2).Ok?
    requires n1 != "" && n2 != "" && '/' !in n1 && '#' !in n1 && '/' !in n2 && '#' !in n2 && server != ""
    ensures var p1 := ParseVolumeId(Provision.Build(n1, s1, q1, d1, o1).value.id);
            var p2 := ParseVolumeId(Provision.Build(n2, s2, q2, d2, o2).value.id);
            && p1.Ok? && p2.Ok?
            && var a1, a2 := Build(snap, server, baseDir, p1.value), Build(snap, server, baseDir, p2.value);
            && a1.Ok? && a2.Ok?
            && (ArchiveName(a1.value) == ArchiveName(a2.value) <==> n1 == n2)
  {
    SourceIsName(snap, server, baseDir, n1, s1, q1, d1, o1);
    SourceIsName(snap, server, baseDir, n2, s2, q2, d2, o2);
    var x, y := n1 + ".tar.gz", n2 + ".tar.gz";
    assert x[..|x| - 7] == n1 && y[..|y| - 7] == n2;
  }

  lemma {:induction false} SourceIsName(snap: string, server: string, baseDir: string,
                                        name: string, size: int, q: Request, default: string, order: seq<string>)
    requires (forall k | k in order :: k in q.replace) && RequestHashFree(q) && Provision.Build(name, size, q, default, order).Ok?
    requires name != "" && '/' !in name && '#' !in name && server != ""
    ensures var p := ParseVolumeId(Provision.Build(name, size, q, default, order).value.id);
            p.Ok? && Build(snap, server, baseDir, p.value).Ok? && Build(snap, server, baseDir, p.value).value.src == name
  {
    BuiltHashFree(name, size, q, default, order);
    Volumes.RoundTrip(Provision.Build(name, size, q, default, order).value);
    TrimBare(name, '/');
  }
}
