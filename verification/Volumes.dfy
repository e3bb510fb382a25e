/** Volumes, their identifiers, and the directories and actions derived from them. */
module Volumes {
  import opened Wrappers
  import opened Strings
  import opened Paths

  datatype Volume = Volume(id: string, server: string, baseDir: string, subDir: string, size: int, uuid: string, onDelete: string)

  datatype Error = MissingServer | InvalidOnDelete | MissingSource | InvalidParameter | InvalidId

  const RETAIN := "retain"
  const ARCHIVE := "archive"
  const DELETE := "delete"

  // ----- printing and parsing

  /** Only a policy that differs from deleting is recorded. */
  function Recorded(onDelete: string): string {
    if EqualFold(onDelete, RETAIN) || EqualFold(onDelete, ARCHIVE) then onDelete else ""
  }

  function Elements(v: Volume): seq<string> {
    [Trim(v.server, '/'), Trim(v.baseDir, '/'), Trim(v.subDir, '/'), v.uuid, Recorded(v.onDelete)]
  }

  function VolumeId(v: Volume): string {
    Join(Elements(v), '#')
  }

  /** The older form: server, base directory and subdirectory between slashes. */
  function ParseLegacy(id: string): Option<(string, string, string)> {
    var segs := Split(id, '/');
    var last := |segs| - 1;
    if last < 2 || segs[0] == "" || segs[last] == "" then None
    else
      var baseDir := Join(segs[1..last], '/');
      if '\n' in baseDir then None else Some((segs[0], baseDir, segs[last]))
  }

  function ParseVolumeId(id: string): Result<Volume, Error> {
    var segs := Split(id, '#');
    if |segs| < 3 then
      match ParseLegacy(id)
      case None => Err(InvalidId)
      case Some((server, baseDir, subDir)) => Ok(Volume(id, server, baseDir, subDir, 0, "", ""))
    else
      Ok(Volume(id, segs[0], segs[1], segs[2], 0, if |segs| >= 4 then segs[3] else "", if |segs| >= 5 then segs[4] else ""))
  }

  /** What of a volume its identifier preserves. */
  function Decoded(v: Volume): Volume {
    Volume(VolumeId(v), Trim(v.server, '/'), Trim(v.baseDir, '/'), Trim(v.subDir, '/'), 0, v.uuid, Recorded(v.onDelete))
  }

  predicate HashFree(v: Volume) {
    '#' !in v.server && '#' !in v.baseDir && '#' !in v.subDir && '#' !in v.uuid
  }

  lemma {:induction false} RecordedIs(x: string)
    ensures Recorded(x) == "" || Recorded(x) == x
    ensures Recorded(Recorded(x)) == Recorded(x)
    ensures '#' !in Recorded(x)
    ensures Recorded(x) == "" ==> !EqualFold(x, RETAIN) && !EqualFold(x, ARCHIVE)
  {
  }

  lemma {:induction false} ElementsFree(v: Volume)
    ensures AllFree(Elements(v), '#') <==> HashFree(v)
  {
    TrimKeeps(v.server, '/', '#');
    TrimKeeps(v.baseDir, '/', '#');
    TrimKeeps(v.subDir, '/', '#');
    RecordedIs(v.onDelete);
    FiveFree(Trim(v.server, '/'), Trim(v.baseDir, '/'), Trim(v.subDir, '/'), v.uuid, Recorded(v.onDelete), '#');
  }

  lemma {:induction false} FiveFree(a: string, b: string, c: string, d: string, e: string, x: char)
    ensures AllFree([a, b, c, d, e], x) <==> x !in a && x !in b && x !in c && x !in d && x !in e
  {
    var p := [a, b, c, d, e];
    assert p[0] == a && p[1] == b && p[2] == c && p[3] == d && p[4] == e;
  }

  /** The text of an identifier. */
  lemma {:induction false} IdIs(v: Volume)
    ensures VolumeId(v) == Trim(v.server, '/') + "#" + Trim(v.baseDir, '/') + "#" + Trim(v.subDir, '/') + "#" + v.uuid + "#" + Recorded(v.onDelete)
  {
    JoinFive(Trim(v.server, '/'), Trim(v.baseDir, '/'), Trim(v.subDir, '/'), v.uuid, Recorded(v.onDelete), '#');
  }

  lemma {:induction false} JoinFive(a: string, b: string, c: string, d: string, e: string, x: char)
    ensures Join([a, b, c, d, e], x) == a + [x] + b + [x] + c + [x] + d + [x] + e
  {
    assert [a, b, c, d, e][1..] == [b, c, d, e] && [b, c, d, e][1..] == [c, d, e];
    JoinThree(c, d, e, x);
  }

  lemma {:induction false} JoinThree(a: string, b: string, c: string, x: char)
    ensures Join([a, b, c], x) == a + [x] + b + [x] + c
  {
    assert [a, b, c][1..] == [b, c] && [b, c][1..] == [c];
    assert Join([b, c], x) == b + [x] + c;
  }

  lemma {:induction false} JoinFour(a: string, b: string, c: string, d: string, x: char)
    ensures Join([a, b, c, d], x) == a + [x] + b + [x] + c + [x] + d
  {
    assert [a, b, c, d][1..] == [b, c, d];
    JoinThree(b, c, d, x);
  }

  /** Identifiers of three, four and five parts: server, base directory and subdirectory in this order,
      then the uuid, then the policy. */
  lemma {:induction false} ParsedParts(a: string, b: string, c: string, d: string, e: string)
    requires '#' !in a && '#' !in b && '#' !in c && '#' !in d && '#' !in e
    ensures var id := a + "#" + b + "#" + c; ParseVolumeId(id) == Ok(Volume(id, a, b, c, 0, "", ""))
    ensures var id := a + "#" + b + "#" + c + "#" + d; ParseVolumeId(id) == Ok(Volume(id, a, b, c, 0, d, ""))
    ensures var id := a + "#" + b + "#" + c + "#" + d + "#" + e; ParseVolumeId(id) == Ok(Volume(id, a, b, c, 0, d, e))
  {
    JoinThree(a, b, c, '#');
    SplitJoin([a, b, c], '#');
    JoinFour(a, b, c, d, '#');
    SplitJoin([a, b, c, d], '#');
    JoinFive(a, b, c, d, e, '#');
    FiveFree(a, b, c, d, e, '#');
    SplitJoin([a, b, c, d, e], '#');
  }

  /** Parsing a volume's identifier gives the volume back, without the slashes around its server and
      directories, with its policy only if that is to retain or to archive, exactly when none of its
      fields contains the separator. */
  lemma {:induction false} RoundTrip(v: Volume)
    ensures ParseVolumeId(VolumeId(v)) == Ok(Decoded(v)) <==> HashFree(v)
  {
    var e, segs := Elements(v), Split(VolumeId(v), '#');
    ElementsFree(v);
    AtLeastTheParts(e, '#');
    SplitJoin(e, '#');
    SegmentsAreFree(VolumeId(v), '#');
    if ParseVolumeId(VolumeId(v)) == Ok(Decoded(v)) {
      assert segs[0] == e[0] && segs[1] == e[1] && segs[2] == e[2] && segs[3] == e[3] && segs[4] == e[4];
    }
  }

  /** The decoded volume has the same identifier, whatever its fields. */
  lemma {:induction false} ReEncode(v: Volume)
    ensures VolumeId(Decoded(v)) == VolumeId(v)
  {
    TrimIsBare(v.server, '/');
    TrimIsBare(v.baseDir, '/');
    TrimIsBare(v.subDir, '/');
    TrimBare(Trim(v.server, '/'), '/');
    TrimBare(Trim(v.baseDir, '/'), '/');
    TrimBare(Trim(v.subDir, '/'), '/');
    RecordedIs(v.onDelete);
    assert Elements(Decoded(v)) == Elements(v);
  }

  /** Two volumes share an identifier exactly when they agree on everything it preserves. */
  lemma {:induction false} SameId(v: Volume, w: Volume)
    requires HashFree(v) && HashFree(w)
    ensures VolumeId(v) == VolumeId(w) <==> Elements(v) == Elements(w)
  {
    ElementsFree(v);
    ElementsFree(w);
    JoinInjective(Elements(v), Elements(w), '#');
  }

  // ----- the older form

  /** The language of the pattern: a server and a subdirectory without slashes and not empty, and a
      base directory without a newline. */
  predicate Matches(id: string, server: string, baseDir: string, subDir: string) {
    && id == server + "/" + baseDir + "/" + subDir
    && server != "" && '/' !in server
    && subDir != "" && '/' !in subDir
    && '\n' !in baseDir
  }

  /** The parser accepts exactly the identifiers that match, and returns the only way to match. */
  lemma {:induction false} LegacyExact(id: string, server: string, baseDir: string, subDir: string)
    ensures ParseLegacy(id) == Some((server, baseDir, subDir)) <==> Matches(id, server, baseDir, subDir)
  {
    if Matches(id, server, baseDir, subDir) {
      assert id == server + ['/'] + (baseDir + ['/'] + subDir);
      SplitAt(server, baseDir + ['/'] + subDir, '/');
      SplitAt(baseDir, subDir, '/');
      SplitFree(server, '/');
      SplitFree(subDir, '/');
      var segs := Split(id, '/');
      assert segs == [server] + Split(baseDir, '/') + [subDir];
      assert segs[1..|segs| - 1] == Split(baseDir, '/');
      JoinSplit(baseDir, '/');
    }
    if ParseLegacy(id) == Some((server, baseDir, subDir)) {
      var segs := Split(id, '/');
      var last := |segs| - 1;
      SegmentsAreFree(id, '/');
      JoinSplit(id, '/');
      JoinEnds(segs[0], segs[1..last], segs[last], '/');
      assert segs == [segs[0]] + segs[1..last] + [segs[last]];
      assert id == server + ['/'] + baseDir + ['/'] + subDir;
    }
  }

  /** An identifier of the older form is parsed into the parts it matches. */
  lemma {:induction false} ParsedOlder(id: string, server: string, baseDir: string, subDir: string)
    requires multiset(id)['#'] <= 1 && Matches(id, server, baseDir, subDir)
    ensures ParseVolumeId(id) == Ok(Volume(id, server, baseDir, subDir, 0, "", ""))
  {
    SplitCounts(id, '#');
    LegacyExact(id, server, baseDir, subDir);
  }

  /** Identifiers with at most one separator take the older form; all others parse without fail. */
  lemma {:induction false} ParseFails(id: string)
    ensures ParseVolumeId(id).Err? <==>
            multiset(id)['#'] <= 1 && !(exists server, baseDir, subDir :: Matches(id, server, baseDir, subDir))
  {
    SplitCounts(id, '#');
    if |Split(id, '#')| < 3 {
      match ParseLegacy(id) {
        case None =>
          forall server, baseDir, subDir ensures !Matches(id, server, baseDir, subDir) {
            LegacyExact(id, server, baseDir, subDir);
          }
        case Some(t) => LegacyExact(id, t.0, t.1, t.2);
      }
    }
  }

  // ----- directories

  function MountPath(workDir: string, v: Volume): string {
    JoinPath(workDir, if v.uuid == "" then v.subDir else v.uuid)
  }

  function VolumePath(workDir: string, v: Volume): string {
    JoinPath(MountPath(workDir, v), v.subDir)
  }

  /** The share to mount, as an absolute path. */
  function SharePath(v: Volume): string {
    Clean("/" + v.baseDir)
  }

  lemma {:induction false} JoinNotEmpty(a: string, b: string)
    ensures JoinPath(a, b) == "" <==> a == "" && b == ""
  {
    CleanIsRooted(a + "/" + b);
    CleanIsRooted(b);
  }

  lemma {:induction false} ShareAgrees(v: Volume)
    ensures SharePath(v) == SharePath(Decoded(v))
  {
    var s, t := v.baseDir, Trim(v.baseDir, '/');
    assert "/" + s == "" + ['/'] + s && "/" + t == "" + ['/'] + t;
    SplitAt("", s, '/');
    SplitAt("", t, '/');
    WalkOn([], [""], Split(s, '/'), true);
    WalkOn([], [""], Split(t, '/'), true);
    assert [""][1..] == [];
    WalkTrim([], s, true);
  }

  /** Where a volume lies: its mount point is named by its uuid or else its subdirectory, below the
      working directory, and it is its subdirectory below the mount point. Slashes around the
      subdirectory do not matter there. */
  lemma {:induction false} Directories(workDir: string, v: Volume)
    requires Clean(workDir) == workDir && Below(Trim(v.subDir, '/')) && (v.uuid == "" || Below(v.uuid))
    ensures MountPath(workDir, v) == Child(workDir, if v.uuid == "" then Trim(v.subDir, '/') else v.uuid)
    ensures VolumePath(workDir, v) == MountPath(workDir, v) + "/" + Trim(v.subDir, '/')
  {
    var sub := Trim(v.subDir, '/');
    CleanIsRooted(workDir);
    if v.uuid == "" {
      JoinTrimmed(workDir, v.subDir);
      JoinBelow(workDir, sub);
    } else {
      JoinBelow(workDir, v.uuid);
    }
    CleanIsRooted(MountPath(workDir, v));
    JoinTrimmed(MountPath(workDir, v), v.subDir);
    JoinBelow(MountPath(workDir, v), sub);
  }

  /** The directories derived from a volume and from its decoded identifier are the same exactly when
      there is a working directory, or the mount point is named by the uuid, or the subdirectory does
      not start with a slash. */
  lemma {:induction false} PathsAgree(workDir: string, v: Volume)
    ensures (MountPath(workDir, v) == MountPath(workDir, Decoded(v)) && VolumePath(workDir, v) == VolumePath(workDir, Decoded(v)))
            <==> workDir != "" || v.uuid != "" || !Rooted(v.subDir)
  {
    var d := Decoded(v);
    JoinNotEmpty(workDir, if v.uuid == "" then v.subDir else v.uuid);
    if workDir != "" { JoinTrimmed(workDir, v.subDir); }
    CleanTrimmed(v.subDir);
    if MountPath(workDir, v) != "" { JoinTrimmed(MountPath(workDir, v), v.subDir); }
  }

  // ----- what deleting a volume does

  datatype DeleteAction = Remove | Keep | MoveAside

  function ActionOf(onDelete: string): DeleteAction {
    if EqualFold(onDelete, RETAIN) then Keep
    else if EqualFold(onDelete, ARCHIVE) then MoveAside
    else Remove
  }

  /** What each policy does, in any letter case. */
  lemma {:induction false} Actions(onDelete: string)
    ensures EqualFold(onDelete, "retain") ==> ActionOf(onDelete) == Keep
    ensures EqualFold(onDelete, "archive") ==> ActionOf(onDelete) == MoveAside
    ensures EqualFold(onDelete, "delete") || onDelete == "" ==> ActionOf(onDelete) == Remove
    ensures ActionOf(onDelete) != Remove ==> EqualFold(onDelete, "retain") || EqualFold(onDelete, "archive")
  {
    PoliciesDiffer();
  }

  lemma {:induction false} PoliciesDiffer()
    ensures !EqualFold("retain", "archive") && !EqualFold("retain", "delete") && !EqualFold("archive", "delete")
    ensures |Lower("retain")| == 6 && |Lower("archive")| == 7 && |Lower("delete")| == 6
  {
    assert Lower("retain")[0] == 'r' && Lower("delete")[0] == 'd';
  }

  /** The action taken on deletion: the recorded one, or else the driver's default. */
  function Resolve(v: Volume, default: string): DeleteAction {
    ActionOf(if v.onDelete == "" then default else v.onDelete)
  }

  /** A volume's policy survives its identifier exactly when the policy is recorded or the driver's
      default at deletion is to delete: an explicit "delete" gives way to a default of another kind. */
  lemma {:induction false} ActionSurvives(v: Volume, default: string)
    ensures Resolve(Decoded(v), default) == ActionOf(v.onDelete) <==>
            ActionOf(v.onDelete) != Remove || ActionOf(default) == Remove
  {
  }

  lemma {:induction false} NotEmpty(x: string)
    requires x != ""
    ensures !EqualFold("", x)
  {
  }

  /** The driver never sets its default, and an empty default removes: every policy survives. */
  lemma {:induction false} ActionSurvivesUnset(v: Volume)
    ensures Resolve(Decoded(v), "") == ActionOf(v.onDelete)
  {
  }

  /** With a default of "retain" an explicit "delete" is lost. */
  lemma {:induction false} ActionLost(v: Volume)
    requires v.onDelete == DELETE
    ensures ActionOf(v.onDelete) == Remove && Resolve(Decoded(v), RETAIN) == Keep
  {
  }

  const SUPPORTED := ["", DELETE, RETAIN, ARCHIVE]

  predicate Supported(onDelete: string) {
    onDelete == "" || EqualFold(DELETE, onDelete) || ActionOf(onDelete) != Remove
  }

  lemma {:induction false} FoldsToOneOf(a: string, b: string, c: string, values: seq<string>, x: string)
    requires values == ["", a, b, c]
    ensures (exists i :: 0 <= i < |values| && EqualFold(values[i], x)) <==>
            x == "" || EqualFold(a, x) || EqualFold(b, x) || EqualFold(c, x)
  {
    assert values[0] == "" && values[1] == a && values[2] == b && values[3] == c;
    if x != "" { NotEmpty(x); }
  }

  /** The search through a list of policies. */
  method FoldsToAny(values: seq<string>, x: string) returns (ok: bool)
    ensures ok <==> exists i :: 0 <= i < |values| && EqualFold(values[i], x)
  {
    for i := 0 to |values|
      invariant forall j | 0 <= j < i :: !EqualFold(values[j], x)
    {
      if EqualFold(values[i], x) {
        return true;
      }
    }
    return false;
  }

  method ValidateOnDelete(onDelete: string) returns (ok: bool)
    ensures ok <==> Supported(onDelete)
  {
    FoldsToOneOf(DELETE, RETAIN, ARCHIVE, SUPPORTED, onDelete);
    ok := FoldsToAny(SUPPORTED, onDelete);
  }
}
